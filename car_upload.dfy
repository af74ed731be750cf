/**
 The "Add New Car" form: the listing fields, the tag list typed one tag at
 a time, the image list filled by dropping or choosing files, the drop
 zone's highlight, the validation that runs on submit and the multipart
 body that is posted when it passes.

 Files are opaque values; the multipart body is the ordered list of
 (name, value) entries appended to the `FormData`.
 */
module CarUpload {
  import opened Text
  import opened Sequences
  import opened Replies

  const MaxYear := 2024

  const TitleRequired := "Title is required."
  const DescriptionRequired := "Description is required."
  const YearRequired := "Year of manufacture is required."
  const YearTooLate := "Year cannot be more than 2024."
  const CompanyRequired := "Company name is required."
  const DriveTypeRequired := "Drive type is required."
  const ImagesRequired := "At least three image is required."

  const UploadedNotice := "Car uploaded successfully!"
  const UploadFailedNotice := "Car upload failed, please try again."

  /** The keys `validateFields` can set in its dictionary. */
  datatype Field = Title | Description | Year | Company | DriveType | Images

  const AllFields: set<Field> := {Title, Description, Year, Company, DriveType, Images}

  /** A chosen or dropped file. */
  datatype ImageFile = ImageFile(id: nat)

  /** `formData`. `year` is the number held by the year input, or `None` when it is empty. */
  datatype Listing = Listing(
    title: string,
    description: string,
    year: Option<int>,
    company: string,
    driveType: string,
    tags: seq<string>)

  /** `!s.trim()`. */
  predicate Blank(s: string) {
    Trim(s) == ""
  }

  /** A value is blank exactly when it is nothing but white space. */
  lemma BlankIffAllSpaces(s: string)
    ensures Blank(s) <==> forall i :: 0 <= i < |s| ==> IsJsSpace(s[i])
  {
    TrimEmptyIffAllSpaces(s);
  }

  /** The message `validateFields` records under `key`, if any. */
  function RuleFor(key: Field, f: Listing, imageCount: nat): Option<string> {
    match key
    case Title => if Blank(f.title) then Some(TitleRequired) else None
    case Description => if Blank(f.description) then Some(DescriptionRequired) else None
    case Year =>
      if f.year.None? then Some(YearRequired)
      else if f.year.value > MaxYear then Some(YearTooLate)
      else None
    case Company => if Blank(f.company) then Some(CompanyRequired) else None
    case DriveType => if f.driveType == "" then Some(DriveTypeRequired) else None
    case Images => if imageCount == 0 then Some(ImagesRequired) else None
  }

  /** One line of `validateFields`: the rule's message is stored under `key` when the rule fails. */
  function Record(m: map<Field, string>, key: Field, f: Listing, imageCount: nat): map<Field, string> {
    if RuleFor(key, f, imageCount).Some? then m[key := RuleFor(key, f, imageCount).value] else m
  }

  /** The error dictionary, built as `validateFields` builds it: one rule after another. */
  function FieldErrors(f: Listing, imageCount: nat): map<Field, string> {
    var titled := Record(map[], Title, f, imageCount);
    var described := Record(titled, Description, f, imageCount);
    var dated := Record(described, Year, f, imageCount);
    var named := Record(dated, Company, f, imageCount);
    var driven := Record(named, DriveType, f, imageCount);
    Record(driven, Images, f, imageCount)
  }

  /** The dictionary has an entry for a field exactly when its rule fails, and the entry is that rule's message. */
  lemma FieldErrorsEntry(f: Listing, imageCount: nat, key: Field)
    ensures key in FieldErrors(f, imageCount) <==> RuleFor(key, f, imageCount).Some?
    ensures key in FieldErrors(f, imageCount) ==> FieldErrors(f, imageCount)[key] == RuleFor(key, f, imageCount).value
  {
    match key
    case Title =>
    case Description =>
    case Year =>
    case Company =>
    case DriveType =>
    case Images =>
  }

  /** A dictionary that records exactly the failing rules, each with its message, is the error dictionary. */
  lemma FieldErrorsByRules(f: Listing, imageCount: nat, m: map<Field, string>)
    requires Title in m <==> RuleFor(Title, f, imageCount).Some?
    requires Description in m <==> RuleFor(Description, f, imageCount).Some?
    requires Year in m <==> RuleFor(Year, f, imageCount).Some?
    requires Company in m <==> RuleFor(Company, f, imageCount).Some?
    requires DriveType in m <==> RuleFor(DriveType, f, imageCount).Some?
    requires Images in m <==> RuleFor(Images, f, imageCount).Some?
    requires forall k :: k in m ==> m[k] == RuleFor(k, f, imageCount).value
    ensures m == FieldErrors(f, imageCount)
  {
    var e := FieldErrors(f, imageCount);
    forall k ensures (k in m <==> k in e) && (k in m ==> m[k] == e[k]) {
      FieldErrorsEntry(f, imageCount, k);
      match k
      case Title =>
      case Description =>
      case Year =>
      case Company =>
      case DriveType =>
      case Images =>
    }
    assert m.Keys == e.Keys;
  }

  /** Everything `validateFields` asks for. Note that one image is enough, whatever the message says. */
  predicate Complete(f: Listing, imageCount: nat) {
    && !Blank(f.title)
    && !Blank(f.description)
    && f.year.Some? && f.year.value <= MaxYear
    && !Blank(f.company)
    && f.driveType != ""
    && imageCount > 0
  }

  /** The dictionary is empty exactly when the listing is complete. */
  lemma NoErrorsIffComplete(f: Listing, imageCount: nat)
    ensures FieldErrors(f, imageCount) == map[] <==> Complete(f, imageCount)
  {
    var errs := FieldErrors(f, imageCount);
    FieldErrorsEntry(f, imageCount, Title);
    FieldErrorsEntry(f, imageCount, Description);
    FieldErrorsEntry(f, imageCount, Year);
    FieldErrorsEntry(f, imageCount, Company);
    FieldErrorsEntry(f, imageCount, DriveType);
    FieldErrorsEntry(f, imageCount, Images);
    if errs == map[] {
      assert Title !in errs && Description !in errs && Year !in errs;
      assert Company !in errs && DriveType !in errs && Images !in errs;
    } else {
      var k :| k in errs;
    }
  }

  /** The two year messages never both apply: an empty year is "required", and only a
      filled-in year after 2024 is "too late". */
  lemma YearMessages(f: Listing, imageCount: nat)
    ensures Year in FieldErrors(f, imageCount) <==> f.year.None? || f.year.value > MaxYear
    ensures f.year.None? ==> FieldErrors(f, imageCount)[Year] == YearRequired
    ensures f.year.Some? && f.year.value > MaxYear ==> FieldErrors(f, imageCount)[Year] == YearTooLate
  {
    FieldErrorsEntry(f, imageCount, Year);
  }

  /** A single image satisfies the image rule. */
  lemma OneImageIsEnough(f: Listing)
    ensures Images !in FieldErrors(f, 1)
  {
    FieldErrorsEntry(f, 1, Images);
  }

  /** A value in the multipart body. */
  datatype PartValue = Text(text: string) | Number(n: int) | File(file: ImageFile)

  /** One `data.append(name, value)`. */
  datatype Part = Part(name: string, value: PartValue)

  function AsText(s: string): PartValue { Text(s) }
  function AsFile(f: ImageFile): PartValue { File(f) }

  /** One entry named `name` per element of `values`, in order (a `forEach` of appends). */
  function Entries<T>(name: string, values: seq<T>, wrap: T -> PartValue): (r: seq<Part>)
    ensures |r| == |values|
    ensures forall i :: 0 <= i < |values| ==> r[i] == Part(name, wrap(values[i]))
  {
    if values == [] then [] else [Part(name, wrap(values[0]))] + Entries(name, values[1..], wrap)
  }

  /** Appending one more value appends one more entry. */
  lemma {:induction false} EntriesSnoc<T>(name: string, values: seq<T>, i: nat, wrap: T -> PartValue)
    requires i < |values|
    ensures Entries(name, values[..i + 1], wrap) == Entries(name, values[..i], wrap) + [Part(name, wrap(values[i]))]
  {
    var r, s := Entries(name, values[..i + 1], wrap), Entries(name, values[..i], wrap);
    assert |r| == |s| + 1;
    forall k | 0 <= k < |r|
      ensures r[k] == (s + [Part(name, wrap(values[i]))])[k]
    {
      if k < i {
        assert r[k] == Part(name, wrap(values[..i + 1][k]));
        assert s[k] == Part(name, wrap(values[..i][k]));
      }
    }
  }

  /** The five single-valued fields, in the order they are appended. */
  function FieldParts(f: Listing): seq<Part>
    requires f.year.Some?
  {
    [ Part("title", Text(f.title)),
      Part("description", Text(f.description)),
      Part("year", Number(f.year.value)),
      Part("company", Text(f.company)),
      Part("driveType", Text(f.driveType)) ]
  }

  /** The body that `handleSubmit` posts: the five fields, then the tags, then the images. */
  function UploadBody(f: Listing, images: seq<ImageFile>): seq<Part>
    requires f.year.Some?
  {
    FieldParts(f) + Entries("tags[]", f.tags, AsText) + Entries("images", images, AsFile)
  }

  /** What one part contributes to `ValuesNamed`. */
  function Pick(p: Part, name: string): seq<PartValue> {
    if p.name == name then [p.value] else []
  }

  /** The values a reader of the body finds under `name`, in order. */
  function ValuesNamed(parts: seq<Part>, name: string): seq<PartValue> {
    if parts == [] then [] else Pick(parts[0], name) + ValuesNamed(parts[1..], name)
  }

  /** Reading a concatenated body by name reads each half in turn. */
  lemma {:induction false} ValuesNamedAppend(a: seq<Part>, b: seq<Part>, name: string)
    ensures ValuesNamed(a + b, name) == ValuesNamed(a, name) + ValuesNamed(b, name)
  {
    if a == [] {
      assert a + b == b;
    } else {
      var rest := a[1..];
      ValuesNamedAppend(rest, b, name);
      assert (a + b)[0] == a[0] && (a + b)[1..] == rest + b;
      assert ValuesNamed(a + b, name) == Pick(a[0], name) + ValuesNamed(rest + b, name);
      AppendAssociates(Pick(a[0], name), ValuesNamed(rest, name), ValuesNamed(b, name));
    }
  }

  lemma {:induction false} ValuesNamedEntries<T>(name: string, values: seq<T>, wrap: T -> PartValue, other: string)
    ensures ValuesNamed(Entries(name, values, wrap), other) ==
              if other == name then seq(|values|, i requires 0 <= i < |values| => wrap(values[i])) else []
  {
    if values != [] {
      ValuesNamedEntries(name, values[1..], wrap, other);
    }
  }

  lemma ValuesNamedOne(p: Part, name: string)
    ensures ValuesNamed([p], name) == Pick(p, name)
  {
    assert [p][1..] == [];
  }

  lemma ValuesNamedFive(p: seq<Part>, name: string)
    requires |p| == 5
    ensures ValuesNamed(p, name) == Pick(p[0], name) + Pick(p[1], name) + Pick(p[2], name) + Pick(p[3], name) + Pick(p[4], name)
  {
    var a, b, c, d := [p[0]], [p[1]], [p[2]], [p[3]];
    assert p == a + b + c + d + [p[4]];
    ValuesNamedAppend(a + b + c + d, [p[4]], name);
    ValuesNamedAppend(a + b + c, d, name);
    ValuesNamedAppend(a + b, c, name);
    ValuesNamedAppend(a, b, name);
    ValuesNamedOne(p[0], name);
    ValuesNamedOne(p[1], name);
    ValuesNamedOne(p[2], name);
    ValuesNamedOne(p[3], name);
    ValuesNamedOne(p[4], name);
  }

  /** Each of the five fields is found once under its own name; no tag or image entry is among them. */
  lemma FieldPartsValues(f: Listing, name: string)
    requires f.year.Some?
    ensures name == "title" ==> ValuesNamed(FieldParts(f), name) == [Text(f.title)]
    ensures name == "description" ==> ValuesNamed(FieldParts(f), name) == [Text(f.description)]
    ensures name == "year" ==> ValuesNamed(FieldParts(f), name) == [Number(f.year.value)]
    ensures name == "company" ==> ValuesNamed(FieldParts(f), name) == [Text(f.company)]
    ensures name == "driveType" ==> ValuesNamed(FieldParts(f), name) == [Text(f.driveType)]
    ensures name == "tags[]" || name == "images" ==> ValuesNamed(FieldParts(f), name) == []
  {
    ValuesNamedFive(FieldParts(f), name);
    assert |"title"| == 5 && |"description"| == 11 && |"year"| == 4 && |"company"| == 7 && |"driveType"| == 9;
    assert |"tags[]"| == 6 && |"images"| == 6;
  }

  /**
   Reading the body back by name gives the form back: one value for each of
   the five fields, every tag in order under `tags[]` and every image in
   order under `images`.
   */
  lemma UploadBodyRoundTrip(f: Listing, images: seq<ImageFile>, name: string)
    requires f.year.Some?
    ensures name == "title" ==> ValuesNamed(UploadBody(f, images), name) == [Text(f.title)]
    ensures name == "description" ==> ValuesNamed(UploadBody(f, images), name) == [Text(f.description)]
    ensures name == "year" ==> ValuesNamed(UploadBody(f, images), name) == [Number(f.year.value)]
    ensures name == "company" ==> ValuesNamed(UploadBody(f, images), name) == [Text(f.company)]
    ensures name == "driveType" ==> ValuesNamed(UploadBody(f, images), name) == [Text(f.driveType)]
    ensures name == "tags[]" ==> ValuesNamed(UploadBody(f, images), name) == seq(|f.tags|, i requires 0 <= i < |f.tags| => Text(f.tags[i]))
    ensures name == "images" ==> ValuesNamed(UploadBody(f, images), name) == seq(|images|, i requires 0 <= i < |images| => File(images[i]))
  {
    if name == "tags[]" {
      UploadBodyTags(f, images);
    } else if name == "images" {
      UploadBodyImages(f, images);
    } else {
      UploadBodyFields(f, images, name);
      FieldPartsValues(f, name);
    }
  }

  /** The body split at its three groups of appends. */
  lemma UploadBodyGroups(f: Listing, images: seq<ImageFile>, name: string)
    requires f.year.Some?
    ensures ValuesNamed(UploadBody(f, images), name) ==
              ValuesNamed(FieldParts(f), name) + ValuesNamed(Entries("tags[]", f.tags, AsText), name)
              + ValuesNamed(Entries("images", images, AsFile), name)
  {
    var head, tags := FieldParts(f), Entries("tags[]", f.tags, AsText);
    ValuesNamedAppend(head + tags, Entries("images", images, AsFile), name);
    ValuesNamedAppend(head, tags, name);
  }

  /** Under any other name, only the five field entries can match. */
  lemma UploadBodyFields(f: Listing, images: seq<ImageFile>, name: string)
    requires f.year.Some? && name != "tags[]" && name != "images"
    ensures ValuesNamed(UploadBody(f, images), name) == ValuesNamed(FieldParts(f), name)
  {
    UploadBodyGroups(f, images, name);
    ValuesNamedEntries("tags[]", f.tags, AsText, name);
    ValuesNamedEntries("images", images, AsFile, name);
  }

  /** Under `tags[]`, only the tag entries match. */
  lemma UploadBodyTags(f: Listing, images: seq<ImageFile>)
    requires f.year.Some?
    ensures ValuesNamed(UploadBody(f, images), "tags[]") == seq(|f.tags|, i requires 0 <= i < |f.tags| => Text(f.tags[i]))
  {
    var own := Entries("tags[]", f.tags, AsText);
    var other := Entries("images", images, AsFile);
    UploadBodyGroups(f, images, "tags[]");
    FieldPartsValues(f, "tags[]");
    ValuesNamedEntries("images", images, AsFile, "tags[]");
    assert "images"[0] != "tags[]"[0];
    assert ValuesNamed(other, "tags[]") == [];
    ValuesNamedEntries("tags[]", f.tags, AsText, "tags[]");
    assert ValuesNamed(own, "tags[]") == seq(|f.tags|, i requires 0 <= i < |f.tags| => AsText(f.tags[i]));
  }

  /** Under `images`, only the image entries match. */
  lemma UploadBodyImages(f: Listing, images: seq<ImageFile>)
    requires f.year.Some?
    ensures ValuesNamed(UploadBody(f, images), "images") == seq(|images|, i requires 0 <= i < |images| => File(images[i]))
  {
    var own := Entries("images", images, AsFile);
    var other := Entries("tags[]", f.tags, AsText);
    UploadBodyGroups(f, images, "images");
    FieldPartsValues(f, "images");
    ValuesNamedEntries("tags[]", f.tags, AsText, "images");
    assert "images"[0] != "tags[]"[0];
    assert ValuesNamed(other, "images") == [];
    ValuesNamedEntries("images", images, AsFile, "images");
    assert ValuesNamed(own, "images") == seq(|images|, i requires 0 <= i < |images| => AsFile(images[i]));
  }

  /** `tags.filter(tag => tag !== removed)`. */
  function WithoutTag(tags: seq<string>, removed: string): seq<string> {
    Filter(tags, t => t != removed)
  }

  /** Removing a tag drops every copy of it and keeps every other tag, as often as it occurred and in order. */
  lemma WithoutTagSpec(tags: seq<string>, removed: string)
    ensures removed !in WithoutTag(tags, removed)
    ensures multiset(WithoutTag(tags, removed)) == multiset(tags)[removed := 0]
    ensures IsSubsequence(WithoutTag(tags, removed), tags)
  {
    var keep := (t: string) => t != removed;
    forall x ensures multiset(WithoutTag(tags, removed))[x] == multiset(tags)[removed := 0][x] {
      FilterMultiset(tags, keep, x);
    }
    FilterIsSubsequence(tags, keep);
  }

  /** `files.filter((_, i) => i !== index)`: drops the element at `index`, if there is one. */
  function WithoutIndex<T>(s: seq<T>, index: int): (r: seq<T>)
    ensures r == if 0 <= index < |s| then s[..index] + s[index + 1..] else s
  {
    if s == [] then []
    else (if index == 0 then [] else [s[0]]) + WithoutIndex(s[1..], index - 1)
  }

  /** What the upload request leads to: the alert shown, if any. Axios rejects every status outside
      2xx, and of the successful ones only 200 and 201 are acknowledged (and navigate home). */
  function UploadNotice(reply: Reply<int>): (notice: Option<string>)
    ensures reply.Rejected? ==> notice == Some(UploadFailedNotice)
    ensures reply.Succeeded? ==> (notice == Some(UploadedNotice) <==> reply.data == 200 || reply.data == 201)
    ensures reply.Succeeded? && reply.data != 200 && reply.data != 201 ==> notice.None?
  {
    match reply
    case Succeeded(status) => if status == 200 || status == 201 then Some(UploadedNotice) else None
    case Rejected(_) => Some(UploadFailedNotice)
  }

  class CarUploadForm {
    var formData: Listing
    var tagInput: string
    var imageFiles: seq<ImageFile>
    var dragActive: bool
    var errors: map<Field, string>

    /** The form as first rendered. */
    constructor ()
      ensures formData == Listing("", "", None, "", "", [])
      ensures tagInput == "" && imageFiles == [] && !dragActive && errors == map[]
    {
      formData := Listing("", "", None, "", "", []);
      tagInput := "";
      imageFiles := [];
      dragActive := false;
      errors := map[];
    }

    /**
     `handleTagKeyDown`. Enter with a non-blank input appends the trimmed
     input to the tags (duplicates allowed), clears the input and prevents
     the key's default action; anything else changes nothing.
     */
    method TagKeyDown(key: string) returns (prevented: bool)
      modifies this`formData, this`tagInput
      ensures prevented == (key == "Enter" && !Blank(old(tagInput)))
      ensures prevented ==> formData == old(formData).(tags := old(formData.tags) + [Trim(old(tagInput))]) && tagInput == ""
      ensures !prevented ==> formData == old(formData) && tagInput == old(tagInput)
    {
      prevented := false;
      if key == "Enter" && !Blank(tagInput) {
        prevented := true;
        formData := formData.(tags := formData.tags + [Trim(tagInput)]);
        tagInput := "";
      }
    }

    /** `removeTag`. */
    method RemoveTag(tag: string)
      modifies this`formData
      ensures formData == old(formData).(tags := WithoutTag(old(formData.tags), tag))
    {
      formData := formData.(tags := WithoutTag(formData.tags, tag));
    }

    /** `handleDrag`: entering or moving over the drop zone highlights it, leaving it removes the highlight. */
    method Drag(eventType: string)
      modifies this`dragActive
      ensures eventType == "dragenter" || eventType == "dragover" ==> dragActive
      ensures eventType == "dragleave" ==> !dragActive
      ensures eventType !in {"dragenter", "dragover", "dragleave"} ==> dragActive == old(dragActive)
    {
      if eventType == "dragenter" || eventType == "dragover" {
        dragActive := true;
      } else if eventType == "dragleave" {
        dragActive := false;
      }
    }

    /** `handleDrop`: removes the highlight and appends the dropped files after the existing ones. */
    method Drop(files: seq<ImageFile>)
      modifies this`dragActive, this`imageFiles
      ensures !dragActive
      ensures imageFiles == old(imageFiles) + files
    {
      dragActive := false;
      imageFiles := imageFiles + files;
    }

    /** `handleImageChange`: appends the chosen files after the existing ones. */
    method ImageChange(files: seq<ImageFile>)
      modifies this`imageFiles
      ensures imageFiles == old(imageFiles) + files
    {
      imageFiles := imageFiles + files;
    }

    /** The remove button of preview `index`. */
    method RemoveImage(index: nat)
      modifies this`imageFiles
      ensures imageFiles == WithoutIndex(old(imageFiles), index)
    {
      imageFiles := WithoutIndex(imageFiles, index);
    }

    /** `validateFields`: fills the dictionary one rule after another. */
    method ValidateFields() returns (newErrors: map<Field, string>)
      ensures newErrors == FieldErrors(formData, |imageFiles|)
    {
      var n := |imageFiles|;
      newErrors := map[];
      ghost var before := newErrors;
      if Blank(formData.title) {
        newErrors := newErrors[Title := TitleRequired];
      }
      assert newErrors == Record(before, Title, formData, n);
      before := newErrors;
      if Blank(formData.description) {
        newErrors := newErrors[Description := DescriptionRequired];
      }
      assert newErrors == Record(before, Description, formData, n);
      before := newErrors;
      if formData.year.None? {
        newErrors := newErrors[Year := YearRequired];
      } else if formData.year.value > MaxYear {
        newErrors := newErrors[Year := YearTooLate];
      }
      assert newErrors == Record(before, Year, formData, n);
      before := newErrors;
      if Blank(formData.company) {
        newErrors := newErrors[Company := CompanyRequired];
      }
      assert newErrors == Record(before, Company, formData, n);
      before := newErrors;
      if formData.driveType == "" {
        newErrors := newErrors[DriveType := DriveTypeRequired];
      }
      assert newErrors == Record(before, DriveType, formData, n);
      before := newErrors;
      if n == 0 {
        newErrors := newErrors[Images := ImagesRequired];
      }
      assert newErrors == Record(before, Images, formData, n);
    }

    /** Builds the `FormData`: five appends, then one per tag, then one per image. */
    method BuildUploadBody() returns (parts: seq<Part>)
      requires formData.year.Some?
      ensures parts == UploadBody(formData, imageFiles)
    {
      var head := [ Part("title", Text(formData.title)),
        Part("description", Text(formData.description)),
        Part("year", Number(formData.year.value)),
        Part("company", Text(formData.company)),
        Part("driveType", Text(formData.driveType)) ];
      assert head == FieldParts(formData);
      var tags := formData.tags;
      parts := head;
      var i := 0;
      while i < |tags|
        invariant 0 <= i <= |tags|
        invariant parts == head + Entries("tags[]", tags[..i], AsText)
      {
        EntriesSnoc("tags[]", tags, i, AsText);
        parts := parts + [Part("tags[]", Text(tags[i]))];
        i := i + 1;
      }
      assert tags[..i] == tags;
      var j := 0;
      while j < |imageFiles|
        invariant 0 <= j <= |imageFiles|
        invariant parts == head + Entries("tags[]", tags, AsText) + Entries("images", imageFiles[..j], AsFile)
      {
        EntriesSnoc("images", imageFiles, j, AsFile);
        parts := parts + [Part("images", File(imageFiles[j]))];
        j := j + 1;
      }
      assert imageFiles[..j] == imageFiles;
    }

    /**
     `handleSubmit` up to the request. With any validation error the errors
     are stored and nothing is sent; otherwise the stored errors are left as
     they were and the body is built.
     */
    method Submit() returns (body: Option<seq<Part>>)
      modifies this`errors
      ensures !Complete(formData, |imageFiles|) ==> body.None? && errors == FieldErrors(formData, |imageFiles|) && errors != map[]
      ensures Complete(formData, |imageFiles|) ==> body == Some(UploadBody(formData, imageFiles)) && errors == old(errors)
    {
      var validationErrors := ValidateFields();
      NoErrorsIffComplete(formData, |imageFiles|);
      if |validationErrors| > 0 {
        errors := validationErrors;
        return None;
      }
      var parts := BuildUploadBody();
      body := Some(parts);
    }
  }
}
