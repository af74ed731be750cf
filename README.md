# CarHub client pages, modelled in Dafny

This project models the logic of the six React pages of the CarHub client:
- the e-mail verification screen (`verify-otp.js`);
- the "Add New Car" form (`carUpload.js`);
- the car details carousel (`cardetatils.js`);
- the catalogue search on the landing page (`landingpage.js`);
- the registration form (`register.js`);
- the login form (`login.js`).

Each page is one module:
- `OtpVerification` (verify_otp.dfy)
- `CarUpload` (car_upload.dfy)
- `CarDetails` (car_details.dfy)
- `Catalogue` (landing_page.dfy)
- `Registration` (register.dfy)
- `Login` (login.dfy)

Three modules are shared:
- `Text` (text.dfy): JavaScript's `trim`, ASCII `toLowerCase`, `includes`, `join('')` and the character classes the regular expressions use.
- `Sequences` (sequences.dfy): `Array.prototype.filter`.
- `Replies` (replies.dfy): a request's outcome, given as an input, and the shared `error.response?.data?.message || fallback` text.

Pages whose handlers update React state in steps are classes. Their fields are the state variables, and their methods are the handlers:
- `OtpScreen` keeps the six boxes in a six-element array, next to the cool-down counter and Formik's `otpCode` value.
- `CarUploadForm` and `CarDetailsPage` follow the same pattern.

The landing page, registration and login logic is pure: schemas, a filter and an object mapping. It is written as functions with lemmas.

Requests, timers and focus are handled as follows:
- Network replies are inputs (`Reply<T>`).
- A second of the resend timer is a `Tick` call.
- Moving focus is returned as the index of the box that receives it.

Some behaviour of the pages is easy to miss. The model keeps it as written:

- **Stale form field on the verification screen.** The `onChange` handler calls `setFieldValue('otpCode', otp.join(''))` with the boxes as rendered before the change. The paste and Backspace handlers never update the field at all. Formik checks its schema against this field, but the request sends the boxes.
  - A code typed digit by digit is blocked on the first submit (`TypedCodeBlockedOnFirstSubmit`).
  - On a fresh screen a pasted code is blocked, because the field is still empty (`PastedCodeBlockedOnSubmit`).
  - Any change event copies the boxes into the field, even a rejected one. Typing a letter into a filled box changes no box, but it brings the field up to date (`RejectedLetterResyncsField`).
- **Empty fields draw one message.** Formik hands an empty value to the Yup schema as `undefined`. Every rule except `required` lets `undefined` through, so an empty field shows only its "… is required" message on every form.
- **White space in the boxes.** The box filter is `isNaN(value)`, and `Number(" ")` is 0. A space is therefore accepted, and six spaces enable the submit button (`SpacesEnableSubmit`).
- **Image count.** The upload form says "At least three image is required." but checks only for zero images (`OneImageIsEnough`).
- **Upload status.** A successful upload is acknowledged only for status 200 or 201. Axios rejects statuses outside 2xx, which show the failure alert. Other 2xx statuses show no alert at all (`UploadNotice`).
- **Carousel index after reloading.** The carousel index is not reset when another listing is loaded. From an index past the end, "next" never wraps (`PastTheEndNeverWraps`).

The verification screen is also simpler than its purpose might suggest:
- The address comes from one source only: `location.state?.email || ''`.
- There are no alerts or delayed navigation on that screen.
- Verify and resend are not guarded against an empty address.
- A failed resend only logs the error.

## Model

| member | source | states |
|---|---|---|
| OtpVerification.SlotOk | src/pages/verify-otp.js:37-41 | a box holds nothing or one character that `isNaN` does not reject (digit or white space) |
| OtpVerification.IsPastableCode | src/pages/verify-otp.js:69 | the paste test `/^\d{6}$/`: exactly six ASCII digits; text passing it fills the boxes, any other leaves them (`OtpScreen.Paste`) |
| OtpVerification.Split | src/pages/verify-otp.js:70 | `split('')` yields one piece per character and joining the pieces gives the pasted text back |
| OtpVerification.IsNaN | src/pages/verify-otp.js:38 | `isNaN` of a value of at most one character: true exactly for one character that is neither an ASCII digit nor white space (`SlotOk`, `SpacePassesFilter`) |
| OtpVerification.OtpCodeErrors | src/pages/verify-otp.js:29-34 | the schema's messages are empty exactly when the field is six ASCII digits; an empty field draws only "OTP is required"; a non-empty field of the wrong length draws the length message and never the required one |
| OtpVerification.SubmitEnabled | src/pages/verify-otp.js:223 | the button's `disabled` test negated: not submitting and the joined boxes six characters long (`SubmitEnabledIffAllFilled`) |
| OtpVerification.SubmitEnabledIffAllFilled | src/pages/verify-otp.js:223 | with boxes of at most one character, the button is enabled exactly when nothing is submitting and no box is empty |
| OtpVerification.SpacePassesFilter | src/pages/verify-otp.js:38 | a single space passes the `isNaN` filter |
| OtpVerification.SpacesEnableSubmit | src/pages/verify-otp.js:221-223 | six boxes of spaces enable the button although the schema rejects the joined text |
| OtpVerification.AfterTick | src/pages/verify-otp.js:19-26 | a second decrements a positive counter, sets `canResend` when it reaches 0, does nothing at 0, and keeps the counter within 0..60 with `canResend` iff it is 0 |
| OtpVerification.CountdownSteps | src/pages/verify-otp.js:19-26 | after k of t seconds, t-k remain and resending is enabled only once all t have passed |
| OtpVerification.ResendEnabledAfterSixtySeconds | src/pages/verify-otp.js:12-26 | from the initial state, resending becomes possible after exactly 60 seconds |
| OtpVerification.ReadyIsStable | src/pages/verify-otp.js:20-25 | once resending is enabled, further seconds change nothing |
| OtpVerification.OtpScreen.constructor | src/pages/verify-otp.js:10-16 | six empty boxes, a 60-second counter, resending disabled, an empty form field, the handed-over address or "" |
| OtpVerification.OtpScreen.ResendOffered | src/pages/verify-otp.js:247 | the `canResend ?` branch of the render: the resend button is shown while `canResend` holds (`ResendOfferedIffCountdownDone`) |
| OtpVerification.OtpScreen.ResendOfferedIffCountdownDone | src/pages/verify-otp.js:247-253 | on a valid screen the resend button is rendered exactly when the countdown reads 0 |
| OtpVerification.OtpScreen.ChangeSlot | src/pages/verify-otp.js:37-48 | delivered only for a value different from the box's; a rejected value changes no box; an accepted one is stored at `index` and focus moves on when it is non-empty and a next box exists; the form field receives the boxes as they were before the change (line 210) |
| OtpVerification.OtpScreen.KeyDown | src/pages/verify-otp.js:51-63 | Backspace on an empty box after the first clears and focuses the previous box, otherwise clears the current one; other keys change nothing |
| OtpVerification.OtpScreen.Paste | src/pages/verify-otp.js:66-74 | six ASCII digits fill the boxes one digit each, joining back to the pasted text, with focus on the last box; any other text changes nothing |
| OtpVerification.OtpScreen.Tick | src/pages/verify-otp.js:19-26 | the counter and flag become `AfterTick` of their old values, keeping the screen's invariant |
| OtpVerification.OtpScreen.Resend | src/pages/verify-otp.js:101-113 | a successful resend restarts the 60-second cool-down and empties all boxes; a failed one changes nothing |
| OtpVerification.OtpScreen.Submit | src/pages/verify-otp.js:77-98 | a field that breaks the schema blocks the submit with its messages (only "OTP is required" for an empty field); otherwise the address and the joined boxes are posted, success carries the session, failure the server message or "Invalid OTP. Please try again." |
| OtpVerification.TypeDigitsOneByOne | src/pages/verify-otp.js:208-211 | typing 1 to 6 fills the boxes with those digits but leaves the field at "12345" |
| OtpVerification.TypedCodeBlockedOnFirstSubmit | src/pages/verify-otp.js:208-211 | a code typed digit by digit enables the button but is blocked by the length and digit messages |
| OtpVerification.PastedCodeBlockedOnSubmit | src/pages/verify-otp.js:66-74 | on a fresh screen a pasted code enables the button but the empty field draws exactly "OTP is required" |
| OtpVerification.RejectedLetterResyncsField | src/pages/verify-otp.js:208-211 | after typing the code, a letter typed into the last box is rejected and changes no box, yet the field catches up and the next submit posts the address with "123456" |
| Replies.FailureText | src/pages/verify-otp.js:93 | the server's non-empty message when there is one, otherwise the page's fallback, never empty when the fallback is not |
| Text.TrimStartSpec | src/pages/carUpload.js:23 | leading trimming removes a prefix of white space and stops at the first other character |
| Text.TrimEndSpec | src/pages/carUpload.js:23 | trailing trimming removes a suffix of white space and stops at the last other character |
| Text.TrimIsInnerSlice | src/pages/carUpload.js:39 | `trim()` returns a slice bounded by white space on both sides and starting and ending with other characters |
| Text.Trim | src/pages/carUpload.js:23 | `trim()`: leading then trailing white space removed (`TrimIsInnerSlice`, `TrimEmptyIffAllSpaces`) |
| Text.TrimEmptyIffAllSpaces | src/pages/carUpload.js:23 | `!s.trim()` holds exactly when every character is white space |
| Text.TrimIdempotent | src/pages/carUpload.js:35-39 | a trimmed tag is unchanged by trimming again |
| Text.Lower | src/pages/landingpage.js:33 | lower-casing keeps the length and maps each character by itself |
| Text.LowerIdempotent | src/pages/landingpage.js:33-35 | lower-casing twice is lower-casing once |
| Text.Contains | src/pages/landingpage.js:33-35 | `includes`: the needle is a prefix of the text or of one of its suffixes (`ContainsIffOccurs`) |
| Text.ContainsIffOccurs | src/pages/landingpage.js:33-35 | `includes` holds exactly when the needle is the slice of the text at some position |
| Text.ContainsEmpty | src/pages/landingpage.js:33-35 | every text includes the empty string |
| Text.Join | src/pages/verify-otp.js:79 | `join('')`: the pieces concatenated in order (`JoinAppend`, `JoinShortParts`, `JoinSingletons`) |
| Text.JoinAppend | src/pages/verify-otp.js:79 | joining two lists of pieces one after the other is joining each and concatenating the results |
| Text.JoinShortParts | src/pages/verify-otp.js:223 | joining pieces of at most one character gives at most one character per piece, and exactly one per piece iff no piece is empty |
| Text.JoinSingletons | src/pages/verify-otp.js:70 | joining one-character pieces puts their characters side by side |
| Sequences.Filter | src/pages/landingpage.js:32-36 | the result is no longer than the input, holds only elements that pass, and holds every element that passes |
| Sequences.FilterIsSubsequence | src/pages/landingpage.js:32 | the filtered list keeps the input's order |
| Sequences.FilterMultiset | src/pages/carUpload.js:49 | each element is kept as often as it occurs if it passes, and not at all otherwise |
| Sequences.FilterIdempotent | src/pages/landingpage.js:32-36 | filtering again with the same test changes nothing |
| Sequences.FilterKeepsAll | src/pages/landingpage.js:32-36 | a test that every element passes keeps the whole list |
| Sequences.FilterCongruent | src/pages/landingpage.js:33-35 | tests that agree on every element filter alike |
| CarUpload.RuleFor | src/pages/carUpload.js:23-29 | the message one line of `validateFields` records, if its test fails (`NoErrorsIffComplete`, `YearMessages`) |
| CarUpload.Blank | src/pages/carUpload.js:23 | `!value.trim()`: the value is nothing but white space (`BlankIffAllSpaces`) |
| CarUpload.BlankIffAllSpaces | src/pages/carUpload.js:23-27 | a title, description or company counts as missing exactly when every character of it is white space |
| CarUpload.Record | src/pages/carUpload.js:23-29 | one line of `validateFields`: the rule's message is stored under its key when the rule fails, and the dictionary is otherwise left alone (`FieldErrorsEntry`) |
| CarUpload.FieldErrors | src/pages/carUpload.js:21-31 | the dictionary the six lines build one after another (`FieldErrorsEntry`, `FieldErrorsByRules`, `NoErrorsIffComplete`) |
| CarUpload.FieldErrorsEntry | src/pages/carUpload.js:21-31 | the dictionary has an entry for a field exactly when that field's rule fails, and the entry is the rule's message |
| CarUpload.FieldErrorsByRules | src/pages/carUpload.js:21-31 | a dictionary recording exactly the failing rules with their messages is the error dictionary |
| CarUpload.NoErrorsIffComplete | src/pages/carUpload.js:80-84 | the dictionary is empty exactly when title, description and company are non-blank, a year no later than 2024 is given, a drive type is chosen and an image is present |
| CarUpload.YearMessages | src/pages/carUpload.js:25-26 | the year has an error exactly when it is empty or after 2024, with "required" for the first and "cannot be more than 2024" for the second |
| CarUpload.OneImageIsEnough | src/pages/carUpload.js:29 | one image satisfies the image rule, although its message asks for three |
| CarUpload.Entries | src/pages/carUpload.js:93-94 | one entry per value, in order, under the given name |
| CarUpload.EntriesSnoc | src/pages/carUpload.js:93-94 | one more `forEach` step appends one more entry |
| CarUpload.UploadBody | src/pages/carUpload.js:87-94 | the five field entries, then one per tag, then one per image (`UploadBodyRoundTrip`) |
| CarUpload.FieldPartsValues | src/pages/carUpload.js:88-92 | each of the five fields is found once under its own name, and no tag or image entry is among them |
| CarUpload.UploadBodyRoundTrip | src/pages/carUpload.js:87-94 | reading the body back by name gives every field, every tag in order and every image in order |
| CarUpload.WithoutTag | src/pages/carUpload.js:49 | `tags.filter(tag => tag !== removed)` (`WithoutTagSpec`) |
| CarUpload.WithoutTagSpec | src/pages/carUpload.js:46-51 | removing a tag drops every copy of it, keeps every other tag as often as it occurred, and keeps their order |
| CarUpload.WithoutIndex | src/pages/carUpload.js:313 | removing preview `index` drops that one file and keeps the rest in order; an index outside the list changes nothing |
| CarUpload.UploadNotice | src/pages/carUpload.js:96-111 | a rejected request alerts failure; a successful one alerts success exactly for status 200 or 201 |
| CarUpload.CarUploadForm.constructor | src/pages/carUpload.js:6-18 | empty fields, no tags, no images, no highlight, no errors |
| CarUpload.CarUploadForm.TagKeyDown | src/pages/carUpload.js:34-43 | Enter with a non-blank input appends the trimmed input, clears it and prevents the default; otherwise nothing changes |
| CarUpload.CarUploadForm.RemoveTag | src/pages/carUpload.js:46-51 | the tags become the filtered tags and nothing else changes |
| CarUpload.CarUploadForm.Drag | src/pages/carUpload.js:54-62 | enter and over highlight the drop zone, leave clears it, other events leave it |
| CarUpload.CarUploadForm.Drop | src/pages/carUpload.js:64-71 | the highlight is cleared and the dropped files are appended after the existing ones |
| CarUpload.CarUploadForm.ImageChange | src/pages/carUpload.js:73-76 | the chosen files are appended after the existing ones |
| CarUpload.CarUploadForm.RemoveImage | src/pages/carUpload.js:313 | the files become the list without position `index` |
| CarUpload.CarUploadForm.ValidateFields | src/pages/carUpload.js:21-31 | the step-by-step dictionary equals the error dictionary of the form and image count |
| CarUpload.CarUploadForm.BuildUploadBody | src/pages/carUpload.js:87-94 | the appends and the two `forEach` loops produce exactly the upload body |
| CarUpload.CarUploadForm.Submit | src/pages/carUpload.js:78-94 | an incomplete form stores its non-empty error dictionary and sends nothing; a complete one leaves the errors and sends the upload body |
| CarDetails.CycleLength | src/pages/cardetatils.js:48 | the number of images, or 1 when the listing is absent or has no images |
| CarDetails.NextIndex | src/pages/cardetatils.js:47-49 | the `nextImage` update: the last position goes to 0, every other one up by one (`NextIsModularStep`, `PrevUndoesNext`) |
| CarDetails.PrevIndex | src/pages/cardetatils.js:53-55 | the `prevImage` update: 0 goes to the last position, every other one down by one (`PrevIsModularStep`, `PrevUndoesNext`) |
| CarDetails.NextIsModularStep | src/pages/cardetatils.js:46-50 | within the carousel `nextImage` stays in range and equals (i + 1) mod n |
| CarDetails.PrevIsModularStep | src/pages/cardetatils.js:52-56 | within the carousel `prevImage` stays in range and equals (i - 1) mod n |
| CarDetails.PrevUndoesNext | src/pages/cardetatils.js:46-56 | previous after next, and next after previous, return to the same index |
| CarDetails.NoImagesKeepsFirst | src/pages/cardetatils.js:48-54 | with no images or no listing both buttons keep the index at 0 |
| CarDetails.NextTimesWraps | src/pages/cardetatils.js:46-50 | k ≤ n presses of next move k places, wrapping past the last image once |
| CarDetails.FullCycleReturns | src/pages/cardetatils.js:46-50 | n presses of next return to the starting image |
| CarDetails.PastTheEndNeverWraps | src/pages/cardetatils.js:46-50 | from an index past the end, next only counts up |
| CarDetails.CarDetailsPage.ShownImage | src/pages/cardetatils.js:72-76 | the image at the index when it is in range, nothing otherwise |
| CarDetails.CarDetailsPage.constructor | src/pages/cardetatils.js:18-20 | no listing, index 0, dialog closed |
| CarDetails.CarDetailsPage.Loaded | src/pages/cardetatils.js:37 | the images are stored and the index is kept |
| CarDetails.CarDetailsPage.NextImage | src/pages/cardetatils.js:46-50 | the index becomes `NextIndex` of the old one and stays in range |
| CarDetails.CarDetailsPage.PrevImage | src/pages/cardetatils.js:52-56 | the index becomes `PrevIndex` of the old one and stays in range |
| CarDetails.CarDetailsPage.OpenContact | src/pages/cardetatils.js:169 | the Contact button opens the dialog |
| CarDetails.CarDetailsPage.CloseContact | src/pages/cardetatils.js:185 | the close button closes the dialog |
| CarDetails.BackFromFirstShowsLast | src/pages/cardetatils.js:52-56 | going back from the first of three images shows the third |
| Catalogue.Matches | src/pages/landingpage.js:33-35 | the filter's test: the lower-cased term is included in the lower-cased title, company or description (`ShownIffMatches`) |
| Catalogue.FilteredCars | src/pages/landingpage.js:32-36 | `filteredCars`: the cars passing `Matches`, in order (`ShownIffMatches`, `ResultIsSubsequence`) |
| Catalogue.ShowsNoCarsNotice | src/pages/landingpage.js:115 | `filteredCars.length === 0`: the notice is rendered when nothing passes the filter (`NoticeIffNoMatch`) |
| Catalogue.ShownIffMatches | src/pages/landingpage.js:32-36 | a car is shown exactly when the lower-cased term occurs in its lower-cased title, company or description |
| Catalogue.EmptyTermKeepsAll | src/pages/landingpage.js:32-36 | an empty search shows every car in order |
| Catalogue.ResultIsSubsequence | src/pages/landingpage.js:32 | the result keeps the cars' order and never repeats or invents one |
| Catalogue.CaseInsensitive | src/pages/landingpage.js:33-35 | terms that differ only in letter case give the same result |
| Catalogue.LowerCasedTermSameResult | src/pages/landingpage.js:33-35 | typing the term in lower case gives the same result as typing it as it was |
| Catalogue.SearchIdempotent | src/pages/landingpage.js:32-36 | searching the result again for the same term changes nothing |
| Catalogue.NoticeIffNoMatch | src/pages/landingpage.js:115 | the "no cars found" notice appears exactly when no car matches |
| Catalogue.UpperCaseTermFindsListedCar | src/pages/landingpage.js:11-36 | searching "AUDI" keeps the listed Audi and hides the notice |
| Registration.FieldErrors | src/pages/register.js:11-33 | each field's messages in declaration order, an empty field drawing only its required message (`NameAcceptedIff` to `RetypeAcceptedIff`, `EmptyFormBlocked`) |
| Registration.LettersOnly | src/pages/register.js:14-17 | `/^[a-zA-Z]+$/`: one or more ASCII letters and nothing else (`NameAcceptedIff`, `AcceptedForm`) |
| Registration.PhonePattern | src/pages/register.js:22-25 | `/^\+?\d{10,15}$/`: an optional leading plus sign, then 10 to 15 ASCII digits (`PhoneAcceptedIff`) |
| Registration.NameAcceptedIff | src/pages/register.js:12-17 | a name is accepted exactly when it is non-empty and all ASCII letters; an empty one draws only "… is required", a non-empty one with another character only "… must only contain letters", for both names |
| Registration.DigitCountAll | src/pages/register.js:23 | a text is all digits exactly when its digit count is its length |
| Registration.PhoneAcceptedIff | src/pages/register.js:21-26 | a phone is accepted exactly when it holds 10 to 15 digits and its only other character is a leading plus sign |
| Registration.PasswordAcceptedIff | src/pages/register.js:27-29 | a password is accepted exactly when it has at least 8 characters; an empty one draws only "Password is required", a short one only the length message |
| Registration.RetypeAcceptedIff | src/pages/register.js:30-32 | the confirmation is accepted exactly when non-empty and equal to the password; an empty one draws only "Please confirm your password", a different one only "Passwords must match" |
| Registration.AcceptedForm | src/pages/register.js:11-33 | an accepted form has letter-only names, a non-empty well-formed email, a well-formed phone, and a password of at least 8 characters typed twice |
| Registration.Payload | src/pages/register.js:38-44 | the posted body: email, password, fname, lname and phonenumber from the form (`PayloadRoundTrip`, `RetypeNeverSent`) |
| Registration.PayloadRoundTrip | src/pages/register.js:38-44 | the form, apart from the confirmation, can be rebuilt from the posted body |
| Registration.RetypeNeverSent | src/pages/register.js:38-44 | the confirmation never reaches the body |
| Registration.PayloadInjective | src/pages/register.js:38-44 | two forms post the same body exactly when they agree on everything but the confirmation |
| Registration.Submit | src/pages/register.js:36-62 | nothing is sent unless every field is accepted; every request that is sent posts the payload of the form; a refusal shows the server message or "Registration failed. Please try again." under the email field |
| Registration.EmptyFormBlocked | src/pages/register.js:11-33 | the untouched form draws exactly the required message on every field and is not sent |
| Login.EmailErrors | src/pages/login.js:12-14 | the email is accepted exactly when it is non-empty and well formed; an empty one draws only "Email is required" |
| Login.PasswordErrors | src/pages/login.js:15-17 | the password is accepted exactly when it has at least 6 characters; an empty one draws only "Password is required", a short one only the length message |
| Login.Submit | src/pages/login.js:21-33 | a form breaking a rule is blocked with its messages; otherwise the values are posted unchanged, and the token is kept or the server message or "Login failed. Please try again." is shown |
| Login.EmptyEmailRejected | src/pages/login.js:12-14 | an empty email is blocked with "Email is required" |
| Login.EmptyPasswordRejected | src/pages/login.js:15-17 | an empty password is blocked with exactly "Password is required" |
| Login.SilentRefusalShowsFallback | src/pages/login.js:28-29 | a refusal without a message shows "Login failed. Please try again." under the email field |

## Left out

- The requests themselves, `localStorage`, `navigate`, `alert` and console logging are not modelled. Replies are inputs, and what the handlers do with them is returned as data.
- Rendering, styling, the components under `src/components` and the router in `src/App.js` are not part of this model.
- OtpVerification.IsNaN: it is exact only for values of at most one character, which is all the boxes allow (`maxLength="1"`, verify-otp.js:205). Longer values are excluded by a precondition.
- The order in which Formik shows a field's messages is left out. The schemas are modelled as each field's messages in declaration order. Formik shows one of them.
- Yup's `.email()` address check is not modelled. It is an input boolean (`emailWellFormed`), ignored for an empty value as Yup does.
- `toLowerCase` is modelled for ASCII letters only, and `trim` for the ECMAScript white-space set. String lengths count characters, not UTF-16 code units.
- CarUpload.Listing: the year is the number the year input holds, or none. A fractional or exotic numeric text is not distinguished, and the body carries the number rather than its text.
- The per-field `onChange` setters of the upload form are not separate methods; any `Listing` value can be the form's state.
- `isSubmitting` and `setSubmitting` are not modelled on any page. The OTP button's enabled state takes it as a parameter.
- The interleaving of an in-flight request with later input, and the teardown of pending timeouts, are not modelled. Handlers run one after another.
