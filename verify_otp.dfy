/**
 The e-mail verification screen: six one-character input boxes holding the
 code, a 60-second cool-down before a new code may be requested, the submit
 button's enabled state, the form schema that Formik checks before it
 submits, and the text shown when verification fails.

 Focus movement is returned as the index of the box that receives focus.
 The requests are inputs (`Reply`), and what the handlers then do with
 storage and navigation is returned as data.
 */
module OtpVerification {
  import opened Text
  import opened Replies

  const SlotCount: nat := 6
  const ResendSeconds: nat := 60
  const EmptySlots: seq<string> := ["", "", "", "", "", ""]

  const LengthMessage := "OTP must be 6 digits"
  const DigitsMessage := "OTP must contain only numbers"
  const RequiredMessage := "OTP is required"
  const InvalidOtpText := "Invalid OTP. Please try again."

  /**
   `isNaN(v)` for an input value of at most one character. `Number` turns the
   empty string and a white-space character into 0 and a digit into its
   value; every other single character gives NaN.
   */
  predicate IsNaN(v: string)
    requires |v| <= 1
  {
    |v| == 1 && !IsAsciiDigit(v[0]) && !IsJsSpace(v[0])
  }

  /** What a box can hold: nothing, or one character that passed the `isNaN` filter. */
  predicate SlotOk(v: string) {
    |v| <= 1 && !IsNaN(v)
  }

  /** The only text the paste handler takes: exactly six ASCII digits (`/^\d{6}$/`). */
  predicate IsPastableCode(text: string) {
    |text| == SlotCount && AllDigits(text)
  }

  /** `text.split('')`: one single-character string per character. */
  function Split(text: string): (r: seq<string>)
    ensures |r| == |text|
    ensures Join(r) == text
  {
    var r := seq(|text|, i requires 0 <= i < |text| => [text[i]]);
    JoinSingletons(r);
    r
  }

  /**
   The Yup schema for `otpCode` (`length(6)`, `matches(/^\d{6}$/)`,
   `required()`): the messages of the rules a value breaks, in the order the
   rules are declared. Formik hands an empty value to the schema as
   `undefined`, which `length` and `matches` let through, so an empty field
   draws only the `required` message.
   */
  function OtpCodeErrors(code: string): (r: seq<string>)
    ensures r == [] <==> |code| == SlotCount && AllDigits(code)
    ensures code == "" ==> r == [RequiredMessage]
    ensures code != "" ==> RequiredMessage !in r
    ensures code != "" && |code| != SlotCount ==> LengthMessage in r
  {
    (if code != "" && |code| != SlotCount then [LengthMessage] else [])
    + (if code != "" && !(|code| == SlotCount && AllDigits(code)) then [DigitsMessage] else [])
    + (if code == "" then [RequiredMessage] else [])
  }

  /** The submit button is enabled when no submission is running and `otp.join('')` has length 6. */
  predicate SubmitEnabled(isSubmitting: bool, slots: seq<string>) {
    !isSubmitting && |Join(slots)| == SlotCount
  }

  /** Because every box holds at most one character, the button is enabled exactly when no box is empty. */
  lemma SubmitEnabledIffAllFilled(isSubmitting: bool, slots: seq<string>)
    requires |slots| == SlotCount && forall i :: 0 <= i < |slots| ==> SlotOk(slots[i])
    ensures SubmitEnabled(isSubmitting, slots) <==> !isSubmitting && forall i :: 0 <= i < |slots| ==> slots[i] != ""
  {
    JoinShortParts(slots);
  }

  /** A box holding a single space passes the filter: `Number(' ')` is 0, not NaN. */
  lemma SpacePassesFilter()
    ensures SlotOk(" ")
  {
  }

  /** Six boxes holding a space each enable the button, although the joined text is not a code the schema accepts. */
  lemma SpacesEnableSubmit()
    ensures SubmitEnabled(false, [" ", " ", " ", " ", " ", " "])
    ensures OtpCodeErrors(Join([" ", " ", " ", " ", " ", " "])) != []
  {
    var spaces := [" ", " ", " ", " ", " ", " "];
    assert Join(spaces) == "      ";
    assert !IsAsciiDigit(Join(spaces)[0]);
  }

  /** The resend cool-down: `resendTimer` and `canResend`. */
  datatype Cooldown = Cooldown(secondsLeft: nat, canResend: bool)

  /** Resending is possible exactly when the countdown has run out, and it never exceeds 60 seconds. */
  predicate CooldownOk(c: Cooldown) {
    c.secondsLeft <= ResendSeconds && (c.canResend <==> c.secondsLeft == 0)
  }

  /**
   One second of the cool-down. While the counter is above 0 a timeout is
   pending; it fires and decrements the counter, and once the counter reads 0
   the effect sets `canResend`. At 0 no timeout is pending and nothing changes.
   */
  function AfterTick(c: Cooldown): (r: Cooldown)
    ensures CooldownOk(c) ==> CooldownOk(r)
    ensures c.secondsLeft > 0 ==> r.secondsLeft == c.secondsLeft - 1
    ensures c.secondsLeft == 0 ==> r == c
  {
    if c.secondsLeft == 0 then c
    else Cooldown(c.secondsLeft - 1, if c.secondsLeft - 1 == 0 then true else c.canResend)
  }

  /** The cool-down after `k` seconds. */
  function AfterTicks(c: Cooldown, k: nat): Cooldown
    decreases k
  {
    if k == 0 then c else AfterTicks(AfterTick(c), k - 1)
  }

  /** Counting down from `t` seconds: after `k <= t` seconds, `t - k` remain, and resending is enabled only at the last of them. */
  lemma {:induction false} CountdownSteps(t: nat, k: nat)
    requires 0 < t && k <= t
    ensures AfterTicks(Cooldown(t, false), k) == Cooldown(t - k, k == t)
  {
    if k > 0 {
      if t == 1 {
        assert AfterTicks(Cooldown(t, false), k) == AfterTicks(Cooldown(0, true), 0);
      } else {
        CountdownSteps(t - 1, k - 1);
      }
    }
  }

  /** From the initial state, exactly 60 seconds pass before resending is enabled. */
  lemma ResendEnabledAfterSixtySeconds(k: nat)
    requires k <= ResendSeconds
    ensures AfterTicks(Cooldown(ResendSeconds, false), k).canResend <==> k == ResendSeconds
    ensures AfterTicks(Cooldown(ResendSeconds, false), k).secondsLeft == ResendSeconds - k
  {
    CountdownSteps(ResendSeconds, k);
  }

  /** Once resending is enabled, further seconds change nothing. */
  lemma {:induction false} ReadyIsStable(k: nat)
    ensures AfterTicks(Cooldown(0, true), k) == Cooldown(0, true)
  {
    if k > 0 {
      ReadyIsStable(k - 1);
    }
  }

  /** The data of a successful verification response: `response.data.token` and `response.data.data`. */
  datatype Session = Session(token: string, userInfo: string)

  /** The body posted to the verify endpoint. */
  datatype VerifyRequest = VerifyRequest(email: string, otp: string)

  /** What pressing submit leads to. */
  datatype SubmitEffect =
      /** Formik's schema check failed; `onSubmit` is not called. */
    | BlockedBySchema(errors: seq<string>)
      /** The request succeeded: `authToken` and `userinfo` are stored and the page moves to `/dashboard`. */
    | Verified(request: VerifyRequest, session: Session)
      /** The request failed: the text is shown as the `otpCode` field error. */
    | VerifyFailed(request: VerifyRequest, fieldError: string)

  class OtpScreen {
    /** The address handed over by the previous page: `location.state?.email || ''`. */
    const email: string
    /** The six input boxes (`otp`). */
    const otp: array<string>
    /** Formik's `otpCode` value: the one the schema checks on submit. */
    var otpCodeField: string
    var resendTimer: nat
    var canResend: bool

    ghost predicate Valid()
      reads this, otp
    {
      otp.Length == SlotCount
      && (forall i :: 0 <= i < otp.Length ==> SlotOk(otp[i]))
      && CooldownOk(Cooldown(resendTimer, canResend))
    }

    function Slots(): seq<string>
      reads this, otp
    {
      otp[..]
    }

    function Timer(): Cooldown
      reads this
    {
      Cooldown(resendTimer, canResend)
    }

    /** The resend button is rendered only while `canResend` holds. */
    predicate ResendOffered()
      reads this
    {
      canResend
    }

    /** On a valid screen the resend button is offered exactly when the countdown reads 0. */
    lemma ResendOfferedIffCountdownDone()
      requires Valid()
      ensures ResendOffered() <==> resendTimer == 0
    {
    }

    /** The screen as it is first rendered. */
    constructor (handoff: Option<string>)
      ensures Valid() && fresh(otp)
      ensures Slots() == EmptySlots
      ensures Timer() == Cooldown(ResendSeconds, false)
      ensures otpCodeField == ""
      ensures email == if handoff.Some? then handoff.value else ""
    {
      email := if handoff.Some? then handoff.value else "";
      otp := new string[SlotCount](_ => "");
      otpCodeField := "";
      resendTimer := ResendSeconds;
      canResend := false;
      new;
      assert otp[..] == EmptySlots;
    }

    /**
     A change event in box `index` (`handleOtpChange` followed by
     `setFieldValue`). React delivers it only when the input's new value
     differs from the one it shows. A value that `isNaN` rejects changes no
     box; otherwise
     box `index` takes the value, and focus moves on when the value is
     non-empty and a next box exists. Either way the form field receives the
     boxes as they were BEFORE this change, because the handler reads the
     rendered `otp`.
     */
    method ChangeSlot(index: nat, value: string) returns (accepted: bool, focus: Option<nat>)
      requires Valid() && index < SlotCount && |value| <= 1 && value != otp[index]
      modifies otp, this`otpCodeField
      ensures Valid()
      ensures accepted == !IsNaN(value)
      ensures Slots() == if accepted then old(Slots())[index := value] else old(Slots())
      ensures focus == if accepted && value != "" && index + 1 < SlotCount then Some(index + 1) else None
      ensures otpCodeField == Join(old(Slots()))
    {
      var rendered := otp[..];
      accepted := !IsNaN(value);
      focus := None;
      if accepted {
        otp[index] := value;
        if value != "" && index + 1 < SlotCount {
          focus := Some(index + 1);
        }
      }
      otpCodeField := Join(rendered);
    }

    /**
     A key press in box `index` (`handleKeyDown`). Only Backspace acts: on an
     empty box after the first it clears the previous box and focuses it,
     otherwise it clears box `index`. The form field is not updated.
     */
    method KeyDown(key: string, index: nat) returns (focus: Option<nat>)
      requires Valid() && index < SlotCount
      modifies otp
      ensures Valid()
      ensures key != "Backspace" ==> Slots() == old(Slots()) && focus == None
      ensures key == "Backspace" && old(otp[index]) == "" && index > 0 ==>
                Slots() == old(Slots())[index - 1 := ""] && focus == Some(index - 1)
      ensures key == "Backspace" && !(old(otp[index]) == "" && index > 0) ==>
                Slots() == old(Slots())[index := ""] && focus == None
    {
      focus := None;
      if key == "Backspace" {
        if otp[index] == "" && index > 0 {
          focus := Some(index - 1);
          otp[index - 1] := "";
        } else {
          otp[index] := "";
        }
      }
    }

    /**
     A paste into any box (`handlePaste`). Six ASCII digits replace all boxes,
     one digit each, and focus goes to the last box; any other text changes
     nothing. The form field is not updated.
     */
    method Paste(text: string) returns (focus: Option<nat>)
      requires Valid()
      modifies otp
      ensures Valid()
      ensures IsPastableCode(text) ==> Slots() == Split(text) && Join(Slots()) == text && focus == Some(SlotCount - 1)
      ensures !IsPastableCode(text) ==> Slots() == old(Slots()) && focus == None
    {
      focus := None;
      if |text| == SlotCount && AllDigits(text) {
        var digits := Split(text);
        forall i | 0 <= i < SlotCount {
          otp[i] := digits[i];
        }
        focus := Some(SlotCount - 1);
      }
    }

    /** One second passes on the resend cool-down (the timeout and the `resendTimer` effect). */
    method Tick()
      requires Valid()
      modifies this`resendTimer, this`canResend
      ensures Valid()
      ensures Timer() == AfterTick(old(Timer()))
    {
      if resendTimer > 0 {
        resendTimer := resendTimer - 1;
        if resendTimer == 0 {
          canResend := true;
        }
      }
    }

    /**
     `handleResendOTP` once its request has settled. Success restarts the
     60-second cool-down and empties all boxes; failure changes nothing. The
     handler has no guard of its own: only `ResendOffered` keeps it from being
     reached during the countdown.
     */
    method Resend(reply: Reply<()>)
      requires Valid()
      modifies otp, this`resendTimer, this`canResend
      ensures Valid()
      ensures reply.Succeeded? ==> Timer() == Cooldown(ResendSeconds, false) && Slots() == EmptySlots
      ensures reply.Rejected? ==> Timer() == old(Timer()) && Slots() == old(Slots())
    {
      if reply.Succeeded? {
        resendTimer := ResendSeconds;
        canResend := false;
        forall i | 0 <= i < SlotCount {
          otp[i] := "";
        }
        assert otp[..] == EmptySlots;
      }
    }

    /**
     Pressing the enabled submit button. Formik first checks the schema
     against the form field; only if it passes does `handleSubmit` post the
     address with the JOINED BOXES (not the field) and act on the reply.
     */
    method Submit(reply: Reply<Session>) returns (effect: SubmitEffect)
      requires Valid()
      ensures OtpCodeErrors(otpCodeField) != [] ==> effect == BlockedBySchema(OtpCodeErrors(otpCodeField))
      ensures OtpCodeErrors(otpCodeField) == [] ==> !effect.BlockedBySchema? && effect.request == VerifyRequest(email, Join(Slots()))
      ensures effect.Verified? <==> OtpCodeErrors(otpCodeField) == [] && reply.Succeeded?
      ensures effect.Verified? ==> effect.session == reply.data
      ensures effect.VerifyFailed? ==> effect.fieldError == FailureText(reply.message, InvalidOtpText)
    {
      var errors := OtpCodeErrors(otpCodeField);
      if errors != [] {
        return BlockedBySchema(errors);
      }
      var request := VerifyRequest(email, Join(otp[..]));
      match reply
      case Succeeded(session) =>
        effect := Verified(request, session);
      case Rejected(message) =>
        effect := VerifyFailed(request, FailureText(message, InvalidOtpText));
    }
  }

  lemma SixDigitsJoined()
    ensures Join(["1", "2", "3", "4", "5", "6"]) == "123456"
  {
    var digits := ["1", "2", "3", "4", "5", "6"];
    JoinSingletons(digits);
    assert Join(digits) == "123456";
  }

  lemma FiveDigitsJoined()
    ensures Join(["1", "2", "3", "4", "5", ""]) == "12345"
  {
    var digits := ["1", "2", "3", "4", "5"];
    JoinAppend(digits, [""]);
    assert digits + [""] == ["1", "2", "3", "4", "5", ""];
    assert Join([""]) == "";
    JoinSingletons(digits);
    assert Join(digits) == "12345";
  }

  /** Typing the digits 1 to 3 into the first three boxes, starting from empty boxes. */
  method TypeFirstThreeDigits(screen: OtpScreen)
    requires screen.Valid() && screen.Slots() == EmptySlots
    modifies screen.otp, screen`otpCodeField
    ensures screen.Valid()
    ensures screen.Slots() == ["1", "2", "3", "", "", ""]
  {
    var accepted, focus := screen.ChangeSlot(0, "1");
    accepted, focus := screen.ChangeSlot(1, "2");
    accepted, focus := screen.ChangeSlot(2, "3");
  }

  /** Typing the digits 1 to 5 into the first five boxes, starting from empty boxes. */
  method TypeFirstFiveDigits(screen: OtpScreen)
    requires screen.Valid() && screen.Slots() == EmptySlots
    modifies screen.otp, screen`otpCodeField
    ensures screen.Valid()
    ensures screen.Slots() == ["1", "2", "3", "4", "5", ""]
  {
    TypeFirstThreeDigits(screen);
    var accepted, focus := screen.ChangeSlot(3, "4");
    accepted, focus := screen.ChangeSlot(4, "5");
  }

  /** Typing the digits 1 to 6 into the boxes one after another, starting from empty boxes. */
  method TypeDigitsOneByOne(screen: OtpScreen)
    requires screen.Valid() && screen.Slots() == EmptySlots
    modifies screen.otp, screen`otpCodeField
    ensures screen.Valid()
    ensures screen.Slots() == ["1", "2", "3", "4", "5", "6"]
    ensures screen.otpCodeField == "12345"
  {
    TypeFirstFiveDigits(screen);
    var accepted, focus := screen.ChangeSlot(5, "6");
    FiveDigitsJoined();
  }

  /**
   Typing a code one digit per box enables the button, but the form field
   then holds only the first five digits, so the first press of submit is
   stopped by the schema.
   */
  method TypedCodeBlockedOnFirstSubmit() returns (enabled: bool, effect: SubmitEffect)
    ensures enabled
    ensures effect == BlockedBySchema([LengthMessage, DigitsMessage])
  {
    var screen := new OtpScreen(Some("user@example.com"));
    TypeDigitsOneByOne(screen);
    SixDigitsJoined();
    enabled := SubmitEnabled(false, screen.Slots());
    assert OtpCodeErrors("12345") == [LengthMessage, DigitsMessage];
    effect := screen.Submit(Succeeded(Session("token", "{}")));
  }

  /** On a fresh screen a pasted code fills every box but never reaches the empty form field, so the schema stops the submit. */
  method PastedCodeBlockedOnSubmit() returns (enabled: bool, effect: SubmitEffect)
    ensures enabled
    ensures effect == BlockedBySchema([RequiredMessage])
  {
    var screen := new OtpScreen(Some("user@example.com"));
    var focus := screen.Paste("123456");
    enabled := SubmitEnabled(false, screen.Slots());
    effect := screen.Submit(Succeeded(Session("token", "{}")));
  }

  /**
   After typing the code, typing a letter into the last box is rejected by
   the filter and changes no box, but the change event still copies the six
   digits into the form field, so the next submit posts the code.
   */
  method RejectedLetterResyncsField(session: Session) returns (accepted: bool, effect: SubmitEffect)
    ensures !accepted
    ensures effect == Verified(VerifyRequest("user@example.com", "123456"), session)
  {
    var screen := new OtpScreen(Some("user@example.com"));
    TypeDigitsOneByOne(screen);
    var focus;
    accepted, focus := screen.ChangeSlot(5, "a");
    SixDigitsJoined();
    assert screen.Slots() == ["1", "2", "3", "4", "5", "6"];
    assert screen.otpCodeField == "123456" && screen.email == "user@example.com";
    assert OtpCodeErrors("123456") == [];
    effect := screen.Submit(Succeeded(session));
  }
}
