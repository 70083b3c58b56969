/** The contact form (src/components/ContactForm.tsx): the phone field's key
    filter and input cleaning, the validation schema, and what a submission
    does to the result line, the thanks dialog and the form values. The
    network round trip is an input (`Outcome`); e-mail syntax is decided by
    a validation library that is not part of this model and arrives as a
    flag. */
module ContactForm {
  import opened Wrappers
  import opened Text

  // ---------------------------------------------------------------------------
  // The phone field's key filter
  // ---------------------------------------------------------------------------

  /** Editing and navigation keys the filter always lets through. */
  const AllowedKeys: seq<string> :=
    ["Backspace", "Delete", "ArrowLeft", "ArrowRight", "Tab", "Home", "End"]

  /** `e.key >= "0" && e.key <= "9"`, a comparison of whole strings. */
  predicate InDigitRange(key: string) {
    !LexLess(key, "0") && !LexLess("9", key)
  }

  /** Whether `handlePhoneKeyDown` calls `preventDefault`. */
  predicate KeyBlocked(key: string) {
    key !in AllowedKeys && !InDigitRange(key) && key != "+" && key != " "
  }

  /** The string comparison admits every key whose first character is `0`
      to `8`, whatever follows, and of the keys starting with `9` only `"9"`
      itself. */
  lemma DigitRangeIff(key: string)
    ensures InDigitRange(key) <==> key != [] && (('0' <= key[0] < '9') || key == "9")
  {
    assert LexLess(key, "0") <==> key == [] || key[0] < '0';
    if key != [] && key[0] == '9' {
      assert LexLess("9", key) <==> LexLess([], key[1..]);
      assert key == "9" <==> key[1..] == [];
    }
  }

  /** The filter in full: the listed keys, the keys in the digit range, `+`
      and the space pass; every other key is blocked. */
  lemma KeyBlockedIff(key: string)
    ensures !KeyBlocked(key) <==>
      key in AllowedKeys || (key != [] && (('0' <= key[0] < '9') || key == "9")) || key == "+" || key == " "
  {
    DigitRangeIff(key);
  }

  /** For a key that is one character, the filter passes exactly the digits,
      `+` and the space. */
  lemma SingleCharKey(c: char)
    ensures !KeyBlocked([c]) <==> IsDigit(c) || c == '+' || c == ' '
  {
    DigitRangeIff([c]);
    KeyBlockedIff([c]);
    assert [c] != "9" ==> c != '9';
  }

  // ---------------------------------------------------------------------------
  // The phone field's cleaning
  // ---------------------------------------------------------------------------

  /** The characters `[\d+\s]` matches. */
  predicate IsPhoneChar(c: char) {
    IsDigit(c) || c == '+' || IsSpace(c)
  }

  predicate AllPhoneChars(s: string) {
    forall i :: 0 <= i < |s| ==> IsPhoneChar(s[i])
  }

  /** `raw.replace(/[^\d+\s]/g, "")`. */
  function CleanPhone(raw: string): string {
    if raw == [] then []
    else if IsPhoneChar(raw[0]) then [raw[0]] + CleanPhone(raw[1..])
    else CleanPhone(raw[1..])
  }

  /** `s` is `t` with some characters deleted, order kept. */
  predicate IsSubsequence(s: string, t: string)
    decreases |t|
  {
    if s == [] then true
    else if t == [] then false
    else if s[0] == t[0] then IsSubsequence(s[1..], t[1..])
    else IsSubsequence(s, t[1..])
  }

  /** Cleaning keeps exactly the phone characters, in order: its result has
      only phone characters, is a subsequence of the input, and is the input
      itself exactly when the input had nothing to remove. */
  lemma {:induction false} CleanPhoneSpec(raw: string)
    ensures AllPhoneChars(CleanPhone(raw))
    ensures IsSubsequence(CleanPhone(raw), raw)
    ensures |CleanPhone(raw)| <= |raw|
    ensures CleanPhone(raw) == raw <==> AllPhoneChars(raw)
  {
    if raw != [] {
      CleanPhoneSpec(raw[1..]);
      var r := CleanPhone(raw);
      if IsPhoneChar(raw[0]) {
        assert r[1..] == CleanPhone(raw[1..]);
        assert forall i :: 1 <= i < |r| ==> r[i] == CleanPhone(raw[1..])[i - 1];
        if AllPhoneChars(raw) {
          assert AllPhoneChars(raw[1..]) by {
            forall i | 0 <= i < |raw[1..]| ensures IsPhoneChar(raw[1..][i]) {
              assert raw[1..][i] == raw[i + 1];
            }
          }
        }
        if r == raw {
          assert CleanPhone(raw[1..]) == raw[1..];
          forall i | 0 <= i < |raw| ensures IsPhoneChar(raw[i]) {
            if i > 0 { assert raw[i] == raw[1..][i - 1]; }
          }
        }
      } else {
        assert !AllPhoneChars(raw);
      }
    }
  }

  /** Cleaning twice is cleaning once. */
  lemma CleanPhoneIdempotent(raw: string)
    ensures CleanPhone(CleanPhone(raw)) == CleanPhone(raw)
  {
    CleanPhoneSpec(raw);
    CleanPhoneSpec(CleanPhone(raw));
  }

  // ---------------------------------------------------------------------------
  // The schema
  // ---------------------------------------------------------------------------

  /** The character `c` as UTF-16 code units: two for a character beyond the
      Basic Multilingual Plane. */
  function CodeUnits(c: char): nat {
    if c <= '\U{FFFF}' then 1 else 2
  }

  /** A string's `length`, counted in UTF-16 code units. */
  function JsLength(s: string): nat {
    if s == [] then 0 else CodeUnits(s[0]) + JsLength(s[1..])
  }

  /** A string's `length` is at least its number of characters, and equal
      to it when no character lies beyond the Basic Multilingual Plane. */
  lemma {:induction false} JsLengthSpec(s: string)
    ensures JsLength(s) >= |s|
    ensures (forall i :: 0 <= i < |s| ==> s[i] <= '\U{FFFF}') ==> JsLength(s) == |s|
  {
    if s != [] {
      JsLengthSpec(s[1..]);
      if forall i :: 0 <= i < |s| ==> s[i] <= '\U{FFFF}' {
        assert forall i :: 0 <= i < |s[1..]| ==> s[1..][i] == s[i + 1];
      }
    }
  }

  /** `[0-9\s]{7,20}`. */
  predicate PhoneBody(t: string) {
    7 <= |t| <= 20 && forall i :: 0 <= i < |t| ==> IsDigit(t[i]) || IsSpace(t[i])
  }

  /** `/^\+?[0-9\s]{7,20}$/`: the body on its own, or after one `+`. */
  predicate PhoneMatches(s: string) {
    PhoneBody(s) || (s != [] && s[0] == '+' && PhoneBody(s[1..]))
  }

  /** An accepted phone number holds 7 to 21 characters, all of them phone
      characters, with `+` at most once and only in front; so cleaning leaves
      it as it is, and it always meets the `min(7)` rule. */
  lemma PhoneMatchesSpec(s: string)
    requires PhoneMatches(s)
    ensures 7 <= |s| <= 21 && AllPhoneChars(s)
    ensures forall i :: 0 < i < |s| ==> s[i] != '+'
    ensures CleanPhone(s) == s
    ensures JsLength(s) >= 7
  {
    if !PhoneBody(s) {
      forall i | 0 < i < |s| ensures IsDigit(s[i]) || IsSpace(s[i]) {
        assert s[i] == s[1..][i - 1];
      }
    }
    CleanPhoneSpec(s);
    JsLengthSpec(s);
  }

  /** The inverse direction: `+` followed by 7 to 20 digits or spaces, or
      such a run alone, is accepted. */
  lemma PhoneMatchesComplete(plus: bool, t: string)
    requires PhoneBody(t)
    ensures PhoneMatches(if plus then "+" + t else t)
  {
    if plus {
      assert ("+" + t)[1..] == t;
    }
  }

  datatype Values = Values(firstName: string, lastName: string, phone: string, email: string, message: string)

  /** What `reset()` restores: every field empty. */
  const EmptyValues := Values("", "", "", "", "")

  /** The first message of each field that fails, as shown under the field. */
  datatype Errors = Errors(
    firstName: Option<string>, lastName: Option<string>, phone: Option<string>,
    email: Option<string>, message: Option<string>)

  const NoErrors := Errors(None, None, None, None, None)

  const ShortName := "Zadaj aspoň 2 znaky"
  const MissingPhone := "Zadaj telefónne číslo"
  const BadPhone := "Len čísla, medzery a „+“, min. 7 znakov"
  const BadEmail := "Zadaj platný email"
  const ShortMessage := "Napíš aspoň 10 znakov"

  function MinLength(s: string, n: nat, msg: string): Option<string> {
    if JsLength(s) < n then Some(msg) else None
  }

  /** The phone field's checks in order, `min(7)` before the pattern. */
  function PhoneError(phone: string): Option<string> {
    if JsLength(phone) < 7 then Some(MissingPhone)
    else if !PhoneMatches(phone) then Some(BadPhone)
    else None
  }

  /** The schema's verdict on each field; `emailOk` is the e-mail check's. */
  function Validate(v: Values, emailOk: bool): Errors {
    Errors(
      MinLength(v.firstName, 2, ShortName),
      MinLength(v.lastName, 2, ShortName),
      PhoneError(v.phone),
      if emailOk then None else Some(BadEmail),
      MinLength(v.message, 10, ShortMessage))
  }

  /** The form passes exactly when both names have at least 2 code units,
      the phone matches the pattern, the e-mail check passes and the message
      has at least 10 code units; the phone's `min(7)` adds nothing to the
      pattern. */
  lemma ValidateIff(v: Values, emailOk: bool)
    ensures Validate(v, emailOk) == NoErrors <==>
      JsLength(v.firstName) >= 2 && JsLength(v.lastName) >= 2 && PhoneMatches(v.phone)
      && emailOk && JsLength(v.message) >= 10
  {
    if PhoneMatches(v.phone) {
      PhoneMatchesSpec(v.phone);
    }
  }

  // ---------------------------------------------------------------------------
  // Submission
  // ---------------------------------------------------------------------------

  /** The parsed reply of the form service; `message` is `""` when absent. */
  datatype Reply = Reply(success: bool, message: string)

  /** How the request ended: it threw, or a response came back with its
      status and a body that did or did not parse. */
  datatype Outcome =
    | Threw(error: string)
    | Answered(ok: bool, status: nat, data: Option<Reply>)

  datatype Request = Request(
    accessKey: string, name: string, email: string, phone: string, message: string,
    fromName: string, fromEmail: string, replyTo: string, subject: string)

  const MissingKey := "❌ Chýba NEXT_PUBLIC_WEB3FORMS_KEY v .env.local"
  const UnknownServerError := "Neznáma chyba servera"
  const Subject := "Nová správa z kontaktného formulára"

  /** `${firstName} ${lastName}`, trimmed. */
  function FullName(v: Values): string {
    Trim(v.firstName + " " + v.lastName)
  }

  function BuildRequest(key: string, v: Values): Request {
    var name := FullName(v);
    Request(key, name, v.email, v.phone, v.message, name, v.email, v.email, Subject)
  }

  /** The sender's name carries no surrounding white space, and for names
      without it the two parts are joined by one space. */
  lemma FullNameSpec(v: Values)
    ensures NoSpaceAtEnds(FullName(v))
    ensures v.firstName != [] && v.lastName != [] && NoSpaceAtEnds(v.firstName) && NoSpaceAtEnds(v.lastName) ==>
      FullName(v) == v.firstName + " " + v.lastName
  {
    TrimSpec(v.firstName + " " + v.lastName);
    var s := v.firstName + " " + v.lastName;
    if v.firstName != [] && v.lastName != [] && NoSpaceAtEnds(v.firstName) && NoSpaceAtEnds(v.lastName) {
      assert s[0] == v.firstName[0] && s[|s| - 1] == v.lastName[|v.lastName| - 1];
      TrimUnpadded(s);
    }
  }

  /** What a settled request leaves behind. */
  datatype Decision = Decision(result: string, thanks: bool)

  /** The message of a reply that parsed, `""` otherwise. */
  function ReplyMessage(data: Option<Reply>): string {
    if data.Some? then data.value.message else ""
  }

  /** `onSubmit` after the request settles. */
  function Decide(o: Outcome): Decision {
    match o
    case Threw(e) => Decision("❌ Nepodarilo sa odoslať (" + e + ")", false)
    case Answered(ok, status, data) =>
      if !ok then
        Decision("❌ HTTP " + DecimalString(status)
                 + (if ReplyMessage(data) != "" then " – " + ReplyMessage(data) else ""), false)
      else if data.Some? && data.value.success then
        Decision("", true)
      else
        Decision("❌ " + (if ReplyMessage(data) != "" then ReplyMessage(data) else UnknownServerError), false)
  }

  /** The thanks dialog follows exactly an OK response whose reply reports
      success, and then the result line is empty; every other outcome leaves
      a result that starts with the error mark (and is drawn in red). A
      non-OK status is written out so that it reads back as the status, and
      is followed by ` – ` and the server's message exactly when there is
      one. */
  lemma DecideSpec(o: Outcome)
    ensures Decide(o).thanks <==> o.Answered? && o.ok && o.data.Some? && o.data.value.success
    ensures Decide(o).thanks ==> Decide(o).result == ""
    ensures !Decide(o).thanks ==> Decide(o).result != [] && Decide(o).result[0] == '❌'
    ensures o.Answered? && !o.ok ==>
      var r := Decide(o).result;
      var d := DecimalString(o.status);
      StartsWith(r, "❌ HTTP ") && |r| >= 7 + |d| && r[7..7 + |d|] == d && DecimalValue(d) == o.status
      && (ReplyMessage(o.data) == "" ==> |r| == 7 + |d|)
      && (ReplyMessage(o.data) != "" ==> r[7 + |d|..] == " – " + ReplyMessage(o.data))
  {
    if o.Answered? && !o.ok {
      DecimalRoundTrip(o.status);
      var d := DecimalString(o.status);
      var tail := if ReplyMessage(o.data) != "" then " – " + ReplyMessage(o.data) else "";
      assert Decide(o).result == "❌ HTTP " + d + tail;
      assert ("❌ HTTP " + d + tail)[7..7 + |d|] == d;
      assert ("❌ HTTP " + d + tail)[7 + |d|..] == tail;
    }
  }

  /** An OK response whose reply is missing or reports failure shows the
      server's message, or a fixed text when there is none. */
  lemma RejectedReply(o: Outcome)
    requires o.Answered? && o.ok && !(o.data.Some? && o.data.value.success)
    ensures ReplyMessage(o.data) != "" ==> Decide(o).result[2..] == ReplyMessage(o.data)
    ensures ReplyMessage(o.data) == "" ==> Decide(o).result[2..] == UnknownServerError
  {
  }

  /** `!key`: the access key is missing or empty. */
  predicate KeyMissing(key: Option<string>) {
    key.None? || key.value == ""
  }

  // ---------------------------------------------------------------------------
  // Single fields
  // ---------------------------------------------------------------------------

  /** The registered fields. */
  datatype Field = FirstName | LastName | Phone | Email | Message

  function Get(v: Values, f: Field): string {
    match f
    case FirstName => v.firstName
    case LastName => v.lastName
    case Phone => v.phone
    case Email => v.email
    case Message => v.message
  }

  function Set(v: Values, f: Field, text: string): (w: Values)
    ensures Get(w, f) == text
    ensures forall g :: g != f ==> Get(w, g) == Get(v, g)
  {
    match f
    case FirstName => v.(firstName := text)
    case LastName => v.(lastName := text)
    case Phone => v.(phone := text)
    case Email => v.(email := text)
    case Message => v.(message := text)
  }

  function ErrorOf(e: Errors, f: Field): Option<string> {
    match f
    case FirstName => e.firstName
    case LastName => e.lastName
    case Phone => e.phone
    case Email => e.email
    case Message => e.message
  }

  function SetError(e: Errors, f: Field, x: Option<string>): (r: Errors)
    ensures ErrorOf(r, f) == x
    ensures forall g :: g != f ==> ErrorOf(r, g) == ErrorOf(e, g)
  {
    match f
    case FirstName => e.(firstName := x)
    case LastName => e.(lastName := x)
    case Phone => e.(phone := x)
    case Email => e.(email := x)
    case Message => e.(message := x)
  }

  /** The schema's verdict on one field, as a resolver run for that field
      reports it. */
  function FieldError(v: Values, f: Field, emailOk: bool): Option<string> {
    ErrorOf(Validate(v, emailOk), f)
  }

  /** Each field's verdict depends on that field's text alone, so changing
      one field and revalidating it leaves the whole schema's verdict in
      step with the values. */
  lemma FieldErrorLocal(v: Values, f: Field, text: string, emailOk: bool)
    ensures forall g :: g != f ==> FieldError(Set(v, f, text), g, emailOk) == FieldError(v, g, emailOk)
    ensures Validate(Set(v, f, text), emailOk)
      == SetError(Validate(v, emailOk), f, FieldError(Set(v, f, text), f, emailOk))
  {
    var w := Set(v, f, text);
    forall g | g != f ensures FieldError(w, g, emailOk) == FieldError(v, g, emailOk) {
      assert Get(w, g) == Get(v, g);
    }
  }

  /** A phone value never longer than the input's `maxLength` of 20 code
      units. */
  predicate FitsPhoneInput(phone: string) {
    JsLength(phone) <= 20
  }

  /** Cleaning never lengthens the text, in code units as in characters. */
  lemma {:induction false} CleanPhoneShorter(raw: string)
    ensures JsLength(CleanPhone(raw)) <= JsLength(raw)
  {
    if raw != [] {
      CleanPhoneShorter(raw[1..]);
      if IsPhoneChar(raw[0]) {
        assert ([raw[0]] + CleanPhone(raw[1..]))[1..] == CleanPhone(raw[1..]);
      }
    }
  }

  // ---------------------------------------------------------------------------
  // The form's state
  // ---------------------------------------------------------------------------

  /** The form's state: its values and field errors, whether a submission
      has been attempted (which switches on revalidation while typing), the
      result line and the thanks dialog. */
  class Form {
    var values: Values
    var errors: Errors
    var submitted: bool
    var result: string
    var showThanks: bool

    /** The phone value fits its input. */
    predicate Valid()
      reads this
    {
      FitsPhoneInput(values.phone)
    }

    constructor ()
      ensures Valid()
      ensures values == EmptyValues && errors == NoErrors && !submitted && result == "" && !showThanks
    {
      values := EmptyValues;
      errors := NoErrors;
      submitted := false;
      result := "";
      showThanks := false;
    }

    /** A field's `onChange` from `register`: the typed text is stored, and
        once a submission has been attempted the field is revalidated. The
        phone's text reaches it through `PhoneInput`, already cleaned and
        within the input's `maxLength`. */
    method Edit(f: Field, text: string, emailOk: bool)
      requires Valid() && (f == Phone ==> FitsPhoneInput(text))
      modifies this
      ensures Valid()
      ensures values == Set(old(values), f, text)
      ensures errors == if submitted then SetError(old(errors), f, FieldError(values, f, emailOk)) else old(errors)
      ensures submitted && old(errors) == Validate(old(values), emailOk) ==> errors == Validate(values, emailOk)
      ensures submitted == old(submitted) && result == old(result) && showThanks == old(showThanks)
    {
      FieldErrorLocal(values, f, text, emailOk);
      values := Set(values, f, text);
      if submitted {
        errors := SetError(errors, f, FieldError(values, f, emailOk));
      }
    }

    /** The phone input's `input` event with the field's text `raw` (at most
        20 code units, the input's `maxLength`). `handlePhoneInput` runs
        first: when cleaning removed something it writes the cleaned text
        back and validates the field. Then `register`'s `onChange` stores
        what the input now holds, revalidating once a submission has been
        attempted. */
    method PhoneInput(raw: string, emailOk: bool)
      requires Valid() && FitsPhoneInput(raw)
      modifies this
      ensures Valid()
      ensures values == old(values).(phone := CleanPhone(raw))
      ensures errors ==
        if CleanPhone(raw) != raw || submitted then old(errors).(phone := PhoneError(CleanPhone(raw)))
        else old(errors)
      ensures AllPhoneChars(raw) ==> values.phone == raw
      ensures submitted == old(submitted) && result == old(result) && showThanks == old(showThanks)
    {
      CleanPhoneSpec(raw);
      CleanPhoneShorter(raw);
      var cleaned := CleanPhone(raw);
      if cleaned != raw {
        values := values.(phone := cleaned);
        errors := errors.(phone := PhoneError(cleaned));
      }
      Edit(Phone, cleaned, emailOk);
    }

    /** `onSubmit` with the access key and the request's outcome. Without a
        key no request is built and only the result line changes; a request
        the service accepts opens the thanks dialog and resets the form. */
    method OnSubmit(key: Option<string>, o: Outcome) returns (sent: Option<Request>)
      requires Valid()
      modifies this
      ensures Valid()
      ensures KeyMissing(key) ==>
        sent == None && result == MissingKey && values == old(values) && errors == old(errors)
        && showThanks == old(showThanks)
      ensures !KeyMissing(key) ==>
        sent == Some(BuildRequest(key.value, old(values)))
        && result == Decide(o).result
        && showThanks == (old(showThanks) || Decide(o).thanks)
        && values == (if Decide(o).thanks then EmptyValues else old(values))
        && errors == (if Decide(o).thanks then NoErrors else old(errors))
      ensures submitted == old(submitted)
    {
      result := "";
      if KeyMissing(key) {
        result := MissingKey;
        return None;
      }
      sent := Some(BuildRequest(key.value, values));
      var d := Decide(o);
      if d.thanks {
        showThanks := true;
        values := EmptyValues;
        errors := NoErrors;
      }
      result := d.result;
    }

    /** The submit button, `handleSubmit(onSubmit)`: the schema runs on
        every field first, `onSubmit` only when every field passes, and the
        form counts as submitted afterwards. Anything sent passed the
        schema and fits the phone input. */
    method Submit(emailOk: bool, key: Option<string>, o: Outcome) returns (sent: Option<Request>)
      requires Valid()
      modifies this
      ensures Valid() && submitted
      ensures Validate(old(values), emailOk) != NoErrors ==>
        sent == None && errors == Validate(old(values), emailOk)
        && values == old(values) && result == old(result) && showThanks == old(showThanks)
      ensures Validate(old(values), emailOk) == NoErrors ==> errors == NoErrors
      ensures Validate(old(values), emailOk) == NoErrors && KeyMissing(key) ==>
        sent == None && result == MissingKey && values == old(values) && showThanks == old(showThanks)
      ensures Validate(old(values), emailOk) == NoErrors && !KeyMissing(key) ==>
        sent == Some(BuildRequest(key.value, old(values))) && result == Decide(o).result
        && showThanks == (old(showThanks) || Decide(o).thanks)
        && values == (if Decide(o).thanks then EmptyValues else old(values))
      ensures sent.Some? ==>
        PhoneMatches(sent.value.phone) && FitsPhoneInput(sent.value.phone)
        && JsLength(sent.value.message) >= 10
    {
      errors := Validate(values, emailOk);
      if errors != NoErrors {
        submitted := true;
        return None;
      }
      ValidateIff(values, emailOk);
      sent := OnSubmit(key, o);
      submitted := true;
    }

    /** The dialog's close button or its backdrop. */
    method CloseThanks()
      modifies this
      ensures !showThanks
      ensures values == old(values) && errors == old(errors) && submitted == old(submitted) && result == old(result)
    {
      showThanks := false;
    }
  }
}
