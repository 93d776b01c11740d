/**
 * The backend's account-field validators: each is a short chain of length,
 * character-class and reserved-word checks whose first failure is reported.
 *
 * Lengths are counted in UTF-8 bytes, the unit of Rust's `str::len`. A word
 * character is an ASCII letter, digit or underscore.
 */
module FieldValidation {
  import opened Wrappers

  /** Which check a field failed. */
  datatype Check =
    | LengthOutOfRange(min: nat, max: nat)
    | NotAllWordChars
    | ReservedValue

  /** A failed check on a named field. */
  datatype FieldFailure = FieldFailure(field: string, check: Check)

  /** The number of bytes UTF-8 uses for one character. */
  function CharUtf8Len(c: char): (n: nat)
    ensures 1 <= n <= 4
    ensures n == 1 <==> c as int < 0x80
  {
    if c as int < 0x80 then 1
    else if c as int < 0x800 then 2
    else if c as int < 0x1_0000 then 3
    else 4
  }

  /** The UTF-8 byte length of a string: Rust's `str::len`. */
  function Utf8Len(s: string): (n: nat)
    ensures |s| <= n <= 4 * |s|
    ensures n == |s| <==> forall i :: 0 <= i < |s| ==> s[i] as int < 0x80
  {
    if |s| == 0 then 0
    else
      var n := CharUtf8Len(s[0]) + Utf8Len(s[1..]);
      assert forall i :: 1 <= i < |s| ==> s[i] == s[1..][i - 1];
      n
  }

  /** The byte length of a concatenation is the sum of the byte lengths. */
  lemma {:induction false} Utf8LenAppend(a: string, b: string)
    ensures Utf8Len(a + b) == Utf8Len(a) + Utf8Len(b)
  {
    if |a| == 0 {
      assert a + b == b;
    } else {
      assert (a + b)[1..] == a[1..] + b;
      Utf8LenAppend(a[1..], b);
    }
  }

  /** `[A-Za-z0-9_]`. */
  predicate IsWordChar(c: char) {
    ('a' <= c <= 'z') || ('A' <= c <= 'Z') || ('0' <= c <= '9') || c == '_'
  }

  /** `validate_length`: the value's byte length lies in `[min, max]`. */
  function ValidateLength(value: string, field: string, min: nat, max: nat): (r: Outcome<FieldFailure>)
    ensures r.Pass? <==> min <= Utf8Len(value) <= max
    ensures r.Fail? ==> r.error == FieldFailure(field, LengthOutOfRange(min, max))
  {
    var n := Utf8Len(value);
    if min <= n && n <= max then Pass else Fail(FieldFailure(field, LengthOutOfRange(min, max)))
  }

  /** Whether every character of `s` from index `from` on is a word character. */
  function AllWordCharsFrom(s: string, from: nat): (b: bool)
    requires from <= |s|
    ensures b <==> forall i :: from <= i < |s| ==> IsWordChar(s[i])
    decreases |s| - from
  {
    if from == |s| then true
    else IsWordChar(s[from]) && AllWordCharsFrom(s, from + 1)
  }

  /** `validate_all_word_chars`: every character is a word character. */
  function ValidateAllWordChars(value: string, field: string): (r: Outcome<FieldFailure>)
    ensures r.Pass? <==> forall i :: 0 <= i < |value| ==> IsWordChar(value[i])
    ensures r.Fail? ==> r.error == FieldFailure(field, NotAllWordChars)
  {
    if AllWordCharsFrom(value, 0) then Pass else Fail(FieldFailure(field, NotAllWordChars))
  }

  /** `validate_reserved_values`: the value is none of the reserved words. */
  function ValidateReservedValues(value: string, field: string, reserved: seq<string>): (r: Outcome<FieldFailure>)
    ensures r.Pass? <==> value !in reserved
    ensures r.Fail? ==> r.error == FieldFailure(field, ReservedValue)
  {
    if value in reserved then Fail(FieldFailure(field, ReservedValue)) else Pass
  }

  /** Path segments a username may not take, so that `server/<segment>` stays routable. */
  const ReservedUsernames: seq<string> :=
    ["events", "event", "e", "posts", "post", "p", "groups", "group", "g", "people", "person"]

  /** Runs `second` only when `first` passes: Rust's `?`. */
  function AndThen(first: Outcome<FieldFailure>, second: Outcome<FieldFailure>): (r: Outcome<FieldFailure>)
    ensures r.Pass? <==> first.Pass? && second.Pass?
    ensures first.Fail? ==> r == first
    ensures first.Pass? ==> r == second
  {
    if first.Fail? then first else second
  }

  /** `validate_username`: 1 to 47 bytes, word characters only, not reserved. */
  function ValidateUsername(value: string): (r: Outcome<FieldFailure>)
    ensures r.Pass? <==>
      1 <= Utf8Len(value) <= 47 &&
      (forall i :: 0 <= i < |value| ==> IsWordChar(value[i])) &&
      value !in ReservedUsernames
  {
    AndThen(ValidateLength(value, "username", 1, 47),
      AndThen(ValidateAllWordChars(value, "username"),
        ValidateReservedValues(value, "username", ReservedUsernames)))
  }

  /**
   * The username checks run in order and the first failure is the one
   * reported.
   */
  lemma UsernameFirstFailure(value: string)
    ensures !(1 <= Utf8Len(value) <= 47) ==>
      ValidateUsername(value) == Fail(FieldFailure("username", LengthOutOfRange(1, 47)))
    ensures 1 <= Utf8Len(value) <= 47 && (exists i :: 0 <= i < |value| && !IsWordChar(value[i])) ==>
      ValidateUsername(value) == Fail(FieldFailure("username", NotAllWordChars))
    ensures (1 <= Utf8Len(value) <= 47 && (forall i :: 0 <= i < |value| ==> IsWordChar(value[i])) &&
      value in ReservedUsernames) ==>
      ValidateUsername(value) == Fail(FieldFailure("username", ReservedValue))
  {
  }

  /** A word-character string has as many bytes as characters. */
  lemma {:induction false} WordCharsByteLength(s: string)
    requires forall i :: 0 <= i < |s| ==> IsWordChar(s[i])
    ensures Utf8Len(s) == |s|
  {
    if |s| > 0 {
      assert forall i :: 0 <= i < |s[1..]| ==> s[1..][i] == s[i + 1];
      WordCharsByteLength(s[1..]);
    }
  }

  /** "events" passes the length and character checks but is reserved. */
  lemma EventsIsReserved()
    ensures ValidateUsername("events") == Fail(FieldFailure("username", ReservedValue))
  {
    var v := "events";
    WordCharsByteLength(v);
    UsernameFirstFailure(v);
  }

  /** "al_ice3" is a valid username. */
  lemma AliceIsAccepted()
    ensures ValidateUsername("al_ice3").Pass?
  {
    var v := "al_ice3";
    WordCharsByteLength(v);
    assert forall w :: w in ReservedUsernames ==> w != v;
  }

  /** `validate_password`: 8 to 128 bytes. */
  function ValidatePassword(value: string): (r: Outcome<FieldFailure>)
    ensures r.Pass? <==> 8 <= Utf8Len(value) <= 128
    ensures r.Fail? ==> r.error == FieldFailure("password", LengthOutOfRange(8, 128))
  {
    ValidateLength(value, "password", 8, 128)
  }

  /** `validate_email`: an absent email passes; a present one has 1 to 255 bytes. */
  function ValidateEmail(value: Option<string>): (r: Outcome<FieldFailure>)
    ensures value.None? ==> r.Pass?
    ensures value.Some? ==> (r.Pass? <==> 1 <= Utf8Len(value.value) <= 255)
    ensures r.Fail? ==> r.error == FieldFailure("email", LengthOutOfRange(1, 255))
  {
    match value
    case Some(v) => ValidateLength(v, "email", 1, 255)
    case None => Pass
  }

  /** `validate_phone`: an absent phone passes; a present one has 1 to 128 bytes. */
  function ValidatePhone(value: Option<string>): (r: Outcome<FieldFailure>)
    ensures value.None? ==> r.Pass?
    ensures value.Some? ==> (r.Pass? <==> 1 <= Utf8Len(value.value) <= 128)
    ensures r.Fail? ==> r.error == FieldFailure("phone", LengthOutOfRange(1, 128))
  {
    match value
    case Some(v) => ValidateLength(v, "phone", 1, 128)
    case None => Pass
  }

  /** A present but empty email or phone fails, unlike an absent one. */
  lemma EmptyIsNotAbsent()
    ensures ValidateEmail(Some("")).Fail? && ValidateEmail(None).Pass?
    ensures ValidatePhone(Some("")).Fail? && ValidatePhone(None).Pass?
  {
  }
}
