/**
 * Base58 text as produced and read by the `bs58` crate with its default
 * (Bitcoin) alphabet: the bytes are read as one big-endian natural number and
 * written in radix 58, and every leading zero byte becomes a leading '1'.
 */
module Base58 {
  import opened Wrappers
  import Radix

  /** A byte, as an integer in [0, 256). */
  type byte = b: int | 0 <= b < 256

  /** The Bitcoin alphabet: digit d is written `Alphabet[d]`. */
  const Alphabet: string :=
    "123456789" + "ABCDEFGH" + "JKLMN" + "PQRSTUVWXYZ" + "abcdefghijk" + "mnopqrstuvwxyz"

  /** The character for digit `d`; the alphabet is six runs of consecutive code points. */
  function DigitChar(d: nat): char
    requires d < 58
  {
    if d < 9 then (49 + d) as char
    else if d < 17 then (65 + d - 9) as char
    else if d < 22 then (74 + d - 17) as char
    else if d < 33 then (80 + d - 22) as char
    else if d < 44 then (97 + d - 33) as char
    else (109 + d - 44) as char
  }

  /** The digit a character stands for, if it belongs to the alphabet. */
  function CharDigit(c: char): (r: Option<nat>)
    ensures r.Some? ==> r.value < 58 && DigitChar(r.value) == c
  {
    var n := c as int;
    if 49 <= n <= 57 then Some(n - 49)
    else if 65 <= n <= 72 then Some(n - 65 + 9)
    else if 74 <= n <= 78 then Some(n - 74 + 17)
    else if 80 <= n <= 90 then Some(n - 80 + 22)
    else if 97 <= n <= 107 then Some(n - 97 + 33)
    else if 109 <= n <= 122 then Some(n - 109 + 44)
    else None
  }

  predicate IsBase58Char(c: char) {
    CharDigit(c).Some?
  }

  /** `DigitChar` and `Alphabet` spell the same 58 characters. */
  lemma AlphabetAgrees()
    ensures |Alphabet| == 58
    ensures forall d :: 0 <= d < 58 ==> DigitChar(d) == Alphabet[d]
  {
    var r1, r2, r3 := "123456789", "ABCDEFGH", "JKLMN";
    var r4, r5, r6 := "PQRSTUVWXYZ", "abcdefghijk", "mnopqrstuvwxyz";
    assert forall i :: 0 <= i < 9 ==> r1[i] == (49 + i) as char;
    assert forall i :: 0 <= i < 8 ==> r2[i] == (65 + i) as char;
    assert forall i :: 0 <= i < 5 ==> r3[i] == (74 + i) as char;
    assert forall i :: 0 <= i < 11 ==> r4[i] == (80 + i) as char;
    assert forall i :: 0 <= i < 11 ==> r5[i] == (97 + i) as char;
    assert forall i :: 0 <= i < 14 ==> r6[i] == (109 + i) as char;
    assert Alphabet == r1 + r2 + r3 + r4 + r5 + r6;
  }

  /** Every digit's character reads back as that digit; only '1' reads as zero. */
  lemma CharDigitOfDigitChar(d: nat)
    requires d < 58
    ensures CharDigit(DigitChar(d)) == Some(d)
    ensures (DigitChar(d) == '1') <==> d == 0
  {
  }

  /** How `bs58::decode` reports the first character it cannot read. */
  datatype DecodeError = InvalidCharacter(character: char, index: nat) | NonAsciiCharacter(index: nat)

  /**
   * The error for the offending character at `i`. The crate scans UTF-8 bytes;
   * every character before the first offending one is ASCII, so the byte index
   * equals the character index.
   */
  function ErrorAt(s: string, i: nat): DecodeError
    requires i < |s|
  {
    if s[i] as int > 127 then NonAsciiCharacter(i) else InvalidCharacter(s[i], i)
  }

  /** The error for the first character at or after `from` outside the alphabet, if any. */
  function FirstInvalid(s: string, from: nat): (r: Option<DecodeError>)
    requires from <= |s|
    ensures r.None? <==> forall i :: from <= i < |s| ==> IsBase58Char(s[i])
    ensures r.Some? ==> exists i :: from <= i < |s| && !IsBase58Char(s[i]) && r.value == ErrorAt(s, i)
                                    && forall j :: from <= j < i ==> IsBase58Char(s[j])
    decreases |s| - from
  {
    if from == |s| then None
    else if !IsBase58Char(s[from]) then Some(ErrorAt(s, from))
    else FirstInvalid(s, from + 1)
  }

  function Zeros(n: nat): (bs: seq<byte>)
    ensures |bs| == n && forall i :: 0 <= i < n ==> bs[i] == 0
  {
    seq(n, _ => 0)
  }

  function Ones(n: nat): (s: string)
    ensures |s| == n && forall i :: 0 <= i < n ==> s[i] == '1'
  {
    seq(n, _ => '1')
  }

  /** The number of leading zero bytes. */
  function LeadingZeros(bs: seq<byte>): (z: nat)
    ensures z <= |bs|
    ensures forall i :: 0 <= i < z ==> bs[i] == 0
    ensures z < |bs| ==> bs[z] != 0
    decreases |bs|
  {
    if |bs| > 0 && bs[0] == 0 then 1 + LeadingZeros(bs[1..]) else 0
  }

  /** Any count of zero bytes followed by a non-zero byte (or the end) is the leading-zero count. */
  lemma LeadingZerosUnique(bs: seq<byte>, z: nat)
    requires z <= |bs|
    requires forall i :: 0 <= i < z ==> bs[i] == 0
    requires z < |bs| ==> bs[z] != 0
    ensures LeadingZeros(bs) == z
  {
  }

  /** The number of leading '1' characters. */
  function LeadingOnes(s: string): (z: nat)
    ensures z <= |s|
    ensures forall i :: 0 <= i < z ==> s[i] == '1'
    ensures z < |s| ==> s[z] != '1'
    decreases |s|
  {
    if |s| > 0 && s[0] == '1' then 1 + LeadingOnes(s[1..]) else 0
  }

  /** Any count of '1's followed by another character (or the end) is the leading-'1' count. */
  lemma LeadingOnesUnique(s: string, z: nat)
    requires z <= |s|
    requires forall i :: 0 <= i < z ==> s[i] == '1'
    requires z < |s| ==> s[z] != '1'
    ensures LeadingOnes(s) == z
  {
  }

  function DigitsToText(ds: seq<nat>): (s: string)
    requires Radix.IsDigits(ds, 58)
    ensures |s| == |ds|
    ensures forall i :: 0 <= i < |ds| ==> s[i] == DigitChar(ds[i])
  {
    seq(|ds|, i requires 0 <= i < |ds| => DigitChar(ds[i]))
  }

  function TextToDigits(s: string): (ds: seq<nat>)
    requires forall i :: 0 <= i < |s| ==> IsBase58Char(s[i])
    ensures |ds| == |s| && Radix.IsDigits(ds, 58)
    ensures forall i :: 0 <= i < |s| ==> CharDigit(s[i]) == Some(ds[i])
  {
    var ds := seq(|s|, i requires 0 <= i < |s| => CharDigit(s[i]).GetOr(0));
    forall i | 0 <= i < |s| ensures CharDigit(s[i]) == Some(ds[i]) {
      assert IsBase58Char(s[i]);
    }
    ds
  }

  function BytesToDigits(bs: seq<byte>): (ds: seq<nat>)
    ensures ds == bs && Radix.IsDigits(ds, 256)
  {
    bs
  }

  function DigitsToBytes(ds: seq<nat>): (bs: seq<byte>)
    requires Radix.IsDigits(ds, 256)
    ensures bs == ds
  {
    seq(|ds|, i requires 0 <= i < |ds| => ds[i] as byte)
  }

  /** `bs58::encode(bytes).into_string()`. */
  function Encode(bs: seq<byte>): (s: string)
    ensures forall i :: 0 <= i < |s| ==> IsBase58Char(s[i])
  {
    var z := LeadingZeros(bs);
    var text := DigitsToText(Radix.ToDigits(Radix.FromDigits(BytesToDigits(bs[z..]), 256), 58));
    forall i | 0 <= i < |text| ensures IsBase58Char(text[i]) {
      CharDigitOfDigitChar(Radix.ToDigits(Radix.FromDigits(BytesToDigits(bs[z..]), 256), 58)[i]);
    }
    assert CharDigit('1') == Some(0);
    Ones(z) + text
  }

  /** `bs58::decode(text).into_vec()`: the bytes, or the first unreadable character. */
  function Decode(s: string): (r: Result<seq<byte>, DecodeError>)
    ensures r.Err? <==> exists i :: 0 <= i < |s| && !IsBase58Char(s[i])
  {
    match FirstInvalid(s, 0)
    case Some(e) => Err(e)
    case None =>
      var z := LeadingOnes(s);
      Ok(Zeros(z) + DigitsToBytes(Radix.ToDigits(Radix.FromDigits(TextToDigits(s[z..]), 58), 256)))
  }

  /** The digits of a spelling read back from its text. */
  lemma TextToDigitsOfText(ds: seq<nat>)
    requires Radix.IsDigits(ds, 58)
    ensures TextToDigits(DigitsToText(ds)) == ds
  {
    var text := DigitsToText(ds);
    forall i | 0 <= i < |ds| ensures TextToDigits(text)[i] == ds[i] {
      CharDigitOfDigitChar(ds[i]);
    }
  }

  /** Text in the alphabet is the spelling of its own digits. */
  lemma DigitsToTextOfDigits(text: string)
    requires forall i :: 0 <= i < |text| ==> IsBase58Char(text[i])
    ensures DigitsToText(TextToDigits(text)) == text
  {
    var ds := TextToDigits(text);
    forall i | 0 <= i < |text| ensures DigitsToText(ds)[i] == text[i] {
      CharDigitOfDigitChar(ds[i]);
    }
  }

  /** An encoding is its leading zero bytes as `'1'`s followed by the spelling of the rest. */
  lemma EncodeParts(bs: seq<byte>)
    ensures var z := LeadingZeros(bs);
      var ds := Radix.ToDigits(Radix.FromDigits(BytesToDigits(bs[z..]), 256), 58);
      Encode(bs) == Ones(z) + DigitsToText(ds)
  {
  }

  /** A decode of text in the alphabet is its leading `'1'`s as zero bytes followed by the value of the rest. */
  lemma DecodeParts(s: string)
    requires forall i :: 0 <= i < |s| ==> IsBase58Char(s[i])
    ensures var z := LeadingOnes(s);
      var ds := TextToDigits(s[z..]);
      Decode(s) == Ok(Zeros(z) + DigitsToBytes(Radix.ToDigits(Radix.FromDigits(ds, 58), 256)))
  {
  }

  /** `z` `'1'`s before a spelling that does not start with `'1'` are its leading `'1'`s. */
  lemma OnesBeforeText(z: nat, ds: seq<nat>)
    requires Radix.IsDigits(ds, 58) && Radix.Minimal(ds)
    ensures var s := Ones(z) + DigitsToText(ds);
      LeadingOnes(s) == z && s[z..] == DigitsToText(ds) &&
      forall i :: 0 <= i < |s| ==> IsBase58Char(s[i])
  {
    var text := DigitsToText(ds);
    var s := Ones(z) + text;
    if |ds| > 0 {
      CharDigitOfDigitChar(ds[0]);
      assert s[z] == text[0];
    }
    LeadingOnesUnique(s, z);
    assert s[z..] == text;
    assert CharDigit('1') == Some(0);
    forall i | 0 <= i < |s| ensures IsBase58Char(s[i]) {
      if i >= z {
        assert s[i] == text[i - z];
        CharDigitOfDigitChar(ds[i - z]);
      }
    }
  }

  /** Text of `z` `'1'`s before a minimal spelling decodes to `z` zero bytes before the spelled value. */
  lemma DecodeOnesBeforeText(z: nat, ds: seq<nat>)
    requires Radix.IsDigits(ds, 58) && Radix.Minimal(ds)
    ensures Decode(Ones(z) + DigitsToText(ds)) ==
      Ok(Zeros(z) + DigitsToBytes(Radix.ToDigits(Radix.FromDigits(ds, 58), 256)))
  {
    var s := Ones(z) + DigitsToText(ds);
    OnesBeforeText(z, ds);
    DecodeParts(s);
    TextToDigitsOfText(ds);
  }

  /** The bytes after the leading zeros are the base-256 spelling of their value. */
  lemma SignificantBytes(bs: seq<byte>)
    ensures var z := LeadingZeros(bs);
      DigitsToBytes(Radix.ToDigits(Radix.FromDigits(BytesToDigits(bs[z..]), 256), 256)) == bs[z..]
  {
    var z := LeadingZeros(bs);
    Radix.ToDigitsFromDigits(BytesToDigits(bs[z..]), 256);
  }

  /** A byte string is its leading zeros followed by the rest. */
  lemma ZerosThenRest(bs: seq<byte>)
    ensures Zeros(LeadingZeros(bs)) + bs[LeadingZeros(bs)..] == bs
  {
    var z := LeadingZeros(bs);
    assert bs == bs[..z] + bs[z..];
    assert bs[..z] == Zeros(z);
  }

  /** Decoding undoes encoding, for every byte string. */
  lemma DecodeEncode(bs: seq<byte>)
    ensures Decode(Encode(bs)) == Ok(bs)
  {
    var z := LeadingZeros(bs);
    var n := Radix.FromDigits(BytesToDigits(bs[z..]), 256);
    var ds := Radix.ToDigits(n, 58);
    calc {
      Decode(Encode(bs));
      { EncodeParts(bs); }
      Decode(Ones(z) + DigitsToText(ds));
      { DecodeOnesBeforeText(z, ds); }
      Ok(Zeros(z) + DigitsToBytes(Radix.ToDigits(Radix.FromDigits(ds, 58), 256)));
      Ok(Zeros(z) + DigitsToBytes(Radix.ToDigits(n, 256)));
      { SignificantBytes(bs); }
      Ok(Zeros(z) + bs[z..]);
      { ZerosThenRest(bs); }
      Ok(bs);
    }
  }

  /**
   * A successful decode is the leading `'1'`s as zero bytes followed by the
   * value of the rest, and those are exactly its leading zero bytes.
   */
  lemma DecodeShape(s: string)
    requires forall i :: 0 <= i < |s| ==> IsBase58Char(s[i])
    ensures var z := LeadingOnes(s);
      var bs := Decode(s).value;
      var ds := TextToDigits(s[z..]);
      Decode(s).Ok? && z <= |bs| && LeadingZeros(bs) == z && Radix.Minimal(ds) &&
      bs[z..] == DigitsToBytes(Radix.ToDigits(Radix.FromDigits(ds, 58), 256))
  {
    DecodeParts(s);
    var z := LeadingOnes(s);
    var text := s[z..];
    var ds := TextToDigits(text);
    var bytes := DigitsToBytes(Radix.ToDigits(Radix.FromDigits(ds, 58), 256));
    var bs := Zeros(z) + bytes;
    if |ds| > 0 {
      assert text[0] != '1';
      assert ds[0] != 0;
    }
    if z < |bs| {
      assert bs[z] == bytes[0];
    }
    LeadingZerosUnique(bs, z);
    assert bs[z..] == bytes;
  }

  /** Zero bytes before a minimal base-256 spelling encode as that many `'1'`s before the value in base 58. */
  lemma EncodeZerosBeforeBytes(z: nat, bytes: seq<nat>)
    requires Radix.IsDigits(bytes, 256) && Radix.Minimal(bytes)
    ensures Encode(Zeros(z) + DigitsToBytes(bytes)) ==
      Ones(z) + DigitsToText(Radix.ToDigits(Radix.FromDigits(bytes, 256), 58))
  {
    var bs := Zeros(z) + DigitsToBytes(bytes);
    if z < |bs| {
      assert bs[z] == bytes[0];
    }
    LeadingZerosUnique(bs, z);
    assert bs[z..] == DigitsToBytes(bytes);
    EncodeParts(bs);
  }

  /** The digits after the leading `'1'`s of text in the alphabet form a minimal spelling. */
  lemma SignificantDigits(s: string)
    requires forall i :: 0 <= i < |s| ==> IsBase58Char(s[i])
    ensures Radix.Minimal(TextToDigits(s[LeadingOnes(s)..]))
  {
    var z := LeadingOnes(s);
    var text := s[z..];
    if |text| > 0 {
      assert text[0] != '1';
    }
  }

  /** Text is its leading `'1'`s followed by the rest. */
  lemma OnesThenRest(s: string)
    ensures Ones(LeadingOnes(s)) + s[LeadingOnes(s)..] == s
  {
    var z := LeadingOnes(s);
    assert s == s[..z] + s[z..];
    assert s[..z] == Ones(z);
  }

  /** Encoding undoes a successful decode: each byte string has exactly one spelling. */
  lemma EncodeDecode(s: string)
    requires Decode(s).Ok?
    ensures Encode(Decode(s).value) == s
  {
    var z := LeadingOnes(s);
    var text := s[z..];
    var ds := TextToDigits(text);
    var m := Radix.FromDigits(ds, 58);
    var bytes := Radix.ToDigits(m, 256);
    SignificantDigits(s);
    calc {
      Encode(Decode(s).value);
      { DecodeParts(s); }
      Encode(Zeros(z) + DigitsToBytes(bytes));
      { EncodeZerosBeforeBytes(z, bytes); }
      Ones(z) + DigitsToText(Radix.ToDigits(Radix.FromDigits(bytes, 256), 58));
      Ones(z) + DigitsToText(Radix.ToDigits(m, 58));
      { Radix.ToDigitsFromDigits(ds, 58); }
      Ones(z) + DigitsToText(ds);
      { DigitsToTextOfDigits(text); }
      Ones(z) + text;
      { OnesThenRest(s); }
      s;
    }
  }

  /** Distinct byte strings have distinct spellings. */
  lemma EncodeInjective(a: seq<byte>, b: seq<byte>)
    requires Encode(a) == Encode(b)
    ensures a == b
  {
    DecodeEncode(a);
    DecodeEncode(b);
  }
}
