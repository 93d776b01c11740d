/**
 * The backend's opaque ID codec: an internal `i64` key is shifted by `OFFSET`,
 * laid out as 8 bytes and written in Base58. Rust's native byte order is pinned
 * to little-endian, and `+`/`-` on `i64` wrap around as in a release build.
 */
module IdMarshaling {
  import opened Wrappers
  import opened RpcStatus
  import Base58

  type byte = Base58.byte

  /** The shift applied to every key before it is encoded. */
  const OFFSET: int := 7

  const TWO_64: int := 0x1_0000_0000_0000_0000
  const I64_MIN: int := -0x8000_0000_0000_0000
  const I64_MAX: int := 0x7FFF_FFFF_FFFF_FFFF

  /** Rust's `i64`. */
  type i64 = x: int | I64_MIN <= x <= I64_MAX

  /** Two's-complement truncation of `x` to 64 bits. */
  function Wrap(x: int): (r: i64)
    ensures I64_MIN <= x <= I64_MAX ==> r == x
    ensures I64_MAX < x <= I64_MAX + TWO_64 ==> r == x - TWO_64
    ensures I64_MIN - TWO_64 <= x < I64_MIN ==> r == x + TWO_64
  {
    var m := x % TWO_64;
    if m > I64_MAX then m - TWO_64 else m
  }

  /** `self + OFFSET` on an `i64`, wrapping on overflow. */
  function AddOffset(k: i64): i64 {
    Wrap(k + OFFSET)
  }

  /** `id - OFFSET` on an `i64`, wrapping on overflow. */
  function SubOffset(id: i64): i64 {
    Wrap(id - OFFSET)
  }

  /** Shifting back undoes shifting forward, overflow included. */
  lemma SubAddOffset(k: i64)
    ensures SubOffset(AddOffset(k)) == k
  {
  }

  /** Shifting forward undoes shifting back, overflow included. */
  lemma AddSubOffset(id: i64)
    ensures AddOffset(SubOffset(id)) == id
  {
  }

  function Pow256(n: nat): (p: nat)
    ensures p >= 1
  {
    if n == 0 then 1 else 256 * Pow256(n - 1)
  }

  /** The `n` least significant bytes of `u`, least significant first. */
  function NatToLe(u: nat, n: nat): (bs: seq<byte>)
    ensures |bs| == n
  {
    if n == 0 then [] else [u % 256] + NatToLe(u / 256, n - 1)
  }

  /** The natural number whose little-endian bytes are `bs`. */
  function LeToNat(bs: seq<byte>): nat {
    if |bs| == 0 then 0 else bs[0] + 256 * LeToNat(bs[1..])
  }

  lemma {:induction false} LeToNatBound(bs: seq<byte>)
    ensures LeToNat(bs) < Pow256(|bs|)
  {
    if |bs| > 0 {
      LeToNatBound(bs[1..]);
    }
  }

  lemma {:induction false} LeToNatOfNatToLe(u: nat, n: nat)
    requires u < Pow256(n)
    ensures LeToNat(NatToLe(u, n)) == u
  {
    if n > 0 {
      LeToNatOfNatToLe(u / 256, n - 1);
      assert NatToLe(u, n)[1..] == NatToLe(u / 256, n - 1);
    }
  }

  lemma {:induction false} NatToLeOfLeToNat(bs: seq<byte>)
    ensures NatToLe(LeToNat(bs), |bs|) == bs
  {
    if |bs| > 0 {
      var u := LeToNat(bs);
      assert u % 256 == bs[0] && u / 256 == LeToNat(bs[1..]);
      NatToLeOfLeToNat(bs[1..]);
    }
  }

  lemma LeToNatOfZeros(n: nat)
    ensures LeToNat(Base58.Zeros(n)) == 0
  {
    if n > 0 {
      assert Base58.Zeros(n)[1..] == Base58.Zeros(n - 1);
      LeToNatOfZeros(n - 1);
    }
  }

  /** `i64::to_le_bytes`. */
  function ToLeBytes(x: i64): (bs: seq<byte>)
    ensures |bs| == 8
  {
    NatToLe(x % TWO_64, 8)
  }

  /** `i64::from_le_bytes`. */
  function FromLeBytes(bs: seq<byte>): i64
    requires |bs| == 8
  {
    Wrap(LeToNat(bs))
  }

  /** The byte layout is a bijection between `i64` values and 8-byte strings. */
  lemma LeBytesRoundTrip(x: i64, bs: seq<byte>)
    requires |bs| == 8
    ensures FromLeBytes(ToLeBytes(x)) == x
    ensures ToLeBytes(FromLeBytes(bs)) == bs
  {
    FromLeBytesOfToLeBytes(x);
    ToLeBytesOfFromLeBytes(bs);
  }

  lemma FromLeBytesOfToLeBytes(x: i64)
    ensures FromLeBytes(ToLeBytes(x)) == x
  {
    assert Pow256(8) == TWO_64;
    var u := x % TWO_64;
    LeToNatOfNatToLe(u, 8);
    assert Wrap(u) == x;
  }

  lemma ToLeBytesOfFromLeBytes(bs: seq<byte>)
    requires |bs| == 8
    ensures ToLeBytes(FromLeBytes(bs)) == bs
  {
    assert Pow256(8) == TWO_64;
    var u := LeToNat(bs);
    LeToNatBound(bs);
    NatToLeOfLeToNat(bs);
    assert Wrap(u) % TWO_64 == u;
  }

  /** `i64::to_proto_id`: the external identifier of key `k`. */
  function ToProtoId(k: i64): (r: string)
    ensures forall i :: 0 <= i < |r| ==> Base58.IsBase58Char(r[i])
    ensures Base58.Decode(r) == Ok(ToLeBytes(AddOffset(k)))
  {
    Base58.DecodeEncode(ToLeBytes(AddOffset(k)));
    Base58.Encode(ToLeBytes(AddOffset(k)))
  }

  /**
   * `String::to_db_id`. A decoded byte string that is not exactly 8 bytes long is
   * replaced by 8 zero bytes, and a zero raw value is rejected with the error the
   * source constructs by hand.
   */
  function ToDbId(s: string): (r: Result<i64, Base58.DecodeError>)
    ensures r.Ok? ==> r.value != -OFFSET
  {
    match Base58.Decode(s)
    case Err(e) => Err(e)
    case Ok(bs) =>
      var id := FromLeBytes(if |bs| == 8 then bs else Base58.Zeros(8));
      if id == 0 then Err(Base58.InvalidCharacter('0', 0))
      else AddSubOffset(id); Ok(SubOffset(id))
  }

  /** `String::to_db_id_or_err`: any decoding failure becomes `invalid_id_<field>`. */
  function ToDbIdOrErr(s: string, fieldName: string): (r: Result<i64, Status>)
    ensures ToDbId(s).Ok? ==> r == Ok(ToDbId(s).value)
    ensures ToDbId(s).Err? ==> r == Err(Status(InvalidArgument, "invalid_id_" + fieldName))
  {
    match ToDbId(s)
    case Ok(id) => Ok(id)
    case Err(_) => Err(Status(InvalidArgument, "invalid_id_" + fieldName))
  }

  /** Decoding an encoded key gives the key back, for every key except `-OFFSET`. */
  lemma RoundTrip(k: i64)
    ensures ToDbId(ToProtoId(k)) == Ok(k) <==> k != -OFFSET
    ensures k == -OFFSET ==> ToDbId(ToProtoId(k)).Err?
  {
    var bs := ToLeBytes(AddOffset(k));
    Base58.DecodeEncode(bs);
    LeBytesRoundTrip(AddOffset(k), bs);
    SubAddOffset(k);
  }

  /** Every string accepted as key `k` is exactly the encoding of `k`. */
  lemma DecodedIdIsCanonical(s: string)
    requires ToDbId(s).Ok?
    ensures ToProtoId(ToDbId(s).value) == s
  {
    var bs := Base58.Decode(s).value;
    if |bs| != 8 {
      LeToNatOfZeros(8);
      assert false;
    }
    var id := FromLeBytes(bs);
    AddSubOffset(id);
    LeBytesRoundTrip(id, bs);
    Base58.EncodeDecode(s);
  }

  /** Distinct keys have distinct external identifiers. */
  lemma ToProtoIdInjective(a: i64, b: i64)
    requires ToProtoId(a) == ToProtoId(b)
    ensures a == b
  {
    Base58.EncodeInjective(ToLeBytes(AddOffset(a)), ToLeBytes(AddOffset(b)));
    LeBytesRoundTrip(AddOffset(a), ToLeBytes(AddOffset(a)));
    LeBytesRoundTrip(AddOffset(b), ToLeBytes(AddOffset(b)));
    SubAddOffset(a);
    SubAddOffset(b);
  }

  /** A string that decodes to the raw value 0 is rejected, never read as key `-OFFSET`. */
  lemma ZeroRawValueRejected(s: string)
    requires Base58.Decode(s).Ok?
    requires |Base58.Decode(s).value| == 8 && FromLeBytes(Base58.Decode(s).value) == 0
    ensures ToDbId(s) == Err(Base58.InvalidCharacter('0', 0))
  {
  }

  /** A string whose bytes are not exactly 8 long is rejected through the zero fill. */
  lemma WrongLengthRejected(s: string)
    requires Base58.Decode(s).Ok? && |Base58.Decode(s).value| != 8
    ensures ToDbId(s) == Err(Base58.InvalidCharacter('0', 0))
  {
    LeToNatOfZeros(8);
  }

  /** A character outside the alphabet is reported as the decoding error, without a panic. */
  lemma InvalidCharacterRejected(s: string, i: nat)
    requires i < |s| && !Base58.IsBase58Char(s[i])
    ensures ToDbId(s).Err? && ToDbId(s) == Err(Base58.Decode(s).error)
  {
  }

  /** A successful decode is the raw 8-byte value minus `OFFSET`; plain subtraction when it cannot overflow. */
  lemma DecodedValueIsRawMinusOffset(s: string)
    requires ToDbId(s).Ok?
    ensures Base58.Decode(s).Ok? && |Base58.Decode(s).value| == 8
    ensures var raw := FromLeBytes(Base58.Decode(s).value);
            raw != 0 && ToDbId(s).value == SubOffset(raw)
            && (raw >= I64_MIN + OFFSET ==> ToDbId(s).value == raw - OFFSET)
  {
    var bs := Base58.Decode(s).value;
    if |bs| != 8 {
      LeToNatOfZeros(8);
    }
  }

  /** Without overflow, encoding shifts the key by plain addition. */
  lemma EncodeWithoutOverflow(k: i64)
    requires k <= I64_MAX - OFFSET
    ensures ToProtoId(k) == Base58.Encode(ToLeBytes(k + OFFSET))
  {
  }

  /** The RPC-facing wrapper accepts every encoded key except `-OFFSET`. */
  lemma ToDbIdOrErrRoundTrip(k: i64, fieldName: string)
    ensures k != -OFFSET ==> ToDbIdOrErr(ToProtoId(k), fieldName) == Ok(k)
    ensures k == -OFFSET ==> ToDbIdOrErr(ToProtoId(k), fieldName) == Err(Status(InvalidArgument, "invalid_id_" + fieldName))
  {
    RoundTrip(k);
  }
}
