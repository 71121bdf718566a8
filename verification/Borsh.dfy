/** The encodings of the Borsh specification that the program and the service use: little-endian
    integers of fixed width, fixed arrays as they are, strings as a u32 length and the UTF-8 bytes. */
module Borsh {
  import opened Common

  type Bytes = seq<byte>

  type Bytes32 = s: seq<byte> | |s| == 32 witness seq(32, _ => 0)

  const I64_LIMIT: int := 0x8000_0000_0000_0000

  type i64 = x: int | -I64_LIMIT <= x < I64_LIMIT

  function Pow256(width: nat): (p: nat)
    ensures p >= 1
  {
    if width == 0 then 1 else 256 * Pow256(width - 1)
  }

  function LittleEndian(n: nat, width: nat): (s: Bytes)
    ensures |s| == width
  {
    if width == 0 then [] else [n % 256] + LittleEndian(n / 256, width - 1)
  }

  function FromLittleEndian(s: Bytes): nat {
    if s == [] then 0 else s[0] + 256 * FromLittleEndian(s[1..])
  }

  lemma {:induction false} IntegerRoundTrip(n: nat, width: nat)
    requires n < Pow256(width)
    ensures FromLittleEndian(LittleEndian(n, width)) == n
  {
    if width != 0 {
      IntegerRoundTrip(n / 256, width - 1);
      assert LittleEndian(n, width)[1..] == LittleEndian(n / 256, width - 1);
    }
  }

  /** The low byte comes first. */
  lemma {:induction false} ByteAt(n: nat, width: nat, k: nat)
    requires k < width
    ensures LittleEndian(n, width)[k] == n / Pow256(k) % 256
  {
    if k > 0 {
      ByteAt(n / 256, width - 1, k - 1);
      DividedTwice(n, Pow256(k - 1));
    }
  }

  lemma DividedTwice(n: nat, b: nat)
    requires b >= 1
    ensures n / 256 / b == n / (256 * b)
  {
    var d, rest := n / 256 / b, n / 256 % b;
    assert n / 256 == b * d + rest;
    assert (256 * b) * d == 256 * (b * d);
    QuotientIs(n, 256 * b, d, 256 * rest + n % 256);
  }

  lemma AtLeastOnce(u: nat, n: nat)
    requires n >= 1
    ensures u * n >= u
  {
  }

  /** Division with remainder has one answer. */
  lemma QuotientIs(m: nat, u: nat, d: nat, rest: nat)
    requires m == u * d + rest && rest < u
    ensures m / u == d && m % u == rest
  {
    var e := m / u;
    assert m == u * e + m % u;
    if e < d {
      assert u * d == u * e + u * (d - e);
      AtLeastOnce(u, d - e);
      assert false;
    } else if d < e {
      assert u * e == u * d + u * (e - d);
      AtLeastOnce(u, e - d);
      assert false;
    }
  }

  lemma LowByte(low: byte, rest: nat)
    ensures (low + 256 * rest) % 256 == low && (low + 256 * rest) / 256 == rest
  {
  }

  lemma {:induction false} DecodedFits(s: Bytes)
    ensures FromLittleEndian(s) < Pow256(|s|)
  {
    if s != [] {
      DecodedFits(s[1..]);
    }
  }

  /** Every run of bytes is the encoding of what it decodes to: no two byte strings mean one integer. */
  lemma {:induction false} BytesRoundTrip(s: Bytes)
    ensures FromLittleEndian(s) < Pow256(|s|)
    ensures LittleEndian(FromLittleEndian(s), |s|) == s
  {
    DecodedFits(s);
    hide Pow256;
    if s != [] {
      BytesRoundTrip(s[1..]);
      LowByte(s[0], FromLittleEndian(s[1..]));
      assert s == [s[0]] + s[1..];
    }
  }

  lemma Widths()
    ensures Pow256(4) == U32_SIZE
    ensures Pow256(8) == U64_MAX + 1
  {
    assert Pow256(2) == 0x1_0000;
    assert Pow256(4) == 256 * (256 * Pow256(2));
    assert Pow256(6) == 256 * (256 * Pow256(4));
    assert Pow256(8) == 256 * (256 * Pow256(6));
  }

  /** Two's complement. */
  function EncodeI64(x: i64): Bytes {
    LittleEndian(if x < 0 then x + 2 * I64_LIMIT else x, 8)
  }

  function ToSigned(n: nat): int {
    if n < I64_LIMIT then n else n - 2 * I64_LIMIT
  }

  lemma SignedRoundTrip(x: i64)
    ensures FromLittleEndian(EncodeI64(x)) == if x < 0 then U64_MAX + 1 + x else x
    ensures ToSigned(FromLittleEndian(EncodeI64(x))) == x
  {
    Widths();
    IntegerRoundTrip(if x < 0 then x + 2 * I64_LIMIT else x, 8);
  }

  // ---------------------------------------------------------------- reading at an offset

  datatype ReadError = OutOfRange

  /** Buffer.subarray: clamps instead of failing. */
  function Slice(data: Bytes, offset: nat, length: nat): Bytes {
    if offset >= |data| then []
    else if offset + length > |data| then data[offset..]
    else data[offset..offset + length]
  }

  lemma SliceClamps(data: Bytes, offset: nat, length: nat)
    ensures var end := if offset + length < |data| then offset + length else |data|;
      Slice(data, offset, length) == if offset < end then data[offset..end] else []
  {
  }

  /** Buffer.readUIntLE and its kin: throws when the bytes are not there. */
  function ReadUnsigned(data: Bytes, offset: nat, width: nat): Result<nat, ReadError> {
    if offset + width > |data| then Err(OutOfRange) else Ok(FromLittleEndian(data[offset..offset + width]))
  }

  /** Reading back a field that stands behind some bytes and before others. */
  lemma ReadField(before: Bytes, field: Bytes, after: Bytes)
    ensures Slice(before + field + after, |before|, |field|) == field
    ensures ReadUnsigned(before + field + after, |before|, |field|) == Ok(FromLittleEndian(field))
  {
    assert (before + field + after)[|before|..|before| + |field|] == field;
  }

  // ---------------------------------------------------------------- structs

  /** A struct is its fields one after the other. */
  function Flatten(fields: seq<Bytes>): Bytes {
    if fields == [] then [] else Flatten(fields[..|fields| - 1]) + fields[|fields| - 1]
  }

  /** The offset of field k. */
  function Start(fields: seq<Bytes>, k: nat): nat
    requires k <= |fields|
  {
    if k == 0 then 0 else Start(fields, k - 1) + |fields[k - 1]|
  }

  lemma {:induction false} StartIsLocal(fields: seq<Bytes>, more: seq<Bytes>, k: nat)
    requires k <= |fields|
    ensures Start(fields + more, k) == Start(fields, k)
  {
    if k != 0 {
      StartIsLocal(fields, more, k - 1);
    }
  }

  lemma {:induction false} FlattenSize(fields: seq<Bytes>)
    ensures |Flatten(fields)| == Start(fields, |fields|)
  {
    if fields != [] {
      var init := fields[..|fields| - 1];
      FlattenSize(init);
      assert init + [fields[|fields| - 1]] == fields;
      StartIsLocal(init, [fields[|fields| - 1]], |init|);
    }
  }

  lemma {:induction false} StartWithin(fields: seq<Bytes>, k: nat)
    requires k < |fields|
    ensures Start(fields, k + 1) == Start(fields, k) + |fields[k]| <= |Flatten(fields)|
  {
    FlattenSize(fields);
    StartsClimb(fields, k + 1, |fields|);
  }

  lemma {:induction false} StartsClimb(fields: seq<Bytes>, k: nat, n: nat)
    requires k <= n <= |fields|
    ensures Start(fields, k) <= Start(fields, n)
  {
    if k < n {
      StartsClimb(fields, k, n - 1);
    }
  }

  /** Any field is read back at its offset, whatever stands around it. */
  lemma {:induction false} FieldReadsBack(fields: seq<Bytes>, k: nat, tail: Bytes)
    requires k < |fields|
    ensures Slice(Flatten(fields) + tail, Start(fields, k), |fields[k]|) == fields[k]
    ensures ReadUnsigned(Flatten(fields) + tail, Start(fields, k), |fields[k]|) == Ok(FromLittleEndian(fields[k]))
  {
    var init, last := fields[..|fields| - 1], fields[|fields| - 1];
    assert init + [last] == fields;
    StartIsLocal(init, [last], k);
    if k == |init| {
      FlattenSize(init);
      ReadField(Flatten(init), last, tail);
    } else {
      FieldReadsBack(init, k, last + tail);
      assert Flatten(init) + (last + tail) == Flatten(fields) + tail;
    }
  }
}
