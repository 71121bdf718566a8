/** The byte layout of the two account types, and the service's hand-written readers of it. */
module AccountLayout {
  import opened Common
  import opened Borsh
  import Ledger

  // ---------------------------------------------------------------- JobEscrow

  datatype EscrowAccount = EscrowAccount(
    client: Bytes32,
    freelancer: Bytes32,
    authority: Bytes32,
    jobHash: Bytes32,
    amount: nat,
    platformFee: nat,
    status: Ledger.Status,
    bump: byte,
    vaultBump: byte,
    feeVaultBump: byte)

  /** The same as the service reads it: keys and hash as bytes, the status as a number. */
  datatype EscrowView = EscrowView(
    client: Bytes,
    freelancer: Bytes,
    authority: Bytes,
    jobHash: Bytes,
    amount: nat,
    platformFee: nat,
    status: nat,
    bump: nat,
    vaultBump: nat,
    feeVaultBump: nat)

  /** A Borsh enum without fields is the number of its variant. */
  function EncodeStatus(s: Ledger.Status): byte {
    match s
    case Funded => 0
    case Locked => 1
    case Released => 2
    case Refunded => 3
  }

  /** The service's status map; a number it does not know is shown as funded. */
  function StatusShown(raw: nat): Ledger.Status {
    if raw == 1 then Ledger.Locked
    else if raw == 2 then Ledger.Released
    else if raw == 3 then Ledger.Refunded
    else Ledger.Funded
  }

  function EscrowViewOf(e: EscrowAccount): EscrowView {
    EscrowView(e.client, e.freelancer, e.authority, e.jobHash, e.amount, e.platformFee,
               EncodeStatus(e.status), e.bump, e.vaultBump, e.feeVaultBump)
  }

  const ESCROW_DISCRIMINATOR: Bytes := [189, 224, 160, 70, 105, 78, 115, 151]

  const ESCROW_LEN: nat := 8 + 32 + 32 + 32 + 32 + 8 + 8 + 1 + 1 + 1 + 1

  predicate EscrowFits(e: EscrowAccount) {
    e.amount <= U64_MAX && e.platformFee <= U64_MAX
  }

  function EscrowFields(e: EscrowAccount): seq<Bytes> {
    [ESCROW_DISCRIMINATOR, e.client, e.freelancer, e.authority, e.jobHash,
     LittleEndian(e.amount, 8), LittleEndian(e.platformFee, 8),
     [EncodeStatus(e.status)], [e.bump], [e.vaultBump], [e.feeVaultBump]]
  }

  function EncodeEscrow(e: EscrowAccount): Bytes {
    Flatten(EscrowFields(e))
  }

  /** The fields at their places: what a reader of the layout should see, or None when the account is
      too short to hold them all. */
  function EscrowAt(data: Bytes): Option<EscrowView> {
    if |data| < ESCROW_LEN then None
    else
      Some(EscrowView(
             data[8..40], data[40..72], data[72..104], data[104..136],
             FromLittleEndian(data[136..144]), FromLittleEndian(data[144..152]),
             data[152], data[153], data[154], data[155]))
  }

  /** The service's reader, field after field at a moving offset. */
  method DeserializeEscrow(data: Bytes) returns (r: Result<EscrowView, ReadError>)
    ensures match EscrowAt(data)
            case Some(e) => r == Ok(e)
            case None => r == Err(OutOfRange)
  {
    var o := 8;
    var client := Slice(data, o, 32); o := o + 32;
    var freelancer := Slice(data, o, 32); o := o + 32;
    var authority := Slice(data, o, 32); o := o + 32;
    var jobHash := Slice(data, o, 32); o := o + 32;
    var amount := ReadUnsigned(data, o, 8); o := o + 8;
    if amount.Err? { return Err(OutOfRange); }
    var platformFee := ReadUnsigned(data, o, 8); o := o + 8;
    if platformFee.Err? { return Err(OutOfRange); }
    if o >= |data| { return Err(OutOfRange); }
    var status := data[o]; o := o + 1;
    if o >= |data| { return Err(OutOfRange); }
    var bump := data[o]; o := o + 1;
    if o >= |data| { return Err(OutOfRange); }
    var vaultBump := data[o]; o := o + 1;
    if o >= |data| { return Err(OutOfRange); }
    var feeVaultBump := data[o]; o := o + 1;
    return Ok(EscrowView(client, freelancer, authority, jobHash, amount.value, platformFee.value,
                         status, bump, vaultBump, feeVaultBump));
  }

  lemma EscrowStarts(e: EscrowAccount)
    ensures var f := EscrowFields(e);
      && Start(f, 1) == 8 && Start(f, 2) == 40 && Start(f, 3) == 72 && Start(f, 4) == 104 && Start(f, 5) == 136
      && Start(f, 6) == 144 && Start(f, 7) == 152 && Start(f, 8) == 153 && Start(f, 9) == 154 && Start(f, 10) == 155
      && Start(f, 11) == 156
  {
    var f := EscrowFields(e);
    assert Start(f, 1) == 8 && Start(f, 2) == 40 && Start(f, 3) == 72 && Start(f, 4) == 104;
    assert Start(f, 5) == 136 && Start(f, 6) == 144 && Start(f, 7) == 152;
  }

  /** Field k of a stored escrow stands between its start and the next one's. */
  lemma EscrowField(e: EscrowAccount, k: nat, tail: Bytes)
    requires k < 11
    ensures var f := EscrowFields(e);
      && Start(f, k) <= Start(f, k + 1) <= |EncodeEscrow(e)|
      && (EncodeEscrow(e) + tail)[Start(f, k)..Start(f, k + 1)] == f[k]
  {
    var f := EscrowFields(e);
    assert |f| == 11;
    FieldReadsBack(f, k, tail);
    StartWithin(f, k);
  }

  /** Every escrow fills its account exactly, and is read back from it whatever follows; the status the
      mirror writes is the stored one, and the numbers the service's guards compare with mean Funded
      and Locked. */
  lemma EscrowRoundTrip(e: EscrowAccount, tail: Bytes)
    requires EscrowFits(e)
    ensures |EncodeEscrow(e)| == ESCROW_LEN
    ensures (EncodeEscrow(e) + tail)[..8] == ESCROW_DISCRIMINATOR
    ensures EscrowAt(EncodeEscrow(e) + tail) == Some(EscrowViewOf(e))
    ensures var view := EscrowViewOf(e);
      && StatusShown(view.status) == e.status
      && (view.status == 0 <==> e.status == Ledger.Funded)
      && (view.status == 1 <==> e.status == Ledger.Locked)
      && (view.status == 2 <==> e.status == Ledger.Released)
      && (view.status == 3 <==> e.status == Ledger.Refunded)
      && view.client == e.client && view.freelancer == e.freelancer && view.authority == e.authority
      && view.jobHash == e.jobHash && view.amount == e.amount && view.platformFee == e.platformFee
      && view.bump == e.bump && view.vaultBump == e.vaultBump && view.feeVaultBump == e.feeVaultBump
    ensures forall raw: nat | raw > 3 :: StatusShown(raw) == Ledger.Funded
  {
    EscrowStarts(e);
    var data := EncodeEscrow(e) + tail;
    assert |EncodeEscrow(e)| == ESCROW_LEN by {
      FlattenSize(EscrowFields(e));
    }
    EscrowField(e, 0, tail);
    EscrowField(e, 1, tail);
    EscrowField(e, 2, tail);
    EscrowField(e, 3, tail);
    EscrowField(e, 4, tail);
    EscrowField(e, 5, tail);
    EscrowField(e, 6, tail);
    forall k: nat | 7 <= k < 11 ensures data[145 + k] == EscrowFields(e)[k][0] {
      EscrowField(e, k, tail);
      assert data[Start(EscrowFields(e), k)..Start(EscrowFields(e), k + 1)][0] == data[145 + k];
    }
    hide EncodeEscrow, Start;
    Widths();
    IntegerRoundTrip(e.amount, 8);
    IntegerRoundTrip(e.platformFee, 8);
  }

  // ---------------------------------------------------------------- JobContract

  datatype ContractState = Active | Completed | Terminated

  datatype ContractAccount = ContractAccount(
    client: Bytes32,
    freelancer: Bytes32,
    authority: Bytes32,
    jobHash: Bytes32,
    metadataUri: Bytes,
    pdfHash: Bytes32,
    createdAt: i64,
    state: ContractState,
    completionUri: Bytes,
    completionPdfHash: Bytes32,
    completedAt: i64,
    bump: byte)

  const CONTRACT_DISCRIMINATOR: Bytes := [147, 204, 137, 108, 97, 90, 113, 28]

  const MAX_URI_LEN: nat := 200
  const MAX_COMPLETION_URI_LEN: nat := 200

  const CONTRACT_LEN: nat :=
    8 + 32 + 32 + 32 + 32 + (4 + MAX_URI_LEN) + 32 + 8 + 1 + (4 + MAX_COMPLETION_URI_LEN) + 32 + 8 + 1

  predicate ContractFits(c: ContractAccount) {
    |c.metadataUri| < U32_SIZE && |c.completionUri| < U32_SIZE
  }

  function EncodeState(s: ContractState): Bytes {
    match s
    case Active => [0]
    case Completed => [1]
    case Terminated => [2]
  }

  function ContractFields(c: ContractAccount): seq<Bytes> {
    [CONTRACT_DISCRIMINATOR, c.client, c.freelancer, c.authority, c.jobHash,
     LittleEndian(|c.metadataUri|, 4), c.metadataUri, c.pdfHash, EncodeI64(c.createdAt), EncodeState(c.state),
     LittleEndian(|c.completionUri|, 4), c.completionUri, c.completionPdfHash, EncodeI64(c.completedAt), [c.bump]]
  }

  function EncodeContract(c: ContractAccount): Bytes {
    Flatten(ContractFields(c))
  }

  lemma ContractStarts(c: ContractAccount)
    ensures var f := ContractFields(c);
      var m := |c.metadataUri|;
      var n := |c.completionUri|;
      && Start(f, 1) == 8 && Start(f, 2) == 40 && Start(f, 3) == 72 && Start(f, 4) == 104 && Start(f, 5) == 136
      && Start(f, 6) == 140 && Start(f, 7) == 140 + m && Start(f, 8) == 172 + m && Start(f, 9) == 180 + m
      && Start(f, 10) == 181 + m && Start(f, 11) == 185 + m && Start(f, 12) == 185 + m + n
      && Start(f, 13) == 217 + m + n && Start(f, 14) == 225 + m + n && Start(f, 15) == 226 + m + n
  {
    var f := ContractFields(c);
    assert Start(f, 1) == 8 && Start(f, 2) == 40 && Start(f, 3) == 72 && Start(f, 4) == 104;
    assert Start(f, 5) == 136 && Start(f, 6) == 140;
    assert Start(f, 7) == 140 + |f[6]| && Start(f, 8) == 172 + |f[6]|;
    assert Start(f, 9) == 180 + |f[6]| && Start(f, 10) == 181 + |f[6]| && Start(f, 11) == 185 + |f[6]|;
  }

  /** A contract's size depends on its two URIs only; with both within their bounds it fits its account. */
  lemma ContractSize(c: ContractAccount)
    ensures |EncodeContract(c)| ==
      CONTRACT_LEN - MAX_URI_LEN - MAX_COMPLETION_URI_LEN + |c.metadataUri| + |c.completionUri|
    ensures |c.metadataUri| <= MAX_URI_LEN && |c.completionUri| <= MAX_COMPLETION_URI_LEN ==>
      |EncodeContract(c)| <= CONTRACT_LEN
  {
    ContractStarts(c);
    FlattenSize(ContractFields(c));
  }

  // JavaScript's Number(bigint): the nearest double, ties to even.

  /** Doubles of magnitude `m` lie this far apart (1 where they lie closer than integers). */
  function Spacing(m: nat): (u: nat)
    ensures u >= 1
  {
    if m < 0x20_0000_0000_0000 then 1 else 2 * Spacing(m / 2)
  }

  function RoundTo(m: nat, u: nat): nat
    requires u >= 1
  {
    var rest := m % u;
    var down := m - rest;
    if 2 * rest < u || (2 * rest == u && m / u % 2 == 0) then down else down + u
  }

  function ToNumber(x: int): int {
    if x < 0 then 0 - RoundTo(-x, Spacing(-x)) else RoundTo(x, Spacing(x))
  }

  function Pow2(e: nat): nat {
    if e == 0 then 1 else 2 * Pow2(e - 1)
  }

  predicate Scaled(m: nat, q: nat, e: nat) {
    q < 0x20_0000_0000_0000 && m == q * Pow2(e)
  }

  /** The whole numbers a double can hold: at most 53 significant bits. */
  ghost predicate IsDouble(m: nat) {
    exists q: nat, e: nat :: Scaled(m, q, e)
  }

  lemma HalvedTwice(m: nat, u: nat)
    requires u >= 1
    ensures m / (2 * u) == m / 2 / u
  {
    var d, rest := m / 2 / u, m / 2 % u;
    assert m / 2 == u * d + rest;
    assert 2 * (u * d) == (2 * u) * d;
    QuotientIs(m, 2 * u, d, 2 * rest + m % 2);
  }

  lemma TwiceOnGrid(half: nat, u: nat)
    requires u >= 1 && half % u == 0
    ensures 2 * half % (2 * u) == 0
  {
    var d := half / u;
    assert half == u * d;
    assert 2 * (u * d) == (2 * u) * d;
    QuotientIs(2 * half, 2 * u, d, 0);
  }

  /** The spacing is a power of two, and a number has at most 53 bits above it. */
  lemma {:induction false} SpacingIsPower(m: nat) returns (e: nat)
    ensures Spacing(m) == Pow2(e) && m / Spacing(m) < 0x20_0000_0000_0000
    ensures Spacing(m) > 1 ==> m / Spacing(m) >= 0x10_0000_0000_0000
  {
    if m < 0x20_0000_0000_0000 {
      e := 0;
    } else {
      var half := SpacingIsPower(m / 2);
      HalvedTwice(m, Spacing(m / 2));
      e := half + 1;
    }
  }

  /** Doubling a number on the grid leaves it there. */
  lemma DoubledOnGrid(half: nat)
    requires half % Spacing(half) == 0
    ensures 2 * half % Spacing(2 * half) == 0
  {
    if 2 * half >= 0x20_0000_0000_0000 {
      assert Spacing(2 * half) == 2 * Spacing(half);
      hide Spacing;
      TwiceOnGrid(half, Spacing(half));
    }
  }

  lemma DoubledProduct(q: nat, p: nat)
    ensures q * (2 * p) == 2 * (q * p)
  {
  }

  /** Every double lies on the grid. */
  lemma {:induction false} DoublesOnGrid(q: nat, e: nat)
    requires q < 0x20_0000_0000_0000
    ensures q * Pow2(e) % Spacing(q * Pow2(e)) == 0
  {
    if e > 0 {
      DoublesOnGrid(q, e - 1);
      hide Spacing;
      DoubledProduct(q, Pow2(e - 1));
      DoubledOnGrid(q * Pow2(e - 1));
    }
  }

  lemma RoundedExactIff(m: nat, u: nat)
    requires u >= 1
    ensures RoundTo(m, u) == m <==> m % u == 0
  {
  }

  lemma GridIsDoubles(m: nat)
    ensures m % Spacing(m) == 0 <==> IsDouble(m)
  {
    hide Spacing, Pow2;
    if m % Spacing(m) == 0 {
      var e := SpacingIsPower(m);
      assert m == m / Spacing(m) * Spacing(m);
      assert Scaled(m, m / Spacing(m), e);
    }
    if IsDouble(m) {
      var q, e :| Scaled(m, q, e);
      DoublesOnGrid(q, e);
    }
  }

  /** A timestamp survives exactly when it has at most 53 significant bits, as all up to 2^53 have. */
  lemma NumberIsExactIff(x: int)
    ensures var m := if x < 0 then -x else x;
      && (ToNumber(x) == x <==> IsDouble(m))
      && (m <= 0x20_0000_0000_0000 ==> ToNumber(x) == x)
  {
    var m := if x < 0 then -x else x;
    hide RoundTo, IsDouble;
    RoundedExactIff(m, Spacing(m));
    GridIsDoubles(m);
    if m == 0x20_0000_0000_0000 {
      assert Spacing(m) == 2 * Spacing(m / 2) == 2;
    }
  }

  function Distance(a: nat, b: nat): nat {
    if a < b then b - a else a - b
  }

  /** RoundTo picks the nearest multiple and, of two equally near, the even one. */
  lemma RoundedToNearest(m: nat, u: nat) returns (q: nat)
    requires u >= 1
    ensures RoundTo(m, u) == u * q && m / u <= q <= m / u + 1
    ensures 2 * Distance(u * q, m) <= u && (2 * Distance(u * q, m) == u ==> q % 2 == 0)
  {
    var d, rest := m / u, m % u;
    assert m == u * d + rest;
    assert u * (d + 1) == u * d + u;
    q := if RoundTo(m, u) == u * d then d else d + 1;
  }

  lemma NearestMultiple(m: nat, u: nat, q: nat, k: nat)
    requires u >= 1 && 2 * Distance(u * q, m) <= u
    ensures Distance(u * q, m) <= Distance(u * k, m)
  {
    if q < k {
      assert u * k == u * q + u * (k - q);
      AtLeastOnce(u, k - q);
    } else if k < q {
      assert u * q == u * k + u * (q - k);
      AtLeastOnce(u, q - k);
    }
  }

  lemma HalvedDouble(d: nat, q: nat, e: nat)
    requires Scaled(d, q, e) && d >= 0x20_0000_0000_0000
    ensures d == 2 * (d / 2) && IsDouble(d / 2)
  {
    if e > 0 {
      DoubledProduct(q, Pow2(e - 1));
      assert Scaled(d / 2, q, e - 1);
    }
  }

  /** Doubles no smaller than this number's power of two lie on its grid. */
  lemma {:induction false} LargeDoublesOnGrid(m: nat, d: nat)
    requires IsDouble(d) && d >= 0x10_0000_0000_0000 * Spacing(m)
    ensures d % Spacing(m) == 0
  {
    if m >= 0x20_0000_0000_0000 {
      assert Spacing(m) == 2 * Spacing(m / 2);
      var q: nat, e: nat :| Scaled(d, q, e);
      HalvedDouble(d, q, e);
      hide Spacing, Pow2;
      LargeDoublesOnGrid(m / 2, d / 2);
      TwiceOnGrid(d / 2, Spacing(m / 2));
    }
  }

  lemma NearestTo(m: nat, d: nat)
    requires IsDouble(d)
    ensures Distance(RoundTo(m, Spacing(m)), m) <= Distance(d, m)
  {
    var u := Spacing(m);
    var e := SpacingIsPower(m);
    var q := RoundedToNearest(m, u);
    hide Spacing, IsDouble, RoundTo, Distance, Pow2;
    if d >= 0x10_0000_0000_0000 * u {
      LargeDoublesOnGrid(m, d);
      NearerThanMultiple(m, u, q, d);
    } else if u == 1 {
      NearerThanMultiple(m, 1, q, d);
    } else {
      NearerThanBelow(m, u, q, 0x10_0000_0000_0000, d);
    }
  }

  lemma NearerThanMultiple(m: nat, u: nat, q: nat, d: nat)
    requires u >= 1 && 2 * Distance(u * q, m) <= u && d % u == 0
    ensures Distance(u * q, m) <= Distance(d, m)
  {
    assert d == u * (d / u);
    NearestMultiple(m, u, q, d / u);
  }

  lemma NearerThanBelow(m: nat, u: nat, q: nat, k: nat, d: nat)
    requires u >= 1 && 2 * Distance(u * q, m) <= u && k <= m / u && d < k * u
    ensures Distance(u * q, m) <= Distance(d, m)
  {
    NearestMultiple(m, u, q, k);
    MultipleBelow(m, u, k);
  }

  lemma MultipleBelow(m: nat, u: nat, k: nat)
    requires u >= 1 && k <= m / u
    ensures u * k <= m
  {
    var more := m / u - k;
    assert m == u * (k + more) + m % u;
    assert u * (k + more) == u * k + u * more;
  }

  lemma RoundedIsDouble(m: nat)
    ensures IsDouble(RoundTo(m, Spacing(m)))
  {
    var u := Spacing(m);
    var e := SpacingIsPower(m);
    var q := RoundedToNearest(m, u);
    hide Spacing, RoundTo;
    if q < 0x20_0000_0000_0000 {
      assert Scaled(u * q, q, e);
    } else {
      assert q == 2 * 0x10_0000_0000_0000;
      assert Scaled(u * q, 0x10_0000_0000_0000, e + 1);
    }
  }

  /** What is shown is a double, and no double is nearer to the timestamp. */
  lemma NumberIsNearest(x: int, d: nat)
    requires IsDouble(d)
    ensures var m := if x < 0 then -x else x;
      var shown := if x < 0 then -ToNumber(x) else ToNumber(x);
      shown >= 0 && IsDouble(shown) && Distance(shown, m) <= Distance(d, m)
  {
    var m := if x < 0 then -x else x;
    hide RoundTo, Spacing, IsDouble;
    RoundedIsDouble(m);
    NearestTo(m, d);
  }

  /** The first timestamp that is shown wrong. */
  lemma FirstInexact()
    ensures ToNumber(0x20_0000_0000_0001) == 0x20_0000_0000_0000
  {
    assert Spacing(0x20_0000_0000_0001) == 2 * Spacing(0x10_0000_0000_0000);
  }

  datatype ContractView = ContractView(
    client: Bytes,
    freelancer: Bytes,
    authority: Bytes,
    metadataUri: Bytes,
    pdfHash: Bytes,
    createdAt: int,
    state: ContractState,
    completionUri: Bytes,
    completionPdfHash: Bytes,
    completedAt: int)

  /** An unknown state byte is shown as active. */
  function StateShown(raw: nat): ContractState {
    if raw == 1 then Completed else if raw == 2 then Terminated else Active
  }

  lemma FieldInPlace(c: ContractAccount, k: nat, start: nat, field: Bytes, tail: Bytes)
    requires k < |ContractFields(c)| && start == Start(ContractFields(c), k) && field == ContractFields(c)[k]
    ensures Slice(EncodeContract(c) + tail, start, |field|) == field
  {
    hide Start, Flatten, Slice, ContractFields;
    FieldReadsBack(ContractFields(c), k, tail);
  }

  /** The fields the service skips are in their places too. */
  lemma ContractSkips(c: ContractAccount, tail: Bytes)
    ensures var data := EncodeContract(c) + tail;
      && Slice(data, 0, 8) == CONTRACT_DISCRIMINATOR && Slice(data, 104, 32) == c.jobHash
      && Slice(data, 225 + |c.metadataUri| + |c.completionUri|, 1) == [c.bump]
  {
    hide Slice, EncodeContract, LittleEndian, EncodeI64, EncodeState;
    ContractStarts(c);
    hide Start;
    StartsAtZero(ContractFields(c));
    FieldInPlace(c, 0, 0, CONTRACT_DISCRIMINATOR, tail);
    FieldInPlace(c, 4, 104, c.jobHash, tail);
    FieldInPlace(c, 14, 225 + |c.metadataUri| + |c.completionUri|, [c.bump], tail);
  }

  lemma StartsAtZero(fields: seq<Bytes>)
    ensures Start(fields, 0) == 0
  {
  }

  /** Every read the service makes, on a stored contract. */
  lemma ContractReads(c: ContractAccount, tail: Bytes)
    requires ContractFits(c)
    ensures var data := EncodeContract(c) + tail;
      var m := |c.metadataUri|;
      var n := |c.completionUri|;
      && Slice(data, 8, 32) == c.client && Slice(data, 40, 32) == c.freelancer && Slice(data, 72, 32) == c.authority
      && ReadUnsigned(data, 136, 4) == Ok(m) && Slice(data, 140, m) == c.metadataUri
      && Slice(data, 140 + m, 32) == c.pdfHash
      && ReadUnsigned(data, 172 + m, 8) == Ok(FromLittleEndian(EncodeI64(c.createdAt)))
      && ReadUnsigned(data, 180 + m, 1) == Ok(FromLittleEndian(EncodeState(c.state)))
      && ReadUnsigned(data, 181 + m, 4) == Ok(n) && Slice(data, 185 + m, n) == c.completionUri
      && Slice(data, 185 + m + n, 32) == c.completionPdfHash
      && ReadUnsigned(data, 217 + m + n, 8) == Ok(FromLittleEndian(EncodeI64(c.completedAt)))
      && ToSigned(FromLittleEndian(EncodeI64(c.createdAt))) == c.createdAt
      && ToSigned(FromLittleEndian(EncodeI64(c.completedAt))) == c.completedAt
      && StateShown(FromLittleEndian(EncodeState(c.state))) == c.state
      && FromLittleEndian(EncodeState(c.state))
         == (if c.state == Active then 0 else if c.state == Completed then 1 else 2)
  {
    var f := ContractFields(c);
    ContractStarts(c);
    Widths();
    IntegerRoundTrip(|c.metadataUri|, 4);
    IntegerRoundTrip(|c.completionUri|, 4);
    SignedRoundTrip(c.createdAt);
    SignedRoundTrip(c.completedAt);
    forall k: nat | 1 <= k < 14
      ensures Slice(EncodeContract(c) + tail, Start(f, k), |f[k]|) == f[k]
      ensures ReadUnsigned(EncodeContract(c) + tail, Start(f, k), |f[k]|) == Ok(FromLittleEndian(f[k]))
    {
      FieldReadsBack(f, k, tail);
    }
    assert Start(f, 5) == 136 && |f[5]| == 4 && Start(f, 6) == 140 && f[6] == c.metadataUri;
  }

  lemma ByteRead(data: Bytes, offset: nat)
    requires offset < |data|
    ensures ReadUnsigned(data, offset, 1) == Ok(data[offset])
  {
    assert data[offset..offset + 1] == [data[offset]];
    assert FromLittleEndian([data[offset]]) == data[offset] + 256 * FromLittleEndian([]);
  }

  /** The lengths it declares leave the account too short for the fixed fields behind them.  (Keys, URIs
      and hashes are cut short rather than refused, but a timestamp always follows.) */
  predicate TooShort(data: Bytes) {
    || |data| < 140
    || var m := FromLittleEndian(data[136..140]);
       || |data| < 185 + m
       || var n := FromLittleEndian(data[181 + m..185 + m]);
          |data| < 225 + m + n
  }

  /** The service's reader.  For every contract, whatever its URIs and whatever follows it in the account,
      it returns what was stored; it throws exactly for an account too short for what it declares. */
  method GetOnChainContract(data: Bytes) returns (r: Result<ContractView, ReadError>)
    ensures forall c: ContractAccount, tail: Bytes ::
      ContractFits(c) && data == EncodeContract(c) + tail ==>
        && r.Ok?
        && r.value.client == c.client && r.value.freelancer == c.freelancer && r.value.authority == c.authority
        && r.value.metadataUri == c.metadataUri && r.value.pdfHash == c.pdfHash
        && r.value.createdAt == ToNumber(c.createdAt) && r.value.state == c.state
        && r.value.completionUri == c.completionUri && r.value.completionPdfHash == c.completionPdfHash
        && r.value.completedAt == ToNumber(c.completedAt)
    ensures r.Err? <==> TooShort(data)
    // A number that is no state of the program's is shown as active.
    ensures r.Ok? ==>
      var raw := data[180 + FromLittleEndian(data[136..140])];
      r.value.state == if raw == 1 then Completed else if raw == 2 then Terminated else Active
  {
    hide EncodeContract, Slice, FromLittleEndian, EncodeI64, ToSigned, ToNumber;
    var o := 8;
    var client := Slice(data, o, 32); o := o + 32;
    var freelancer := Slice(data, o, 32); o := o + 32;
    var authority := Slice(data, o, 32); o := o + 32;
    o := o + 32; // the job id hash is not shown

    var metadataUriLen := ReadUnsigned(data, o, 4); o := o + 4;
    if metadataUriLen.Ok? {
      var metadataUri := Slice(data, o, metadataUriLen.value); o := o + metadataUriLen.value;
      var pdfHash := Slice(data, o, 32); o := o + 32;
      var createdAt := ReadUnsigned(data, o, 8); o := o + 8;
      var stateRaw := ReadUnsigned(data, o, 1); o := o + 1;
      var completionUriLen := ReadUnsigned(data, o, 4); o := o + 4;
      if createdAt.Ok? && stateRaw.Ok? && completionUriLen.Ok? {
        var completionUri := if completionUriLen.value > 0 then Slice(data, o, completionUriLen.value) else [];
        o := o + completionUriLen.value;
        var completionPdfHash := Slice(data, o, 32); o := o + 32;
        var completedAt := ReadUnsigned(data, o, 8); o := o + 8;
        if completedAt.Ok? {
          r := Ok(ContractView(
                    client, freelancer, authority, metadataUri, pdfHash, ToNumber(ToSigned(createdAt.value)),
                    StateShown(stateRaw.value), completionUri, completionPdfHash,
                    ToNumber(ToSigned(completedAt.value))));
        } else {
          r := Err(OutOfRange);
        }
      } else {
        r := Err(OutOfRange);
      }
    } else {
      r := Err(OutOfRange);
    }
    if r.Ok? {
      ByteRead(data, 180 + FromLittleEndian(data[136..140]));
    }
    forall c: ContractAccount, tail: Bytes | ContractFits(c) && data == EncodeContract(c) + tail
      ensures
        && r.Ok?
        && r.value.client == c.client && r.value.freelancer == c.freelancer && r.value.authority == c.authority
        && r.value.metadataUri == c.metadataUri && r.value.pdfHash == c.pdfHash
        && r.value.createdAt == ToNumber(c.createdAt) && r.value.state == c.state
        && r.value.completionUri == c.completionUri && r.value.completionPdfHash == c.completionPdfHash
        && r.value.completedAt == ToNumber(c.completedAt)
    {
      ContractReads(c, tail);
    }
  }
}
