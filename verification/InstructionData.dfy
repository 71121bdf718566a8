/** The instruction data the service builds by hand, and what the program's Borsh decoder makes of it. */
module InstructionData {
  import opened Common
  import opened Borsh

  datatype Call =
    | InitializeEscrow(job: Bytes, amount: int)
    | TopUp(job: Bytes, amount: int)
    | Withdraw(job: Bytes)
    | Lock(job: Bytes, freelancer: Bytes32)
    | Release(job: Bytes)
    | Refund(job: Bytes)
    | WithdrawFees(amount: int)
    | CreateContract(job: Bytes, client: Bytes32, freelancer: Bytes32, metadataUri: Bytes, pdfHash: Bytes32)
    | CompleteContract(job: Bytes, completionUri: Bytes, completionPdfHash: Bytes32)

  datatype Name =
    | InitializeEscrow | TopUp | Withdraw | Lock | Release | Refund | WithdrawFees | CreateContract | CompleteContract

  function NameOf(c: Call): Name {
    match c
    case InitializeEscrow(_, _) => Name.InitializeEscrow
    case TopUp(_, _) => Name.TopUp
    case Withdraw(_) => Name.Withdraw
    case Lock(_, _) => Name.Lock
    case Release(_) => Name.Release
    case Refund(_) => Name.Refund
    case WithdrawFees(_) => Name.WithdrawFees
    case CreateContract(_, _, _, _, _) => Name.CreateContract
    case CompleteContract(_, _, _) => Name.CompleteContract
  }

  /** The first eight bytes of SHA-256("global:<name>"), the name in snake case. */
  function Discriminator(n: Name): (d: Bytes)
    ensures |d| == 8
  {
    match n
    case InitializeEscrow => [243, 160, 77, 153, 11, 92, 48, 209]
    case TopUp => [236, 225, 96, 9, 60, 106, 77, 208]
    case Withdraw => [183, 18, 70, 156, 148, 109, 161, 34]
    case Lock => [21, 19, 208, 43, 237, 62, 255, 87]
    case Release => [253, 249, 15, 206, 28, 127, 193, 241]
    case Refund => [2, 96, 183, 251, 63, 208, 46, 46]
    case WithdrawFees => [198, 212, 171, 109, 144, 215, 174, 89]
    case CreateContract => [244, 48, 244, 178, 216, 88, 122, 52]
    case CompleteContract => [129, 158, 69, 250, 180, 196, 197, 185]
  }

  // ---------------------------------------------------------------- the service's encoders

  /** Throws when the length does not fit the u32 prefix. */
  function EncodeString(s: Bytes): Result<Bytes, ReadError> {
    if |s| < U32_SIZE then Ok(LittleEndian(|s|, 4) + s) else Err(OutOfRange)
  }

  /** Throws for a negative number and for one past u64. */
  function EncodeU64(n: int): Result<Bytes, ReadError> {
    if 0 <= n <= U64_MAX then Ok(LittleEndian(n, 8)) else Err(OutOfRange)
  }

  function Concat(parts: seq<Result<Bytes, ReadError>>): Result<Bytes, ReadError> {
    if parts == [] then Ok([])
    else if parts[0].Err? then parts[0]
    else
      match Concat(parts[1..])
      case Err(e) => Err(e)
      case Ok(rest) => Ok(parts[0].value + rest)
  }

  function Arguments(c: Call): seq<Result<Bytes, ReadError>> {
    match c
    case InitializeEscrow(job, amount) => [EncodeString(job), EncodeU64(amount)]
    case TopUp(job, amount) => [EncodeString(job), EncodeU64(amount)]
    case Withdraw(job) => [EncodeString(job)]
    case Lock(job, freelancer) => [EncodeString(job), Ok(freelancer)]
    case Release(job) => [EncodeString(job)]
    case Refund(job) => [EncodeString(job)]
    case WithdrawFees(amount) => [EncodeU64(amount)]
    case CreateContract(job, client, freelancer, uri, hash) =>
      [EncodeString(job), Ok(client), Ok(freelancer), EncodeString(uri), Ok(hash)]
    case CompleteContract(job, uri, hash) => [EncodeString(job), EncodeString(uri), Ok(hash)]
  }

  function Build(c: Call): Result<Bytes, ReadError> {
    Concat([Ok(Discriminator(NameOf(c)))] + Arguments(c))
  }

  // ---------------------------------------------------------------- the program's decoder

  function TakeFixed(data: Bytes, n: nat): Option<(Bytes, Bytes)> {
    if |data| < n then None else Some((data[..n], data[n..]))
  }

  function TakeString(data: Bytes): Option<(Bytes, Bytes)> {
    if |data| < 4 then None else TakeFixed(data[4..], FromLittleEndian(data[..4]))
  }

  function TakeU64(data: Bytes): Option<(int, Bytes)> {
    if |data| < 8 then None else Some((FromLittleEndian(data[..8]), data[8..]))
  }

  function DecodeJobAmount(data: Bytes): Option<(Bytes, int)> {
    match TakeString(data)
    case None => None
    case Some((job, rest)) =>
      match TakeU64(rest)
      case None => None
      case Some((amount, _)) => Some((job, amount))
  }

  function DecodeJobKey(data: Bytes): Option<(Bytes, Bytes)> {
    match TakeString(data)
    case None => None
    case Some((job, rest)) =>
      match TakeFixed(rest, 32)
      case None => None
      case Some((key, _)) => Some((job, key))
  }

  function DecodeCreate(data: Bytes): Option<Call> {
    match TakeString(data)
    case None => None
    case Some((job, r1)) =>
      match TakeFixed(r1, 32)
      case None => None
      case Some((client, r2)) =>
        match TakeFixed(r2, 32)
        case None => None
        case Some((freelancer, r3)) =>
          match DecodeJobKey(r3)
          case None => None
          case Some((uri, hash)) => Some(Call.CreateContract(job, client, freelancer, uri, hash))
  }

  function DecodeComplete(data: Bytes): Option<Call> {
    match TakeString(data)
    case None => None
    case Some((job, r1)) =>
      match DecodeJobKey(r1)
      case None => None
      case Some((uri, hash)) => Some(Call.CompleteContract(job, uri, hash))
  }

  function DecodeArguments(n: Name, rest: Bytes): Option<Call> {
    match n
    case InitializeEscrow =>
      (match DecodeJobAmount(rest)
       case None => None
       case Some((job, amount)) => Some(Call.InitializeEscrow(job, amount)))
    case TopUp =>
      (match DecodeJobAmount(rest) case None => None case Some((job, amount)) => Some(Call.TopUp(job, amount)))
    case Withdraw => (match TakeString(rest) case None => None case Some((job, _)) => Some(Call.Withdraw(job)))
    case Lock => (match DecodeJobKey(rest) case None => None case Some((job, key)) => Some(Call.Lock(job, key)))
    case Release => (match TakeString(rest) case None => None case Some((job, _)) => Some(Call.Release(job)))
    case Refund => (match TakeString(rest) case None => None case Some((job, _)) => Some(Call.Refund(job)))
    case WithdrawFees =>
      (match TakeU64(rest) case None => None case Some((amount, _)) => Some(Call.WithdrawFees(amount)))
    case CreateContract => DecodeCreate(rest)
    case CompleteContract => DecodeComplete(rest)
  }

  function Dispatch(d: Bytes): Option<Name> {
    if d == Discriminator(Name.InitializeEscrow) then Some(Name.InitializeEscrow)
    else if d == Discriminator(Name.TopUp) then Some(Name.TopUp)
    else if d == Discriminator(Name.Withdraw) then Some(Name.Withdraw)
    else if d == Discriminator(Name.Lock) then Some(Name.Lock)
    else if d == Discriminator(Name.Release) then Some(Name.Release)
    else if d == Discriminator(Name.Refund) then Some(Name.Refund)
    else if d == Discriminator(Name.WithdrawFees) then Some(Name.WithdrawFees)
    else if d == Discriminator(Name.CreateContract) then Some(Name.CreateContract)
    else if d == Discriminator(Name.CompleteContract) then Some(Name.CompleteContract)
    else None
  }

  /** The handler named by the discriminator reads its arguments; bytes after the last are ignored. */
  function Decode(data: Bytes): Option<Call> {
    if |data| < 8 then None
    else
      match Dispatch(data[..8])
      case None => None
      case Some(n) => DecodeArguments(n, data[8..])
  }

  // ---------------------------------------------------------------- unique decodability

  /** Every value the encoders accept fits its width, and nothing else does. */
  predicate Encodable(c: Call) {
    match c
    case InitializeEscrow(job, amount) => |job| < U32_SIZE && 0 <= amount <= U64_MAX
    case TopUp(job, amount) => |job| < U32_SIZE && 0 <= amount <= U64_MAX
    case WithdrawFees(amount) => 0 <= amount <= U64_MAX
    case CreateContract(job, _, _, uri, _) => |job| < U32_SIZE && |uri| < U32_SIZE
    case CompleteContract(job, uri, _) => |job| < U32_SIZE && |uri| < U32_SIZE
    case _ => |c.job| < U32_SIZE
  }

  lemma StringTaken(s: Bytes, rest: Bytes)
    requires EncodeString(s).Ok?
    ensures TakeString(EncodeString(s).value + rest) == Some((s, rest))
  {
    Widths();
    IntegerRoundTrip(|s|, 4);
    var data := EncodeString(s).value + rest;
    assert data[..4] == LittleEndian(|s|, 4);
    assert data[4..] == s + rest;
  }

  lemma NumberTaken(n: int, rest: Bytes)
    requires EncodeU64(n).Ok?
    ensures TakeU64(EncodeU64(n).value + rest) == Some((n, rest))
  {
    Widths();
    IntegerRoundTrip(n, 8);
    var data := EncodeU64(n).value + rest;
    assert data[..8] == LittleEndian(n, 8);
  }

  lemma FixedTaken(field: Bytes, rest: Bytes)
    ensures TakeFixed(field + rest, |field|) == Some((field, rest))
  {
  }

  /** One argument, then the others, then whatever follows. */
  lemma ConcatStep(parts: seq<Result<Bytes, ReadError>>, tail: Bytes)
    requires parts != []
    ensures Concat(parts).Ok? <==> parts[0].Ok? && Concat(parts[1..]).Ok?
    ensures Concat(parts).Ok? ==> Concat(parts).value + tail == parts[0].value + (Concat(parts[1..]).value + tail)
  {
  }

  lemma ConcatOne(a: Result<Bytes, ReadError>, tail: Bytes)
    ensures Concat([a]).Ok? <==> a.Ok?
    ensures a.Ok? ==> Concat([a]).value + tail == a.value + tail
  {
    assert [a][1..] == [];
  }

  lemma ConcatTwo(a: Result<Bytes, ReadError>, b: Result<Bytes, ReadError>, tail: Bytes)
    ensures Concat([a, b]).Ok? <==> a.Ok? && b.Ok?
    ensures a.Ok? && b.Ok? ==> Concat([a, b]).value + tail == a.value + (b.value + tail)
  {
    assert [a, b][1..] == [b];
    ConcatOne(b, tail);
    ConcatStep([a, b], tail);
  }

  lemma ConcatThree(a: Result<Bytes, ReadError>, b: Result<Bytes, ReadError>, c: Result<Bytes, ReadError>, tail: Bytes)
    ensures Concat([a, b, c]).Ok? <==> a.Ok? && b.Ok? && c.Ok?
    ensures a.Ok? && b.Ok? && c.Ok? ==> Concat([a, b, c]).value + tail == a.value + (b.value + (c.value + tail))
  {
    assert [a, b, c][1..] == [b, c];
    ConcatTwo(b, c, tail);
    ConcatStep([a, b, c], tail);
  }

  lemma JobAmountTaken(job: Bytes, amount: int, tail: Bytes)
    requires |job| < U32_SIZE && 0 <= amount <= U64_MAX
    ensures DecodeJobAmount(EncodeString(job).value + (EncodeU64(amount).value + tail)) == Some((job, amount))
  {
    StringTaken(job, EncodeU64(amount).value + tail);
    NumberTaken(amount, tail);
  }

  lemma JobKeyTaken(job: Bytes, key: Bytes32, tail: Bytes)
    requires |job| < U32_SIZE
    ensures DecodeJobKey(EncodeString(job).value + (key + tail)) == Some((job, key))
  {
    StringTaken(job, key + tail);
    FixedTaken(key, tail);
  }

  lemma CreateDecoded(job: Bytes, client: Bytes32, freelancer: Bytes32, uri: Bytes, hash: Bytes32, tail: Bytes)
    requires |job| < U32_SIZE && |uri| < U32_SIZE
    ensures DecodeCreate(EncodeString(job).value + (client + (freelancer + (EncodeString(uri).value + (hash + tail)))))
      == Some(Call.CreateContract(job, client, freelancer, uri, hash))
  {
    hide TakeString, TakeFixed, DecodeJobKey, LittleEndian;
    JobKeyTaken(uri, hash, tail);
    var r3 := EncodeString(uri).value + (hash + tail);
    FixedTaken(freelancer, r3);
    FixedTaken(client, freelancer + r3);
    StringTaken(job, client + (freelancer + r3));
  }

  lemma ConcatFive(a: Result<Bytes, ReadError>, b: Bytes, c: Bytes, d: Result<Bytes, ReadError>, e: Bytes, tail: Bytes)
    ensures var all := Concat([a, Ok(b), Ok(c), d, Ok(e)]);
      && (all.Ok? <==> a.Ok? && d.Ok?)
      && (all.Ok? ==> all.value + tail == a.value + (b + (c + (d.value + (e + tail)))))
  {
    var all := [a, Ok(b), Ok(c), d, Ok(e)];
    assert all[1..] == [Ok(b), Ok(c), d, Ok(e)] && all[1..][1..] == [Ok(c), d, Ok(e)];
    ConcatThree(Ok(c), d, Ok(e), tail);
    ConcatStep(all[1..], tail);
    ConcatStep(all, tail);
  }

  lemma CreateTaken(c: Call, tail: Bytes)
    requires c.CreateContract? && Encodable(c)
    ensures Concat(Arguments(c)).Ok?
    ensures DecodeArguments(NameOf(c), Concat(Arguments(c)).value + tail) == Some(c)
  {
    hide Concat, DecodeCreate, LittleEndian;
    ConcatFive(EncodeString(c.job), c.client, c.freelancer, EncodeString(c.metadataUri), c.pdfHash, tail);
    CreateDecoded(c.job, c.client, c.freelancer, c.metadataUri, c.pdfHash, tail);
  }

  lemma CompleteDecoded(job: Bytes, uri: Bytes, hash: Bytes32, tail: Bytes)
    requires |job| < U32_SIZE && |uri| < U32_SIZE
    ensures DecodeComplete(EncodeString(job).value + (EncodeString(uri).value + (hash + tail)))
      == Some(Call.CompleteContract(job, uri, hash))
  {
    hide TakeString, DecodeJobKey, LittleEndian;
    JobKeyTaken(uri, hash, tail);
    StringTaken(job, EncodeString(uri).value + (hash + tail));
  }

  lemma CompleteTaken(c: Call, tail: Bytes)
    requires c.CompleteContract? && Encodable(c)
    ensures Concat(Arguments(c)).Ok?
    ensures DecodeArguments(NameOf(c), Concat(Arguments(c)).value + tail) == Some(c)
  {
    hide Concat, DecodeComplete, LittleEndian;
    ConcatThree(EncodeString(c.job), EncodeString(c.completionUri), Ok(c.completionPdfHash), tail);
    CompleteDecoded(c.job, c.completionUri, c.completionPdfHash, tail);
  }

  /** The calls that carry a job and an amount. */
  lemma DepositTaken(c: Call, tail: Bytes)
    requires (c.InitializeEscrow? || c.TopUp?) && Encodable(c)
    ensures Concat(Arguments(c)).Ok?
    ensures DecodeArguments(NameOf(c), Concat(Arguments(c)).value + tail) == Some(c)
  {
    ConcatTwo(EncodeString(c.job), EncodeU64(c.amount), tail);
    JobAmountTaken(c.job, c.amount, tail);
  }

  /** The calls that carry a job alone. */
  lemma JobTaken(c: Call, tail: Bytes)
    requires (c.Withdraw? || c.Release? || c.Refund?) && Encodable(c)
    ensures Concat(Arguments(c)).Ok?
    ensures DecodeArguments(NameOf(c), Concat(Arguments(c)).value + tail) == Some(c)
  {
    ConcatOne(EncodeString(c.job), tail);
    StringTaken(c.job, tail);
  }

  lemma LockTaken(c: Call, tail: Bytes)
    requires c.Lock? && Encodable(c)
    ensures Concat(Arguments(c)).Ok?
    ensures DecodeArguments(NameOf(c), Concat(Arguments(c)).value + tail) == Some(c)
  {
    ConcatTwo(EncodeString(c.job), Ok(c.freelancer), tail);
    JobKeyTaken(c.job, c.freelancer, tail);
  }

  lemma WithdrawFeesTaken(c: Call, tail: Bytes)
    requires c.WithdrawFees? && Encodable(c)
    ensures Concat(Arguments(c)).Ok?
    ensures DecodeArguments(NameOf(c), Concat(Arguments(c)).value + tail) == Some(c)
  {
    ConcatOne(EncodeU64(c.amount), tail);
    NumberTaken(c.amount, tail);
  }

  lemma ArgumentsTaken(c: Call, tail: Bytes)
    requires Encodable(c)
    ensures Concat(Arguments(c)).Ok?
    ensures DecodeArguments(NameOf(c), Concat(Arguments(c)).value + tail) == Some(c)
  {
    hide DecodeArguments, NameOf, Concat, Arguments, Encodable;
    if c.InitializeEscrow? || c.TopUp? {
      DepositTaken(c, tail);
    } else if c.Withdraw? || c.Release? || c.Refund? {
      JobTaken(c, tail);
    } else if c.Lock? {
      LockTaken(c, tail);
    } else if c.WithdrawFees? {
      WithdrawFeesTaken(c, tail);
    } else if c.CreateContract? {
      CreateTaken(c, tail);
    } else {
      CompleteTaken(c, tail);
    }
  }

  lemma DispatchFinds(n: Name)
    ensures Dispatch(Discriminator(n)) == Some(n)
  {
    assert forall m: Name :: m != n ==> Discriminator(m)[0] != Discriminator(n)[0];
  }

  /** Bytes are built exactly for the calls whose values fit, and decode to the same call, whatever
      follows them. */
  lemma InstructionRoundTrip(c: Call, tail: Bytes)
    ensures Build(c).Ok? <==> Encodable(c)
    ensures Build(c).Ok? ==> Decode(Build(c).value + tail) == Some(c)
  {
    var parts := [Ok(Discriminator(NameOf(c)))] + Arguments(c);
    assert parts[1..] == Arguments(c);
    ConcatStep(parts, tail);
    if Encodable(c) {
      ArgumentsTaken(c, tail);
      DispatchFinds(NameOf(c));
      var data := Build(c).value + tail;
      assert data[..8] == Discriminator(NameOf(c)) && data[8..] == Concat(Arguments(c)).value + tail;
    } else {
      Refused(c);
    }
  }

  lemma Refused(c: Call)
    requires !Encodable(c)
    ensures Concat(Arguments(c)).Err?
  {
    var a := Arguments(c);
    match c
    case InitializeEscrow(_, _) => ConcatTwo(a[0], a[1], []);
    case TopUp(_, _) => ConcatTwo(a[0], a[1], []);
    case Lock(_, _) => ConcatTwo(a[0], a[1], []);
    case CreateContract(_, _, _, _, _) =>
      ConcatFive(a[0], c.client, c.freelancer, a[3], c.pdfHash, []);
    case CompleteContract(_, _, _) => ConcatThree(a[0], a[1], a[2], []);
    case _ => ConcatOne(a[0], []);
  }

  /** The bytes themselves: discriminator, then each argument in the order the program declares them, a
      string with its length in front, integers low byte first. */
  lemma WireFormat(c: Call)
    requires Encodable(c)
    ensures Build(c).Ok? && Build(c).value == Discriminator(NameOf(c)) +
      match c {
        case InitializeEscrow(job, amount) => LittleEndian(|job|, 4) + job + LittleEndian(amount, 8)
        case TopUp(job, amount) => LittleEndian(|job|, 4) + job + LittleEndian(amount, 8)
        case Withdraw(job) => LittleEndian(|job|, 4) + job
        case Lock(job, freelancer) => LittleEndian(|job|, 4) + job + freelancer
        case Release(job) => LittleEndian(|job|, 4) + job
        case Refund(job) => LittleEndian(|job|, 4) + job
        case WithdrawFees(amount) => LittleEndian(amount, 8)
        case CreateContract(job, client, freelancer, uri, hash) =>
          LittleEndian(|job|, 4) + job + client + freelancer + LittleEndian(|uri|, 4) + uri + hash
        case CompleteContract(job, uri, hash) =>
          LittleEndian(|job|, 4) + job + LittleEndian(|uri|, 4) + uri + hash
      }
  {
    InstructionRoundTrip(c, []);
    var parts := [Ok(Discriminator(NameOf(c)))] + Arguments(c);
    assert parts[1..] == Arguments(c);
    ConcatStep(parts, []);
    var all := Concat(Arguments(c)).value;
    assert Build(c).value == Discriminator(NameOf(c)) + all by {
      assert Build(c).value + [] == Discriminator(NameOf(c)) + (all + []);
    }
    assert all + [] == all;
    ArgumentBytes(c);
  }

  lemma ArgumentBytes(c: Call)
    requires Encodable(c) && Concat(Arguments(c)).Ok?
    ensures Concat(Arguments(c)).value ==
      match c {
        case InitializeEscrow(job, amount) => LittleEndian(|job|, 4) + job + LittleEndian(amount, 8)
        case TopUp(job, amount) => LittleEndian(|job|, 4) + job + LittleEndian(amount, 8)
        case Lock(job, freelancer) => LittleEndian(|job|, 4) + job + freelancer
        case WithdrawFees(amount) => LittleEndian(amount, 8)
        case CreateContract(job, client, freelancer, uri, hash) =>
          LittleEndian(|job|, 4) + job + client + freelancer + LittleEndian(|uri|, 4) + uri + hash
        case CompleteContract(job, uri, hash) =>
          LittleEndian(|job|, 4) + job + LittleEndian(|uri|, 4) + uri + hash
        case _ => LittleEndian(|c.job|, 4) + c.job
      }
  {
    var a := Arguments(c);
    var all := Concat(a).value;
    assert all + [] == all;
    hide LittleEndian, Concat;
    match c
    case InitializeEscrow(_, _) => ConcatTwo(a[0], a[1], []);
    case TopUp(_, _) => ConcatTwo(a[0], a[1], []);
    case Lock(_, _) => ConcatTwo(a[0], a[1], []);
    case CreateContract(_, _, _, _, _) => ConcatFive(a[0], c.client, c.freelancer, a[3], c.pdfHash, []);
    case CompleteContract(_, _, _) => ConcatThree(a[0], a[1], a[2], []);
    case _ => ConcatOne(a[0], []);
  }

  /** Different calls never collide: no built instruction is even a prefix of another. */
  lemma NoCollision(c: Call, d: Call)
    requires Build(c).Ok? && Build(d).Ok?
    requires Build(c).value <= Build(d).value
    ensures c == d
  {
    var tail := Build(d).value[|Build(c).value|..];
    assert Build(c).value + tail == Build(d).value + [];
    InstructionRoundTrip(c, tail);
    InstructionRoundTrip(d, []);
  }
}
