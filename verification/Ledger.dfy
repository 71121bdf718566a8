/** The lamport-moving instructions of the on-chain escrow program.

    An instruction is described twice.  `Exec` is its specification on values: which lamports it
    moves, which escrow record it leaves, or the error it stops with.  The class `EscrowProgram`
    carries it out the way the handlers do, writing fields and moving lamports one after the other,
    with the runtime undoing everything when a handler returns an error.

    Addresses: `Key` is any public key that is not an account of this program, `VaultOf(job)` the
    vault of one job, `FeeVault` the one shared platform fee vault.  Signers are always keys,
    because nobody holds a private key for a program-derived address. */
module Ledger {
  import opened Common

  type JobId = seq<byte>

  datatype Address = Key(id: nat) | VaultOf(job: JobId) | FeeVault

  const DEFAULT_KEY: Address := Key(0)

  datatype Status = Funded | Locked | Released | Refunded

  datatype JobEscrow = JobEscrow(
    client: Address,
    freelancer: Address,
    authority: Address,
    job: JobId,
    amount: nat,
    platformFee: nat,
    status: Status)

  datatype Error =
    | NotFunded | NotLocked | AlreadyFinalised | Unauthorized | InvalidAmount | InvalidJobId
    | Overflow | FeeTooSmall | MetadataUriTooLong
    | AccountInUse | AccountMissing | AccountsRefused | InsufficientFunds | LamportOverflow

  type Balances = map<Address, nat>

  datatype Chain = Chain(balances: Balances, escrows: map<JobId, JobEscrow>)

  /** `SystemTransfer` is any lamport transfer made without this program: it lets the theorems speak
      about lamports sent to a vault from outside. */
  datatype Step =
    | Initialize(client: nat, authority: Address, job: JobId, amount: nat)
    | TopUp(client: nat, job: JobId, amount: nat)
    | Withdraw(client: nat, job: JobId)
    | Lock(authorityKey: nat, job: JobId, freelancer: Address)
    | Release(caller: nat, freelancer: Address, job: JobId)
    | Refund(authorityKey: nat, clientAccount: Address, job: JobId)
    | WithdrawFees(authorityKey: nat, amount: nat)
    | SystemTransfer(source: nat, target: Address, amount: nat)

  function JobOf(s: Step): Option<JobId> {
    match s
    case WithdrawFees(_, _) => None
    case SystemTransfer(_, _, _) => None
    case _ => Some(s.job)
  }

  // ---------------------------------------------------------------- fees

  const FEE_BPS: nat := 250
  const BPS_DENOMINATOR: nat := 10_000

  /** checked_mul, then checked_div by a non-zero constant. */
  function FeeOf(amount: nat): Result<nat, Error> {
    if amount * FEE_BPS > U64_MAX then Err(Overflow) else Ok(amount * FEE_BPS / BPS_DENOMINATOR)
  }

  function CheckedAdd(a: nat, b: nat): Result<nat, Error> {
    if a + b > U64_MAX then Err(Overflow) else Ok(a + b)
  }

  // ---------------------------------------------------------------- lamports

  function Balance(b: Balances, a: Address): nat {
    if a in b then b[a] else 0
  }

  /** The system program's transfer: debit first, then credit. */
  function Transfer(b: Balances, source: Address, target: Address, lamports: nat): Result<Balances, Error> {
    if Balance(b, source) < lamports then Err(InsufficientFunds)
    else
      var debited := b[source := Balance(b, source) - lamports];
      if Balance(debited, target) + lamports > U64_MAX then Err(LamportOverflow)
      else Ok(debited[target := Balance(debited, target) + lamports])
  }

  datatype Kind = Deposit | Fee | Payout | Return | FeeWithdrawal | Outside

  /** One lamport movement and what it was for. */
  datatype Move = Move(kind: Kind, job: Option<JobId>, source: Address, target: Address, lamports: nat)

  function PayAll(b: Balances, moves: seq<Move>): Result<Balances, Error>
    decreases |moves|
  {
    if moves == [] then Ok(b)
    else
      match Transfer(b, moves[0].source, moves[0].target, moves[0].lamports)
      case Err(e) => Err(e)
      case Ok(paid) => PayAll(paid, moves[1..])
  }

  // ---------------------------------------------------------------- instructions

  /** What an instruction does once its checks have passed: lamports to move, then the escrow table
      (or an error found only after the transfers, as in top_up). */
  datatype Effect = Effect(moves: seq<Move>, escrows: Result<map<JobId, JobEscrow>, Error>)

  function HandleInitialize(c: Chain, client: nat, authority: Address, job: JobId, amount: nat): Result<Effect, Error> {
    if job in c.escrows then Err(AccountInUse)
    else if amount == 0 then Err(InvalidAmount)
    else if |job| != 36 then Err(InvalidJobId)
    else
      match FeeOf(amount)
      case Err(e) => Err(e)
      case Ok(fee) =>
        if fee == 0 then Err(FeeTooSmall)
        else
          match CheckedAdd(amount, fee)
          case Err(e) => Err(e)
          case Ok(total) =>
            Ok(Effect(
                 [Move(Deposit, Some(job), Key(client), VaultOf(job), total)],
                 Ok(c.escrows[job := JobEscrow(Key(client), DEFAULT_KEY, authority, job, amount, fee, Funded)])))
  }

  function HandleTopUp(c: Chain, client: nat, job: JobId, amount: nat): Result<Effect, Error> {
    if job !in c.escrows then Err(AccountMissing)
    else
      var e := c.escrows[job];
      if e.client != Key(client) then Err(Unauthorized)
      else if amount == 0 then Err(InvalidAmount)
      else if e.status != Funded && e.status != Locked then Err(NotFunded)
      else
        match FeeOf(amount)
        case Err(err) => Err(err)
        case Ok(fee) =>
          if fee == 0 then Err(FeeTooSmall)
          else if CheckedAdd(amount, fee).Err? then Err(Overflow)
          else if e.status == Funded then
            Ok(Effect(
                 [Move(Deposit, Some(job), Key(client), VaultOf(job), amount + fee)],
                 if e.amount + amount > U64_MAX || e.platformFee + fee > U64_MAX then Err(Overflow)
                 else Ok(c.escrows[job := e.(amount := e.amount + amount, platformFee := e.platformFee + fee)])))
          else
            Ok(Effect(
                 [Move(Deposit, Some(job), Key(client), VaultOf(job), amount),
                  Move(Fee, Some(job), Key(client), FeeVault, fee)],
                 if e.amount + amount > U64_MAX then Err(Overflow)
                 else Ok(c.escrows[job := e.(amount := e.amount + amount)])))
  }

  function HandleWithdraw(c: Chain, client: nat, job: JobId): Result<Effect, Error> {
    if job !in c.escrows then Err(AccountMissing)
    else
      var e := c.escrows[job];
      if e.client != Key(client) then Err(Unauthorized)
      else if e.status != Funded then Err(NotFunded)
      else
        match CheckedAdd(e.amount, e.platformFee)
        case Err(err) => Err(err)
        case Ok(total) =>
          Ok(Effect(
               [Move(Return, Some(job), VaultOf(job), Key(client), total)],
               Ok(c.escrows[job := e.(status := Refunded, amount := 0, platformFee := 0)])))
  }

  function HandleLock(c: Chain, authorityKey: nat, job: JobId, freelancer: Address): Result<Effect, Error> {
    if job !in c.escrows then Err(AccountMissing)
    else
      var e := c.escrows[job];
      if e.authority != Key(authorityKey) then Err(Unauthorized)
      else if e.status != Funded then Err(NotFunded)
      else
        Ok(Effect(
             if e.platformFee > 0 then [Move(Fee, Some(job), VaultOf(job), FeeVault, e.platformFee)] else [],
             Ok(c.escrows[job := e.(freelancer := freelancer, status := Locked, platformFee := 0)])))
  }

  function HandleRelease(c: Chain, caller: nat, freelancer: Address, job: JobId): Result<Effect, Error> {
    if job !in c.escrows then Err(AccountMissing)
    else
      var e := c.escrows[job];
      if Key(caller) != e.client && Key(caller) != e.authority then Err(Unauthorized)
      else if e.status != Locked then Err(NotLocked)
      else if freelancer != e.freelancer then Err(Unauthorized)
      else
        match FeeOf(e.amount)
        case Err(err) => Err(err)
        case Ok(fee) =>
          if fee > e.amount then Err(Overflow)
          else
            var payout := Move(Payout, Some(job), VaultOf(job), freelancer, e.amount - fee);
            Ok(Effect(
                 if fee > 0 then [Move(Fee, Some(job), VaultOf(job), FeeVault, fee), payout] else [payout],
                 Ok(c.escrows[job := e.(status := Released, amount := 0)])))
  }

  function HandleRefund(c: Chain, authorityKey: nat, clientAccount: Address, job: JobId): Result<Effect, Error> {
    if job !in c.escrows then Err(AccountMissing)
    else
      var e := c.escrows[job];
      if e.authority != Key(authorityKey) then Err(Unauthorized)
      else if e.status != Funded && e.status != Locked then Err(AlreadyFinalised)
      else if clientAccount != e.client then Err(Unauthorized)
      else
        match (if e.status == Funded then CheckedAdd(e.amount, e.platformFee) else Ok(e.amount))
        case Err(err) => Err(err)
        case Ok(total) =>
          Ok(Effect(
               [Move(Return, Some(job), VaultOf(job), clientAccount, total)],
               Ok(c.escrows[job := e.(status := Refunded, amount := 0, platformFee := 0)])))
  }

  function Handle(c: Chain, s: Step): Result<Effect, Error> {
    match s
    case Initialize(client, authority, job, amount) => HandleInitialize(c, client, authority, job, amount)
    case TopUp(client, job, amount) => HandleTopUp(c, client, job, amount)
    case Withdraw(client, job) => HandleWithdraw(c, client, job)
    case Lock(key, job, freelancer) => HandleLock(c, key, job, freelancer)
    case Release(caller, freelancer, job) => HandleRelease(c, caller, freelancer, job)
    case Refund(key, clientAccount, job) => HandleRefund(c, key, clientAccount, job)
    case WithdrawFees(key, amount) =>
      if amount == 0 then Err(InvalidAmount)
      else Ok(Effect([Move(FeeWithdrawal, None, FeeVault, Key(key), amount)], Ok(c.escrows)))
    case SystemTransfer(source, target, amount) =>
      Ok(Effect([Move(Outside, None, Key(source), target, amount)], Ok(c.escrows)))
  }

  /** The whole instruction: checks, transfers, record.  An error leaves no new chain at all. */
  function Exec(c: Chain, s: Step): Result<Chain, Error> {
    match Handle(c, s)
    case Err(e) => Err(e)
    case Ok(effect) =>
      match PayAll(c.balances, effect.moves)
      case Err(e) => Err(e)
      case Ok(balances) =>
        match effect.escrows
        case Err(e) => Err(e)
        case Ok(escrows) => Ok(Chain(balances, escrows))
  }

  function MovesOf(c: Chain, s: Step): seq<Move> {
    match Handle(c, s)
    case Err(_) => []
    case Ok(effect) => effect.moves
  }

  // ---------------------------------------------------------------- runs

  /** An accepted instruction together with the lamports it moved. */
  datatype Entry = Entry(step: Step, moves: seq<Move>)

  /** A chain with the journal of everything accepted so far. */
  datatype Trail = Trail(chain: Chain, journal: seq<Entry>)

  /** A rejected instruction leaves no trace. */
  function Advance(t: Trail, s: Step): Trail {
    match Exec(t.chain, s)
    case Err(_) => t
    case Ok(chain) => Trail(chain, t.journal + [Entry(s, MovesOf(t.chain, s))])
  }

  /** Any number of instructions, for any jobs, in any order. */
  function Run(t: Trail, steps: seq<Step>): Trail {
    if steps == [] then t else Advance(Run(t, steps[..|steps| - 1]), steps[|steps| - 1])
  }

  /** A chain before the program's first instruction: any balances, no escrow.
      The whole supply of lamports fits in a u64. */
  ghost predicate Genesis(t: Trail) {
    t.journal == [] && t.chain.escrows == map[] && Total(t.chain.balances) <= U64_MAX
  }
}
