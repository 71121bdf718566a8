/** The life of one job's escrow, read off the journal of a whole run. */
module JobBooks {
  import opened Common
  import opened Ledger
  import opened Journal

  /** Everything the journal says about one job. */
  datatype Book = Book(
    deposits: seq<nat>,
    charged: nat,
    fees: nat,
    paidOut: nat,
    returned: nat,
    initializes: nat,
    locks: nat,
    closings: nat)

  const EMPTY_BOOK: Book := Book([], 0, 0, 0, 0, 0, 0, 0)

  function BookOf(journal: seq<Entry>, job: JobId): Book {
    Book(
      Deposits(journal, job),
      Tally(journal, ChargedFor(job)),
      Tally(journal, OfJob(job, Fee)),
      Tally(journal, OfJob(job, Payout)),
      Tally(journal, OfJob(job, Return)),
      Count(journal, Initializes(job)),
      Count(journal, Locks(job)),
      Count(journal, Closes(job)))
  }

  /** What the record and the job's book owe each other in each status.  `A` is the sum of the
      deposits, `F` the sum of their fees, each rounded down on its own. */
  ghost predicate Kept(record: Option<JobEscrow>, b: Book) {
    var A := Sum(b.deposits);
    var F := DepositFees(b.deposits);
    match record
    case None => b == EMPTY_BOOK
    case Some(e) =>
      && b.initializes == 1
      && b.deposits != []
      && A >= 40
      && b.charged == A + F
      && e.client.Key?
      && (b.locks == 0 ==> e.freelancer == DEFAULT_KEY)
      && match e.status
         case Funded =>
           && e.amount == A && e.platformFee == F
           && b.fees == b.paidOut == b.returned == 0
           && b.locks == b.closings == 0
         case Locked =>
           && e.amount == A && e.platformFee == 0
           && b.fees == F && b.paidOut == b.returned == 0
           && b.locks == 1 && b.closings == 0
         case Released =>
           && e.amount == e.platformFee == 0
           && b.fees == F + A / 40 && b.paidOut == A - A / 40 && b.returned == 0
           && b.locks == b.closings == 1
         case Refunded =>
           && e.amount == e.platformFee == 0
           && b.paidOut == 0
           && b.locks <= 1 && b.closings == 1
           && b.returned == (if b.locks == 0 then A + F else A)
           && b.fees == (if b.locks == 0 then 0 else F)
  }

  function RecordOf(escrows: map<JobId, JobEscrow>, job: JobId): Option<JobEscrow> {
    if job in escrows then Some(escrows[job]) else None
  }

  ghost predicate BookKept(t: Trail, job: JobId) {
    Kept(RecordOf(t.chain.escrows, job), BookOf(t.journal, job))
  }

  // ---------------------------------------------------------------- one instruction

  function Posted(b: Book, entry: Entry, job: JobId): Book {
    Book(
      b.deposits + (
        match entry.step
        case Initialize(_, _, j, amount) => if j == job then [amount] else []
        case TopUp(_, j, amount) => if j == job then [amount] else []
        case _ => []),
      b.charged + SumBy(entry.moves, ChargedFor(job)),
      b.fees + SumBy(entry.moves, OfJob(job, Fee)),
      b.paidOut + SumBy(entry.moves, OfJob(job, Payout)),
      b.returned + SumBy(entry.moves, OfJob(job, Return)),
      b.initializes + (if IsInitialize(entry.step, job) then 1 else 0),
      b.locks + (if IsLock(entry.step, job) then 1 else 0),
      b.closings + (if IsClosing(entry.step, job) then 1 else 0))
  }

  lemma BookAppend(journal: seq<Entry>, entry: Entry, job: JobId)
    ensures BookOf(journal + [entry], job) == Posted(BookOf(journal, job), entry, job)
  {
    DepositsAppend(journal, entry, job);
    TallyAppend(journal, entry, ChargedFor(job));
    TallyAppend(journal, entry, OfJob(job, Fee));
    TallyAppend(journal, entry, OfJob(job, Payout));
    TallyAppend(journal, entry, OfJob(job, Return));
    CountAppend(journal, entry, Initializes(job));
    CountAppend(journal, entry, Locks(job));
    CountAppend(journal, entry, Closes(job));
  }

  /** The sums of a move list that is at most two long. */
  lemma MoveSums(moves: seq<Move>, job: JobId)
    requires |moves| <= 2
    ensures forall weight | weight in {ChargedFor(job), OfJob(job, Fee), OfJob(job, Payout), OfJob(job, Return)} ::
      SumBy(moves, weight) ==
      (if |moves| > 0 then weight(moves[0]) else 0) + (if |moves| > 1 then weight(moves[1]) else 0)
  {
    SumByShort(moves, ChargedFor(job));
    SumByShort(moves, OfJob(job, Fee));
    SumByShort(moves, OfJob(job, Payout));
    SumByShort(moves, OfJob(job, Return));
  }

  lemma KeptByInitialize(c: Chain, b: Book, client: nat, authority: Address, job: JobId, amount: nat)
    requires Kept(RecordOf(c.escrows, job), b)
    requires HandleInitialize(c, client, authority, job, amount).Ok?
    ensures var effect := HandleInitialize(c, client, authority, job, amount).value;
      && effect.escrows.Ok?
      && Kept(RecordOf(effect.escrows.value, job),
              Posted(b, Entry(Initialize(client, authority, job, amount), effect.moves), job))
  {
    FeeIsFortieth(amount);
    DepositTotals([], amount);
    MoveSums(HandleInitialize(c, client, authority, job, amount).value.moves, job);
    assert b.deposits + [amount] == [] + [amount];
  }

  lemma KeptByTopUp(c: Chain, b: Book, client: nat, job: JobId, amount: nat)
    requires Kept(RecordOf(c.escrows, job), b)
    requires HandleTopUp(c, client, job, amount).Ok?
    ensures var effect := HandleTopUp(c, client, job, amount).value;
      effect.escrows.Ok? ==>
        Kept(RecordOf(effect.escrows.value, job),
             Posted(b, Entry(TopUp(client, job, amount), effect.moves), job))
  {
    FeeIsFortieth(amount);
    DepositTotals(b.deposits, amount);
    MoveSums(HandleTopUp(c, client, job, amount).value.moves, job);
  }

  lemma KeptByWithdraw(c: Chain, b: Book, s: Step, job: JobId)
    requires Kept(RecordOf(c.escrows, job), b)
    requires s.Withdraw? && s.job == job
    requires Handle(c, s).Ok?
    ensures var effect := Handle(c, s).value;
      && effect.escrows.Ok?
      && Kept(RecordOf(effect.escrows.value, job), Posted(b, Entry(s, effect.moves), job))
  {
    MoveSums(Handle(c, s).value.moves, job);
    assert b.deposits + [] == b.deposits;
  }

  lemma KeptByLock(c: Chain, b: Book, s: Step, job: JobId)
    requires Kept(RecordOf(c.escrows, job), b)
    requires s.Lock? && s.job == job
    requires Handle(c, s).Ok?
    ensures var effect := Handle(c, s).value;
      && effect.escrows.Ok?
      && Kept(RecordOf(effect.escrows.value, job), Posted(b, Entry(s, effect.moves), job))
  {
    MoveSums(Handle(c, s).value.moves, job);
    assert b.deposits + [] == b.deposits;
  }

  lemma KeptByRelease(c: Chain, b: Book, s: Step, job: JobId)
    requires Kept(RecordOf(c.escrows, job), b)
    requires s.Release? && s.job == job
    requires Handle(c, s).Ok?
    ensures var effect := Handle(c, s).value;
      && effect.escrows.Ok?
      && Kept(RecordOf(effect.escrows.value, job), Posted(b, Entry(s, effect.moves), job))
  {
    FeeIsFortieth(c.escrows[job].amount);
    MoveSums(Handle(c, s).value.moves, job);
    assert b.deposits + [] == b.deposits;
  }

  lemma KeptByRefund(c: Chain, b: Book, s: Step, job: JobId)
    requires Kept(RecordOf(c.escrows, job), b)
    requires s.Refund? && s.job == job
    requires Handle(c, s).Ok?
    ensures var effect := Handle(c, s).value;
      && effect.escrows.Ok?
      && Kept(RecordOf(effect.escrows.value, job), Posted(b, Entry(s, effect.moves), job))
  {
    MoveSums(Handle(c, s).value.moves, job);
    assert b.deposits + [] == b.deposits;
  }

  /** An instruction for another job, or for none, leaves this job's record and book alone. */
  lemma OthersUntouched(c: Chain, b: Book, s: Step, job: JobId)
    requires Handle(c, s).Ok? && JobOf(s) != Some(job)
    ensures var effect := Handle(c, s).value;
      && (effect.escrows.Ok? ==> RecordOf(effect.escrows.value, job) == RecordOf(c.escrows, job))
      && Posted(b, Entry(s, effect.moves), job) == b
  {
    MoveSums(Handle(c, s).value.moves, job);
    assert b.deposits + [] == b.deposits;
  }

  lemma HandleKeeps(c: Chain, b: Book, s: Step, job: JobId)
    requires Kept(RecordOf(c.escrows, job), b)
    requires Handle(c, s).Ok? && Handle(c, s).value.escrows.Ok?
    ensures var effect := Handle(c, s).value;
      Kept(RecordOf(effect.escrows.value, job), Posted(b, Entry(s, effect.moves), job))
  {
    if JobOf(s) != Some(job) {
      OthersUntouched(c, b, s, job);
    } else {
      match s
      case Initialize(client, authority, j, amount) => KeptByInitialize(c, b, client, authority, j, amount);
      case TopUp(client, j, amount) => KeptByTopUp(c, b, client, j, amount);
      case Withdraw(_, _) => KeptByWithdraw(c, b, s, job);
      case Lock(_, _, _) => KeptByLock(c, b, s, job);
      case Release(_, _, _) => KeptByRelease(c, b, s, job);
      case Refund(_, _, _) => KeptByRefund(c, b, s, job);
    }
  }

  lemma ExecParts(c: Chain, s: Step)
    requires Exec(c, s).Ok?
    ensures Handle(c, s).Ok?
    ensures var effect := Handle(c, s).value;
      && effect.escrows == Ok(Exec(c, s).value.escrows)
      && PayAll(c.balances, effect.moves) == Ok(Exec(c, s).value.balances)
      && MovesOf(c, s) == effect.moves
  {
  }

  lemma BookStep(t: Trail, s: Step, job: JobId)
    requires BookKept(t, job)
    ensures BookKept(Advance(t, s), job)
  {
    if Exec(t.chain, s).Ok? {
      ExecParts(t.chain, s);
      BookAppend(t.journal, Entry(s, MovesOf(t.chain, s)), job);
      HandleKeeps(t.chain, BookOf(t.journal, job), s, job);
    }
  }

  lemma {:induction false} BooksKept(start: Trail, steps: seq<Step>, job: JobId)
    requires Genesis(start)
    ensures BookKept(Run(start, steps), job)
  {
    if steps != [] {
      BooksKept(start, steps[..|steps| - 1], job);
      BookStep(Run(start, steps[..|steps| - 1]), steps[|steps| - 1], job);
    }
  }

  // ---------------------------------------------------------------- whole-life settlement

  /** After any run: a released job has paid its freelancer all deposits less one fortieth, and the
      platform one fortieth of each deposit plus one fortieth of the whole; a refunded job has given
      back everything it was charged, or just the principal when it had been locked. */
  lemma {:induction false} Settlement(start: Trail, steps: seq<Step>, job: JobId)
    requires Genesis(start)
    requires job in Run(start, steps).chain.escrows
    ensures var end := Run(start, steps);
      var b := BookOf(end.journal, job);
      var A := Sum(b.deposits);
      var F := DepositFees(b.deposits);
      && b.charged == A + F
      && (end.chain.escrows[job].status == Released ==>
            && b.paidOut == A - A / 40 && b.fees == F + A / 40 && b.returned == 0)
      && (end.chain.escrows[job].status == Refunded && b.locks == 0 ==>
            && b.returned == b.charged && b.fees == 0 && b.paidOut == 0)
      && (end.chain.escrows[job].status == Refunded && b.locks != 0 ==>
            && b.returned == A && b.fees == F && b.paidOut == 0)
      && b.charged == b.paidOut + b.fees + b.returned
                      + end.chain.escrows[job].amount + end.chain.escrows[job].platformFee
  {
    BooksKept(start, steps, job);
  }

  lemma {:induction false} FeesOfDeposits(deposits: seq<nat>)
    ensures 40 * DepositFees(deposits) <= Sum(deposits)
    ensures Sum(deposits) <= 40 * DepositFees(deposits) + 39 * |deposits|
  {
    if deposits != [] {
      FeesOfDeposits(deposits[..|deposits| - 1]);
    }
  }

  /** "5% in total": the platform's take from a released job is at most A/20 and more than
      A/20 - (n + 1) for n deposits, whichever of them came after the lock.  The second bound is the
      tight one: each of the n + 1 roundings loses at most 39/40 of a lamport. */
  lemma FivePercent(start: Trail, steps: seq<Step>, job: JobId)
    requires Genesis(start)
    requires job in Run(start, steps).chain.escrows
    requires Run(start, steps).chain.escrows[job].status == Released
    ensures var b := BookOf(Run(start, steps).journal, job);
      var A := Sum(b.deposits);
      && 20 * b.fees <= A
      && A < 20 * (b.fees + |b.deposits| + 1)
      && 2 * A <= 40 * b.fees + 39 * (|b.deposits| + 1)
  {
    BooksKept(start, steps, job);
    FeesOfDeposits(BookOf(Run(start, steps).journal, job).deposits);
  }

  // ---------------------------------------------------------------- one life per job

  /** No run initialises a job twice, locks it twice or closes it twice; a closed escrow is empty;
      the freelancer is unset until the lock. */
  lemma {:induction false} OneLife(start: Trail, steps: seq<Step>, job: JobId)
    requires Genesis(start)
    ensures var end := Run(start, steps);
      var b := BookOf(end.journal, job);
      && b.initializes == (if job in end.chain.escrows then 1 else 0)
      && b.locks <= 1 && b.closings <= 1
      && (job in end.chain.escrows ==>
            var e := end.chain.escrows[job];
            && (b.closings == 1 <==> e.status == Released || e.status == Refunded)
            && (e.status == Funded <==> b.locks == 0 && b.closings == 0)
            && (b.closings == 1 ==> e.amount == 0 && e.platformFee == 0)
            && (b.closings == 0 ==> e.amount >= 40)
            && (b.locks == 0 ==> e.freelancer == DEFAULT_KEY))
  {
    BooksKept(start, steps, job);
  }

  function Rank(s: Status): nat {
    match s
    case Funded => 0
    case Locked => 1
    case Released => 2
    case Refunded => 2
  }

  /** How one record may become another: parties fixed, the freelancer set only by the lock,
      the status only ever climbing, and a closed record final. */
  predicate Evolves(before: JobEscrow, after: JobEscrow) {
    && after.client == before.client
    && after.authority == before.authority
    && after.job == before.job
    && (before.status == after.status || Rank(before.status) < Rank(after.status))
    && (before.status != Funded || after.status == Funded ==> after.freelancer == before.freelancer)
    && (Rank(before.status) == 2 ==> after == before)
  }

  lemma StepEvolves(c: Chain, s: Step, job: JobId)
    requires Exec(c, s).Ok? && job in c.escrows
    ensures job in Exec(c, s).value.escrows
    ensures Evolves(c.escrows[job], Exec(c, s).value.escrows[job])
    ensures Exec(c, s).value.escrows[job].freelancer != c.escrows[job].freelancer ==> IsLock(s, job)
    ensures Exec(c, s).value.escrows[job].status != c.escrows[job].status ==> IsLock(s, job) || IsClosing(s, job)
  {
  }

  /** The same over any further instructions, whoever sends them. */
  lemma {:induction false} RunEvolves(t: Trail, steps: seq<Step>, job: JobId)
    requires job in t.chain.escrows
    ensures job in Run(t, steps).chain.escrows
    ensures Evolves(t.chain.escrows[job], Run(t, steps).chain.escrows[job])
  {
    if steps != [] {
      var mid := Run(t, steps[..|steps| - 1]);
      RunEvolves(t, steps[..|steps| - 1], job);
      if Exec(mid.chain, steps[|steps| - 1]).Ok? {
        StepEvolves(mid.chain, steps[|steps| - 1], job);
      }
    }
  }
}
