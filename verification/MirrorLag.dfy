/** The escrow service with its operations cut into their parts: guard read, broadcast, row write.

    Any number of operations are in flight; between any two parts anything else may happen, client-
    signed transactions included, and an operation may die at any point.  Guards may be stale by the
    time an instruction lands, and rows may be written late and out of order. */
module MirrorLag {
  import opened Common
  import opened Ledger
  import opened Journal
  import opened JobBooks
  import opened Solvency
  import opened EscrowService
  import opened Transactions
  import Outcomes

  datatype Table = Jobs | Milestones

  datatype RowId = RowId(table: Table, id: JobId)

  datatype Operation = Funding | ToppingUp | Withdrawing | Releasing | Locking | Refunding

  /** An operation in flight.  `Read` is a confirmation that has looked at the chain. */
  datatype Task =
    | Guarded(op: Operation, row: RowId)
    | Landed(op: Operation, row: RowId)
    | Read(row: RowId, seen: Option<Status>)
    | Over

  /** A row's status; None is a milestone never funded. */
  type Rows = map<RowId, Option<Status>>

  datatype System = System(chain: Chain, rows: Rows, tasks: seq<Task>)

  datatype Event =
    | OnChain(step: Step)
    | CreateMilestone(id: JobId)
    | Begin(op: Operation, row: RowId, readable: bool)
    | Land(task: nat, step: Step)
    | BeginConfirm(row: RowId, readable: bool)
    | Write(task: nat)
    | Abandon(task: nat)

  // ---------------------------------------------------------------- the service's steps

  function StatusIn(c: Chain, id: JobId): Option<Status> {
    StatusOf(RecordOf(c.escrows, id))
  }

  /** The guards: flat jobs ask the chain, and the row when the chain cannot be read (a lock or a
      refund then gives up); milestones ask the row. */
  predicate Passes(sys: System, op: Operation, row: RowId, readable: bool) {
    var shown := if row in sys.rows then sys.rows[row] else None;
    var onChain := StatusIn(sys.chain, row.id);
    match row.table
    case Jobs =>
      var status := if readable && onChain.Some? then onChain else shown;
      (match op
       case Funding => shown == None || shown == Some(Refunded)
       case ToppingUp => status.Some? && Live(status.value)
       case Withdrawing => status == Some(Funded)
       case Releasing => status == Some(Locked)
       case Locking => readable && onChain == Some(Funded)
       case Refunding => readable && onChain.Some? && Live(onChain.value))
    case Milestones =>
      && row in sys.rows
      && match op
         case Funding => shown == None
         case ToppingUp => shown == Some(Funded)
         case Withdrawing => shown == Some(Funded)
         case Releasing => shown == Some(Locked)
         case Locking => shown == Some(Funded)
         case Refunding => shown.Some? && Live(shown.value)
  }

  predicate Carries(s: Step, op: Operation, id: JobId) {
    && JobOf(s) == Some(id)
    && match op
       case Funding => s.Initialize?
       case ToppingUp => s.TopUp?
       case Withdrawing => s.Withdraw?
       case Releasing => s.Release?
       case Locking => s.Lock?
       case Refunding => s.Refund?
  }

  /** The transaction an operation builds for its instruction. */
  function TransactionFor(table: Table, s: Step): Option<Transaction> {
    match s
    case Initialize(client, authority, id, amount) => Some(FundTransaction(client, authority, id, amount))
    case TopUp(client, id, amount) =>
      Some(if table == Jobs then TopUpTransaction(client, id, amount)
           else MilestoneTopUpTransaction(client, id, amount))
    case Withdraw(client, id) => Some(WithdrawTransaction(client, id))
    case Lock(key, id, freelancer) => Some(LockTransaction(key, id, freelancer))
    case Release(caller, freelancer, id) => Some(ReleaseTransaction(caller, freelancer, id))
    case Refund(key, clientAccount, id) => Some(RefundTransaction(key, clientAccount, id))
    case WithdrawFees(key, amount) => Some(CollectFeesTransaction(key, amount))
    case SystemTransfer(_, _, _) => None
  }

  /** Whether the program, given that transaction, runs that instruction. */
  predicate Loads(table: Table, s: Step) {
    var tx := TransactionFor(table, s);
    tx.Some? && Load(tx.value) == Some(s)
  }

  /** Of all the service's operations, exactly a milestone's top-up never loads. */
  lemma LoadsIff(table: Table, s: Step)
    ensures Loads(table, s) <==> !s.SystemTransfer? && !(s.TopUp? && table == Milestones)
  {
  }

  /** The status an operation writes once its instruction has landed; a top-up writes none. */
  function Target(op: Operation): Option<Status> {
    match op
    case Funding => Some(Funded)
    case ToppingUp => None
    case Withdrawing => Some(Refunded)
    case Releasing => Some(Released)
    case Locking => Some(Locked)
    case Refunding => Some(Refunded)
  }

  /** A confirmation that saw nothing writes FUNDED. */
  function ToWrite(t: Task): Option<Status> {
    match t
    case Landed(op, _) => Target(op)
    case Read(_, seen) => if seen.Some? then seen else Some(Funded)
    case _ => None
  }

  /** Upserts create a row; updates touch only a row that exists. */
  predicate Upserts(t: Task)
    requires t.Landed? || t.Read?
  {
    t.row.table == Jobs && (t.Read? || t.op == Funding || t.op == Locking || t.op == Refunding)
  }

  function Written(rows: Rows, t: Task): Rows
    requires t.Landed? || t.Read?
  {
    if ToWrite(t).Some? && (t.row in rows || Upserts(t)) then rows[t.row := ToWrite(t)] else rows
  }

  function Next(sys: System, e: Event): System {
    match e
    case OnChain(s) =>
      if Exec(sys.chain, s).Ok? then sys.(chain := Exec(sys.chain, s).value) else sys
    case CreateMilestone(id) =>
      if RowId(Milestones, id) in sys.rows then sys else sys.(rows := sys.rows[RowId(Milestones, id) := None])
    case Begin(op, row, readable) =>
      if Passes(sys, op, row, readable) then sys.(tasks := sys.tasks + [Guarded(op, row)]) else sys
    case Land(i, s) =>
      if i < |sys.tasks| && sys.tasks[i].Guarded? && Carries(s, sys.tasks[i].op, sys.tasks[i].row.id) then
        if Loads(sys.tasks[i].row.table, s) && Exec(sys.chain, s).Ok? then
          System(Exec(sys.chain, s).value, sys.rows, sys.tasks[i := Landed(sys.tasks[i].op, sys.tasks[i].row)])
        else sys.(tasks := sys.tasks[i := Over])
      else sys
    case BeginConfirm(row, readable) =>
      sys.(tasks := sys.tasks + [Read(row, if readable then StatusIn(sys.chain, row.id) else None)])
    case Write(i) =>
      if i < |sys.tasks| && (sys.tasks[i].Landed? || sys.tasks[i].Read?) then
        System(sys.chain, Written(sys.rows, sys.tasks[i]), sys.tasks[i := Over])
      else sys
    case Abandon(i) =>
      if i < |sys.tasks| then sys.(tasks := sys.tasks[i := Over]) else sys
  }

  function RunFrom(sys: System, events: seq<Event>): System {
    if events == [] then sys else Next(RunFrom(sys, events[..|events| - 1]), events[|events| - 1])
  }

  // ---------------------------------------------------------------- never ahead

  /** The chain can get from the shown status to its own; a pending row claims nothing. */
  predicate Reaches(shown: Option<Status>, onChain: Option<Status>) {
    shown.Some? ==> onChain.Some? && (shown == onChain || Rank(shown.value) < Rank(onChain.value))
  }

  ghost predicate NeverAhead(sys: System) {
    forall row | row in sys.rows :: Reaches(sys.rows[row], StatusIn(sys.chain, row.id))
  }

  /** What was seen to be true: an accepted instruction's outcome, or a status read off the chain. */
  predicate Known(t: Task) {
    t.Landed? || (t.Read? && t.seen.Some?)
  }

  /** Also what is about to be written, guesses apart. */
  ghost predicate Invariant(sys: System) {
    && NeverAhead(sys)
    && forall i | 0 <= i < |sys.tasks| && Known(sys.tasks[i]) ::
         Reaches(ToWrite(sys.tasks[i]), StatusIn(sys.chain, sys.tasks[i].row.id))
  }

  /** This event writes a confirmation that saw nothing into a row. */
  predicate Guesses(sys: System, e: Event) {
    && e.Write? && e.task < |sys.tasks|
    && sys.tasks[e.task].Read? && sys.tasks[e.task].seen == None
    && (sys.tasks[e.task].row.table == Jobs || sys.tasks[e.task].row in sys.rows)
  }

  /** When a guess is written, the escrow exists by then. */
  predicate Truthful(sys: System, e: Event) {
    Guesses(sys, e) ==> sys.tasks[e.task].row.id in sys.chain.escrows
  }

  lemma ChainMovesOn(c: Chain, s: Step, id: JobId, shown: Option<Status>)
    requires Exec(c, s).Ok? && Reaches(shown, StatusIn(c, id))
    ensures Reaches(shown, StatusIn(Exec(c, s).value, id))
  {
    if id in c.escrows {
      StepEvolves(c, s, id);
    }
  }

  lemma AllMoveOn(sys: System, s: Step)
    requires Invariant(sys) && Exec(sys.chain, s).Ok?
    ensures Invariant(sys.(chain := Exec(sys.chain, s).value))
  {
    forall row | row in sys.rows ensures Reaches(sys.rows[row], StatusIn(Exec(sys.chain, s).value, row.id)) {
      ChainMovesOn(sys.chain, s, row.id, sys.rows[row]);
    }
    forall i | 0 <= i < |sys.tasks| && Known(sys.tasks[i])
      ensures Reaches(ToWrite(sys.tasks[i]), StatusIn(Exec(sys.chain, s).value, sys.tasks[i].row.id))
    {
      ChainMovesOn(sys.chain, s, sys.tasks[i].row.id, ToWrite(sys.tasks[i]));
    }
  }

  /** Once its instruction has been accepted, what an operation will write is true of the chain. */
  lemma LandedIsTrue(c: Chain, s: Step, op: Operation, id: JobId)
    requires Exec(c, s).Ok? && Carries(s, op, id)
    ensures Reaches(Target(op), StatusIn(Exec(c, s).value, id))
  {
    OneRecord(c, s, id);
    match op
    case Locking =>
    case _ =>
  }

  /** A row write keeps the rows behind the chain if and only if it is not a false guess. */
  lemma WriteStaysBehindIff(sys: System, i: nat)
    requires Invariant(sys)
    ensures Truthful(sys, Write(i)) ==> Invariant(Next(sys, Write(i)))
    ensures !Truthful(sys, Write(i)) ==> !NeverAhead(Next(sys, Write(i)))
  {
    if !Truthful(sys, Write(i)) {
      var row := sys.tasks[i].row;
      assert row in Next(sys, Write(i)).rows && Next(sys, Write(i)).rows[row] == Some(Funded);
    }
  }

  /** One event, whatever it is, keeps the rows behind the chain if and only if it is truthful. */
  lemma StepStaysBehindIff(sys: System, e: Event)
    requires Invariant(sys)
    ensures Truthful(sys, e) ==> Invariant(Next(sys, e))
    ensures !Truthful(sys, e) ==> !NeverAhead(Next(sys, e))
  {
    hide Exec, Loads;
    match e
    case OnChain(s) =>
      if Exec(sys.chain, s).Ok? { AllMoveOn(sys, s); }
    case Land(i, s) =>
      if i < |sys.tasks| && sys.tasks[i].Guarded? && Carries(s, sys.tasks[i].op, sys.tasks[i].row.id)
        && Exec(sys.chain, s).Ok? {
        AllMoveOn(sys, s);
        LandedIsTrue(sys.chain, s, sys.tasks[i].op, sys.tasks[i].row.id);
      }
    case Write(i) => WriteStaysBehindIff(sys, i);
    case _ =>
  }

  ghost predicate BehindThroughout(sys: System, events: seq<Event>) {
    forall k | 0 <= k <= |events| :: NeverAhead(RunFrom(sys, events[..k]))
  }

  ghost predicate TruthfulThroughout(sys: System, events: seq<Event>) {
    forall k | 0 <= k < |events| :: Truthful(RunFrom(sys, events[..k]), events[k])
  }

  /** What a run does before its last event, it does without that event. */
  lemma Shorter(sys: System, events: seq<Event>)
    requires events != []
    ensures var before, last := events[..|events| - 1], events[|events| - 1];
      && (BehindThroughout(sys, events) <==> BehindThroughout(sys, before) && NeverAhead(RunFrom(sys, events)))
      && (TruthfulThroughout(sys, events) <==> TruthfulThroughout(sys, before) && Truthful(RunFrom(sys, before), last))
  {
    hide NeverAhead, Truthful, RunFrom;
    var before := events[..|events| - 1];
    assert forall k | 0 <= k <= |before| :: before[..k] == events[..k];
    assert events[..|events|] == events;
  }

  /** The database is never ahead of the chain, at any moment of a run, if and only if every guess it
      writes is of an escrow that exists by then.  For every interleaving of guards, broadcasts, row
      writes, confirmations, failures and transactions from outside, however long and however stale. */
  lemma {:induction false} AlwaysBehindIff(sys: System, events: seq<Event>)
    requires Invariant(sys)
    ensures BehindThroughout(sys, events) <==> TruthfulThroughout(sys, events)
    ensures TruthfulThroughout(sys, events) ==> Invariant(RunFrom(sys, events))
  {
    if events == [] {
      assert forall k | 0 <= k <= |events| :: events[..k] == [];
    } else {
      var before := events[..|events| - 1];
      AlwaysBehindIff(sys, before);
      Shorter(sys, events);
      if TruthfulThroughout(sys, before) {
        StepStaysBehindIff(RunFrom(sys, before), events[|events| - 1]);
      }
    }
  }

  // ---------------------------------------------------------------- when confirmations are honest

  /** Confirmations are asked for escrows that exist.  Whether the read then succeeds does not matter. */
  predicate Honest(sys: System, e: Event) {
    e.BeginConfirm? ==> e.row.id in sys.chain.escrows
  }

  ghost predicate HonestRun(sys: System, events: seq<Event>) {
    forall k | 0 <= k < |events| :: Honest(RunFrom(sys, events[..k]), events[k])
  }

  /** Every confirmation in flight is of an escrow that exists. */
  ghost predicate Grounded(sys: System) {
    forall i | 0 <= i < |sys.tasks| && sys.tasks[i].Read? :: sys.tasks[i].row.id in sys.chain.escrows
  }

  lemma StepStaysGrounded(sys: System, e: Event)
    requires Grounded(sys) && Honest(sys, e)
    ensures Grounded(Next(sys, e)) && Truthful(sys, e)
  {
    hide Exec, Loads;
    var c' := Next(sys, e).chain;
    forall id | id in sys.chain.escrows ensures id in c'.escrows {
      match e
      case OnChain(s) => if Exec(sys.chain, s).Ok? { StepEvolves(sys.chain, s, id); }
      case Land(_, s) => if Exec(sys.chain, s).Ok? { StepEvolves(sys.chain, s, id); }
      case _ =>
    }
  }

  lemma {:induction false} HonestIsTruthful(sys: System, events: seq<Event>)
    requires Grounded(sys) && HonestRun(sys, events)
    ensures TruthfulThroughout(sys, events) && Grounded(RunFrom(sys, events))
  {
    if events != [] {
      var before := events[..|events| - 1];
      assert forall k | 0 <= k <= |before| :: before[..k] == events[..k];
      HonestIsTruthful(sys, before);
      StepStaysGrounded(RunFrom(sys, before), events[|events| - 1]);
      Shorter(sys, events);
    }
  }

  /** In every interleaving whose confirmations are of existing escrows, the on-chain status is
      reachable from every row's: the database is never ahead of the chain, however far it lags. */
  lemma {:induction false} AlwaysBehind(sys: System, events: seq<Event>)
    requires Invariant(sys) && Grounded(sys) && HonestRun(sys, events)
    ensures Invariant(RunFrom(sys, events))
    ensures BehindThroughout(sys, events)
  {
    HonestIsTruthful(sys, events);
    AlwaysBehindIff(sys, events);
  }

  // ---------------------------------------------------------------- what an operation comes to

  /** Whether an instruction sent by an operation takes effect. */
  predicate GoesThrough(sys: System, row: RowId, s: Step) {
    Exec(sys.chain, s).Ok? && !(s.TopUp? && row.table == Milestones)
  }

  /** The rows after a status has been written: a missing job row is created where the service upserts. */
  function RowsWith(rows: Rows, row: RowId, status: Option<Status>, creates: bool): Rows {
    if row in rows || (creates && row.table == Jobs) then rows[row := status] else rows
  }

  lemma TargetIsExact(c: Chain, s: Step, op: Operation, id: JobId)
    requires Exec(c, s).Ok? && Carries(s, op, id)
    ensures Target(op).None? <==> s.TopUp?
    ensures !s.TopUp? ==> Target(op) == StatusIn(Exec(c, s).value, id)
  {
    OneRecord(c, s, id);
    hide Exec;
  }

  /** Landing and writing close the lag: however stale the guard was, the row ends with the chain's own
      status.  A top-up leaves the rows alone, and so does an instruction that is refused. */
  lemma LandingClosesLag(sys: System, i: nat, s: Step)
    requires i < |sys.tasks| && sys.tasks[i].Guarded? && Carries(s, sys.tasks[i].op, sys.tasks[i].row.id)
    ensures var row := sys.tasks[i].row;
      var done := Next(Next(sys, Land(i, s)), Write(i));
      && done.tasks == sys.tasks[i := Over]
      && if GoesThrough(sys, row, s) then
           && done.chain == Exec(sys.chain, s).value
           && done.rows == (if s.TopUp? then sys.rows
                            else RowsWith(sys.rows, row, StatusIn(done.chain, row.id),
                                          s.Initialize? || s.Lock? || s.Refund?))
         else done.chain == sys.chain && done.rows == sys.rows
  {
    hide Exec, Loads, Target, StatusIn;
    LoadsIff(sys.tasks[i].row.table, s);
    if Exec(sys.chain, s).Ok? {
      TargetIsExact(sys.chain, s, sys.tasks[i].op, sys.tasks[i].row.id);
    }
  }

  /** An operation from beginning to end, undisturbed. */
  lemma OperationClosesLag(sys: System, op: Operation, row: RowId, readable: bool, s: Step)
    requires Carries(s, op, row.id)
    ensures var i := |sys.tasks|;
      var begun := Next(sys, Begin(op, row, readable));
      var done := Next(Next(begun, Land(i, s)), Write(i));
      if !Passes(sys, op, row, readable) then begun == sys
      else
        && begun == sys.(tasks := sys.tasks + [Guarded(op, row)])
        && done.tasks == sys.tasks + [Over]
        && done.chain == (if GoesThrough(sys, row, s) then Exec(sys.chain, s).value else sys.chain)
        && done.rows == (if !GoesThrough(sys, row, s) || s.TopUp? then sys.rows
                         else RowsWith(sys.rows, row, StatusIn(done.chain, row.id),
                                       s.Initialize? || s.Lock? || s.Refund?))
  {
    if Passes(sys, op, row, readable) {
      LandingClosesLag(sys.(tasks := sys.tasks + [Guarded(op, row)]), |sys.tasks|, s);
    }
  }

  /** A confirmation, undisturbed, copies what it can see, and shows FUNDED otherwise. */
  lemma ConfirmationCopies(sys: System, row: RowId, readable: bool)
    ensures var i := |sys.tasks|;
      var done := Next(Next(sys, BeginConfirm(row, readable)), Write(i));
      && done.chain == sys.chain && done.tasks == sys.tasks + [Over]
      && done.rows
         == RowsWith(sys.rows, row,
                     if readable && row.id in sys.chain.escrows then Some(sys.chain.escrows[row.id].status)
                     else Some(Funded),
                     true)
  {
  }

  /** An abandoned operation does nothing more, and a milestone is created once, claiming nothing. */
  lemma AbandonedForGood(sys: System, i: nat, s: Step, id: JobId)
    requires i < |sys.tasks|
    ensures var after := Next(sys, Abandon(i));
      && after == sys.(tasks := sys.tasks[i := Over])
      && Next(after, Land(i, s)) == after && Next(after, Write(i)) == after
    ensures var row := RowId(Milestones, id);
      Next(sys, CreateMilestone(id)).rows == if row in sys.rows then sys.rows else sys.rows[row := None]
  {
  }

  // ---------------------------------------------------------------- guards

  /** The guard looks at what the chain now says: on the chain itself, or in a row that agrees with it. */
  predicate SeesTheChain(sys: System, op: Operation, row: RowId, readable: bool) {
    || (row in sys.rows && sys.rows[row] == StatusIn(sys.chain, row.id))
    || (row.table == Jobs && op != Funding && readable && row.id in sys.chain.escrows)
    || (row.table == Jobs && op == Funding && row !in sys.rows && row.id !in sys.chain.escrows)
  }

  /** The errors that say an escrow is in the wrong status, or not there at all. */
  predicate WrongStatus(r: Result<Chain, Error>) {
    r.Err? && r.error in {Error.NotFunded, NotLocked, AlreadyFinalised, AccountInUse, AccountMissing}
  }

  /** A guard that sees the chain as it is refuses nothing that the chain would have accepted, and passes
      nothing that the chain refuses for its status, but for a second deposit of a REFUNDED job. */
  lemma GuardIsExact(sys: System, op: Operation, row: RowId, readable: bool, s: Step)
    requires Sound(sys.chain) && Carries(s, op, row.id) && SeesTheChain(sys, op, row, readable)
    ensures GoesThrough(sys, row, s) && (row.table == Jobs && (op == Locking || op == Refunding) ==> readable) ==>
      Passes(sys, op, row, readable)
    ensures Passes(sys, op, row, readable) && WrongStatus(Exec(sys.chain, s)) ==>
      row.table == Jobs && op == Funding && row in sys.rows && sys.rows[row] == Some(Refunded)
    ensures Passes(sys, op, row, readable) ==>
      && (row.table == Jobs && (op == Locking || op == Refunding) ==> readable)
      && (row.table == Milestones && op == ToppingUp ==> StatusIn(sys.chain, row.id) == Some(Funded))
  {
    hide Exec, Sound;
    match s
    case Initialize(client, authority, job, amount) =>
      Outcomes.InitializeRefused(sys.chain, client, authority, job, amount);
    case TopUp(client, job, amount) => Outcomes.TopUpRefused(sys.chain, client, job, amount);
    case Withdraw(client, job) => Outcomes.WithdrawRefused(sys.chain, client, job);
    case Lock(key, job, freelancer) => Outcomes.LockRefused(sys.chain, key, job, freelancer);
    case Release(caller, freelancer, job) => Outcomes.ReleaseRefused(sys.chain, caller, freelancer, job);
    case Refund(key, clientAccount, job) => Outcomes.RefundRefused(sys.chain, key, clientAccount, job);
  }

  predicate Shows(sys: System, row: RowId, allowed: set<Status>) {
    row in sys.rows && sys.rows[row].Some? && sys.rows[row].value in allowed
  }

  /** When the chain cannot be read, a job's guard goes by its row, and a lock or refund gives up. */
  lemma GuardWithoutTheChain(sys: System, op: Operation, row: RowId)
    requires row.table == Jobs
    ensures Passes(sys, op, row, false) <==>
      match op {
        case Funding => !Shows(sys, row, {Funded, Locked, Released})
        case ToppingUp => Shows(sys, row, {Funded, Locked})
        case Withdrawing => Shows(sys, row, {Funded})
        case Releasing => Shows(sys, row, {Locked})
        case _ => false
      }
  {
    var shown := if row in sys.rows then sys.rows[row] else None;
    assert forall allowed :: Shows(sys, row, allowed) <==> shown.Some? && shown.value in allowed;
    if shown.Some? {
      match shown.value
      case Refunded => assert Some(Refunded) == shown;
      case _ =>
    }
  }

  // ---------------------------------------------------------------- two short runs

  /** A job nobody has paid for yet, and a client who could. */
  function Unpaid(): System {
    System(Chain(map[Key(1) := 200], map[]), map[], [])
  }

  lemma RunsOn(sys: System, events: seq<Event>, e: Event)
    ensures RunFrom(sys, events + [e]) == Next(RunFrom(sys, events), e)
  {
    assert (events + [e])[..|events|] == events;
  }

  /** Confirming before the deposit, and writing before it too, puts the row ahead of the chain. */
  lemma ConfirmedTooEarly(job: JobId)
    ensures !NeverAhead(RunFrom(Unpaid(), [BeginConfirm(RowId(Jobs, job), true), Write(0)]))
  {
    var begin := BeginConfirm(RowId(Jobs, job), true);
    hide Next, NeverAhead;
    RunsOn(Unpaid(), [], begin);
    RunsOn(Unpaid(), [begin], Write(0));
    assert [] + [begin] == [begin] && [begin] + [Write(0)] == [begin, Write(0)];
    assert RunFrom(Unpaid(), [begin, Write(0)]) == Next(Next(Unpaid(), begin), Write(0));
    WrittenTooEarly(job);
  }

  lemma WrittenTooEarly(job: JobId)
    ensures !NeverAhead(Next(Next(Unpaid(), BeginConfirm(RowId(Jobs, job), true)), Write(0)))
  {
    var read := Next(Unpaid(), BeginConfirm(RowId(Jobs, job), true));
    assert read == System(Unpaid().chain, map[], [Read(RowId(Jobs, job), None)]);
    WriteStaysBehindIff(read, 0);
  }

  /** The same confirmation does no harm when the deposit lands before the write. */
  lemma ConfirmedInTime(job: JobId)
    requires |job| == 36
    ensures var events := [BeginConfirm(RowId(Jobs, job), true), OnChain(Step.Initialize(1, Key(2), job, 100)),
      Write(0)];
      BehindThroughout(Unpaid(), events) && !HonestRun(Unpaid(), events)
  {
    var begin, paid := BeginConfirm(RowId(Jobs, job), true), Step.Initialize(1, Key(2), job, 100);
    var events := [begin, OnChain(paid), Write(0)];
    RunsOn(Unpaid(), [], begin);
    RunsOn(Unpaid(), [begin], OnChain(paid));
    assert events[..0] == [] && events[..1] == [] + [begin] && events[..2] == [begin] + [OnChain(paid)];
    assert !Honest(RunFrom(Unpaid(), events[..0]), events[0]);
    PayOne(Unpaid().chain.balances, Move(Deposit, Some(job), Key(1), VaultOf(job), 102));
    assert job in Next(Next(Unpaid(), begin), OnChain(paid)).chain.escrows;
    AlwaysBehindIff(Unpaid(), events);
  }

  // ---------------------------------------------------------------- what never lands

  /** A milestone top-up that has passed its guard never reaches the chain, whatever it carries. */
  lemma MilestoneTopUpNeverLands(sys: System, i: nat, s: Step)
    requires i < |sys.tasks| && sys.tasks[i].Guarded?
    requires sys.tasks[i].op == ToppingUp && sys.tasks[i].row.table == Milestones
    requires Carries(s, ToppingUp, sys.tasks[i].row.id)
    ensures Next(sys, Land(i, s)) == sys.(tasks := sys.tasks[i := Over])
  {
    LoadsIff(Milestones, s);
  }
}
