/** The off-chain escrow service, one operation at a time: database rows shadowing the chain.

    Operations broadcast a transaction and then write a row.  A broadcast may be lost; it returns
    normally only when the instruction was accepted.  A client-signed transaction that lands with its
    confirmation is one operation.
    What changes when these parts interleave is the subject of `MirrorLag`.

    Job ids and milestone ids are UUIDs used as escrow ids alike; no UUID is both. */
module EscrowService {
  import opened Common
  import opened Ledger
  import opened Journal
  import opened JobBooks
  import opened Solvency
  import opened Transactions

  datatype JobRow = JobRow(clientWallet: Address, freelancerWallet: Option<Address>, amount: nat, status: Status)

  /** `status` is None while the milestone is pending, that is, created but never funded. */
  datatype MilestoneRow = MilestoneRow(
    job: JobId,
    clientWallet: Option<Address>,
    freelancerWallet: Option<Address>,
    amount: nat,
    status: Option<Status>)

  datatype ServiceError =
    | Conflict | NotFound | BadRequest | Unreachable
    | Rejected(error: Error)

  predicate Live(status: Status) { status == Funded || status == Locked }

  predicate LiveRow(row: MilestoneRow) { row.status.Some? && Live(row.status.value) }

  function StatusOf(record: Option<JobEscrow>): Option<Status> {
    if record.Some? then Some(record.value.status) else None
  }

  // ---------------------------------------------------------------- what the rows say of the chain

  /** A job row shows the on-chain status, and the principal while the escrow is live; a recorded
      freelancer is the on-chain one. */
  predicate JobAgrees(record: Option<JobEscrow>, row: JobRow) {
    && record.Some?
    && row.status == record.value.status
    && (Live(row.status) ==> row.amount == record.value.amount)
    && (row.freelancerWallet.Some? ==> row.freelancerWallet.value == record.value.freelancer)
  }

  /** A milestone row is pending exactly while the chain has no escrow for it; a recorded freelancer is
      the on-chain one, put there by a lock. */
  predicate MilestoneAgrees(record: Option<JobEscrow>, row: MilestoneRow) {
    && row.status == StatusOf(record)
    && (LiveRow(row) ==> row.amount == record.value.amount)
    && (row.freelancerWallet.Some? ==>
          && record.Some? && record.value.status != Funded
          && row.freelancerWallet.value == record.value.freelancer)
  }

  ghost predicate JobsMirror(c: Chain, jobs: map<JobId, JobRow>) {
    forall j | j in jobs :: JobAgrees(RecordOf(c.escrows, j), jobs[j])
  }

  ghost predicate MilestonesMirror(c: Chain, milestones: map<JobId, MilestoneRow>) {
    forall m | m in milestones :: MilestoneAgrees(RecordOf(c.escrows, m), milestones[m])
  }

  ghost predicate SomeLive(milestones: map<JobId, MilestoneRow>, job: JobId) {
    exists m :: m in milestones && milestones[m].job == job && LiveRow(milestones[m])
  }

  /** A job paid by milestones only is shown active while any of its milestones is funded or locked. */
  ghost predicate FlagsRaised(c: Chain, milestones: map<JobId, MilestoneRow>, active: map<JobId, bool>) {
    forall m | m in milestones && LiveRow(milestones[m]) && milestones[m].job !in c.escrows ::
      milestones[m].job in active && active[milestones[m].job]
  }

  /** The service's whole promise about its tables. */
  ghost predicate InStep(
    c: Chain, jobs: map<JobId, JobRow>, milestones: map<JobId, MilestoneRow>, active: map<JobId, bool>)
  {
    && JobsMirror(c, jobs)
    && MilestonesMirror(c, milestones)
    && FlagsRaised(c, milestones, active)
    && jobs.Keys !! milestones.Keys
  }

  /** Two chains with the same records, but for one id. */
  ghost predicate SameBut(c: Chain, c': Chain, id: JobId) {
    && (forall j | j != id :: RecordOf(c'.escrows, j) == RecordOf(c.escrows, j))
    && (forall j | j in c.escrows :: j in c'.escrows)
  }

  lemma RowsAgree(
    c: Chain, jobs: map<JobId, JobRow>, milestones: map<JobId, MilestoneRow>, active: map<JobId, bool>, id: JobId)
    requires InStep(c, jobs, milestones, active)
    ensures id in jobs ==> JobAgrees(RecordOf(c.escrows, id), jobs[id]) && id !in milestones
    ensures id in milestones ==> MilestoneAgrees(RecordOf(c.escrows, id), milestones[id])
  {
  }

  lemma LiveIsLarge(c: Chain, id: JobId)
    requires Sound(c)
    ensures id in c.escrows && Live(c.escrows[id].status) ==> c.escrows[id].amount >= 40
  {
  }

  function Put<K, V>(m: map<K, V>, k: K, v: Option<V>): map<K, V> {
    if v.Some? then m[k := v.value] else m
  }

  /** After an operation on one job escrow only that job's row needs looking at. */
  lemma JobWritten(
    c: Chain, c': Chain, jobs: map<JobId, JobRow>, row: Option<JobRow>,
    milestones: map<JobId, MilestoneRow>, active: map<JobId, bool>, flag: Option<bool>, job: JobId)
    requires InStep(c, jobs, milestones, active) && SameBut(c, c', job)
    requires job !in milestones && job in c'.escrows
    ensures InStep(c', Put(jobs, job, row), milestones, Put(active, job, flag)) <==>
      (job in Put(jobs, job, row) ==> JobAgrees(RecordOf(c'.escrows, job), Put(jobs, job, row)[job]))
  {
    var jobs' := Put(jobs, job, row);
    var active' := Put(active, job, flag);
    forall m | m in milestones ensures MilestoneAgrees(RecordOf(c'.escrows, m), milestones[m]) {
      assert m != job;
    }
    forall j | j in jobs' && j != job ensures JobAgrees(RecordOf(c'.escrows, j), jobs'[j]) {
      assert j in jobs;
    }
    forall m | m in milestones && LiveRow(milestones[m]) && milestones[m].job !in c'.escrows
      ensures milestones[m].job in active' && active'[milestones[m].job]
    {
      assert milestones[m].job !in c.escrows;
    }
  }

  /** After an operation on one milestone: its row, and the flag of its job. */
  lemma MilestoneWritten(
    c: Chain, c': Chain, jobs: map<JobId, JobRow>,
    milestones: map<JobId, MilestoneRow>, row: MilestoneRow, active: map<JobId, bool>, active': map<JobId, bool>,
    id: JobId)
    requires InStep(c, jobs, milestones, active) && SameBut(c, c', id)
    requires id !in jobs && id in milestones && row.job == milestones[id].job
    requires || (active' == active && (LiveRow(row) ==> LiveRow(milestones[id])))
             || active' == active[row.job := true]
             || active' == active[row.job := SomeLive(milestones[id := row], row.job)]
    ensures InStep(c', jobs, milestones[id := row], active') <==> MilestoneAgrees(RecordOf(c'.escrows, id), row)
  {
    var milestones' := milestones[id := row];
    forall m | m in milestones' && m != id ensures MilestoneAgrees(RecordOf(c'.escrows, m), milestones'[m]) {
      assert m in milestones;
    }
    forall j | j in jobs ensures JobAgrees(RecordOf(c'.escrows, j), jobs[j]) {
      assert j != id;
    }
    forall m | m in milestones' && LiveRow(milestones'[m]) && milestones'[m].job !in c'.escrows
      ensures milestones'[m].job in active' && active'[milestones'[m].job]
    {
      assert milestones'[m].job !in c.escrows;
      if m != id {
        assert m in milestones && milestones'[m] == milestones[m];
      }
    }
  }

  /** An accepted instruction changes the record of its own job only, and how. */
  ghost predicate Effects(c: Chain, s: Step, c': Chain, job: JobId) {
    && SameBut(c, c', job)
    && job in c'.escrows
    && var before := RecordOf(c.escrows, job);
       var after := c'.escrows[job];
       && (!s.Lock? && before.Some? ==> after.freelancer == before.value.freelancer)
       && (before.Some? ==> after.client == before.value.client && after.authority == before.value.authority)
       && match s
          case Initialize(client, authority, _, amount) =>
            before == None && after.amount == amount && after.status == Funded && after.client == Key(client)
            && after.authority == authority
          case TopUp(client, _, amount) =>
            before.Some? && Live(after.status)
            && amount > 0
            && after == before.value.(amount := before.value.amount + amount, platformFee := after.platformFee)
          case Withdraw(client, _) => before.Some? && before.value.status == Funded && after.status == Refunded
          case Lock(_, _, freelancer) =>
            before.Some? && before.value.status == Funded
            && after == before.value.(freelancer := freelancer, status := Locked, platformFee := 0)
          case Release(_, freelancer, _) =>
            before.Some? && before.value.status == Locked && before.value.freelancer == freelancer
            && after.status == Released
          case Refund(_, clientAccount, _) =>
            before.Some? && Live(before.value.status) && before.value.client == clientAccount
            && after.status == Refunded
          case _ => false
  }

  lemma OneRecord(c: Chain, s: Step, job: JobId)
    requires JobOf(s) == Some(job)
    ensures Exec(c, s).Ok? ==> Effects(c, s, Exec(c, s).value, job)
  {
    if Exec(c, s).Ok? {
      ExecParts(c, s);
    }
  }

  // ---------------------------------------------------------------- instructions behind the service's back

  /** The job whose escrow a client-signed instruction touches, if there is one. */
  function Touched(signed: Option<Step>): Option<JobId> {
    if signed.Some? then JobOf(signed.value) else None
  }

  /** What a landed instruction, if any, did to the escrows. */
  ghost predicate LandedAs(c: Chain, signed: Option<Step>, c': Chain) {
    if Touched(signed).Some? then Effects(c, signed.value, c', Touched(signed).value) else c'.escrows == c.escrows
  }

  /** The instruction was for another escrow than the one confirmed, and that one has a row. */
  predicate Strays(signed: Option<Step>, id: JobId, jobs: map<JobId, JobRow>, milestones: map<JobId, MilestoneRow>) {
    && Touched(signed).Some? && Touched(signed).value != id
    && (Touched(signed).value in jobs || Touched(signed).value in milestones)
  }

  lemma NoRecord(c: Chain, s: Step)
    requires Exec(c, s).Ok? && JobOf(s) == None
    ensures Exec(c, s).value.escrows == c.escrows
  {
  }

  /** An accepted instruction always moves status or principal: a row left as it was is wrong afterwards. */
  lemma RowLeftBehind(
    c: Chain, s: Step, c': Chain, jobs: map<JobId, JobRow>, milestones: map<JobId, MilestoneRow>,
    active: map<JobId, bool>, k: JobId)
    requires InStep(c, jobs, milestones, active) && Effects(c, s, c', k)
    ensures k in jobs ==> !JobAgrees(RecordOf(c'.escrows, k), jobs[k])
    ensures k in milestones ==> !MilestoneAgrees(RecordOf(c'.escrows, k), milestones[k])
  {
    RowsAgree(c, jobs, milestones, active, k);
  }

  /** Writing one job's row after an instruction has landed, whatever that was for. */
  lemma JobConfirmed(
    c: Chain, signed: Option<Step>, c': Chain, jobs: map<JobId, JobRow>, row: JobRow,
    milestones: map<JobId, MilestoneRow>, active: map<JobId, bool>, flag: Option<bool>, job: JobId)
    requires InStep(c, jobs, milestones, active) && LandedAs(c, signed, c') && job !in milestones
    requires flag == Some(false) ==> job in c'.escrows
    ensures InStep(c', jobs[job := row], milestones, Put(active, job, flag))
      <==> JobAgrees(RecordOf(c'.escrows, job), row) && !Strays(signed, job, jobs, milestones)
  {
    hide InStep;
    var jobs', active' := jobs[job := row], Put(active, job, flag);
    var k := Touched(signed);
    if InStep(c', jobs', milestones, active') {
      RowsAgree(c', jobs', milestones, active', job);
      if k.Some? {
        RowsAgree(c', jobs', milestones, active', k.value);
        RowLeftBehind(c, signed.value, c', jobs, milestones, active, k.value);
      }
    } else if job in c'.escrows {
      if k == None || k == Some(job) {
        JobWritten(c, c', jobs, Some(row), milestones, active, flag, job);
      } else if !Strays(signed, job, jobs, milestones) {
        JobWritten(c, c', jobs, None, milestones, active, None, k.value);
        JobWritten(c', c', jobs, Some(row), milestones, active, flag, job);
      }
    }
  }

  /** Writing one milestone's row after an instruction has landed, whatever that was for. */
  lemma MilestoneConfirmed(
    c: Chain, signed: Option<Step>, c': Chain, jobs: map<JobId, JobRow>,
    milestones: map<JobId, MilestoneRow>, row: MilestoneRow, active: map<JobId, bool>, active': map<JobId, bool>,
    id: JobId)
    requires InStep(c, jobs, milestones, active) && LandedAs(c, signed, c')
    requires id !in jobs && id in milestones && row.job == milestones[id].job
    requires || (active' == active && (LiveRow(row) ==> LiveRow(milestones[id])))
             || active' == active[row.job := true]
             || active' == active[row.job := SomeLive(milestones[id := row], row.job)]
    ensures InStep(c', jobs, milestones[id := row], active')
      <==> MilestoneAgrees(RecordOf(c'.escrows, id), row) && !Strays(signed, id, jobs, milestones)
  {
    hide InStep;
    var milestones' := milestones[id := row];
    var k := Touched(signed);
    if InStep(c', jobs, milestones', active') {
      RowsAgree(c', jobs, milestones', active', id);
      if k.Some? {
        RowsAgree(c', jobs, milestones', active', k.value);
        RowLeftBehind(c, signed.value, c', jobs, milestones, active, k.value);
      }
    } else if k == None || k == Some(id) {
      MilestoneWritten(c, c', jobs, milestones, row, active, active', id);
    } else if !Strays(signed, id, jobs, milestones) {
      JobWritten(c, c', jobs, None, milestones, active, None, k.value);
      MilestoneWritten(c', c', jobs, milestones, row, active, active', id);
    }
  }

  /** No row written at all. */
  lemma NothingConfirmed(
    c: Chain, signed: Option<Step>, c': Chain, jobs: map<JobId, JobRow>,
    milestones: map<JobId, MilestoneRow>, active: map<JobId, bool>, id: JobId)
    requires InStep(c, jobs, milestones, active) && LandedAs(c, signed, c')
    requires id !in jobs && id !in milestones
    ensures InStep(c', jobs, milestones, active) <==> !Strays(signed, id, jobs, milestones)
  {
    hide InStep;
    var k := Touched(signed);
    if InStep(c', jobs, milestones, active) {
      if k.Some? {
        RowsAgree(c', jobs, milestones, active, k.value);
        RowLeftBehind(c, signed.value, c', jobs, milestones, active, k.value);
      }
    } else if k == None {
      MirrorReadsEscrows(c, c', jobs, milestones, active);
    } else if !Strays(signed, id, jobs, milestones) {
      JobWritten(c, c', jobs, None, milestones, active, None, k.value);
    }
  }

  /** Only the escrows matter to the mirror, not who holds the lamports. */
  lemma MirrorReadsEscrows(
    c: Chain, c': Chain, jobs: map<JobId, JobRow>, milestones: map<JobId, MilestoneRow>, active: map<JobId, bool>)
    requires InStep(c, jobs, milestones, active) && c'.escrows == c.escrows
    ensures InStep(c', jobs, milestones, active)
  {
  }

  /** The JOB_SET_ACTIVE a confirmation publishes for the status it wrote. */
  function FlagFor(status: Status): Option<bool> {
    match status
    case Funded => Some(true)
    case Refunded => Some(false)
    case _ => None
  }

  /** What a caller can tell beforehand about a confirmation of this milestone: the row will agree
      with the chain if the transaction is its own and the chain can be read, or the fallback, FUNDED
      with the amount as it was, happens to be right; and as before for a transaction of another. */
  ghost predicate ConfirmsRightly(row: MilestoneRow, id: JobId, signed: Option<Step>, readable: bool) {
    if Touched(signed) == Some(id) then readable || (signed.value.Initialize? && signed.value.amount == row.amount)
    else if readable then row.status.Some?
    else row.status == Some(Funded)
  }

  /** The flag of a milestone's job, given the status a confirmation wrote. */
  ghost function FlagsAfter(active: map<JobId, bool>, milestones: map<JobId, MilestoneRow>, id: JobId): map<JobId, bool>
    requires id in milestones
  {
    var row := milestones[id];
    if row.status == Some(Funded) then active[row.job := true]
    else if row.status == Some(Refunded) then active[row.job := SomeLive(milestones, row.job)]
    else active
  }

  lemma NothingLanded(c: Chain)
    ensures LandedAs(c, None, c)
  {
  }

  /** What a confirmation writes: a copy of the escrow it read, or the fallback. */
  function RowConfirmed(row: MilestoneRow, clientWallet: Address, seen: Option<JobEscrow>): MilestoneRow {
    row.(
      clientWallet := Some(clientWallet),
      amount := if seen.Some? then seen.value.amount else row.amount,
      status := Some(if seen.Some? then seen.value.status else Funded))
  }

  lemma ConfirmsRightlyIff(
    c: Chain, signed: Option<Step>, c': Chain, row: MilestoneRow, id: JobId, clientWallet: Address, readable: bool)
    requires MilestoneAgrees(RecordOf(c.escrows, id), row) && LandedAs(c, signed, c')
    ensures var seen := if readable then RecordOf(c'.escrows, id) else None;
      && (MilestoneAgrees(RecordOf(c'.escrows, id), RowConfirmed(row, clientWallet, seen))
          <==> ConfirmsRightly(row, id, signed, readable))
      && (RowConfirmed(row, clientWallet, seen).status == Some(Locked) ==> LiveRow(row))
  {
    if Touched(signed) != Some(id) {
      assert RecordOf(c'.escrows, id) == RecordOf(c.escrows, id);
    }
  }

  /** What an SQL UPDATE by job id writes: nothing when there is no such row. */
  function WithStatus(jobs: map<JobId, JobRow>, job: JobId, status: Status): Option<JobRow> {
    if job in jobs then Some(jobs[job].(status := status)) else None
  }

  function WithMore(jobs: map<JobId, JobRow>, job: JobId, extra: nat): Option<JobRow> {
    if job in jobs then Some(jobs[job].(amount := jobs[job].amount + extra)) else None
  }

  ghost predicate FundedFor(rows: map<JobId, MilestoneRow>, m: JobId, job: JobId) {
    m in rows && rows[m].job == job && rows[m].status == Some(Funded)
  }

  /** The milestones a hire event looks up. */
  function FundedOf(rows: map<JobId, MilestoneRow>, job: JobId): (funded: set<JobId>)
    ensures forall m :: m in funded <==> FundedFor(rows, m, job)
  {
    set m | m in rows && rows[m].job == job && rows[m].status == Some(Funded)
  }

  ghost predicate NothingToLock(c: Chain, rows: map<JobId, MilestoneRow>, job: JobId) {
    && (forall m :: !FundedFor(rows, m, job))
    && (job in c.escrows ==> c.escrows[job].status != Funded)
  }

  /** What became of one funded milestone when its job's freelancer was hired: locked to the hired
      wallet in row and chain, or left alone because its own attempt failed, which it did exactly
      when its transaction was lost or its escrow names another authority. */
  ghost predicate LockedOrFailed(
    authority: nat, c: Chain, rows: map<JobId, MilestoneRow>, c': Chain, rows': map<JobId, MilestoneRow>,
    m: JobId, wallet: Address, sent: set<JobId>, failed: set<JobId>)
  {
    && m in rows && m in rows' && m in c.escrows && m in c'.escrows
    && (m in failed <==> m !in sent || c.escrows[m].authority != Key(authority))
    && if m in failed then
         rows'[m] == rows[m] && c'.escrows[m] == c.escrows[m]
       else
         && rows'[m] == rows[m].(status := Some(Locked), freelancerWallet := Some(wallet))
         && c'.escrows[m].status == Locked && c'.escrows[m].freelancer == wallet
  }

  /** A hire event stops at the job's own escrow: there is one to lock, and its lock is lost or refused. */
  predicate JobLockFails(authority: Option<nat>, c: Chain, job: JobId, readable: bool, sent: set<JobId>) {
    && authority.Some? && readable && job in c.escrows && c.escrows[job].status == Funded
    && (job !in sent || c.escrows[job].authority != Key(authority.value))
  }

  /** What a funded milestone needs, before the event, to be locked by it. */
  predicate MilestoneLocks(authority: Option<nat>, c: Chain, job: JobId, m: JobId, readable: bool, sent: set<JobId>) {
    && authority.Some? && !JobLockFails(authority, c, job, readable, sent)
    && m in sent && m in c.escrows && c.escrows[m].authority == Key(authority.value)
  }

  /** Locked to this wallet, in row and chain. */
  ghost predicate LockedTo(c: Chain, rows: map<JobId, MilestoneRow>, m: JobId, wallet: Address) {
    && m in rows && rows[m].status == Some(Locked) && rows[m].freelancerWallet == Some(wallet)
    && m in c.escrows && c.escrows[m].status == Locked && c.escrows[m].freelancer == wallet
  }

  /** Work on other ids does not change what became of this one. */
  lemma OutcomeStays(
    authority: nat, c: Chain, rows: map<JobId, MilestoneRow>, c1: Chain, rows1: map<JobId, MilestoneRow>,
    c2: Chain, rows2: map<JobId, MilestoneRow>, m: JobId, wallet: Address, sent: set<JobId>,
    failed1: set<JobId>, failed2: set<JobId>)
    requires LockedOrFailed(authority, c, rows, c1, rows1, m, wallet, sent, failed1)
    requires m in rows2 && rows2[m] == rows1[m]
    requires RecordOf(c2.escrows, m) == RecordOf(c1.escrows, m)
    requires m in failed2 <==> m in failed1
    ensures LockedOrFailed(authority, c, rows, c2, rows2, m, wallet, sent, failed2)
  {
  }

  /** What is measured from may be any chain and table that agree with the start on this id. */
  lemma OutcomeOf(
    authority: nat, c0: Chain, c: Chain, rows0: map<JobId, MilestoneRow>, rows: map<JobId, MilestoneRow>,
    c': Chain, rows': map<JobId, MilestoneRow>, m: JobId, wallet: Address, sent: set<JobId>, failed: set<JobId>)
    requires LockedOrFailed(authority, c, rows, c', rows', m, wallet, sent, failed)
    requires RecordOf(c0.escrows, m) == RecordOf(c.escrows, m)
    requires m in rows0 && rows0[m] == rows[m]
    ensures LockedOrFailed(authority, c0, rows0, c', rows', m, wallet, sent, failed)
  {
  }

  /** One turn of the loop decides one milestone more. */
  lemma OneMoreOutcome(
    authority: nat, c0: Chain, rows0: map<JobId, MilestoneRow>, c: Chain, rows: map<JobId, MilestoneRow>,
    c': Chain, rows': map<JobId, MilestoneRow>, done: set<JobId>, m: JobId, wallet: Address, sent: set<JobId>,
    failed: set<JobId>, failed': set<JobId>)
    requires forall k | k in done :: LockedOrFailed(authority, c0, rows0, c, rows, k, wallet, sent, failed)
    requires LockedOrFailed(authority, c, rows, c', rows', m, wallet, sent, failed')
    requires m !in done && m in rows && m in rows0 && rows0[m] == rows[m] && m in rows' && rows' == rows[m := rows'[m]]
    requires RecordOf(c0.escrows, m) == RecordOf(c.escrows, m)
    requires forall j | j != m :: RecordOf(c'.escrows, j) == RecordOf(c.escrows, j)
    requires failed' == failed || failed' == failed + {m}
    ensures forall k | k in done + {m} :: LockedOrFailed(authority, c0, rows0, c', rows', k, wallet, sent, failed')
  {
    forall k | k in done ensures LockedOrFailed(authority, c0, rows0, c', rows', k, wallet, sent, failed') {
      OutcomeStays(authority, c0, rows0, c, rows, c', rows', k, wallet, sent, failed, failed');
    }
    OutcomeOf(authority, c0, c, rows0, rows, c', rows', m, wallet, sent, failed');
  }

  /** The row a job's confirmation writes: a copy of the escrow it read, or the fallback. */
  function JobRowConfirmed(clientWallet: Address, seen: Option<JobEscrow>): JobRow {
    if seen.Some? then JobRow(clientWallet, None, seen.value.amount, seen.value.status)
    else JobRow(clientWallet, None, 0, Funded)
  }

  /** Row and flag as a job's confirmation writes them: the mirror holds if and only if a condition holds
      that is known before. */
  lemma JobRecorded(
    c: Chain, signed: Option<Step>, c': Chain, jobs: map<JobId, JobRow>, milestones: map<JobId, MilestoneRow>,
    active: map<JobId, bool>, job: JobId, clientWallet: Address, readable: bool)
    requires InStep(c, jobs, milestones, active) && LandedAs(c, signed, c') && Sound(c') && job !in milestones
    ensures var row := JobRowConfirmed(clientWallet, if readable then RecordOf(c'.escrows, job) else None);
      InStep(c', jobs[job := row], milestones, Put(active, job, FlagFor(row.status)))
      <==> readable && (job in c.escrows || Touched(signed) == Some(job)) && !Strays(signed, job, jobs, milestones)
  {
    var row := JobRowConfirmed(clientWallet, if readable then RecordOf(c'.escrows, job) else None);
    LiveIsLarge(c', job);
    hide InStep, Sound, Strays;
    JobConfirmed(c, signed, c', jobs, row, milestones, active, FlagFor(row.status), job);
  }

  /** The same for a milestone's row and its job's flag. */
  lemma MilestoneRecorded(
    c: Chain, signed: Option<Step>, c': Chain, jobs: map<JobId, JobRow>, milestones: map<JobId, MilestoneRow>,
    active: map<JobId, bool>, id: JobId, clientWallet: Address, readable: bool)
    requires InStep(c, jobs, milestones, active) && LandedAs(c, signed, c') && id !in jobs && id in milestones
    ensures var seen := if readable then RecordOf(c'.escrows, id) else None;
      var milestones' := milestones[id := RowConfirmed(milestones[id], clientWallet, seen)];
      InStep(c', jobs, milestones', FlagsAfter(active, milestones', id))
      <==> ConfirmsRightly(milestones[id], id, signed, readable) && !Strays(signed, id, jobs, milestones)
  {
    hide InStep, LandedAs, ConfirmsRightly, Strays, MilestoneAgrees;
    RowsAgree(c, jobs, milestones, active, id);
    ConfirmsRightlyIff(c, signed, c', milestones[id], id, clientWallet, readable);
    var seen := if readable then RecordOf(c'.escrows, id) else None;
    var milestones' := milestones[id := RowConfirmed(milestones[id], clientWallet, seen)];
    MilestoneConfirmed(c, signed, c', jobs, milestones, milestones'[id], active,
                       FlagsAfter(active, milestones', id), id);
  }

  // ---------------------------------------------------------------- where it goes wrong

  /** Two deposits of client 1 under authority 2: one for a job itself, one for a milestone of it. */
  function TwoDeposits(job: JobId, m: JobId): Trail {
    Advance(Advance(Trail(Chain(map[Key(1) := 300], map[]), []), Initialize(1, Key(2), job, 100)),
            Initialize(1, Key(2), m, 100))
  }

  function FundedBy(id: JobId): JobEscrow {
    JobEscrow(Key(1), DEFAULT_KEY, Key(2), id, 100, 2, Funded)
  }

  lemma BothFunded(job: JobId, m: JobId)
    requires |job| == |m| == 36 && job != m
    ensures var c := TwoDeposits(job, m).chain;
      Sound(c) && c.escrows == map[job := FundedBy(job), m := FundedBy(m)]
  {
    var start := Trail(Chain(map[Key(1) := 300], map[]), []);
    TotalUpdate(map[], Key(1), 300);
    var one := Advance(start, Initialize(1, Key(2), job, 100));
    PayOne(start.chain.balances, Move(Deposit, Some(job), Key(1), VaultOf(job), 102));
    assert Exec(start.chain, Initialize(1, Key(2), job, 100)).Ok?;
    PayOne(one.chain.balances, Move(Deposit, Some(m), Key(1), VaultOf(m), 102));
    assert Exec(one.chain, Initialize(1, Key(2), m, 100)).Ok?;
    assert Sound(start.chain);
    SoundStep(start.chain, Initialize(1, Key(2), job, 100));
    SoundStep(one.chain, Initialize(1, Key(2), m, 100));
  }

  /** A hire that locks nothing: the job's own transaction is lost, so the event stops, although the
      milestone's would have got through and been accepted. */
  lemma HireStopsEarly(job: JobId, m: JobId, wallet: Address)
    requires |job| == |m| == 36 && job != m
    ensures var c := TwoDeposits(job, m).chain;
      var jobs := map[job := JobRow(Key(1), None, 100, Funded)];
      var milestones := map[m := MilestoneRow(job, Some(Key(1)), None, 100, Some(Funded))];
      && Sound(c) && InStep(c, jobs, milestones, map[job := true]) && FundedFor(milestones, m, job)
      && JobLockFails(Some(2), c, job, true, {m})
      && !MilestoneLocks(Some(2), c, job, m, true, {m})
      && Exec(c, Step.Lock(2, m, wallet)).Ok?
  {
    BothFunded(job, m);
    LockAcceptedIff(TwoDeposits(job, m).chain, 2, m, wallet);
  }

  /** A confirmation that breaks the mirror, whatever flag it publishes: a pending milestone, confirmed
      with the signature of some older transaction, is shown as funded although it has no escrow. */
  lemma ConfirmedForNothing(
    c: Chain, jobs: map<JobId, JobRow>, milestones: map<JobId, MilestoneRow>,
    active: map<JobId, bool>, active': map<JobId, bool>, id: JobId, wallet: Address)
    requires InStep(c, jobs, milestones, active) && id in milestones && milestones[id].status == None
    ensures id !in c.escrows && !ConfirmsRightly(milestones[id], id, None, true)
    ensures var row := RowConfirmed(milestones[id], wallet, RecordOf(c.escrows, id));
      row.status == Some(Funded) && !InStep(c, jobs, milestones[id := row], active')
  {
    RowsAgree(c, jobs, milestones, active, id);
    var milestones' := milestones[id := RowConfirmed(milestones[id], wallet, None)];
    if InStep(c, jobs, milestones', active') {
      RowsAgree(c, jobs, milestones', active', id);
    }
  }

  /** Such a milestone is there from the first call on. */
  lemma ConfirmedForNothingAtOnce(id: JobId, job: JobId, wallet: Address)
    ensures var c := Chain(map[], map[]);
      var milestones := map[id := MilestoneRow(job, None, None, 100, None)];
      && Sound(c) && InStep(c, map[], milestones, map[])
      && !InStep(c, map[], milestones[id := RowConfirmed(milestones[id], wallet, None)], map[job := true])
  {
    var milestones := map[id := MilestoneRow(job, None, None, 100, None)];
    ConfirmedForNothing(Chain(map[], map[]), map[], milestones, map[], map[job := true], id, wallet);
  }

  /** A confirmation that keeps the mirror, but writes a wallet that is not the client's: the service's
      refund of the live milestone is refused from then on, while the chain would still make one. */
  lemma RefundOutOfReach(job: JobId, m: JobId)
    requires |job| == |m| == 36 && job != m
    ensures var c := TwoDeposits(job, m).chain;
      var row := RowConfirmed(MilestoneRow(job, Some(Key(1)), None, 100, Some(Funded)), Key(9), RecordOf(c.escrows, m));
      && MilestoneAgrees(RecordOf(c.escrows, m), row) && LiveRow(row) && row.clientWallet == Some(Key(9))
      && Exec(c, Step.Refund(2, Key(9), m)).Err?
      && Exec(c, Step.Refund(2, Key(1), m)).Ok?
  {
    BothFunded(job, m);
    RefundAcceptedIff(TwoDeposits(job, m).chain, 2, Key(9), m);
    RefundAcceptedIff(TwoDeposits(job, m).chain, 2, Key(1), m);
  }

  /** How an instruction that did not succeed is reported. */
  ghost function Refusal(c: Chain, s: Step, sent: bool): ServiceError {
    if !sent then Unreachable
    else
      match Exec(c, s)
      case Err(e) => Rejected(e)
      case Ok(_) => Unreachable
  }

  /** How a job operation that did not succeed is reported: its guard comes first. */
  ghost function GuardRefusal(
    c: Chain, jobs: map<JobId, JobRow>, job: JobId, allowed: set<Status>, readable: bool, later: ServiceError)
    : ServiceError
  {
    if readable && job in c.escrows then if c.escrows[job].status in allowed then later else BadRequest
    else if job !in jobs then NotFound
    else if jobs[job].status in allowed then later
    else BadRequest
  }

  class Service {
    var chain: Chain
    var jobs: map<JobId, JobRow>
    var milestones: map<JobId, MilestoneRow>
    /** The last JOB_SET_ACTIVE published for each job. */
    var active: map<JobId, bool>
    const authority: Option<nat>

    /** The authority written into new escrows: the default key when none is configured. */
    function Authority(): Address {
      if authority.Some? then Key(authority.value) else DEFAULT_KEY
    }

    ghost predicate Valid()
      reads this
    {
      Sound(chain) && InStep(chain, jobs, milestones, active)
    }

    constructor (chain: Chain, authority: Option<nat>)
      requires Sound(chain)
      ensures Valid() && this.chain == chain && this.authority == authority
      ensures jobs == map[] && milestones == map[] && active == map[]
    {
      this.chain := chain;
      this.authority := authority;
      jobs, milestones, active := map[], map[], map[];
    }

    /** An instruction reaches the chain. */
    method Execute(s: Step) returns (r: Result<(), ServiceError>)
      requires Sound(chain)
      modifies this`chain
      ensures match Exec(old(chain), s)
              case Ok(after) => r == Ok(()) && chain == after
              case Err(e) => r == Err(Rejected(e)) && chain == old(chain)
      ensures Sound(chain)
      ensures r.Ok? ==> LandedAs(old(chain), Some(s), chain)
    {
      match Exec(chain, s) {
        case Ok(after) =>
          SoundStep(chain, s);
          if JobOf(s).Some? {
            OneRecord(chain, s, JobOf(s).value);
          } else {
            NoRecord(chain, s);
          }
          chain := after;
          r := Ok(());
        case Err(e) =>
          r := Err(Rejected(e));
      }
    }

    /** Sign, send and wait: a lost transaction and a refused account list leave the chain alone, and
        only an accepted instruction returns normally. */
    method Broadcast(tx: Transaction, sent: bool) returns (r: Result<(), ServiceError>)
      requires Sound(chain) && MovesLamports(tx.instruction)
      modifies this`chain
      ensures Sound(chain)
      ensures r.Ok? <==> sent && Load(tx).Some? && Exec(old(chain), Load(tx).value).Ok?
      ensures r.Ok? ==>
        && Exec(old(chain), Load(tx).value) == Result.Ok(chain)
        && LandedAs(old(chain), Load(tx), chain)
      ensures r.Err? ==> chain == old(chain)
      ensures r == Err(Unreachable) <==> !sent
      ensures sent && Load(tx) == None ==> r == Err(Rejected(AccountsRefused))
      ensures sent && Load(tx).Some? && r.Err? ==> r == Err(Rejected(Exec(old(chain), Load(tx).value).error))
    {
      if !sent { return Err(Unreachable); }
      var s := Load(tx);
      if s.None? { return Err(Rejected(AccountsRefused)); }
      r := Execute(s.value);
    }

    ghost predicate Unchanged(c: Chain, js: map<JobId, JobRow>, ms: map<JobId, MilestoneRow>, flags: map<JobId, bool>)
      reads this
    {
      chain == c && jobs == js && milestones == ms && active == flags
    }

    // -------------------------------------------------------------- job escrows

    method FundJob(job: JobId, client: nat, amount: nat, sent: bool) returns (r: Result<(), ServiceError>)
      requires Valid() && job !in milestones
      modifies this
      ensures Valid() && milestones == old(milestones)
      ensures
        var s := Step.Initialize(client, if authority.Some? then Key(authority.value) else DEFAULT_KEY, job, amount);
        && (r.Ok? <==> sent && Exec(old(chain), s).Ok?)
        && (r.Ok? ==> Exec(old(chain), s) == Result.Ok(chain))
        && (r.Err? ==> r.error == if job in old(jobs) && old(jobs)[job].status != Refunded then Conflict
                                  else Refusal(old(chain), s, sent))
      ensures r.Ok? ==>
        && job in chain.escrows && chain.escrows[job].client == Key(client) && chain.escrows[job].amount == amount
        && chain.escrows[job].authority == (if authority.Some? then Key(authority.value) else DEFAULT_KEY)
      ensures r.Ok? ==> jobs == old(jobs)[job := JobRow(Key(client), None, amount, Funded)]
      ensures r.Ok? ==> active == old(active)[job := true]
      // Not even the path for rows marked REFUNDED can fund a job a second time.
      ensures job in old(jobs) ==> r.Err?
      ensures r.Err? ==> Unchanged(old(chain), old(jobs), old(milestones), old(active))
    {
      hide Exec, InStep, Sound;
      RowsAgree(chain, jobs, milestones, active, job);
      var s := Step.Initialize(client, Authority(), job, amount);
      OneRecord(chain, s, job);
      if job in jobs && jobs[job].status != Refunded {
        return Err(Conflict);
      }
      r := Broadcast(FundTransaction(client, Authority(), job, amount), sent);
      if r.Err? { return; }
      jobs := jobs[job := JobRow(Key(client), None, amount, Funded)];
      active := active[job := true];
      JobWritten(old(chain), chain, old(jobs), Some(jobs[job]), milestones, old(active), Some(true), job);
    }

    /** The chain decides whether the escrow is in an allowed status; when it cannot be read, the row does. */
    method Guard(job: JobId, allowed: set<Status>, readable: bool) returns (r: Result<(), ServiceError>)
      ensures r.Ok? <==>
        if readable && job in chain.escrows then chain.escrows[job].status in allowed
        else job in jobs && jobs[job].status in allowed
      ensures r == Err(NotFound) <==> !(readable && job in chain.escrows) && job !in jobs
      ensures r.Err? ==> r.error == NotFound || r.error == BadRequest
    {
      if readable && job in chain.escrows {
        if chain.escrows[job].status !in allowed { return Err(BadRequest); }
      } else {
        if job !in jobs { return Err(NotFound); }
        if jobs[job].status !in allowed { return Err(BadRequest); }
      }
      return Ok(());
    }

    method TopUpJob(job: JobId, client: nat, amount: nat, readable: bool, sent: bool)
      returns (r: Result<(), ServiceError>)
      requires Valid() && job !in milestones
      modifies this
      ensures Valid() && milestones == old(milestones) && active == old(active)
      ensures var s := Step.TopUp(client, job, amount);
        && (r.Ok? <==> sent && Exec(old(chain), s).Ok? && (readable || job in old(jobs)))
        && (r.Ok? ==> Exec(old(chain), s) == Result.Ok(chain))
        && (r.Err? ==> r.error == GuardRefusal(old(chain), old(jobs), job, {Funded, Locked}, readable,
                                               Refusal(old(chain), s, sent)))
      ensures r.Ok? ==>
        jobs == if job !in old(jobs) then old(jobs)
                else old(jobs)[job := old(jobs)[job].(amount := old(jobs)[job].amount + amount)]
      ensures r.Err? ==> Unchanged(old(chain), old(jobs), old(milestones), old(active))
    {
      hide Exec, InStep, Sound;
      RowsAgree(chain, jobs, milestones, active, job);
      var s := Step.TopUp(client, job, amount);
      OneRecord(chain, s, job);
      r := Guard(job, {Funded, Locked}, readable);
      if r.Err? { return; }
      r := Broadcast(TopUpTransaction(client, job, amount), sent);
      if r.Err? { return; }
      jobs := Put(jobs, job, WithMore(jobs, job, amount));
      JobWritten(old(chain), chain, old(jobs), WithMore(old(jobs), job, amount), milestones, old(active), None, job);
    }

    method WithdrawJob(job: JobId, client: nat, readable: bool, sent: bool) returns (r: Result<(), ServiceError>)
      requires Valid() && job !in milestones
      modifies this
      ensures Valid() && milestones == old(milestones)
      ensures var s := Step.Withdraw(client, job);
        && (r.Ok? <==> sent && Exec(old(chain), s).Ok? && (readable || job in old(jobs)))
        && (r.Ok? ==> Exec(old(chain), s) == Result.Ok(chain))
        && (r.Err? ==> r.error == GuardRefusal(old(chain), old(jobs), job, {Funded}, readable,
                                               Refusal(old(chain), s, sent)))
      ensures r.Ok? ==>
        jobs == if job !in old(jobs) then old(jobs) else old(jobs)[job := old(jobs)[job].(status := Refunded)]
      ensures r.Ok? ==> active == old(active)[job := false]
      ensures r.Err? ==> Unchanged(old(chain), old(jobs), old(milestones), old(active))
    {
      hide Exec, InStep, Sound;
      RowsAgree(chain, jobs, milestones, active, job);
      var s := Step.Withdraw(client, job);
      OneRecord(chain, s, job);
      r := Guard(job, {Funded}, readable);
      if r.Err? { return; }
      r := Broadcast(WithdrawTransaction(client, job), sent);
      if r.Err? { return; }
      jobs := Put(jobs, job, WithStatus(jobs, job, Refunded));
      active := active[job := false];
      JobWritten(old(chain), chain, old(jobs), WithStatus(old(jobs), job, Refunded), milestones, old(active),
        Some(false), job);
    }

    /** Without a chain read the row must also name the freelancer, which a confirmation erases. */
    method ReleaseJob(job: JobId, caller: nat, readable: bool, sent: bool) returns (r: Result<(), ServiceError>)
      requires Valid() && job !in milestones
      modifies this
      ensures Valid() && milestones == old(milestones) && active == old(active)
      ensures r.Ok? <==>
        && sent && job in old(chain).escrows
        && Exec(old(chain), Step.Release(caller, old(chain).escrows[job].freelancer, job)).Ok?
        && (readable || (job in old(jobs) && old(jobs)[job].freelancerWallet.Some?))
      ensures r.Ok? ==>
        Exec(old(chain), Step.Release(caller, old(chain).escrows[job].freelancer, job)) == Result.Ok(chain)
      ensures r.Ok? ==>
        jobs == if job !in old(jobs) then old(jobs) else old(jobs)[job := old(jobs)[job].(status := Released)]
      ensures r.Err? ==>
        var freelancer := if job in old(chain).escrows then old(chain).escrows[job].freelancer else DEFAULT_KEY;
        r.error == GuardRefusal(
          old(chain), old(jobs), job, {Locked}, readable,
          if !readable && job in old(jobs) && old(jobs)[job].freelancerWallet.None? then BadRequest
          else Refusal(old(chain), Step.Release(caller, freelancer, job), sent))
      ensures r.Err? ==> Unchanged(old(chain), old(jobs), old(milestones), old(active))
    {
      hide Exec, InStep, Sound;
      RowsAgree(chain, jobs, milestones, active, job);
      if job in chain.escrows {
        var accepted := Step.Release(caller, chain.escrows[job].freelancer, job);
        OneRecord(chain, accepted, job);
      }
      r := Guard(job, {Locked}, readable);
      if r.Err? { return; }
      var freelancer: Address;
      if readable && job in chain.escrows {
        freelancer := chain.escrows[job].freelancer;
      } else {
        if jobs[job].freelancerWallet.None? { return Err(BadRequest); }
        freelancer := jobs[job].freelancerWallet.value;
      }
      r := Broadcast(ReleaseTransaction(caller, freelancer, job), sent);
      if r.Err? { return; }
      jobs := Put(jobs, job, WithStatus(jobs, job, Released));
      JobWritten(old(chain), chain, old(jobs), WithStatus(old(jobs), job, Released), milestones, old(active),
        None, job);
    }

    /** Called on hire.  Returns quietly when there is nothing to lock. */
    method LockFunds(job: JobId, freelancer: Address, readable: bool, sent: bool) returns (r: Result<(), ServiceError>)
      requires Valid() && job !in milestones
      modifies this
      ensures Valid() && milestones == old(milestones) && active == old(active)
      ensures var lockable := authority.Some? && readable && job in old(chain).escrows
        && old(chain).escrows[job].status == Funded;
        if !lockable then
          r.Ok? && Unchanged(old(chain), old(jobs), old(milestones), old(active))
        else
          var s := Step.Lock(authority.value, job, freelancer);
          && (r.Ok? <==> sent && Exec(old(chain), s).Ok?)
          && (r.Ok? <==> sent && old(chain).escrows[job].authority == Key(authority.value))
          && (r.Err? ==> r.error == Refusal(old(chain), s, sent))
          && (r.Ok? ==> Exec(old(chain), s) == Result.Ok(chain))
          && (r.Ok? ==> RecordOf(chain.escrows, job).Some? && chain.escrows[job].status == Locked
                        && chain.escrows[job].freelancer == freelancer)
          && (r.Ok? ==> jobs == old(jobs)[job := JobRow(old(chain).escrows[job].client, Some(freelancer),
                                                        old(chain).escrows[job].amount, Locked)])
      ensures r.Err? ==> Unchanged(old(chain), old(jobs), old(milestones), old(active))
      ensures forall j | j != job :: RecordOf(chain.escrows, j) == RecordOf(old(chain).escrows, j)
    {
      hide Exec, InStep, Sound;
      RowsAgree(chain, jobs, milestones, active, job);
      if authority.None? { return Ok(()); }
      if !readable || job !in chain.escrows { return Ok(()); }
      var onChain := chain.escrows[job];
      if onChain.status != Funded { return Ok(()); }
      var s := Step.Lock(authority.value, job, freelancer);
      LockAcceptedIff(chain, authority.value, job, freelancer);
      r := Broadcast(LockTransaction(authority.value, job, freelancer), sent);
      if r.Err? { return; }
      jobs := jobs[job := JobRow(onChain.client, Some(freelancer), onChain.amount, Locked)];
      JobWritten(old(chain), chain, old(jobs), Some(jobs[job]), milestones, old(active), None, job);
    }

    method RefundFunds(job: JobId, readable: bool, sent: bool) returns (r: Result<(), ServiceError>)
      requires Valid() && job !in milestones
      modifies this
      ensures Valid() && milestones == old(milestones)
      ensures r.Ok? <==>
        && sent && authority.Some? && readable && job in old(chain).escrows
        && Exec(old(chain), Step.Refund(authority.value, old(chain).escrows[job].client, job)).Ok?
      ensures r.Ok? ==>
        && Exec(old(chain), Step.Refund(authority.value, old(chain).escrows[job].client, job)) == Result.Ok(chain)
        && jobs == old(jobs)[job := JobRow(old(chain).escrows[job].client,
                                           if job in old(jobs) then old(jobs)[job].freelancerWallet else None,
                                           0, Refunded)]
        && active == old(active)[job := false]
      ensures r.Err? ==> Unchanged(old(chain), old(jobs), old(milestones), old(active))
      ensures r.Err? ==>
        r.error == if authority.None? then BadRequest
                   else if !readable || job !in old(chain).escrows then NotFound
                   else if !Live(old(chain).escrows[job].status) then BadRequest
                   else Refusal(old(chain), Step.Refund(authority.value, old(chain).escrows[job].client, job), sent)
    {
      hide Exec, InStep, Sound;
      RowsAgree(chain, jobs, milestones, active, job);
      if authority.None? { return Err(BadRequest); }
      if !readable || job !in chain.escrows { return Err(NotFound); }
      var client := chain.escrows[job].client;
      var s := Step.Refund(authority.value, client, job);
      OneRecord(chain, s, job);
      if !Live(chain.escrows[job].status) { return Err(BadRequest); }
      r := Broadcast(RefundTransaction(authority.value, client, job), sent);
      if r.Err? { return; }
      // An upsert: columns not named keep their value in a row that exists already.
      var freelancer := if job in jobs then jobs[job].freelancerWallet else None;
      jobs := jobs[job := JobRow(client, freelancer, 0, Refunded)];
      active := active[job := false];
      JobWritten(old(chain), chain, old(jobs), Some(jobs[job]), milestones, old(active), Some(false), job);
    }

    /** Confirm a client-signed transaction, whatever it was, then copy what the chain says of this job
        into the row.  `signed` is what lands with the call; None is a signature from before.  It is
        `sent` if it gets through, or is found.

        The mirror survives exactly when the chain could be read, this job has an escrow or just got
        one, and no other row was the transaction's real subject.  Otherwise the row reads FUNDED with
        amount 0, which no escrow on a sound chain is, or the other row is left behind. */
    method ConfirmJob(job: JobId, clientWallet: Address, signed: Option<Step>, readable: bool, sent: bool)
      returns (r: Result<(), ServiceError>)
      requires Valid() && job !in milestones
      modifies this
      ensures milestones == old(milestones)
      ensures r.Ok? <==> sent && (signed.None? || Exec(old(chain), signed.value).Ok?)
      ensures r.Ok? ==>
        if signed.None? then chain == old(chain) else Exec(old(chain), signed.value) == Result.Ok(chain)
      ensures r.Ok? ==>
        (Valid() <==> readable && (job in old(chain).escrows || Touched(signed) == Some(job))
                      && !Strays(signed, job, old(jobs), milestones))
      ensures r.Ok? && readable && job in chain.escrows ==>
        jobs == old(jobs)[job := JobRow(clientWallet, None, chain.escrows[job].amount, chain.escrows[job].status)]
      ensures r.Ok? && !(readable && job in chain.escrows) ==>
        jobs == old(jobs)[job := JobRow(clientWallet, None, 0, Funded)]
      // Raised for a funded job, lowered for a refunded one, left alone otherwise.
      ensures r.Ok? ==>
        active == if jobs[job].status == Funded then old(active)[job := true]
                  else if jobs[job].status == Refunded then old(active)[job := false]
                  else old(active)
      ensures r.Err? ==> Unchanged(old(chain), old(jobs), old(milestones), old(active))
      ensures r.Err? ==>
        r.error == if signed.None? then Unreachable else Refusal(old(chain), signed.value, sent)
    {
      hide Exec, InStep, Sound, LandedAs, Strays;
      NothingLanded(chain);
      if !sent { return Err(Unreachable); }
      if signed.Some? {
        r := Execute(signed.value);
        if r.Err? { return; }
      }
      var onChain := if readable then RecordOf(chain.escrows, job) else None;
      JobRecorded(old(chain), signed, chain, jobs, milestones, active, job, clientWallet, readable);
      jobs := jobs[job := JobRowConfirmed(clientWallet, onChain)];
      active := Put(active, job, FlagFor(jobs[job].status));
      return Ok(());
    }

    // -------------------------------------------------------------- milestones

    /** Publish whether any funded or locked milestone remains. */
    method UpdateJobActiveFromMilestones(job: JobId)
      modifies this`active
      ensures active == old(active)[job := SomeLive(milestones, job)]
      ensures active[job] <==>
        exists m :: m in milestones && milestones[m].job == job
                    && (milestones[m].status == Some(Funded) || milestones[m].status == Some(Locked))
    {
      var remaining := set m | m in milestones && milestones[m].job == job && LiveRow(milestones[m]);
      assert forall m :: m in remaining <==> m in milestones && milestones[m].job == job && LiveRow(milestones[m]);
      active := active[job := remaining != {}];
      if remaining != {} {
        var m :| m in remaining;
        assert SomeLive(milestones, job);
      }
    }

    /** A new milestone gets a fresh id, so neither table nor chain knows it yet. */
    method CreateMilestone(id: JobId, job: JobId, amount: nat)
      requires Valid() && id !in milestones && id !in jobs && id !in chain.escrows
      modifies this`milestones
      ensures Valid()
      ensures milestones == old(milestones)[id := MilestoneRow(job, None, None, amount, None)]
    {
      milestones := milestones[id := MilestoneRow(job, None, None, amount, None)];
    }

    /** The amount is the one fixed when the milestone was created. */
    method FundMilestone(id: JobId, client: nat, sent: bool) returns (r: Result<(), ServiceError>)
      requires Valid() && id !in jobs
      modifies this
      ensures Valid() && jobs == old(jobs)
      ensures id in old(milestones) ==>
        var s := Step.Initialize(client, if authority.Some? then Key(authority.value) else DEFAULT_KEY, id,
                                 old(milestones)[id].amount);
        && (r.Ok? <==> sent && Exec(old(chain), s).Ok?)
        && (r.Ok? ==> Exec(old(chain), s) == Result.Ok(chain))
        && (r.Err? ==> r.error == if old(milestones)[id].status.Some? then Conflict else Refusal(old(chain), s, sent))
      ensures id !in old(milestones) ==> r == Err(NotFound)
      ensures r.Ok? ==>
        && id in chain.escrows && chain.escrows[id].client == Key(client)
        && chain.escrows[id].amount == old(milestones)[id].amount
        && chain.escrows[id].authority == (if authority.Some? then Key(authority.value) else DEFAULT_KEY)
        && milestones == old(milestones)[id :=
          old(milestones)[id].(status := Some(Funded), clientWallet := Some(Key(client)))]
        && active == old(active)[old(milestones)[id].job := true]
      ensures r.Err? ==> Unchanged(old(chain), old(jobs), old(milestones), old(active))
    {
      hide Exec, InStep, Sound;
      RowsAgree(chain, jobs, milestones, active, id);
      if id !in milestones { return Err(NotFound); }
      var s := Step.Initialize(client, Authority(), id, milestones[id].amount);
      OneRecord(chain, s, id);
      if milestones[id].status.Some? { return Err(Conflict); }
      r := Broadcast(FundTransaction(client, Authority(), id, milestones[id].amount), sent);
      if r.Err? { return; }
      milestones := milestones[id := milestones[id].(status := Some(Funded), clientWallet := Some(Key(client)))];
      active := active[milestones[id].job := true];
      MilestoneWritten(old(chain), chain, jobs, old(milestones), milestones[id], old(active), active, id);
    }

    method WithdrawMilestone(id: JobId, client: nat, sent: bool) returns (r: Result<(), ServiceError>)
      requires Valid() && id !in jobs
      modifies this
      ensures Valid() && jobs == old(jobs)
      ensures r.Ok? <==> sent && id in old(milestones) && Exec(old(chain), Step.Withdraw(client, id)).Ok?
      ensures r.Ok? ==>
        && Exec(old(chain), Step.Withdraw(client, id)) == Result.Ok(chain)
        && milestones == old(milestones)[id := old(milestones)[id].(status := Some(Refunded))]
        && active == old(active)[milestones[id].job := SomeLive(milestones, milestones[id].job)]
      ensures r.Err? ==> Unchanged(old(chain), old(jobs), old(milestones), old(active))
      ensures r.Err? ==>
        r.error == if id !in old(milestones) then NotFound
                   else if old(milestones)[id].status != Some(Funded) then BadRequest
                   else Refusal(old(chain), Step.Withdraw(client, id), sent)
    {
      hide Exec, InStep, Sound;
      RowsAgree(chain, jobs, milestones, active, id);
      if id !in milestones { return Err(NotFound); }
      var s := Step.Withdraw(client, id);
      OneRecord(chain, s, id);
      if milestones[id].status != Some(Funded) { return Err(BadRequest); }
      r := Broadcast(WithdrawTransaction(client, id), sent);
      if r.Err? { return; }
      milestones := milestones[id := milestones[id].(status := Some(Refunded))];
      UpdateJobActiveFromMilestones(milestones[id].job);
      MilestoneWritten(old(chain), chain, jobs, old(milestones), milestones[id], old(active), active, id);
    }

    method ReleaseMilestone(id: JobId, caller: nat, sent: bool) returns (r: Result<(), ServiceError>)
      requires Valid() && id !in jobs
      modifies this
      ensures Valid() && jobs == old(jobs) && active == old(active)
      ensures r.Ok? <==>
        && sent && id in old(milestones) && old(milestones)[id].freelancerWallet.Some? && id in old(chain).escrows
        && Exec(old(chain), Step.Release(caller, old(chain).escrows[id].freelancer, id)).Ok?
      ensures r.Ok? ==>
        && Exec(old(chain), Step.Release(caller, old(chain).escrows[id].freelancer, id)) == Result.Ok(chain)
        && milestones == old(milestones)[id := old(milestones)[id].(status := Some(Released))]
      ensures r.Err? ==> Unchanged(old(chain), old(jobs), old(milestones), old(active))
      ensures r.Err? ==>
        r.error == if id !in old(milestones) then NotFound
                   else if old(milestones)[id].status != Some(Locked) || old(milestones)[id].freelancerWallet.None?
                   then BadRequest
                   else Refusal(old(chain), Step.Release(caller, old(milestones)[id].freelancerWallet.value, id), sent)
    {
      hide Exec, InStep, Sound;
      RowsAgree(chain, jobs, milestones, active, id);
      if id !in milestones { return Err(NotFound); }
      if id in chain.escrows {
        OneRecord(chain, Step.Release(caller, chain.escrows[id].freelancer, id), id);
      }
      if milestones[id].status != Some(Locked) { return Err(BadRequest); }
      if milestones[id].freelancerWallet.None? { return Err(BadRequest); }
      r := Broadcast(ReleaseTransaction(caller, milestones[id].freelancerWallet.value, id), sent);
      if r.Err? { return; }
      milestones := milestones[id := milestones[id].(status := Some(Released))];
      MilestoneWritten(old(chain), chain, jobs, old(milestones), milestones[id], old(active), active, id);
    }

    /** The client's wallet is taken from the row, where a confirmation puts whatever it was given: with
        another wallet there, this refund is lost to the service while the escrow is live. */
    method RefundMilestone(id: JobId, sent: bool) returns (r: Result<(), ServiceError>)
      requires Valid() && id !in jobs
      modifies this
      ensures Valid() && jobs == old(jobs)
      ensures r.Ok? <==>
        && sent && authority.Some? && id in old(milestones) && LiveRow(old(milestones)[id]) && id in old(chain).escrows
        && old(chain).escrows[id].authority == Key(authority.value)
        && old(milestones)[id].clientWallet == Some(old(chain).escrows[id].client)
      ensures r.Ok? ==>
        && Exec(old(chain), Step.Refund(authority.value, old(chain).escrows[id].client, id)) == Result.Ok(chain)
        && milestones == old(milestones)[id := old(milestones)[id].(status := Some(Refunded))]
        && active == old(active)[milestones[id].job := SomeLive(milestones, milestones[id].job)]
      ensures r.Err? ==> Unchanged(old(chain), old(jobs), old(milestones), old(active))
      ensures r.Err? ==>
        r.error == if authority.None? then BadRequest
                   else if id !in old(milestones) then NotFound
                   else if !LiveRow(old(milestones)[id]) || old(milestones)[id].clientWallet.None? then BadRequest
                   else Refusal(old(chain),
                                Step.Refund(authority.value, old(milestones)[id].clientWallet.value, id), sent)
    {
      hide Exec, InStep, Sound;
      RowsAgree(chain, jobs, milestones, active, id);
      if authority.None? { return Err(BadRequest); }
      if id !in milestones { return Err(NotFound); }
      if milestones[id].clientWallet.Some? {
        RefundAcceptedIff(chain, authority.value, milestones[id].clientWallet.value, id);
      }
      if !LiveRow(milestones[id]) { return Err(BadRequest); }
      if milestones[id].clientWallet.None? { return Err(BadRequest); }
      r := Broadcast(RefundTransaction(authority.value, milestones[id].clientWallet.value, id), sent);
      if r.Err? { return; }
      milestones := milestones[id := milestones[id].(status := Some(Refunded))];
      UpdateJobActiveFromMilestones(milestones[id].job);
      MilestoneWritten(old(chain), chain, jobs, old(milestones), milestones[id], old(active), active, id);
    }

    /** The list of accounts built for a milestone top-up is refused whatever the amount, so the row
        is never written. */
    method TopUpMilestone(id: JobId, client: nat, amount: nat, sent: bool) returns (r: Result<(), ServiceError>)
      requires Valid()
      modifies this
      ensures r.Err? && Unchanged(old(chain), old(jobs), old(milestones), old(active))
      ensures r == Err(NotFound) <==> id !in milestones
      ensures r == Err(BadRequest) <==> id in milestones && milestones[id].status != Some(Funded)
      ensures id in milestones && milestones[id].status == Some(Funded) ==>
        r == Err(if sent then Rejected(AccountsRefused) else Unreachable)
    {
      if id !in milestones { return Err(NotFound); }
      if milestones[id].status != Some(Funded) { return Err(BadRequest); }
      r := Broadcast(MilestoneTopUpTransaction(client, id, amount), sent);
      assert r.Err?; // so the write of the new amount, which comes next in the service, is never reached
    }

    /** What a confirmation writes and publishes, given what it read. */
    method RecordMilestone(id: JobId, clientWallet: Address, onChain: Option<JobEscrow>)
      requires id in milestones
      modifies this`milestones, this`active
      ensures milestones == old(milestones)[id := RowConfirmed(old(milestones)[id], clientWallet, onChain)]
      ensures active == FlagsAfter(old(active), milestones, id)
    {
      milestones := milestones[id := RowConfirmed(milestones[id], clientWallet, onChain)];
      if milestones[id].status == Some(Funded) {
        active := active[milestones[id].job := true];
      } else if milestones[id].status == Some(Refunded) {
        UpdateJobActiveFromMilestones(milestones[id].job);
      }
    }

    /** Like ConfirmJob, except that without a chain read the row keeps its amount.  The transaction
        has landed by the time a missing row is noticed. */
    method ConfirmMilestone(id: JobId, clientWallet: Address, signed: Option<Step>, readable: bool, sent: bool)
      returns (r: Result<(), ServiceError>)
      requires Valid() && id !in jobs
      modifies this
      ensures jobs == old(jobs)
      ensures var landed := sent && (signed.None? || Exec(old(chain), signed.value).Ok?);
        && (r.Ok? <==> landed && id in old(milestones))
        && (if landed && signed.Some? then Exec(old(chain), signed.value) == Result.Ok(chain) else chain == old(chain))
        && (r.Err? ==> milestones == old(milestones) && active == old(active))
        && (r.Err? ==> (Valid() <==> !landed || !Strays(signed, id, jobs, milestones)))
      ensures r.Ok? ==>
        (Valid() <==> ConfirmsRightly(old(milestones)[id], id, signed, readable)
                      && !Strays(signed, id, jobs, old(milestones)))
      ensures r.Ok? && readable && id in chain.escrows ==>
        milestones == old(milestones)[id := old(milestones)[id].(
          clientWallet := Some(clientWallet), amount := chain.escrows[id].amount,
          status := Some(chain.escrows[id].status))]
      ensures r.Ok? && !(readable && id in chain.escrows) ==>
        milestones == old(milestones)[id :=
          old(milestones)[id].(clientWallet := Some(clientWallet), status := Some(Funded))]
      // Raised for a funded milestone's job; for a refunded one, whether a live milestone remains.
      ensures r.Ok? ==>
        active == if milestones[id].status == Some(Funded) then old(active)[milestones[id].job := true]
                  else if milestones[id].status == Some(Refunded) then
                    old(active)[milestones[id].job := SomeLive(milestones, milestones[id].job)]
                  else old(active)
      ensures r.Err? ==>
        r.error == if sent && (signed.None? || Exec(old(chain), signed.value).Ok?) then NotFound
                   else if signed.None? then Unreachable
                   else Refusal(old(chain), signed.value, sent)
    {
      hide Exec, InStep, Sound, LandedAs, ConfirmsRightly, Strays;
      NothingLanded(chain);
      if !sent { return Err(Unreachable); }
      if signed.Some? {
        r := Execute(signed.value);
        if r.Err? { return; }
      }
      if id !in milestones {
        NothingConfirmed(old(chain), signed, chain, jobs, milestones, active, id);
        return Err(NotFound);
      }
      var onChain := if readable then RecordOf(chain.escrows, id) else None;
      MilestoneRecorded(old(chain), signed, chain, jobs, milestones, active, id, clientWallet, readable);
      RecordMilestone(id, clientWallet, onChain);
      return Ok(());
    }

    method LockMilestone(id: JobId, freelancer: Address, sent: bool) returns (r: Result<(), ServiceError>)
      requires Valid() && id !in jobs
      modifies this
      ensures Valid() && jobs == old(jobs) && active == old(active)
      ensures var lockable := authority.Some? && id in old(milestones) && old(milestones)[id].status == Some(Funded);
        if !lockable then
          r.Ok? && Unchanged(old(chain), old(jobs), old(milestones), old(active))
        else
          var s := Step.Lock(authority.value, id, freelancer);
          && (r.Ok? <==> sent && Exec(old(chain), s).Ok?)
          && (r.Ok? <==> sent && id in old(chain).escrows && old(chain).escrows[id].authority == Key(authority.value))
          && (r.Err? ==> r.error == Refusal(old(chain), s, sent))
          && (r.Ok? ==> Exec(old(chain), s) == Result.Ok(chain))
          && (r.Ok? ==> RecordOf(chain.escrows, id).Some? && chain.escrows[id].status == Locked
                        && chain.escrows[id].freelancer == freelancer)
          && (r.Ok? ==> milestones == old(milestones)[id := old(milestones)[id].(
                          status := Some(Locked), freelancerWallet := Some(freelancer))])
      ensures r.Err? ==> Unchanged(old(chain), old(jobs), old(milestones), old(active))
      ensures forall j | j != id :: RecordOf(chain.escrows, j) == RecordOf(old(chain).escrows, j)
    {
      hide Exec, InStep, Sound;
      RowsAgree(chain, jobs, milestones, active, id);
      if authority.None? { return Ok(()); }
      if id !in milestones { return Ok(()); }
      if milestones[id].status != Some(Funded) { return Ok(()); }
      LockAcceptedIff(chain, authority.value, id, freelancer);
      var s := Step.Lock(authority.value, id, freelancer);
      r := Broadcast(LockTransaction(authority.value, id, freelancer), sent);
      if r.Err? { return; }
      milestones := milestones[id := milestones[id].(status := Some(Locked), freelancerWallet := Some(freelancer))];
      MilestoneWritten(old(chain), chain, jobs, old(milestones), milestones[id], old(active), active, id);
    }

    // -------------------------------------------------------------- lock on hire

    /** One turn of the loop: an error is noted, not passed on. */
    method TryLock(m: JobId, wallet: Address, sent: set<JobId>, failedSoFar: set<JobId>) returns (failed: set<JobId>)
      requires Valid() && m in milestones && milestones[m].status == Some(Funded) && m !in failedSoFar
      modifies this
      ensures Valid() && jobs == old(jobs) && active == old(active)
      ensures m in milestones && milestones == old(milestones)[m := milestones[m]]
      ensures failed == failedSoFar || failed == failedSoFar + {m}
      ensures forall j | j != m :: RecordOf(chain.escrows, j) == RecordOf(old(chain).escrows, j)
      ensures authority.None? ==>
        Unchanged(old(chain), old(jobs), old(milestones), old(active)) && failed == failedSoFar
      ensures authority.Some? ==>
        LockedOrFailed(authority.value, old(chain), old(milestones), chain, milestones, m, wallet, sent, failed)
    {
      hide Exec, InStep, Sound;
      failed := failedSoFar;
      RowsAgree(chain, jobs, milestones, active, m);
      var locked := LockMilestone(m, wallet, m in sent);
      if locked.Err? {
        failed := failed + {m};
      }
    }

    method LockFundedMilestones(job: JobId, wallet: Address, sent: set<JobId>) returns (failed: set<JobId>)
      requires Valid() && job !in milestones
      modifies this
      ensures Valid() && jobs == old(jobs) && active == old(active) && milestones.Keys == old(milestones).Keys
      ensures authority.None? ==> Unchanged(old(chain), old(jobs), old(milestones), old(active)) && failed == {}
      ensures authority.Some? ==> forall m | FundedFor(old(milestones), m, job) ::
        LockedOrFailed(authority.value, old(chain), old(milestones), chain, milestones, m, wallet, sent, failed)
      ensures forall m | m in failed :: FundedFor(old(milestones), m, job)
      ensures forall m | m in old(milestones) && !FundedFor(old(milestones), m, job) ::
        milestones[m] == old(milestones)[m]
      ensures forall j | !FundedFor(old(milestones), j, job) ::
        RecordOf(chain.escrows, j) == RecordOf(old(chain).escrows, j)
      ensures (forall m :: !FundedFor(old(milestones), m, job)) ==>
        failed == {} && Unchanged(old(chain), old(jobs), old(milestones), old(active))
    {
      hide Exec, InStep, Sound, LockedOrFailed, FundedOf;
      failed := {};
      var funded := FundedOf(milestones, job);
      forall m | m in funded ensures m in chain.escrows {
        RowsAgree(chain, jobs, milestones, active, m);
      }
      var todo := funded;
      while todo != {}
        invariant todo <= funded && failed <= funded - todo
        invariant Valid() && jobs == old(jobs) && active == old(active) && milestones.Keys == old(milestones).Keys
        invariant authority.None? || todo == funded
          ==> chain == old(chain) && milestones == old(milestones) && failed == {}
        invariant authority.Some? ==> forall m | m in funded - todo ::
          LockedOrFailed(authority.value, old(chain), old(milestones), chain, milestones, m, wallet, sent, failed)
        invariant forall m | m in old(milestones) && m !in funded - todo :: milestones[m] == old(milestones)[m]
        invariant forall j | j !in funded - todo :: RecordOf(chain.escrows, j) == RecordOf(old(chain).escrows, j)
      {
        var m :| m in todo;
        assert RecordOf(chain.escrows, m) == RecordOf(old(chain).escrows, m);
        ghost var rows, c, failedBefore := milestones, chain, failed;
        failed := TryLock(m, wallet, sent, failed);
        if authority.Some? {
          OneMoreOutcome(authority.value, old(chain), old(milestones), c, rows, chain, milestones,
                         funded - todo, m, wallet, sent, failedBefore, failed);
        }
        todo := todo - {m};
      }
    }

    /** PROPOSAL_HIRED: lock the job escrow, then each funded milestone of the job; one milestone's
        failure does not stop the others.  `sent` are the ids whose transaction gets through. */
    method HandleProposalHired(job: JobId, wallet: Option<Address>, readable: bool, sent: set<JobId>)
      returns (r: Result<(), ServiceError>, failed: set<JobId>)
      requires Valid() && job !in milestones
      modifies this
      ensures Valid() && active == old(active) && milestones.Keys == old(milestones).Keys
      ensures wallet.None? || authority.None? ==>
        r.Ok? && Unchanged(old(chain), old(jobs), old(milestones), old(active))
      // The job's own lock comes first: when it fails, no milestone is even tried.
      ensures r.Err? <==> wallet.Some? && JobLockFails(authority, old(chain), job, readable, sent)
      ensures wallet.Some? ==> forall m | FundedFor(old(milestones), m, job) ::
        LockedTo(chain, milestones, m, wallet.value) <==> MilestoneLocks(authority, old(chain), job, m, readable, sent)
      ensures r.Err? ==> failed == {} && Unchanged(old(chain), old(jobs), old(milestones), old(active))
      ensures r.Ok? && wallet.Some? && authority.Some? ==>
        forall m | FundedFor(old(milestones), m, job) ::
          LockedOrFailed(authority.value, old(chain), old(milestones), chain, milestones, m, wallet.value, sent, failed)
      ensures forall m | m in failed :: FundedFor(old(milestones), m, job)
      ensures r.Ok? ==>
        if wallet.Some? && authority.Some? && readable && job in old(chain).escrows
          && old(chain).escrows[job].status == Funded
        then
          && job in chain.escrows && chain.escrows[job].status == Locked
          && chain.escrows[job].freelancer == wallet.value
          && jobs == old(jobs)[job :=
            JobRow(old(chain).escrows[job].client, wallet, old(chain).escrows[job].amount, Locked)]
        else jobs == old(jobs) && RecordOf(chain.escrows, job) == RecordOf(old(chain).escrows, job)
      // Nothing else moves: no row or escrow of another job, none that was not funded.
      ensures forall m | m in old(milestones)
        && (old(milestones)[m].job != job || old(milestones)[m].status != Some(Funded)) ::
        milestones[m] == old(milestones)[m] && RecordOf(chain.escrows, m) == RecordOf(old(chain).escrows, m)
      ensures forall j | j in old(jobs) && j != job :: j in jobs && jobs[j] == old(jobs)[j]
      ensures forall m | m in old(milestones) && !FundedFor(old(milestones), m, job) ::
        milestones[m] == old(milestones)[m]
      ensures forall j | j != job && !FundedFor(old(milestones), j, job) ::
        RecordOf(chain.escrows, j) == RecordOf(old(chain).escrows, j)
      // The event is delivered at least once: after full success a second delivery changes nothing.
      ensures r.Ok? && failed == {} && wallet.Some? && authority.Some? && readable
        ==> NothingToLock(chain, milestones, job)
      ensures NothingToLock(old(chain), old(milestones), job) ==>
        r.Ok? && failed == {} && Unchanged(old(chain), old(jobs), old(milestones), old(active))
    {
      hide Exec, InStep, Sound;
      if wallet.None? { return Ok(()), {}; }
      forall m | FundedFor(milestones, m, job) ensures m in chain.escrows && m != job {
        RowsAgree(chain, jobs, milestones, active, m);
      }
      r := LockFunds(job, wallet.value, readable, job in sent);
      if r.Err? { return r, {}; }
      ghost var c := chain;
      failed := LockFundedMilestones(job, wallet.value, sent);
      if authority.Some? {
        forall m | FundedFor(old(milestones), m, job)
          ensures LockedOrFailed(authority.value, old(chain), old(milestones), chain, milestones, m, wallet.value,
            sent, failed)
        {
          OutcomeOf(authority.value, old(chain), c, old(milestones), old(milestones), chain, milestones,
                    m, wallet.value, sent, failed);
        }
      }
      assert !FundedFor(old(milestones), job, job);
      assert RecordOf(chain.escrows, job) == RecordOf(c.escrows, job);
      forall m | authority.Some? && failed == {} ensures !FundedFor(milestones, m, job) {
        if FundedFor(old(milestones), m, job) {
          assert LockedOrFailed(authority.value, old(chain), old(milestones), chain, milestones, m, wallet.value, sent,
            failed);
        }
      }
    }
  }

  /** What a deposit through the service is for: with an authority configured, a hire can lock it, and a
      dispute refund it to the client, by that very authority. */
  method FundedForHire(
    service: Service, job: JobId, client: nat, amount: nat, funding: bool, freelancer: Address, sent: bool, hired: bool)
    returns (funded: Result<(), ServiceError>, r: Result<(), ServiceError>)
    requires service.Valid() && service.authority.Some? && job !in service.milestones
    modifies service
    ensures funded.Ok? ==> (r.Ok? <==> sent)
    ensures funded.Ok? && sent ==>
      && job in service.chain.escrows && service.chain.escrows[job].client == Key(client)
      && service.chain.escrows[job].status == (if hired then Locked else Refunded)
      && (hired ==> service.chain.escrows[job].freelancer == freelancer)
  {
    hide Exec, InStep, Sound;
    r := Err(Unreachable);
    funded := service.FundJob(job, client, amount, funding);
    if funded.Ok? {
      var authority := service.authority.value;
      RowsAgree(service.chain, service.jobs, service.milestones, service.active, job);
      if hired {
        OneRecord(service.chain, Step.Lock(authority, job, freelancer), job);
        r := service.LockFunds(job, freelancer, true, sent);
      } else {
        RefundAcceptedIff(service.chain, authority, Key(client), job);
        OneRecord(service.chain, Step.Refund(authority, Key(client), job), job);
        r := service.RefundFunds(job, true, sent);
      }
    }
  }
}
