/** Sums over the journal of accepted instructions, and what one instruction does to them. */
module Journal {
  import opened Common
  import opened Ledger

  /** The lamports of some moves, each counted as `weight` says. */
  function SumBy(moves: seq<Move>, weight: Move -> nat): nat
    decreases |moves|
  {
    if moves == [] then 0 else weight(moves[0]) + SumBy(moves[1..], weight)
  }

  function Tally(journal: seq<Entry>, weight: Move -> nat): nat {
    if journal == [] then 0
    else Tally(journal[..|journal| - 1], weight) + SumBy(journal[|journal| - 1].moves, weight)
  }

  function Count(journal: seq<Entry>, counted: Step -> bool): nat {
    if journal == [] then 0
    else
      Count(journal[..|journal| - 1], counted)
      + if counted(journal[|journal| - 1].step) then 1 else 0
  }

  /** The principal of every accepted deposit of a job, oldest first. */
  function Deposits(journal: seq<Entry>, job: JobId): seq<nat> {
    if journal == [] then []
    else
      Deposits(journal[..|journal| - 1], job) +
      match journal[|journal| - 1].step
      case Initialize(_, _, j, amount) => if j == job then [amount] else []
      case TopUp(_, j, amount) => if j == job then [amount] else []
      case _ => []
  }

  /** One fortieth of each deposit, rounded down deposit by deposit. */
  function DepositFees(deposits: seq<nat>): nat {
    if deposits == [] then 0
    else DepositFees(deposits[..|deposits| - 1]) + deposits[|deposits| - 1] / 40
  }

  // ---------------------------------------------------------------- what to count

  function CreditTo(a: Address): Move -> nat {
    (m: Move) => if m.target == a then m.lamports else 0
  }

  function DebitFrom(a: Address): Move -> nat {
    (m: Move) => if m.source == a then m.lamports else 0
  }

  function OfJob(job: JobId, kind: Kind): Move -> nat {
    (m: Move) => if m.job == Some(job) && m.kind == kind then m.lamports else 0
  }

  /** Lamports a job took out of wallets: principal and fees, whichever way the fee was booked. */
  function ChargedFor(job: JobId): Move -> nat {
    (m: Move) => if m.job == Some(job) && m.source.Key? then m.lamports else 0
  }

  function OfKind(kind: Kind): Move -> nat {
    (m: Move) => if m.kind == kind then m.lamports else 0
  }

  /** Lamports sent to an address by anything but the program's own booking: a plain system
      transfer, or the payout of a job whose freelancer key was that address. */
  function StrayTo(a: Address): Move -> nat {
    (m: Move) => if m.target == a && (m.kind == Outside || m.kind == Payout) then m.lamports else 0
  }

  predicate IsInitialize(s: Step, job: JobId) { s.Initialize? && s.job == job }
  predicate IsLock(s: Step, job: JobId) { s.Lock? && s.job == job }
  predicate IsClosing(s: Step, job: JobId) { (s.Withdraw? || s.Release? || s.Refund?) && s.job == job }

  function Initializes(job: JobId): Step -> bool { (s: Step) => IsInitialize(s, job) }
  function Locks(job: JobId): Step -> bool { (s: Step) => IsLock(s, job) }
  function Closes(job: JobId): Step -> bool { (s: Step) => IsClosing(s, job) }

  // ---------------------------------------------------------------- one more entry

  lemma SumByShort(moves: seq<Move>, weight: Move -> nat)
    ensures |moves| == 1 ==> SumBy(moves, weight) == weight(moves[0])
    ensures |moves| == 2 ==> SumBy(moves, weight) == weight(moves[0]) + weight(moves[1])
  {
    if |moves| == 2 {
      assert moves[1..] == [moves[1]];
    }
  }

  lemma TallyAppend(journal: seq<Entry>, entry: Entry, weight: Move -> nat)
    ensures Tally(journal + [entry], weight) == Tally(journal, weight) + SumBy(entry.moves, weight)
  {
    assert (journal + [entry])[..|journal|] == journal;
  }

  lemma CountAppend(journal: seq<Entry>, entry: Entry, counted: Step -> bool)
    ensures Count(journal + [entry], counted) == Count(journal, counted) + if counted(entry.step) then 1 else 0
  {
    assert (journal + [entry])[..|journal|] == journal;
  }

  lemma DepositsAppend(journal: seq<Entry>, entry: Entry, job: JobId)
    ensures Deposits(journal + [entry], job) == Deposits(journal, job) +
      match entry.step
      case Initialize(_, _, j, amount) => if j == job then [amount] else []
      case TopUp(_, j, amount) => if j == job then [amount] else []
      case _ => []
  {
    assert (journal + [entry])[..|journal|] == journal;
  }

  lemma DepositTotals(deposits: seq<nat>, amount: nat)
    ensures Sum(deposits + [amount]) == Sum(deposits) + amount
    ensures DepositFees(deposits + [amount]) == DepositFees(deposits) + amount / 40
  {
    assert (deposits + [amount])[..|deposits|] == deposits;
  }

  // ---------------------------------------------------------------- transfers

  /** 2.5% in basis points is one fortieth, rounded down. */
  lemma FeeIsFortieth(amount: nat)
    ensures FeeOf(amount).Ok? <==> amount * 250 <= U64_MAX
    ensures FeeOf(amount).Ok? ==> FeeOf(amount).value == amount / 40
  {
    assert amount == 40 * (amount / 40) + amount % 40;
    assert amount * 250 == 10_000 * (amount / 40) + 250 * (amount % 40);
  }

  lemma BalanceAtMostTotal(b: Balances, a: Address)
    ensures Balance(b, a) <= Total(b)
  {
    if a in b {
      TotalPick(b, a);
    }
  }

  /** A transfer creates and destroys nothing, and touches its two ends only. */
  lemma TransferBooks(b: Balances, source: Address, target: Address, lamports: nat)
    requires Transfer(b, source, target, lamports).Ok?
    ensures var b' := Transfer(b, source, target, lamports).value;
      && Total(b') == Total(b)
      && forall a :: Balance(b', a) + (if a == source then lamports else 0)
                     == Balance(b, a) + (if a == target then lamports else 0)
  {
    var debited := b[source := Balance(b, source) - lamports];
    TotalUpdate(b, source, Balance(b, source) - lamports);
    TotalUpdate(debited, target, Balance(debited, target) + lamports);
  }

  /** While the supply fits in a u64, only an overdrawn source can make a transfer fail. */
  lemma TransferSucceedsIff(b: Balances, source: Address, target: Address, lamports: nat)
    requires Total(b) <= U64_MAX
    ensures Transfer(b, source, target, lamports).Ok? <==> lamports <= Balance(b, source)
  {
    if lamports <= Balance(b, source) {
      var debited := b[source := Balance(b, source) - lamports];
      TotalUpdate(b, source, Balance(b, source) - lamports);
      BalanceAtMostTotal(debited, target);
    }
  }

  lemma {:induction false} PayAllBooks(b: Balances, moves: seq<Move>, a: Address)
    requires PayAll(b, moves).Ok?
    ensures Total(PayAll(b, moves).value) == Total(b)
    ensures Balance(PayAll(b, moves).value, a) + SumBy(moves, DebitFrom(a))
            == Balance(b, a) + SumBy(moves, CreditTo(a))
    decreases |moves|
  {
    if moves != [] {
      var m := moves[0];
      TransferBooks(b, m.source, m.target, m.lamports);
      PayAllBooks(Transfer(b, m.source, m.target, m.lamports).value, moves[1..], a);
    }
  }

  lemma PayOne(b: Balances, m: Move)
    ensures PayAll(b, [m]) == Transfer(b, m.source, m.target, m.lamports)
  {
    assert [m][1..] == [];
  }

  lemma PayTwo(b: Balances, m: Move, n: Move)
    ensures PayAll(b, [m, n]) ==
      match Transfer(b, m.source, m.target, m.lamports) {
        case Err(e) => Err(e)
        case Ok(paid) => Transfer(paid, n.source, n.target, n.lamports)
      }
  {
    assert [m, n][1..] == [n];
    if Transfer(b, m.source, m.target, m.lamports).Ok? {
      PayOne(Transfer(b, m.source, m.target, m.lamports).value, n);
    }
  }
}
