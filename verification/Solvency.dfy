/** Where the lamports are after any run of the escrow program, and which instructions still work. */
module Solvency {
  import opened Common
  import opened Ledger
  import opened Journal
  import opened JobBooks

  // ---------------------------------------------------------------- double entry

  lemma {:induction false} StepBooks(t: Trail, s: Step, a: Address)
    ensures Total(Advance(t, s).chain.balances) == Total(t.chain.balances)
    ensures Balance(Advance(t, s).chain.balances, a) + Tally(Advance(t, s).journal, DebitFrom(a))
              + Tally(t.journal, CreditTo(a))
            == Balance(t.chain.balances, a) + Tally(Advance(t, s).journal, CreditTo(a))
              + Tally(t.journal, DebitFrom(a))
  {
    if Exec(t.chain, s).Ok? {
      ExecParts(t.chain, s);
      var moves := MovesOf(t.chain, s);
      PayAllBooks(t.chain.balances, moves, a);
      TallyAppend(t.journal, Entry(s, moves), DebitFrom(a));
      TallyAppend(t.journal, Entry(s, moves), CreditTo(a));
    }
  }

  /** In every interleaving of instructions over any number of jobs, lamports are neither made nor
      lost, and every address holds what it had plus all it received less all it paid. */
  lemma {:induction false} Conservation(start: Trail, steps: seq<Step>, a: Address)
    requires Genesis(start)
    ensures var end := Run(start, steps);
      && Total(end.chain.balances) == Total(start.chain.balances)
      && Balance(end.chain.balances, a) + Tally(end.journal, DebitFrom(a))
         == Balance(start.chain.balances, a) + Tally(end.journal, CreditTo(a))
  {
    if steps != [] {
      Conservation(start, steps[..|steps| - 1], a);
      StepBooks(Run(start, steps[..|steps| - 1]), steps[|steps| - 1], a);
    }
  }

  // ---------------------------------------------------------------- solvency

  /** What the program owes out of a job's vault. */
  function Owed(c: Chain, job: JobId): nat {
    if job in c.escrows then c.escrows[job].amount + c.escrows[job].platformFee else 0
  }

  /** Clients signed, so they are keys; a job is recorded under its own id; no deferred fee is left
      once a job is locked. */
  ghost predicate WellKeyed(c: Chain) {
    forall j | j in c.escrows ::
      && c.escrows[j].client.Key?
      && c.escrows[j].job == j
      && (c.escrows[j].status == Locked ==> c.escrows[j].platformFee == 0)
  }

  lemma AllSums(moves: seq<Move>, a: Address)
    requires |moves| <= 2
    ensures forall weight | weight in {CreditTo(a), DebitFrom(a), StrayTo(a), OfKind(Fee), OfKind(FeeWithdrawal)} ::
      SumBy(moves, weight) ==
      (if |moves| > 0 then weight(moves[0]) else 0) + (if |moves| > 1 then weight(moves[1]) else 0)
  {
    SumByShort(moves, CreditTo(a));
    SumByShort(moves, DebitFrom(a));
    SumByShort(moves, StrayTo(a));
    SumByShort(moves, OfKind(Fee));
    SumByShort(moves, OfKind(FeeWithdrawal));
  }

  lemma HandleWellKeyed(c: Chain, s: Step)
    requires WellKeyed(c) && Handle(c, s).Ok? && Handle(c, s).value.escrows.Ok?
    ensures WellKeyed(Chain(c.balances, Handle(c, s).value.escrows.value))
  {
  }

  /** One instruction's moves against one vault: what is owed changes by exactly what the vault
      receives less what it pays, stray lamports apart. */
  ghost predicate VaultKept(c: Chain, s: Step, job: JobId)
    requires Handle(c, s).Ok? && Handle(c, s).value.escrows.Ok?
  {
    var moves := Handle(c, s).value.moves;
    Owed(c, job) + SumBy(moves, CreditTo(VaultOf(job)))
    == Owed(Chain(c.balances, Handle(c, s).value.escrows.value), job)
       + SumBy(moves, DebitFrom(VaultOf(job))) + SumBy(moves, StrayTo(VaultOf(job)))
  }

  lemma HandleVaultDeposit(c: Chain, s: Step, job: JobId)
    requires WellKeyed(c) && Handle(c, s).Ok? && Handle(c, s).value.escrows.Ok?
    requires s.Initialize? || s.TopUp?
    ensures VaultKept(c, s, job)
  {
    AllSums(Handle(c, s).value.moves, VaultOf(job));
  }

  lemma HandleVaultRelease(c: Chain, s: Step, job: JobId)
    requires WellKeyed(c) && Handle(c, s).Ok? && Handle(c, s).value.escrows.Ok?
    requires s.Release?
    ensures VaultKept(c, s, job)
  {
    FeeIsFortieth(c.escrows[s.job].amount);
    AllSums(Handle(c, s).value.moves, VaultOf(job));
  }

  lemma HandleVaultRest(c: Chain, s: Step, job: JobId)
    requires WellKeyed(c) && Handle(c, s).Ok? && Handle(c, s).value.escrows.Ok?
    requires !s.Initialize? && !s.TopUp? && !s.Release?
    ensures VaultKept(c, s, job)
  {
    AllSums(Handle(c, s).value.moves, VaultOf(job));
  }

  lemma HandleVault(c: Chain, s: Step, job: JobId)
    requires WellKeyed(c) && Handle(c, s).Ok? && Handle(c, s).value.escrows.Ok?
    ensures VaultKept(c, s, job)
  {
    match s
    case Initialize(_, _, _, _) => HandleVaultDeposit(c, s, job);
    case TopUp(_, _, _) => HandleVaultDeposit(c, s, job);
    case Release(_, _, _) => HandleVaultRelease(c, s, job);
    case _ => HandleVaultRest(c, s, job);
  }

  lemma HandleFeeVault(c: Chain, s: Step)
    requires WellKeyed(c) && Handle(c, s).Ok?
    ensures var moves := Handle(c, s).value.moves;
      && SumBy(moves, CreditTo(FeeVault)) == SumBy(moves, OfKind(Fee)) + SumBy(moves, StrayTo(FeeVault))
      && SumBy(moves, DebitFrom(FeeVault)) == SumBy(moves, OfKind(FeeWithdrawal))
  {
    hide FeeOf, CheckedAdd, SumBy;
    AllSums(Handle(c, s).value.moves, FeeVault);
  }

  /** The vault of every job, and the fee vault, to the lamport. */
  ghost predicate Solvent(start: Trail, t: Trail, job: JobId) {
    && WellKeyed(t.chain)
    && Balance(t.chain.balances, VaultOf(job))
       == Owed(t.chain, job) + Balance(start.chain.balances, VaultOf(job)) + Tally(t.journal, StrayTo(VaultOf(job)))
    && Balance(t.chain.balances, FeeVault) + Tally(t.journal, OfKind(FeeWithdrawal))
       == Balance(start.chain.balances, FeeVault) + Tally(t.journal, OfKind(Fee)) + Tally(t.journal, StrayTo(FeeVault))
  }

  lemma SolventStep(start: Trail, t: Trail, s: Step, job: JobId)
    requires Solvent(start, t, job)
    ensures Solvent(start, Advance(t, s), job)
  {
    if Exec(t.chain, s).Ok? {
      ExecParts(t.chain, s);
      var moves := MovesOf(t.chain, s);
      var entry := Entry(s, moves);
      HandleWellKeyed(t.chain, s);
      HandleVault(t.chain, s, job);
      HandleFeeVault(t.chain, s);
      PayAllBooks(t.chain.balances, moves, VaultOf(job));
      PayAllBooks(t.chain.balances, moves, FeeVault);
      TallyAppend(t.journal, entry, StrayTo(VaultOf(job)));
      TallyAppend(t.journal, entry, StrayTo(FeeVault));
      TallyAppend(t.journal, entry, OfKind(Fee));
      TallyAppend(t.journal, entry, OfKind(FeeWithdrawal));
    }
  }

  /** Solvency after any run: a vault holds what its job is owed, plus what it held at genesis, plus
      stray lamports, exactly.  The fee vault holds all fees collected less all withdrawn, likewise.
      No assumption is made about the freelancer key: a payout to a vault is a stray. */
  lemma {:induction false} AlwaysSolvent(start: Trail, steps: seq<Step>, job: JobId)
    requires Genesis(start)
    ensures Solvent(start, Run(start, steps), job)
  {
    if steps != [] {
      AlwaysSolvent(start, steps[..|steps| - 1], job);
      SolventStep(start, Run(start, steps[..|steps| - 1]), steps[|steps| - 1], job);
    }
  }

  /** A vault covers its job in every run, and holds nothing else exactly when nothing stray ever
      came; in that case a closed job's vault is empty. */
  lemma VaultCovers(start: Trail, steps: seq<Step>, job: JobId)
    requires Genesis(start)
    ensures var end := Run(start, steps);
      var stray := Balance(start.chain.balances, VaultOf(job)) + Tally(end.journal, StrayTo(VaultOf(job)));
      && Owed(end.chain, job) <= Balance(end.chain.balances, VaultOf(job))
      && (Owed(end.chain, job) == Balance(end.chain.balances, VaultOf(job)) <==> stray == 0)
      && (stray == 0 && job in end.chain.escrows && Rank(end.chain.escrows[job].status) == 2 ==>
            Balance(end.chain.balances, VaultOf(job)) == 0)
  {
    var end := Run(start, steps);
    assert Solvent(start, end, job) by {
      AlwaysSolvent(start, steps, job);
    }
    if job in end.chain.escrows && Rank(end.chain.escrows[job].status) == 2 {
      assert Owed(end.chain, job) == 0 by {
        OneLife(start, steps, job);
      }
    }
  }

  // ---------------------------------------------------------------- where each kind of move goes

  /** A move's endpoints are the ones its label claims: deposits come from the job's client, fees end
      in the fee vault, payouts reach the recorded freelancer of a released job, returns the client. */
  predicate Routed(m: Move, escrows: map<JobId, JobEscrow>) {
    match m.job
    case None =>
      || (m.kind == FeeWithdrawal && m.source == FeeVault && m.target.Key?)
      || (m.kind == Outside && m.source.Key?)
    case Some(j) =>
      && j in escrows
      && match m.kind
         case Deposit => m.source == escrows[j].client && m.target == VaultOf(j)
         case Fee => (m.source == VaultOf(j) || m.source == escrows[j].client) && m.target == FeeVault
         case Payout => m.source == VaultOf(j) && m.target == escrows[j].freelancer && escrows[j].status == Released
         case Return => m.source == VaultOf(j) && m.target == escrows[j].client && escrows[j].status == Refunded
         case _ => false
  }

  ghost predicate AllRouted(t: Trail) {
    forall i, k | 0 <= i < |t.journal| && 0 <= k < |t.journal[i].moves| ::
      Routed(t.journal[i].moves[k], t.chain.escrows)
  }

  lemma RoutedStays(c: Chain, s: Step, m: Move)
    requires Exec(c, s).Ok? && Routed(m, c.escrows)
    ensures Routed(m, Exec(c, s).value.escrows)
  {
    if m.job.Some? {
      StepEvolves(c, s, m.job.value);
    }
  }

  lemma NewMovesRouted(c: Chain, s: Step)
    requires Exec(c, s).Ok?
    ensures forall k | 0 <= k < |MovesOf(c, s)| :: Routed(MovesOf(c, s)[k], Exec(c, s).value.escrows)
  {
  }

  /** So the sums in a job's book really are payments to the freelancer, the platform and the client. */
  lemma {:induction false} EveryMoveRouted(start: Trail, steps: seq<Step>)
    requires Genesis(start)
    ensures AllRouted(Run(start, steps))
  {
    if steps != [] {
      var s := steps[|steps| - 1];
      var before := Run(start, steps[..|steps| - 1]);
      var after := Advance(before, s);
      EveryMoveRouted(start, steps[..|steps| - 1]);
      if Exec(before.chain, s).Ok? {
        NewMovesRouted(before.chain, s);
        forall i, k | 0 <= i < |after.journal| && 0 <= k < |after.journal[i].moves|
          ensures Routed(after.journal[i].moves[k], after.chain.escrows)
        {
          if i < |before.journal| {
            RoutedStays(before.chain, s, before.journal[i].moves[k]);
          }
        }
      }
    }
  }

  // ---------------------------------------------------------------- isolation

  /** An instruction for another job leaves this job's record as it was, takes nothing from its vault
      and adds only strays to it. */
  lemma Isolation(t: Trail, s: Step, job: JobId)
    requires WellKeyed(t.chain)
    requires JobOf(s) != Some(job)
    ensures var after := Advance(t, s);
      && RecordOf(after.chain.escrows, job) == RecordOf(t.chain.escrows, job)
      && Balance(after.chain.balances, VaultOf(job)) + Tally(t.journal, StrayTo(VaultOf(job)))
         == Balance(t.chain.balances, VaultOf(job)) + Tally(after.journal, StrayTo(VaultOf(job)))
  {
    if Exec(t.chain, s).Ok? {
      ExecParts(t.chain, s);
      HandleVault(t.chain, s, job);
      PayAllBooks(t.chain.balances, MovesOf(t.chain, s), VaultOf(job));
      TallyAppend(t.journal, Entry(s, MovesOf(t.chain, s)), StrayTo(VaultOf(job)));
      OthersUntouched(t.chain, EMPTY_BOOK, s, job);
      hide Handle, PayAll, SumBy, Tally;
    }
  }

  // ---------------------------------------------------------------- progress

  /** The facts about a reachable chain that progress rests on. */
  ghost predicate Sound(c: Chain) {
    && Total(c.balances) <= U64_MAX
    && WellKeyed(c)
    && forall j | j in c.escrows ::
         && Owed(c, j) <= Balance(c.balances, VaultOf(j))
         && (Rank(c.escrows[j].status) < 2 ==> c.escrows[j].amount >= 40)
  }

  lemma {:induction false} ReachableIsSound(start: Trail, steps: seq<Step>)
    requires Genesis(start)
    ensures Sound(Run(start, steps).chain)
  {
    var end := Run(start, steps);
    Conservation(start, steps, FeeVault);
    AlwaysSolvent(start, steps, []);
    forall j | j in end.chain.escrows
      ensures Owed(end.chain, j) <= Balance(end.chain.balances, VaultOf(j))
      ensures Rank(end.chain.escrows[j].status) < 2 ==> end.chain.escrows[j].amount >= 40
    {
      AlwaysSolvent(start, steps, j);
      BooksKept(start, steps, j);
    }
  }

  /** Soundness is inductive on its own, one accepted instruction at a time. */
  lemma SoundStep(c: Chain, s: Step)
    requires Sound(c) && Exec(c, s).Ok?
    ensures Sound(Exec(c, s).value)
  {
    ExecParts(c, s);
    HandleWellKeyed(c, s);
    var after := Exec(c, s).value;
    PayAllBooks(c.balances, MovesOf(c, s), FeeVault);
    forall j | j in after.escrows
      ensures Owed(after, j) <= Balance(after.balances, VaultOf(j))
    {
      HandleVault(c, s, j);
      PayAllBooks(c.balances, MovesOf(c, s), VaultOf(j));
      BalanceAtMostTotal(c.balances, VaultOf(j));
    }
    forall j | j in after.escrows
      ensures Rank(after.escrows[j].status) < 2 ==> after.escrows[j].amount >= 40
    {
      LiveStaysLarge(c, s, j);
    }
  }

  lemma LiveStaysLarge(c: Chain, s: Step, j: JobId)
    requires Sound(c) && Exec(c, s).Ok? && j in Exec(c, s).value.escrows
    ensures var e := Exec(c, s).value.escrows[j]; Rank(e.status) < 2 ==> e.amount >= 40
  {
    hide PayAll;
    match s
    case Initialize(_, _, _, amount) => FeeIsFortieth(amount);
    case _ =>
  }

  lemma OneMovePaid(b: Balances, m: Move)
    requires Total(b) <= U64_MAX
    ensures PayAll(b, [m]).Ok? <==> m.lamports <= Balance(b, m.source)
  {
    PayOne(b, m);
    TransferSucceedsIff(b, m.source, m.target, m.lamports);
  }

  lemma TwoMovesPaid(b: Balances, first: Move, second: Move)
    requires Total(b) <= U64_MAX
    requires first.source == second.source != first.target
    ensures PayAll(b, [first, second]).Ok? <==> first.lamports + second.lamports <= Balance(b, first.source)
  {
    PayTwo(b, first, second);
    TransferSucceedsIff(b, first.source, first.target, first.lamports);
    if Transfer(b, first.source, first.target, first.lamports).Ok? {
      TransferBooks(b, first.source, first.target, first.lamports);
      TransferSucceedsIff(Transfer(b, first.source, first.target, first.lamports).value,
                          second.source, second.target, second.lamports);
    }
  }

  /** The client can take everything back from every Funded escrow, and only then. */
  lemma WithdrawAcceptedIff(c: Chain, client: nat, job: JobId)
    requires Sound(c)
    ensures Exec(c, Withdraw(client, job)).Ok? <==>
      job in c.escrows && c.escrows[job].client == Key(client) && c.escrows[job].status == Funded
  {
    if job in c.escrows {
      BalanceAtMostTotal(c.balances, VaultOf(job));
      OneMovePaid(c.balances, Move(Return, Some(job), VaultOf(job), Key(client), Owed(c, job)));
    }
  }

  /** The authority can refund every Funded or Locked escrow: no funds get stuck. */
  lemma RefundAcceptedIff(c: Chain, authorityKey: nat, clientAccount: Address, job: JobId)
    requires Sound(c)
    ensures Exec(c, Refund(authorityKey, clientAccount, job)).Ok? <==>
      job in c.escrows && c.escrows[job].authority == Key(authorityKey) && c.escrows[job].client == clientAccount
      && (c.escrows[job].status == Funded || c.escrows[job].status == Locked)
  {
    if job in c.escrows {
      BalanceAtMostTotal(c.balances, VaultOf(job));
      OneMovePaid(c.balances, Move(Return, Some(job), VaultOf(job), clientAccount, Owed(c, job)));
    }
  }

  lemma LockAcceptedIff(c: Chain, authorityKey: nat, job: JobId, freelancer: Address)
    requires Sound(c)
    ensures Exec(c, Lock(authorityKey, job, freelancer)).Ok? <==>
      job in c.escrows && c.escrows[job].authority == Key(authorityKey) && c.escrows[job].status == Funded
  {
    if job in c.escrows {
      OneMovePaid(c.balances, Move(Fee, Some(job), VaultOf(job), FeeVault, c.escrows[job].platformFee));
    }
  }

  /** A Locked escrow can be released to its freelancer exactly while 250 times its principal fits in
      a u64. */
  lemma ReleaseAcceptedIff(c: Chain, caller: nat, freelancer: Address, job: JobId)
    requires Sound(c)
    ensures Exec(c, Release(caller, freelancer, job)).Ok? <==>
      job in c.escrows && (c.escrows[job].client == Key(caller) || c.escrows[job].authority == Key(caller))
      && c.escrows[job].status == Locked && c.escrows[job].freelancer == freelancer
      && c.escrows[job].amount * 250 <= U64_MAX
  {
    if job in c.escrows {
      var e := c.escrows[job];
      FeeIsFortieth(e.amount);
      var fee := Move(Fee, Some(job), VaultOf(job), FeeVault, e.amount / 40);
      var payout := Move(Payout, Some(job), VaultOf(job), freelancer, e.amount - e.amount / 40);
      TwoMovesPaid(c.balances, fee, payout);
    }
  }

  /** A top-up needs the client's signature, a live escrow, at least 40 lamports, and the price
      (principal and fee) in the client's wallet; the sums never overflow on a reachable chain. */
  lemma TopUpAcceptedIff(c: Chain, client: nat, job: JobId, amount: nat)
    requires Sound(c)
    ensures Exec(c, TopUp(client, job, amount)).Ok? <==>
      job in c.escrows && c.escrows[job].client == Key(client)
      && (c.escrows[job].status == Funded || c.escrows[job].status == Locked)
      && 40 <= amount && amount * 250 <= U64_MAX
      && amount + amount / 40 <= Balance(c.balances, Key(client))
  {
    FeeIsFortieth(amount);
    if job in c.escrows {
      var total := Move(Deposit, Some(job), Key(client), VaultOf(job), amount + amount / 40);
      var principal := Move(Deposit, Some(job), Key(client), VaultOf(job), amount);
      var fee := Move(Fee, Some(job), Key(client), FeeVault, amount / 40);
      OneMovePaid(c.balances, total);
      TwoMovesPaid(c.balances, principal, fee);
      // The deposit and what the vault already holds are part of one u64 supply.
      TotalOfTwo(c.balances, Key(client), VaultOf(job));
    }
  }

  lemma TotalOfTwo(b: Balances, first: Address, second: Address)
    requires first != second
    ensures Balance(b, first) + Balance(b, second) <= Total(b)
  {
    if first in b {
      TotalPick(b, first);
      BalanceAtMostTotal(b - {first}, second);
    } else {
      BalanceAtMostTotal(b, second);
    }
  }

  lemma InitializeAcceptedIff(c: Chain, client: nat, authority: Address, job: JobId, amount: nat)
    requires Sound(c)
    ensures Exec(c, Initialize(client, authority, job, amount)).Ok? <==>
      job !in c.escrows && |job| == 36 && 40 <= amount && amount * 250 <= U64_MAX
      && amount + amount / 40 <= Balance(c.balances, Key(client))
  {
    FeeIsFortieth(amount);
    OneMovePaid(c.balances, Move(Deposit, Some(job), Key(client), VaultOf(job), amount + amount / 40));
  }

  lemma WithdrawFeesAcceptedIff(c: Chain, key: nat, amount: nat)
    requires Sound(c)
    ensures Exec(c, WithdrawFees(key, amount)).Ok? <==> 0 < amount <= Balance(c.balances, FeeVault)
  {
    OneMovePaid(c.balances, Move(FeeWithdrawal, None, FeeVault, Key(key), amount));
  }

  /** No stuck funds, over whole runs: whatever happened before, a live escrow can still be refunded
      by its authority and an unlocked one withdrawn by its client, and a locked one released by
      either of them while its principal is small enough. */
  lemma NoStuckFunds(start: Trail, steps: seq<Step>, job: JobId, client: nat, authority: nat)
    requires Genesis(start)
    requires job in Run(start, steps).chain.escrows
    requires Run(start, steps).chain.escrows[job].client == Key(client)
    requires Run(start, steps).chain.escrows[job].authority == Key(authority)
    ensures var c := Run(start, steps).chain;
      var e := c.escrows[job];
      && (Exec(c, Withdraw(client, job)).Ok? <==> e.status == Funded)
      && (Exec(c, Refund(authority, Key(client), job)).Ok? <==> e.status == Funded || e.status == Locked)
      && forall caller | caller in {client, authority} ::
           Exec(c, Release(caller, e.freelancer, job)).Ok? <==> e.status == Locked && e.amount * 250 <= U64_MAX
  {
    var c := Run(start, steps).chain;
    ReachableIsSound(start, steps);
    WithdrawAcceptedIff(c, client, job);
    RefundAcceptedIff(c, authority, Key(client), job);
    ReleaseAcceptedIff(c, client, c.escrows[job].freelancer, job);
    ReleaseAcceptedIff(c, authority, c.escrows[job].freelancer, job);
  }

  const BIG_DEPOSIT: nat := 70_000_000_000_000_000

  function BigStart(): Trail {
    Trail(Chain(map[Key(1) := 4 * BIG_DEPOSIT], map[]), [])
  }

  function BigDeposits(job: JobId): Trail {
    Advance(Advance(BigStart(), Initialize(1, Key(2), job, BIG_DEPOSIT)), TopUp(1, job, BIG_DEPOSIT))
  }

  lemma BigFirstDeposit(job: JobId)
    requires |job| == 36
    ensures var fee := BIG_DEPOSIT / 40;
      var chain := Advance(BigStart(), Initialize(1, Key(2), job, BIG_DEPOSIT)).chain;
      && chain.escrows == map[job := JobEscrow(Key(1), DEFAULT_KEY, Key(2), job, BIG_DEPOSIT, fee, Funded)]
      && chain.balances == map[Key(1) := 3 * BIG_DEPOSIT - fee, VaultOf(job) := BIG_DEPOSIT + fee]
  {
    PayOne(BigStart().chain.balances, Move(Deposit, Some(job), Key(1), VaultOf(job), BIG_DEPOSIT + BIG_DEPOSIT / 40));
  }

  /** Each deposit passes its own overflow check. */
  lemma BigDepositsAccepted(job: JobId)
    requires |job| == 36
    ensures var fee := BIG_DEPOSIT / 40;
      var chain := BigDeposits(job).chain;
      && chain.escrows == map[job := JobEscrow(Key(1), DEFAULT_KEY, Key(2), job, 2 * BIG_DEPOSIT, 2 * fee, Funded)]
      && chain.balances == map[Key(1) := 2 * BIG_DEPOSIT - 2 * fee, VaultOf(job) := 2 * BIG_DEPOSIT + 2 * fee]
  {
    BigFirstDeposit(job);
    var fee := BIG_DEPOSIT / 40;
    var balances := map[Key(1) := 3 * BIG_DEPOSIT - fee, VaultOf(job) := BIG_DEPOSIT + fee];
    PayOne(balances, Move(Deposit, Some(job), Key(1), VaultOf(job), BIG_DEPOSIT + fee));
  }

  /** A run that ends locked with a principal too large to release: each deposit passes its own
      overflow check, their sum does not.  (A refund still works, by NoStuckFunds.) */
  lemma ReleaseCanOverflow(job: JobId)
    requires |job| == 36
    ensures var end := Advance(BigDeposits(job), Lock(2, job, Key(3)));
      && Genesis(BigStart())
      && RecordOf(end.chain.escrows, job)
         == Some(JobEscrow(Key(1), Key(3), Key(2), job, 2 * BIG_DEPOSIT, 0, Locked))
      && Exec(end.chain, Release(1, Key(3), job)) == Err(Overflow)
  {
    TotalUpdate(map[], Key(1), 4 * BIG_DEPOSIT);
    BigDepositsAccepted(job);
    hide BigDeposits, Total;
    PayOne(BigDeposits(job).chain.balances, Move(Fee, Some(job), VaultOf(job), FeeVault, 2 * (BIG_DEPOSIT / 40)));
  }
}
