/** What each instruction does to every balance and record when it is accepted, which error it stops
    with when it is not, and who pays in a whole run. */
module Outcomes {
  import opened Common
  import opened Ledger
  import opened Journal
  import opened JobBooks
  import opened Solvency

  // ---------------------------------------------------------------- runs

  /** A run may be cut anywhere. */
  lemma {:induction false} RunJoins(t: Trail, first: seq<Step>, second: seq<Step>)
    ensures Run(t, []) == t
    ensures forall s :: Run(t, [s]) == Advance(t, s)
    ensures Run(t, first + second) == Run(Run(t, first), second)
  {
    forall s ensures Run(t, [s]) == Advance(t, s) {
      assert [s][..0] == [];
      assert Run(t, []) == t;
    }
    if second == [] {
      assert first + second == first;
    } else {
      var init := second[..|second| - 1];
      RunJoins(t, first, init);
      assert (first + second)[..|first + second| - 1] == first + init;
    }
  }

  // ---------------------------------------------------------------- accepted

  /** Lamports went from one address to another, and nowhere else. */
  ghost predicate Sent(before: Balances, after: Balances, source: Address, target: Address, lamports: nat) {
    forall a ::
      Balance(after, a) + (if a == source then lamports else 0)
      == Balance(before, a) + (if a == target then lamports else 0)
  }

  /** The same from one address to two. */
  ghost predicate Shared(
    before: Balances, after: Balances, source: Address, first: Address, lamports: nat, second: Address, more: nat)
  {
    forall a ::
      Balance(after, a) + (if a == source then lamports + more else 0)
      == Balance(before, a) + (if a == first then lamports else 0) + (if a == second then more else 0)
  }

  lemma OneMove(c: Chain, s: Step, m: Move)
    requires Exec(c, s).Ok? && MovesOf(c, s) == [m]
    ensures Sent(c.balances, Exec(c, s).value.balances, m.source, m.target, m.lamports)
  {
    ExecParts(c, s);
    PayOne(c.balances, m);
    TransferBooks(c.balances, m.source, m.target, m.lamports);
  }

  lemma TwoMoves(c: Chain, s: Step, m: Move, n: Move)
    requires Exec(c, s).Ok? && MovesOf(c, s) == [m, n] && m.source == n.source
    ensures Shared(c.balances, Exec(c, s).value.balances, m.source, m.target, m.lamports, n.target, n.lamports)
  {
    ExecParts(c, s);
    PayTwo(c.balances, m, n);
    TransferBooks(c.balances, m.source, m.target, m.lamports);
    var paid := Transfer(c.balances, m.source, m.target, m.lamports).value;
    TransferBooks(paid, n.source, n.target, n.lamports);
  }

  lemma InitializeOutcome(c: Chain, client: nat, authority: Address, job: JobId, amount: nat)
    requires Exec(c, Initialize(client, authority, job, amount)).Ok?
    ensures var after := Exec(c, Initialize(client, authority, job, amount)).value;
      && after.escrows
         == c.escrows[job := JobEscrow(Key(client), DEFAULT_KEY, authority, job, amount, amount / 40, Funded)]
      && Sent(c.balances, after.balances, Key(client), VaultOf(job), amount + amount / 40)
  {
    FeeIsFortieth(amount);
    OneMove(c, Initialize(client, authority, job, amount),
            Move(Deposit, Some(job), Key(client), VaultOf(job), amount + amount / 40));
  }

  lemma TopUpOutcome(c: Chain, client: nat, job: JobId, amount: nat)
    requires Exec(c, TopUp(client, job, amount)).Ok?
    ensures var after := Exec(c, TopUp(client, job, amount)).value;
      job in c.escrows
      && var e := c.escrows[job];
      if e.status == Funded then
        && after.escrows
           == c.escrows[job := e.(amount := e.amount + amount, platformFee := e.platformFee + amount / 40)]
        && Sent(c.balances, after.balances, Key(client), VaultOf(job), amount + amount / 40)
      else
        && after.escrows == c.escrows[job := e.(amount := e.amount + amount)]
        && Shared(c.balances, after.balances, Key(client), VaultOf(job), amount, FeeVault, amount / 40)
  {
    FeeIsFortieth(amount);
    var s := TopUp(client, job, amount);
    if c.escrows[job].status == Funded {
      OneMove(c, s, Move(Deposit, Some(job), Key(client), VaultOf(job), amount + amount / 40));
    } else {
      TwoMoves(c, s, Move(Deposit, Some(job), Key(client), VaultOf(job), amount),
               Move(Fee, Some(job), Key(client), FeeVault, amount / 40));
    }
  }

  lemma WithdrawOutcome(c: Chain, client: nat, job: JobId)
    requires Exec(c, Withdraw(client, job)).Ok?
    ensures var after := Exec(c, Withdraw(client, job)).value;
      job in c.escrows
      && var e := c.escrows[job];
      && after.escrows == c.escrows[job := e.(status := Refunded, amount := 0, platformFee := 0)]
      && Sent(c.balances, after.balances, VaultOf(job), Key(client), e.amount + e.platformFee)
  {
    var e := c.escrows[job];
    OneMove(c, Withdraw(client, job), Move(Return, Some(job), VaultOf(job), Key(client), e.amount + e.platformFee));
  }

  lemma LockOutcome(c: Chain, key: nat, job: JobId, freelancer: Address)
    requires Exec(c, Lock(key, job, freelancer)).Ok?
    ensures var after := Exec(c, Lock(key, job, freelancer)).value;
      job in c.escrows
      && var e := c.escrows[job];
      && after.escrows == c.escrows[job := e.(freelancer := freelancer, status := Locked, platformFee := 0)]
      && Sent(c.balances, after.balances, VaultOf(job), FeeVault, e.platformFee)
  {
    if c.escrows[job].platformFee > 0 {
      OneMove(c, Lock(key, job, freelancer),
              Move(Fee, Some(job), VaultOf(job), FeeVault, c.escrows[job].platformFee));
    }
  }

  lemma ReleaseOutcome(c: Chain, caller: nat, freelancer: Address, job: JobId)
    requires Exec(c, Release(caller, freelancer, job)).Ok?
    ensures var after := Exec(c, Release(caller, freelancer, job)).value;
      job in c.escrows
      && var e := c.escrows[job];
      && after.escrows == c.escrows[job := e.(status := Released, amount := 0)]
      && Shared(c.balances, after.balances, VaultOf(job),
                FeeVault, e.amount / 40, e.freelancer, e.amount - e.amount / 40)
  {
    var e := c.escrows[job];
    var s := Release(caller, freelancer, job);
    var payout := Move(Payout, Some(job), VaultOf(job), freelancer, e.amount - e.amount / 40);
    FeeIsFortieth(e.amount);
    if e.amount / 40 > 0 {
      TwoMoves(c, s, Move(Fee, Some(job), VaultOf(job), FeeVault, e.amount / 40), payout);
    } else {
      OneMove(c, s, payout);
    }
  }

  lemma RefundOutcome(c: Chain, key: nat, clientAccount: Address, job: JobId)
    requires Exec(c, Refund(key, clientAccount, job)).Ok?
    ensures var after := Exec(c, Refund(key, clientAccount, job)).value;
      job in c.escrows
      && var e := c.escrows[job];
      && after.escrows == c.escrows[job := e.(status := Refunded, amount := 0, platformFee := 0)]
      && Sent(c.balances, after.balances, VaultOf(job), e.client,
              e.amount + if e.status == Funded then e.platformFee else 0)
  {
    var e := c.escrows[job];
    OneMove(c, Refund(key, clientAccount, job),
            Move(Return, Some(job), VaultOf(job), clientAccount,
                 e.amount + if e.status == Funded then e.platformFee else 0));
  }

  lemma WithdrawFeesOutcome(c: Chain, key: nat, amount: nat)
    requires Exec(c, WithdrawFees(key, amount)).Ok?
    ensures var after := Exec(c, WithdrawFees(key, amount)).value;
      after.escrows == c.escrows && Sent(c.balances, after.balances, FeeVault, Key(key), amount)
  {
    OneMove(c, WithdrawFees(key, amount), Move(FeeWithdrawal, None, FeeVault, Key(key), amount));
  }

  lemma SystemTransferOutcome(c: Chain, source: nat, target: Address, amount: nat)
    requires Exec(c, SystemTransfer(source, target, amount)).Ok?
    ensures var after := Exec(c, SystemTransfer(source, target, amount)).value;
      after.escrows == c.escrows && Sent(c.balances, after.balances, Key(source), target, amount)
  {
    OneMove(c, SystemTransfer(source, target, amount), Move(Outside, None, Key(source), target, amount));
  }

  // ---------------------------------------------------------------- refused

  /** A transfer that fails, fails for one of two reasons; with a supply that fits in a u64, for one. */
  lemma TransferRefused(b: Balances, source: Address, target: Address, lamports: nat)
    ensures Balance(b, source) < lamports ==> Transfer(b, source, target, lamports) == Err(InsufficientFunds)
    ensures Transfer(b, source, target, lamports).Err? && Balance(b, source) >= lamports ==>
      Transfer(b, source, target, lamports) == Err(LamportOverflow) && Total(b) > U64_MAX
  {
    if Total(b) <= U64_MAX {
      TransferSucceedsIff(b, source, target, lamports);
    }
  }

  lemma InitializeRefused(c: Chain, client: nat, authority: Address, job: JobId, amount: nat)
    requires Sound(c)
    ensures var r := Exec(c, Initialize(client, authority, job, amount));
      if job in c.escrows then r == Err(AccountInUse)
      else if amount == 0 then r == Err(InvalidAmount)
      else if |job| != 36 then r == Err(InvalidJobId)
      else if amount * 250 > U64_MAX then r == Err(Overflow)
      else if amount < 40 then r == Err(FeeTooSmall)
      else if Balance(c.balances, Key(client)) < amount + amount / 40 then r == Err(InsufficientFunds)
      else r.Ok?
  {
    FeeIsFortieth(amount);
    InitializeAcceptedIff(c, client, authority, job, amount);
    PayOne(c.balances, Move(Deposit, Some(job), Key(client), VaultOf(job), amount + amount / 40));
  }

  lemma TopUpRefused(c: Chain, client: nat, job: JobId, amount: nat)
    requires Sound(c)
    ensures var r := Exec(c, TopUp(client, job, amount));
      if job !in c.escrows then r == Err(AccountMissing)
      else if c.escrows[job].client != Key(client) then r == Err(Unauthorized)
      else if amount == 0 then r == Err(InvalidAmount)
      else if Rank(c.escrows[job].status) == 2 then r == Err(NotFunded)
      else if amount * 250 > U64_MAX then r == Err(Overflow)
      else if amount < 40 then r == Err(FeeTooSmall)
      else if Balance(c.balances, Key(client)) < amount + amount / 40 then r == Err(InsufficientFunds)
      else r.Ok?
  {
    hide Sound;
    FeeIsFortieth(amount);
    TopUpAcceptedIff(c, client, job, amount);
    assert Total(c.balances) <= U64_MAX by { SupplyFits(c); }
    if job in c.escrows && Balance(c.balances, Key(client)) < amount + amount / 40 {
      TopUpUnpaid(c.balances, client, job, amount);
    }
  }

  lemma SupplyFits(c: Chain)
    requires Sound(c)
    ensures Total(c.balances) <= U64_MAX
  {
  }

  /** However a top-up is booked, a wallet that cannot pay it all fails with InsufficientFunds. */
  lemma TopUpUnpaid(b: Balances, client: nat, job: JobId, amount: nat)
    requires Total(b) <= U64_MAX && Balance(b, Key(client)) < amount + amount / 40
    ensures PayAll(b, [Move(Deposit, Some(job), Key(client), VaultOf(job), amount + amount / 40)])
      == Err(InsufficientFunds)
    ensures PayAll(b, [Move(Deposit, Some(job), Key(client), VaultOf(job), amount),
                       Move(Fee, Some(job), Key(client), FeeVault, amount / 40)])
      == Err(InsufficientFunds)
  {
    var principal := Move(Deposit, Some(job), Key(client), VaultOf(job), amount);
    var fee := Move(Fee, Some(job), Key(client), FeeVault, amount / 40);
    PayOne(b, Move(Deposit, Some(job), Key(client), VaultOf(job), amount + amount / 40));
    PayTwo(b, principal, fee);
    TransferSucceedsIff(b, Key(client), VaultOf(job), amount);
    if amount <= Balance(b, Key(client)) {
      TransferBooks(b, Key(client), VaultOf(job), amount);
    }
  }

  lemma WithdrawRefused(c: Chain, client: nat, job: JobId)
    requires Sound(c)
    ensures var r := Exec(c, Withdraw(client, job));
      if job !in c.escrows then r == Err(AccountMissing)
      else if c.escrows[job].client != Key(client) then r == Err(Unauthorized)
      else if c.escrows[job].status != Funded then r == Err(NotFunded)
      else r.Ok?
  {
    WithdrawAcceptedIff(c, client, job);
  }

  lemma LockRefused(c: Chain, key: nat, job: JobId, freelancer: Address)
    requires Sound(c)
    ensures var r := Exec(c, Lock(key, job, freelancer));
      if job !in c.escrows then r == Err(AccountMissing)
      else if c.escrows[job].authority != Key(key) then r == Err(Unauthorized)
      else if c.escrows[job].status != Funded then r == Err(NotFunded)
      else r.Ok?
  {
    LockAcceptedIff(c, key, job, freelancer);
  }

  lemma ReleaseRefused(c: Chain, caller: nat, freelancer: Address, job: JobId)
    requires Sound(c)
    ensures var r := Exec(c, Release(caller, freelancer, job));
      if job !in c.escrows then r == Err(AccountMissing)
      else if c.escrows[job].client != Key(caller) && c.escrows[job].authority != Key(caller)
      then r == Err(Unauthorized)
      else if c.escrows[job].status != Locked then r == Err(NotLocked)
      else if c.escrows[job].freelancer != freelancer then r == Err(Unauthorized)
      else if c.escrows[job].amount * 250 > U64_MAX then r == Err(Overflow)
      else r.Ok?
  {
    if job in c.escrows {
      FeeIsFortieth(c.escrows[job].amount);
    }
    ReleaseAcceptedIff(c, caller, freelancer, job);
  }

  lemma RefundRefused(c: Chain, key: nat, clientAccount: Address, job: JobId)
    requires Sound(c)
    ensures var r := Exec(c, Refund(key, clientAccount, job));
      if job !in c.escrows then r == Err(AccountMissing)
      else if c.escrows[job].authority != Key(key) then r == Err(Unauthorized)
      else if Rank(c.escrows[job].status) == 2 then r == Err(AlreadyFinalised)
      else if c.escrows[job].client != clientAccount then r == Err(Unauthorized)
      else r.Ok?
  {
    RefundAcceptedIff(c, key, clientAccount, job);
  }

  lemma WithdrawFeesRefused(c: Chain, key: nat, amount: nat)
    requires Sound(c)
    ensures var r := Exec(c, WithdrawFees(key, amount));
      if amount == 0 then r == Err(InvalidAmount)
      else if Balance(c.balances, FeeVault) < amount then r == Err(InsufficientFunds)
      else r.Ok?
  {
    PayOne(c.balances, Move(FeeWithdrawal, None, FeeVault, Key(key), amount));
    WithdrawFeesAcceptedIff(c, key, amount);
  }

  // ---------------------------------------------------------------- who pays

  /** The key whose signature an instruction carries. */
  function SignerOf(s: Step): nat {
    match s
    case Initialize(client, _, _, _) => client
    case TopUp(client, _, _) => client
    case Withdraw(client, _) => client
    case Lock(key, _, _) => key
    case Release(caller, _, _) => caller
    case Refund(key, _, _) => key
    case WithdrawFees(key, _) => key
    case SystemTransfer(source, _, _) => source
  }

  /** A wallet pays only under its own signature, a vault only in an instruction for its own job, and
      the fee vault only to the signer who asked, exactly what was asked. */
  predicate Allowed(s: Step, m: Move) {
    match m.source
    case Key(k) => k == SignerOf(s)
    case VaultOf(j) => JobOf(s) == Some(j)
    case FeeVault => s.WithdrawFees? && m.target == Key(s.authorityKey) && m.lamports == s.amount
  }

  ghost predicate AllAllowed(journal: seq<Entry>) {
    forall i, k | 0 <= i < |journal| && 0 <= k < |journal[i].moves| :: Allowed(journal[i].step, journal[i].moves[k])
  }

  lemma MovesAllowed(c: Chain, s: Step)
    ensures forall k | 0 <= k < |MovesOf(c, s)| :: Allowed(s, MovesOf(c, s)[k])
  {
  }

  /** In every run nobody pays unasked: each movement of lamports in the journal was allowed by the
      instruction it belongs to. */
  lemma {:induction false} NobodyPaysUnasked(start: Trail, steps: seq<Step>)
    requires Genesis(start)
    ensures AllAllowed(Run(start, steps).journal)
  {
    if steps != [] {
      var before := Run(start, steps[..|steps| - 1]);
      NobodyPaysUnasked(start, steps[..|steps| - 1]);
      MovesAllowed(before.chain, steps[|steps| - 1]);
    }
  }
}
