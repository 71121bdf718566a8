/** The escrow program as it runs: handlers that write account fields and move lamports in place.

    Inside a handler the order is the program's own (a status is written before the transfer it
    announces), so a failing transfer leaves half-written fields behind; `Process` is the runtime
    around it, which restores every account when a handler returns an error. */
module EscrowProgram {
  import opened Common
  import opened Ledger
  import opened Journal
  import opened JobBooks
  import opened Solvency

  lemma AllKept(genesis: Trail, t: Trail, s: Step)
    requires forall job :: BookKept(t, job) && Solvent(genesis, t, job)
    ensures forall job :: BookKept(Advance(t, s), job) && Solvent(genesis, Advance(t, s), job)
    ensures Total(Advance(t, s).chain.balances) == Total(t.chain.balances)
  {
    hide Advance, BookKept, Solvent;
    forall job ensures BookKept(Advance(t, s), job) && Solvent(genesis, Advance(t, s), job) {
      BookStep(t, s, job);
      SolventStep(genesis, t, s, job);
    }
    StepBooks(t, s, FeeVault);
  }

  class Program {
    var balances: Balances
    var escrows: map<JobId, JobEscrow>
    ghost var genesis: Trail
    ghost var journal: seq<Entry>

    ghost function State(): Chain
      reads this
    {
      Chain(balances, escrows)
    }

    ghost function History(): Trail
      reads this
    {
      Trail(State(), journal)
    }

    /** Every job's book is kept and every vault is solvent, measured from genesis. */
    ghost predicate Valid()
      reads this
    {
      && Genesis(genesis)
      && Total(balances) == Total(genesis.chain.balances)
      && forall job :: BookKept(History(), job) && Solvent(genesis, History(), job)
    }

    constructor (balances: Balances)
      requires Total(balances) <= U64_MAX
      ensures Valid()
      ensures State() == Chain(balances, map[]) && journal == [] && genesis == History()
    {
      this.balances := balances;
      this.escrows := map[];
      this.genesis := Trail(Chain(balances, map[]), []);
      this.journal := [];
      new;
      forall job ensures BookKept(History(), job) && Solvent(genesis, History(), job) {
        BooksKept(genesis, [], job);
        AlwaysSolvent(genesis, [], job);
      }
    }

    /** The system program's transfer. */
    method Send(source: Address, target: Address, lamports: nat) returns (r: Result<(), Error>)
      modifies this`balances
      ensures match Transfer(old(balances), source, target, lamports)
              case Ok(after) => r == Ok(()) && balances == after
              case Err(e) => r == Err(e)
    {
      if Balance(balances, source) < lamports {
        return Err(InsufficientFunds);
      }
      balances := balances[source := Balance(balances, source) - lamports];
      if Balance(balances, target) + lamports > U64_MAX {
        return Err(LamportOverflow);
      }
      balances := balances[target := Balance(balances, target) + lamports];
      return Ok(());
    }

    method InitializeHandler(client: nat, authority: Address, job: JobId, amount: nat) returns (r: Result<(), Error>)
      modifies this`balances, this`escrows
      ensures Carried(old(State()), Step.Initialize(client, authority, job, amount), r)
    {
      if job in escrows { return Err(AccountInUse); }
      if amount == 0 { return Err(InvalidAmount); }
      if |job| != 36 { return Err(InvalidJobId); }
      var fee := FeeOf(amount);
      if fee.Err? { return Err(fee.error); }
      if fee.value == 0 { return Err(FeeTooSmall); }
      var total := CheckedAdd(amount, fee.value);
      if total.Err? { return Err(total.error); }
      escrows := escrows[job := JobEscrow(Key(client), DEFAULT_KEY, authority, job, amount, fee.value, Funded)];
      PayOne(balances, Move(Deposit, Some(job), Key(client), VaultOf(job), total.value));
      r := Send(Key(client), VaultOf(job), total.value);
    }

    method TopUpHandler(client: nat, job: JobId, amount: nat) returns (r: Result<(), Error>)
      modifies this`balances, this`escrows
      ensures Carried(old(State()), Step.TopUp(client, job, amount), r)
    {
      hide Transfer, FeeOf;
      if job !in escrows { return Err(AccountMissing); }
      if escrows[job].client != Key(client) { return Err(Unauthorized); }
      if amount == 0 { return Err(InvalidAmount); }
      if escrows[job].status != Funded && escrows[job].status != Locked { return Err(NotFunded); }
      var fee := FeeOf(amount);
      if fee.Err? { return Err(fee.error); }
      if fee.value == 0 { return Err(FeeTooSmall); }
      var total := CheckedAdd(amount, fee.value);
      if total.Err? { return Err(total.error); }
      if escrows[job].status == Funded {
        PayOne(balances, Move(Deposit, Some(job), Key(client), VaultOf(job), total.value));
        r := Send(Key(client), VaultOf(job), total.value);
        if r.Err? { return; }
        var principal := CheckedAdd(escrows[job].amount, amount);
        if principal.Err? { return Err(principal.error); }
        escrows := escrows[job := escrows[job].(amount := principal.value)];
        var deferred := CheckedAdd(escrows[job].platformFee, fee.value);
        if deferred.Err? { return Err(deferred.error); }
        escrows := escrows[job := escrows[job].(platformFee := deferred.value)];
      } else {
        PayTwo(balances, Move(Deposit, Some(job), Key(client), VaultOf(job), amount),
               Move(Fee, Some(job), Key(client), FeeVault, fee.value));
        r := Send(Key(client), VaultOf(job), amount);
        if r.Err? { return; }
        r := Send(Key(client), FeeVault, fee.value);
        if r.Err? { return; }
        var principal := CheckedAdd(escrows[job].amount, amount);
        if principal.Err? { return Err(principal.error); }
        escrows := escrows[job := escrows[job].(amount := principal.value)];
      }
    }

    method WithdrawHandler(client: nat, job: JobId) returns (r: Result<(), Error>)
      modifies this`balances, this`escrows
      ensures Carried(old(State()), Step.Withdraw(client, job), r)
    {
      hide Transfer, FeeOf;
      if job !in escrows { return Err(AccountMissing); }
      if escrows[job].client != Key(client) { return Err(Unauthorized); }
      if escrows[job].status != Funded { return Err(NotFunded); }
      var total := CheckedAdd(escrows[job].amount, escrows[job].platformFee);
      if total.Err? { return Err(total.error); }
      escrows := escrows[job := escrows[job].(status := Refunded, amount := 0, platformFee := 0)];
      PayOne(balances, Move(Return, Some(job), VaultOf(job), Key(client), total.value));
      r := Send(VaultOf(job), Key(client), total.value);
    }

    method LockHandler(authorityKey: nat, job: JobId, freelancer: Address) returns (r: Result<(), Error>)
      modifies this`balances, this`escrows
      ensures Carried(old(State()), Step.Lock(authorityKey, job, freelancer), r)
    {
      if job !in escrows { return Err(AccountMissing); }
      if escrows[job].authority != Key(authorityKey) { return Err(Unauthorized); }
      if escrows[job].status != Funded { return Err(NotFunded); }
      var fee := escrows[job].platformFee;
      escrows := escrows[job := escrows[job].(freelancer := freelancer, status := Locked, platformFee := 0)];
      r := Ok(());
      if fee > 0 {
        PayOne(balances, Move(Fee, Some(job), VaultOf(job), FeeVault, fee));
        r := Send(VaultOf(job), FeeVault, fee);
      }
    }

    method ReleaseHandler(caller: nat, freelancer: Address, job: JobId) returns (r: Result<(), Error>)
      modifies this`balances, this`escrows
      ensures Carried(old(State()), Step.Release(caller, freelancer, job), r)
    {
      hide Transfer, FeeOf;
      if job !in escrows { return Err(AccountMissing); }
      if Key(caller) != escrows[job].client && Key(caller) != escrows[job].authority { return Err(Unauthorized); }
      if escrows[job].status != Locked { return Err(NotLocked); }
      if freelancer != escrows[job].freelancer { return Err(Unauthorized); }
      var amount := escrows[job].amount;
      var fee := FeeOf(amount);
      if fee.Err? { return Err(fee.error); }
      if fee.value > amount { return Err(Overflow); }
      escrows := escrows[job := escrows[job].(status := Released, amount := 0)];
      PayOne(balances, Move(Payout, Some(job), VaultOf(job), freelancer, amount - fee.value));
      if fee.value > 0 {
        PayTwo(balances, Move(Fee, Some(job), VaultOf(job), FeeVault, fee.value),
               Move(Payout, Some(job), VaultOf(job), freelancer, amount - fee.value));
        r := Send(VaultOf(job), FeeVault, fee.value);
        if r.Err? { return; }
      }
      r := Send(VaultOf(job), freelancer, amount - fee.value);
    }

    method RefundHandler(authorityKey: nat, clientAccount: Address, job: JobId) returns (r: Result<(), Error>)
      modifies this`balances, this`escrows
      ensures Carried(old(State()), Step.Refund(authorityKey, clientAccount, job), r)
    {
      hide Transfer, FeeOf;
      if job !in escrows { return Err(AccountMissing); }
      if escrows[job].authority != Key(authorityKey) { return Err(Unauthorized); }
      if escrows[job].status != Funded && escrows[job].status != Locked { return Err(AlreadyFinalised); }
      if clientAccount != escrows[job].client { return Err(Unauthorized); }
      var total := escrows[job].amount;
      if escrows[job].status == Funded {
        var sum := CheckedAdd(escrows[job].amount, escrows[job].platformFee);
        if sum.Err? { return Err(sum.error); }
        total := sum.value;
      }
      escrows := escrows[job := escrows[job].(status := Refunded, amount := 0, platformFee := 0)];
      PayOne(balances, Move(Return, Some(job), VaultOf(job), clientAccount, total));
      r := Send(VaultOf(job), clientAccount, total);
    }

    method WithdrawFeesHandler(authorityKey: nat, amount: nat) returns (r: Result<(), Error>)
      modifies this`balances, this`escrows
      ensures Carried(old(State()), Step.WithdrawFees(authorityKey, amount), r)
    {
      if amount == 0 { return Err(InvalidAmount); }
      PayOne(balances, Move(FeeWithdrawal, None, FeeVault, Key(authorityKey), amount));
      r := Send(FeeVault, Key(authorityKey), amount);
    }

    /** The system program alone, without this one. */
    method OutsideTransfer(source: nat, target: Address, amount: nat) returns (r: Result<(), Error>)
      modifies this`balances, this`escrows
      ensures Carried(old(State()), SystemTransfer(source, target, amount), r)
    {
      PayOne(balances, Move(Outside, None, Key(source), target, amount));
      r := Send(Key(source), target, amount);
    }

    /** What a handler promises: the specified state on success, the specified error otherwise. */
    ghost predicate Carried(before: Chain, s: Step, r: Result<(), Error>)
      reads this
    {
      match Exec(before, s)
      case Ok(after) => r == Ok(()) && State() == after
      case Err(e) => r == Err(e)
    }

    /** One instruction under the runtime: all of it, or nothing. */
    method Process(s: Step) returns (r: Result<(), Error>)
      requires Valid()
      modifies this
      ensures Valid()
      ensures History() == Advance(old(History()), s)
      ensures genesis == old(genesis)
      ensures r.Ok? <==> Exec(old(State()), s).Ok?
      ensures r.Err? ==> Exec(old(State()), s) == Err(r.error) && State() == old(State())
    {
      hide Exec, Handle, BookKept, Solvent, Genesis, Transfer;
      var savedBalances, savedEscrows := balances, escrows;
      match s {
        case Initialize(client, authority, job, amount) => r := InitializeHandler(client, authority, job, amount);
        case TopUp(client, job, amount) => r := TopUpHandler(client, job, amount);
        case Withdraw(client, job) => r := WithdrawHandler(client, job);
        case Lock(key, job, freelancer) => r := LockHandler(key, job, freelancer);
        case Release(caller, freelancer, job) => r := ReleaseHandler(caller, freelancer, job);
        case Refund(key, clientAccount, job) => r := RefundHandler(key, clientAccount, job);
        case WithdrawFees(key, amount) => r := WithdrawFeesHandler(key, amount);
        case SystemTransfer(source, target, amount) =>
          r := OutsideTransfer(source, target, amount);
      }
      if r.Err? {
        balances, escrows := savedBalances, savedEscrows;
      } else {
        journal := journal + [Entry(s, MovesOf(old(State()), s))];
      }
      assert History() == Advance(old(History()), s);
      AllKept(genesis, old(History()), s);
    }
  }
}
