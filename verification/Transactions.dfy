/** The account lists: what each instruction of the program demands of the accounts it is given, and
    the lists the service writes by hand for its transactions. */
module Transactions {
  import opened Common
  import opened Ledger
  import Outcomes

  datatype Account = Holder(address: Address) | EscrowOf(job: JobId) | ContractOf(job: JobId) | SystemProgram

  datatype Meta = Meta(account: Account, isSigner: bool, isWritable: bool)

  /** An instruction with the arguments that travel in its data. */
  datatype Instruction =
    | InitializeEscrow(job: JobId, amount: nat)
    | TopUpEscrow(job: JobId, amount: nat)
    | WithdrawEscrow(job: JobId)
    | LockEscrow(job: JobId, freelancer: Address)
    | ReleaseEscrow(job: JobId)
    | RefundEscrow(job: JobId)
    | CollectFees(amount: nat)
    | CreateContract(job: JobId)
    | CompleteContract(job: JobId)

  datatype Transaction = Transaction(instruction: Instruction, keys: seq<Meta>)

  // ---------------------------------------------------------------- the program's side

  /** One field of an Accounts struct: a signer, any account, or one particular account. */
  datatype Slot = Signer | Any(mutable: bool) | Is(account: Account, mutable: bool)

  function Slots(i: Instruction): seq<Slot> {
    match i
    case InitializeEscrow(job, _) =>
      [Signer, Any(false), Is(EscrowOf(job), true), Is(Holder(VaultOf(job)), true), Is(Holder(FeeVault), false),
       Is(SystemProgram, false)]
    case TopUpEscrow(job, _) =>
      [Signer, Is(EscrowOf(job), true), Is(Holder(VaultOf(job)), true), Is(Holder(FeeVault), true),
       Is(SystemProgram, false)]
    case WithdrawEscrow(job) =>
      [Signer, Is(EscrowOf(job), true), Is(Holder(VaultOf(job)), true), Is(SystemProgram, false)]
    case LockEscrow(job, _) =>
      [Signer, Is(EscrowOf(job), true), Is(Holder(VaultOf(job)), true), Is(Holder(FeeVault), true),
       Is(SystemProgram, false)]
    case ReleaseEscrow(job) =>
      [Signer, Is(EscrowOf(job), true), Any(true), Is(Holder(VaultOf(job)), true), Is(Holder(FeeVault), true),
       Is(SystemProgram, false)]
    case RefundEscrow(job) =>
      [Signer, Any(true), Is(EscrowOf(job), true), Is(Holder(VaultOf(job)), true), Is(Holder(FeeVault), true),
       Is(SystemProgram, false)]
    case CollectFees(_) => [Signer, Is(Holder(FeeVault), true), Is(SystemProgram, false)]
    case CreateContract(job) => [Signer, Is(ContractOf(job), true), Is(SystemProgram, false)]
    case CompleteContract(job) => [Signer, Is(ContractOf(job), true)]
  }

  /** Every signer of this program's instructions pays, so it is writable; only keys can sign. */
  predicate Fits(slot: Slot, meta: Meta) {
    match slot
    case Signer => meta.isSigner && meta.isWritable && meta.account.Holder? && meta.account.address.Key?
    case Any(mutable) => meta.account.Holder? && (mutable ==> meta.isWritable)
    case Is(account, mutable) => meta.account == account && (mutable ==> meta.isWritable)
  }

  /** Accounts are taken from the front of the list; some may be left over. */
  predicate Admitted(tx: Transaction) {
    && |Slots(tx.instruction)| <= |tx.keys|
    && forall k | 0 <= k < |Slots(tx.instruction)| :: Fits(Slots(tx.instruction)[k], tx.keys[k])
  }

  predicate MovesLamports(i: Instruction) {
    !i.CreateContract? && !i.CompleteContract?
  }

  /** The ledger instruction a transaction amounts to, if its account list is admitted. */
  function Load(tx: Transaction): Option<Step>
    requires MovesLamports(tx.instruction)
  {
    if !Admitted(tx) then None
    else
      assert forall k | 0 <= k < |Slots(tx.instruction)| :: Fits(Slots(tx.instruction)[k], tx.keys[k]);
      assert Fits(Slots(tx.instruction)[0], tx.keys[0]) && Fits(Slots(tx.instruction)[1], tx.keys[1]);
      assert Fits(Slots(tx.instruction)[2], tx.keys[2]);
      var signer := tx.keys[0].account.address.id;
      match tx.instruction
      case InitializeEscrow(job, amount) => Some(Step.Initialize(signer, tx.keys[1].account.address, job, amount))
      case TopUpEscrow(job, amount) => Some(Step.TopUp(signer, job, amount))
      case WithdrawEscrow(job) => Some(Step.Withdraw(signer, job))
      case LockEscrow(job, freelancer) => Some(Step.Lock(signer, job, freelancer))
      case ReleaseEscrow(job) => Some(Step.Release(signer, tx.keys[2].account.address, job))
      case RefundEscrow(job) => Some(Step.Refund(signer, tx.keys[1].account.address, job))
      case CollectFees(amount) => Some(Step.WithdrawFees(signer, amount))
  }

  // ---------------------------------------------------------------- the service's side

  function Payer(key: nat): Meta { Meta(Holder(Key(key)), true, true) }

  function Writable(account: Account): Meta { Meta(account, false, true) }

  function ReadOnly(account: Account): Meta { Meta(account, false, false) }

  /** For a job and for a milestone alike, as are the other lists but one. */
  function FundTransaction(client: nat, authority: Address, job: JobId, amount: nat): (tx: Transaction)
    ensures MovesLamports(tx.instruction) && Load(tx) == Some(Step.Initialize(client, authority, job, amount))
  {
    Transaction(InitializeEscrow(job, amount),
                [Payer(client), ReadOnly(Holder(authority)), Writable(EscrowOf(job)), Writable(Holder(VaultOf(job))),
                 ReadOnly(Holder(FeeVault)), ReadOnly(SystemProgram)])
  }

  function TopUpTransaction(client: nat, job: JobId, amount: nat): (tx: Transaction)
    ensures MovesLamports(tx.instruction) && Load(tx) == Some(Step.TopUp(client, job, amount))
  {
    Transaction(TopUpEscrow(job, amount),
                [Payer(client), Writable(EscrowOf(job)), Writable(Holder(VaultOf(job))), Writable(Holder(FeeVault)),
                 ReadOnly(SystemProgram)])
  }

  /** The list for a milestone's top-up: no amount, and no state of the chain, gets it through. */
  function MilestoneTopUpTransaction(client: nat, job: JobId, amount: nat): (tx: Transaction)
    ensures MovesLamports(tx.instruction) && Load(tx) == None
  {
    Transaction(TopUpEscrow(job, amount),
                [Payer(client), Writable(EscrowOf(job)), Writable(Holder(VaultOf(job))), ReadOnly(SystemProgram)])
  }

  function WithdrawTransaction(client: nat, job: JobId): (tx: Transaction)
    ensures MovesLamports(tx.instruction) && Load(tx) == Some(Step.Withdraw(client, job))
  {
    Transaction(WithdrawEscrow(job),
                [Payer(client), Writable(EscrowOf(job)), Writable(Holder(VaultOf(job))), ReadOnly(SystemProgram)])
  }

  function LockTransaction(authority: nat, job: JobId, freelancer: Address): (tx: Transaction)
    ensures MovesLamports(tx.instruction) && Load(tx) == Some(Step.Lock(authority, job, freelancer))
  {
    Transaction(LockEscrow(job, freelancer),
                [Payer(authority), Writable(EscrowOf(job)), Writable(Holder(VaultOf(job))), Writable(Holder(FeeVault)),
                 ReadOnly(SystemProgram)])
  }

  function ReleaseTransaction(caller: nat, freelancer: Address, job: JobId): (tx: Transaction)
    ensures MovesLamports(tx.instruction) && Load(tx) == Some(Step.Release(caller, freelancer, job))
  {
    Transaction(ReleaseEscrow(job),
                [Payer(caller), Writable(EscrowOf(job)), Writable(Holder(freelancer)), Writable(Holder(VaultOf(job))),
                 Writable(Holder(FeeVault)), ReadOnly(SystemProgram)])
  }

  function RefundTransaction(authority: nat, client: Address, job: JobId): (tx: Transaction)
    ensures MovesLamports(tx.instruction) && Load(tx) == Some(Step.Refund(authority, client, job))
  {
    Transaction(RefundEscrow(job),
                [Payer(authority), Writable(Holder(client)), Writable(EscrowOf(job)), Writable(Holder(VaultOf(job))),
                 Writable(Holder(FeeVault)), ReadOnly(SystemProgram)])
  }

  function CollectFeesTransaction(authority: nat, amount: nat): (tx: Transaction)
    ensures MovesLamports(tx.instruction) && Load(tx) == Some(Step.WithdrawFees(authority, amount))
  {
    Transaction(CollectFees(amount), [Payer(authority), Writable(Holder(FeeVault)), ReadOnly(SystemProgram)])
  }

  /** The instruction, its payer and the contract account, in an admitted list. */
  function CreateContractTransaction(authority: nat, job: JobId): (tx: Transaction)
    ensures Admitted(tx) && tx.instruction == CreateContract(job)
    ensures tx.keys[0] == Meta(Holder(Key(authority)), true, true) && tx.keys[1] == Meta(ContractOf(job), false, true)
  {
    Transaction(CreateContract(job), [Payer(authority), Writable(ContractOf(job)), ReadOnly(SystemProgram)])
  }

  function CompleteContractTransaction(authority: nat, job: JobId): (tx: Transaction)
    ensures Admitted(tx) && tx.instruction == CompleteContract(job)
    ensures tx.keys[0] == Meta(Holder(Key(authority)), true, true) && tx.keys[1] == Meta(ContractOf(job), false, true)
  {
    Transaction(CompleteContract(job), [Payer(authority), Writable(ContractOf(job))])
  }

  /** The milestone list is one account short, and that account is the fee vault: put it where the job
      list has it, and the same instruction loads. */
  lemma OnlyTheFeeVaultIsMissing(client: nat, job: JobId, amount: nat)
    ensures var tx := MilestoneTopUpTransaction(client, job, amount);
      Load(tx.(keys := tx.keys[..3] + [Writable(Holder(FeeVault))] + tx.keys[3..]))
        == Some(Step.TopUp(client, job, amount))
  {
    var tx := MilestoneTopUpTransaction(client, job, amount);
    assert tx.keys[..3] + [Writable(Holder(FeeVault))] + tx.keys[3..] == TopUpTransaction(client, job, amount).keys;
  }

  // ---------------------------------------------------------------- what a list has to hold

  predicate Listed(tx: Transaction, account: Account) {
    exists k :: 0 <= k < |tx.keys| && tx.keys[k].account == account
  }

  predicate ListedWritable(tx: Transaction, account: Account) {
    exists k :: 0 <= k < |tx.keys| && tx.keys[k].account == account && tx.keys[k].isWritable
  }

  predicate ListedSigner(tx: Transaction, account: Account) {
    exists k :: 0 <= k < |tx.keys| && tx.keys[k] == Meta(account, true, true)
  }

  /** The accounts an instruction writes to: its signer pays the transaction, its job's record changes,
      and lamports move. */
  ghost predicate Covers(c: Chain, s: Step, tx: Transaction) {
    && ListedSigner(tx, Holder(Key(Outcomes.SignerOf(s))))
    && (JobOf(s).Some? ==> ListedWritable(tx, EscrowOf(JobOf(s).value)))
    && (forall k | 0 <= k < |MovesOf(c, s)| :: CoversMove(MovesOf(c, s)[k], tx))
    && Listed(tx, SystemProgram)
  }

  predicate CoversMove(m: Move, tx: Transaction) {
    && ListedWritable(tx, Holder(m.source))
    && ListedWritable(tx, Holder(m.target))
    && (m.source.Key? ==> ListedSigner(tx, Holder(m.source)))
  }

  lemma FirstSlots(tx: Transaction)
    requires MovesLamports(tx.instruction) && Admitted(tx)
    ensures |tx.keys| >= |Slots(tx.instruction)| >= 3
    ensures Fits(Slots(tx.instruction)[0], tx.keys[0]) && Fits(Slots(tx.instruction)[1], tx.keys[1])
    ensures Fits(Slots(tx.instruction)[2], tx.keys[2])
    ensures forall k | 3 <= k < |Slots(tx.instruction)| :: Fits(Slots(tx.instruction)[k], tx.keys[k])
  {
  }

  lemma RecordCovered(tx: Transaction)
    requires MovesLamports(tx.instruction) && Load(tx).Some?
    ensures ListedSigner(tx, Holder(Key(Outcomes.SignerOf(Load(tx).value))))
    ensures JobOf(Load(tx).value).Some? ==> ListedWritable(tx, EscrowOf(JobOf(Load(tx).value).value))
    ensures Listed(tx, SystemProgram)
  {
    FirstSlots(tx);
    var last := |Slots(tx.instruction)| - 1;
    assert Fits(Slots(tx.instruction)[last], tx.keys[last]);
  }

  lemma MovesCovered(c: Chain, tx: Transaction)
    requires MovesLamports(tx.instruction) && Load(tx).Some?
    requires Handle(c, Load(tx).value).Ok?
    ensures forall k | 0 <= k < |MovesOf(c, Load(tx).value)| :: CoversMove(MovesOf(c, Load(tx).value)[k], tx)
  {
    hide FeeOf, CheckedAdd;
    FirstSlots(tx);
    var slots, keys := Slots(tx.instruction), tx.keys;
    match tx.instruction
    case InitializeEscrow(_, _) => assert Fits(slots[3], keys[3]);
    case TopUpEscrow(_, _) => assert Fits(slots[3], keys[3]);
    case LockEscrow(_, _) => assert Fits(slots[3], keys[3]);
    case ReleaseEscrow(_) => assert Fits(slots[3], keys[3]) && Fits(slots[4], keys[4]);
    case RefundEscrow(_) => assert Fits(slots[3], keys[3]);
    case _ =>
  }

  /** No account is written that the transaction does not list as writable, no wallet pays that did not
      sign it, and the system program that moves the lamports is there: whatever list loads. */
  lemma AccountsCover(c: Chain, tx: Transaction)
    requires MovesLamports(tx.instruction) && Load(tx).Some?
    requires Handle(c, Load(tx).value).Ok?
    ensures Covers(c, Load(tx).value, tx)
  {
    hide Load, Handle, Listed, ListedSigner, ListedWritable, CoversMove;
    RecordCovered(tx);
    MovesCovered(c, tx);
  }
}
