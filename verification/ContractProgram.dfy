/** The on-chain contract record: created once per job, completed at most once, readable ever after. */
module ContractProgram {
  import opened Common
  import opened Borsh
  import opened AccountLayout
  import Ledger

  type Error = Ledger.Error

  const NO_HASH: Bytes32 :=
    [0, 0, 0, 0, 0, 0, 0, 0, 0, 0, 0, 0, 0, 0, 0, 0, 0, 0, 0, 0, 0, 0, 0, 0, 0, 0, 0, 0, 0, 0, 0, 0]

  /** What every stored contract satisfies; `hash` is the job id's SHA-256. */
  predicate WellKept(c: ContractAccount, hash: Bytes32) {
    && c.jobHash == hash
    && |c.metadataUri| <= MAX_URI_LEN
    && |c.completionUri| <= MAX_COMPLETION_URI_LEN
    && c.state != Terminated
    && (c.state == Active ==> c.completionUri == [] && c.completionPdfHash == NO_HASH && c.completedAt == 0)
  }

  class Contracts {
    var contracts: map<Bytes, ContractAccount>
    const jobHash: Bytes -> Bytes32

    ghost predicate Valid()
      reads this
    {
      forall j | j in contracts :: WellKept(contracts[j], jobHash(j))
    }

    constructor (jobHash: Bytes -> Bytes32)
      ensures Valid() && contracts == map[] && this.jobHash == jobHash
    {
      this.jobHash := jobHash;
      contracts := map[];
    }

    method CreateContract(authority: Bytes32, job: Bytes, client: Bytes32, freelancer: Bytes32,
                          metadataUri: Bytes, pdfHash: Bytes32, now: i64, bump: byte) returns (r: Result<(), Error>)
      requires Valid()
      modifies this
      ensures Valid()
      ensures r.Ok? <==> job !in old(contracts) && |job| == 36 && |metadataUri| <= MAX_URI_LEN
      ensures r.Ok? ==> contracts == old(contracts)[job := ContractAccount(
        client, freelancer, authority, jobHash(job), metadataUri, pdfHash, now, Active, [], NO_HASH, 0, bump)]
      ensures r.Err? ==> contracts == old(contracts)
      ensures job in old(contracts) ==> r == Err(Ledger.AccountInUse)
      ensures job !in old(contracts) && |job| != 36 ==> r == Err(Ledger.InvalidJobId)
      ensures job !in old(contracts) && |job| == 36 && |metadataUri| > MAX_URI_LEN
        ==> r == Err(Ledger.MetadataUriTooLong)
    {
      if job in contracts { return Err(Ledger.AccountInUse); }
      if |job| != 36 { return Err(Ledger.InvalidJobId); }
      if |metadataUri| > MAX_URI_LEN { return Err(Ledger.MetadataUriTooLong); }
      contracts := contracts[job := ContractAccount(
        client, freelancer, authority, jobHash(job), metadataUri, pdfHash, now, Active, [], NO_HASH, 0, bump)];
      return Ok(());
    }

    method CompleteContract(authority: Bytes32, job: Bytes, completionUri: Bytes, completionPdfHash: Bytes32, now: i64)
      returns (r: Result<(), Error>)
      requires Valid()
      modifies this
      ensures Valid()
      ensures r.Ok? <==>
        && job in old(contracts) && old(contracts)[job].authority == authority && old(contracts)[job].state == Active
        && |job| == 36 && |completionUri| <= MAX_COMPLETION_URI_LEN
      // The hire itself, parties, URI, hash and date, is never rewritten.
      ensures r.Ok? ==> contracts == old(contracts)[job := old(contracts)[job].(
        state := Completed, completionUri := completionUri, completionPdfHash := completionPdfHash, completedAt := now)]
      ensures r.Err? ==> contracts == old(contracts)
      ensures job !in old(contracts) ==> r == Err(Ledger.AccountMissing)
      ensures r.Err? && job in old(contracts) ==>
        r.error == if old(contracts)[job].authority != authority then Ledger.Unauthorized
                   else if |job| != 36 then Ledger.InvalidJobId
                   else if |completionUri| > MAX_COMPLETION_URI_LEN then Ledger.MetadataUriTooLong
                   else Ledger.AlreadyFinalised
    {
      if job !in contracts { return Err(Ledger.AccountMissing); }
      if contracts[job].authority != authority { return Err(Ledger.Unauthorized); }
      if |job| != 36 { return Err(Ledger.InvalidJobId); }
      if |completionUri| > MAX_COMPLETION_URI_LEN { return Err(Ledger.MetadataUriTooLong); }
      if contracts[job].state != Active { return Err(Ledger.AlreadyFinalised); }
      contracts := contracts[job := contracts[job].(
        state := Completed, completionUri := completionUri, completionPdfHash := completionPdfHash,
        completedAt := now)];
      return Ok(());
    }

    /** The service reads a stored contract back from its account, whose unused end may hold anything. */
    method ReadBack(job: Bytes, unused: Bytes) returns (r: Result<ContractView, ReadError>)
      requires Valid() && job in contracts
      requires |EncodeContract(contracts[job])| + |unused| == CONTRACT_LEN
      ensures var c := contracts[job];
        && r.Ok?
        && r.value.client == c.client && r.value.freelancer == c.freelancer && r.value.authority == c.authority
        && r.value.metadataUri == c.metadataUri && r.value.pdfHash == c.pdfHash
        && r.value.createdAt == ToNumber(c.createdAt) && r.value.state == c.state
        && r.value.completionUri == c.completionUri && r.value.completionPdfHash == c.completionPdfHash
        && r.value.completedAt == ToNumber(c.completedAt)
    {
      StoredFits(contracts[job], jobHash(job));
      r := GetOnChainContract(EncodeContract(contracts[job]) + unused);
    }
  }

  /** Every contract reachable through create and complete fits its account. */
  lemma StoredFits(c: ContractAccount, hash: Bytes32)
    requires WellKept(c, hash)
    ensures ContractFits(c)
    ensures |EncodeContract(c)| <= CONTRACT_LEN
  {
    ContractSize(c);
  }
}
