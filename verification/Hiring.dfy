/** The two-party hire: the client offers with a signature, the freelancer accepts with another. */
module Hiring {
  import opened Common

  datatype Status = Pending | Shortlisted | AwaitingAcceptance | Hired | Rejected

  /** What the client-facing endpoint lets through. */
  datatype Requested = ToShortlisted | ToHired | ToRejected

  datatype Proposal = Proposal(
    client: string,
    applicant: string,
    status: Status,
    clientWallet: string,
    clientSignature: string,
    freelancerWallet: string,
    freelancerSignature: string)

  datatype HireError = NotFound | Forbidden | BadRequest

  function HireMessage(id: string): string {
    "MintJobs:hire:" + id
  }

  /** What is signed is the fixed prefix and the proposal's id, so a signature for one proposal is never
      one for another. */
  lemma HireMessageInjective(a: string, b: string)
    ensures HireMessage(a)[..14] == "MintJobs:hire:" && HireMessage(a)[14..] == a
    ensures HireMessage(a) == HireMessage(b) ==> a == b
  {
    assert b == HireMessage(b)[14..];
  }

  class ProposalService {
    var proposals: map<string, Proposal>
    /** The proposals for which PROPOSAL_HIRED went out, oldest first. */
    var published: seq<string>
    /** Ed25519 verification (RFC 8032, section 5.1.7): wallet, message, signature. */
    const verifies: (string, string, string) -> bool

    ghost predicate ClientSigned(id: string)
      requires id in proposals
      reads this
    {
      verifies(proposals[id].clientWallet, HireMessage(id), proposals[id].clientSignature)
    }

    ghost predicate FreelancerSigned(id: string)
      requires id in proposals
      reads this
    {
      verifies(proposals[id].freelancerWallet, HireMessage(id), proposals[id].freelancerSignature)
    }

    /** An offered proposal carries the client's signature over its own message, a hired one both; and
        PROPOSAL_HIRED went out at most once, for a proposal that was hired by then. */
    ghost predicate Valid()
      reads this
    {
      && (forall id | id in proposals ::
            && (proposals[id].status == AwaitingAcceptance ==> ClientSigned(id))
            && (proposals[id].status == Hired ==> ClientSigned(id) && FreelancerSigned(id)))
      && (forall k | 0 <= k < |published| ::
            && published[k] in proposals
            && (proposals[published[k]].status == Hired || proposals[published[k]].status == Rejected)
            && ClientSigned(published[k]) && FreelancerSigned(published[k]))
      && (forall k, l | 0 <= k < l < |published| :: published[k] != published[l])
    }

    /** One proposal may have moved; a rejected one never does, and a hired one only to rejected. */
    twostate predicate OnlyMoved(id: string)
      reads this
    {
      && (forall j | j in old(proposals) && j != id :: j in proposals && proposals[j] == old(proposals[j]))
      && (forall j | j in proposals && j != id :: j in old(proposals))
      && (id in old(proposals) ==> id in proposals)
      && (id in old(proposals) && old(proposals[id]).status == Rejected ==> proposals[id] == old(proposals[id]))
      && (id in old(proposals) && old(proposals[id]).status == Hired ==>
            proposals[id] == old(proposals[id]) || proposals[id] == old(proposals[id]).(status := Rejected))
    }

    constructor (verifies: (string, string, string) -> bool)
      ensures Valid() && proposals == map[] && published == [] && this.verifies == verifies
    {
      this.verifies := verifies;
      proposals, published := map[], [];
    }

    method Create(id: string, client: string, applicant: string)
      requires Valid() && id !in proposals
      modifies this
      ensures Valid() && published == old(published)
      ensures proposals == old(proposals)[id := Proposal(client, applicant, Pending, "", "", "", "")]
    {
      proposals := proposals[id := Proposal(client, applicant, Pending, "", "", "", "")];
    }

    method UpdateStatus(id: string, caller: string, requested: Requested, clientWallet: string, clientSignature: string)
      returns (r: Result<(), HireError>)
      requires Valid()
      modifies this
      ensures Valid() && OnlyMoved(id) && published == old(published)
      ensures r.Err? ==> proposals == old(proposals)
      ensures id !in old(proposals) ==> r == Err(NotFound)
      ensures r.Err? && id in old(proposals) ==>
        var p := old(proposals)[id];
        var offered := p.status == Hired || p.status == AwaitingAcceptance;
        r == Err(if caller != p.client && caller != p.applicant then Forbidden
                 else if p.status != Rejected && caller != (if offered then p.applicant else p.client) then Forbidden
                 else BadRequest)
      // Who may do what: the client before an offer, afterwards only the applicant, and only to decline.
      ensures r.Ok? <==>
        && id in old(proposals)
        && var p := old(proposals)[id];
           match p.status
           case Rejected => false
           case Hired => caller == p.applicant && requested == ToRejected
           case AwaitingAcceptance => caller == p.applicant && requested == ToRejected
           case _ =>
             caller == p.client
             && (requested == ToHired ==>
                   clientWallet != "" && clientSignature != ""
                   && verifies(clientWallet, HireMessage(id), clientSignature))
      ensures r.Ok? ==> proposals == old(proposals)[id :=
        match requested {
          case ToShortlisted => old(proposals)[id].(status := Shortlisted)
          case ToRejected => old(proposals)[id].(status := Rejected)
          case ToHired => old(proposals)[id].(
            status := AwaitingAcceptance, clientWallet := clientWallet, clientSignature := clientSignature)
        }]
    {
      if id !in proposals { return Err(NotFound); }
      var p := proposals[id];
      var isClient, isApplicant := p.client == caller, p.applicant == caller;
      if !isClient && !isApplicant { return Err(Forbidden); }
      if p.status == Rejected { return Err(BadRequest); }
      if p.status == Hired || p.status == AwaitingAcceptance {
        if !isApplicant { return Err(Forbidden); }
        if requested != ToRejected { return Err(BadRequest); }
      } else {
        if !isClient { return Err(Forbidden); }
      }
      match requested {
        case ToHired =>
          if clientWallet == "" || clientSignature == "" { return Err(BadRequest); }
          if !verifies(clientWallet, HireMessage(id), clientSignature) { return Err(BadRequest); }
          p := p.(status := AwaitingAcceptance, clientWallet := clientWallet, clientSignature := clientSignature);
        case ToShortlisted => p := p.(status := Shortlisted);
        case ToRejected => p := p.(status := Rejected);
      }
      proposals := proposals[id := p];
      return Ok(());
    }

    method AcceptProposal(id: string, applicant: string, wallet: string, signature: string)
      returns (r: Result<(), HireError>)
      requires Valid()
      modifies this`proposals
      ensures Valid() && OnlyMoved(id)
      ensures r.Ok? <==>
        && id in old(proposals) && old(proposals)[id].applicant == applicant
        && old(proposals)[id].status == AwaitingAcceptance && verifies(wallet, HireMessage(id), signature)
      ensures r.Ok? ==> proposals == old(proposals)[id := old(proposals)[id].(
        status := Hired, freelancerWallet := wallet, freelancerSignature := signature)]
      ensures r.Err? ==> proposals == old(proposals)
      ensures r.Err? ==>
        r == Err(if id !in old(proposals) then NotFound
                 else if old(proposals)[id].applicant != applicant then Forbidden
                 else BadRequest)
    {
      if id !in proposals { return Err(NotFound); }
      if proposals[id].applicant != applicant { return Err(Forbidden); }
      if proposals[id].status != AwaitingAcceptance { return Err(BadRequest); }
      if !verifies(wallet, HireMessage(id), signature) { return Err(BadRequest); }
      proposals := proposals[id :=
        proposals[id].(status := Hired, freelancerWallet := wallet, freelancerSignature := signature)];
      return Ok(());
    }

    /** The only publisher of PROPOSAL_HIRED.  Responding or publishing may fail; the hire stands. */
    method HandleAcceptProposal(
      id: string, applicant: string, wallet: string, signature: string, responded: bool, sent: bool)
      returns (r: Result<(), HireError>)
      requires Valid()
      modifies this
      ensures Valid() && OnlyMoved(id)
      ensures published == old(published) + if r.Ok? && responded && sent then [id] else []
      ensures r.Ok? <==>
        && id in old(proposals) && old(proposals)[id].applicant == applicant
        && old(proposals)[id].status == AwaitingAcceptance && verifies(wallet, HireMessage(id), signature)
      ensures r.Ok? ==> id !in old(published)
      ensures r.Ok? ==> proposals == old(proposals)[id := old(proposals)[id].(
        status := Hired, freelancerWallet := wallet, freelancerSignature := signature)]
      ensures r.Err? ==> proposals == old(proposals)
      ensures r.Err? ==>
        r == Err(if id !in old(proposals) then NotFound
                 else if old(proposals)[id].applicant != applicant then Forbidden
                 else BadRequest)
    {
      r := AcceptProposal(id, applicant, wallet, signature);
      if r.Err? || !responded { return; }
      if sent {
        published := published + [id];
      }
    }
  }
}
