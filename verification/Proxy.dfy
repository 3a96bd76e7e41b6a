/** The proxy through which requests reach the consensus module, and the journal of all that happens. */
module Proxy {
  import opened Aeron
  import opened Publications
  import opened AgentSpec

  /** What the container has done to the world so far. */
  class Journal {
    ghost var notes: seq<Note>

    constructor ()
      ensures notes == []
    {
      notes := [];
    }
  }

  class ConsensusModuleProxy {
    const journal: Journal

    constructor (journal: Journal)
      ensures this.journal == journal
    {
      this.journal := journal;
    }

    /** Three attempts at most. GAVE_UP stands for `false`, REFUSED for the exception of `checkResult`. */
    method TryClaim(results: seq<int>) returns (claim: Claim)
      ensures claim == Publications.TryClaim(results)
    {
      var attempts := ATTEMPTS;
      while attempts > 0
        invariant 0 <= attempts <= ATTEMPTS
        invariant Publications.TryClaim(results) == ClaimFrom(results, ATTEMPTS - attempts)
      {
        var result := ResultAt(results, ATTEMPTS - attempts);
        if result > 0 {
          return CLAIMED;
        }
        if IsFatal(result) {
          return REFUSED(result);
        }
        attempts := attempts - 1;
      }
      return GAVE_UP;
    }

    /** Commits the request exactly when it is claimed. */
    method Claim(request: Request, results: seq<int>) returns (claim: Claim)
      modifies journal
      ensures claim == Publications.TryClaim(results)
      ensures journal.notes == if claim.CLAIMED? then old(journal.notes) + [Sent(request)] else old(journal.notes)
    {
      claim := TryClaim(results);
      if claim.CLAIMED? {
        journal.notes := journal.notes + [Sent(request)];
      }
    }

    method Ack(logPosition: int, timestamp: int, ackId: int, relevantId: int, serviceId: int, results: seq<int>)
      returns (claim: Claim)
      modifies journal
      ensures claim == Publications.TryClaim(results)
      ensures journal.notes ==
              if claim.CLAIMED?
              then old(journal.notes) + [Sent(ServiceAck(logPosition, timestamp, ackId, relevantId, serviceId))]
              else old(journal.notes)
    {
      claim := Claim(ServiceAck(logPosition, timestamp, ackId, relevantId, serviceId), results);
    }

    method CloseSession(clusterSessionId: int, results: seq<int>) returns (claim: Claim)
      modifies journal
      ensures claim == Publications.TryClaim(results)
      ensures journal.notes ==
              if claim.CLAIMED? then old(journal.notes) + [Sent(Request.CloseSession(clusterSessionId))]
              else old(journal.notes)
    {
      claim := Claim(Request.CloseSession(clusterSessionId), results);
    }
  }
}
