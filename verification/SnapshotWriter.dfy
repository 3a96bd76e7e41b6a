/** The writer of the agent's part of a snapshot, over a publication that may push back. */
module SnapshotWriter {
  import opened Aeron
  import opened SessionTable
  import opened Publications
  import opened Snapshots
  import opened ClientSessions

  class SnapshotPublication {
    var messages: seq<SnapshotMessage>

    constructor ()
      ensures messages == []
    {
      messages := [];
    }
  }

  /** What is left of the results after one message was offered, and how that ended. */
  function OfferOne(results: seq<int>): (r: (seq<int>, Ending))
    ensures r.1 != ALL_OFFERED ==> r.0 == []
  {
    if results == [] then ([], OFFERING)
    else if results[0] > 0 then (results[1..], ALL_OFFERED)
    else if IsFatal(results[0]) then ([], OFFER_REFUSED(results[0]))
    else OfferOne(results[1..])
  }

  /** Offering messages in a row is offering the first and then the others. */
  lemma {:induction false} OfferFirst<M>(messages: seq<M>, results: seq<int>)
    requires messages != []
    ensures var (rest, ending) := OfferOne(results);
            var others := OfferAll(messages[1..], rest);
            OfferAll(messages, results) ==
            if ending == ALL_OFFERED then ([messages[0]] + others.0, others.1) else ([], ending)
    decreases |results|
  {
    if results != [] && results[0] <= 0 && !IsFatal(results[0]) {
      OfferFirst(messages, results[1..]);
    }
  }

  lemma PushedBackFirst(results: seq<int>, k: nat)
    requires results != [] && IsRetry(results[0])
    ensures TakenAt(results, k) <==> k > 0 && TakenAt(results[1..], k - 1)
    ensures RefusedAt(results, k) <==> k > 0 && RefusedAt(results[1..], k - 1)
  {
    assert forall j | 1 <= j < |results| :: results[j] == results[1..][j - 1];
  }

  lemma RetriesLater(results: seq<int>)
    requires results != [] && IsRetry(results[0])
    ensures (forall k | 0 <= k < |results| :: IsRetry(results[k])) <==>
            (forall k | 0 <= k < |results[1..]| :: IsRetry(results[1..][k]))
    ensures forall k: nat | TakenAt(results[1..], k) :: results[1..][k + 1..] == results[k + 2..]
    ensures forall k: nat | TakenAt(results[1..], k) :: TakenAt(results, k + 1)
    ensures forall k: nat | RefusedAt(results[1..], k) :: RefusedAt(results, k + 1) && results[1..][k] == results[k + 1]
  {
    assert forall k | 1 <= k < |results| :: results[k] == results[1..][k - 1];
    forall k: nat | TakenAt(results[1..], k) ensures TakenAt(results, k + 1) {
      PushedBackFirst(results, k + 1);
    }
    forall k: nat | RefusedAt(results[1..], k)
      ensures RefusedAt(results, k + 1) && results[1..][k] == results[k + 1]
    {
      PushedBackFirst(results, k + 1);
    }
  }

  lemma OncePositiveOrFatal(results: seq<int>)
    requires results != [] && !IsRetry(results[0])
    ensures forall k: nat :: TakenAt(results, k) <==> k == 0 && results[0] > 0
    ensures forall k: nat :: RefusedAt(results, k) <==> k == 0 && IsFatal(results[0])
  {
  }

  /** One message is offered until a result is positive or fatal, whatever pushes it back before. */
  lemma {:induction false} OffersOnce(results: seq<int>)
    ensures var (rest, ending) := OfferOne(results);
            && (ending == ALL_OFFERED <==> exists k: nat :: TakenAt(results, k))
            && (forall k: nat | TakenAt(results, k) :: rest == results[k + 1..])
            && (forall r :: ending == OFFER_REFUSED(r) <==> exists k: nat :: RefusedAt(results, k) && results[k] == r)
            && (ending == OFFERING <==> forall k | 0 <= k < |results| :: IsRetry(results[k]))
  {
    if results != [] {
      if IsRetry(results[0]) {
        var others := results[1..];
        OffersOnce(others);
        forall k: nat ensures TakenAt(results, k) <==> k > 0 && TakenAt(others, k - 1) {
          PushedBackFirst(results, k);
        }
        forall k: nat ensures RefusedAt(results, k) <==> k > 0 && RefusedAt(others, k - 1) {
          PushedBackFirst(results, k);
        }
        RetriesLater(results);
      } else {
        OncePositiveOrFatal(results);
        assert TakenAt(results, 0) || RefusedAt(results, 0);
      }
    }
  }

  class ServiceSnapshotTaker {
    const publication: SnapshotPublication

    constructor (publication: SnapshotPublication)
      ensures this.publication == publication
    {
      this.publication := publication;
    }

    /** Offers until the message is taken or refused, or until no more results are known. */
    method Offer(message: SnapshotMessage, results: seq<int>) returns (rest: seq<int>, ending: Ending)
      modifies publication
      ensures (rest, ending) == OfferOne(results)
      ensures publication.messages == old(publication.messages) + if ending == ALL_OFFERED then [message] else []
      ensures ending == ALL_OFFERED <==> exists k: nat :: TakenAt(results, k)
      ensures forall k: nat | TakenAt(results, k) :: rest == results[k + 1..]
      ensures forall r :: ending == OFFER_REFUSED(r) <==> exists k: nat :: RefusedAt(results, k) && results[k] == r
      ensures ending == OFFERING <==> forall k | 0 <= k < |results| :: IsRetry(results[k])
    {
      OffersOnce(results);
      rest := results;
      while rest != []
        invariant OfferOne(rest) == OfferOne(results)
        invariant publication.messages == old(publication.messages)
        decreases |rest|
      {
        var result := rest[0];
        rest := rest[1..];
        if result > 0 {
          publication.messages := publication.messages + [message];
          return rest, ALL_OFFERED;
        }
        if IsFatal(result) {
          return [], OFFER_REFUSED(result);
        }
      }
      return [], OFFERING;
    }

    method MarkSnapshot(mark: Mark, logPosition: int, leadershipTermId: int, appVersion: int, results: seq<int>)
      returns (rest: seq<int>, ending: Ending)
      modifies publication
      ensures (rest, ending) == OfferOne(results)
      ensures publication.messages == old(publication.messages) +
                                      if ending == ALL_OFFERED
                                      then [Marker(mark, logPosition, leadershipTermId, appVersion)] else []
    {
      rest, ending := Offer(Marker(mark, logPosition, leadershipTermId, appVersion), results);
    }

    method SnapshotSession(session: ContainerClientSession, results: seq<int>) returns (rest: seq<int>, ending: Ending)
      modifies publication
      ensures (rest, ending) == OfferOne(results)
      ensures publication.messages == old(publication.messages) +
                                      if ending == ALL_OFFERED then [ClientSessionRecord(session.Value())] else []
    {
      rest, ending := Offer(
        ClientSessionRecord(Session(session.id, session.responseStreamId, session.responseChannel,
                                    session.encodedPrincipal)),
        results);
    }
  }

  /** How far writing has come: `k` of the messages are out, and the others are still to be offered. */
  ghost predicate WrittenUpTo(before: seq<SnapshotMessage>, now: seq<SnapshotMessage>, messages: seq<SnapshotMessage>,
                              k: nat, results: seq<int>, rest: seq<int>)
    requires k <= |messages|
  {
    && now == before + messages[..k]
    && OfferAll(messages, results) == (messages[..k] + OfferAll(messages[k..], rest).0, OfferAll(messages[k..], rest).1)
  }

  /** One message more, or the end of it all. */
  lemma OneMoreWritten(before: seq<SnapshotMessage>, now: seq<SnapshotMessage>, messages: seq<SnapshotMessage>,
                       k: nat, results: seq<int>, rest: seq<int>, more: seq<SnapshotMessage>)
    requires k < |messages| && WrittenUpTo(before, now, messages, k, results, rest)
    requires more == now + if OfferOne(rest).1 == ALL_OFFERED then [messages[k]] else []
    ensures OfferOne(rest).1 == ALL_OFFERED ==> WrittenUpTo(before, more, messages, k + 1, results, OfferOne(rest).0)
    ensures OfferOne(rest).1 != ALL_OFFERED ==>
              more == before + OfferAll(messages, results).0 && OfferAll(messages, results).1 == OfferOne(rest).1
  {
    OfferFirst(messages[k..], rest);
    assert messages[k..][1..] == messages[k + 1..] && messages[k..][0] == messages[k];
    var left := OfferAll(messages[k + 1..], OfferOne(rest).0).0;
    assert messages[..k + 1] == messages[..k] + [messages[k]];
    assert messages[..k] + ([messages[k]] + left) == messages[..k + 1] + left;
    assert messages[..k] + [] == messages[..k];
  }

  lemma NothingWritten(before: seq<SnapshotMessage>, messages: seq<SnapshotMessage>, results: seq<int>)
    ensures WrittenUpTo(before, before, messages, 0, results, results)
  {
    assert messages[0..] == messages && messages[..0] == [] && before + [] == before;
    assert [] + OfferAll(messages, results).0 == OfferAll(messages, results).0;
  }

  /** `snapshotState`: BEGIN, a record for each session in the vector's order, END. */
  method WriteSnapshot(publication: SnapshotPublication, sessions: seq<ContainerClientSession>, logPosition: int,
                       leadershipTermId: int, appVersion: int, results: seq<int>) returns (ending: Ending)
    modifies publication
    ensures var offered := OfferAll(SnapshotOf(Values(sessions), logPosition, leadershipTermId, appVersion), results);
            publication.messages == old(publication.messages) + offered.0 && ending == offered.1
  {
    hide WrittenUpTo, OfferAll, OfferOne;
    var taker := new ServiceSnapshotTaker(publication);
    ghost var messages := SnapshotOf(Values(sessions), logPosition, leadershipTermId, appVersion);
    ghost var before := publication.messages;
    ghost var now := before;
    NothingWritten(before, messages, results);
    var rest := results;
    rest, ending := taker.MarkSnapshot(BEGIN, logPosition, leadershipTermId, appVersion, rest);
    OneMoreWritten(before, now, messages, 0, results, results, publication.messages);
    if ending != ALL_OFFERED {
      return;
    }
    var i := 0;
    while i < |sessions|
      invariant i <= |sessions|
      invariant WrittenUpTo(before, publication.messages, messages, i + 1, results, rest)
    {
      now := publication.messages;
      ghost var left := rest;
      rest, ending := taker.SnapshotSession(sessions[i], rest);
      OneMoreWritten(before, now, messages, i + 1, results, left, publication.messages);
      if ending != ALL_OFFERED {
        return;
      }
      i := i + 1;
    }
    now := publication.messages;
    ghost var left := rest;
    rest, ending := taker.MarkSnapshot(END, logPosition, leadershipTermId, appVersion, rest);
    OneMoreWritten(before, now, messages, i + 1, results, left, publication.messages);
    if ending == ALL_OFFERED {
      AllWritten(before, publication.messages, messages, results, rest);
    }
  }

  lemma AllWritten(before: seq<SnapshotMessage>, now: seq<SnapshotMessage>, messages: seq<SnapshotMessage>,
                   results: seq<int>, rest: seq<int>)
    requires WrittenUpTo(before, now, messages, |messages|, results, rest)
    ensures OfferAll(messages, results) == (messages, ALL_OFFERED) && now == before + messages
  {
    assert messages[..|messages|] == messages && messages[|messages|..] == [];
  }
}
