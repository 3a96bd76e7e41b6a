/** What a journal of callbacks and requests says of acks, of sessions and of the clock. */
module Journals {
  import opened Aeron
  import opened SessionTable
  import opened ReplicatedState
  import opened AgentSpec

  function Acks(journal: seq<Note>): seq<Request>
  {
    if |journal| == 0 then []
    else
      var init := Acks(journal[..|journal| - 1]);
      match journal[|journal| - 1]
      case Sent(ServiceAck(p, t, id, r, v)) => init + [ServiceAck(p, t, id, r, v)]
      case _ => init
  }

  /** The session's object comes into being, in the open state. */
  predicate Begins(n: Note, id: int)
  {
    (n.Called? && n.callback.OnSessionOpen? && n.callback.session.id == id) || (n.Restored? && n.session.id == id)
  }

  predicate Ends(n: Note, id: int)
  {
    n.Called? && n.callback.OnSessionClose? && n.callback.session.id == id
  }

  predicate IsMessageFor(n: Note, id: int)
  {
    n.Called? && n.callback.OnSessionMessage? && n.callback.session.id == id
  }

  predicate IsOpen(journal: seq<Note>, id: int)
  {
    |journal| > 0 &&
    var last := journal[|journal| - 1];
    Begins(last, id) || (!Ends(last, id) && IsOpen(journal[..|journal| - 1], id))
  }

  /** (open, message*, close)*, the last of them possibly still open. */
  ghost predicate Shaped(journal: seq<Note>, id: int)
  {
    |journal| > 0 ==>
      var init, last := journal[..|journal| - 1], journal[|journal| - 1];
      && Shaped(init, id)
      && (Begins(last, id) ==> !IsOpen(init, id))
      && (IsMessageFor(last, id) || Ends(last, id) ==> IsOpen(init, id))
  }

  /** Committed requests to close the session since its object came into being or a leader's join
      reset the closing marks. */
  function CloseRequests(journal: seq<Note>, id: int): nat
  {
    if |journal| == 0 then 0
    else
      var last := journal[|journal| - 1];
      if Begins(last, id) || last.ClosingReset? then 0
      else CloseRequests(journal[..|journal| - 1], id) + (if last == Sent(CloseSession(id)) then 1 else 0)
  }

  /** Never a second committed close request, at any point of the journal. */
  ghost predicate AtMostOnce(journal: seq<Note>, id: int)
  {
    |journal| > 0 ==> AtMostOnce(journal[..|journal| - 1], id) && CloseRequests(journal, id) <= 1
  }

  /** The clock readings at which the service adapter was polled. */
  function Ticks(journal: seq<Note>): seq<int>
  {
    if |journal| == 0 then []
    else
      var init := Ticks(journal[..|journal| - 1]);
      match journal[|journal| - 1]
      case AdapterPolled(nowNs) => init + [nowNs]
      case _ => init
  }

  // ---- Counting notes ----

  /** How many of the notes there are that satisfy a predicate. */
  function Count(matches: Note -> bool, journal: seq<Note>): nat
  {
    if |journal| == 0 then 0
    else Count(matches, journal[..|journal| - 1]) + (if matches(journal[|journal| - 1]) then 1 else 0)
  }

  lemma {:induction false} CountAdds(matches: Note -> bool, journal: seq<Note>, more: seq<Note>)
    ensures Count(matches, journal + more) == Count(matches, journal) + Count(matches, more)
    decreases |more|
  {
    if more == [] {
      assert journal + more == journal;
    } else {
      var init := more[..|more| - 1];
      assert (journal + more)[..|journal + more| - 1] == journal + init;
      CountAdds(matches, journal, init);
    }
  }

  lemma {:induction false} CountIsZero(matches: Note -> bool, journal: seq<Note>)
    ensures Count(matches, journal) == 0 <==> forall k | 0 <= k < |journal| :: !matches(journal[k])
  {
    if |journal| > 0 {
      CountIsZero(matches, journal[..|journal| - 1]);
    }
  }

  lemma CountOne(matches: Note -> bool, n: Note)
    ensures Count(matches, [n]) == (if matches(n) then 1 else 0) && Count(matches, []) == 0
  {
    assert [n][..0] == [];
  }

  // ---- One more note ----

  lemma Snoc(journal: seq<Note>, n: Note)
    ensures Acks(journal + [n]) ==
            Acks(journal) + (if n.Sent? && n.request.ServiceAck? then [n.request] else [])
    ensures Ticks(journal + [n]) == Ticks(journal) + (if n.AdapterPolled? then [n.nowNs] else [])
    ensures forall id :: IsOpen(journal + [n], id) <==> Begins(n, id) || (!Ends(n, id) && IsOpen(journal, id))
    ensures forall id :: Shaped(journal + [n], id) <==>
                         && Shaped(journal, id)
                         && (Begins(n, id) ==> !IsOpen(journal, id))
                         && (IsMessageFor(n, id) || Ends(n, id) ==> IsOpen(journal, id))
    ensures forall id :: CloseRequests(journal + [n], id) ==
                         if Begins(n, id) || n.ClosingReset? then 0
                         else CloseRequests(journal, id) + (if n == Sent(CloseSession(id)) then 1 else 0)
    ensures forall id :: AtMostOnce(journal + [n], id) <==>
                         AtMostOnce(journal, id) && CloseRequests(journal + [n], id) <= 1
  {
    assert (journal + [n])[..|journal|] == journal;
  }

  lemma AtMostOneNow(journal: seq<Note>, id: int)
    requires AtMostOnce(journal, id)
    ensures CloseRequests(journal, id) <= 1
  {
  }
}
