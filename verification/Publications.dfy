/** Writing to a publication that may push back: the bounded claim of the consensus module proxy
    and the unbounded offer of the snapshot taker, against a list of the results still to come. */
module Publications {
  import opened Aeron

  const ATTEMPTS := 3

  datatype Claim = CLAIMED | GAVE_UP | REFUSED(result: int)

  /** The `i`-th result of a publication; beyond the list it keeps pushing back. */
  function ResultAt(results: seq<int>, i: nat): int
  {
    if i < |results| then results[i] else BACK_PRESSURED
  }

  predicate IsRetry(result: int) { result <= 0 && !IsFatal(result) }

  /** `tryClaim` after `used` attempts that were all told to retry. */
  function ClaimFrom(results: seq<int>, used: nat): Claim
    decreases ATTEMPTS - used
  {
    if used >= ATTEMPTS then GAVE_UP
    else
      var result := ResultAt(results, used);
      if result > 0 then CLAIMED
      else if IsFatal(result) then REFUSED(result)
      else ClaimFrom(results, used + 1)
  }

  function TryClaim(results: seq<int>): Claim { ClaimFrom(results, 0) }

  /** Attempt `i` is reached and answers `result`. */
  ghost predicate Decides(results: seq<int>, from: nat, i: nat, result: int)
  {
    from <= i && result == ResultAt(results, i) && forall j | from <= j < i :: IsRetry(ResultAt(results, j))
  }

  lemma LaterDecides(results: seq<int>, from: nat)
    requires IsRetry(ResultAt(results, from))
    ensures forall i, result | from < i :: Decides(results, from, i, result) == Decides(results, from + 1, i, result)
  {
  }

  lemma {:induction false} ClaimDecided(results: seq<int>, from: nat, fatal: int)
    requires IsFatal(fatal)
    ensures ClaimFrom(results, from).CLAIMED? <==> Granted(results, from)
    ensures ClaimFrom(results, from) == REFUSED(fatal) <==> RefusedWith(results, from, fatal)
    decreases ATTEMPTS - from
  {
    if from < ATTEMPTS {
      ClaimDecided(results, from + 1, fatal);
      var next: nat := from + 1;
      if i :| from < i < ATTEMPTS && Decides(results, next, i, fatal) && IsRetry(ResultAt(results, from)) {
        LaterDecides(results, from);
        assert Decides(results, from, i, fatal);
      }
      var first := ResultAt(results, from);
      assert Decides(results, from, from, first);
      if IsRetry(first) {
        LaterDecides(results, from);
      } else {
        forall i, result | from < i ensures !Decides(results, from, i, result) {}
      }
    }
  }

  /** Some attempt is granted, and every attempt before it is told to retry. */
  ghost predicate Granted(results: seq<int>, from: nat)
  {
    exists i | from <= i < ATTEMPTS :: Decides(results, from, i, ResultAt(results, i)) && ResultAt(results, i) > 0
  }

  ghost predicate RefusedWith(results: seq<int>, from: nat, fatal: int)
  {
    exists i | from <= i < ATTEMPTS :: Decides(results, from, i, fatal)
  }

  /** A claim is granted exactly when one of three attempts is, all before it being told to retry;
      it fails hard exactly when one is fatal first; and otherwise gives up after the third. */
  lemma BoundedClaim(results: seq<int>, fatal: int)
    requires IsFatal(fatal)
    ensures TryClaim(results) == CLAIMED <==> Granted(results, 0)
    ensures TryClaim(results) == REFUSED(fatal) <==> RefusedWith(results, 0, fatal)
    ensures TryClaim(results) == GAVE_UP <==> forall i | 0 <= i < ATTEMPTS :: IsRetry(ResultAt(results, i))
  {
    ClaimDecided(results, 0, fatal);
    var r0, r1, r2 := ResultAt(results, 0), ResultAt(results, 1), ResultAt(results, 2);
    assert TryClaim(results) == GAVE_UP <==> IsRetry(r0) && IsRetry(r1) && IsRetry(r2);
  }

  // ---- Offers ----

  /** How a sequence of offers ended: all made, refused by a fatal result, or not returned yet. */
  datatype Ending = ALL_OFFERED | OFFER_REFUSED(result: int) | OFFERING

  /** Offer the messages one by one, each until it is taken; the messages taken, and the ending. */
  function OfferAll<M>(messages: seq<M>, results: seq<int>): (r: (seq<M>, Ending))
    ensures r.0 <= messages
    ensures r.1.ALL_OFFERED? <==> r.0 == messages
    decreases |results|
  {
    if messages == [] then ([], ALL_OFFERED)
    else if results == [] then ([], OFFERING)
    else if results[0] > 0 then
      var (taken, ending) := OfferAll(messages[1..], results[1..]);
      ([messages[0]] + taken, ending)
    else if IsFatal(results[0]) then ([], OFFER_REFUSED(results[0]))
    else OfferAll(messages, results[1..])
  }

  // ---- What becomes of offers, read off the results ----

  /** Where the first fatal result is, or the number of results if there is none. */
  function FirstFatal(results: seq<int>): (r: nat)
    ensures r <= |results| && (r < |results| ==> IsFatal(results[r]))
    ensures forall j | 0 <= j < r :: !IsFatal(results[j])
  {
    if results == [] || IsFatal(results[0]) then 0 else FirstFatal(results[1..]) + 1
  }

  /** How many of the results say that a message was taken. */
  function Takes(results: seq<int>): nat
  {
    if results == [] then 0 else (if results[0] > 0 then 1 else 0) + Takes(results[1..])
  }

  /** A message pushed back is offered again: as many messages are taken as there are positive results
      before the first fatal one, up to all; that one is fatal only if it comes before the last message
      is taken; and offers go on while neither has come. */
  lemma {:induction false} OffersExactly<M>(messages: seq<M>, results: seq<int>)
    ensures var (taken, ending) := OfferAll(messages, results);
            var fatal := FirstFatal(results);
            var takes := Takes(results[..fatal]);
            && taken == messages[..if takes < |messages| then takes else |messages|]
            && (ending == ALL_OFFERED <==> |messages| <= takes)
            && (forall r :: ending == OFFER_REFUSED(r) <==>
                  takes < |messages| && fatal < |results| && results[fatal] == r)
            && (ending == OFFERING <==> takes < |messages| && fatal == |results|)
    decreases |results|
  {
    if messages != [] && results != [] && !IsFatal(results[0]) {
      var fatal := FirstFatal(results);
      assert results[..fatal][1..] == results[1..][..fatal - 1] && results[..fatal][0] == results[0];
      if results[0] > 0 {
        OffersExactly(messages[1..], results[1..]);
        assert forall n: nat | n < |messages| :: messages[..n + 1] == [messages[0]] + messages[1..][..n];
      } else {
        OffersExactly(messages, results[1..]);
      }
    }
  }

  /** Offer `k` is the one that is taken: all before it are pushed back. */
  ghost predicate TakenAt(results: seq<int>, k: nat)
  {
    k < |results| && results[k] > 0 && forall j | 0 <= j < k :: IsRetry(results[j])
  }

  ghost predicate RefusedAt(results: seq<int>, k: nat)
  {
    k < |results| && IsFatal(results[k]) && forall j | 0 <= j < k :: IsRetry(results[j])
  }
}
