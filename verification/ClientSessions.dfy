/** The session object of the container: what never changes about it, and its closing mark. */
module ClientSessions {
  import opened Aeron
  import opened SessionTable

  class ContainerClientSession {
    const id: int
    const responseStreamId: int
    const responseChannel: string
    const encodedPrincipal: Bytes
    var isClosing: bool

    constructor (id: int, responseStreamId: int, responseChannel: string, encodedPrincipal: Bytes)
      ensures Value() == Session(id, responseStreamId, responseChannel, encodedPrincipal) && !isClosing
    {
      this.id := id;
      this.responseStreamId := responseStreamId;
      this.responseChannel := responseChannel;
      this.encodedPrincipal := encodedPrincipal;
      isClosing := false;
    }

    function Value(): (s: Session)
      ensures s.id == id
    {
      Session(id, responseStreamId, responseChannel, encodedPrincipal)
    }

    method MarkClosing()
      modifies this
      ensures isClosing
    {
      isClosing := true;
    }

    method ResetClosing()
      modifies this
      ensures !isClosing
    {
      isClosing := false;
    }
  }

  function Values(sessions: seq<ContainerClientSession>): (r: seq<Session>)
    ensures |r| == |sessions| && forall i | 0 <= i < |r| :: r[i] == sessions[i].Value()
  {
    seq(|sessions|, i requires 0 <= i < |sessions| => sessions[i].Value())
  }

  function ValuesById(sessions: map<int, ContainerClientSession>): (r: map<int, Session>)
    ensures r.Keys == sessions.Keys && forall id | id in sessions :: r[id] == sessions[id].Value()
  {
    map id | id in sessions :: sessions[id].Value()
  }

  /** `std::lower_bound` over the vector, by binary search. */
  method FindLowerBound(sessions: seq<ContainerClientSession>, id: int) returns (index: nat)
    requires InOrder(sessions)
    ensures index == LowerBound(Values(sessions), id)
  {
    var first, count := 0, |sessions|;
    while count > 0
      invariant 0 <= first <= first + count <= |sessions|
      invariant forall i | 0 <= i < first :: sessions[i].id < id
      invariant forall i | first + count <= i < |sessions| :: id <= sessions[i].id
    {
      var step := count / 2;
      if sessions[first + step].id < id {
        first, count := first + step + 1, count - step - 1;
      } else {
        count := step;
      }
    }
    index := first;
    LowerBoundIs(Values(sessions), id, index);
  }

  lemma LowerBoundIs(sessions: seq<Session>, id: int, k: nat)
    requires k <= |sessions| && (forall j | 0 <= j < k :: sessions[j].id < id)
             && (k < |sessions| ==> id <= sessions[k].id)
    ensures LowerBound(sessions, id) == k
  {
  }

  /** `std::find_if` over the vector. */
  method FindById(sessions: seq<ContainerClientSession>, id: int) returns (index: nat)
    ensures index == Find(Values(sessions), id)
  {
    index := 0;
    while index < |sessions| && sessions[index].id != id
      invariant index <= |sessions|
      invariant forall i | 0 <= i < index :: sessions[i].id != id
    {
      index := index + 1;
    }
    FindIs(Values(sessions), id, index);
  }

  lemma FindIs(sessions: seq<Session>, id: int, k: nat)
    requires k <= |sessions| && (forall j | 0 <= j < k :: sessions[j].id != id)
             && (k < |sessions| ==> sessions[k].id == id)
    ensures Find(sessions, id) == k
  {
  }

  // ---- The vector and the map of objects ----

  predicate InOrder(sessions: seq<ContainerClientSession>)
  {
    forall i, j | 0 <= i < j < |sessions| :: sessions[i].id <= sessions[j].id
  }

  /** Every object of the map is one of the vector's, under its own id. */
  ghost predicate MapsInto(byId: map<int, ContainerClientSession>, sessions: seq<ContainerClientSession>)
  {
    forall id | id in byId :: byId[id].id == id && byId[id] in sessions
  }

  function Inserted(sessions: seq<ContainerClientSession>, k: nat,
                    s: ContainerClientSession): (r: seq<ContainerClientSession>)
    requires k <= |sessions|
    ensures |r| == |sessions| + 1 && r[k] == s
    ensures forall i | 0 <= i < |sessions| :: r[if i < k then i else i + 1] == sessions[i]
    ensures Values(r) == Put(Values(sessions), k, s.Value())
  {
    sessions[..k] + [s] + sessions[k..]
  }

  function Erased(sessions: seq<ContainerClientSession>, k: nat): (r: seq<ContainerClientSession>)
    requires k < |sessions|
    ensures |r| == |sessions| - 1
    ensures forall i | 0 <= i < |r| :: r[i] == sessions[if i < k then i else i + 1]
    ensures Values(r) == Cut(Values(sessions), k)
  {
    sessions[..k] + sessions[k + 1..]
  }

  lemma InsertedHas(sessions: seq<ContainerClientSession>, k: nat, s: ContainerClientSession)
    requires k <= |sessions|
    ensures forall x :: x in Inserted(sessions, k, s) <==> x in sessions || x == s
  {
    var r := Inserted(sessions, k, s);
    forall x ensures x in r <==> x in sessions || x == s {
      if x in sessions {
        var i :| 0 <= i < |sessions| && sessions[i] == x;
        assert r[if i < k then i else i + 1] == x;
      }
    }
  }

  lemma LowerBoundSplits(sessions: seq<ContainerClientSession>, id: int)
    requires InOrder(sessions)
    ensures var k := LowerBound(Values(sessions), id);
            (forall i | 0 <= i < k :: sessions[i].id < id) && (forall i | k <= i < |sessions| :: id <= sessions[i].id)
  {
    var k, values := LowerBound(Values(sessions), id), Values(sessions);
    assert forall i | 0 <= i < |sessions| :: values[i].id == sessions[i].id;
    forall i | k <= i < |sessions| ensures id <= sessions[i].id {
      assert sessions[k].id <= sessions[i].id;
    }
  }

  lemma InsertedInOrder(sessions: seq<ContainerClientSession>, k: nat, s: ContainerClientSession)
    requires InOrder(sessions) && k <= |sessions|
    requires forall i | 0 <= i < k :: sessions[i].id <= s.id
    requires forall i | k <= i < |sessions| :: s.id <= sessions[i].id
    ensures InOrder(Inserted(sessions, k, s))
  {
    hide Values, Put;
    var r := Inserted(sessions, k, s);
    forall i, j | 0 <= i < j < |r| ensures r[i].id <= r[j].id {
      assert i < k ==> r[i] == sessions[i];
      assert i > k ==> r[i] == sessions[i - 1];
      assert j < k ==> r[j] == sessions[j];
      assert j > k ==> r[j] == sessions[j - 1];
    }
  }

  ghost function ClosingIn(byId: map<int, ContainerClientSession>): set<int>
    reads byId.Values
  {
    set id | id in byId && byId[id].isClosing
  }

  lemma ClosingAfterInsert(byId: map<int, ContainerClientSession>, s: ContainerClientSession)
    requires s.id !in byId && !s.isClosing
    ensures ClosingIn(byId[s.id := s]) == ClosingIn(byId)
  {
  }

  lemma ClosingAfterErase(byId: map<int, ContainerClientSession>, id: int)
    ensures ClosingIn(byId - {id}) == ClosingIn(byId) - {id}
  {
  }

  lemma ValuesAfterInsert(byId: map<int, ContainerClientSession>, s: ContainerClientSession)
    ensures ValuesById(byId[s.id := s]) == ValuesById(byId)[s.id := s.Value()]
  {
  }

  lemma ValuesAfterErase(byId: map<int, ContainerClientSession>, id: int)
    ensures ValuesById(byId - {id}) == ValuesById(byId) - {id}
  {
  }

  lemma ErasedInOrder(sessions: seq<ContainerClientSession>, k: nat)
    requires InOrder(sessions) && k < |sessions|
    ensures InOrder(Erased(sessions, k))
    ensures forall x :: x in Erased(sessions, k) ==> x in sessions
    ensures forall x :: x in sessions && x != sessions[k] ==> x in Erased(sessions, k)
  {
    var r := Erased(sessions, k);
    forall x | x in sessions && x != sessions[k] ensures x in r {
      var i :| 0 <= i < |sessions| && sessions[i] == x;
      assert r[if i < k then i else i - 1] == x;
    }
  }
}
