/** The agent's client sessions, held twice: a vector kept in id order and a map by id. */
module SessionTable {
  import opened Aeron

  datatype Session = Session(id: int, responseStreamId: int, responseChannel: string, encodedPrincipal: Bytes)

  datatype Table = Table(sessions: seq<Session>, byId: map<int, Session>)

  const NO_SESSIONS := Table([], map[])

  /** `std::lower_bound` by id: the first index whose session does not come before `id`. */
  function LowerBound(sessions: seq<Session>, id: int): (k: nat)
    ensures k <= |sessions|
    ensures forall j | 0 <= j < k :: sessions[j].id < id
    ensures k < |sessions| ==> id <= sessions[k].id
  {
    if |sessions| == 0 || id <= sessions[0].id then 0 else 1 + LowerBound(sessions[1..], id)
  }

  /** `std::find_if` by id: the first index whose session has the id, or the length. */
  function Find(sessions: seq<Session>, id: int): (k: nat)
    ensures k <= |sessions|
    ensures forall j | 0 <= j < k :: sessions[j].id != id
    ensures k < |sessions| ==> sessions[k].id == id
  {
    if |sessions| == 0 || sessions[0].id == id then 0 else 1 + Find(sessions[1..], id)
  }

  /** `vector::insert` before index `k`. */
  function Put(sessions: seq<Session>, k: nat, s: Session): (r: seq<Session>)
    requires k <= |sessions|
    ensures |r| == |sessions| + 1 && r[k] == s
    ensures forall i | 0 <= i < k :: r[i] == sessions[i]
    ensures forall i | k < i < |r| :: r[i] == sessions[i - 1]
  {
    sessions[..k] + [s] + sessions[k..]
  }

  /** `vector::erase` at index `k`. */
  function Cut(sessions: seq<Session>, k: nat): (r: seq<Session>)
    requires k < |sessions|
    ensures |r| == |sessions| - 1
    ensures forall i | 0 <= i < k :: r[i] == sessions[i]
    ensures forall i | k <= i < |r| :: r[i] == sessions[i + 1]
  {
    sessions[..k] + sessions[k + 1..]
  }

  /** Insertion into the vector at the lower bound; the map's `insert` keeps an entry it already has. */
  function Add(t: Table, s: Session): Table
  {
    Table(Put(t.sessions, LowerBound(t.sessions, s.id), s),
          if s.id in t.byId then t.byId else t.byId[s.id := s])
  }

  function Remove(t: Table, id: int): (Table, Option<Session>)
  {
    var k := Find(t.sessions, id);
    var byId := t.byId - {id};
    if k < |t.sessions| then (Table(Cut(t.sessions, k), byId), Some(t.sessions[k]))
    else (Table(t.sessions, byId), None)
  }

  ghost predicate Ascending(sessions: seq<Session>)
  {
    forall i, j | 0 <= i < j < |sessions| :: sessions[i].id < sessions[j].id
  }

  ghost predicate Listed(sessions: seq<Session>, s: Session)
  {
    exists i :: 0 <= i < |sessions| && sessions[i] == s
  }

  predicate Has(t: Table, s: Session) { s.id in t.byId && t.byId[s.id] == s }

  /** The two representations agree: the vector is strictly ascending by id, and the map has
      exactly the vector's sessions, each under its own id. */
  ghost predicate Agrees(t: Table)
  {
    && Ascending(t.sessions)
    && (forall i | 0 <= i < |t.sessions| :: t.sessions[i].id in t.byId && t.byId[t.sessions[i].id] == t.sessions[i])
    && (forall id | id in t.byId :: Listed(t.sessions, t.byId[id]) && t.byId[id].id == id)
  }

  lemma PutListed(sessions: seq<Session>, k: nat, s: Session, x: Session)
    requires k <= |sessions|
    ensures Listed(Put(sessions, k, s), x) <==> x == s || Listed(sessions, x)
  {
    var r := Put(sessions, k, s);
    assert r[k] == s;
    if i :| 0 <= i < |sessions| && sessions[i] == x {
      assert r[if i < k then i else i + 1] == x;
    }
    if i :| 0 <= i < |r| && r[i] == x && i != k {
      assert sessions[if i < k then i else i - 1] == x;
    }
  }

  lemma PutAscending(sessions: seq<Session>, k: nat, s: Session)
    requires Ascending(sessions) && k <= |sessions|
    requires forall x | 0 <= x < k :: sessions[x].id < s.id
    requires forall x | k <= x < |sessions| :: s.id < sessions[x].id
    ensures Ascending(Put(sessions, k, s))
  {
    var r := Put(sessions, k, s);
    forall i, j | 0 <= i < j < |r| ensures r[i].id < r[j].id {
      if j < k {
      } else if j == k {
        assert r[i] == sessions[i];
      } else {
        assert r[j] == sessions[j - 1];
        assert i < k ==> r[i] == sessions[i];
        assert i > k ==> r[i] == sessions[i - 1];
      }
    }
  }

  lemma AddNewAgrees(t: Table, s: Session)
    requires Agrees(t) && s.id !in t.byId
    ensures Agrees(Add(t, s))
  {
    var k := LowerBound(t.sessions, s.id);
    var added := Add(t, s);
    forall x | k <= x < |t.sessions| ensures s.id < t.sessions[x].id {
      assert k < x ==> t.sessions[k].id < t.sessions[x].id;
    }
    PutAscending(t.sessions, k, s);
    forall id | id in added.byId ensures Listed(added.sessions, added.byId[id]) {
      PutListed(t.sessions, k, s, added.byId[id]);
    }
    forall i | 0 <= i < |added.sessions|
      ensures added.sessions[i].id in added.byId && added.byId[added.sessions[i].id] == added.sessions[i]
    {
      assert i != k ==> added.sessions[i] == t.sessions[if i < k then i else i - 1];
    }
  }

  /** Adding keeps the agreement if and only if the id is new. */
  lemma AddAgreesIffNew(t: Table, s: Session)
    requires Agrees(t)
    ensures Agrees(Add(t, s)) <==> s.id !in t.byId
    ensures Ascending(Add(t, s).sessions) <==> s.id !in t.byId
  {
    if s.id !in t.byId {
      AddNewAgrees(t, s);
    } else {
      var k, added := LowerBound(t.sessions, s.id), Add(t, s).sessions;
      var i :| 0 <= i < |t.sessions| && t.sessions[i] == t.byId[s.id];
      assert k <= i && added[k] == s && added[i + 1] == t.sessions[i];
      assert !Ascending(added);
    }
  }

  lemma FindInTable(t: Table, id: int)
    requires Agrees(t)
    ensures Find(t.sessions, id) < |t.sessions| <==> id in t.byId
    ensures id in t.byId ==> t.sessions[Find(t.sessions, id)] == t.byId[id]
  {
    if id in t.byId {
      var i :| 0 <= i < |t.sessions| && t.sessions[i] == t.byId[id];
      assert Find(t.sessions, id) == i;
    }
  }

  lemma CutListed(sessions: seq<Session>, k: nat, x: Session)
    requires k < |sessions| && x != sessions[k] && Listed(sessions, x)
    ensures Listed(Cut(sessions, k), x)
  {
    var i :| 0 <= i < |sessions| && sessions[i] == x;
    assert Cut(sessions, k)[if i < k then i else i - 1] == x;
  }

  lemma CutAscending(sessions: seq<Session>, k: nat)
    requires k < |sessions| && Ascending(sessions)
    ensures Ascending(Cut(sessions, k))
    ensures forall i | 0 <= i < |sessions| - 1 :: Cut(sessions, k)[i].id != sessions[k].id
  {
    var r := Cut(sessions, k);
    forall i | 0 <= i < |r| ensures r[i].id != sessions[k].id {
      assert r[i] == sessions[if i < k then i else i + 1];
    }
  }

  /** Removing keeps the agreement, answers exactly the session the map had, and takes out no other. */
  lemma RemoveTakesOne(t: Table, id: int)
    requires Agrees(t)
    ensures var (rest, removed) := Remove(t, id);
            && Agrees(rest)
            && rest.byId == t.byId - {id}
            && removed == (if id in t.byId then Some(t.byId[id]) else None)
            && (removed.None? ==> rest == t)
  {
    FindInTable(t, id);
    var k := Find(t.sessions, id);
    var (rest, removed) := Remove(t, id);
    if k < |t.sessions| {
      CutAscending(t.sessions, k);
      forall other | other in rest.byId ensures Listed(rest.sessions, rest.byId[other]) {
        CutListed(t.sessions, k, t.byId[other]);
      }
      forall i | 0 <= i < |rest.sessions|
        ensures rest.sessions[i].id in rest.byId && rest.byId[rest.sessions[i].id] == rest.sessions[i]
      {
        assert rest.sessions[i] == t.sessions[if i < k then i else i + 1];
      }
    } else {
      assert t.byId - {id} == t.byId;
    }
  }

  /** Removing a session that was just added under a new id gives the table back. */
  lemma RemoveUndoesAdd(t: Table, s: Session)
    requires Agrees(t) && s.id !in t.byId
    ensures Remove(Add(t, s), s.id) == (t, Some(s))
  {
    var k := LowerBound(t.sessions, s.id);
    var put := Put(t.sessions, k, s);
    assert put[k] == s;
    FindAt(put, k);
    assert Cut(put, k) == t.sessions;
    assert t.byId[s.id := s] - {s.id} == t.byId;
  }

  lemma FindAt(sessions: seq<Session>, k: nat)
    requires k < |sessions| && forall j | 0 <= j < k :: sessions[j].id != sessions[k].id
    ensures Find(sessions, sessions[k].id) == k
  {
  }

  /** Agreement leaves no choice: the vector alone determines the map. */
  lemma VectorDeterminesTable(t: Table, u: Table)
    requires Agrees(t) && Agrees(u) && t.sessions == u.sessions
    ensures t == u
  {
    forall id ensures id in t.byId <==> id in u.byId {
      if id in t.byId {
        var i :| 0 <= i < |t.sessions| && t.sessions[i] == t.byId[id];
        assert u.sessions[i].id in u.byId;
      }
      if id in u.byId {
        var i :| 0 <= i < |u.sessions| && u.sessions[i] == u.byId[id];
        assert t.sessions[i].id in t.byId;
      }
    }
    forall id | id in t.byId ensures t.byId[id] == u.byId[id] {
      var i :| 0 <= i < |t.sessions| && t.sessions[i] == t.byId[id];
      assert u.byId[u.sessions[i].id] == u.sessions[i];
    }
  }
}
