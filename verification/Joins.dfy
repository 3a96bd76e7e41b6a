/** Joins over a run: the role of the agent is the one the service was told last, the closing marks are taken off
    by leaders' joins and by nothing else, and what is joined is what the consensus module asked for last. */
module Joins {
  import opened Aeron
  import opened SessionTable
  import opened ReplicatedState
  import opened Reassembly
  import opened Publications
  import opened Snapshots
  import opened AgentSpec
  import opened SnapshotFreeze
  import opened DutyCycles
  import opened Journals
  import opened AckNumbers
  import opened Invariants
  import opened PendingAcks

  // ---- The role ----

  predicate TellsRole(n: Note) { n.Called? && n.callback.OnRoleChange? }

  /** The role the service was told last, or the first one. */
  function RoleTold(journal: seq<Note>, first: Role): Role
  {
    if |journal| == 0 then first
    else
      var last := journal[|journal| - 1];
      if TellsRole(last) then last.callback.role else RoleTold(journal[..|journal| - 1], first)
  }

  /** Every role told is another one than that told before. */
  ghost predicate AlwaysNews(journal: seq<Note>, first: Role)
  {
    forall k | 0 <= k < |journal| && TellsRole(journal[k]) ::
      journal[k].callback.role != RoleTold(journal[..k], first)
  }

  ghost predicate RoleKnown(s: AgentState, first: Role)
  {
    s.role == RoleTold(s.journal, first) && AlwaysNews(s.journal, first)
  }

  lemma OneMoreTold(journal: seq<Note>, n: Note, first: Role)
    ensures RoleTold(journal + [n], first) == if TellsRole(n) then n.callback.role else RoleTold(journal, first)
    ensures AlwaysNews(journal + [n], first) <==>
            AlwaysNews(journal, first) && (TellsRole(n) ==> n.callback.role != RoleTold(journal, first))
  {
    var all := journal + [n];
    assert all[..|journal|] == journal;
    forall k | 0 <= k < |journal| ensures all[k] == journal[k] && all[..k] == journal[..k] {}
    assert all[|journal|] == n;
  }

  lemma {:induction false} NothingTold(journal: seq<Note>, more: seq<Note>, first: Role)
    requires forall k | 0 <= k < |more| :: !TellsRole(more[k])
    ensures RoleTold(journal + more, first) == RoleTold(journal, first)
    ensures AlwaysNews(journal + more, first) <==> AlwaysNews(journal, first)
    decreases |more|
  {
    hide RoleTold, AlwaysNews;
    if more == [] {
      assert journal + more == journal;
    } else {
      var init, last := more[..|more| - 1], more[|more| - 1];
      NothingTold(journal, init, first);
      assert journal + more == (journal + init) + [last];
      OneMoreTold(journal + init, last, first);
    }
  }

  /** The same role, and nothing told of any. */
  ghost predicate KeepsRole(s: AgentState, t: AgentState)
  {
    && s.journal <= t.journal && t.role == s.role
    && forall k | |s.journal| <= k < |t.journal| :: !TellsRole(t.journal[k])
  }

  lemma KeptRoleKnown(s: AgentState, t: AgentState, first: Role)
    requires RoleKnown(s, first) && KeepsRole(s, t)
    ensures RoleKnown(t, first)
  {
    var more := t.journal[|s.journal|..];
    assert t.journal == s.journal + more;
    NothingTold(s.journal, more, first);
  }

  /** A role that is told if it is a new one. */
  ghost predicate TakesRole(s: AgentState, t: AgentState, role: Role)
  {
    t.role == role && t.journal == s.journal + if role == s.role then [] else [Called(OnRoleChange(role))]
  }

  lemma TakenRoleKnown(s: AgentState, t: AgentState, role: Role, first: Role)
    requires RoleKnown(s, first) && TakesRole(s, t, role)
    ensures RoleKnown(t, first)
  {
    hide RoleTold, AlwaysNews;
    if role != s.role {
      OneMoreTold(s.journal, Called(OnRoleChange(role)), first);
    } else {
      assert s.journal + [] == s.journal;
    }
  }

  /** What the journal of a join holds before the role. */
  function BeforeRole(s: AgentState, c: Cycle, role: Role): AgentState
  {
    s.(journal := s.journal
                  + (if TryClaim(c.joinClaims) == CLAIMED then [PlainAck(s)] else [])
                  + (if role == LEADER then [ClosingReset] else []))
  }

  lemma JoinTakesRole(s: AgentState, c: Cycle, t: AgentState, joined: bool, first: Role)
    requires s.activeLog.Some? && s.failure.None? && JoinedTo(s, c, t, joined) && RoleKnown(s, first)
    ensures RoleKnown(t, first)
  {
    hide RoleKnown, TryClaim, FoundOf;
    if joined {
      var role := FoundOf(s.activeLog.value, c).role;
      KeptRoleKnown(s, BeforeRole(s, c, role), first);
      TakenRoleKnown(BeforeRole(s, c, role), t, role, first);
    } else {
      KeptRoleKnown(s, t, first);
    }
  }

  lemma AckedKeepsRole(s: AgentState, c: Cycle, t: AgentState)
    requires AckedIfDue(s, c, t)
    ensures KeepsRole(s, t)
  {
    hide TryClaim;
  }

  lemma SameKeepsRole(s: AgentState, t: AgentState)
    requires t.journal == s.journal && t.role == s.role
    ensures KeepsRole(s, t)
  {
  }

  lemma ToldKeepsRole(s: AgentState, c: Cycle)
    requires s.failure.None?
    ensures KeepsRole(s, Told(s, c))
  {
    ToldExactly(s, c);
    hide Told;
  }

  /** A tick in which the join does not come about, nor fails. */
  lemma UnjoinedRoleKnown(told: AgentState, c: Cycle, t: AgentState, first: Role)
    requires told.failure.None? && RoleKnown(told, first)
    requires var waiting :=
               if WaitsToJoin(told) then told.(activeLog := Some(FoundOf(told.activeLog.value, c))) else told;
             AckedIfDue(waiting, c, t)
    ensures RoleKnown(t, first)
  {
    var waiting := if WaitsToJoin(told) then told.(activeLog := Some(FoundOf(told.activeLog.value, c))) else told;
    hide *;
    SameKeepsRole(told, waiting);
    KeptRoleKnown(told, waiting, first);
    AckedKeepsRole(waiting, c, t);
    KeptRoleKnown(waiting, t, first);
  }

  lemma TickRoleKnown(s: AgentState, c: Cycle, first: Role)
    requires s.failure.None? && RoleKnown(s, first)
    ensures RoleKnown(PollServiceAdapter(s, c), first)
  {
    var told, t := Told(s, c), PollServiceAdapter(s, c);
    TicksExactly(s, c);
    hide RoleKnown, Told, PollServiceAdapter, JoinedTo, AckedIfDue, FoundOf, AllFound, KeepsRole, WaitsToJoin;
    ToldKeepsRole(s, c);
    KeptRoleKnown(s, told, first);
    if told.failure.None? {
      if WaitsToJoin(told) && AllFound(FoundOf(told.activeLog.value, c)) {
        var joining, joined :| && JoinedTo(told, c, joining, joined)
                               && t == if joined then joining.(activeLog := None) else joining;
        JoinTakesRole(told, c, joining, joined, first);
        SameKeepsRole(joining, t);
        KeptRoleKnown(joining, t, first);
      } else {
        UnjoinedRoleKnown(told, c, t, first);
      }
    }
  }

  lemma LogRoleKnown(s: AgentState, c: Cycle, first: Role)
    requires s.failure.None? && RoleKnown(s, first)
    ensures RoleKnown(PollLog(s, c), first)
  {
    if s.image.Some? {
      var available := if c.imageClosed then 0 else c.available;
      var read := Poll(s, c.commitPosition, available, s.config.fragmentLimit, c.accepts).0;
      PollCalls(s, c.commitPosition, available, s.config.fragmentLimit, c.accepts);
      ClosesExactly(s, c);
      hide RoleKnown, Poll, PollLog, Position;
      KeptRoleKnown(s, read, first);
      if PollLog(s, c) != read {
        TakenRoleKnown(read, PollLog(s, c), FOLLOWER, first);
      }
    }
  }

  lemma WorkKeepsRole(s: AgentState, c: SnapshotCycle)
    requires s.snapshot.Some? && s.failure.None?
    ensures KeepsRole(s, SnapshotWork(s, c).0)
  {
    WorksExactly(s, c);
    hide SnapshotWork, WorkFailure, StateIsOut, ServicePartDone, Writes;
  }

  lemma ReadyRoleKnown(s: AgentState, c: Cycle, first: Role)
    requires RoleKnown(s, first) && s.failure.None?
    ensures BehindSnapshot(s, c).Some? ==> RoleKnown(BehindSnapshot(s, c).value, first)
    ensures s.snapshot.Some? ==> RoleKnown(SnapshotWork(s, c.snapshot).0, first)
  {
    hide RoleKnown, SnapshotWork;
    if s.snapshot.Some? {
      var worked := SnapshotWork(s, c.snapshot).0;
      WorkKeepsRole(s, c.snapshot);
      KeptRoleKnown(s, worked, first);
      KeptRoleKnown(worked, worked.(snapshot := None), first);
    }
  }

  lemma CycleRoleKnown(s: AgentState, c: Cycle, first: Role)
    requires RoleKnown(s, first)
    ensures RoleKnown(DoWork(s, c), first)
  {
    CycleInParts(s, c);
    if s.failure.None? {
      ReadyRoleKnown(s, c, first);
      if BehindSnapshot(s, c).Some? {
        var ready := BehindSnapshot(s, c).value;
        ClockExactly(ready, c);
        hide RoleKnown, BehindSnapshot, AtAdapter, DoWork, PollLog, CheckForClockTick, PollServiceAdapter;
        if AtAdapter(s, Duty(c)).Some? {
          var at := AtAdapter(s, Duty(c)).value;
          KeptRoleKnown(ready, at, first);
          TickRoleKnown(at, c, first);
          if PollServiceAdapter(at, c).failure.None? {
            LogRoleKnown(PollServiceAdapter(at, c), c, first);
          }
        } else {
          var clock := CheckForClockTick(ready, c).0;
          KeptRoleKnown(ready, clock, first);
          if clock.failure.None? {
            LogRoleKnown(clock, c, first);
          }
        }
      } else {
        hide RoleKnown, AtAdapter, DoWork, SnapshotWork;
      }
    }
  }

  lemma StepRoleKnown(s: AgentState, i: Input, first: Role)
    requires RoleKnown(s, first)
    ensures RoleKnown(Step(s, i), first)
  {
    hide RoleKnown, DoWork, TryClaim;
    if i.Duty? {
      CycleRoleKnown(s, i.cycle, first);
    } else {
      KeptRoleKnown(s, Step(s, i), first);
    }
  }

  /** In every run the agent has the role the service was told last, and the service is told of a role only
      when it is another one. */
  lemma {:induction false} RoleIsToldOnce(s: AgentState, inputs: seq<Input>, first: Role)
    requires RoleKnown(s, first)
    ensures RoleKnown(Run(s, inputs), first)
    decreases |inputs|
  {
    hide RoleKnown, Step;
    if |inputs| > 0 {
      var init := inputs[..|inputs| - 1];
      RoleIsToldOnce(s, init, first);
      StepRoleKnown(Run(s, init), inputs[|inputs| - 1], first);
    }
  }

  // ---- What is joined ----

  /** The join the consensus module asked for last, in the inputs of a run. */
  function JoinAsked(s: AgentState, inputs: seq<Input>): Option<AdapterMessage>
  {
    if |inputs| == 0 then None
    else
      var init, last := inputs[..|inputs| - 1], inputs[|inputs| - 1];
      if AtAdapter(Run(s, init), last).Some? && AsksToJoin(last.cycle.adapterMessage)
      then Some(last.cycle.adapterMessage) else JoinAsked(s, init)
  }

  predicate AsksToJoin(m: AdapterMessage) { m.JoinLog? && 0 <= m.role <= 2 }

  /** What the pending join is for is what the message asked for. */
  predicate IsFor(a: ActiveLog, m: AdapterMessage)
  {
    && AsksToJoin(m) && a.logPosition == m.logPosition && a.maxLogPosition == m.maxLogPosition
    && a.memberId == m.memberId && IsCode(m.role, a.role)
  }

  predicate PendingIsFor(s: AgentState, m: Option<AdapterMessage>)
  {
    s.activeLog.Some? ==> m.Some? && IsFor(s.activeLog.value, m.value)
  }

  function AskedNow(m: AdapterMessage, before: Option<AdapterMessage>): Option<AdapterMessage>
  {
    if AsksToJoin(m) then Some(m) else before
  }

  lemma ToldIsFor(s: AgentState, c: Cycle, before: Option<AdapterMessage>)
    requires s.failure.None? && PendingIsFor(s, before)
    ensures PendingIsFor(Told(s, c), AskedNow(c.adapterMessage, before))
  {
    ToldExactly(s, c);
    hide Told;
  }

  lemma TickIsFor(s: AgentState, c: Cycle, m: Option<AdapterMessage>)
    requires s.failure.None? && PendingIsFor(Told(s, c), m)
    ensures PollServiceAdapter(s, c).failure.None? ==> PendingIsFor(PollServiceAdapter(s, c), m)
  {
    TicksExactly(s, c);
    var told, t := Told(s, c), PollServiceAdapter(s, c);
    hide Told, PollServiceAdapter, TryClaim;
    if told.failure.None? && WaitsToJoin(told) && AllFound(FoundOf(told.activeLog.value, c)) {
      var joining, joined :| && JoinedTo(told, c, joining, joined)
                             && t == if joined then joining.(activeLog := None) else joining;
    }
  }

  lemma LogIsFor(s: AgentState, c: Cycle)
    requires s.failure.None?
    ensures PollLog(s, c).activeLog == s.activeLog && s.journal <= PollLog(s, c).journal
    ensures forall k | |s.journal| <= k < |PollLog(s, c).journal| ::
              IsLogCall(PollLog(s, c).journal[k]) || TellsRole(PollLog(s, c).journal[k])
    ensures forall id | id in PollLog(s, c).closing :: id in s.closing
  {
    if s.image.Some? {
      var available := if c.imageClosed then 0 else c.available;
      PollCalls(s, c.commitPosition, available, s.config.fragmentLimit, c.accepts);
      ClosesExactly(s, c);
      hide Poll, PollLog, Position, IsLogCall;
    }
  }

  lemma CycleIsFor(s: AgentState, c: Cycle, before: Option<AdapterMessage>)
    requires PendingIsFor(s, before)
    ensures var m := if AtAdapter(s, Duty(c)).Some? then AskedNow(c.adapterMessage, before) else before;
            DoWork(s, c).failure.None? ==> PendingIsFor(DoWork(s, c), m)
  {
    CycleInParts(s, c);
    if s.failure.None? {
      ReadyKeepsPending(s, c);
    }
    if BehindSnapshot(s, c).Some? {
      var ready := BehindSnapshot(s, c).value;
      ClockExactly(ready, c);
      hide BehindSnapshot, AtAdapter, DoWork, PollLog, CheckForClockTick, PollServiceAdapter, Told;
      hide IsFor, AskedNow, AsksToJoin;
      if AtAdapter(s, Duty(c)).Some? {
        var at := AtAdapter(s, Duty(c)).value;
        ToldIsFor(at, c, before);
        TickIsFor(at, c, AskedNow(c.adapterMessage, before));
        if PollServiceAdapter(at, c).failure.None? {
          LogIsFor(PollServiceAdapter(at, c), c);
        }
      } else if CheckForClockTick(ready, c).0.failure.None? {
        LogIsFor(CheckForClockTick(ready, c).0, c);
      }
    }
  }

  lemma ReadyKeepsPending(s: AgentState, c: Cycle)
    requires s.failure.None?
    ensures BehindSnapshot(s, c).Some? ==> BehindSnapshot(s, c).value.activeLog == s.activeLog
    ensures s.snapshot.Some? ==> SnapshotWork(s, c.snapshot).0.activeLog == s.activeLog
  {
    if s.snapshot.Some? {
      WorksExactly(s, c.snapshot);
      hide SnapshotWork, WorkFailure, StateIsOut, ServicePartDone, Writes;
    }
  }

  lemma FailureLasts(s: AgentState, i: Input)
    ensures s.failure.Some? ==> Step(s, i).failure.Some?
    ensures i.Close? ==> Step(s, i).failure == s.failure && Step(s, i).activeLog == s.activeLog
  {
    hide TryClaim;
  }

  /** The join that is pending is, in every run, the one asked for last. */
  lemma {:induction false} PendingIsAsked(s: AgentState, inputs: seq<Input>)
    requires s.activeLog.None?
    ensures Run(s, inputs).failure.None? ==> PendingIsFor(Run(s, inputs), JoinAsked(s, inputs))
    decreases |inputs|
  {
    if |inputs| > 0 {
      var init, last := inputs[..|inputs| - 1], inputs[|inputs| - 1];
      hide DoWork, AtAdapter, IsFor, AsksToJoin;
      PendingIsAsked(s, init);
      FailureLasts(Run(s, init), last);
      if last.Duty? && Run(s, inputs).failure.None? {
        CycleIsFor(Run(s, init), last.cycle, JoinAsked(s, init));
      }
    }
  }

  // ---- Leaders ----

  /** The input joins an image as leader. */
  predicate JoinsAsLeader(s: AgentState, i: Input)
  {
    && JoinedBy(s, i).Some? && AtAdapter(s, i).Some?
    && var told := Told(AtAdapter(s, i).value, i.cycle);
       told.activeLog.Some? && told.activeLog.value.role == LEADER
  }

  predicate IsReset(n: Note) { n.ClosingReset? }

  /** The journal grew by so many resets of the closing marks; and there were no marks after any. */
  ghost predicate ResetsBy(s: AgentState, t: AgentState, resets: nat)
  {
    && s.journal <= t.journal && Count(IsReset, t.journal) == Count(IsReset, s.journal) + resets
    && (if resets > 0 then t.closing == {} else forall id | id in t.closing :: id in s.closing)
  }

  lemma ResetsFurther(s: AgentState, t: AgentState, u: AgentState, n: nat, m: nat)
    requires ResetsBy(s, t, n) && ResetsBy(t, u, m)
    ensures ResetsBy(s, u, n + m)
  {
    hide Count;
    if n > 0 && m == 0 {
      assert forall id :: id in u.closing ==> id in t.closing;
    }
  }

  lemma NoReset(s: AgentState, t: AgentState)
    requires s.journal <= t.journal && forall k | |s.journal| <= k < |t.journal| :: !IsReset(t.journal[k])
    requires forall id | id in t.closing :: id in s.closing
    ensures ResetsBy(s, t, 0)
  {
    var more := t.journal[|s.journal|..];
    assert t.journal == s.journal + more;
    CountAdds(IsReset, s.journal, more);
    CountIsZero(IsReset, more);
  }

  lemma LeaderResets(s: AgentState, c: Cycle, t: AgentState)
    requires s.activeLog.Some? && s.failure.None? && JoinedTo(s, c, t, true) && s.activeLog.value.role == LEADER
    ensures ResetsBy(s, t, 1)
  {
    var ack := if TryClaim(c.joinClaims) == CLAIMED then [PlainAck(s)] else [];
    var told := if s.role != LEADER then [Called(OnRoleChange(LEADER))] else [];
    assert t.journal == s.journal + ack + [ClosingReset] + told && t.closing == {};
    hide *;
    CountAdds(IsReset, s.journal, ack);
    CountAdds(IsReset, s.journal + ack, [ClosingReset]);
    CountAdds(IsReset, s.journal + ack + [ClosingReset], told);
    CountOne(IsReset, PlainAck(s));
    CountOne(IsReset, ClosingReset);
    CountOne(IsReset, Called(OnRoleChange(LEADER)));
    OnlyResets(s);
    ResetOnce(s, t);
  }

  lemma OnlyResets(s: AgentState)
    ensures !IsReset(PlainAck(s)) && IsReset(ClosingReset) && !IsReset(Called(OnRoleChange(LEADER)))
  {
  }

  lemma ResetOnce(s: AgentState, t: AgentState)
    requires s.journal <= t.journal && Count(IsReset, t.journal) == Count(IsReset, s.journal) + 1 && t.closing == {}
    ensures ResetsBy(s, t, 1)
  {
  }

  lemma JoinResets(s: AgentState, c: Cycle, t: AgentState, joined: bool)
    requires s.activeLog.Some? && s.failure.None? && JoinedTo(s, c, t, joined)
    ensures ResetsBy(s, t, if joined && s.activeLog.value.role == LEADER then 1 else 0)
  {
    hide TryClaim, ResetsBy;
    if joined && s.activeLog.value.role == LEADER {
      LeaderResets(s, c, t);
    } else {
      NoReset(s, t);
    }
  }

  lemma JoinedTick(s: AgentState, c: Cycle)
    requires s.failure.None? && Told(s, c).failure.None? && WaitsToJoin(Told(s, c)) && JoinActiveLog(Told(s, c), c).1
    ensures PollServiceAdapter(s, c) == JoinActiveLog(Told(s, c), c).0.(activeLog := None)
  {
    var told := Told(s, c);
    assert told == OnAdapterMessage(s.(journal := s.journal + [AdapterPolled(c.nowNs)]), c.adapterMessage);
    JoinsExactly(told, c);
    hide Told, OnAdapterMessage, JoinActiveLog, TryClaim, FoundOf;
  }

  lemma UnjoinedResets(s: AgentState, c: Cycle)
    requires s.failure.None? && Told(s, c).failure.None? && WaitsToJoin(Told(s, c)) && !JoinActiveLog(Told(s, c), c).1
    ensures ResetsBy(Told(s, c), PollServiceAdapter(s, c), 0)
  {
    var told := Told(s, c);
    assert told == OnAdapterMessage(s.(journal := s.journal + [AdapterPolled(c.nowNs)]), c.adapterMessage);
    JoinsExactly(told, c);
    hide Told, OnAdapterMessage, JoinActiveLog, TryClaim, FoundOf, ResetsBy;
    NoReset(told, PollServiceAdapter(s, c));
  }

  lemma WaitlessResets(s: AgentState, c: Cycle)
    requires s.failure.None? && (Told(s, c).failure.Some? || !WaitsToJoin(Told(s, c)))
    ensures ResetsBy(Told(s, c), PollServiceAdapter(s, c), 0)
  {
    TicksExactly(s, c);
    hide Told, PollServiceAdapter, TryClaim, FoundOf, ResetsBy, JoinedTo;
    NoReset(Told(s, c), PollServiceAdapter(s, c));
  }

  /** The tick joins as leader, given what it knows after the message. */
  predicate TickLeads(told: AgentState, c: Cycle)
  {
    told.failure.None? && WaitsToJoin(told) && JoinActiveLog(told, c).1 && told.activeLog.value.role == LEADER
  }

  lemma JoinedTickResets(s: AgentState, c: Cycle)
    requires s.failure.None? && Told(s, c).failure.None? && WaitsToJoin(Told(s, c)) && JoinActiveLog(Told(s, c), c).1
    ensures ResetsBy(Told(s, c), PollServiceAdapter(s, c), if Told(s, c).activeLog.value.role == LEADER then 1 else 0)
  {
    var told := Told(s, c);
    var joining := JoinActiveLog(told, c).0;
    JoinedTick(s, c);
    JoinsExactly(told, c);
    hide Told, JoinActiveLog, ResetsBy, JoinedTo, PollServiceAdapter;
    JoinResets(told, c, joining, true);
    NoReset(joining, joining.(activeLog := None));
    ResetsFurther(told, joining, joining.(activeLog := None), if told.activeLog.value.role == LEADER then 1 else 0, 0);
  }

  lemma TickResets(s: AgentState, c: Cycle)
    requires s.failure.None?
    ensures ResetsBy(s, PollServiceAdapter(s, c), if TickLeads(Told(s, c), c) then 1 else 0)
  {
    ToldExactly(s, c);
    var told := Told(s, c);
    hide Told, JoinActiveLog, ResetsBy, PollServiceAdapter;
    NoReset(s, told);
    if told.failure.None? && WaitsToJoin(told) {
      if JoinActiveLog(told, c).1 {
        JoinedTickResets(s, c);
      } else {
        UnjoinedResets(s, c);
      }
    } else {
      WaitlessResets(s, c);
    }
    ResetsFurther(s, told, PollServiceAdapter(s, c), 0, if TickLeads(told, c) then 1 else 0);
  }

  lemma LogResets(s: AgentState, c: Cycle)
    requires s.failure.None?
    ensures ResetsBy(s, PollLog(s, c), 0)
  {
    LogIsFor(s, c);
    hide PollLog, ResetsBy;
    NoReset(s, PollLog(s, c));
  }

  lemma WorkResets(s: AgentState, c: SnapshotCycle)
    requires s.snapshot.Some? && s.failure.None?
    ensures ResetsBy(s, SnapshotWork(s, c).0, 0)
  {
    WorksExactly(s, c);
    hide SnapshotWork, WorkFailure, StateIsOut, ServicePartDone, Writes, ResetsBy;
    NoReset(s, SnapshotWork(s, c).0);
  }

  lemma ReadyResets(s: AgentState, c: Cycle)
    requires s.failure.None?
    ensures BehindSnapshot(s, c).Some? ==> ResetsBy(s, BehindSnapshot(s, c).value, 0)
    ensures s.snapshot.Some? ==> ResetsBy(s, SnapshotWork(s, c.snapshot).0, 0)
  {
    hide SnapshotWork;
    if s.snapshot.Some? {
      WorkResets(s, c.snapshot);
    } else {
      NoReset(s, s);
    }
  }

  /** A duty cycle notes a reset of the closing marks, and takes them all off, if and only if it joins as leader. */
  lemma CycleResets(s: AgentState, c: Cycle)
    ensures ResetsBy(s, DoWork(s, c), if JoinsAsLeader(s, Duty(c)) then 1 else 0)
  {
    CycleInParts(s, c);
    if s.failure.None? {
      ReadyResets(s, c);
      if BehindSnapshot(s, c).Some? {
        var ready := BehindSnapshot(s, c).value;
        ClockExactly(ready, c);
        if AtAdapter(s, Duty(c)).Some? {
          TickedResets(s, c);
        } else {
          var clock := CheckForClockTick(ready, c).0;
          hide BehindSnapshot, AtAdapter, DoWork, PollLog, CheckForClockTick, PollServiceAdapter, ResetsBy, Told;
          NoReset(ready, clock);
          if clock.failure.None? {
            LogResets(clock, c);
            ResetsFurther(ready, clock, PollLog(clock, c), 0, 0);
          }
        }
        hide ResetsBy;
        ResetsFurther(s, ready, DoWork(s, c), 0, if JoinsAsLeader(s, Duty(c)) then 1 else 0);
      }
    } else {
      NoReset(s, s);
    }
  }

  lemma TickedResets(s: AgentState, c: Cycle)
    requires BehindSnapshot(s, c).Some? && AtAdapter(s, Duty(c)).Some?
    ensures ResetsBy(BehindSnapshot(s, c).value, DoWork(s, c), if JoinsAsLeader(s, Duty(c)) then 1 else 0)
  {
    CycleInParts(s, c);
    var ready, at := BehindSnapshot(s, c).value, AtAdapter(s, Duty(c)).value;
    var told := Told(at, c);
    JoinedByJoin(s, c);
    hide BehindSnapshot, AtAdapter, DoWork, PollLog, CheckForClockTick, PollServiceAdapter, ResetsBy, Told, JoinedBy;
    hide JoinActiveLog;
    NoReset(ready, at);
    TickResets(at, c);
    var n := if JoinsAsLeader(s, Duty(c)) then 1 else 0;
    var ticked := PollServiceAdapter(at, c);
    ResetsFurther(ready, at, ticked, 0, n);
    if ticked.failure.None? {
      LogResets(ticked, c);
      ResetsFurther(ready, ticked, DoWork(s, c), n, 0);
    }
  }

  lemma JoinedByJoin(s: AgentState, c: Cycle)
    requires AtAdapter(s, Duty(c)).Some?
    ensures var told := Told(AtAdapter(s, Duty(c)).value, c);
            JoinedBy(s, Duty(c)).Some? <==> told.failure.None? && WaitsToJoin(told) && JoinActiveLog(told, c).1
  {
    var told := Told(AtAdapter(s, Duty(c)).value, c);
    hide AtAdapter, Told;
    if told.failure.None? && WaitsToJoin(told) {
      JoinsExactly(told, c);
      hide JoinActiveLog, TryClaim, FoundOf;
    }
  }

  ghost predicate HasReset(s: AgentState, t: AgentState)
  {
    exists k :: |s.journal| <= k < |t.journal| && IsReset(t.journal[k])
  }

  lemma ResetsNoted(s: AgentState, t: AgentState, resets: nat)
    requires ResetsBy(s, t, resets)
    ensures s.journal <= t.journal && (HasReset(s, t) <==> resets > 0) && (resets > 0 ==> t.closing == {})
  {
    var more := t.journal[|s.journal|..];
    assert t.journal == s.journal + more;
    hide IsReset;
    CountAdds(IsReset, s.journal, more);
    CountIsZero(IsReset, more);
    hide Count;
    if k :| 0 <= k < |more| && IsReset(more[k]) {
      assert IsReset(t.journal[|s.journal| + k]);
    }
  }

  lemma StepResets(s: AgentState, i: Input)
    ensures s.journal <= Step(s, i).journal
    ensures HasReset(s, Step(s, i)) <==> JoinsAsLeader(s, i)
    ensures JoinsAsLeader(s, i) ==> Step(s, i).closing == {}
  {
    if i.Duty? {
      CycleResets(s, i.cycle);
      hide DoWork, JoinsAsLeader, ResetsBy, HasReset;
      ResetsNoted(s, DoWork(s, i.cycle), if JoinsAsLeader(s, i) then 1 else 0);
    } else {
      hide TryClaim;
    }
  }

  /** The input a note was made in. */
  lemma {:induction false} MadeIn(s: AgentState, inputs: seq<Input>, k: nat) returns (n: nat)
    requires |s.journal| <= k < |Run(s, inputs).journal|
    ensures n < |inputs|
    ensures |Run(s, inputs[..n]).journal| <= k < |Step(Run(s, inputs[..n]), inputs[n]).journal|
    ensures Step(Run(s, inputs[..n]), inputs[n]).journal[k] == Run(s, inputs).journal[k]
    decreases |inputs|
  {
    hide Step, JoinsAsLeader;
    var init := inputs[..|inputs| - 1];
    if k < |Run(s, init).journal| {
      n := MadeIn(s, init, k);
      assert init[..n] == inputs[..n] && init[n] == inputs[n];
      StepResets(Run(s, init), inputs[|inputs| - 1]);
    } else {
      n := |inputs| - 1;
    }
  }

  /** In every run, between two committed requests to close one session, its object is made anew, or the agent
      joins as leader: the join the consensus module asked for last gives it that role. */
  lemma RequestsAreSeparated(s: AgentState, inputs: seq<Input>, id: int, i: nat, j: nat) returns (k: nat, n: nat)
    requires Inv(s) && s.activeLog.None? && |s.journal| <= i < j < |Run(s, inputs).journal|
    requires Run(s, inputs).journal[i] == Sent(CloseSession(id)) && Run(s, inputs).journal[j] == Sent(CloseSession(id))
    ensures i < k < j && n < |inputs|
    ensures || Begins(Run(s, inputs).journal[k], id)
            || (JoinsAsLeader(Run(s, inputs[..n]), inputs[n])
                && |Run(s, inputs[..n]).journal| <= k < |Step(Run(s, inputs[..n]), inputs[n]).journal|)
  {
    RunKeeps(s, inputs);
    hide Inv, Run, Step, JoinsAsLeader;
    k := SeparatedInJournal(Run(s, inputs), id, i, j);
    n := MadeIn(s, inputs, k);
    StepResets(Run(s, inputs[..n]), inputs[n]);
  }

  /** The role of a join that a run comes to is the one that was asked for last. */
  lemma JoinsAsAsked(s: AgentState, inputs: seq<Input>, c: Cycle)
    requires s.activeLog.None? && JoinedBy(Run(s, inputs), Duty(c)).Some?
    ensures var m := JoinAsked(s, inputs + [Duty(c)]);
            m.Some? && m.value.JoinLog? && (JoinsAsLeader(Run(s, inputs), Duty(c)) <==> m.value.role == 2)
  {
    var t := Run(s, inputs);
    var at := AtAdapter(t, Duty(c)).value;
    assert (inputs + [Duty(c)])[..|inputs|] == inputs;
    PendingIsAsked(s, inputs);
    CycleInParts(t, c);
    ReadyKeepsPending(t, c);
    hide AtAdapter, Run, DoWork, BehindSnapshot, PollServiceAdapter, PollLog, SnapshotWork;
    ToldIsFor(at, c, JoinAsked(s, inputs));
    hide Told;
  }
}
