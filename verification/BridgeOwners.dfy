/** When exactly `callbackOwners` is the number of pending entries and detached ids. */
module BridgeOwners {
  import opened Totals
  import opened BridgeTokens
  import opened BridgeModel
  import opened BridgeAccounts
  import opened BridgeFlow
  import opened BridgeRuns

  function HeldCount(t: Table): nat {
    |PendingIds(t.entries)| + |t.detached|
  }

  predicate Balanced(s: State) {
    s.flow.owners == HeldCount(s.table)
  }

  /** How many held slots no callback will give back. */
  function Drift(s: State): int {
    HeldCount(s.table) - s.flow.owners
  }

  /** The one branch that gives an owner back without giving a slot back: a rejected call
      whose entry is no longer in the table. */
  predicate Orphans(s: State, e: Step) {
    && e.CoreReturned? && !e.accepted
    && e.context in s.flow.calls && s.flow.calls[e.context].id !in s.table.entries
  }

  lemma InsertedCount(t: Table, id: nat, e: Entry)
    requires id !in t.entries && e.status.Pending?
    ensures HeldCount(Inserted(t, id, e)) == HeldCount(t) + 1
  {
    assert PendingIds(t.entries[id := e]) == PendingIds(t.entries) + {id};
  }

  lemma RewrittenCount(t: Table, id: nat, e: Entry)
    requires id in t.entries
    ensures var n := |PendingIds(t.entries[id := e])|;
            && (e.status.Pending? == t.entries[id].status.Pending? ==> n == |PendingIds(t.entries)|)
            && (!e.status.Pending? && t.entries[id].status.Pending? ==> n == |PendingIds(t.entries)| - 1)
  {
    if e.status.Pending? {
      assert t.entries[id].status.Pending? ==> PendingIds(t.entries[id := e]) == PendingIds(t.entries);
    } else {
      assert PendingIds(t.entries[id := e]) == PendingIds(t.entries) - {id};
    }
  }

  lemma DroppedCount(t: Table, id: nat)
    requires id in t.entries && id !in t.detached
    ensures HeldCount(Dropped(t, id)) == HeldCount(t)
    ensures t.entries[id].status.Pending? ==> HeldCount(Removed(t, id)) == HeldCount(t) - 1
  {
    assert PendingIds(t.entries - {id}) == PendingIds(t.entries) - {id};
  }

  lemma SettledCount(l: Limits, t: Table, id: nat, echoed: nat, response: Option<string>, now: int)
    requires Held(t.entries, t.detached, id) && t.entries.Keys !! t.detached
    ensures HeldCount(Answered(l, t, id, echoed, response, now)) == HeldCount(t) - 1
    ensures HeldCount(Failed(l, t, id, now)) == HeldCount(t) - 1
  {
    hide PendingIds;
    if id in t.entries {
      RewrittenCount(t, id, Answered(l, t, id, echoed, response, now).entries[id]);
      RewrittenCount(t, id, Failed(l, t, id, now).entries[id]);
    }
  }

  lemma SubmittedCount(t: Table, id: nat)
    ensures HeldCount(Submitted(t, id)) == HeldCount(t)
  {
    if id in t.entries {
      RewrittenCount(t, id, t.entries[id].(submitting := false));
    }
  }

  lemma StartDrift(l: Limits, space: nat, s: State, context: nat, correlation: string, g: Target, now: int)
    requires ValidLimits(l) && space < TWO64 && Inv(l, space, s)
    ensures Drift(ApplyStart(l, space, s, context, correlation, g, now)) == Drift(s)
  {
    hide TableOk, FlowOk, MakeToken, Allocate, InputBytes, ValidLimits, Admit, HeldCount, DropStale, Inserted, OnStack;
    NothingStale(l, space, s.table, correlation);
    var a := Admit(l, space, s.life, s.table, s.nextId, correlation, g);
    if a.Admitted? {
      AdmissionExact(l, space, s.life, s.table, s.nextId, correlation, g);
      StartedOk(l, space, s.table, s.nextId, correlation, g, now);
      InsertedCount(s.table, a.id, NewEntry(l, space, a.id, correlation, g, now));
    }
  }

  lemma ReturnedDrift(l: Limits, space: nat, s: State, context: nat, accepted: bool)
    requires Inv(l, space, s) && Enabled(l, space, s, CoreReturned(context, accepted))
    ensures Drift(ApplyReturned(s, context, accepted)) == Drift(s) + if Orphans(s, CoreReturned(context, accepted)) then 1 else 0
  {
    hide TableOk, CountsOk, LinksOk, BackedOk, HeldCount, Removed, Submitted;
    DisjointIds(l, space, s.table);
    LinkedIdIf(s.table, s.flow, context);
    ReturnedCounts(s.flow, context);
    var id := s.flow.calls[context].id;
    SubmittedCount(s.table, id);
    if !accepted && id in s.table.entries {
      DroppedCount(s.table, id);
    }
  }

  lemma LinkedIdIf(t: Table, f: Flow, context: nat)
    requires FlowOk(t, f) && context in f.calls
    ensures Live(f.calls[context]) ==> Held(t.entries, t.detached, f.calls[context].id)
  {
  }

  lemma ReplyDrift(l: Limits, space: nat, s: State, context: nat, echoed: nat, response: Option<string>, now: int)
    requires Inv(l, space, s) && context in s.flow.calls && Live(s.flow.calls[context])
    ensures var id := s.flow.calls[context].id;
            && HeldCount(Answered(l, s.table, id, echoed, response, now)) - ReplyGiven(s.flow, context).owners == Drift(s)
            && HeldCount(Failed(l, s.table, id, now)) - ReplyGiven(s.flow, context).owners == Drift(s)
  {
    hide TableOk, CountsOk, LinksOk, BackedOk, HeldCount, Answered, Failed;
    DisjointIds(l, space, s.table);
    LinkedIdIf(s.table, s.flow, context);
    GivenCounts(s.flow, context);
    SettledCount(l, s.table, s.flow.calls[context].id, echoed, response, now);
  }

  lemma DropDrift(l: Limits, space: nat, s: State, id: nat)
    requires Inv(l, space, s) && id in s.table.entries
    ensures HeldCount(Dropped(s.table, id)) == HeldCount(s.table)
  {
    hide TableOk, FlowOk, HeldCount, Dropped;
    DisjointIds(l, space, s.table);
    DroppedCount(s.table, id);
  }

  /** Until the tables are cleared, a step adds one to the drift if it is the rejection of
      a call whose entry has gone, and nothing otherwise. */
  lemma DriftExact(l: Limits, space: nat, s: State, e: Step)
    requires ValidLimits(l) && space < TWO64 && Inv(l, space, s) && Enabled(l, space, s, e) && !e.FinishClose?
    ensures Drift(Apply(l, space, s, e)) == Drift(s) + if Orphans(s, e) then 1 else 0
  {
    hide Inv, ValidInput, Admit, Answered, Failed, Submitted, Dropped, ApplyStart, ApplyReturned, ReplyGiven, HeldCount;
    match e
    case Start(context, correlation, g, now) => StartDrift(l, space, s, context, correlation, g, now);
    case CoreReturned(context, accepted) => ReturnedDrift(l, space, s, context, accepted);
    case Reply(context, echoed, response, now) => ReplyDrift(l, space, s, context, echoed, response, now);
    case ReplyThrew(context) => SubmittedCount(s.table, s.flow.calls[context].id);
    case ReplyFailed(context, now) => ReplyDrift(l, space, s, context, 0, None, now);
    case Cancel(_) =>
    case Release(token) =>
      if Named(s.table, token).Some? {
        DropDrift(l, space, s, Named(s.table, token).value);
      }
    case Expire(id, _) => DropDrift(l, space, s, id);
    case _ =>
  }

  /** How many of the first `i` steps orphaned a slot. */
  function OrphanCount(ss: seq<State>, es: seq<Step>, i: nat): nat
    requires i <= |es| && |es| < |ss|
  {
    if i == 0 then 0 else OrphanCount(ss, es, i - 1) + if Orphans(ss[i - 1], es[i - 1]) then 1 else 0
  }

  predicate ClosedEmpty(s: State) {
    s.life.Closed? ==> s.table == NO_TABLE
  }

  /** Clearing is the only way to be closed, and nothing happens to a closed bridge. */
  lemma ClosedStep(l: Limits, space: nat, s: State, e: Step)
    requires Inv(l, space, s) && Enabled(l, space, s, e) && ClosedEmpty(s)
    ensures ClosedEmpty(Apply(l, space, s, e))
    ensures e.FinishClose? ==> Apply(l, space, s, e).life.Closed?
    ensures s.life.Closed? ==> Apply(l, space, s, e).life.Closed?
  {
    hide TableOk, CountsOk, LinksOk, BackedOk, ValidInput, Allocate, MakeToken, InputBytes, Answered, Failed, Submitted, Dropped,
      Removed, ReplyGiven, ReturnAccepted, ReturnRejected, Inserted, Called;
    if s.life.Closed? {
      NobodyInside(s.table, s.flow);
    }
    match e
    case Start(_, _, _, _) =>
    case CoreReturned(_, _) =>
    case Reply(_, _, _, _) =>
    case ReplyThrew(_) =>
    case ReplyFailed(_, _) =>
    case Cancel(_) =>
    case Release(_) =>
    case Expire(_, _) =>
    case _ =>
  }

  lemma {:induction false} DriftCounts(l: Limits, space: nat, ss: seq<State>, es: seq<Step>, i: nat)
    requires ValidLimits(l) && space < TWO64 && IsRun(l, space, ss, es) && i < |ss|
    ensures ClosedEmpty(ss[i])
    ensures !ss[i].life.Closed? ==> Drift(ss[i]) == OrphanCount(ss, es, i)
    decreases i
  {
    hide Inv, Enabled, Apply, HeldCount, ValidLimits, Orphans;
    if i == 0 {
      NoTable();
    } else {
      DriftCounts(l, space, ss, es, i - 1);
      RunInv(l, space, ss, es, i - 1);
      ClosedStep(l, space, ss[i - 1], es[i - 1]);
      if !es[i - 1].FinishClose? {
        DriftExact(l, space, ss[i - 1], es[i - 1]);
      }
    }
  }

  lemma NoTable()
    ensures HeldCount(NO_TABLE) == 0
  {
    assert PendingIds(NO_TABLE.entries) == {};
  }

  /** In every run, at every moment: the pending entries and detached ids are as many as
      the owners and the rejections so far whose entry had gone. So `callbackOwners`
      equals their number if and only if there was none of those, or the bridge is
      closed. */
  lemma BalanceExact(l: Limits, space: nat, ss: seq<State>, es: seq<Step>, i: nat)
    requires ValidLimits(l) && space < TWO64 && IsRun(l, space, ss, es) && i < |ss|
    ensures !ss[i].life.Closed? ==> HeldCount(ss[i].table) == ss[i].flow.owners + OrphanCount(ss, es, i)
    ensures Balanced(ss[i]) <==> ss[i].life.Closed? || OrphanCount(ss, es, i) == 0
    ensures !ss[i].flow.reissued && !ss[i].life.Closed? ==> OrphanCount(ss, es, i) == 0
  {
    hide IsRun, ValidLimits, OrphanCount, HeldCount, TableOk, FlowOk;
    RunLength(l, space, ss, es);
    DriftCounts(l, space, ss, es, i);
    RunInv(l, space, ss, es, i);
    NoTable();
    OwnersCountCallbacks(l, space, ss, es, i);
    CountIs(ss[i].table);
  }

  lemma RunLength(l: Limits, space: nat, ss: seq<State>, es: seq<Step>)
    requires IsRun(l, space, ss, es)
    ensures |ss| == |es| + 1
  {
  }

  lemma CountIs(t: Table)
    ensures HeldCount(t) == |PendingIds(t.entries)| + |t.detached|
  {
  }

  // ------------------------------------------------------- how an id is orphaned

  /** Some run ends in this state. */
  ghost predicate Reachable(l: Limits, space: nat, s: State) {
    exists ss: seq<State>, es: seq<Step> :: IsRun(l, space, ss, es) && ss[|ss| - 1] == s
  }

  lemma ReachNext(l: Limits, space: nat, s: State, e: Step)
    requires Reachable(l, space, s) && Enabled(l, space, s, e)
    ensures Reachable(l, space, Apply(l, space, s, e))
  {
    hide Enabled, Apply;
    var ss: seq<State>, es: seq<Step> :| IsRun(l, space, ss, es) && ss[|ss| - 1] == s;
    var ss', es' := ss + [Apply(l, space, s, e)], es + [e];
    forall i | 0 <= i < |es'| ensures Enabled(l, space, ss'[i], es'[i]) && ss'[i + 1] == Apply(l, space, ss'[i], es'[i]) {
      if i < |es| {
        assert ss'[i] == ss[i] && ss'[i + 1] == ss[i + 1] && es'[i] == es[i];
      }
    }
    assert IsRun(l, space, ss', es') && ss'[|ss'| - 1] == Apply(l, space, s, e);
  }

  /** Limits under which some request fits. */
  predicate Roomy(l: Limits) {
    ValidLimits(l) && l.maxInput >= 3 && l.maxSingleInput >= 3
  }

  const CLASH := Target("m", "f", "")

  /** A first `start` was given id 1, has been answered and released, and is still inside
      the core; nothing else is going on, and the id counter stands at `n`. */
  function Idle(n: Word): State {
    State(Open, NO_TABLE, Flow(map[0 := CoreCall(1, false, Given)], 0, 1, 0, false), n, NotCalled, 0)
  }

  /** A second `start` in that state. */
  function Second(l: Limits, space: nat, id: nat, next: Word, reissued: bool): State {
    State(Open, Inserted(NO_TABLE, id, NewEntry(l, space, id, "c", CLASH, 0)),
          Flow(map[0 := CoreCall(1, false, Given), 1 := CoreCall(id, false, Owed)], 1, 2, 0, reissued), next, NotCalled, 0)
  }

  lemma RoomForClash(l: Limits)
    requires Roomy(l)
    ensures ValidInput(l, "c", CLASH) && InputBytes("c", CLASH) == 3
  {
  }

  /** The first `start`, its answer and its release. */
  lemma ReachIdle(l: Limits, space: nat)
    requires Roomy(l) && space < TWO64
    ensures Reachable(l, space, Idle(2))
  {
    hide Enabled, Apply, MakeToken, Reachable;
    ReachInitial(l, space);
    FirstStart(l, space);
    ReachNext(l, space, Initial(), Start(0, "c", CLASH, 0));
    FirstReply(l, space);
    ReachNext(l, space, Started(l, space), Reply(0, 1, None, 0));
    FirstRelease(l, space);
    ReachNext(l, space, Idle(2).(table := Answered1(l, space)), Release(MakeToken(space, 1)));
  }

  lemma ReachInitial(l: Limits, space: nat)
    ensures Reachable(l, space, Initial())
  {
    assert IsRun(l, space, [Initial()], []);
  }

  function Started(l: Limits, space: nat): State {
    State(Open, Inserted(NO_TABLE, 1, NewEntry(l, space, 1, "c", CLASH, 0)),
          Flow(map[0 := CoreCall(1, false, Owed)], 1, 1, 0, false), 2, NotCalled, 0)
  }

  lemma FirstStart(l: Limits, space: nat)
    requires Roomy(l) && space < TWO64
    ensures Enabled(l, space, Initial(), Start(0, "c", CLASH, 0))
    ensures Apply(l, space, Initial(), Start(0, "c", CLASH, 0)) == Started(l, space)
  {
    hide MakeToken, ValidInput;
    RoomForClash(l);
    assert NO_TABLE.entries.Keys + NO_TABLE.detached == {};
    assert Allocate(1, {}, 2) == (1, 2);
  }

  function Answered1(l: Limits, space: nat): Table {
    NO_TABLE.(entries := map[1 := Settled(NewEntry(l, space, 1, "c", CLASH, 0), MissingResponse, "", At(l.ttl))],
              correlations := map["c" := 1], tokens := map[MakeToken(space, 1) := 1], slots := 1, inputs := 3)
  }

  lemma FirstReply(l: Limits, space: nat)
    requires Roomy(l) && space < TWO64
    ensures Enabled(l, space, Started(l, space), Reply(0, 1, None, 0))
    ensures Apply(l, space, Started(l, space), Reply(0, 1, None, 0)) == Idle(2).(table := Answered1(l, space))
  {
    hide MakeToken;
    RoomForClash(l);
  }

  lemma FirstRelease(l: Limits, space: nat)
    requires Roomy(l) && space < TWO64
    ensures var s := Idle(2).(table := Answered1(l, space));
            Enabled(l, space, s, Release(MakeToken(space, 1))) && Apply(l, space, s, Release(MakeToken(space, 1))) == Idle(2)
  {
    hide MakeToken;
    var s := Idle(2).(table := Answered1(l, space));
    assert Named(s.table, MakeToken(space, 1)) == Some(1);
    assert Removed(s.table, 1) == NO_TABLE;
  }

  /** A second `start` is given the id at the counter, past zero, and moves the counter on. */
  lemma SecondStart(l: Limits, space: nat, n: Word)
    requires Roomy(l) && space < TWO64
    ensures var id: nat := if n == 0 then 1 else n; var next := Succ64(id);
            && Enabled(l, space, Idle(n), Start(1, "c", CLASH, 0))
            && Apply(l, space, Idle(n), Start(1, "c", CLASH, 0)) == Second(l, space, id, next, id == 1)
  {
    hide MakeToken, ValidInput;
    RoomForClash(l);
    var id: nat := if n == 0 then 1 else n;
    assert NO_TABLE.entries.Keys + NO_TABLE.detached == {};
    assert Allocate(n, {}, 2) == (id, Succ64(id));
    var calls := map[0 := CoreCall(1, false, Given)];
    assert calls[0].id == 1 && OnStack(calls, id) == (id == 1);
    assert calls[1 := CoreCall(id, false, Owed)] == map[0 := CoreCall(1, false, Given), 1 := CoreCall(id, false, Owed)];
  }

  /** A rejected second `start` leaves only the counter changed. */
  lemma SecondRejected(l: Limits, space: nat, id: nat, next: Word)
    ensures var s := Second(l, space, id, next, false);
            && Enabled(l, space, s, CoreReturned(1, false))
            && Apply(l, space, s, CoreReturned(1, false)) == Idle(next)
  {
    hide MakeToken, InputBytes;
    var s := Second(l, space, id, next, false);
    assert Removed(s.table, id) == NO_TABLE;
    assert s.flow.calls - {1} == map[0 := CoreCall(1, false, Given)];
  }

  /** Every later value of the counter is reached, one rejected `start` at a time. */
  lemma {:induction false} ReachCounter(l: Limits, space: nat, n: Word)
    requires Roomy(l) && space < TWO64 && n >= 2
    ensures Reachable(l, space, Idle(n))
    decreases n
  {
    hide Enabled, Apply, Reachable, Idle, Second, Roomy;
    if n == 2 {
      ReachIdle(l, space);
    } else {
      ReachCounter(l, space, n - 1);
      ReachRound(l, space, n - 1);
    }
  }

  lemma ReachRound(l: Limits, space: nat, n: Word)
    requires Roomy(l) && space < TWO64 && n >= 2 && Reachable(l, space, Idle(n))
    ensures Reachable(l, space, Idle(Succ64(n)))
  {
    hide Enabled, Apply, Reachable, Idle, Second, Roomy;
    SecondStart(l, space, n);
    ReachNext(l, space, Idle(n), Start(1, "c", CLASH, 0));
    SecondRejected(l, space, n, Succ64(n));
    ReachNext(l, space, Second(l, space, n, Succ64(n), false), CoreReturned(1, false));
  }

  /** With the counter come round, the second `start` is given id 1 again. The return of the
      first marks its request as submitted, its release detaches it, and its rejection
      orphans the detached id. */
  lemma ReissueOrphans(l: Limits, space: nat)
    requires Roomy(l) && space < TWO64
    ensures var s1 := Second(l, space, 1, 2, true);
            && Enabled(l, space, s1, CoreReturned(0, true))
            && var s2 := Apply(l, space, s1, CoreReturned(0, true));
            && Enabled(l, space, s2, Release(MakeToken(space, 1)))
            && var s3 := Apply(l, space, s2, Release(MakeToken(space, 1)));
            && Enabled(l, space, s3, CoreReturned(1, false))
            && Orphans(s3, CoreReturned(1, false))
            && !Balanced(Apply(l, space, s3, CoreReturned(1, false)))
  {
    hide MakeToken;
    var s1 := Second(l, space, 1, 2, true);
    var s2 := Apply(l, space, s1, CoreReturned(0, true));
    assert Named(s2.table, MakeToken(space, 1)) == Some(1);
    var s3 := Apply(l, space, s2, Release(MakeToken(space, 1)));
    var s4 := Apply(l, space, s3, CoreReturned(1, false));
    assert s3.table.entries == map[] && s3.table.detached == {1};
    assert s4.flow.owners == 0 && s4.table == s3.table;
    assert |s4.table.detached| == 1;
  }

  /** A run from the start of the bridge reaches a state in which `callbackOwners` is not
      the number of pending entries and detached ids. */
  lemma UnbalancedReachable(l: Limits, space: nat)
    requires Roomy(l) && space < TWO64
    ensures exists s: State :: Reachable(l, space, s) && !Balanced(s)
  {
    hide Enabled, Apply, Reachable, Idle, Second, Roomy, MakeToken, Balanced, Orphans;
    ReachCounter(l, space, TWO64 - 1);
    ReachRound(l, space, TWO64 - 1);
    SecondStart(l, space, 0);
    ReachNext(l, space, Idle(0), Start(1, "c", CLASH, 0));
    ReissueOrphans(l, space);
    var s1 := Second(l, space, 1, 2, true);
    ReachNext(l, space, s1, CoreReturned(0, true));
    var s2 := Apply(l, space, s1, CoreReturned(0, true));
    ReachNext(l, space, s2, Release(MakeToken(space, 1)));
    var s3 := Apply(l, space, s2, Release(MakeToken(space, 1)));
    ReachNext(l, space, s3, CoreReturned(1, false));
  }
}
