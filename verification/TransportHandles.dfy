/** Handles over whole runs: a client outlives everything that uses it, its
    subscriptions included. */
module TransportHandles {
  import opened Totals
  import opened TransportModel
  import opened TransportRequests
  import opened TransportClients
  import opened TransportEvents
  import opened TransportRuns

  /** The client that the thread inside `subscribeInstance` or `unsubscribeInstance` has in
      its hands. */
  function FrameClient(f: Frame): set<Handle> {
    if f.Holding? || f.Subscribing? || f.Dropping? then {f.client} else {}
  }

  /** Someone still uses this client: a pending request, a subscription record, a thread
      with an acquisition in flight, or the subscribing thread. */
  ghost predicate InUse(s: State, h: Handle) {
    || (exists id :: id in s.req.pending && s.req.pending[id].client == h)
    || (exists r :: r in s.table.subs && s.table.subs[r].client == h)
    || h in s.table.held
    || h in FrameClient(s.table.frame)
  }

  lemma UsedIsListed(l: Limits, s: State, h: Handle)
    requires TableInv(l, s) && !s.detached && InUse(s, h)
    ensures h in s.table.clients && h !in s.table.destroyed
  {
    hide ClientKeysOk, CreationOk, SubKeysOk, SubHandlesOk, SubRecordsOk, PhasesOk, RefsExact, FindSub;
    assert h in s.table.clients.Keys;
  }

  /** In every run, until teardown detaches the tables, no client that is in use has been
      destroyed. */
  lemma UsedNeverDestroyed(l: Limits, ss: seq<State>, es: seq<Step>, i: nat, h: Handle)
    requires IsRun(l, ss, es) && i < |ss| && !ss[i].detached && InUse(ss[i], h)
    ensures h in ss[i].table.clients && h !in ss[i].table.destroyed
  {
    hide IsRun, InUse, TableInv, RequestInv, EventInv;
    RunInv(l, ss, es, i);
    UsedIsListed(l, ss[i], h);
  }

  // ----------------------------------------------- subscriptions before clients

  /** Subscription handle `h` is live and was made through client `c`. */
  ghost predicate Owns(t: Table, h: Handle, c: Handle) {
    || (exists r :: r in t.subs && t.subs[r].handle == Some(h) && t.subs[r].client == c)
    || (t.frame.Dropping? && t.frame.handle == Some(h) && t.frame.client == c)
  }

  lemma OwnerListed(l: Limits, s: State, h: Handle, c: Handle)
    requires TableInv(l, s) && !s.detached && Owns(s.table, h, c)
    ensures c !in s.table.destroyed
  {
    hide TableInv;
    assert InUse(s, c);
    UsedIsListed(l, s, c);
  }

  /** A subscription record keeps its handle and client, or its handle passes to the
      dropping thread. */
  lemma CommitOwns(t: Table, found: Option<nat>, serviceable: bool, ingests: bool, h: Handle, c: Handle)
    requires t.frame.Holding? && (found.Some? ==> found.value in t.subs) && (forall r :: r in t.subs ==> r < t.nextSub)
    requires Owns(t, h, c)
    ensures Owns(SubscribeCommitted(t, found, serviceable, ingests), h, c)
  {
    var r :| r in t.subs && t.subs[r].handle == Some(h) && t.subs[r].client == c;
    var t' := SubscribeCommitted(t, found, serviceable, ingests);
    assert r in t'.subs && t'.subs[r].handle == Some(h) && t'.subs[r].client == c;
  }

  lemma EndOwns(t: Table, serviceable: bool, ok: bool, h: Handle, c: Handle)
    requires t.frame.Subscribing? && SubRecordsOk(t.subs, t.frame) && Owns(t, h, c)
    ensures Owns(SubscribeEnded(t, serviceable, ok), h, c)
  {
    var r :| r in t.subs && t.subs[r].handle == Some(h) && t.subs[r].client == c;
    assert r != t.frame.rec;
    var t' := SubscribeEnded(t, serviceable, ok);
    assert r in t'.subs && t'.subs[r] == t.subs[r];
  }

  /** A handle belongs from its creation on to the client it is made through. */
  lemma MadeOwned(t: Table, serviceable: bool)
    requires t.frame.Subscribing?
    requires t.frame.rec in t.subs ==> t.subs[t.frame.rec].client == t.frame.client
    ensures Owns(SubscribeEnded(t, serviceable, true), t.subCreated, t.frame.client)
  {
    var t' := SubscribeEnded(t, serviceable, true);
    assert t'.frame.NoFrame? ==> t'.subs[t.frame.rec].handle == Some(t.subCreated);
  }

  lemma UnsubscribeOwns(t: Table, found: Option<nat>, h: Handle, c: Handle)
    requires (found.Some? ==> found.value in t.subs) && !t.frame.Dropping? && Owns(t, h, c)
    ensures Owns(Unsubscribed(t, found), h, c)
  {
    var r :| r in t.subs && t.subs[r].handle == Some(h) && t.subs[r].client == c;
    var t' := Unsubscribed(t, found);
    if found != Some(r) || t.subs[r].refs > 1 {
      assert r in t'.subs && t'.subs[r].handle == Some(h) && t'.subs[r].client == c;
    }
  }

  lemma SameOwns(t: Table, t': Table, h: Handle, c: Handle)
    requires Owns(t, h, c) && t'.subs == t.subs
    requires t.frame.Dropping? && t.frame.handle == Some(h) ==> t'.frame == t.frame
    ensures Owns(t', h, c)
  {
  }

  lemma ReleaseSubs(t: Table, h: Handle)
    ensures ReleaseClient(t, h).subs == t.subs && ReleaseClient(t, h).frame == t.frame
  {
  }

  lemma TableOwns(l: Limits, s: State, x: TableStep, h: Handle, c: Handle)
    requires SubKeysOk(l, s.table.subs, s.table.nextSub) && SubRecordsOk(s.table.subs, s.table.frame) && TableEnabled(l, s, x)
    requires CreationOk(s.table.creation, s.table.frame)
    requires Owns(s.table, h, c)
    ensures Owns(ApplyTable(l, s, x).table, h, c) || h in ApplyTable(l, s, x).table.unsubscribed
  {
    hide Owns, SubKeysOk, SubRecordsOk, ReleaseClient, SubscribeCommitted, SubscribeEnded, Unsubscribed;
    var t, t' := s.table, ApplyTable(l, s, x).table;
    match x
    case SubscribeCommit =>
      NextFresh(l, t.subs, t.nextSub);
      CommitOwns(t, FindSub(t.subs, t.frame.key), Serviceable(s), s.ingestsInstances, h, c);
    case SubscribeEnd(ok) => EndOwns(t, Serviceable(s), ok, h, c);
    case Unsubscribe(key) => UnsubscribeOwns(t, FindSub(t.subs, key), h, c);
    case DropHandle => DropOwns(t, t', h, c);
    case Release(g, forSub) =>
      ReleaseSubs(t, g);
      SameOwns(t, t', h, c);
    case _ => SameOwns(t, t', h, c);
  }

  lemma NextFresh(l: Limits, subs: map<nat, Sub>, nextSub: nat)
    requires SubKeysOk(l, subs, nextSub)
    ensures forall r :: r in subs ==> r < nextSub
  {
  }

  lemma DropOwns(t: Table, t': Table, h: Handle, c: Handle)
    requires Owns(t, h, c) && t.frame.Dropping? && t.frame.handle.Some? && t'.subs == t.subs
    requires t'.unsubscribed == t.unsubscribed + {t.frame.handle.value}
    ensures Owns(t', h, c) || h in t'.unsubscribed
  {
  }

  lemma RequestOwns(l: Limits, s: State, x: RequestStep)
    requires RequestEnabled(l, s, x)
    ensures var t' := ApplyRequest(l, s, x).table; t'.subs == s.table.subs && t'.frame == s.table.frame
    ensures ApplyRequest(l, s, x).detached == s.detached
  {
    hide Erased, Freed, CancelOne, FinishInvoke, EndCallback, InvokeReturn, BeginCallback;
    match x
    case Admit(_, _, _, _) =>
    case InvokeReturned(_, _) =>
    case InvokeFinished(_) =>
    case CallbackBegin(_, _) =>
    case CallbackEnd(_) =>
    case Cancel(_) =>
  }

  lemma SetupOwns(s: State, x: SetupStep)
    ensures ApplySetup(s, x).table.subs == s.table.subs && ApplySetup(s, x).table.frame == s.table.frame
  {
    hide Suppress;
    match x
    case ActivateBegin =>
    case SpawnFailed =>
    case WorkerStart =>
    case BaseClient(_) =>
    case SetupAbandoned =>
    case ClearPartial =>
    case ActivateOpen(_) =>
    case ActivateFail =>
  }

  lemma ShutdownOwns(s: State, x: ShutdownStep)
    requires ShutdownEnabled(s, x)
    ensures s.detached ==> ApplyShutdown(s, x).detached
    ensures !ApplyShutdown(s, x).detached && s.table.subLeaving == {} ==>
              ApplyShutdown(s, x).table.subs == s.table.subs && ApplyShutdown(s, x).table.frame == s.table.frame
  {
    hide Suppress, Answer;
    match x
    case Close =>
    case WorkerShutdown =>
    case FailOne(_) =>
    case FailNone =>
    case WorkerFinish =>
    case EmergencyClose =>
    case TeardownStart =>
    case TeardownDetach =>
    case QuiesceSub(_) =>
    case QuiesceClient(_) =>
    case TeardownFinish =>
  }

  /** Every step leaves a live subscription handle with the client it was made through, or
      unsubscribes it, as long as the tables are not detached. */
  lemma OwnsStep(l: Limits, s: State, e: Step, h: Handle, c: Handle)
    requires Inv(l, s) && Enabled(l, s, e) && !Apply(l, s, e).detached && Owns(s.table, h, c)
    ensures !s.detached
    ensures Owns(Apply(l, s, e).table, h, c) || h in Apply(l, s, e).table.unsubscribed
  {
    hide Inv, Owns, ApplySetup, ApplyTable, ApplyRequest, ApplyEvent, ApplyShutdown, SubKeysOk, SubRecordsOk, SetupEnabled,
      TableEnabled, RequestEnabled, EventEnabled, ShutdownEnabled;
    DetachedStep(l, s, e);
    OwnsFacts(l, s);
    match e
    case OnTable(x) => TableOwns(l, s, x, h, c);
    case OnRequest(x) =>
      RequestOwns(l, s, x);
      SameOwns(s.table, ApplyRequest(l, s, x).table, h, c);
    case OnEvent(x) =>
      EventStepShape(l, s, x);
    case Setup(x) =>
      SetupOwns(s, x);
      SameOwns(s.table, ApplySetup(s, x).table, h, c);
    case Shutdown(x) =>
      ShutdownOwns(s, x);
      SameOwns(s.table, ApplyShutdown(s, x).table, h, c);
  }

  lemma OwnsFacts(l: Limits, s: State)
    requires Inv(l, s)
    ensures SubKeysOk(l, s.table.subs, s.table.nextSub) && SubRecordsOk(s.table.subs, s.table.frame)
    ensures CreationOk(s.table.creation, s.table.frame)
    ensures !s.detached ==> s.table.subLeaving == {}
  {
    hide RequestInv, EventInv, SubKeysOk, SubRecordsOk, LinksOk, ClientKeysOk, HandlesOk, SubHandlesOk, FrameOk;
  }

  /** Detached tables stay detached. */
  lemma DetachedStep(l: Limits, s: State, e: Step)
    requires Enabled(l, s, e)
    ensures s.detached ==> Apply(l, s, e).detached
  {
    hide ApplyTable, ApplyRequest, ApplyEvent, ApplyShutdown;
    match e
    case OnTable(x) => TableStepControl(l, s, x);
    case OnRequest(x) => RequestOwns(l, s, x);
    case OnEvent(x) => EventStepShape(l, s, x);
    case Setup(x) =>
    case Shutdown(x) => ShutdownOwns(s, x);
  }

  // ----------------------------------------------------------- through teardown

  /** The handles that teardown took over, and how many were ever made. */
  lemma RequestPlain(l: Limits, s: State, x: RequestStep)
    requires RequestEnabled(l, s, x)
    ensures var t' := ApplyRequest(l, s, x).table; t'.subLeaving == s.table.subLeaving && t'.subCreated == s.table.subCreated
  {
    hide Erased, Freed, CancelOne, FinishInvoke, EndCallback, InvokeReturn, BeginCallback;
    match x
    case Admit(_, _, _, _) =>
    case InvokeReturned(_, _) =>
    case InvokeFinished(_) =>
    case CallbackBegin(_, _) =>
    case CallbackEnd(_) =>
    case Cancel(_) =>
  }

  predicate Plain(t: Table, t': Table) {
    t'.subLeaving == t.subLeaving && t'.subCreated >= t.subCreated
  }

  lemma ReleasePlain(t: Table, h: Handle, forSub: bool)
    ensures Plain(t, Released(t, h, forSub))
  {
  }

  lemma EndPlain(t: Table, serviceable: bool, ok: bool)
    requires t.frame.Subscribing?
    ensures Plain(t, SubscribeEnded(t, serviceable, ok))
  {
  }

  lemma TablePlain(l: Limits, s: State, x: TableStep)
    requires TableEnabled(l, s, x)
    ensures Plain(s.table, ApplyTable(l, s, x).table)
  {
    hide FindSub, FindClient, Released, SubscribeEnded;
    match x
    case AcquireExisting(_, _) =>
    case AcquireBegin(_, _) =>
    case AcquireRefused =>
    case AcquireEnd(_) =>
    case Release(h, forSub) => ReleasePlain(s.table, h, forSub);
    case SubscribeBegin(_) =>
    case SubscribeCommit =>
    case SubscribeEnd(ok) => EndPlain(s.table, Serviceable(s), ok);
    case Unsubscribe(_) =>
    case DropHandle =>
  }

  lemma SetupPlain(s: State, x: SetupStep)
    ensures var t' := ApplySetup(s, x).table; t'.subLeaving == s.table.subLeaving && t'.subCreated == s.table.subCreated
  {
    hide Suppress;
    match x
    case ActivateBegin =>
    case SpawnFailed =>
    case WorkerStart =>
    case BaseClient(_) =>
    case SetupAbandoned =>
    case ClearPartial =>
    case ActivateOpen(_) =>
    case ActivateFail =>
  }

  lemma ShutdownPlain(s: State, x: ShutdownStep)
    requires ShutdownEnabled(s, x)
    ensures var t' := ApplyShutdown(s, x).table;
            && t'.subCreated == s.table.subCreated
            && t'.subLeaving <= (if x.TeardownDetach? then SubHandles(s.table.subs) else s.table.subLeaving)
    ensures ApplyShutdown(s, x).detached <==> s.detached || x.TeardownDetach?
  {
    hide Suppress, Answer;
    match x
    case Close =>
    case WorkerShutdown =>
    case FailOne(_) =>
    case FailNone =>
    case WorkerFinish =>
    case EmergencyClose =>
    case TeardownStart =>
    case TeardownDetach =>
    case QuiesceSub(_) =>
    case QuiesceClient(_) =>
    case TeardownFinish =>
  }

  lemma PlainStep(l: Limits, s: State, e: Step)
    requires Enabled(l, s, e)
    ensures var t' := Apply(l, s, e).table;
            && t'.subCreated >= s.table.subCreated
            && t'.subLeaving <= (if e == Shutdown(TeardownDetach) then SubHandles(s.table.subs) else s.table.subLeaving)
    ensures Apply(l, s, e).detached && !s.detached ==> e == Shutdown(TeardownDetach)
    ensures e == Shutdown(TeardownDetach) ==> !s.detached
  {
    hide ApplyTable, ApplyRequest, ApplyEvent, ApplyShutdown, ApplySetup, TableEnabled, RequestEnabled, SetupEnabled, SubHandles;
    match e
    case OnTable(x) => TablePlain(l, s, x); TableStepControl(l, s, x);
    case OnRequest(x) => RequestPlain(l, s, x); RequestOwns(l, s, x);
    case OnEvent(x) => EventStepShape(l, s, x);
    case Setup(x) => SetupPlain(s, x); SetupHandles(s, x);
    case Shutdown(x) => ShutdownPlain(s, x);
  }

  /** Teardown destroys no client while it still has a handle to unsubscribe. */
  lemma NoneDestroyed(l: Limits, s: State, e: Step)
    requires Inv(l, s) && Enabled(l, s, e) && s.detached && s.table.subLeaving != {}
    ensures Destroys(l, s, e) == {}
  {
    hide RequestInv, EventInv, KeysOk, SubsOk, LinksOk, Released;
  }

  /** What stays true of a handle made through client `c`, through teardown and after. */
  ghost predicate Bound(s: State, h: Handle, c: Handle) {
    && h < s.table.subCreated
    && (!s.detached ==> Owns(s.table, h, c) || h in s.table.unsubscribed)
    && (h in s.table.subLeaving ==> c !in s.table.destroyed)
  }

  lemma OwnsBound(l: Limits, s: State, h: Handle, c: Handle)
    requires TableInv(l, s) && Owns(s.table, h, c)
    ensures Bound(s, h, c)
  {
    hide KeysOk, LinksOk, SubKeysOk, FrameOk, SubRecordsOk;
    assert h in SubHandles(s.table.subs) || h in FrameHandle(s.table.frame);
  }

  /** A live handle that teardown takes over belongs to a client that is still there. */
  lemma TakenOver(l: Limits, s: State, h: Handle, c: Handle)
    requires TableInv(l, s) && !s.detached && Bound(s, h, c) && h in SubHandles(s.table.subs)
    ensures c !in s.table.destroyed
  {
    hide TableInv, Owns;
    LiveIsNotGone(l, s, h);
    OwnerListed(l, s, h, c);
  }

  lemma LiveIsNotGone(l: Limits, s: State, h: Handle)
    requires TableInv(l, s) && h in SubHandles(s.table.subs)
    ensures h !in s.table.unsubscribed
  {
    hide KeysOk, LinksOk, SubKeysOk, FrameOk, SubRecordsOk;
  }

  lemma BoundStep(l: Limits, s: State, e: Step, h: Handle, c: Handle)
    requires Inv(l, s) && Enabled(l, s, e) && Bound(s, h, c)
    ensures Bound(Apply(l, s, e), h, c)
  {
    hide RequestInv, EventInv, TableInv, Owns, Enabled, Apply, Destroys, Unsubscribes, SubHandles;
    var s' := Apply(l, s, e);
    PlainStep(l, s, e);
    DestroyedOnce(l, s, e);
    UnsubscribedFrame(l, s, e);
    DetachedStep(l, s, e);
    if !s'.detached {
      if Owns(s.table, h, c) {
        OwnsStep(l, s, e, h, c);
      }
    }
    if h in s'.table.subLeaving {
      LeavingBound(l, s, e, h, c);
    }
  }

  lemma LeavingBound(l: Limits, s: State, e: Step, h: Handle, c: Handle)
    requires Inv(l, s) && Enabled(l, s, e) && Bound(s, h, c)
    requires h in if e == Shutdown(TeardownDetach) then SubHandles(s.table.subs) else s.table.subLeaving
    ensures c !in s.table.destroyed && c !in Destroys(l, s, e)
  {
    hide RequestInv, EventInv, TableInv, Owns, Enabled, SubHandles, Destroys;
    if e == Shutdown(TeardownDetach) {
      PlainStep(l, s, e);
      TakenOver(l, s, h, c);
      DetachDestroys(l, s);
    } else {
      OwnsFacts(l, s);
      NoneDestroyed(l, s, e);
    }
  }

  lemma DetachDestroys(l: Limits, s: State)
    requires Enabled(l, s, Shutdown(TeardownDetach))
    ensures Destroys(l, s, Shutdown(TeardownDetach)) == {}
  {
  }

  lemma {:induction false} RunBound(l: Limits, ss: seq<State>, es: seq<Step>, i: nat, j: nat, h: Handle, c: Handle)
    requires IsRun(l, ss, es) && i <= j < |ss| && Owns(ss[i].table, h, c)
    ensures Bound(ss[j], h, c)
    decreases j - i
  {
    hide Enabled, Apply, Owns, Bound, TableInv, RequestInv, EventInv;
    if i == j {
      RunInv(l, ss, es, i);
      OwnsBound(l, ss[i], h, c);
    } else {
      RunInv(l, ss, es, j - 1);
      RunBound(l, ss, es, i, j - 1, h, c);
      BoundStep(l, ss[j - 1], es[j - 1], h, c);
    }
  }

  /** When a client has been destroyed, in whatever state of a run, every subscription
      handle ever made through it has been unsubscribed, except exactly the one that a
      running `unsubscribeInstance` still has in its hands; and there is no such exception
      until teardown detaches the tables. */
  lemma UnsubscribedBeforeDestroyed(l: Limits, ss: seq<State>, es: seq<Step>, i: nat, j: nat, h: Handle, c: Handle)
    requires IsRun(l, ss, es) && i <= j < |ss| && Owns(ss[i].table, h, c) && c in ss[j].table.destroyed
    ensures h in ss[j].table.unsubscribed <==> h !in FrameHandle(ss[j].table.frame)
    ensures !ss[j].detached ==> h in ss[j].table.unsubscribed
  {
    hide IsRun, Owns, TableInv, RequestInv, EventInv;
    RunBound(l, ss, es, i, j, h, c);
    RunInv(l, ss, es, j);
    if !ss[j].detached && Owns(ss[j].table, h, c) {
      OwnerListed(l, ss[j], h, c);
    }
    SomewhereExactly(l, ss[j], h);
  }

  /** Each handle is live, being dropped, taken over by teardown, or unsubscribed. */
  lemma SomewhereExactly(l: Limits, s: State, h: Handle)
    requires TableInv(l, s) && h < s.table.subCreated
    ensures h in s.table.unsubscribed ==> h !in FrameHandle(s.table.frame)
    ensures s.detached && h !in s.table.unsubscribed ==> h in FrameHandle(s.table.frame) || h in s.table.subLeaving
  {
    hide KeysOk, LinksOk, SubKeysOk, FrameOk, SubRecordsOk;
    assert s.table.subs == map[] ==> SubHandles(s.table.subs) == {};
  }
}
