/** What the steps do to events, clients, subscriptions and the lifecycle, told by sums,
    keys and counts. */
module TransportEffects {
  import opened Totals
  import opened TransportModel
  import opened TransportRequests
  import opened TransportClients
  import opened TransportEvents
  import opened TransportRuns

  // -------------------------------------------------------------------- events

  /** The transport takes notice of the event. */
  predicate Heard(s: State, e: Event) {
    && (s.lifecycle == Activating || s.lifecycle == Open)
    && (if e.instance == "" then s.ownsEvents else s.ingestsInstances)
  }

  predicate Faulted(s: State, s': State) {
    s' == s.(lifecycle := Faulting, ownsEvents := false)
  }

  function Size(e: Event): nat {
    |e.mod| + |e.instance| + |e.name| + |e.args|
  }

  predicate Room(l: Limits, q: seq<Event>, e: Event) {
    |q| < l.maxQueuedEvents && QueueBytes(q) + Size(e) <= l.maxQueuedEventBytes
  }

  /** The chain module's announcement of a block, outside every instance. */
  predicate Block(e: Event) {
    e.mod == "blockchain_module" && e.name == "newBlock" && e.instance == ""
  }

  /** Another queue, and nothing else. */
  predicate Queued(s: State, s': State, q: seq<Event>, delivered: seq<Event>) {
    s' == s.(ev := s'.ev) && s'.ev.queue == q && s'.ev.delivered == s.ev.delivered + delivered
  }

  /** An arriving event, in every case: ignored, delivered at once, appended, put in place
      of a queue of blocks, or a fault. */
  lemma IngestExact(l: Limits, s: State, e: Event, wellFormed: bool, status: IngestStatus)
    requires EventInv(l, s)
    ensures var s' := ApplyEvent(l, s, Ingest(e, wellFormed, status));
            var q := s.ev.queue;
            if !Heard(s, e) then s' == s
            else if !wellFormed || Size(e) > l.maxSingleEventBytes then Faulted(s, s')
            else if s.lifecycle == Open && q == [] && status == Accepted then Queued(s, s', [], [e])
            else if s.lifecycle == Open && q == [] && status == Rejected then Faulted(s, s')
            else if Room(l, q, e) then Queued(s, s', q + [e], [])
            else if q != [] && Block(e) && (forall i :: 0 <= i < |q| ==> Block(q[i])) then Queued(s, s', [e], [])
            else Faulted(s, s')
  {
    hide Thinned, QueueBytes, Fault;
    FaultIs(s);
    SizeIs(e);
    BlocksAre(s.ev.queue);
  }

  lemma FaultIs(s: State)
    ensures s.lifecycle == Activating || s.lifecycle == Open ==> Faulted(s, Fault(s))
  {
  }

  lemma SizeIs(e: Event)
    ensures EventBytes(e) == Size(e) && (IsLatestBlock(e) <==> Block(e))
  {
  }

  lemma BlocksAre(q: seq<Event>)
    ensures AllBlocks(q) <==> forall i :: 0 <= i < |q| ==> Block(q[i])
  {
  }

  /** One round of the worker: the front event is delivered and goes, stays, or faults. */
  lemma DeliverExact(l: Limits, s: State, status: IngestStatus)
    requires s.ev.queue != [] && s.lifecycle == Open
    ensures var s' := ApplyEvent(l, s, Deliver(status));
            match status
            case Accepted => Queued(s, s', s.ev.queue[1..], [s.ev.queue[0]])
            case Backpressure => s' == s
            case Rejected => Faulted(s, s')
  {
  }

  // ------------------------------------------------------------------- clients

  predicate Gains(t: Table, x: TableStep, h: Handle)
    requires h in t.clients
  {
    x.AcquireExisting? && t.clients[h].key == x.key
  }

  predicate Loses(t: Table, x: TableStep, h: Handle)
    requires h in t.clients
  {
    x.Release? && x.client == h && t.clients[h].key.Scoped?
  }

  predicate Makes(s: State, x: TableStep, h: Handle) {
    x == AcquireEnd(true) && Serviceable(s) && h == s.table.created && s.table.creation.Creating?
  }

  /** A client that nobody else uses is let go by the last release. */
  ghost predicate ClientExact(s: State, x: TableStep, h: Handle, clients': map<Handle, Client>) {
    var clients := s.table.clients;
    if h in clients then
      && (h in clients' <==> !(Loses(s.table, x, h) && clients[h].refs == 1))
      && (h in clients' ==>
            clients'[h] == clients[h].(refs := if Gains(s.table, x, h) then clients[h].refs + 1
                                               else if Loses(s.table, x, h) && clients[h].refs > 1 then clients[h].refs - 1
                                               else clients[h].refs))
    else
      && (h in clients' <==> Makes(s, x, h))
      && (h in clients' ==> clients'[h] == Client(s.table.creation.key, 1))
  }

  lemma FoundIs(l: Limits, clients: map<Handle, Client>, creation: Creation, key: Key, h: Handle)
    requires ClientKeysOk(l, clients, creation) && h in clients && FindClient(clients, key).Some?
    ensures FindClient(clients, key) == Some(h) <==> clients[h].key == key
  {
  }

  lemma AcquiredClient(l: Limits, s: State, key: Key, forSub: bool, h: Handle)
    requires ClientKeysOk(l, s.table.clients, s.table.creation) && TableEnabled(l, s, AcquireExisting(key, forSub))
    ensures ClientExact(s, AcquireExisting(key, forSub), h, AcquireFound(s.table, FindClient(s.table.clients, key).value, forSub).clients)
  {
    if h in s.table.clients {
      FoundIs(l, s.table.clients, s.table.creation, key, h);
    }
  }

  lemma EndedClient(s: State, ok: bool, h: Handle)
    requires s.table.creation.Creating? && s.table.created !in s.table.clients
    ensures ClientExact(s, AcquireEnd(ok), h, AcquireEnded(s.table, Serviceable(s), ok).clients)
  {
  }

  lemma ReleaseShape(t: Table, g: Handle, forSub: bool)
    requires g in t.clients && t.clients[g].key.Scoped? ==>
               t.clients[g].refs > 0 && (t.clients[g].refs == 1 ==> !SubscribedOn(t, g))
    ensures Released(t, g, forSub).clients ==
            if g !in t.clients || t.clients[g].key.Base? then t.clients
            else if t.clients[g].refs == 1 then t.clients - {g}
            else t.clients[g := t.clients[g].(refs := t.clients[g].refs - 1)]
  {
    hide SubscribedOn;
  }

  lemma ReleasedClient(s: State, g: Handle, forSub: bool, h: Handle)
    requires g in s.table.clients && s.table.clients[g].key.Scoped? ==>
               s.table.clients[g].refs > 0 && (s.table.clients[g].refs == 1 ==> !SubscribedOn(s.table, g))
    ensures ClientExact(s, Release(g, forSub), h, Released(s.table, g, forSub).clients)
  {
    hide SubscribedOn, Released;
    ReleaseShape(s.table, g, forSub);
  }

  lemma PlainClient(s: State, x: TableStep, h: Handle)
    requires !x.AcquireExisting? && !x.AcquireEnd? && !x.Release?
    ensures ClientExact(s, x, h, s.table.clients)
  {
  }

  /** The count of a released client is positive, and one only without subscriptions. */
  lemma ReleaseFacts(l: Limits, s: State, g: Handle, forSub: bool)
    requires TableInv(l, s) && TableEnabled(l, s, Release(g, forSub)) && g in s.table.clients
    ensures s.table.clients[g].refs > 0 && (s.table.clients[g].refs == 1 ==> !SubscribedOn(s.table, g))
  {
    hide KeysOk, SubsOk, LinksOk, SubscribedOn;
    assert !s.detached;
    GuardNeverFires(s.req.pending, s.table, g);
  }

  lemma CreatedFresh(l: Limits, s: State)
    requires TableInv(l, s)
    ensures s.table.created !in s.table.clients && ClientKeysOk(l, s.table.clients, s.table.creation)
  {
    hide SubsOk, LinksOk, ClientKeysOk;
    assert s.table.created !in s.table.clients.Keys;
  }

  lemma OtherClients(l: Limits, s: State, x: TableStep)
    requires TableEnabled(l, s, x) && !x.AcquireExisting? && !x.AcquireEnd? && !x.Release?
    ensures ApplyTable(l, s, x).table.clients == s.table.clients
  {
    hide FindSub, FindClient;
    match x
    case AcquireBegin(_, _) =>
    case AcquireRefused =>
    case SubscribeBegin(_) =>
    case SubscribeCommit =>
    case SubscribeEnd(_) =>
    case Unsubscribe(_) =>
    case DropHandle =>
  }

  /** Every block of acquire, release, subscribe and unsubscribe, on every client: exactly
      the client with the key is counted up, exactly the released one counted down, and it
      goes with the last count; a client is made exactly by a creation that succeeded while
      the transport is serving. */
  lemma ClientsExact(l: Limits, s: State, x: TableStep, h: Handle)
    requires TableInv(l, s) && TableEnabled(l, s, x)
    ensures ClientExact(s, x, h, ApplyTable(l, s, x).table.clients)
  {
    hide TableInv, ClientExact, AcquireFound, AcquireEnded, Released, ClientKeysOk, FindClient, FindSub, SubscribeBegun,
      SubscribeCommitted, SubscribeEnded, Unsubscribed;
    CreatedFresh(l, s);
    match x
    case AcquireExisting(key, forSub) => AcquiredClient(l, s, key, forSub, h);
    case AcquireEnd(ok) => EndedClient(s, ok, h);
    case Release(g, forSub) =>
      if g in s.table.clients {
        ReleaseFacts(l, s, g, forSub);
      }
      ReleasedClient(s, g, forSub, h);
    case _ =>
      OtherClients(l, s, x);
      PlainClient(s, x, h);
  }

  // ------------------------------------------------------------- subscriptions

  ghost predicate HasSub(subs: map<nat, Sub>, key: Key) {
    exists r :: r in subs && subs[r].key == key
  }

  /** How many subscriptions of this key are wanted; none when there is no record. */
  ghost function Wanted(subs: map<nat, Sub>, key: Key): nat {
    if HasSub(subs, key) then var r :| r in subs && subs[r].key == key; subs[r].refs else 0
  }

  lemma WantedIs(l: Limits, subs: map<nat, Sub>, nextSub: nat, r: nat)
    requires SubKeysOk(l, subs, nextSub) && r in subs
    ensures Wanted(subs, subs[r].key) == subs[r].refs && FindSub(subs, subs[r].key) == Some(r)
  {
    assert HasSub(subs, subs[r].key);
  }

  /** What the step does to the count of a key. */
  ghost function WantedAfter(s: State, x: TableStep, key: Key): nat {
    var n := Wanted(s.table.subs, key);
    var f := s.table.frame;
    match x
    case SubscribeCommit =>
      if f.Holding? && f.key == key && Serviceable(s) && (f.existing || s.ingestsInstances) then n + 1 else n
    case SubscribeEnd(ok) =>
      if f.Subscribing? && f.rec in s.table.subs && s.table.subs[f.rec].key == key && !(ok && Serviceable(s)) then 0 else n
    case Unsubscribe(k) => if k == key && n > 0 then n - 1 else n
    case _ => n
  }

  /** Adding one reference to a record, or taking one away. */
  lemma RewriteWanted(l: Limits, subs: map<nat, Sub>, nextSub: nat, r: nat, sub: Sub, key: Key)
    requires SubKeysOk(l, subs, nextSub) && r in subs && sub.key == subs[r].key
    ensures Wanted(subs[r := sub], key) == if key == sub.key then sub.refs else Wanted(subs, key)
  {
    var subs' := subs[r := sub];
    if HasSub(subs', key) {
      var q :| q in subs' && subs'[q].key == key;
      assert q in subs && subs[q].key == key;
    }
    if HasSub(subs, key) {
      var q :| q in subs && subs[q].key == key;
      assert q in subs' && subs'[q].key == key;
    }
    assert r in subs' && subs'[r].key == sub.key;
  }

  lemma AddWanted(l: Limits, subs: map<nat, Sub>, nextSub: nat, r: nat, sub: Sub, key: Key)
    requires SubKeysOk(l, subs, nextSub) && r !in subs && !HasSub(subs, sub.key)
    ensures Wanted(subs[r := sub], key) == if key == sub.key then sub.refs else Wanted(subs, key)
  {
    var subs' := subs[r := sub];
    if HasSub(subs', key) && key != sub.key {
      var q :| q in subs' && subs'[q].key == key;
      assert q in subs && subs[q].key == key;
    }
    if HasSub(subs, key) {
      var q :| q in subs && subs[q].key == key;
      assert q in subs' && subs'[q].key == key;
    }
    assert r in subs' && subs'[r].key == sub.key;
  }

  lemma RemoveWanted(l: Limits, subs: map<nat, Sub>, nextSub: nat, r: nat, key: Key)
    requires SubKeysOk(l, subs, nextSub) && r in subs
    ensures Wanted(subs - {r}, key) == if key == subs[r].key then 0 else Wanted(subs, key)
  {
    var subs' := subs - {r};
    if HasSub(subs', key) {
      var q :| q in subs' && subs'[q].key == key;
      assert q in subs && subs[q].key == key;
    }
    if HasSub(subs, key) && key != subs[r].key {
      var q :| q in subs && subs[q].key == key;
      assert q in subs' && subs'[q].key == key;
    }
  }

  lemma CommitShape(t: Table, found: Option<nat>, serviceable: bool, ingests: bool)
    requires t.frame.Holding? && (found.Some? ==> found.value in t.subs)
    ensures SubscribeCommitted(t, found, serviceable, ingests).subs ==
            if t.frame.existing then
              if found.Some? && serviceable
              then t.subs[found.value := t.subs[found.value].(refs := t.subs[found.value].refs + 1)] else t.subs
            else if serviceable && ingests then t.subs[t.nextSub := Sub(t.frame.key, t.frame.client, 1, None)] else t.subs
  {
  }

  lemma CommitApplied(l: Limits, s: State)
    requires FrameOk(l, s.table.subs, s.table.frame) && TableEnabled(l, s, SubscribeCommit)
    ensures var t := s.table; var found := FindSub(t.subs, t.frame.key);
            && t.frame.Holding? && (t.frame.existing <==> HasSub(t.subs, t.frame.key))
            && (found.Some? <==> t.frame.existing) && (found.Some? ==> found.value in t.subs && t.subs[found.value].key == t.frame.key)
            && ApplyTable(l, s, SubscribeCommit).table.subs
            == SubscribeCommitted(t, found, Serviceable(s), s.ingestsInstances).subs
  {
    hide SubscribeCommitted, FindSub, HasSub;
    FindIs(s.table.subs, s.table.frame.key);
  }

  lemma CommitWanted(l: Limits, s: State, key: Key)
    requires SubKeysOk(l, s.table.subs, s.table.nextSub) && FrameOk(l, s.table.subs, s.table.frame)
    requires TableEnabled(l, s, SubscribeCommit)
    ensures Wanted(ApplyTable(l, s, SubscribeCommit).table.subs, key) == WantedAfter(s, SubscribeCommit, key)
  {
    hide Wanted, SubKeysOk, SubscribeCommitted, FindSub, HasSub, ApplyTable, FrameOk;
    var t, f := s.table, s.table.frame;
    CommitApplied(l, s);
    var found := FindSub(t.subs, f.key);
    CommitShape(t, found, Serviceable(s), s.ingestsInstances);
    if f.existing {
      CountUp(l, t.subs, t.nextSub, found.value, key);
    } else {
      CountNew(l, t.subs, t.nextSub, f.key, f.client, key);
    }
  }

  lemma CountUp(l: Limits, subs: map<nat, Sub>, nextSub: nat, r: nat, key: Key)
    requires SubKeysOk(l, subs, nextSub) && r in subs
    ensures Wanted(subs[r := subs[r].(refs := subs[r].refs + 1)], key) == Wanted(subs, key) + if key == subs[r].key then 1 else 0
  {
    hide Wanted, SubKeysOk;
    WantedIs(l, subs, nextSub, r);
    RewriteWanted(l, subs, nextSub, r, subs[r].(refs := subs[r].refs + 1), key);
  }

  lemma CountNew(l: Limits, subs: map<nat, Sub>, nextSub: nat, k: Key, client: Handle, key: Key)
    requires SubKeysOk(l, subs, nextSub) && !HasSub(subs, k)
    ensures Wanted(subs[nextSub := Sub(k, client, 1, None)], key) == Wanted(subs, key) + if key == k then 1 else 0
  {
    hide Wanted, SubKeysOk;
    NextIsFree(l, subs, nextSub);
    NoneWanted(subs, k);
    AddWanted(l, subs, nextSub, nextSub, Sub(k, client, 1, None), key);
  }

  lemma NextIsFree(l: Limits, subs: map<nat, Sub>, nextSub: nat)
    requires SubKeysOk(l, subs, nextSub)
    ensures nextSub !in subs
  {
  }

  lemma NoneWanted(subs: map<nat, Sub>, key: Key)
    requires !HasSub(subs, key)
    ensures Wanted(subs, key) == 0
  {
  }

  lemma FindIs(subs: map<nat, Sub>, key: Key)
    ensures FindSub(subs, key) != None <==> HasSub(subs, key)
    ensures FindSub(subs, key).Some? ==> FindSub(subs, key).value in subs && subs[FindSub(subs, key).value].key == key
  {
  }

  lemma EndWanted(l: Limits, s: State, ok: bool, key: Key)
    requires SubKeysOk(l, s.table.subs, s.table.nextSub) && FrameOk(l, s.table.subs, s.table.frame)
    requires TableEnabled(l, s, SubscribeEnd(ok))
    ensures Wanted(ApplyTable(l, s, SubscribeEnd(ok)).table.subs, key) == WantedAfter(s, SubscribeEnd(ok), key)
  {
    hide Wanted, SubKeysOk;
    var t, f := s.table, s.table.frame;
    WantedIs(l, t.subs, t.nextSub, f.rec);
    RewriteWanted(l, t.subs, t.nextSub, f.rec, t.subs[f.rec].(handle := Some(t.subCreated)), key);
    RemoveWanted(l, t.subs, t.nextSub, f.rec, key);
  }

  lemma UnsubscribeWanted(l: Limits, s: State, k: Key, key: Key)
    requires SubKeysOk(l, s.table.subs, s.table.nextSub) && (forall r :: r in s.table.subs ==> s.table.subs[r].refs > 0)
    requires TableEnabled(l, s, Unsubscribe(k))
    ensures Wanted(ApplyTable(l, s, Unsubscribe(k)).table.subs, key) == WantedAfter(s, Unsubscribe(k), key)
  {
    hide Wanted, SubKeysOk;
    var t := s.table;
    var found := FindSub(t.subs, k);
    FindIs(t.subs, k);
    if found.Some? {
      var r := found.value;
      WantedIs(l, t.subs, t.nextSub, r);
      RewriteWanted(l, t.subs, t.nextSub, r, t.subs[r].(refs := t.subs[r].refs - 1), key);
      RemoveWanted(l, t.subs, t.nextSub, r, key);
    } else {
      NoneWanted(t.subs, k);
    }
  }

  lemma ReleasedSubs(t: Table, h: Handle, forSub: bool)
    ensures Released(t, h, forSub).subs == t.subs
  {
  }

  lemma AcquiredSubs(t: Table, h: Handle, forSub: bool)
    requires h in t.clients && (forSub ==> t.frame.Probing?)
    ensures AcquireFound(t, h, forSub).subs == t.subs
  {
  }

  lemma EndedSubs(t: Table, serviceable: bool, ok: bool)
    requires t.creation.Creating?
    ensures AcquireEnded(t, serviceable, ok).subs == t.subs
  {
  }

  lemma OtherSubs(l: Limits, s: State, x: TableStep)
    requires TableEnabled(l, s, x) && !x.SubscribeCommit? && !x.SubscribeEnd? && !x.Unsubscribe?
    ensures ApplyTable(l, s, x).table.subs == s.table.subs
  {
    hide FindSub, Released, AcquireFound, AcquireEnded;
    match x
    case AcquireExisting(key, forSub) => AcquiredSubs(s.table, FindClient(s.table.clients, key).value, forSub);
    case AcquireBegin(_, _) =>
    case AcquireRefused =>
    case AcquireEnd(ok) => EndedSubs(s.table, Serviceable(s), ok);
    case Release(h, forSub) => ReleasedSubs(s.table, h, forSub);
    case SubscribeBegin(_) =>
    case DropHandle =>
  }

  lemma SubFacts(l: Limits, s: State)
    requires TableInv(l, s)
    ensures SubKeysOk(l, s.table.subs, s.table.nextSub) && FrameOk(l, s.table.subs, s.table.frame)
    ensures forall r :: r in s.table.subs ==> s.table.subs[r].refs > 0
  {
    hide KeysOk, SubKeysOk, FrameOk, SubHandlesOk, SubRecordsOk, PendingOk, HoldersOk, RefsExact;
  }

  /** Every block, on the subscriptions of every key: exactly a committed subscribe counts it
      up, an unsubscribe counts it down, and one whose call failed is gone. */
  lemma SubscriptionsExact(l: Limits, s: State, x: TableStep, key: Key)
    requires TableInv(l, s) && TableEnabled(l, s, x)
    ensures Wanted(ApplyTable(l, s, x).table.subs, key) == WantedAfter(s, x, key)
  {
    hide TableInv, Wanted, SubKeysOk, FrameOk, ApplyTable, TableEnabled;
    SubFacts(l, s);
    match x
    case SubscribeCommit => CommitWanted(l, s, key);
    case SubscribeEnd(ok) => EndWanted(l, s, ok, key);
    case Unsubscribe(k) => UnsubscribeWanted(l, s, k, key);
    case _ => OtherSubs(l, s, x);
  }

  // ----------------------------------------------------------------- lifecycle

  predicate Running(lc: Lifecycle) { lc == Activating || lc == Open }

  /** Every step, on the lifecycle: which steps may change it and to what. */
  function LifecycleAfter(s: State, e: Step, faults: bool): Lifecycle {
    match e
    case Setup(ActivateBegin) => Activating
    case Setup(SpawnFailed) => Closed
    case Setup(ActivateOpen(_)) => if s.lifecycle == Activating then Open else s.lifecycle
    case Setup(ActivateFail) => if s.lifecycle == Activating then Closing else s.lifecycle
    case OnEvent(_) => if faults then Faulting else s.lifecycle
    case Shutdown(Close) => if Running(s.lifecycle) then Closing else if s.lifecycle == Dormant then Closed else s.lifecycle
    case Shutdown(EmergencyClose) => if Running(s.lifecycle) then Faulting else s.lifecycle
    case Shutdown(TeardownFinish) => Closed
    case _ => s.lifecycle
  }

  lemma ShutdownLifecycle(s: State, x: ShutdownStep)
    requires ShutdownEnabled(s, x)
    ensures ApplyShutdown(s, x).lifecycle == LifecycleAfter(s, Shutdown(x), false)
  {
    hide Suppress, Answer;
    match x
    case Close =>
    case WorkerShutdown =>
    case FailOne(_) =>
    case FailNone =>
    case WorkerFinish =>
    case EmergencyClose =>
    case TeardownStart =>
    case TeardownDetach =>
    case QuiesceSub(_) =>
    case QuiesceClient(_) =>
    case TeardownFinish =>
  }

  lemma SetupLifecycle(s: State, x: SetupStep)
    ensures ApplySetup(s, x).lifecycle == LifecycleAfter(s, Setup(x), false)
  {
    hide Suppress;
    match x
    case ActivateBegin =>
    case SpawnFailed =>
    case WorkerStart =>
    case BaseClient(_) =>
    case SetupAbandoned =>
    case ClearPartial =>
    case ActivateOpen(_) =>
    case ActivateFail =>
  }

  /** An event step can only make a running transport fault; `IngestExact` and
      `DeliverExact` say when. */
  lemma EventLifecycle(l: Limits, s: State, x: EventStep)
    requires EventEnabled(s, x)
    ensures var s' := ApplyEvent(l, s, x);
            && (s'.lifecycle == s.lifecycle || (Running(s.lifecycle) && s'.lifecycle == Faulting))
            && (x.RequestFault? && Running(s.lifecycle) ==> s'.lifecycle == Faulting)
  {
    EventStepShape(l, s, x);
    hide IngestEvent, DeliverFront;
  }

  lemma LifecycleExact(l: Limits, s: State, e: Step)
    requires RequestInv(l, s) && Enabled(l, s, e)
    ensures var lc' := Apply(l, s, e).lifecycle;
            lc' == LifecycleAfter(s, e, lc' != s.lifecycle)
    ensures e == OnEvent(RequestFault) && Running(s.lifecycle) ==> Apply(l, s, e).lifecycle == Faulting
  {
    hide ApplySetup, ApplyTable, ApplyRequest, ApplyEvent, ApplyShutdown, RequestsOk, LivenessOk, ControlOk, TableEnabled,
      RequestEnabled, ShutdownEnabled, SetupEnabled;
    match e
    case Setup(x) => SetupLifecycle(s, x);
    case OnTable(x) => TableStepControl(l, s, x);
    case OnRequest(x) => RequestStepControl(l, s, x);
    case OnEvent(x) => EventLifecycle(l, s, x);
    case Shutdown(x) => ShutdownLifecycle(s, x);
  }

  function Stage(lc: Lifecycle): nat {
    match lc
    case Dormant => 0
    case Activating => 1
    case Open => 2
    case Faulting => 3
    case Closing => 3
    case Closed => 4
  }

  lemma StageStep(l: Limits, s: State, e: Step)
    requires RequestInv(l, s) && Enabled(l, s, e)
    ensures var s' := Apply(l, s, e); s'.lifecycle == s.lifecycle || Stage(s.lifecycle) < Stage(s'.lifecycle)
  {
    hide Apply, RequestsOk, LivenessOk, TableEnabled, RequestEnabled;
    LifecycleExact(l, s, e);
    FaultsRunning(l, s, e);
  }

  lemma FaultsRunning(l: Limits, s: State, e: Step)
    requires Enabled(l, s, e)
    ensures e.OnEvent? && Apply(l, s, e).lifecycle != s.lifecycle ==> Running(s.lifecycle)
  {
    hide ApplySetup, ApplyTable, ApplyRequest, ApplyEvent, ApplyShutdown, TableEnabled, RequestEnabled, ShutdownEnabled, SetupEnabled;
    if e.OnEvent? {
      EventLifecycle(l, s, e.event);
    }
  }

  /** In every run the lifecycle only moves forward: it is never opened again, a fault is
      not turned into an orderly close or the other way round, and closed is final. */
  lemma {:induction false} LifecycleForward(l: Limits, ss: seq<State>, es: seq<Step>, i: nat, j: nat)
    requires IsRun(l, ss, es) && i <= j < |ss|
    ensures ss[i].lifecycle == ss[j].lifecycle || Stage(ss[i].lifecycle) < Stage(ss[j].lifecycle)
    decreases j - i
  {
    hide Enabled, Apply, RequestInv, TableInv, EventInv;
    if i < j {
      LifecycleForward(l, ss, es, i, j - 1);
      RunInv(l, ss, es, j - 1);
      StageStep(l, ss[j - 1], es[j - 1]);
    }
  }

  // --------------------------------------------------------------------- flags

  datatype Flags = Flags(setupComplete: bool, activationInProgress: bool, workerLive: bool, ownsEvents: bool)

  function FlagsOf(s: State): Flags {
    Flags(s.setupComplete, s.activationInProgress, s.workerLive, s.ownsEvents)
  }

  /** The flags after a step: events are owned from the start of the activation, after it only
      with a complete catalogue, and no longer once the transport faults or closes. */
  function FlagsAfter(s: State, e: Step): Flags {
    var f := FlagsOf(s);
    var activating := s.lifecycle == Activating;
    match e
    case Setup(ActivateBegin) => f.(setupComplete := false, activationInProgress := true, ownsEvents := true)
    case Setup(SpawnFailed) => f.(setupComplete := true, activationInProgress := false)
    case Setup(WorkerStart) => f.(workerLive := true)
    case Setup(SetupAbandoned) => f.(setupComplete := true)
    case Setup(ClearPartial) => f.(ownsEvents := false)
    case Setup(ActivateOpen(complete)) =>
      f.(setupComplete := true, activationInProgress := f.activationInProgress && !activating,
         ownsEvents := if activating then complete else f.ownsEvents)
    case Setup(ActivateFail) => f.(setupComplete := true, ownsEvents := false)
    case Shutdown(Close) =>
      f.(setupComplete := f.setupComplete || s.lifecycle == Dormant,
         ownsEvents := f.ownsEvents && (s.lifecycle == Closing || s.lifecycle == Closed))
    case Shutdown(WorkerFinish) => f.(workerLive := false, ownsEvents := false)
    case Shutdown(EmergencyClose) => f.(ownsEvents := false)
    case Shutdown(TeardownFinish) => f.(workerLive := false, ownsEvents := false, activationInProgress := false)
    case _ => f
  }

  lemma SetupFlags(s: State, x: SetupStep)
    ensures FlagsOf(ApplySetup(s, x)) == FlagsAfter(s, Setup(x))
  {
    hide Suppress;
    match x
    case ActivateBegin =>
    case SpawnFailed =>
    case WorkerStart =>
    case BaseClient(_) =>
    case SetupAbandoned =>
    case ClearPartial =>
    case ActivateOpen(_) =>
    case ActivateFail =>
  }

  lemma CloseFlags(s: State)
    ensures FlagsOf(CloseState(s)) == FlagsAfter(s, Shutdown(Close))
  {
    hide Suppress;
    match s.lifecycle
    case Dormant =>
    case Activating =>
    case Open =>
    case Faulting =>
    case Closing =>
    case Closed =>
  }

  lemma EmergencyFlags(s: State)
    requires ShutdownEnabled(s, EmergencyClose)
    ensures FlagsOf(ApplyShutdown(s, EmergencyClose)) == FlagsOf(s).(ownsEvents := false)
  {
  }

  lemma ShutdownFlags(s: State, x: ShutdownStep)
    requires ShutdownEnabled(s, x)
    ensures FlagsOf(ApplyShutdown(s, x)) == FlagsAfter(s, Shutdown(x))
  {
    hide CloseState, Answer, Fault, SubHandles;
    match x
    case Close => CloseFlags(s);
    case WorkerShutdown =>
    case FailOne(_) =>
    case FailNone =>
    case WorkerFinish =>
    case EmergencyClose => EmergencyFlags(s);
    case TeardownStart =>
    case TeardownDetach =>
    case QuiesceSub(_) =>
    case QuiesceClient(_) =>
    case TeardownFinish =>
  }

  /** Events are given up exactly with a fault. */
  predicate OwnsUnlessFaulted(s: State, s': State) {
    s'.ownsEvents == (s.ownsEvents && s'.lifecycle == s.lifecycle)
  }

  lemma FaultOwns(s: State)
    ensures OwnsUnlessFaulted(s, Fault(s))
  {
  }

  lemma SetOwns(s: State, ev: Option<Events>)
    ensures OwnsUnlessFaulted(s, SetEvents(s, ev))
  {
    hide Fault;
    FaultOwns(s);
  }

  lemma IngestOwns(l: Limits, s: State, e: Event, wellFormed: bool, status: IngestStatus)
    ensures OwnsUnlessFaulted(s, IngestEvent(l, s, e, wellFormed, status))
  {
    hide Fault, SetEvents, Enqueue, EventBytes;
    FaultOwns(s);
    SetOwns(s, Enqueue(l, s.ev, e));
  }

  lemma DeliverOwns(s: State, status: IngestStatus)
    requires s.ev.queue != []
    ensures OwnsUnlessFaulted(s, DeliverFront(s, status))
  {
    hide Fault, EventBytes;
    FaultOwns(s);
  }

  lemma EventFlags(l: Limits, s: State, x: EventStep)
    requires EventEnabled(s, x)
    ensures var s' := ApplyEvent(l, s, x);
            FlagsOf(s') == if s'.lifecycle == s.lifecycle then FlagsOf(s) else FlagsOf(s).(ownsEvents := false)
  {
    EventStepShape(l, s, x);
    hide IngestEvent, DeliverFront, Fault;
    match x
    case Ingest(e, wellFormed, status) => IngestOwns(l, s, e, wellFormed, status);
    case Deliver(status) => DeliverOwns(s, status);
    case RequestFault => FaultOwns(s);
  }

  /** Every step, on the flags; an event step that faults gives the events up. */
  lemma FlagsExact(l: Limits, s: State, e: Step)
    requires Enabled(l, s, e)
    ensures var s' := Apply(l, s, e);
            FlagsOf(s') == if e.OnEvent? && s'.lifecycle != s.lifecycle then FlagsOf(s).(ownsEvents := false) else FlagsAfter(s, e)
  {
    hide ApplySetup, ApplyTable, ApplyRequest, ApplyEvent, ApplyShutdown, TableEnabled, RequestEnabled, ShutdownEnabled, SetupEnabled;
    match e
    case Setup(x) => SetupFlags(s, x);
    case OnTable(x) => TableStepControl(l, s, x);
    case OnRequest(x) => RequestStepControl(l, s, x);
    case OnEvent(x) => EventFlags(l, s, x);
    case Shutdown(x) => ShutdownFlags(s, x);
  }
}
