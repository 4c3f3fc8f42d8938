/** The transport object: one method per block that the native code runs under
    `mutex_`, each refining one step of the state machine. The vectors and the
    request table are real fields; `model` is the abstract state they stand for,
    together with what only the interleaving knows. */
module HostTransport {
  import opened Totals
  import opened RecordLists
  import opened TransportModel
  import opened TransportRequests
  import opened TransportClients
  import opened TransportEvents
  import opened TransportRuns
  import opened TransportReplies

  lemma InvTables(l: Limits, s: State)
    requires Inv(l, s)
    ensures ClientKeysOk(l, s.table.clients, s.table.creation) && SubKeysOk(l, s.table.subs, s.table.nextSub)
    ensures s.table.created !in s.table.clients && s.table.nextSub !in s.table.subs
  {
    hide RequestInv, EventInv, LinksOk, FrameOk, SubHandlesOk, SubRecordsOk;
    assert s.table.created !in s.table.clients.Keys;
  }

  /** The first match in the vector is the only one. */
  lemma ClientFound(l: Limits, clients: map<Handle, Client>, creation: Creation, key: Key, h: Handle)
    requires ClientKeysOk(l, clients, creation) && h in clients && clients[h].key == key
    ensures FindClient(clients, key) == Some(h)
  {
  }

  lemma SubFound(l: Limits, subs: map<nat, Sub>, nextSub: nat, key: Key, r: nat)
    requires SubKeysOk(l, subs, nextSub) && r in subs && subs[r].key == key
    ensures FindSub(subs, key) == Some(r)
  {
  }

  lemma ClientMissing(rs: seq<Rec<Client>>, clients: map<Handle, Client>, key: Key)
    requires Lists(rs, clients) && forall i :: 0 <= i < |rs| ==> rs[i].value.key != key
    ensures FindClient(clients, key) == None
  {
    forall h | h in clients ensures clients[h].key != key {
      assert Listed(rs, h);
    }
  }

  lemma SubMissing(rs: seq<Rec<Sub>>, subs: map<nat, Sub>, key: Key)
    requires Lists(rs, subs) && forall i :: 0 <= i < |rs| ==> rs[i].value.key != key
    ensures FindSub(subs, key) == None
  {
    forall r | r in subs ensures subs[r].key != key {
      assert Listed(rs, r);
    }
  }

  lemma RequestStepInv(l: Limits, s: State, x: RequestStep)
    requires Inv(l, s) && RequestEnabled(l, s, x)
    ensures Inv(l, ApplyRequest(l, s, x))
  {
    hide Inv, RequestEnabled, ApplyRequest;
    StepInv(l, s, OnRequest(x));
  }

  lemma TableStepInv(l: Limits, s: State, x: TableStep)
    requires Inv(l, s) && TableEnabled(l, s, x)
    ensures Inv(l, ApplyTable(l, s, x))
  {
    hide Inv, TableEnabled, ApplyTable;
    StepInv(l, s, OnTable(x));
  }

  lemma EventStepInv(l: Limits, s: State, x: EventStep)
    requires Inv(l, s) && EventEnabled(s, x)
    ensures Inv(l, ApplyEvent(l, s, x))
  {
    hide Inv, EventEnabled, ApplyEvent;
    StepInv(l, s, OnEvent(x));
  }

  lemma SetupStepInv(l: Limits, s: State, x: SetupStep)
    requires Inv(l, s) && SetupEnabled(l, s, x)
    ensures Inv(l, ApplySetup(s, x))
  {
    hide Inv, SetupEnabled, ApplySetup;
    StepInv(l, s, Setup(x));
  }

  lemma ShutdownStepInv(l: Limits, s: State, x: ShutdownStep)
    requires Inv(l, s) && ShutdownEnabled(s, x)
    ensures Inv(l, ApplyShutdown(s, x))
  {
    hide Inv, ShutdownEnabled, ApplyShutdown;
    StepInv(l, s, Shutdown(x));
  }

  predicate FlagsMatch(lc: Lifecycle, setup: bool, activation: bool, live: bool, owns: bool, instances: bool,
                       teardown: bool, s: State) {
    && lc == s.lifecycle && setup == s.setupComplete && activation == s.activationInProgress
    && live == s.workerLive && owns == s.ownsEvents && instances == s.ingestsInstances && teardown == s.teardownStarted
  }

  predicate RequestsMatch(pending: map<nat, Pending>, active: nat, bytes: nat, allocations: nat, r: Requests) {
    && pending == r.pending && active == r.activeInvokes && bytes == r.retainedBytes && allocations == |r.fates|
  }

  lemma CancelLength(r: Requests, id: nat)
    requires id in r.pending
    ensures |CancelOne(r, id).fates| == |r.fates|
  {
  }

  /** `x` is enabled in `s` and leads to `s'`. */
  ghost predicate TableStepped(l: Limits, s: State, x: TableStep, s': State) {
    TableEnabled(l, s, x) && s' == ApplyTable(l, s, x)
  }

  lemma AcquireListed(l: Limits, s: State, rs: seq<Rec<Client>>, at: nat, key: Key, forSub: bool)
    requires Inv(l, s) && Lists(rs, s.table.clients) && at < |rs| && rs[at].value.key == key && key.Scoped?
    requires s.table.creation == NoCreation && Serviceable(s)
    requires forSub ==> s.table.frame.Probing? && s.table.frame.key == key
    ensures TableEnabled(l, s, AcquireExisting(key, forSub))
    ensures Lists(rs[at := Rec(rs[at].id, rs[at].value.(refs := rs[at].value.refs + 1))],
                  ApplyTable(l, s, AcquireExisting(key, forSub)).table.clients)
    ensures ApplyTable(l, s, AcquireExisting(key, forSub)).table.subs == s.table.subs
    ensures ApplyTable(l, s, AcquireExisting(key, forSub)).table.nextSub == s.table.nextSub
  {
    hide Inv, FindClient, ClientKeysOk, SubKeysOk, Lists;
    InvTables(l, s);
    ListedAt(rs, s.table.clients, at);
    ClientFound(l, s.table.clients, s.table.creation, key, rs[at].id);
    ListsUpdate(rs, s.table.clients, at, rs[at].value.(refs := rs[at].value.refs + 1));
  }

  lemma ListedAt<T>(rs: seq<Rec<T>>, m: map<nat, T>, at: nat)
    requires Lists(rs, m) && at < |rs|
    ensures rs[at].id in m && m[rs[at].id] == rs[at].value
  {
  }

  lemma FoundListed(l: Limits, s: State, rs: seq<Rec<Client>>, at: nat, key: Key)
    requires Inv(l, s) && Lists(rs, s.table.clients) && at < |rs| && rs[at].value.key == key
    ensures FindClient(s.table.clients, key) == Some(rs[at].id)
  {
    InvTables(l, s);
    ClientFound(l, s.table.clients, s.table.creation, key, rs[at].id);
    hide Inv, FindClient;
  }

  lemma StoreListed(l: Limits, s: State, rs: seq<Rec<Client>>, ok: bool)
    requires Inv(l, s) && Lists(rs, s.table.clients) && s.table.creation.Creating?
    ensures var t' := AcquireEnded(s.table, Serviceable(s), ok);
            && t'.subs == s.table.subs && t'.nextSub == s.table.nextSub
            && Lists(if ok && Serviceable(s) then rs + [Rec(s.table.created, Client(s.table.creation.key, 1))] else rs, t'.clients)
  {
    hide Inv;
    InvTables(l, s);
    hide ClientKeysOk, SubKeysOk;
    ListsAppend(rs, s.table.clients, s.table.created, Client(s.table.creation.key, 1));
    hide Lists;
  }

  /** `releaseScopedClient` on the vector. */
  function ReleasedList(rs: seq<Rec<Client>>, at: nat, subscribed: bool): seq<Rec<Client>>
    requires at < |rs|
  {
    var left := if rs[at].value.refs > 0 then rs[at].value.refs - 1 else 0;
    if left != 0 || subscribed then rs[at := Rec(rs[at].id, rs[at].value.(refs := left))]
    else rs[..at] + rs[at + 1..]
  }

  lemma ReleaseListed(rs: seq<Rec<Client>>, t: Table, at: nat)
    requires Lists(rs, t.clients) && at < |rs| && rs[at].value.key.Scoped?
    ensures Lists(ReleasedList(rs, at, SubscribedOn(t, rs[at].id)), ReleaseClient(t, rs[at].id).clients)
  {
    var left := if rs[at].value.refs > 0 then rs[at].value.refs - 1 else 0;
    ListsUpdate(rs, t.clients, at, rs[at].value.(refs := left));
    ListsRemove(rs, t.clients, at);
    hide SubscribedOn;
  }

  lemma NotListed(rs: seq<Rec<Client>>, t: Table, h: Handle)
    requires Lists(rs, t.clients) && forall i :: 0 <= i < |rs| ==> !(rs[i].id == h && rs[i].value.key.Scoped?)
    ensures ReleaseClient(t, h) == t
  {
    if h in t.clients {
      assert Listed(rs, h);
    }
  }

  lemma SubscribedListed(rs: seq<Rec<Sub>>, t: Table, h: Handle)
    requires Lists(rs, t.subs)
    ensures SubscribedOn(t, h) <==> exists i :: 0 <= i < |rs| && rs[i].value.client == h && rs[i].value.refs > 0
  {
    if SubscribedOn(t, h) {
      var r :| r in t.subs && t.subs[r].client == h && t.subs[r].refs > 0;
      assert Listed(rs, r);
    }
  }

  lemma ReleaseStepListed(rs: seq<Rec<Client>>, bs: seq<Rec<Sub>>, t: Table, h: Handle, forSub: bool,
                          at: Option<nat>, subscribed: bool)
    requires Lists(rs, t.clients) && Lists(bs, t.subs)
    requires match at
             case Some(i) => i < |rs| && rs[i].id == h && rs[i].value.key.Scoped?
             case None => forall i :: 0 <= i < |rs| ==> !(rs[i].id == h && rs[i].value.key.Scoped?)
    requires subscribed <==> exists i :: 0 <= i < |bs| && bs[i].value.client == h && bs[i].value.refs > 0
    ensures Released(t, h, forSub).subs == t.subs && Released(t, h, forSub).nextSub == t.nextSub
    ensures Lists(if at.Some? then ReleasedList(rs, at.value, subscribed) else rs, Released(t, h, forSub).clients)
    ensures Gone(t.clients, Released(t, h, forSub).clients, h)
         == if at.Some? && rs[at.value].value.refs <= 1 && !subscribed then Some(h) else None
  {
    SubscribedListed(bs, t, h);
    if at.Some? {
      ReleaseListed(rs, t, at.value);
    } else {
      NotListed(rs, t, h);
    }
    ReleaseGone(t, h, forSub, at.Some?);
    ReleaseKeepsSubs(t, h);
    hide Lists, ReleasedList, ReleaseClient;
  }

  lemma ReleaseGone(t: Table, h: Handle, forSub: bool, listed: bool)
    requires if listed then h in t.clients && t.clients[h].key.Scoped? else ReleaseClient(t, h) == t
    ensures Gone(t.clients, Released(t, h, forSub).clients, h)
         == if listed && t.clients[h].refs <= 1 && !SubscribedOn(t, h) then Some(h) else None
  {
  }

  lemma ReleaseKeepsSubs(t: Table, h: Handle)
    ensures ReleaseClient(t, h).subs == t.subs && ReleaseClient(t, h).nextSub == t.nextSub
  {
  }

  /** What a scan of the vector for `key` found out about the map. */
  ghost predicate ScannedSubs(bs: seq<Rec<Sub>>, key: Key, at: Option<nat>) {
    match at
    case Some(i) => i < |bs| && bs[i].value.key == key
    case None => forall i :: 0 <= i < |bs| ==> bs[i].value.key != key
  }

  lemma ScanSubs(l: Limits, s: State, bs: seq<Rec<Sub>>, key: Key, at: Option<nat>)
    requires Inv(l, s) && Lists(bs, s.table.subs) && ScannedSubs(bs, key, at)
    ensures |bs| == |s.table.subs|
    ensures FindSub(s.table.subs, key) == if at.Some? then Some(bs[at.value].id) else None
    ensures at.Some? ==> bs[at.value].id in s.table.subs && s.table.subs[bs[at.value].id] == bs[at.value].value
    ensures s.table.nextSub !in s.table.subs
  {
    InvTables(l, s);
    ListsLength(bs, s.table.subs);
    if at.Some? {
      SubFound(l, s.table.subs, s.table.nextSub, key, bs[at.value].id);
    } else {
      SubMissing(bs, s.table.subs, key);
    }
    hide Inv, FindSub;
  }

  lemma CommitListed(l: Limits, s: State, bs: seq<Rec<Sub>>, at: Option<nat>)
    requires Inv(l, s) && Lists(bs, s.table.subs) && s.table.frame.Holding? && ScannedSubs(bs, s.table.frame.key, at)
    ensures var f := s.table.frame;
            var t' := SubscribeCommitted(s.table, FindSub(s.table.subs, f.key), Serviceable(s), s.ingestsInstances);
            && t'.clients == s.table.clients
            && t'.nextSub == s.table.nextSub + (if !f.existing && Serviceable(s) && s.ingestsInstances then 1 else 0)
            && Lists(if !Serviceable(s) then bs
                     else if f.existing && at.Some? then bs[at.value := Rec(bs[at.value].id, bs[at.value].value.(refs := bs[at.value].value.refs + 1))]
                     else if !f.existing && s.ingestsInstances then bs + [Rec(s.table.nextSub, Sub(f.key, f.client, 1, None))]
                     else bs, t'.subs)
            && t'.frame == (if f.existing && at.Some? && Serviceable(s) then NoFrame
                            else if !f.existing && Serviceable(s) && s.ingestsInstances then Subscribing(s.table.nextSub, f.client)
                            else Dropping(None, f.client))
  {
    hide Inv, FindSub;
    ScanSubs(l, s, bs, s.table.frame.key, at);
    if at.Some? {
      ListsUpdate(bs, s.table.subs, at.value, bs[at.value].value.(refs := bs[at.value].value.refs + 1));
    }
    ListsAppend(bs, s.table.subs, s.table.nextSub, Sub(s.table.frame.key, s.table.frame.client, 1, None));
    hide Lists;
  }

  lemma NoFrameYet(l: Limits, s: State, x: TableStep)
    requires TableEnabled(l, s, x) && (x.SubscribeBegin? || x.Unsubscribe?)
    ensures s.table.frame == NoFrame
  {
  }

  /** The third block of `subscribeInstance` on the vector. */
  function EndedList(bs: seq<Rec<Sub>>, at: nat, granted: bool, handle: Option<Handle>): seq<Rec<Sub>>
    requires at < |bs|
  {
    if granted then bs[at := Rec(bs[at].id, bs[at].value.(handle := handle))] else bs[..at] + bs[at + 1..]
  }

  lemma EndListed(l: Limits, s: State, bs: seq<Rec<Sub>>, at: nat, ok: bool)
    requires Inv(l, s) && Lists(bs, s.table.subs) && s.table.frame.Subscribing? && at < |bs| && bs[at].id == s.table.frame.rec
    ensures var t' := SubscribeEnded(s.table, Serviceable(s), ok);
            && t'.clients == s.table.clients && t'.nextSub == s.table.nextSub
            && Lists(EndedList(bs, at, ok && Serviceable(s), if ok then Some(s.table.subCreated) else None), t'.subs)
            && t'.frame == (if ok && Serviceable(s) then NoFrame
                            else Dropping(if ok then Some(s.table.subCreated) else None, s.table.frame.client))
  {
    hide Inv;
    ListsUpdate(bs, s.table.subs, at, bs[at].value.(handle := if ok then Some(s.table.subCreated) else None));
    ListsRemove(bs, s.table.subs, at);
    assert bs[at].id in s.table.subs;
    hide Lists;
  }

  /** The block of `unsubscribeInstance` on the vector. */
  function DroppedList(bs: seq<Rec<Sub>>, at: nat): seq<Rec<Sub>>
    requires at < |bs|
  {
    if bs[at].value.refs > 1 then bs[at := Rec(bs[at].id, bs[at].value.(refs := bs[at].value.refs - 1))]
    else bs[..at] + bs[at + 1..]
  }

  lemma DropListed(l: Limits, s: State, bs: seq<Rec<Sub>>, key: Key, at: Option<nat>)
    requires Inv(l, s) && Lists(bs, s.table.subs) && ScannedSubs(bs, key, at)
    ensures var t' := Unsubscribed(s.table, FindSub(s.table.subs, key));
            && t'.clients == s.table.clients && t'.nextSub == s.table.nextSub
            && Lists(if at.Some? then DroppedList(bs, at.value) else bs, t'.subs)
  {
    hide Inv, FindSub;
    ScanSubs(l, s, bs, key, at);
    if at.Some? {
      ListsRemove(bs, s.table.subs, at.value);
      if bs[at.value].value.refs > 1 {
        ListsUpdate(bs, s.table.subs, at.value, bs[at.value].value.(refs := bs[at.value].value.refs - 1));
      }
    }
    hide Lists;
  }

  lemma RecordListed(l: Limits, s: State, bs: seq<Rec<Sub>>)
    requires Inv(l, s) && Lists(bs, s.table.subs) && s.table.frame.Subscribing?
    ensures Listed(bs, s.table.frame.rec)
  {
    hide RequestInv, EventInv, KeysOk, LinksOk, SubKeysOk, SubHandlesOk, SubRecordsOk;
  }

  function AllCancelled(pending: map<nat, Pending>): map<nat, Pending> {
    map id | id in pending :: pending[id].(cancelled := true)
  }

  lemma SuppressShape(r: Requests)
    ensures Suppress(r).pending == AllCancelled(r.pending)
    ensures |Suppress(r).fates| == |r.fates| && Suppress(r).activeInvokes == r.activeInvokes
    ensures Suppress(r).retainedBytes == r.retainedBytes
  {
  }

  lemma CloseShape(s: State)
    ensures ApplyShutdown(s, Close) == CloseState(s)
    ensures CloseState(s).table == s.table && CloseState(s).ev == s.ev
  {
    hide Suppress;
  }

  /** The fields after `close`, one by one. */
  lemma CloseParts(s: State)
    ensures var c := CloseState(s);
            && c.lifecycle == (if s.lifecycle == Dormant then Closed
                               else if s.lifecycle == Activating || s.lifecycle == Open then Closing else s.lifecycle)
            && c.setupComplete == (s.lifecycle == Dormant || s.setupComplete)
            && c.ownsEvents == ((s.lifecycle == Closing || s.lifecycle == Closed) && s.ownsEvents)
            && c.activationInProgress == s.activationInProgress && c.workerLive == s.workerLive
            && c.ingestsInstances == s.ingestsInstances && c.teardownStarted == s.teardownStarted
            && c.req == (if s.lifecycle == Activating || s.lifecycle == Open then Suppress(s.req) else s.req)
  {
    hide Suppress;
    match s.lifecycle
    case Dormant =>
    case Activating =>
    case Open =>
    case Faulting =>
    case Closing =>
    case Closed =>
  }

  lemma TeardownShape(s: State)
    requires ShutdownEnabled(s, TeardownFinish)
    ensures ApplyShutdown(s, TeardownFinish)
         == s.(req := s.req.(pending := map[], calls := map[], retainedBytes := 0), ev := NoEvents,
               ownsEvents := false, workerLive := false, activationInProgress := false, lifecycle := Closed)
  {
  }

  lemma AnswerLength(r: Requests, id: nat)
    requires id in r.pending
    ensures |Answer(r, id, FaultReply).fates| == |r.fates|
  {
  }

  /** The scoped client of a record that has gone is the caller's to release. */
  function Handed(before: map<nat, Pending>, after: map<nat, Pending>, id: nat): Option<Handle> {
    if id in before && id !in after && before[id].scoped then Some(before[id].client) else None
  }

  /** A client that has left the table is the caller's to destroy. */
  function Gone(before: map<Handle, Client>, after: map<Handle, Client>, h: Handle): Option<Handle> {
    if h in before && h !in after then Some(h) else None
  }

  lemma AdmitAdds(l: Limits, s: State, id: nat, client: Handle, scoped: bool, bytes: nat)
    requires Inv(l, s)
    ensures Admissible(l, s, id, bytes) <==>
              s.lifecycle == Open && s.workerLive && id !in s.req.pending && |s.req.pending| < l.maxPendingRequests
              && Total(s.req.pending, BytesWeight) + bytes <= l.maxRetainedRequestBytes
  {
    hide TableInv, EventInv, FlagsAgree, RepliesAgree, CallsAgree, ControlOk, LivenessOk;
  }

  lemma AdmitShape(l: Limits, s: State, id: nat, client: Handle, scoped: bool, bytes: nat)
    requires RequestEnabled(l, s, RequestStep.Admit(id, client, scoped, bytes))
    ensures var s' := ApplyRequest(l, s, RequestStep.Admit(id, client, scoped, bytes));
            && s'.ev == s.ev && s'.table.clients == s.table.clients && s'.table.subs == s.table.subs
            && s'.table.nextSub == s.table.nextSub
            && (!Admissible(l, s, id, bytes) ==> s' == s)
            && (Admissible(l, s, id, bytes) ==>
                  && s' == s.(req := s'.req, table := s'.table)
                  && s'.req.pending == s.req.pending[id := Pending(|s.req.fates|, client, scoped, bytes, true, false, false, false)]
                  && s'.req.retainedBytes == s.req.retainedBytes + bytes && s'.req.activeInvokes == s.req.activeInvokes + 1
                  && |s'.req.fates| == |s.req.fates| + 1)
  {
  }

  lemma ReturnAdds(l: Limits, s: State, id: nat, accepted: bool)
    requires Inv(l, s) && RequestEnabled(l, s, RequestStep.InvokeReturned(id, accepted))
    ensures ApplyRequest(l, s, RequestStep.InvokeReturned(id, accepted)).req.replies
         == s.req.replies + Given(s, OnRequest(RequestStep.InvokeReturned(id, accepted)))
  {
    hide TableInv, EventInv, RequestInv, RequestEnabled, ApplyRequest, Given;
    RepliesExact(l, s, OnRequest(RequestStep.InvokeReturned(id, accepted)));
  }

  lemma CompletionAdds(l: Limits, s: State, id: nat, kind: ReplyKind)
    requires Inv(l, s) && RequestEnabled(l, s, CallbackBegin(id, kind))
    ensures ApplyRequest(l, s, CallbackBegin(id, kind)).req.replies == s.req.replies + Given(s, OnRequest(CallbackBegin(id, kind)))
  {
    hide TableInv, EventInv, RequestInv, RequestEnabled, ApplyRequest, Given;
    RepliesExact(l, s, OnRequest(CallbackBegin(id, kind)));
  }

  class Transport {
    const limits: Limits
    var lifecycle: Lifecycle
    var setupComplete: bool
    var activationInProgress: bool
    var workerLive: bool
    var ownsEvents: bool
    const ingestsInstances: bool
    var teardownStarted: bool
    var activeInvokes: nat
    var retainedRequestBytes: nat
    var queuedEventBytes: nat
    var clients: seq<Rec<Client>>
    var subscriptions: seq<Rec<Sub>>
    var pending: map<nat, Pending>
    var eventQueue: seq<Event>
    /** How many request records were allocated: the identity of the next one. */
    var allocations: nat
    /** The same for subscription records. */
    var subscriptionAllocations: nat
    ghost var model: State

    ghost predicate Matches()
      reads this
    {
      && FlagsMatch(lifecycle, setupComplete, activationInProgress, workerLive, ownsEvents, ingestsInstances,
                    teardownStarted, model)
      && RequestsMatch(pending, activeInvokes, retainedRequestBytes, allocations, model.req)
      && subscriptionAllocations == model.table.nextSub
      && eventQueue == model.ev.queue && queuedEventBytes == model.ev.bytes
      && Lists(clients, model.table.clients) && Lists(subscriptions, model.table.subs)
    }

    ghost predicate Valid()
      reads this
    {
      Inv(limits, model) && Matches()
    }

    constructor (l: Limits, instances: bool)
      ensures Valid() && limits == l && model == Initial(instances)
    {
      limits, ingestsInstances := l, instances;
      lifecycle, setupComplete, activationInProgress := Dormant, true, false;
      workerLive, ownsEvents, teardownStarted := false, false, false;
      activeInvokes, retainedRequestBytes, queuedEventBytes := 0, 0, 0;
      allocations, subscriptionAllocations := 0, 0;
      clients, subscriptions, pending, eventQueue := [], [], map[], [];
      model := Initial(instances);
      InitialInv(l, instances);
    }

    // ------------------------------------------------------------- requests

    method Admit(id: nat, client: Handle, scoped: bool, bytes: nat) returns (admitted: bool)
      requires Valid() && RequestEnabled(limits, model, RequestStep.Admit(id, client, scoped, bytes))
      modifies this
      ensures Valid() && model == ApplyRequest(limits, old(model), RequestStep.Admit(id, client, scoped, bytes))
      ensures admitted <==> old(lifecycle) == Open && old(workerLive) && id !in old(pending)
                            && |old(pending)| < limits.maxPendingRequests
                            && Total(old(pending), BytesWeight) + bytes <= limits.maxRetainedRequestBytes
      ensures admitted ==> pending == old(pending)[id := Pending(old(allocations), client, scoped, bytes, true, false, false, false)]
      ensures !admitted ==> pending == old(pending)
    {
      hide Inv, RequestEnabled, Lists, SizeSub, Enters, ApplyRequest;
      AdmitAdds(limits, model, id, client, scoped, bytes);
      AdmitShape(limits, model, id, client, scoped, bytes);
      if lifecycle != Open || !workerLive || |pending| >= limits.maxPendingRequests || id in pending
         || bytes > SizeSub(limits.maxRetainedRequestBytes, retainedRequestBytes) {
        admitted := false;
      } else {
        pending := pending[id := Pending(allocations, client, scoped, bytes, true, false, false, false)];
        allocations := allocations + 1;
        retainedRequestBytes := retainedRequestBytes + bytes;
        activeInvokes := activeInvokes + 1;
        admitted := true;
      }
      RequestStepInv(limits, model, RequestStep.Admit(id, client, scoped, bytes));
      model := ApplyRequest(limits, model, RequestStep.Admit(id, client, scoped, bytes));
    }

    /** The block after `invokeAsync` returned; a refusal is answered at once. */
    method InvokeReturned(id: nat, accepted: bool) returns (reply: bool)
      requires Valid() && RequestEnabled(limits, model, RequestStep.InvokeReturned(id, accepted))
      modifies this
      ensures Valid() && model == ApplyRequest(limits, old(model), RequestStep.InvokeReturned(id, accepted))
      ensures id in old(pending)
      ensures reply <==> !accepted && old(lifecycle) == Open && !old(pending)[id].cancelled && !old(pending)[id].terminal
      ensures model.req.replies == old(model).req.replies + if reply then [Reply(old(pending)[id].serial, Refusal)] else []
    {
      hide Inv, Lists;
      ReturnAdds(limits, model, id, accepted);
      reply := false;
      if !accepted {
        pending := pending[id := pending[id].(callbackFinished := true)];
        if lifecycle == Open && !pending[id].cancelled && !pending[id].terminal {
          pending := pending[id := pending[id].(terminal := true)];
          reply := true;
        }
      }
      RequestStepInv(limits, model, RequestStep.InvokeReturned(id, accepted));
      model := ApplyRequest(limits, model, RequestStep.InvokeReturned(id, accepted));
    }

    /** `eraseFinishedRequestLocked`, on the fields. */
    method EraseFinished(id: nat, ghost r: Requests) returns (release: Option<Handle>)
      requires RequestsMatch(pending, activeInvokes, retainedRequestBytes, allocations, r)
      modifies this`pending, this`retainedRequestBytes
      ensures RequestsMatch(pending, activeInvokes, retainedRequestBytes, allocations, Erased(r, id))
      ensures release == if Erasable(r, id) && r.pending[id].scoped then Some(r.pending[id].client) else None
      ensures release == Handed(old(pending), pending, id)
    {
      release := None;
      if id !in pending || pending[id].invoking || !pending[id].callbackFinished
         || (!pending[id].terminal && !pending[id].cancelled) {
        return;
      }
      if pending[id].scoped {
        release := Some(pending[id].client);
      }
      retainedRequestBytes := if pending[id].bytes <= retainedRequestBytes then retainedRequestBytes - pending[id].bytes else 0;
      pending := pending - {id};
    }

    /** `finishActiveInvoke`; the returned client is the caller's to release. */
    method FinishActiveInvoke(id: nat) returns (release: Option<Handle>)
      requires Valid() && RequestEnabled(limits, model, RequestStep.InvokeFinished(id))
      modifies this
      ensures Valid() && model == ApplyRequest(limits, old(model), RequestStep.InvokeFinished(id))
      ensures release == Handed(old(pending), pending, id)
    {
      hide Inv, Lists, Erased, Freed;
      pending := pending[id := pending[id].(invoking := false)];
      if activeInvokes > 0 {
        activeInvokes := activeInvokes - 1;
      }
      release := EraseFinished(id, FinishInvoke(model.req, id));
      EraseEffect(FinishInvoke(model.req, id), id);
      RequestStepInv(limits, model, RequestStep.InvokeFinished(id));
      model := ApplyRequest(limits, model, RequestStep.InvokeFinished(id));
    }

    /** The first block of `complete`: the result is kept for the reply that follows. */
    method CompleteBegin(id: nat, kind: ReplyKind) returns (reply: bool)
      requires Valid() && RequestEnabled(limits, model, CallbackBegin(id, kind))
      modifies this
      ensures Valid() && model == ApplyRequest(limits, old(model), CallbackBegin(id, kind))
      ensures id in old(pending)
      ensures reply <==> old(lifecycle) == Open && !old(pending)[id].cancelled && !old(pending)[id].terminal
      ensures model.req.replies == old(model).req.replies + if reply then [Reply(old(pending)[id].serial, kind)] else []
    {
      hide Inv, Lists;
      CompletionAdds(limits, model, id, kind);
      reply := false;
      if lifecycle == Open && !pending[id].cancelled && !pending[id].terminal {
        pending := pending[id := pending[id].(terminal := true)];
        reply := true;
      }
      RequestStepInv(limits, model, CallbackBegin(id, kind));
      model := ApplyRequest(limits, model, CallbackBegin(id, kind));
    }

    method CompleteEnd(id: nat) returns (release: Option<Handle>)
      requires Valid() && RequestEnabled(limits, model, CallbackEnd(id))
      modifies this
      ensures Valid() && model == ApplyRequest(limits, old(model), CallbackEnd(id))
      ensures release == Handed(old(pending), pending, id)
    {
      hide Inv, Lists, Erased, Freed;
      pending := pending[id := pending[id].(callbackFinished := true)];
      release := EraseFinished(id, EndCallback(model.req, id));
      EraseEffect(EndCallback(model.req, id), id);
      RequestStepInv(limits, model, CallbackEnd(id));
      model := ApplyRequest(limits, model, CallbackEnd(id));
    }

    method Cancel(id: nat) returns (release: Option<Handle>)
      requires Valid()
      modifies this
      ensures Valid() && model == ApplyRequest(limits, old(model), RequestStep.Cancel(id))
      ensures release == Handed(old(pending), pending, id)
    {
      hide Inv, Lists, Erased, Freed;
      release := None;
      if id in pending {
        pending := pending[id := pending[id].(cancelled := true)];
        CancelLength(model.req, id);
        release := EraseFinished(id, CancelOne(model.req, id));
        EraseEffect(CancelOne(model.req, id), id);
      }
      RequestStepInv(limits, model, RequestStep.Cancel(id));
      model := ApplyRequest(limits, model, RequestStep.Cancel(id));
    }

    /** `suppressPendingLocked` */
    method SuppressPending()
      modifies this`pending
      ensures pending == AllCancelled(old(pending))
    {
      var left := pending.Keys;
      while left != {}
        invariant left <= pending.Keys && pending.Keys == old(pending).Keys
        invariant forall id :: id in left ==> pending[id] == old(pending)[id]
        invariant forall id :: id in pending && id !in left ==> pending[id] == old(pending)[id].(cancelled := true)
        decreases left
      {
        var id :| id in left;
        pending := pending[id := pending[id].(cancelled := true)];
        left := left - {id};
      }
    }

    // --------------------------------------------------------------- events

    method RequestFaultLocked()
      modifies this`lifecycle, this`ownsEvents
      ensures old(lifecycle == Activating || lifecycle == Open) ==> lifecycle == Faulting && !ownsEvents
      ensures !old(lifecycle == Activating || lifecycle == Open) ==> lifecycle == old(lifecycle) && ownsEvents == old(ownsEvents)
    {
      if lifecycle == Activating || lifecycle == Open {
        lifecycle := Faulting;
        ownsEvents := false;
      }
    }

    /** `coalesceQueuedBlockBurstLocked` */
    method CoalesceBlockBurst(e: Event) returns (done: bool)
      modifies this`eventQueue, this`queuedEventBytes
      ensures done <==> IsLatestBlock(e) && old(eventQueue) != [] && old(queuedEventBytes) <= limits.maxQueuedEventBytes
                        && AllBlocks(old(eventQueue))
      ensures if done then eventQueue == [e] && queuedEventBytes == EventBytes(e)
              else eventQueue == old(eventQueue) && queuedEventBytes == old(queuedEventBytes)
    {
      if !IsLatestBlock(e) || eventQueue == [] || queuedEventBytes > limits.maxQueuedEventBytes {
        return false;
      }
      for i := 0 to |eventQueue|
        invariant eventQueue == old(eventQueue) && queuedEventBytes == old(queuedEventBytes)
        invariant forall j :: 0 <= j < i ==> IsLatestBlock(eventQueue[j])
      {
        if !IsLatestBlock(eventQueue[i]) {
          return false;
        }
      }
      eventQueue := [e];
      queuedEventBytes := EventBytes(e);
      return true;
    }

    method EnqueueEvent(e: Event, ghost ev: Events)
      requires eventQueue == ev.queue && queuedEventBytes == ev.bytes && (lifecycle == Activating || lifecycle == Open)
      modifies this`eventQueue, this`queuedEventBytes, this`lifecycle, this`ownsEvents
      ensures var r := Enqueue(limits, ev, e);
              if r.Some? then eventQueue == r.value.queue && queuedEventBytes == r.value.bytes
                              && lifecycle == old(lifecycle) && ownsEvents == old(ownsEvents)
              else eventQueue == ev.queue && queuedEventBytes == ev.bytes && lifecycle == Faulting && !ownsEvents
    {
      hide IsLatestBlock, AllBlocks, EventBytes;
      if |eventQueue| >= limits.maxQueuedEvents || EventBytes(e) > SizeSub(limits.maxQueuedEventBytes, queuedEventBytes) {
        var done := CoalesceBlockBurst(e);
        if !done {
          RequestFaultLocked();
        }
      } else {
        queuedEventBytes := queuedEventBytes + EventBytes(e);
        eventQueue := eventQueue + [e];
      }
    }

    /** `ingestEvent`; `status` is what the core answers if it is asked. */
    method IngestEvent(e: Event, wellFormed: bool, status: IngestStatus)
      requires Valid()
      modifies this
      ensures Valid() && model == ApplyEvent(limits, old(model), Ingest(e, wellFormed, status))
    {
      hide Inv, Lists, EventBytes, Enqueue;
      EventStepInv(limits, model, Ingest(e, wellFormed, status));
      if (lifecycle != Activating && lifecycle != Open)
         || (e.instance == "" && !ownsEvents) || (e.instance != "" && !ingestsInstances) {
        return;
      }
      ghost var s := model;
      model := ApplyEvent(limits, model, Ingest(e, wellFormed, status));
      if !wellFormed || EventBytes(e) > limits.maxSingleEventBytes {
        RequestFaultLocked();
      } else if lifecycle == Activating || eventQueue != [] {
        EnqueueEvent(e, s.ev);
      } else {
        match status
        case Accepted =>
        case Backpressure => EnqueueEvent(e, s.ev);
        case Rejected => RequestFaultLocked();
      }
    }

    /** One round of the worker's retry loop. */
    method DeliverFrontEvent(status: IngestStatus)
      requires Valid() && EventEnabled(model, Deliver(status))
      modifies this
      ensures Valid() && model == ApplyEvent(limits, old(model), Deliver(status))
    {
      hide Inv, Lists, EventBytes;
      EventStepInv(limits, model, Deliver(status));
      model := ApplyEvent(limits, model, Deliver(status));
      match status
      case Accepted =>
        var bytes := EventBytes(eventQueue[0]);
        queuedEventBytes := if bytes <= queuedEventBytes then queuedEventBytes - bytes else 0;
        eventQueue := eventQueue[1..];
      case Backpressure =>
      case Rejected => RequestFaultLocked();
    }

    // -------------------------------------------- scoped clients and subscriptions

    method FindClientRecord(key: Key) returns (at: Option<nat>)
      ensures at.Some? ==> at.value < |clients| && clients[at.value].value.key == key
      ensures at.None? ==> forall i :: 0 <= i < |clients| ==> clients[i].value.key != key
    {
      for i := 0 to |clients|
        invariant forall j :: 0 <= j < i ==> clients[j].value.key != key
      {
        if clients[i].value.key == key {
          return Some(i);
        }
      }
      return None;
    }

    method FindSubscription(key: Key) returns (at: Option<nat>)
      ensures ScannedSubs(subscriptions, key, at)
    {
      for i := 0 to |subscriptions|
        invariant forall j :: 0 <= j < i ==> subscriptions[j].value.key != key
      {
        if subscriptions[i].value.key == key {
          return Some(i);
        }
      }
      return None;
    }

    method CountScopedClients(ghost m: map<Handle, Client>) returns (count: nat)
      requires Lists(clients, m)
      ensures count == Total(m, ScopedWeight)
    {
      count := 0;
      for i := 0 to |clients|
        invariant count == Sum(clients[..i], ScopedWeight)
      {
        assert clients[..i + 1][..i] == clients[..i];
        count := count + (if clients[i].value.key.Scoped? then 1 else 0);
      }
      assert clients[..|clients|] == clients;
      SumTotal(clients, m, ScopedWeight);
    }

    /** The first block of `acquireScopedClient`, for a dispatching thread or for the
        subscribing one: an existing client gains a reference, or a place is found
        for a new one, or the acquisition fails. */
    method AcquireLookup(key: Key, forSub: bool) returns (existing: Option<Handle>, create: bool)
      requires Valid() && key.Scoped? && model.table.creation == NoCreation
      requires forSub ==> model.table.frame.Probing? && model.table.frame.key == key
      modifies this
      ensures Valid()
      ensures existing == if Serviceable(old(model)) then FindClient(old(model).table.clients, key) else None
      ensures create <==> Serviceable(old(model)) && existing.None? && ScopedClients(old(model).table) < limits.maxScopedClients
      ensures existing.Some? ==> TableStepped(limits, old(model), AcquireExisting(key, forSub), model)
      ensures existing.None? && create ==> TableStepped(limits, old(model), AcquireBegin(key, forSub), model)
      ensures existing.None? && !create && forSub ==> TableStepped(limits, old(model), AcquireRefused, model)
      ensures existing.None? && !create && !forSub ==> model == old(model)
    {
      hide Inv, Lists, FindClient;
      existing, create := None, false;
      if lifecycle == Open && workerLive {
        var at := FindClientRecord(key);
        if at.Some? {
          existing := Some(clients[at.value].id);
          FoundListed(limits, model, clients, at.value, key);
          AcquireRecord(at.value, key, forSub);
          return;
        }
        ClientMissing(clients, model.table.clients, key);
        var scoped := CountScopedClients(model.table.clients);
        create := scoped < limits.maxScopedClients;
      }
      if create {
        TableStepInv(limits, model, AcquireBegin(key, forSub));
        model := ApplyTable(limits, model, AcquireBegin(key, forSub));
      } else if forSub {
        TableStepInv(limits, model, AcquireRefused);
        model := ApplyTable(limits, model, AcquireRefused);
      }
    }

    method AcquireRecord(at: nat, key: Key, forSub: bool)
      requires Valid() && key.Scoped? && model.table.creation == NoCreation && lifecycle == Open && workerLive
      requires forSub ==> model.table.frame.Probing? && model.table.frame.key == key
      requires at < |clients| && clients[at].value.key == key
      modifies this
      ensures Valid() && TableStepped(limits, old(model), AcquireExisting(key, forSub), model)
    {
      hide Inv, Lists, FindClient, AcquireFound, TableEnabled;
      AcquireListed(limits, model, clients, at, key, forSub);
      TableStepInv(limits, model, AcquireExisting(key, forSub));
      model := ApplyTable(limits, model, AcquireExisting(key, forSub));
      clients := clients[at := Rec(clients[at].id, clients[at].value.(refs := clients[at].value.refs + 1))];
    }

    /** The second block of `acquireScopedClient`, after the library call. */
    method AcquireStore(handle: Option<Handle>, key: Key) returns (retained: bool)
      requires Valid() && model.table.creation.Creating? && key == model.table.creation.key
      requires handle.Some? ==> handle.value == model.table.created
      modifies this
      ensures Valid() && TableStepped(limits, old(model), AcquireEnd(handle.Some?), model)
      ensures retained <==> handle.Some? && Serviceable(old(model))
    {
      hide Inv, Lists, AcquireEnded;
      StoreListed(limits, model, clients, handle.Some?);
      TableStepInv(limits, model, AcquireEnd(handle.Some?));
      model := ApplyTable(limits, model, AcquireEnd(handle.Some?));
      retained := false;
      if handle.Some? && lifecycle == Open && workerLive {
        clients := clients + [Rec(handle.value, Client(key, 1))];
        retained := true;
      }
    }

    method FindScopedHandle(h: Handle) returns (at: Option<nat>)
      ensures at.Some? ==> at.value < |clients| && clients[at.value].id == h && clients[at.value].value.key.Scoped?
      ensures at.None? ==> forall i :: 0 <= i < |clients| ==> !(clients[i].id == h && clients[i].value.key.Scoped?)
    {
      for i := 0 to |clients|
        invariant forall j :: 0 <= j < i ==> !(clients[j].id == h && clients[j].value.key.Scoped?)
      {
        if clients[i].id == h && clients[i].value.key.Scoped? {
          return Some(i);
        }
      }
      return None;
    }

    method ReferencedBySubscription(h: Handle) returns (yes: bool)
      ensures yes <==> exists i :: 0 <= i < |subscriptions| && subscriptions[i].value.client == h && subscriptions[i].value.refs > 0
    {
      for i := 0 to |subscriptions|
        invariant forall j :: 0 <= j < i ==> !(subscriptions[j].value.client == h && subscriptions[j].value.refs > 0)
      {
        if subscriptions[i].value.client == h && subscriptions[i].value.refs > 0 {
          return true;
        }
      }
      return false;
    }

    /** `releaseScopedClient`; a client whose count reached zero is the caller's to destroy. */
    method ReleaseScopedClient(h: Handle, ghost forSub: bool) returns (destroy: Option<Handle>)
      requires Valid() && TableEnabled(limits, model, Release(h, forSub))
      modifies this
      ensures Valid() && model == ApplyTable(limits, old(model), Release(h, forSub))
      ensures destroy == Gone(old(model).table.clients, model.table.clients, h)
    {
      hide Inv, Lists, TableEnabled, Released, ReleasedList;
      TableStepInv(limits, model, Release(h, forSub));
      destroy := None;
      var at := FindScopedHandle(h);
      var subscribed := ReferencedBySubscription(h);
      ReleaseStepListed(clients, subscriptions, model.table, h, forSub, at, subscribed);
      model := ApplyTable(limits, model, Release(h, forSub));
      if at.Some? {
        if clients[at.value].value.refs <= 1 && !subscribed {
          destroy := Some(h);
        }
        clients := ReleasedList(clients, at.value, subscribed);
      }
    }

    /** The first block of `subscribeInstance`. */
    method SubscribeProbe(key: Key) returns (proceed: bool, existing: bool)
      requires Valid() && TableEnabled(limits, model, SubscribeBegin(key))
      modifies this
      ensures Valid() && model == ApplyTable(limits, old(model), SubscribeBegin(key))
      ensures proceed <==> model.table.frame.Probing?
      ensures existing <==> FindSub(model.table.subs, key) != None
      ensures proceed ==> model.table.frame == Probing(key, existing)
    {
      hide Inv, Lists, TableEnabled, FindSub;
      NoFrameYet(limits, model, SubscribeBegin(key));
      TableStepInv(limits, model, SubscribeBegin(key));
      var at := FindSubscription(key);
      ScanSubs(limits, model, subscriptions, key, at);
      existing := at.Some?;
      proceed := lifecycle == Open && workerLive && ingestsInstances
                 && (existing || |subscriptions| < limits.maxScopedSubscriptions);
      model := ApplyTable(limits, model, SubscribeBegin(key));
    }

    /** The second block when the subscription existed: another reference. */
    method SubscribeAgain(key: Key, client: Handle) returns (retained: bool)
      requires Valid() && model.table.frame == Holding(key, true, client)
      modifies this
      ensures Valid() && TableStepped(limits, old(model), SubscribeCommit, model)
      ensures retained <==> model.table.frame == NoFrame
      ensures !retained ==> model.table.frame == Dropping(None, client)
    {
      hide Inv, Lists, FindSub, SubscribeCommitted;
      TableStepInv(limits, model, SubscribeCommit);
      var at := FindSubscription(key);
      CommitListed(limits, model, subscriptions, at);
      model := ApplyTable(limits, model, SubscribeCommit);
      retained := at.Some? && lifecycle == Open && workerLive;
      if retained {
        var b := subscriptions[at.value];
        subscriptions := subscriptions[at.value := Rec(b.id, b.value.(refs := b.value.refs + 1))];
      }
    }

    /** The second block otherwise: a new record, still without a handle. */
    method SubscribeNew(key: Key, client: Handle) returns (retained: bool)
      requires Valid() && model.table.frame == Holding(key, false, client)
      modifies this
      ensures Valid() && TableStepped(limits, old(model), SubscribeCommit, model)
      ensures retained <==> model.table.frame.Subscribing?
      ensures !retained ==> model.table.frame == Dropping(None, client)
    {
      hide Inv, Lists, FindSub, SubscribeCommitted;
      TableStepInv(limits, model, SubscribeCommit);
      var at := FindSubscription(key);
      CommitListed(limits, model, subscriptions, at);
      model := ApplyTable(limits, model, SubscribeCommit);
      retained := lifecycle == Open && workerLive && ingestsInstances;
      if retained {
        subscriptions := subscriptions + [Rec(subscriptionAllocations, Sub(key, client, 1, None))];
        subscriptionAllocations := subscriptionAllocations + 1;
      }
    }

    method FindRecord(rec: nat) returns (at: nat)
      requires Listed(subscriptions, rec)
      ensures at < |subscriptions| && subscriptions[at].id == rec
    {
      at := 0;
      while subscriptions[at].id != rec
        invariant at < |subscriptions|
        invariant forall j :: 0 <= j < at ==> subscriptions[j].id != rec
        decreases |subscriptions| - at
      {
        at := at + 1;
      }
    }

    /** The third block: the handle is stored, or the record goes. */
    method SubscribeFinish(rec: nat, handle: Option<Handle>) returns (retained: bool)
      requires Valid() && model.table.frame.Subscribing? && model.table.frame.rec == rec
      requires handle.Some? ==> handle.value == model.table.subCreated
      modifies this
      ensures Valid() && TableStepped(limits, old(model), SubscribeEnd(handle.Some?), model)
      ensures retained <==> model.table.frame == NoFrame
      ensures !retained ==> model.table.frame == Dropping(handle, old(model).table.frame.client)
    {
      hide Inv, Lists, SubscribeEnded, EndedList;
      TableStepInv(limits, model, SubscribeEnd(handle.Some?));
      RecordListed(limits, model, subscriptions);
      var at := FindRecord(rec);
      EndListed(limits, model, subscriptions, at, handle.Some?);
      model := ApplyTable(limits, model, SubscribeEnd(handle.Some?));
      retained := lifecycle == Open && workerLive && handle.Some?;
      subscriptions := EndedList(subscriptions, at, retained, handle);
    }

    /** The block of `unsubscribeInstance`. */
    method UnsubscribeRecord(key: Key) returns (client: Option<Handle>, handle: Option<Handle>)
      requires Valid() && TableEnabled(limits, model, Unsubscribe(key))
      modifies this
      ensures Valid() && model == ApplyTable(limits, old(model), Unsubscribe(key))
      ensures client.Some? <==> FindSub(old(model).table.subs, key) != None
      ensures model.table.frame == if client.Some? then Dropping(handle, client.value) else NoFrame
    {
      hide Inv, Lists, TableEnabled, FindSub, DroppedList;
      NoFrameYet(limits, model, Unsubscribe(key));
      TableStepInv(limits, model, Unsubscribe(key));
      client, handle := None, None;
      var at := FindSubscription(key);
      ScanSubs(limits, model, subscriptions, key, at);
      DropListed(limits, model, subscriptions, key, at);
      model := ApplyTable(limits, model, Unsubscribe(key));
      if at.Some? {
        client := Some(subscriptions[at.value].value.client);
        handle := if subscriptions[at.value].value.refs > 1 then None else subscriptions[at.value].value.handle;
        subscriptions := DroppedList(subscriptions, at.value);
      }
    }

    // ----------------------------------------------------------- activation

    method ActivateBlock()
      requires Valid() && SetupEnabled(limits, model, ActivateBegin)
      modifies this
      ensures Valid() && model == ApplySetup(old(model), ActivateBegin)
    {
      hide Inv, Lists;
      SetupStepInv(limits, model, ActivateBegin);
      model := ApplySetup(model, ActivateBegin);
      lifecycle, setupComplete, activationInProgress, ownsEvents := Activating, false, true, true;
    }

    method WorkerStarted()
      requires Valid() && SetupEnabled(limits, model, WorkerStart)
      modifies this
      ensures Valid() && model == ApplySetup(old(model), WorkerStart)
    {
      hide Inv, Lists;
      SetupStepInv(limits, model, WorkerStart);
      model := ApplySetup(model, WorkerStart);
      workerLive := true;
    }

    /** The block of `createClients` that records a new base client. */
    method AddBaseClient(mod: string, handle: Handle)
      requires Valid() && SetupEnabled(limits, model, BaseClient(mod)) && handle == model.table.created
      modifies this
      ensures Valid() && model == ApplySetup(old(model), BaseClient(mod))
    {
      hide Inv, FindClient;
      SetupStepInv(limits, model, BaseClient(mod));
      InvTables(limits, model);
      hide ClientKeysOk, SubKeysOk;
      ListsAppend(clients, model.table.clients, handle, Client(Base(mod), 0));
      hide Lists;
      model := ApplySetup(model, BaseClient(mod));
      clients := clients + [Rec(handle, Client(Base(mod), 0))];
    }

    method ClearPartialEvents()
      requires Valid() && SetupEnabled(limits, model, ClearPartial)
      modifies this
      ensures Valid() && model == ApplySetup(old(model), ClearPartial)
    {
      hide Inv, Lists;
      SetupStepInv(limits, model, ClearPartial);
      model := ApplySetup(model, ClearPartial);
      ownsEvents, eventQueue, queuedEventBytes := false, [], 0;
    }

    /** The last block of `activate`. */
    method OpenTransport(complete: bool) returns (succeeded: bool)
      requires Valid() && SetupEnabled(limits, model, ActivateOpen(complete))
      modifies this
      ensures Valid() && model == ApplySetup(old(model), ActivateOpen(complete))
      ensures succeeded <==> old(lifecycle) == Activating
    {
      hide Inv, Lists;
      SetupStepInv(limits, model, ActivateOpen(complete));
      model := ApplySetup(model, ActivateOpen(complete));
      succeeded := lifecycle == Activating;
      setupComplete := true;
      if succeeded {
        lifecycle, activationInProgress, ownsEvents := Open, false, complete;
      }
    }

    method FailActivation()
      requires Valid() && SetupEnabled(limits, model, ActivateFail)
      modifies this
      ensures Valid() && model == ApplySetup(old(model), ActivateFail)
    {
      hide Inv, Lists, Suppress, AllCancelled;
      SuppressShape(model.req);
      SetupStepInv(limits, model, ActivateFail);
      model := ApplySetup(model, ActivateFail);
      if lifecycle == Activating {
        lifecycle := Closing;
        SuppressPending();
      }
      ownsEvents, setupComplete := false, true;
    }

    // ------------------------------------------------------------- shutdown

    /** The locked block of `close`. */
    method CloseBlock()
      requires Valid()
      modifies this
      ensures Valid() && model == ApplyShutdown(old(model), Close)
    {
      hide Inv, Lists, ApplyShutdown, CloseState, FlagsMatch, RequestsMatch;
      CloseShape(model);
      ShutdownStepInv(limits, model, Close);
      CloseFields(model);
      model := CloseState(model);
    }

    /** Its `switch` over the lifecycle. */
    method CloseFields(ghost s: State)
      requires FlagsMatch(lifecycle, setupComplete, activationInProgress, workerLive, ownsEvents, ingestsInstances, teardownStarted, s)
      requires RequestsMatch(pending, activeInvokes, retainedRequestBytes, allocations, s.req)
      modifies this`lifecycle, this`setupComplete, this`ownsEvents, this`pending
      ensures FlagsMatch(lifecycle, setupComplete, activationInProgress, workerLive, ownsEvents, ingestsInstances, teardownStarted,
                         CloseState(s))
      ensures RequestsMatch(pending, activeInvokes, retainedRequestBytes, allocations, CloseState(s).req)
    {
      hide Suppress, AllCancelled, CloseState;
      SuppressShape(s.req);
      CloseParts(s);
      match lifecycle
      case Dormant => lifecycle, setupComplete, ownsEvents := Closed, true, false;
      case Activating => lifecycle, ownsEvents := Closing, false; SuppressPending();
      case Open => lifecycle, ownsEvents := Closing, false; SuppressPending();
      case Faulting => ownsEvents := false;
      case Closing =>
      case Closed =>
    }

    /** The worker leaves its loop. */
    method LeaveWorkerLoop() returns (faulted: bool)
      requires Valid() && ShutdownEnabled(model, WorkerShutdown)
      modifies this
      ensures Valid() && model == ApplyShutdown(old(model), WorkerShutdown)
      ensures faulted <==> lifecycle == Faulting
    {
      hide Inv, Lists;
      ShutdownStepInv(limits, model, WorkerShutdown);
      model := ApplyShutdown(model, WorkerShutdown);
      faulted := lifecycle == Faulting;
      eventQueue, queuedEventBytes := [], 0;
    }

    /** One round of `failPendingAfterFault`: the request to fail, or none is left. */
    method FailNextPending() returns (failed: Option<nat>)
      requires Valid() && model.worker == FailingPending
      modifies this
      ensures Valid()
      ensures failed.Some? ==> ShutdownEnabled(old(model), FailOne(failed.value))
      ensures failed.Some? ==> model == ApplyShutdown(old(model), FailOne(failed.value))
      ensures failed.Some? ==>
                && failed.value in old(pending) && !old(pending)[failed.value].cancelled && !old(pending)[failed.value].terminal
                && model.req.replies == old(model).req.replies + [Reply(old(pending)[failed.value].serial, FaultReply)]
      ensures failed.None? ==> ShutdownEnabled(old(model), FailNone) && model == ApplyShutdown(old(model), FailNone)
      ensures failed.None? ==> forall id :: id in old(pending) ==> old(pending)[id].cancelled || old(pending)[id].terminal
    {
      failed := FindUnanswered();
      hide Inv, Lists;
      if failed.Some? {
        ShutdownStepInv(limits, model, FailOne(failed.value));
        AnswerLength(model.req, failed.value);
        model := ApplyShutdown(model, FailOne(failed.value));
        pending := pending[failed.value := pending[failed.value].(terminal := true)];
      } else {
        ShutdownStepInv(limits, model, FailNone);
        model := ApplyShutdown(model, FailNone);
      }
    }

    method FindUnanswered() returns (found: Option<nat>)
      ensures found.Some? ==> found.value in pending && Unanswered(pending[found.value])
      ensures found.None? ==> forall id :: id in pending ==> !Unanswered(pending[id])
    {
      var left := pending.Keys;
      while left != {}
        invariant left <= pending.Keys
        invariant forall id :: id in pending && id !in left ==> !Unanswered(pending[id])
        decreases left
      {
        var id :| id in left;
        if Unanswered(pending[id]) {
          return Some(id);
        }
        left := left - {id};
      }
      return None;
    }

    method FinishWorker()
      requires Valid() && ShutdownEnabled(model, WorkerFinish)
      modifies this
      ensures Valid() && model == ApplyShutdown(old(model), WorkerFinish)
    {
      hide Inv, Lists;
      ShutdownStepInv(limits, model, WorkerFinish);
      model := ApplyShutdown(model, WorkerFinish);
      eventQueue, queuedEventBytes, ownsEvents, workerLive := [], 0, false, false;
    }

    method EmergencyCloseBlock()
      requires Valid() && ShutdownEnabled(model, EmergencyClose)
      modifies this
      ensures Valid() && model == ApplyShutdown(old(model), EmergencyClose)
    {
      hide Inv, Lists;
      ShutdownStepInv(limits, model, EmergencyClose);
      model := ApplyShutdown(model, EmergencyClose);
      ownsEvents := false;
      if lifecycle == Activating || lifecycle == Open {
        lifecycle := Faulting;
      }
      eventQueue, queuedEventBytes := [], 0;
    }

    method BeginTeardown()
      requires Valid() && ShutdownEnabled(model, TeardownStart)
      modifies this
      ensures Valid() && model == ApplyShutdown(old(model), TeardownStart)
    {
      hide Inv, Lists;
      ShutdownStepInv(limits, model, TeardownStart);
      model := ApplyShutdown(model, TeardownStart);
      teardownStarted := true;
    }

    /** The tables are moved out; what they held is the caller's to unsubscribe and destroy. */
    method DetachTables() returns (oldClients: seq<Rec<Client>>, oldSubscriptions: seq<Rec<Sub>>)
      requires Valid() && ShutdownEnabled(model, TeardownDetach)
      modifies this
      ensures Valid() && model == ApplyShutdown(old(model), TeardownDetach)
      ensures Lists(oldClients, old(model).table.clients) && Lists(oldSubscriptions, old(model).table.subs)
    {
      hide Inv;
      ListsEmpty<Client>();
      ListsEmpty<Sub>();
      hide Lists;
      ShutdownStepInv(limits, model, TeardownDetach);
      model := ApplyShutdown(model, TeardownDetach);
      oldClients, oldSubscriptions := clients, subscriptions;
      clients, subscriptions, eventQueue, queuedEventBytes := [], [], [], 0;
    }

    method FinishTeardown()
      requires Valid() && ShutdownEnabled(model, TeardownFinish)
      modifies this
      ensures Valid() && model == ApplyShutdown(old(model), TeardownFinish)
    {
      hide Inv, Lists, ApplyShutdown, ShutdownEnabled;
      TeardownShape(model);
      ShutdownStepInv(limits, model, TeardownFinish);
      model := ApplyShutdown(model, TeardownFinish);
      pending, retainedRequestBytes, eventQueue, queuedEventBytes := map[], 0, [], 0;
      ownsEvents, workerLive, activationInProgress, lifecycle := false, false, false, Closed;
    }
  }
}
