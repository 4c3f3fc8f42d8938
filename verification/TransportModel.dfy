/** The native host transport as a state machine. Each step is one block that the
    C++ code runs under `mutex_` (or one call into the protocol library); any
    enabled step of any thread may come next. Everything the class itself does
    not store, such as which foreign calls are on some stack, is kept beside the
    stored fields so that the interleavings can be stated. */
module TransportModel {
  import opened Totals

  // ------------------------------------------------------------------ limits

  datatype Limits = Limits(
    maxPendingRequests: nat, maxSingleRequestBytes: nat, maxRetainedRequestBytes: nat,
    maxQueuedEvents: nat, maxScopedClients: nat, maxScopedSubscriptions: nat,
    maxSingleEventBytes: nat, maxQueuedEventBytes: nat)

  predicate ValidLimits(l: Limits) {
    && l.maxPendingRequests > 0 && l.maxSingleRequestBytes > 0
    && l.maxRetainedRequestBytes >= l.maxSingleRequestBytes
    && l.maxQueuedEvents > 0 && l.maxScopedClients > 0 && l.maxScopedSubscriptions > 0
    && l.maxSingleEventBytes > 0 && l.maxQueuedEventBytes >= l.maxSingleEventBytes
  }

  /** Subtraction of `size_t`, which wraps. */
  function SizeSub(a: nat, b: nat): nat {
    if b <= a then a - b else a + (0x1_0000_0000_0000_0000 - b % 0x1_0000_0000_0000_0000)
  }

  // ---------------------------------------------------------------- requests

  /** A protocol handle, identified by its creation number: the library never
      hands out one that is still in use. */
  type Handle = nat

  datatype Pending = Pending(
    serial: nat, client: Handle, scoped: bool, bytes: nat,
    invoking: bool, callbackFinished: bool, cancelled: bool, terminal: bool)

  /** Where the protocol library stands with one accepted or refused invoke. */
  datatype Callback = Idle | Running | Ran
  datatype Call = Call(returned: bool, refused: bool, callback: Callback)

  datatype ReplyKind = Result(ok: bool) | Malformed | Refusal | FaultReply
  datatype Reply = Reply(serial: nat, kind: ReplyKind)

  /** What became of an admitted request, by admission number. */
  datatype Fate = Live(id: nat) | Cancelled | Replied(kind: ReplyKind)

  datatype Requests = Requests(
    pending: map<nat, Pending>, activeInvokes: nat, retainedBytes: nat,
    calls: map<nat, Call>, fates: seq<Fate>, replies: seq<Reply>)

  // ----------------------------------------------- clients and subscriptions

  /** The pair (module, instanceId) of a client record; the base clients have an
      empty instance. */
  datatype Key = Base(mod: string) | Scoped(mod: string, instance: string)
  datatype Client = Client(key: Key, refs: nat)
  datatype Sub = Sub(key: Key, client: Handle, refs: nat, handle: Option<Handle>)

  /** The thread inside `acquireScopedClient` that owns `clientCreationMutex_`
      while it calls the library. */
  datatype Creation = NoCreation | Creating(key: Key, forSub: bool)

  /** The thread inside `subscribeInstance` or `unsubscribeInstance`, which owns
      `subscriptionCreationMutex_` from its first block to its return. */
  datatype Frame =
    | NoFrame
    | Probing(key: Key, existing: bool)
    | Holding(key: Key, existing: bool, client: Handle)
    | Subscribing(rec: nat, client: Handle)
    | Dropping(handle: Option<Handle>, client: Handle)

  /** `held` counts the references owned by dispatching or releasing threads. */
  datatype Table = Table(
    clients: map<Handle, Client>, subs: map<nat, Sub>, nextSub: nat,
    held: multiset<Handle>, creation: Creation, frame: Frame,
    created: nat, destroyed: set<Handle>, leaving: set<Handle>,
    subCreated: nat, unsubscribed: set<Handle>, subLeaving: set<Handle>)

  // ------------------------------------------------------------------ events

  datatype Event = Event(mod: string, instance: string, name: string, args: string)
  datatype IngestStatus = Accepted | Backpressure | Rejected

  /** `arrivals` and `delivered` record what was admitted and what the core
      accepted since the queue was last cleared. */
  datatype Events = Events(queue: seq<Event>, bytes: nat, arrivals: seq<Event>, delivered: seq<Event>)

  function EventBytes(e: Event): nat {
    |e.mod| + |e.instance| + |e.name| + |e.args|
  }

  predicate IsLatestBlock(e: Event) {
    e.instance == "" && e.mod == "blockchain_module" && e.name == "newBlock"
  }

  function QueueBytes(q: seq<Event>): nat {
    if q == [] then 0 else QueueBytes(q[..|q| - 1]) + EventBytes(q[|q| - 1])
  }

  // ------------------------------------------------------------------- state

  datatype Lifecycle = Dormant | Activating | Open | Faulting | Closing | Closed
  datatype Worker = Unstarted | Serving | FailingPending | Finishing | Stopped

  datatype State = State(
    lifecycle: Lifecycle, setupComplete: bool, activationInProgress: bool,
    workerLive: bool, ownsEvents: bool, ingestsInstances: bool,
    teardownStarted: bool, detached: bool, worker: Worker,
    req: Requests, table: Table, ev: Events)

  const NoRequests := Requests(map[], 0, 0, map[], [], [])
  const NoTable := Table(map[], map[], 0, multiset{}, NoCreation, NoFrame, 0, {}, {}, 0, {}, {})
  const NoEvents := Events([], 0, [], [])

  function Initial(ingestsInstances: bool): State {
    State(Dormant, true, false, false, false, ingestsInstances, false, false, Unstarted,
          NoRequests, NoTable, NoEvents)
  }

  predicate Serviceable(s: State) {
    s.lifecycle == Open && s.workerLive
  }

  // ------------------------------------------------------------------- steps

  datatype SetupStep =
    | ActivateBegin | SpawnFailed | WorkerStart | BaseClient(mod: string) | SetupAbandoned
    | ClearPartial | ActivateOpen(complete: bool) | ActivateFail

  datatype TableStep =
    | AcquireExisting(key: Key, forSub: bool) | AcquireBegin(key: Key, forSub: bool)
    | AcquireRefused | AcquireEnd(ok: bool) | Release(client: Handle, forSub: bool)
    | SubscribeBegin(key: Key) | SubscribeCommit | SubscribeEnd(ok: bool)
    | Unsubscribe(key: Key) | DropHandle

  datatype RequestStep =
    | Admit(id: nat, client: Handle, scoped: bool, bytes: nat) | InvokeReturned(id: nat, accepted: bool)
    | InvokeFinished(id: nat) | CallbackBegin(id: nat, kind: ReplyKind) | CallbackEnd(id: nat)
    | Cancel(id: nat)

  datatype EventStep =
    | Ingest(event: Event, wellFormed: bool, status: IngestStatus) | Deliver(status: IngestStatus)
    | RequestFault

  datatype ShutdownStep =
    | Close | WorkerShutdown | FailOne(id: nat) | FailNone | WorkerFinish | EmergencyClose
    | TeardownStart | TeardownDetach | QuiesceSub(handle: Handle) | QuiesceClient(client: Handle)
    | TeardownFinish

  datatype Step =
    | Setup(setup: SetupStep) | OnTable(table: TableStep) | OnRequest(request: RequestStep)
    | OnEvent(event: EventStep) | Shutdown(shutdown: ShutdownStep)

  // ------------------------------------------------------------ request parts

  predicate Finished(p: Pending) {
    !p.invoking && p.callbackFinished && (p.terminal || p.cancelled)
  }

  /** `eraseFinishedRequestLocked`: a finished record goes, and a scoped one
      hands its client reference to the erasing thread. */
  predicate Erasable(r: Requests, id: nat) {
    id in r.pending && Finished(r.pending[id])
  }

  function Erased(r: Requests, id: nat): Requests {
    if !Erasable(r, id) then r else
    var p := r.pending[id];
    r.(pending := r.pending - {id}, calls := r.calls - {id},
       retainedBytes := if p.bytes <= r.retainedBytes then r.retainedBytes - p.bytes else 0)
  }

  function Freed(r: Requests, id: nat): multiset<Handle> {
    if Erasable(r, id) && r.pending[id].scoped then multiset{r.pending[id].client} else multiset{}
  }

  function Reap(s: State, id: nat): State {
    s.(req := Erased(s.req, id), table := s.table.(held := s.table.held + Freed(s.req, id)))
  }

  function SetPending(r: Requests, id: nat, p: Pending): Requests {
    r.(pending := r.pending[id := p])
  }

  function SetCall(r: Requests, id: nat, c: Call): Requests {
    r.(calls := r.calls[id := c])
  }

  function SetFate(fates: seq<Fate>, k: nat, fate: Fate): seq<Fate> {
    if k < |fates| then fates[k := fate] else fates
  }

  predicate Unanswered(p: Pending) {
    !p.cancelled && !p.terminal
  }

  /** Fixes the one reply of a request that has none yet. */
  function Answer(r: Requests, id: nat, kind: ReplyKind): Requests
    requires id in r.pending
  {
    var p := r.pending[id];
    r.(pending := r.pending[id := p.(terminal := true)],
       fates := SetFate(r.fates, p.serial, Replied(kind)),
       replies := r.replies + [Reply(p.serial, kind)])
  }

  function CancelOne(r: Requests, id: nat): Requests
    requires id in r.pending
  {
    var p := r.pending[id];
    r.(pending := r.pending[id := p.(cancelled := true)],
       fates := if Unanswered(p) then SetFate(r.fates, p.serial, Cancelled) else r.fates)
  }

  /** `suppressPendingLocked` */
  function Suppress(r: Requests): Requests {
    r.(pending := map id | id in r.pending :: r.pending[id].(cancelled := true),
       fates := seq(|r.fates|, i requires 0 <= i < |r.fates| =>
         if r.fates[i].Live? then Cancelled else r.fates[i]))
  }

  // ------------------------------------------------------- client table parts

  ghost function FindClient(clients: map<Handle, Client>, key: Key): Option<Handle> {
    if exists h :: h in clients && clients[h].key == key
    then var h :| h in clients && clients[h].key == key; Some(h)
    else None
  }

  ghost function FindSub(subs: map<nat, Sub>, key: Key): Option<nat> {
    if exists r :: r in subs && subs[r].key == key
    then var r :| r in subs && subs[r].key == key; Some(r)
    else None
  }

  function ScopedWeight(c: Client): nat { if c.key.Scoped? then 1 else 0 }

  ghost function ScopedClients(t: Table): nat { Total(t.clients, ScopedWeight) }

  function FrameRefs(f: Frame, h: Handle): nat {
    if (f.Holding? || f.Dropping?) && f.client == h then 1 else 0
  }

  ghost predicate SubscribedOn(t: Table, h: Handle) {
    exists r :: r in t.subs && t.subs[r].client == h && t.subs[r].refs > 0
  }

  /** `releaseScopedClient`, including the guard on remaining subscriptions. */
  ghost function ReleaseClient(t: Table, h: Handle): Table {
    if h !in t.clients || t.clients[h].key.Base? then t else
    var c := t.clients[h];
    var left := if c.refs > 0 then c.refs - 1 else 0;
    if left != 0 || SubscribedOn(t, h) then t.(clients := t.clients[h := c.(refs := left)])
    else t.(clients := t.clients - {h}, destroyed := t.destroyed + {h})
  }

  // ------------------------------------------------------------- event parts

  function Fault(s: State): State {
    if s.lifecycle == Activating || s.lifecycle == Open
    then s.(lifecycle := Faulting, ownsEvents := false)
    else s
  }

  predicate AllBlocks(q: seq<Event>) {
    forall i :: 0 <= i < |q| ==> IsLatestBlock(q[i])
  }

  /** `enqueueEventLocked` with `coalesceQueuedBlockBurstLocked`; no value means a fault. */
  function Enqueue(l: Limits, ev: Events, e: Event): Option<Events>
  {
    if |ev.queue| >= l.maxQueuedEvents || EventBytes(e) > SizeSub(l.maxQueuedEventBytes, ev.bytes) then
      if IsLatestBlock(e) && ev.queue != [] && ev.bytes <= l.maxQueuedEventBytes && AllBlocks(ev.queue)
      then Some(Events([e], EventBytes(e), ev.arrivals + [e], ev.delivered))
      else None
    else Some(Events(ev.queue + [e], ev.bytes + EventBytes(e), ev.arrivals + [e], ev.delivered))
  }

  function SetEvents(s: State, ev: Option<Events>): State {
    match ev
    case Some(v) => s.(ev := v)
    case None => Fault(s)
  }

  function IngestEvent(l: Limits, s: State, e: Event, wellFormed: bool, status: IngestStatus): State
  {
    if (s.lifecycle != Activating && s.lifecycle != Open)
       || (e.instance == "" && !s.ownsEvents) || (e.instance != "" && !s.ingestsInstances) then s
    else if !wellFormed || EventBytes(e) > l.maxSingleEventBytes then Fault(s)
    else if s.lifecycle == Activating || s.ev.queue != [] then SetEvents(s, Enqueue(l, s.ev, e))
    else match status
      case Accepted => s.(ev := s.ev.(arrivals := s.ev.arrivals + [e], delivered := s.ev.delivered + [e]))
      case Backpressure => SetEvents(s, Enqueue(l, s.ev, e))
      case Rejected => Fault(s)
  }

  /** One round of the worker's retry loop. */
  function DeliverFront(s: State, status: IngestStatus): State
    requires s.ev.queue != []
  {
    var front := s.ev.queue[0];
    match status
    case Accepted =>
      s.(ev := Events(s.ev.queue[1..],
                      if EventBytes(front) <= s.ev.bytes then s.ev.bytes - EventBytes(front) else 0,
                      s.ev.arrivals, s.ev.delivered + [front]))
    case Backpressure => s
    case Rejected => Fault(s)
  }

  // ------------------------------------------------------------ enabled steps

  /** Program order of the threads, ownership of the creation mutexes, and the
      contract of the protocol library: an accepted invoke runs its callback
      exactly once, a refused one never does, and destroying a client waits for
      its running callbacks and lets no further one start. */
  ghost predicate SetupEnabled(l: Limits, s: State, e: SetupStep) {
    match e
    case ActivateBegin => s.lifecycle == Dormant && ValidLimits(l)
    case SpawnFailed => s.activationInProgress && s.worker == Unstarted && !s.setupComplete
    case WorkerStart => s.activationInProgress && s.worker == Unstarted
    case BaseClient(mod) =>
      s.activationInProgress && !s.setupComplete && s.worker != Unstarted
      && FindClient(s.table.clients, Base(mod)) == None
    case SetupAbandoned => s.activationInProgress && s.worker != Unstarted && s.lifecycle != Activating
    case ClearPartial => s.activationInProgress && s.worker != Unstarted && !s.setupComplete
    case ActivateOpen(complete) =>
      s.activationInProgress && !s.setupComplete && s.worker != Unstarted && (complete || !s.ownsEvents)
    case ActivateFail => s.activationInProgress && s.worker != Unstarted
  }

  ghost predicate TableEnabled(l: Limits, s: State, e: TableStep) {
    match e
    case AcquireExisting(key, forSub) =>
      && s.table.creation == NoCreation && key.Scoped? && Serviceable(s)
      && FindClient(s.table.clients, key) != None
      && (forSub ==> s.table.frame.Probing? && s.table.frame.key == key)
    case AcquireBegin(key, forSub) =>
      && s.table.creation == NoCreation && key.Scoped? && Serviceable(s)
      && FindClient(s.table.clients, key) == None
      && ScopedClients(s.table) < l.maxScopedClients
      && (forSub ==> s.table.frame.Probing? && s.table.frame.key == key)
    case AcquireRefused =>
      && s.table.creation == NoCreation && s.table.frame.Probing?
      && (Serviceable(s) ==> FindClient(s.table.clients, s.table.frame.key) == None
                             && ScopedClients(s.table) >= l.maxScopedClients)
    case AcquireEnd(ok) => s.table.creation.Creating?
    case Release(h, forSub) =>
      && s.table.creation == NoCreation
      && (if forSub then s.table.frame == Dropping(None, h) else s.table.held[h] > 0)
    case SubscribeBegin(key) => s.table.frame == NoFrame && key.Scoped?
    case SubscribeCommit => s.table.frame.Holding?
    case SubscribeEnd(ok) => s.table.frame.Subscribing?
    case Unsubscribe(key) => s.table.frame == NoFrame && key.Scoped?
    case DropHandle => s.table.frame.Dropping? && s.table.frame.handle.Some?
  }

  ghost predicate RequestEnabled(l: Limits, s: State, e: RequestStep) {
    match e
    case Admit(id, client, scoped, bytes) =>
      && id != 0 && bytes <= l.maxSingleRequestBytes
      && (if scoped then s.table.held[client] > 0
          else client in s.table.clients && s.table.clients[client].key.Base?)
    case InvokeReturned(id, accepted) =>
      && id in s.req.pending && id in s.req.calls && !s.req.calls[id].returned
      && (!accepted ==> s.req.calls[id].callback == Idle)
    case InvokeFinished(id) =>
      id in s.req.pending && id in s.req.calls && s.req.calls[id].returned && s.req.pending[id].invoking
    case CallbackBegin(id, kind) =>
      && (kind.Result? || kind.Malformed?) && id in s.req.pending && id in s.req.calls
      && s.req.calls[id].callback == Idle && !s.req.calls[id].refused
      && s.req.pending[id].client !in s.table.destroyed
    case CallbackEnd(id) => id in s.req.pending && id in s.req.calls && s.req.calls[id].callback == Running
    case Cancel(id) => true
  }

  ghost predicate EventEnabled(s: State, e: EventStep) {
    match e
    case Ingest(event, wellFormed, status) => true
    case Deliver(status) => s.worker == Serving && s.lifecycle == Open && s.ev.queue != []
    case RequestFault => true
  }

  ghost predicate ShutdownEnabled(s: State, e: ShutdownStep) {
    match e
    case Close => true
    case WorkerShutdown =>
      s.worker == Serving && (s.lifecycle == Faulting || s.lifecycle == Closing) && s.setupComplete
    case FailOne(id) => s.worker == FailingPending && id in s.req.pending && Unanswered(s.req.pending[id])
    case FailNone =>
      s.worker == FailingPending && forall id :: id in s.req.pending ==> !Unanswered(s.req.pending[id])
    case WorkerFinish => s.worker == Finishing
    case EmergencyClose => s.worker == Serving
    case TeardownStart =>
      && s.worker == Stopped && s.setupComplete && s.lifecycle != Closed
      && s.table.frame == NoFrame && s.table.creation == NoCreation
    case TeardownDetach =>
      s.teardownStarted && !s.detached && s.req.activeInvokes == 0 && s.lifecycle != Closed
    case QuiesceSub(h) => h in s.table.subLeaving
    case QuiesceClient(h) =>
      && s.table.subLeaving == {} && h in s.table.leaving
      && forall id :: id in s.req.pending && id in s.req.calls && s.req.pending[id].client == h
           ==> s.req.calls[id].callback != Running
    case TeardownFinish =>
      s.detached && s.lifecycle != Closed && s.table.subLeaving == {} && s.table.leaving == {}
  }

  ghost predicate Enabled(l: Limits, s: State, e: Step) {
    match e
    case Setup(x) => SetupEnabled(l, s, x)
    case OnTable(x) => TableEnabled(l, s, x)
    case OnRequest(x) => RequestEnabled(l, s, x)
    case OnEvent(x) => EventEnabled(s, x)
    case Shutdown(x) => ShutdownEnabled(s, x)
  }

  // ------------------------------------------------------------ step effects

  function ApplySetup(s: State, e: SetupStep): State
  {
    match e
    case ActivateBegin =>
      s.(lifecycle := Activating, setupComplete := false, activationInProgress := true, ownsEvents := true)
    case SpawnFailed =>
      s.(lifecycle := Closed, setupComplete := true, activationInProgress := false, worker := Stopped)
    case WorkerStart => s.(worker := Serving, workerLive := true)
    case BaseClient(mod) =>
      s.(table := s.table.(clients := s.table.clients[s.table.created := Client(Base(mod), 0)],
                           created := s.table.created + 1))
    case SetupAbandoned => s.(setupComplete := true)
    case ClearPartial => s.(ownsEvents := false, ev := NoEvents)
    case ActivateOpen(complete) =>
      if s.lifecycle == Activating
      then s.(lifecycle := Open, setupComplete := true, activationInProgress := false, ownsEvents := complete)
      else s.(setupComplete := true)
    case ActivateFail =>
      if s.lifecycle == Activating
      then s.(lifecycle := Closing, req := Suppress(s.req), ownsEvents := false, setupComplete := true)
      else s.(ownsEvents := false, setupComplete := true)
  }

  ghost function ApplyTable(l: Limits, s: State, e: TableStep): State
    requires TableEnabled(l, s, e)
  {
    s.(table := match e
      case AcquireExisting(key, forSub) => AcquireFound(s.table, FindClient(s.table.clients, key).value, forSub)
      case AcquireBegin(key, forSub) => s.table.(creation := Creating(key, forSub))
      case AcquireRefused => s.table.(frame := NoFrame)
      case AcquireEnd(ok) => AcquireEnded(s.table, Serviceable(s), ok)
      case Release(h, forSub) => Released(s.table, h, forSub)
      case SubscribeBegin(key) => SubscribeBegun(l, s.table, Serviceable(s) && s.ingestsInstances, key)
      case SubscribeCommit => SubscribeCommitted(s.table, FindSub(s.table.subs, s.table.frame.key), Serviceable(s), s.ingestsInstances)
      case SubscribeEnd(ok) => SubscribeEnded(s.table, Serviceable(s), ok)
      case Unsubscribe(key) => Unsubscribed(s.table, FindSub(s.table.subs, key))
      case DropHandle =>
        s.table.(unsubscribed := s.table.unsubscribed + {s.table.frame.handle.value},
                 frame := s.table.frame.(handle := None)))
  }

  function AcquireFound(t: Table, h: Handle, forSub: bool): Table
    requires h in t.clients
    requires forSub ==> t.frame.Probing?
  {
    Retained(t.(clients := t.clients[h := t.clients[h].(refs := t.clients[h].refs + 1)]), h, forSub)
  }

  /** The acquired reference goes to the subscribing frame or to a dispatching thread. */
  function Retained(t: Table, h: Handle, forSub: bool): Table
    requires forSub ==> t.frame.Probing?
  {
    if forSub then t.(frame := Holding(t.frame.key, t.frame.existing, h)) else t.(held := t.held + multiset{h})
  }

  ghost function Released(t: Table, h: Handle, forSub: bool): Table {
    if forSub then ReleaseClient(t, h).(frame := NoFrame) else ReleaseClient(t, h).(held := t.held - multiset{h})
  }

  ghost function SubscribeBegun(l: Limits, t: Table, serviceable: bool, key: Key): Table {
    var existing := FindSub(t.subs, key) != None;
    if !serviceable || (!existing && |t.subs| >= l.maxScopedSubscriptions) then t
    else t.(frame := Probing(key, existing))
  }

  function AcquireEnded(t: Table, serviceable: bool, ok: bool): Table
    requires t.creation.Creating?
  {
    var forSub := t.creation.forSub;
    var failed := t.(creation := NoCreation, frame := if forSub then NoFrame else t.frame);
    if !ok then failed
    else if !serviceable then failed.(created := t.created + 1, destroyed := t.destroyed + {t.created})
    else
      var t' := t.(creation := NoCreation, created := t.created + 1,
                   clients := t.clients[t.created := Client(t.creation.key, 1)]);
      Retained(t', t.created, forSub && t.frame.Probing?)
  }

  function SubscribeCommitted(t: Table, found: Option<nat>, serviceable: bool, ingestsInstances: bool): Table
    requires t.frame.Holding? && (found.Some? ==> found.value in t.subs)
  {
    var f := t.frame;
    if f.existing then
      if found.Some? && serviceable
      then t.(subs := t.subs[found.value := t.subs[found.value].(refs := t.subs[found.value].refs + 1)],
              frame := NoFrame)
      else t.(frame := Dropping(None, f.client))
    else if serviceable && ingestsInstances
    then t.(subs := t.subs[t.nextSub := Sub(f.key, f.client, 1, None)], nextSub := t.nextSub + 1,
            frame := Subscribing(t.nextSub, f.client))
    else t.(frame := Dropping(None, f.client))
  }

  function SubscribeEnded(t: Table, serviceable: bool, ok: bool): Table
    requires t.frame.Subscribing?
  {
    var f := t.frame;
    var handle := if ok then Some(t.subCreated) else None;
    var t' := t.(subCreated := if ok then t.subCreated + 1 else t.subCreated);
    if f.rec in t.subs && serviceable && ok
    then t'.(subs := t.subs[f.rec := t.subs[f.rec].(handle := handle)], frame := NoFrame)
    else t'.(subs := t.subs - {f.rec}, frame := Dropping(handle, f.client))
  }

  function Unsubscribed(t: Table, found: Option<nat>): Table
    requires found.Some? ==> found.value in t.subs
  {
    if found.None? then t else
    var sub := t.subs[found.value];
    if sub.refs > 1
    then t.(subs := t.subs[found.value := sub.(refs := sub.refs - 1)], frame := Dropping(None, sub.client))
    else t.(subs := t.subs - {found.value}, frame := Dropping(sub.handle, sub.client))
  }

  /** The admission test of `dispatch`. */
  predicate Admissible(l: Limits, s: State, id: nat, bytes: nat) {
    && Serviceable(s) && |s.req.pending| < l.maxPendingRequests && id !in s.req.pending
    && bytes <= SizeSub(l.maxRetainedRequestBytes, s.req.retainedBytes)
  }

  function AdmitRequest(l: Limits, s: State, id: nat, client: Handle, scoped: bool, bytes: nat): State
  {
    if !Admissible(l, s, id, bytes) then s else
    var r := s.req;
    s.(req := r.(pending := r.pending[id := Pending(|r.fates|, client, scoped, bytes, true, false, false, false)],
                 calls := r.calls[id := Call(false, false, Idle)],
                 retainedBytes := r.retainedBytes + bytes,
                 activeInvokes := r.activeInvokes + 1,
                 fates := r.fates + [Live(id)]),
       table := if scoped then s.table.(held := s.table.held - multiset{client}) else s.table)
  }

  function InvokeReturn(r: Requests, lifecycle: Lifecycle, id: nat, accepted: bool): Requests
    requires id in r.pending && id in r.calls
  {
    var r1 := SetCall(r, id, r.calls[id].(returned := true, refused := !accepted));
    if accepted then r1 else
    var r2 := SetPending(r1, id, r.pending[id].(callbackFinished := true));
    if lifecycle == Open && Unanswered(r.pending[id]) then Answer(r2, id, Refusal) else r2
  }

  function FinishInvoke(r: Requests, id: nat): Requests
    requires id in r.pending
  {
    SetPending(r, id, r.pending[id].(invoking := false))
      .(activeInvokes := if r.activeInvokes > 0 then r.activeInvokes - 1 else 0)
  }

  function BeginCallback(r: Requests, lifecycle: Lifecycle, id: nat, kind: ReplyKind): Requests
    requires id in r.pending && id in r.calls
  {
    var r1 := SetCall(r, id, r.calls[id].(callback := Running));
    if lifecycle == Open && Unanswered(r.pending[id]) then Answer(r1, id, kind) else r1
  }

  function EndCallback(r: Requests, id: nat): Requests
    requires id in r.pending && id in r.calls
  {
    SetCall(SetPending(r, id, r.pending[id].(callbackFinished := true)), id, r.calls[id].(callback := Ran))
  }

  ghost function ApplyRequest(l: Limits, s: State, e: RequestStep): State
    requires RequestEnabled(l, s, e)
  {
    match e
    case Admit(id, client, scoped, bytes) => AdmitRequest(l, s, id, client, scoped, bytes)
    case InvokeReturned(id, accepted) => s.(req := InvokeReturn(s.req, s.lifecycle, id, accepted))
    case InvokeFinished(id) => Reap(s.(req := FinishInvoke(s.req, id)), id)
    case CallbackBegin(id, kind) => s.(req := BeginCallback(s.req, s.lifecycle, id, kind))
    case CallbackEnd(id) => Reap(s.(req := EndCallback(s.req, id)), id)
    case Cancel(id) => if id !in s.req.pending then s else Reap(s.(req := CancelOne(s.req, id)), id)
  }

  function CloseState(s: State): State {
    match s.lifecycle
    case Dormant => s.(lifecycle := Closed, setupComplete := true, ownsEvents := false)
    case Activating => s.(lifecycle := Closing, ownsEvents := false, req := Suppress(s.req))
    case Open => s.(lifecycle := Closing, ownsEvents := false, req := Suppress(s.req))
    case Faulting => s.(ownsEvents := false)
    case Closing => s
    case Closed => s
  }

  function SubHandles(subs: map<nat, Sub>): set<Handle> {
    set r | r in subs && subs[r].handle.Some? :: subs[r].handle.value
  }

  ghost function ApplyShutdown(s: State, e: ShutdownStep): State
    requires ShutdownEnabled(s, e)
  {
    match e
    case Close => CloseState(s)
    case WorkerShutdown =>
      s.(ev := NoEvents, worker := if s.lifecycle == Faulting then FailingPending else Finishing)
    case FailOne(id) => s.(req := Answer(s.req, id, FaultReply))
    case FailNone => s.(worker := Finishing)
    case WorkerFinish => s.(ev := NoEvents, ownsEvents := false, workerLive := false, worker := Stopped)
    case EmergencyClose =>
      var s1 := Fault(s).(ownsEvents := false, ev := NoEvents);
      s1.(worker := if s1.lifecycle == Faulting then FailingPending else Finishing)
    case TeardownStart => s.(teardownStarted := true)
    case TeardownDetach =>
      s.(detached := true, ev := NoEvents,
         table := s.table.(clients := map[], subs := map[], leaving := s.table.clients.Keys,
                           subLeaving := SubHandles(s.table.subs)))
    case QuiesceSub(h) =>
      s.(table := s.table.(subLeaving := s.table.subLeaving - {h}, unsubscribed := s.table.unsubscribed + {h}))
    case QuiesceClient(h) =>
      s.(table := s.table.(leaving := s.table.leaving - {h}, destroyed := s.table.destroyed + {h}))
    case TeardownFinish =>
      s.(req := s.req.(pending := map[], calls := map[], retainedBytes := 0), ev := NoEvents,
         ownsEvents := false, workerLive := false, activationInProgress := false, lifecycle := Closed)
  }

  function ApplyEvent(l: Limits, s: State, e: EventStep): State
    requires e.Deliver? ==> s.ev.queue != []
  {
    match e
    case Ingest(event, wellFormed, status) => IngestEvent(l, s, event, wellFormed, status)
    case Deliver(status) => DeliverFront(s, status)
    case RequestFault => Fault(s)
  }

  ghost function Apply(l: Limits, s: State, e: Step): State
    requires Enabled(l, s, e)
  {
    match e
    case Setup(x) => ApplySetup(s, x)
    case OnTable(x) => ApplyTable(l, s, x)
    case OnRequest(x) => ApplyRequest(l, s, x)
    case OnEvent(x) => ApplyEvent(l, s, x)
    case Shutdown(x) => ApplyShutdown(s, x)
  }
}
