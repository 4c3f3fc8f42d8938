/** The invariants of the transport under every step of every thread. */
module TransportSteps {
  import opened Totals
  import opened TransportModel
  import opened TransportRequests
  import opened TransportClients

  // ------------------------------------------- request steps on the client table

  ghost predicate SamePointers(p: map<nat, Pending>, p': map<nat, Pending>) {
    && p'.Keys == p.Keys
    && forall id :: id in p ==> p'[id].client == p[id].client && p'[id].scoped == p[id].scoped
  }

  lemma SameUses(p: map<nat, Pending>, p': map<nat, Pending>, b: map<nat, Sub>, m: multiset<Handle>, f: Frame)
    requires SamePointers(p, p')
    ensures forall h :: Uses(p', b, m, f, h) == Uses(p, b, m, f, h)
  {
    forall h ensures Uses(p', b, m, f, h) == Uses(p, b, m, f, h) {
      TotalSame(p, p', ScopedOn(h));
    }
  }

  lemma SamePointersLinks(p: map<nat, Pending>, p': map<nat, Pending>, t: Table)
    requires LinksOk(p, t) && SamePointers(p, p')
    ensures LinksOk(p', t)
  {
    SameUses(p, p', t.subs, t.held, t.frame);
    assert PendingOk(p', t.clients);
    hide PendingOk, RefsExact, Uses, SubClientsOk, HoldersOk, SamePointers;
    RefsMove(p, t.subs, t.held, t.frame, p', t.subs, t.held, t.frame, t.clients);
  }

  lemma SamePointersKept(l: Limits, p: map<nat, Pending>, p': map<nat, Pending>, t: Table, started: bool, detached: bool)
    requires TableOk(l, p, t, started, detached) && SamePointers(p, p')
    ensures TableOk(l, p', t, started, detached)
  {
    hide LinksOk, KeysOk, SubsOk;
    if !detached {
      SamePointersLinks(p, p', t);
    }
  }

  lemma ReapUses(p: map<nat, Pending>, t: Table, id: nat)
    requires id in p && p[id].scoped
    ensures forall h :: Uses(p - {id}, t.subs, t.held + multiset{p[id].client}, t.frame, h) == Uses(p, t.subs, t.held, t.frame, h)
  {
    forall h ensures Uses(p - {id}, t.subs, t.held + multiset{p[id].client}, t.frame, h) == Uses(p, t.subs, t.held, t.frame, h) {
      TotalRemove(p, id, ScopedOn(h));
    }
  }

  lemma ReapBaseUses(p: map<nat, Pending>, t: Table, id: nat)
    requires id in p && !p[id].scoped
    ensures forall h :: Uses(p - {id}, t.subs, t.held, t.frame, h) == Uses(p, t.subs, t.held, t.frame, h)
  {
    forall h ensures Uses(p - {id}, t.subs, t.held, t.frame, h) == Uses(p, t.subs, t.held, t.frame, h) {
      TotalRemove(p, id, ScopedOn(h));
    }
  }

  lemma ReapHolders(p: map<nat, Pending>, t: Table, id: nat)
    requires LinksOk(p, t) && id in p
    ensures PendingOk(p - {id}, t.clients)
    ensures p[id].scoped ==> HoldersOk(t.held + multiset{p[id].client}, t.frame, t.clients)
  {
    hide RefsExact, SubClientsOk;
  }

  lemma ReapLinks(p: map<nat, Pending>, t: Table, id: nat, m: multiset<Handle>)
    requires LinksOk(p, t) && id in p && m == (if p[id].scoped then t.held + multiset{p[id].client} else t.held)
    ensures LinksOk(p - {id}, t.(held := m))
  {
    ReapHolders(p, t, id);
    if p[id].scoped {
      ReapUses(p, t, id);
    } else {
      ReapBaseUses(p, t, id);
    }
    hide PendingOk, RefsExact, Uses, SubClientsOk, HoldersOk;
    RefsMove(p, t.subs, t.held, t.frame, p - {id}, t.subs, m, t.frame, t.clients);
  }

  lemma ReapTableKept(l: Limits, s: State, id: nat)
    requires TableInv(l, s)
    ensures TableInv(l, Reap(s, id))
  {
    hide TableOk;
    assert s.table.held + multiset{} == s.table.held;
    if Erasable(s.req, id) {
      ReapKeepsTable(l, s.req.pending, s.table, id, s.table.held + Freed(s.req, id), s.teardownStarted, s.detached);
    }
  }

  lemma HeldKept(l: Limits, t: Table, m: multiset<Handle>)
    ensures KeysOk(l, t.(held := m)) == KeysOk(l, t) && SubsOk(l, t.(held := m)) == SubsOk(l, t)
  {
    hide HandlesOk, ClientKeysOk, SubKeysOk, FrameOk, SubHandlesOk, SubRecordsOk;
  }

  lemma ReapKeepsTable(l: Limits, p: map<nat, Pending>, t: Table, id: nat, m: multiset<Handle>, started: bool, detached: bool)
    requires TableOk(l, p, t, started, detached) && id in p
    requires m == (if p[id].scoped then t.held + multiset{p[id].client} else t.held)
    ensures TableOk(l, p - {id}, t.(held := m), started, detached)
  {
    hide LinksOk, KeysOk, SubsOk;
    HeldKept(l, t, m);
    if !detached {
      ReapLinks(p, t, id, m);
    }
  }

  lemma AdmitUses(p: map<nat, Pending>, t: Table, id: nat, r: Pending, m: multiset<Handle>)
    requires id !in p && m == (if r.scoped then t.held - multiset{r.client} else t.held)
    requires r.scoped ==> r.client in t.held
    ensures forall h :: Uses(p[id := r], t.subs, m, t.frame, h) == Uses(p, t.subs, t.held, t.frame, h)
  {
    forall h ensures Uses(p[id := r], t.subs, m, t.frame, h) == Uses(p, t.subs, t.held, t.frame, h) {
      TotalUpdate(p, id, r, ScopedOn(h));
    }
  }

  lemma AdmitPointers(p: map<nat, Pending>, t: Table, id: nat, r: Pending, m: multiset<Handle>)
    requires LinksOk(p, t) && m <= t.held
    requires if r.scoped then r.client in t.held else r.client in t.clients && t.clients[r.client].key.Base?
    ensures PendingOk(p[id := r], t.clients) && HoldersOk(m, t.frame, t.clients)
  {
    hide RefsExact, SubClientsOk;
  }

  lemma AdmitLinks(p: map<nat, Pending>, t: Table, id: nat, r: Pending, m: multiset<Handle>)
    requires LinksOk(p, t) && id !in p && m == (if r.scoped then t.held - multiset{r.client} else t.held)
    requires if r.scoped then r.client in t.held else r.client in t.clients && t.clients[r.client].key.Base?
    ensures LinksOk(p[id := r], t.(held := m))
  {
    AdmitUses(p, t, id, r, m);
    AdmitPointers(p, t, id, r, m);
    hide PendingOk, RefsExact, Uses, SubClientsOk, HoldersOk;
    RefsMove(p, t.subs, t.held, t.frame, p[id := r], t.subs, m, t.frame, t.clients);
  }

  lemma ClientCreated(l: Limits, p: map<nat, Pending>, t: Table, h: Handle)
    requires TableOk(l, p, t, false, false) && (h in t.held || h in t.clients)
    ensures h < t.created && h in t.clients
  {
    hide SubsOk, RefsExact, PendingOk, SubClientsOk, ClientKeysOk;
    assert h in t.clients.Keys;
  }

  lemma AdmitTableKept(l: Limits, s: State, id: nat, client: Handle, scoped: bool, bytes: nat)
    requires TableInv(l, s) && RequestEnabled(l, s, Admit(id, client, scoped, bytes))
    requires Serviceable(s) ==> !s.teardownStarted && !s.detached
    ensures TableInv(l, AdmitRequest(l, s, id, client, scoped, bytes))
  {
    var s' := AdmitRequest(l, s, id, client, scoped, bytes);
    if Admissible(l, s, id, bytes) {
      var r := s'.req.pending[id];
      ClientCreated(l, s.req.pending, s.table, client);
      AdmitLinks(s.req.pending, s.table, id, r, s'.table.held);
      hide LinksOk, KeysOk, SubsOk;
      HeldKept(l, s.table, s'.table.held);
    }
  }

  lemma RewritesPoint(r: Requests, lc: Lifecycle, id: nat, accepted: bool, kind: ReplyKind)
    requires id in r.pending && id in r.calls
    ensures SamePointers(r.pending, InvokeReturn(r, lc, id, accepted).pending)
    ensures SamePointers(r.pending, FinishInvoke(r, id).pending)
    ensures SamePointers(r.pending, BeginCallback(r, lc, id, kind).pending)
    ensures SamePointers(r.pending, EndCallback(r, id).pending)
  {
    hide InvokeReturn, FinishInvoke, BeginCallback, EndCallback, SamePointers;
    InvokePoints(r, lc, id, accepted);
    CallbackPoints(r, lc, id, kind);
  }

  lemma InvokePoints(r: Requests, lc: Lifecycle, id: nat, accepted: bool)
    requires id in r.pending && id in r.calls
    ensures SamePointers(r.pending, InvokeReturn(r, lc, id, accepted).pending)
    ensures SamePointers(r.pending, FinishInvoke(r, id).pending)
  {
  }

  lemma CallbackPoints(r: Requests, lc: Lifecycle, id: nat, kind: ReplyKind)
    requires id in r.pending && id in r.calls
    ensures SamePointers(r.pending, BeginCallback(r, lc, id, kind).pending)
    ensures SamePointers(r.pending, EndCallback(r, id).pending)
  {
  }

  lemma CancelPoints(r: Requests, id: nat)
    requires id in r.pending
    ensures SamePointers(r.pending, CancelOne(r, id).pending)
  {
  }

  lemma RewriteTableKept(l: Limits, s: State, r: Requests)
    requires TableInv(l, s) && SamePointers(s.req.pending, r.pending)
    ensures TableInv(l, s.(req := r))
  {
    hide TableOk;
    SamePointersKept(l, s.req.pending, r.pending, s.table, s.teardownStarted, s.detached);
  }

  lemma RequestTableKept(l: Limits, s: State, e: RequestStep)
    requires TableInv(l, s) && ControlOk(s) && RequestEnabled(l, s, e)
    ensures TableInv(l, ApplyRequest(l, s, e))
  {
    if e.Admit? {
      hide TableOk;
      AdmitTableKept(l, s, e.id, e.client, e.scoped, e.bytes);
    } else {
      hide TableInv, ControlOk, SamePointers, Reap, InvokeReturn, FinishInvoke, BeginCallback, EndCallback, CancelOne;
      match e
      case InvokeReturned(id, accepted) =>
        RewritesPoint(s.req, s.lifecycle, id, accepted, Malformed);
        RewriteTableKept(l, s, InvokeReturn(s.req, s.lifecycle, id, accepted));
      case InvokeFinished(id) =>
        RewritesPoint(s.req, s.lifecycle, id, false, Malformed);
        RewriteTableKept(l, s, FinishInvoke(s.req, id));
        ReapTableKept(l, s.(req := FinishInvoke(s.req, id)), id);
      case CallbackBegin(id, kind) =>
        RewritesPoint(s.req, s.lifecycle, id, false, kind);
        RewriteTableKept(l, s, BeginCallback(s.req, s.lifecycle, id, kind));
      case CallbackEnd(id) =>
        RewritesPoint(s.req, s.lifecycle, id, false, Malformed);
        RewriteTableKept(l, s, EndCallback(s.req, id));
        ReapTableKept(l, s.(req := EndCallback(s.req, id)), id);
      case Cancel(id) =>
        if id in s.req.pending {
          CancelPoints(s.req, id);
          RewriteTableKept(l, s, CancelOne(s.req, id));
          ReapTableKept(l, s.(req := CancelOne(s.req, id)), id);
        }
    }
  }

  // ------------------------------------------------ the client table elsewhere

  lemma AddBaseKeys(l: Limits, clients: map<Handle, Client>, creation: Creation, h: Handle, mod: string)
    requires ClientKeysOk(l, clients, creation) && h !in clients && FindClient(clients, Base(mod)) == None
    ensures ClientKeysOk(l, clients[h := Client(Base(mod), 0)], creation)
  {
    TotalUpdate(clients, h, Client(Base(mod), 0), ScopedWeight);
  }

  lemma AddBaseLinks(p: map<nat, Pending>, t: Table, h: Handle, mod: string)
    requires LinksOk(p, t) && h !in t.clients
    ensures LinksOk(p, t.(clients := t.clients[h := Client(Base(mod), 0)], created := h + 1))
  {
    AddPointers(p, t.subs, t.clients, h, Client(Base(mod), 0));
    hide PendingOk, SubClientsOk, Uses;
  }

  lemma AddBaseKept(l: Limits, p: map<nat, Pending>, t: Table, mod: string)
    requires TableOk(l, p, t, false, false) && FindClient(t.clients, Base(mod)) == None
    ensures TableOk(l, p, t.(clients := t.clients[t.created := Client(Base(mod), 0)], created := t.created + 1), false, false)
  {
    hide LinksOk, HandlesOk, ClientKeysOk, SubKeysOk, FrameOk, SubHandlesOk, SubRecordsOk, FindClient;
    NewHandle(t.clients.Keys, t.destroyed, t.leaving, t.created);
    AddBaseKeys(l, t.clients, t.creation, t.created, mod);
    AddBaseLinks(p, t, t.created, mod);
    assert t.clients[t.created := Client(Base(mod), 0)].Keys == t.clients.Keys + {t.created};
  }

  lemma SuppressPoints(r: Requests)
    ensures SamePointers(r.pending, Suppress(r).pending)
  {
  }

  lemma SetupTableKept(l: Limits, s: State, e: SetupStep)
    requires TableInv(l, s) && ControlOk(s) && SetupEnabled(l, s, e)
    ensures TableInv(l, ApplySetup(s, e))
  {
    hide TableOk, FindClient;
    if e.ActivateFail? {
      SuppressPoints(s.req);
      SamePointersKept(l, s.req.pending, Suppress(s.req).pending, s.table, s.teardownStarted, s.detached);
    }
    if e.BaseClient? {
      AddBaseKept(l, s.req.pending, s.table, e.mod);
    }
  }

  lemma EventTableKept(l: Limits, s: State, e: EventStep)
    requires TableInv(l, s) && EventEnabled(s, e)
    ensures TableInv(l, ApplyEvent(l, s, e))
  {
    hide TableOk, ApplyEvent;
    EventStepShape(l, s, e);
  }

  lemma StartKept(l: Limits, p: map<nat, Pending>, t: Table)
    requires TableOk(l, p, t, false, false) && t.frame == NoFrame && t.creation == NoCreation
    ensures TableOk(l, p, t, true, false)
  {
    hide LinksOk, KeysOk, SubsOk;
  }

  lemma DetachKeys(l: Limits, t: Table)
    requires KeysOk(l, t) && t.leaving == {} && t.creation == NoCreation
    ensures KeysOk(l, t.(clients := map[], subs := map[], leaving := t.clients.Keys, subLeaving := SubHandles(t.subs)))
  {
  }

  lemma DetachSubs(l: Limits, t: Table)
    requires SubsOk(l, t) && t.subLeaving == {} && (t.frame == NoFrame || t.frame.Dropping?)
    ensures SubsOk(l, t.(clients := map[], subs := map[], leaving := t.clients.Keys, subLeaving := SubHandles(t.subs)))
  {
  }

  lemma DetachKept(l: Limits, p: map<nat, Pending>, t: Table)
    requires TableOk(l, p, t, true, false)
    ensures TableOk(l, p, t.(clients := map[], subs := map[], leaving := t.clients.Keys, subLeaving := SubHandles(t.subs)), true, true)
  {
    hide LinksOk, KeysOk, SubsOk;
    DetachKeys(l, t);
    DetachSubs(l, t);
  }

  lemma QuiesceSubKept(l: Limits, p: map<nat, Pending>, t: Table, h: Handle)
    requires TableOk(l, p, t, true, true) && h in t.subLeaving
    ensures TableOk(l, p, t.(subLeaving := t.subLeaving - {h}, unsubscribed := t.unsubscribed + {h}), true, true)
  {
    hide HandlesOk, ClientKeysOk, SubKeysOk, FrameOk, SubRecordsOk;
  }

  lemma QuiesceClientKept(l: Limits, p: map<nat, Pending>, t: Table, h: Handle)
    requires TableOk(l, p, t, true, true) && h in t.leaving
    ensures TableOk(l, p, t.(leaving := t.leaving - {h}, destroyed := t.destroyed + {h}), true, true)
  {
    hide ClientKeysOk, SubKeysOk, FrameOk, SubHandlesOk, SubRecordsOk;
  }

  lemma FinishKept(l: Limits, p: map<nat, Pending>, t: Table)
    requires TableOk(l, p, t, true, true)
    ensures TableOk(l, map[], t, true, true)
  {
    hide KeysOk, SubsOk;
  }

  lemma LeavingPhase(l: Limits, s: State)
    requires TableInv(l, s) && (s.table.leaving != {} || s.table.subLeaving != {})
    ensures s.teardownStarted && s.detached
  {
    hide KeysOk, SubsOk, LinksOk;
  }

  lemma ShutdownTableKept(l: Limits, s: State, e: ShutdownStep)
    requires TableInv(l, s) && ControlOk(s) && ShutdownEnabled(s, e)
    ensures TableInv(l, ApplyShutdown(s, e))
  {
    hide TableOk;
    var p, t := s.req.pending, s.table;
    match e
    case Close =>
      SuppressPoints(s.req);
      hide Suppress;
      SamePointersKept(l, p, Suppress(s.req).pending, t, s.teardownStarted, s.detached);
    case FailOne(id) =>
      SamePointersKept(l, p, Answer(s.req, id, FaultReply).pending, t, s.teardownStarted, s.detached);
    case TeardownStart => if !s.teardownStarted { StartKept(l, p, t); }
    case TeardownDetach => DetachKept(l, p, t);
    case QuiesceSub(h) => LeavingPhase(l, s); QuiesceSubKept(l, p, t, h);
    case QuiesceClient(h) => LeavingPhase(l, s); QuiesceClientKept(l, p, t, h);
    case TeardownFinish => FinishKept(l, p, t);
    case WorkerShutdown =>
    case FailNone =>
    case WorkerFinish =>
    case EmergencyClose =>
  }

  // --------------------------------------------- table steps on the requests

  /** A table step destroys no client that a pending request still uses. */
  lemma DestroyedUnused(l: Limits, s: State, e: TableStep)
    requires TableInv(l, s) && ControlOk(s) && TableEnabled(l, s, e)
    ensures forall id :: id in s.req.pending && s.req.pending[id].client in ApplyTable(l, s, e).table.destroyed
              ==> s.req.pending[id].client in s.table.destroyed
  {
    if e.Release? && !s.detached {
      hide KeysOk, SubsOk, LinksOk, PhasesOk;
      ReleasedKept(l, s.req.pending, s.table, e.client, e.forSub, s.teardownStarted);
    } else {
      hide KeysOk, SubsOk, LinksOk, FindSub, FindClient;
    }
  }

  lemma CallsFrame(r: Requests, gone: set<Handle>, gone': set<Handle>)
    requires CallsAgree(r, gone)
    requires forall id :: id in r.pending && r.pending[id].client in gone' ==> r.pending[id].client in gone
    ensures CallsAgree(r, gone')
  {
  }

  lemma TableRequestKept(l: Limits, s: State, e: TableStep)
    requires RequestInv(l, s) && TableInv(l, s) && TableEnabled(l, s, e)
    ensures RequestInv(l, ApplyTable(l, s, e))
  {
    hide TableInv, FlagsAgree, RepliesAgree, CallsAgree, AccountsExact, LivenessOk;
    DestroyedUnused(l, s, e);
    CallsFrame(s.req, s.table.destroyed, ApplyTable(l, s, e).table.destroyed);
    LivenessFrame(s, ApplyTable(l, s, e).table);
  }

  lemma LivenessFrame(s: State, t: Table)
    ensures LivenessOk(s.(table := t)) == LivenessOk(s) && ControlOk(s.(table := t)) == ControlOk(s)
  {
  }
}
