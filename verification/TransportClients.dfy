/** Invariants of the scoped clients and subscriptions: exact reference counts,
    bounds that survive the gap between counting and inserting, and handles that
    are given back exactly once. */
module TransportClients {
  import opened Totals
  import opened TransportModel
  import opened TransportRequests

  function ScopedOn(h: Handle): Pending -> nat { (p: Pending) => if p.scoped && p.client == h then 1 else 0 }
  function RefsOn(h: Handle): Sub -> nat { (b: Sub) => if b.client == h then b.refs else 0 }

  ghost function PendingRefs(pending: map<nat, Pending>, h: Handle): nat { Total(pending, ScopedOn(h)) }
  ghost function SubRefs(subs: map<nat, Sub>, h: Handle): nat { Total(subs, RefsOn(h)) }

  /** Every reason the transport has to keep client `h`. */
  ghost function Uses(pending: map<nat, Pending>, subs: map<nat, Sub>, held: multiset<Handle>, frame: Frame,
                      h: Handle): nat {
    PendingRefs(pending, h) + SubRefs(subs, h) + held[h] + FrameRefs(frame, h)
  }

  predicate IsScoped(clients: map<Handle, Client>, h: Handle) {
    h in clients && clients[h].key.Scoped?
  }

  /** Every client handle ever created is in the table, being torn down, or
      destroyed, and in one of these only. */
  ghost predicate HandlesOk(live: set<Handle>, destroyed: set<Handle>, leaving: set<Handle>, created: nat) {
    && (forall h: Handle :: h in live || h in destroyed || h in leaving <==> h < created)
    && live !! destroyed && live !! leaving && destroyed !! leaving
  }

  /** One client per module and instance, within the bound; a creation in flight
      still has a free place and a free key. */
  ghost predicate ClientKeysOk(l: Limits, clients: map<Handle, Client>, creation: Creation) {
    && (forall g, h :: g in clients && h in clients && clients[g].key == clients[h].key ==> g == h)
    && Total(clients, ScopedWeight) <= l.maxScopedClients
    && (creation.Creating? ==>
          && creation.key.Scoped? && Total(clients, ScopedWeight) < l.maxScopedClients
          && (forall h :: h in clients ==> clients[h].key != creation.key))
  }

  predicate CreationOk(creation: Creation, frame: Frame) {
    creation.Creating? && creation.forSub ==> frame.Probing? && frame.key == creation.key
  }

  /** Every reference is to a client that is still in the table. */
  ghost predicate PendingOk(pending: map<nat, Pending>, clients: map<Handle, Client>) {
    forall id :: id in pending ==>
      pending[id].client in clients && (pending[id].scoped <==> IsScoped(clients, pending[id].client))
  }

  ghost predicate SubClientsOk(subs: map<nat, Sub>, clients: map<Handle, Client>) {
    forall r :: r in subs ==>
      IsScoped(clients, subs[r].client) && clients[subs[r].client].key == subs[r].key && subs[r].refs > 0
  }

  ghost predicate HoldersOk(held: multiset<Handle>, frame: Frame, clients: map<Handle, Client>) {
    && (forall h :: h in held ==> IsScoped(clients, h))
    && (frame.Holding? || frame.Dropping? ==> IsScoped(clients, frame.client))
    && (frame.Holding? ==> clients[frame.client].key == frame.key)
  }

  /** The count of a scoped client is the number of its uses, and not zero. */
  ghost predicate RefsExact(pending: map<nat, Pending>, clients: map<Handle, Client>, subs: map<nat, Sub>,
                            held: multiset<Handle>, frame: Frame) {
    forall h :: IsScoped(clients, h) ==> clients[h].refs == Uses(pending, subs, held, frame, h) > 0
  }

  ghost predicate SubKeysOk(l: Limits, subs: map<nat, Sub>, nextSub: nat) {
    && (forall q, r :: q in subs && r in subs && subs[q].key == subs[r].key ==> q == r)
    && |subs| <= l.maxScopedSubscriptions
    && (forall r :: r in subs ==> r < nextSub)
  }

  /** What the subscribing thread found out in an earlier block still holds. */
  ghost predicate FrameOk(l: Limits, subs: map<nat, Sub>, frame: Frame) {
    && (frame.Probing? || frame.Holding? ==>
          && frame.key.Scoped?
          && (frame.existing <==> FindSub(subs, frame.key) != None)
          && (!frame.existing ==> |subs| < l.maxScopedSubscriptions))
    && (frame.Subscribing? ==>
          frame.rec in subs && subs[frame.rec].client == frame.client && subs[frame.rec].refs == 1)
  }

  function FrameHandle(f: Frame): set<Handle> {
    if f.Dropping? && f.handle.Some? then {f.handle.value} else {}
  }

  ghost predicate SubHandlesOk(live: set<Handle>, dropping: set<Handle>, leaving: set<Handle>, gone: set<Handle>,
                               created: nat) {
    && (forall h: Handle :: h in live || h in dropping || h in leaving || h in gone <==> h < created)
    && live !! dropping && live !! leaving && live !! gone
    && dropping !! leaving && dropping !! gone && leaving !! gone
  }

  ghost predicate SubRecordsOk(subs: map<nat, Sub>, frame: Frame) {
    && (forall q, r :: q in subs && r in subs && subs[q].handle.Some? && subs[q].handle == subs[r].handle ==> q == r)
    && (forall r :: r in subs ==> (subs[r].handle.None? <==> frame.Subscribing? && frame.rec == r))
  }

  /** What the in-flight threads imply about the shutdown, and conversely. */
  predicate PhasesOk(t: Table, teardownStarted: bool, detached: bool) {
    && (teardownStarted ==>
          t.creation == NoCreation && !t.frame.Probing? && !t.frame.Holding? && !t.frame.Subscribing?)
    && (!detached ==> t.leaving == {} && t.subLeaving == {})
    && (detached ==> teardownStarted && t.clients == map[] && t.subs == map[])
  }

  /** Who points to the clients, and how often. */
  ghost predicate LinksOk(pending: map<nat, Pending>, t: Table) {
    && PendingOk(pending, t.clients) && SubClientsOk(t.subs, t.clients)
    && HoldersOk(t.held, t.frame, t.clients)
    && RefsExact(pending, t.clients, t.subs, t.held, t.frame)
  }

  ghost predicate KeysOk(l: Limits, t: Table) {
    && HandlesOk(t.clients.Keys, t.destroyed, t.leaving, t.created)
    && ClientKeysOk(l, t.clients, t.creation) && CreationOk(t.creation, t.frame)
  }

  ghost predicate SubsOk(l: Limits, t: Table) {
    && SubKeysOk(l, t.subs, t.nextSub) && FrameOk(l, t.subs, t.frame)
    && SubHandlesOk(SubHandles(t.subs), FrameHandle(t.frame), t.subLeaving, t.unsubscribed, t.subCreated)
    && SubRecordsOk(t.subs, t.frame)
  }

  ghost predicate TableOk(l: Limits, pending: map<nat, Pending>, t: Table, teardownStarted: bool, detached: bool) {
    && KeysOk(l, t) && SubsOk(l, t) && PhasesOk(t, teardownStarted, detached)
    && (forall id :: id in pending ==> pending[id].client < t.created)
    && (!detached ==> LinksOk(pending, t))
  }

  ghost predicate TableInv(l: Limits, s: State) {
    TableOk(l, s.req.pending, s.table, s.teardownStarted, s.detached)
  }

  // -------------------------------------------------------- moving references

  /** Uses moved from one holder to another leave every count exact. */
  lemma RefsMove(p: map<nat, Pending>, b: map<nat, Sub>, m: multiset<Handle>, f: Frame,
                 p': map<nat, Pending>, b': map<nat, Sub>, m': multiset<Handle>, f': Frame, clients: map<Handle, Client>)
    requires RefsExact(p, clients, b, m, f)
    requires forall h :: Uses(p', b', m', f', h) == Uses(p, b, m, f, h)
    ensures RefsExact(p', clients, b', m', f')
  {
  }

  lemma RefsGain(p: map<nat, Pending>, b: map<nat, Sub>, m: multiset<Handle>, f: Frame,
                 m': multiset<Handle>, f': Frame, clients: map<Handle, Client>, h0: Handle)
    requires RefsExact(p, clients, b, m, f) && IsScoped(clients, h0)
    requires forall h :: m'[h] + FrameRefs(f', h) == m[h] + FrameRefs(f, h) + (if h == h0 then 1 else 0)
    ensures RefsExact(p, clients[h0 := clients[h0].(refs := clients[h0].refs + 1)], b, m', f')
  {
    hide PendingRefs, SubRefs;
  }

  /** A handle that is in no table has no uses. */
  lemma NoUses(p: map<nat, Pending>, b: map<nat, Sub>, m: multiset<Handle>, f: Frame,
               clients: map<Handle, Client>, h0: Handle)
    requires PendingOk(p, clients) && SubClientsOk(b, clients) && HoldersOk(m, f, clients) && h0 !in clients
    ensures Uses(p, b, m, f, h0) == 0
  {
    TotalZero(p, ScopedOn(h0));
    TotalZero(b, RefsOn(h0));
  }

  lemma RefsCreate(p: map<nat, Pending>, b: map<nat, Sub>, m: multiset<Handle>, f: Frame,
                   m': multiset<Handle>, f': Frame, clients: map<Handle, Client>, h0: Handle, key: Key)
    requires RefsExact(p, clients, b, m, f) && h0 !in clients && Uses(p, b, m, f, h0) == 0
    requires forall h :: m'[h] + FrameRefs(f', h) == m[h] + FrameRefs(f, h) + (if h == h0 then 1 else 0)
    ensures RefsExact(p, clients[h0 := Client(key, 1)], b, m', f')
  {
    hide PendingRefs, SubRefs;
  }

  lemma RefsDrop(p: map<nat, Pending>, b: map<nat, Sub>, m: multiset<Handle>, f: Frame,
                 m': multiset<Handle>, f': Frame, clients: map<Handle, Client>, h0: Handle)
    requires RefsExact(p, clients, b, m, f) && IsScoped(clients, h0) && clients[h0].refs > 1
    requires forall h :: m'[h] + FrameRefs(f', h) + (if h == h0 then 1 else 0) == m[h] + FrameRefs(f, h)
    ensures RefsExact(p, clients[h0 := clients[h0].(refs := clients[h0].refs - 1)], b, m', f')
  {
    hide PendingRefs, SubRefs;
  }

  lemma RefsDropLast(p: map<nat, Pending>, b: map<nat, Sub>, m: multiset<Handle>, f: Frame,
                     m': multiset<Handle>, f': Frame, clients: map<Handle, Client>, h0: Handle)
    requires RefsExact(p, clients, b, m, f) && IsScoped(clients, h0) && clients[h0].refs == 1
    requires forall h :: m'[h] + FrameRefs(f', h) + (if h == h0 then 1 else 0) == m[h] + FrameRefs(f, h)
    ensures RefsExact(p, clients - {h0}, b, m', f') && Uses(p, b, m', f', h0) == 0
  {
    hide PendingRefs, SubRefs;
  }

  /** Rewriting one subscription. */
  lemma SubRefsUpdate(b: map<nat, Sub>, r: nat, v: Sub)
    ensures forall h :: SubRefs(b[r := v], h) + (if r in b then RefsOn(h)(b[r]) else 0) == SubRefs(b, h) + RefsOn(h)(v)
  {
    forall h
      ensures SubRefs(b[r := v], h) + (if r in b then RefsOn(h)(b[r]) else 0) == SubRefs(b, h) + RefsOn(h)(v)
    {
      TotalUpdate(b, r, v, RefsOn(h));
    }
  }

  lemma SubRefsRemove(b: map<nat, Sub>, r: nat)
    requires r in b
    ensures forall h :: SubRefs(b, h) == SubRefs(b - {r}, h) + RefsOn(h)(b[r])
  {
    forall h ensures SubRefs(b, h) == SubRefs(b - {r}, h) + RefsOn(h)(b[r]) {
      TotalRemove(b, r, RefsOn(h));
    }
  }

  /** With no uses left, nothing points to the client. */
  lemma Unused(p: map<nat, Pending>, b: map<nat, Sub>, m: multiset<Handle>, f: Frame,
               clients: map<Handle, Client>, h: Handle)
    requires Uses(p, b, m, f, h) == 0 && PendingOk(p, clients) && SubClientsOk(b, clients) && IsScoped(clients, h)
    ensures PendingOk(p, clients - {h}) && SubClientsOk(b, clients - {h})
    ensures forall id :: id in p ==> p[id].client != h
    ensures forall r :: r in b ==> b[r].client != h
  {
    TotalZero(p, ScopedOn(h));
    TotalZero(b, RefsOn(h));
    assert forall id :: id in p ==> ScopedOn(h)(p[id]) == 0;
    assert forall r :: r in b ==> RefsOn(h)(b[r]) == 0;
  }

  // --------------------------------------------------------- changing the keys

  /** Changing only the count of one client. */
  lemma RecountKeys(l: Limits, clients: map<Handle, Client>, creation: Creation, h: Handle, refs: nat)
    requires ClientKeysOk(l, clients, creation) && h in clients
    ensures ClientKeysOk(l, clients[h := clients[h].(refs := refs)], creation)
    ensures clients[h := clients[h].(refs := refs)].Keys == clients.Keys
  {
    TotalUpdate(clients, h, clients[h].(refs := refs), ScopedWeight);
  }

  lemma RecountPointers(p: map<nat, Pending>, b: map<nat, Sub>, clients: map<Handle, Client>, h: Handle, refs: nat)
    requires PendingOk(p, clients) && SubClientsOk(b, clients) && h in clients
    ensures PendingOk(p, clients[h := clients[h].(refs := refs)])
    ensures SubClientsOk(b, clients[h := clients[h].(refs := refs)])
  {
  }

  lemma RemoveKeys(l: Limits, clients: map<Handle, Client>, h: Handle)
    requires ClientKeysOk(l, clients, NoCreation) && h in clients
    ensures ClientKeysOk(l, clients - {h}, NoCreation)
  {
    TotalRemove(clients, h, ScopedWeight);
  }

  lemma AddKey(l: Limits, clients: map<Handle, Client>, creation: Creation, h: Handle)
    requires ClientKeysOk(l, clients, creation) && creation.Creating? && h !in clients
    ensures ClientKeysOk(l, clients[h := Client(creation.key, 1)], NoCreation)
  {
    TotalUpdate(clients, h, Client(creation.key, 1), ScopedWeight);
  }

  lemma AddPointers(p: map<nat, Pending>, b: map<nat, Sub>, clients: map<Handle, Client>, h: Handle, c: Client)
    requires PendingOk(p, clients) && SubClientsOk(b, clients) && h !in clients
    ensures PendingOk(p, clients[h := c]) && SubClientsOk(b, clients[h := c])
  {
  }

  lemma FoundClient(clients: map<Handle, Client>, key: Key)
    requires FindClient(clients, key) != None
    ensures FindClient(clients, key).value in clients && clients[FindClient(clients, key).value].key == key
  {
  }

  lemma FoundSub(subs: map<nat, Sub>, key: Key)
    requires FindSub(subs, key) != None
    ensures FindSub(subs, key).value in subs && subs[FindSub(subs, key).value].key == key
  {
  }

  // ------------------------------------------------------ steps on the table

  lemma RetainedHolders(t: Table, clients: map<Handle, Client>, h: Handle, forSub: bool)
    requires HoldersOk(t.held, t.frame, t.clients) && IsScoped(clients, h)
    requires forSub ==> t.frame.Probing? && t.frame.key == clients[h].key
    requires forall g :: IsScoped(t.clients, g) ==> IsScoped(clients, g) && clients[g].key == t.clients[g].key
    ensures HoldersOk(Retained(t, h, forSub).held, Retained(t, h, forSub).frame, clients)
  {
  }

  lemma RetainedUses(t: Table, h: Handle, forSub: bool)
    requires forSub ==> t.frame.Probing?
    ensures forall g :: Retained(t, h, forSub).held[g] + FrameRefs(Retained(t, h, forSub).frame, g)
                        == t.held[g] + FrameRefs(t.frame, g) + (if g == h then 1 else 0)
  {
  }

  lemma AcquireFoundLinks(pending: map<nat, Pending>, t: Table, h: Handle, forSub: bool)
    requires LinksOk(pending, t) && IsScoped(t.clients, h)
    requires forSub ==> t.frame.Probing? && t.frame.key == t.clients[h].key
    ensures LinksOk(pending, AcquireFound(t, h, forSub))
  {
    var t' := AcquireFound(t, h, forSub);
    var t1 := t.(clients := t'.clients);
    RetainedUses(t1, h, forSub);
    RetainedHolders(t, t'.clients, h, forSub);
    hide PendingOk, SubClientsOk, RefsExact, HoldersOk;
    RecountPointers(pending, t.subs, t.clients, h, t.clients[h].refs + 1);
    RefsGain(pending, t.subs, t.held, t.frame, t'.held, t'.frame, t.clients, h);
  }

  /** Which subscription records have no handle yet depends on the frame only
      through its `Subscribing` state. */
  lemma SubRecordsFrame(subs: map<nat, Sub>, f: Frame, f': Frame)
    requires SubRecordsOk(subs, f) && !f.Subscribing? && !f'.Subscribing?
    ensures SubRecordsOk(subs, f')
  {
  }

  lemma AcquireFoundKept(l: Limits, pending: map<nat, Pending>, t: Table, h: Handle, forSub: bool)
    requires TableOk(l, pending, t, false, false) && IsScoped(t.clients, h)
    requires t.creation == NoCreation && (forSub ==> t.frame.Probing? && t.frame.key == t.clients[h].key)
    ensures TableOk(l, pending, AcquireFound(t, h, forSub), false, false)
  {
    hide LinksOk, HandlesOk, ClientKeysOk, SubKeysOk, SubHandlesOk, SubRecordsOk, FindSub;
    AcquireFoundLinks(pending, t, h, forSub);
    RecountKeys(l, t.clients, t.creation, h, t.clients[h].refs + 1);
    if forSub {
      SubRecordsFrame(t.subs, t.frame, AcquireFound(t, h, forSub).frame);
    }
  }

  lemma AcquireBeginKept(l: Limits, pending: map<nat, Pending>, t: Table, key: Key, forSub: bool)
    requires TableOk(l, pending, t, false, false) && key.Scoped? && t.creation == NoCreation
    requires FindClient(t.clients, key) == None && Total(t.clients, ScopedWeight) < l.maxScopedClients
    requires forSub ==> t.frame.Probing? && t.frame.key == key
    ensures TableOk(l, pending, t.(creation := Creating(key, forSub)), false, false)
  {
    hide LinksOk, HandlesOk, SubsOk;
    assert LinksOk(pending, t) ==> LinksOk(pending, t.(creation := Creating(key, forSub))) by { LinksCreation(pending, t, Creating(key, forSub)); }
    SubsCreation(l, t, Creating(key, forSub));
  }

  lemma LinksCreation(pending: map<nat, Pending>, t: Table, c: Creation)
    ensures LinksOk(pending, t.(creation := c)) <==> LinksOk(pending, t)
  {
    hide PendingOk, SubClientsOk, RefsExact, HoldersOk;
  }

  lemma SubsCreation(l: Limits, t: Table, c: Creation)
    ensures SubsOk(l, t.(creation := c)) <==> SubsOk(l, t)
  {
    hide SubKeysOk, FrameOk, SubHandlesOk, SubRecordsOk;
  }

  /** A frame that holds neither a reference nor a handle can be left. */
  lemma LeaveFrame(l: Limits, pending: map<nat, Pending>, t: Table)
    requires TableOk(l, pending, t, false, false) && t.frame.Probing? && t.creation == NoCreation
    ensures TableOk(l, pending, t.(frame := NoFrame), false, false)
  {
    hide HandlesOk, ClientKeysOk, SubKeysOk, SubHandlesOk, SubRecordsOk, PendingOk, SubClientsOk, RefsExact, FindSub;
    SubRecordsFrame(t.subs, t.frame, NoFrame);
    RefsMove(pending, t.subs, t.held, t.frame, pending, t.subs, t.held, NoFrame, t.clients);
  }

  lemma FewerKeys(l: Limits, clients: map<Handle, Client>, creation: Creation)
    requires ClientKeysOk(l, clients, creation)
    ensures ClientKeysOk(l, clients, NoCreation)
    ensures creation.Creating? ==> creation.key.Scoped?
  {
  }

  lemma NewHandle(live: set<Handle>, destroyed: set<Handle>, leaving: set<Handle>, created: nat)
    requires HandlesOk(live, destroyed, leaving, created)
    ensures HandlesOk(live + {created}, destroyed, leaving, created + 1)
    ensures HandlesOk(live, destroyed + {created}, leaving, created + 1)
    ensures created !in live
  {
  }

  lemma EndCreation(l: Limits, pending: map<nat, Pending>, t: Table)
    requires TableOk(l, pending, t, false, false)
    ensures TableOk(l, pending, t.(creation := NoCreation), false, false)
  {
    hide LinksOk, SubsOk, HandlesOk, ClientKeysOk;
    LinksCreation(pending, t, NoCreation);
    SubsCreation(l, t, NoCreation);
    FewerKeys(l, t.clients, t.creation);
  }

  lemma WasteHandle(l: Limits, pending: map<nat, Pending>, t: Table)
    requires TableOk(l, pending, t, false, false)
    ensures TableOk(l, pending, t.(created := t.created + 1, destroyed := t.destroyed + {t.created}), false, false)
  {
    hide LinksOk, SubsOk, HandlesOk, ClientKeysOk;
    NewHandle(t.clients.Keys, t.destroyed, t.leaving, t.created);
    LinksCreated(pending, t, t.created + 1, t.destroyed + {t.created});
    SubsCreated(l, t, t.created + 1, t.destroyed + {t.created});
  }

  /** The creation in flight ends without a retained client. */
  lemma AcquireFailKept(l: Limits, pending: map<nat, Pending>, t: Table, serviceable: bool, ok: bool)
    requires TableOk(l, pending, t, false, false) && t.creation.Creating? && CreationOk(t.creation, t.frame)
    requires !ok || !serviceable
    ensures TableOk(l, pending, AcquireEnded(t, serviceable, ok), false, false)
  {
    hide TableOk;
    EndCreation(l, pending, t);
    var t0 := t.(creation := NoCreation);
    if t.creation.forSub {
      LeaveFrame(l, pending, t0);
    }
    if ok {
      WasteHandle(l, pending, if t.creation.forSub then t0.(frame := NoFrame) else t0);
    }
  }

  lemma LinksCreated(pending: map<nat, Pending>, t: Table, created: nat, destroyed: set<Handle>)
    ensures LinksOk(pending, t.(created := created, destroyed := destroyed)) <==> LinksOk(pending, t)
  {
    hide PendingOk, SubClientsOk, RefsExact, HoldersOk;
  }

  lemma SubsCreated(l: Limits, t: Table, created: nat, destroyed: set<Handle>)
    ensures SubsOk(l, t.(created := created, destroyed := destroyed)) <==> SubsOk(l, t)
  {
    hide SubKeysOk, FrameOk, SubHandlesOk, SubRecordsOk;
  }

  lemma AcquireNewLinks(pending: map<nat, Pending>, t: Table)
    requires LinksOk(pending, t) && t.creation.Creating? && t.creation.key.Scoped? && t.created !in t.clients
    requires CreationOk(t.creation, t.frame)
    ensures LinksOk(pending, AcquireEnded(t, true, true))
  {
    var h := t.created;
    var forSub := t.creation.forSub;
    var t' := AcquireEnded(t, true, true);
    RetainedUses(t, h, forSub);
    RetainedHolders(t, t'.clients, h, forSub);
    NoUses(pending, t.subs, t.held, t.frame, t.clients, h);
    hide PendingOk, SubClientsOk, RefsExact, HoldersOk;
    AddPointers(pending, t.subs, t.clients, h, Client(t.creation.key, 1));
    RefsCreate(pending, t.subs, t.held, t.frame, t'.held, t'.frame, t.clients, h, t.creation.key);
  }

  lemma RetainedSubs(l: Limits, t: Table, t': Table)
    requires SubsOk(l, t) && t'.subs == t.subs && t'.nextSub == t.nextSub && t'.subLeaving == t.subLeaving
    requires t'.unsubscribed == t.unsubscribed && t'.subCreated == t.subCreated
    requires t'.frame == t.frame || (t.frame.Probing? && t'.frame == Holding(t.frame.key, t.frame.existing, t.created))
    ensures SubsOk(l, t')
  {
    hide SubKeysOk, SubHandlesOk, SubRecordsOk, FindSub;
    if t'.frame != t.frame {
      SubRecordsFrame(t.subs, t.frame, t'.frame);
    }
  }

  lemma AcquireNewKept(l: Limits, pending: map<nat, Pending>, t: Table)
    requires TableOk(l, pending, t, false, false) && t.creation.Creating?
    ensures TableOk(l, pending, AcquireEnded(t, true, true), false, false)
  {
    hide LinksOk, SubsOk, HandlesOk, ClientKeysOk;
    NewHandle(t.clients.Keys, t.destroyed, t.leaving, t.created);
    FewerKeys(l, t.clients, t.creation);
    AcquireNewLinks(pending, t);
    AddKey(l, t.clients, t.creation, t.created);
    assert AcquireEnded(t, true, true).clients.Keys == t.clients.Keys + {t.created};
    RetainedSubs(l, t, AcquireEnded(t, true, true));
  }

  // ---------------------------------------------------------------- releasing

  /** The guard against a referenced client never fires: the count alone decides. */
  lemma GuardNeverFires(pending: map<nat, Pending>, t: Table, h: Handle)
    requires LinksOk(pending, t) && (h in t.held || FrameRefs(t.frame, h) == 1)
    ensures IsScoped(t.clients, h) && t.clients[h].refs >= 1
    ensures t.clients[h].refs == 1 ==> !SubscribedOn(t, h)
  {
    if t.clients[h].refs == 1 {
      assert SubRefs(t.subs, h) == 0;
      TotalZero(t.subs, RefsOn(h));
      assert forall r :: r in t.subs ==> RefsOn(h)(t.subs[r]) == 0;
    }
  }

  function LastRelease(t: Table, h: Handle, m: multiset<Handle>, f: Frame): Table {
    t.(clients := t.clients - {h}, destroyed := t.destroyed + {h}, held := m, frame := f)
  }

  function OtherRelease(t: Table, h: Handle, m: multiset<Handle>, f: Frame): Table
    requires h in t.clients && t.clients[h].refs > 1
  {
    t.(clients := t.clients[h := t.clients[h].(refs := t.clients[h].refs - 1)], held := m, frame := f)
  }

  lemma FewerHolders(t: Table, m: multiset<Handle>, f: Frame, clients: map<Handle, Client>)
    requires HoldersOk(t.held, t.frame, t.clients) && m <= t.held && (f == t.frame || f == NoFrame)
    requires forall g :: IsScoped(t.clients, g) && (m[g] > 0 || FrameRefs(f, g) > 0) ==>
               g in clients && clients[g].key == t.clients[g].key
    ensures HoldersOk(m, f, clients)
  {
  }

  lemma OtherReleaseLinks(pending: map<nat, Pending>, t: Table, h: Handle, m: multiset<Handle>, f: Frame)
    requires LinksOk(pending, t) && IsScoped(t.clients, h) && t.clients[h].refs > 1
    requires forall g :: m[g] + FrameRefs(f, g) + (if g == h then 1 else 0) == t.held[g] + FrameRefs(t.frame, g)
    requires m <= t.held && (f == t.frame || f == NoFrame)
    ensures LinksOk(pending, OtherRelease(t, h, m, f))
  {
    hide PendingOk, SubClientsOk, RefsExact, HoldersOk;
    FewerHolders(t, m, f, OtherRelease(t, h, m, f).clients);
    RecountPointers(pending, t.subs, t.clients, h, t.clients[h].refs - 1);
    RefsDrop(pending, t.subs, t.held, t.frame, m, f, t.clients, h);
  }

  lemma LastReleaseLinks(pending: map<nat, Pending>, t: Table, h: Handle, m: multiset<Handle>, f: Frame)
    requires LinksOk(pending, t) && IsScoped(t.clients, h) && t.clients[h].refs == 1
    requires forall g :: m[g] + FrameRefs(f, g) + (if g == h then 1 else 0) == t.held[g] + FrameRefs(t.frame, g)
    requires m <= t.held && (f == t.frame || f == NoFrame)
    ensures LinksOk(pending, LastRelease(t, h, m, f))
    ensures forall id :: id in pending ==> pending[id].client != h
  {
    hide PendingOk, SubClientsOk, RefsExact, HoldersOk;
    RefsDropLast(pending, t.subs, t.held, t.frame, m, f, t.clients, h);
    assert m[h] == 0 && FrameRefs(f, h) == 0;
    FewerHolders(t, m, f, t.clients - {h});
    Unused(pending, t.subs, m, f, t.clients, h);
  }

  lemma GoneHandle(live: set<Handle>, destroyed: set<Handle>, leaving: set<Handle>, created: nat, h: Handle)
    requires HandlesOk(live, destroyed, leaving, created) && h in live
    ensures HandlesOk(live - {h}, destroyed + {h}, leaving, created)
  {
  }

  lemma ReleaseFrame(l: Limits, t: Table, clients: map<Handle, Client>, destroyed: set<Handle>, m: multiset<Handle>, f: Frame)
    requires SubsOk(l, t) && (f == t.frame || (f == NoFrame && t.frame.Dropping? && t.frame.handle.None?))
    ensures SubsOk(l, t.(clients := clients, destroyed := destroyed, held := m, frame := f))
  {
    hide SubKeysOk, SubHandlesOk, SubRecordsOk, FindSub;
    if f == NoFrame && t.frame.Dropping? {
      SubRecordsFrame(t.subs, t.frame, f);
    }
  }

  lemma OtherReleaseKept(l: Limits, pending: map<nat, Pending>, t: Table, h: Handle, m: multiset<Handle>, f: Frame,
                         started: bool)
    requires TableOk(l, pending, t, started, false) && IsScoped(t.clients, h) && t.clients[h].refs > 1
    requires forall g :: m[g] + FrameRefs(f, g) + (if g == h then 1 else 0) == t.held[g] + FrameRefs(t.frame, g)
    requires m <= t.held && (f == t.frame || (f == NoFrame && t.frame == Dropping(None, h))) && t.creation == NoCreation
    ensures TableOk(l, pending, OtherRelease(t, h, m, f), started, false)
  {
    hide LinksOk, SubsOk, HandlesOk, ClientKeysOk;
    OtherReleaseLinks(pending, t, h, m, f);
    RecountKeys(l, t.clients, t.creation, h, t.clients[h].refs - 1);
    ReleaseFrame(l, t, OtherRelease(t, h, m, f).clients, t.destroyed, m, f);
  }

  lemma LastReleaseKept(l: Limits, pending: map<nat, Pending>, t: Table, h: Handle, m: multiset<Handle>, f: Frame,
                        started: bool)
    requires TableOk(l, pending, t, started, false) && IsScoped(t.clients, h) && t.clients[h].refs == 1
    requires forall g :: m[g] + FrameRefs(f, g) + (if g == h then 1 else 0) == t.held[g] + FrameRefs(t.frame, g)
    requires m <= t.held && (f == t.frame || (f == NoFrame && t.frame == Dropping(None, h))) && t.creation == NoCreation
    ensures TableOk(l, pending, LastRelease(t, h, m, f), started, false)
  {
    hide LinksOk, SubsOk, HandlesOk, ClientKeysOk;
    LastReleaseLinks(pending, t, h, m, f);
    RemoveKeys(l, t.clients, h);
    GoneHandle(t.clients.Keys, t.destroyed, t.leaving, t.created, h);
    ReleaseFrame(l, t, t.clients - {h}, t.destroyed + {h}, m, f);
    assert (t.clients - {h}).Keys == t.clients.Keys - {h};
  }

  lemma ReleasedKept(l: Limits, pending: map<nat, Pending>, t: Table, h: Handle, forSub: bool, started: bool)
    requires TableOk(l, pending, t, started, false) && t.creation == NoCreation
    requires if forSub then t.frame == Dropping(None, h) else h in t.held
    ensures TableOk(l, pending, Released(t, h, forSub), started, false)
    ensures h in t.clients && h !in Released(t, h, forSub).clients ==> forall id :: id in pending ==> pending[id].client != h
  {
    hide LinksOk, SubsOk, KeysOk, SubscribedOn;
    var m := if forSub then t.held else t.held - multiset{h};
    var f := if forSub then NoFrame else t.frame;
    GuardNeverFires(pending, t, h);
    if t.clients[h].refs == 1 {
      LastReleaseKept(l, pending, t, h, m, f, started);
      LastReleaseLinks(pending, t, h, m, f);
      assert Released(t, h, forSub) == LastRelease(t, h, m, f);
    } else {
      OtherReleaseKept(l, pending, t, h, m, f, started);
      assert Released(t, h, forSub) == OtherRelease(t, h, m, f);
    }
  }

  // ------------------------------------------------------------ subscriptions

  lemma SubscribeBegunKept(l: Limits, pending: map<nat, Pending>, t: Table, key: Key)
    requires TableOk(l, pending, t, false, false) && t.frame == NoFrame && key.Scoped?
    ensures TableOk(l, pending, SubscribeBegun(l, t, true, key), false, false)
  {
    hide HandlesOk, ClientKeysOk, SubKeysOk, SubHandlesOk, SubRecordsOk, PendingOk, SubClientsOk, RefsExact, FindSub;
    var f := SubscribeBegun(l, t, true, key).frame;
    SubRecordsFrame(t.subs, t.frame, f);
    RefsMove(pending, t.subs, t.held, t.frame, pending, t.subs, t.held, f, t.clients);
  }

  /** A key names at most one client, so the frame's client is the subscription's. */
  lemma SameClient(l: Limits, t: Table, pending: map<nat, Pending>, r: nat)
    requires LinksOk(pending, t) && ClientKeysOk(l, t.clients, t.creation) && t.frame.Holding?
    requires r in t.subs && t.subs[r].key == t.frame.key
    ensures t.subs[r].client == t.frame.client
  {
  }

  lemma RewriteSubKeys(l: Limits, subs: map<nat, Sub>, nextSub: nat, r: nat, b: Sub)
    requires SubKeysOk(l, subs, nextSub) && r in subs && b.key == subs[r].key
    ensures SubKeysOk(l, subs[r := b], nextSub)
  {
    assert subs[r := b].Keys == subs.Keys;
    assert |subs[r := b]| == |subs[r := b].Keys|;
  }

  lemma RewriteSubRecords(subs: map<nat, Sub>, f: Frame, f': Frame, r: nat, b: Sub)
    requires SubRecordsOk(subs, f) && r in subs && !f.Subscribing? && !f'.Subscribing? && b.handle == subs[r].handle
    ensures SubRecordsOk(subs[r := b], f') && SubHandles(subs[r := b]) == SubHandles(subs)
  {
    assert forall q :: q in subs[r := b] ==> subs[r := b][q].handle == subs[q].handle;
    assert forall h :: h in SubHandles(subs) ==> h in SubHandles(subs[r := b]) by {
      forall h | h in SubHandles(subs) ensures h in SubHandles(subs[r := b]) {
        var q :| q in subs && subs[q].handle == Some(h);
        assert subs[r := b][q].handle == Some(h);
      }
    }
  }

  lemma RewriteSubClients(subs: map<nat, Sub>, clients: map<Handle, Client>, r: nat, b: Sub)
    requires SubClientsOk(subs, clients) && r in subs && b.key == subs[r].key && b.client == subs[r].client && b.refs > 0
    ensures SubClientsOk(subs[r := b], clients)
  {
  }

  lemma DroppingHolders(m: multiset<Handle>, f: Frame, f': Frame, clients: map<Handle, Client>, client: Handle)
    requires HoldersOk(m, f, clients) && IsScoped(clients, client)
    requires f' == NoFrame || f'.Subscribing? || (f'.Dropping? && f'.client == client)
    ensures HoldersOk(m, f', clients)
  {
  }

  lemma RewriteUses(pending: map<nat, Pending>, t: Table, r: nat, b: Sub, f: Frame)
    requires r in t.subs && b.client == t.subs[r].client
    requires b.refs + FrameRefs(f, b.client) == t.subs[r].refs + FrameRefs(t.frame, b.client)
    requires forall h :: h != b.client ==> FrameRefs(f, h) == FrameRefs(t.frame, h)
    ensures forall h :: Uses(pending, t.subs[r := b], t.held, f, h) == Uses(pending, t.subs, t.held, t.frame, h)
  {
    SubRefsUpdate(t.subs, r, b);
    hide SubRefs, PendingRefs;
    forall h ensures Uses(pending, t.subs[r := b], t.held, f, h) == Uses(pending, t.subs, t.held, t.frame, h) {
      assert RefsOn(h)(b) == (if b.client == h then b.refs else 0);
      assert RefsOn(h)(t.subs[r]) == (if b.client == h then t.subs[r].refs else 0);
    }
  }

  /** Moving one reference between the frame and a subscription record. */
  lemma RewriteLinks(pending: map<nat, Pending>, t: Table, r: nat, b: Sub, f: Frame)
    requires LinksOk(pending, t) && r in t.subs && b.key == t.subs[r].key && b.client == t.subs[r].client && b.refs > 0
    requires b.refs + FrameRefs(f, b.client) == t.subs[r].refs + FrameRefs(t.frame, b.client)
    requires forall h :: h != b.client ==> FrameRefs(f, h) == FrameRefs(t.frame, h)
    requires f == NoFrame || (f.Dropping? && f.client == b.client)
    ensures LinksOk(pending, t.(subs := t.subs[r := b], frame := f))
  {
    RewriteUses(pending, t, r, b, f);
    RewriteSubClients(t.subs, t.clients, r, b);
    DroppingHolders(t.held, t.frame, f, t.clients, b.client);
    hide PendingOk, RefsExact, Uses, SubClientsOk, HoldersOk;
    RefsMove(pending, t.subs, t.held, t.frame, pending, t.subs[r := b], t.held, f, t.clients);
  }

  lemma AddLinks(pending: map<nat, Pending>, t: Table, r: nat)
    requires LinksOk(pending, t) && r !in t.subs && t.frame.Holding?
    ensures LinksOk(pending, t.(subs := t.subs[r := Sub(t.frame.key, t.frame.client, 1, None)], nextSub := r + 1,
                                frame := Subscribing(r, t.frame.client)))
  {
    var b := Sub(t.frame.key, t.frame.client, 1, None);
    var f := Subscribing(r, t.frame.client);
    AddUses(pending, t, r, b, f);
    AddSubClient(t, r);
    DroppingHolders(t.held, t.frame, f, t.clients, t.frame.client);
    hide PendingOk, RefsExact, Uses, SubClientsOk, HoldersOk;
    RefsMove(pending, t.subs, t.held, t.frame, pending, t.subs[r := b], t.held, f, t.clients);
  }

  lemma AddSubClient(t: Table, r: nat)
    requires SubClientsOk(t.subs, t.clients) && HoldersOk(t.held, t.frame, t.clients) && t.frame.Holding?
    ensures SubClientsOk(t.subs[r := Sub(t.frame.key, t.frame.client, 1, None)], t.clients)
  {
  }

  lemma AddUses(pending: map<nat, Pending>, t: Table, r: nat, b: Sub, f: Frame)
    requires r !in t.subs && t.frame.Holding? && b.client == t.frame.client && b.refs == 1 && f.Subscribing?
    ensures forall h :: Uses(pending, t.subs[r := b], t.held, f, h) == Uses(pending, t.subs, t.held, t.frame, h)
  {
    SubRefsUpdate(t.subs, r, b);
    hide SubRefs, PendingRefs;
    forall h ensures Uses(pending, t.subs[r := b], t.held, f, h) == Uses(pending, t.subs, t.held, t.frame, h) {
      assert RefsOn(h)(b) == (if b.client == h then 1 else 0);
    }
  }

  lemma RemoveUses(pending: map<nat, Pending>, t: Table, r: nat, f: Frame)
    requires r in t.subs && t.subs[r].refs == 1 && (t.frame == NoFrame || t.frame.Subscribing?)
    requires f.Dropping? && f.client == t.subs[r].client
    ensures forall h :: Uses(pending, t.subs - {r}, t.held, f, h) == Uses(pending, t.subs, t.held, t.frame, h)
  {
    SubRefsRemove(t.subs, r);
    hide SubRefs, PendingRefs;
    forall h ensures Uses(pending, t.subs - {r}, t.held, f, h) == Uses(pending, t.subs, t.held, t.frame, h) {
      assert RefsOn(h)(t.subs[r]) == (if f.client == h then 1 else 0);
    }
  }

  lemma RemoveLinks(pending: map<nat, Pending>, t: Table, r: nat, f: Frame)
    requires LinksOk(pending, t) && r in t.subs && t.subs[r].refs == 1 && (t.frame == NoFrame || t.frame.Subscribing?)
    requires f.Dropping? && f.client == t.subs[r].client
    ensures LinksOk(pending, t.(subs := t.subs - {r}, frame := f))
  {
    RemoveUses(pending, t, r, f);
    DroppingHolders(t.held, t.frame, f, t.clients, f.client);
    assert SubClientsOk(t.subs - {r}, t.clients);
    hide PendingOk, RefsExact, Uses, SubClientsOk, HoldersOk;
    RefsMove(pending, t.subs, t.held, t.frame, pending, t.subs - {r}, t.held, f, t.clients);
  }

  lemma AddSubKeys(l: Limits, subs: map<nat, Sub>, nextSub: nat, b: Sub)
    requires SubKeysOk(l, subs, nextSub) && FindSub(subs, b.key) == None && |subs| < l.maxScopedSubscriptions
    ensures SubKeysOk(l, subs[nextSub := b], nextSub + 1) && nextSub !in subs
  {
    assert subs[nextSub := b].Keys == subs.Keys + {nextSub};
    assert |subs[nextSub := b]| == |subs[nextSub := b].Keys|;
  }

  lemma RemoveSubKeys(l: Limits, subs: map<nat, Sub>, nextSub: nat, r: nat)
    requires SubKeysOk(l, subs, nextSub) && r in subs
    ensures SubKeysOk(l, subs - {r}, nextSub)
  {
    assert (subs - {r}).Keys == subs.Keys - {r};
    assert |subs - {r}| == |(subs - {r}).Keys|;
  }

  lemma AddSubRecords(subs: map<nat, Sub>, f: Frame, r: nat, b: Sub)
    requires SubRecordsOk(subs, f) && !f.Subscribing? && r !in subs && b.handle == None
    ensures SubRecordsOk(subs[r := b], Subscribing(r, b.client)) && SubHandles(subs[r := b]) == SubHandles(subs)
  {
    assert forall h :: h in SubHandles(subs) ==> h in SubHandles(subs[r := b]) by {
      forall h | h in SubHandles(subs) ensures h in SubHandles(subs[r := b]) {
        var q :| q in subs && subs[q].handle == Some(h);
        assert subs[r := b][q].handle == Some(h);
      }
    }
  }

  function HandleSet(h: Option<Handle>): set<Handle> { if h.Some? then {h.value} else {} }

  lemma RemoveSubRecords(subs: map<nat, Sub>, f: Frame, f': Frame, r: nat)
    requires SubRecordsOk(subs, f) && r in subs && !f'.Subscribing? && (f.Subscribing? ==> f.rec == r)
    ensures SubRecordsOk(subs - {r}, f')
    ensures SubHandles(subs - {r}) == SubHandles(subs) - HandleSet(subs[r].handle)
    ensures HandleSet(subs[r].handle) <= SubHandles(subs)
  {
    assert forall h :: h in SubHandles(subs) && Some(h) != subs[r].handle ==> h in SubHandles(subs - {r}) by {
      forall h | h in SubHandles(subs) && Some(h) != subs[r].handle ensures h in SubHandles(subs - {r}) {
        var q :| q in subs && subs[q].handle == Some(h);
        assert (subs - {r})[q].handle == Some(h);
      }
    }
  }

  lemma GrantSubRecords(subs: map<nat, Sub>, f: Frame, b: Sub)
    requires f.Subscribing? && f.rec in subs && SubRecordsOk(subs, f) && b.handle.Some?
    requires b.handle.value !in SubHandles(subs)
    ensures SubRecordsOk(subs[f.rec := b], NoFrame)
    ensures SubHandles(subs[f.rec := b]) == SubHandles(subs) + {b.handle.value}
  {
    var m := subs[f.rec := b];
    assert forall q :: q in m && q != f.rec ==> m[q] == subs[q] && m[q].handle.value in SubHandles(subs);
    assert m[f.rec].handle == b.handle;
    assert forall h :: h in SubHandles(subs) ==> h in SubHandles(m) by {
      forall h | h in SubHandles(subs) ensures h in SubHandles(m) {
        var q :| q in subs && subs[q].handle == Some(h);
        assert m[q].handle == Some(h);
      }
    }
  }

  lemma NewSubHandle(live: set<Handle>, dropping: set<Handle>, leaving: set<Handle>, gone: set<Handle>, created: nat)
    requires SubHandlesOk(live, dropping, leaving, gone, created)
    ensures SubHandlesOk(live + {created}, dropping, leaving, gone, created + 1)
    ensures dropping == {} ==> SubHandlesOk(live, {created}, leaving, gone, created + 1)
    ensures created !in live
  {
  }

  lemma MoveSubHandle(live: set<Handle>, dropping: set<Handle>, leaving: set<Handle>, gone: set<Handle>, created: nat,
                      hs: set<Handle>)
    requires SubHandlesOk(live, dropping, leaving, gone, created)
    ensures hs <= live && dropping == {} ==> SubHandlesOk(live - hs, hs, leaving, gone, created)
    ensures SubHandlesOk(live, {}, leaving, gone + dropping, created)
  {
  }

  lemma CommitFoundKept(l: Limits, pending: map<nat, Pending>, t: Table, r: nat)
    requires TableOk(l, pending, t, false, false) && t.frame.Holding?
    requires r in t.subs && t.subs[r].key == t.frame.key
    ensures TableOk(l, pending, t.(subs := t.subs[r := t.subs[r].(refs := t.subs[r].refs + 1)], frame := NoFrame), false, false)
  {
    hide LinksOk, HandlesOk, ClientKeysOk, SubKeysOk, SubHandlesOk, SubRecordsOk, FindSub;
    var b := t.subs[r].(refs := t.subs[r].refs + 1);
    SameClient(l, t, pending, r);
    RewriteLinks(pending, t, r, b, NoFrame);
    RewriteSubKeys(l, t.subs, t.nextSub, r, b);
    RewriteSubRecords(t.subs, t.frame, NoFrame, r, b);
  }

  lemma CommitNewKept(l: Limits, pending: map<nat, Pending>, t: Table)
    requires TableOk(l, pending, t, false, false) && t.frame.Holding? && !t.frame.existing
    ensures TableOk(l, pending, t.(subs := t.subs[t.nextSub := Sub(t.frame.key, t.frame.client, 1, None)],
                                   nextSub := t.nextSub + 1, frame := Subscribing(t.nextSub, t.frame.client)), false, false)
  {
    hide LinksOk, HandlesOk, ClientKeysOk, SubKeysOk, SubHandlesOk, SubRecordsOk, FindSub;
    var b := Sub(t.frame.key, t.frame.client, 1, None);
    AddSubKeys(l, t.subs, t.nextSub, b);
    AddLinks(pending, t, t.nextSub);
    AddSubRecords(t.subs, t.frame, t.nextSub, b);
  }

  lemma AbandonHolding(l: Limits, pending: map<nat, Pending>, t: Table)
    requires TableOk(l, pending, t, false, false) && t.frame.Holding?
    ensures TableOk(l, pending, t.(frame := Dropping(None, t.frame.client)), false, false)
  {
    hide HandlesOk, ClientKeysOk, SubKeysOk, SubHandlesOk, SubRecordsOk, PendingOk, SubClientsOk, RefsExact, FindSub;
    var f := Dropping(None, t.frame.client);
    SubRecordsFrame(t.subs, t.frame, f);
    RefsMove(pending, t.subs, t.held, t.frame, pending, t.subs, t.held, f, t.clients);
  }

  lemma SubscribeCommittedKept(l: Limits, pending: map<nat, Pending>, t: Table, serviceable: bool, ingests: bool)
    requires TableOk(l, pending, t, false, false) && t.frame.Holding?
    ensures TableOk(l, pending, SubscribeCommitted(t, FindSub(t.subs, t.frame.key), serviceable, ingests), false, false)
  {
    hide TableOk, FindSub;
    if FindSub(t.subs, t.frame.key) != None {
      FoundSub(t.subs, t.frame.key);
    }
    AbandonHolding(l, pending, t);
    if t.frame.existing && FindSub(t.subs, t.frame.key).Some? {
      CommitFoundKept(l, pending, t, FindSub(t.subs, t.frame.key).value);
    }
    if !t.frame.existing {
      CommitNewKept(l, pending, t);
    }
  }

  lemma GrantKept(l: Limits, pending: map<nat, Pending>, t: Table)
    requires TableOk(l, pending, t, false, false) && t.frame.Subscribing? && t.frame.rec in t.subs
    ensures TableOk(l, pending, SubscribeEnded(t, true, true), false, false)
  {
    hide LinksOk, HandlesOk, ClientKeysOk, SubKeysOk, SubHandlesOk, SubRecordsOk, FindSub;
    var r := t.frame.rec;
    var b := t.subs[r].(handle := Some(t.subCreated));
    NewSubHandle(SubHandles(t.subs), FrameHandle(t.frame), t.subLeaving, t.unsubscribed, t.subCreated);
    RefsPositive(pending, t, r);
    RewriteLinks(pending, t, r, b, NoFrame);
    RewriteSubKeys(l, t.subs, t.nextSub, r, b);
    GrantSubRecords(t.subs, t.frame, b);
    LinksSubCreated(pending, t.(subs := t.subs[r := b], frame := NoFrame), t.subCreated + 1);
  }

  lemma LinksSubCreated(pending: map<nat, Pending>, t: Table, n: nat)
    ensures LinksOk(pending, t.(subCreated := n)) <==> LinksOk(pending, t)
  {
    hide PendingOk, SubClientsOk, RefsExact, HoldersOk;
  }

  lemma RefsPositive(pending: map<nat, Pending>, t: Table, r: nat)
    requires LinksOk(pending, t) && r in t.subs
    ensures t.subs[r].refs > 0
  {
    hide PendingOk, RefsExact, HoldersOk;
  }

  /** The record goes and its reference moves to the frame. */
  lemma RemoveSubKept(l: Limits, pending: map<nat, Pending>, t: Table, r: nat, started: bool)
    requires TableOk(l, pending, t, started, false) && r in t.subs && t.subs[r].refs == 1
    requires t.frame == NoFrame || (t.frame.Subscribing? && t.frame.rec == r)
    ensures TableOk(l, pending, t.(subs := t.subs - {r}, frame := Dropping(t.subs[r].handle, t.subs[r].client)), started, false)
  {
    hide LinksOk, HandlesOk, ClientKeysOk, SubKeysOk, SubHandlesOk, SubRecordsOk, FindSub;
    var f := Dropping(t.subs[r].handle, t.subs[r].client);
    RemoveLinks(pending, t, r, f);
    RemoveSubKeys(l, t.subs, t.nextSub, r);
    RemoveSubRecords(t.subs, t.frame, f, r);
    MoveSubHandle(SubHandles(t.subs), {}, t.subLeaving, t.unsubscribed, t.subCreated, HandleSet(t.subs[r].handle));
  }

  /** The library's late handle goes to the frame as well. */
  lemma LateHandleKept(l: Limits, pending: map<nat, Pending>, t: Table, started: bool)
    requires TableOk(l, pending, t, started, false) && t.frame.Dropping? && t.frame.handle.None?
    ensures TableOk(l, pending, t.(subCreated := t.subCreated + 1, frame := Dropping(Some(t.subCreated), t.frame.client)),
                    started, false)
  {
    hide HandlesOk, ClientKeysOk, SubKeysOk, SubHandlesOk, SubRecordsOk, PendingOk, SubClientsOk, RefsExact, FindSub;
    var f := Dropping(Some(t.subCreated), t.frame.client);
    NewSubHandle(SubHandles(t.subs), FrameHandle(t.frame), t.subLeaving, t.unsubscribed, t.subCreated);
    SubRecordsFrame(t.subs, t.frame, f);
    RefsMove(pending, t.subs, t.held, t.frame, pending, t.subs, t.held, f, t.clients);
  }

  lemma SubscribingRecord(l: Limits, pending: map<nat, Pending>, t: Table)
    requires TableOk(l, pending, t, false, false) && t.frame.Subscribing?
    ensures t.frame.rec in t.subs && t.subs[t.frame.rec].refs == 1 && t.subs[t.frame.rec].handle == None
    ensures t.subs[t.frame.rec].client == t.frame.client
  {
  }

  lemma SubscribeEndedKept(l: Limits, pending: map<nat, Pending>, t: Table, serviceable: bool, ok: bool)
    requires TableOk(l, pending, t, false, false) && t.frame.Subscribing?
    ensures TableOk(l, pending, SubscribeEnded(t, serviceable, ok), false, false)
  {
    hide TableOk;
    SubscribingRecord(l, pending, t);
    if serviceable && ok {
      GrantKept(l, pending, t);
    } else {
      RemoveSubKept(l, pending, t, t.frame.rec, false);
      if ok {
        LateHandleKept(l, pending, t.(subs := t.subs - {t.frame.rec}, frame := Dropping(None, t.frame.client)), false);
      }
    }
  }

  lemma DropSubReference(l: Limits, pending: map<nat, Pending>, t: Table, r: nat, started: bool)
    requires TableOk(l, pending, t, started, false) && r in t.subs && t.subs[r].refs > 1 && t.frame == NoFrame
    ensures TableOk(l, pending, t.(subs := t.subs[r := t.subs[r].(refs := t.subs[r].refs - 1)],
                                   frame := Dropping(None, t.subs[r].client)), started, false)
  {
    hide LinksOk, HandlesOk, ClientKeysOk, SubKeysOk, SubHandlesOk, SubRecordsOk, FindSub;
    var b := t.subs[r].(refs := t.subs[r].refs - 1);
    var f := Dropping(None, b.client);
    RewriteLinks(pending, t, r, b, f);
    RewriteSubKeys(l, t.subs, t.nextSub, r, b);
    RewriteSubRecords(t.subs, t.frame, f, r, b);
  }

  lemma UnsubscribedKept(l: Limits, pending: map<nat, Pending>, t: Table, key: Key, started: bool)
    requires TableOk(l, pending, t, started, false) && t.frame == NoFrame
    ensures TableOk(l, pending, Unsubscribed(t, FindSub(t.subs, key)), started, false)
  {
    hide LinksOk, KeysOk, SubsOk, PhasesOk, FindSub;
    if FindSub(t.subs, key) != None {
      FoundSub(t.subs, key);
      var r := FindSub(t.subs, key).value;
      RefsPositive(pending, t, r);
      if t.subs[r].refs > 1 {
        DropSubReference(l, pending, t, r, started);
      } else {
        RemoveSubKept(l, pending, t, r, started);
      }
    }
  }

  lemma DropHandleKept(l: Limits, pending: map<nat, Pending>, t: Table, started: bool, detached: bool)
    requires TableOk(l, pending, t, started, detached) && t.frame.Dropping? && t.frame.handle.Some?
    ensures TableOk(l, pending, t.(unsubscribed := t.unsubscribed + {t.frame.handle.value},
                                   frame := t.frame.(handle := None)), started, detached)
  {
    hide HandlesOk, ClientKeysOk, SubKeysOk, SubHandlesOk, SubRecordsOk, PendingOk, SubClientsOk, RefsExact, FindSub;
    var f := t.frame.(handle := None);
    MoveSubHandle(SubHandles(t.subs), FrameHandle(t.frame), t.subLeaving, t.unsubscribed, t.subCreated, {});
    SubRecordsFrame(t.subs, t.frame, f);
    if !detached {
      RefsMove(pending, t.subs, t.held, t.frame, pending, t.subs, t.held, f, t.clients);
    }
  }

  // --------------------------------------------------- the other steps

  lemma TableStepKept(l: Limits, s: State, e: TableStep)
    requires TableInv(l, s) && ControlOk(s) && TableEnabled(l, s, e)
    ensures TableInv(l, ApplyTable(l, s, e))
  {
    TableStepPhase(l, s, e);
    hide TableOk, ControlOk, FindSub;
    var p, t := s.req.pending, s.table;
    match e
    case AcquireExisting(key, forSub) =>
      FoundClient(t.clients, key);
      hide FindClient;
      AcquireFoundKept(l, p, t, FindClient(t.clients, key).value, forSub);
    case AcquireBegin(key, forSub) => AcquireBeginKept(l, p, t, key, forSub);
    case AcquireRefused => LeaveFrame(l, p, t);
    case AcquireEnd(ok) =>
      if ok && Serviceable(s) {
        AcquireNewKept(l, p, t);
      } else {
        AcquireFailKept(l, p, t, Serviceable(s), ok);
      }
    case Release(h, forSub) =>
      if s.detached {
        LateReleaseKept(l, p, t, h, forSub);
      } else {
        ReleasedKept(l, p, t, h, forSub, s.teardownStarted);
      }
    case SubscribeBegin(key) =>
      if Serviceable(s) && s.ingestsInstances {
        SubscribeBegunKept(l, p, t, key);
      }
    case SubscribeCommit => SubscribeCommittedKept(l, p, t, Serviceable(s), s.ingestsInstances);
    case SubscribeEnd(ok) => SubscribeEndedKept(l, p, t, Serviceable(s), ok);
    case Unsubscribe(key) =>
      if s.detached {
        LateUnsubscribe(l, p, t, key);
      } else {
        UnsubscribedKept(l, p, t, key, s.teardownStarted);
      }
    case DropHandle => DropHandleKept(l, p, t, s.teardownStarted, s.detached);
  }

  /** Steps that need an open transport or an inner frame come before teardown. */
  lemma TableStepPhase(l: Limits, s: State, e: TableStep)
    requires TableInv(l, s) && ControlOk(s) && TableEnabled(l, s, e)
    ensures s.teardownStarted || s.detached ==> e.Release? || e.Unsubscribe? || e.DropHandle? || e.SubscribeBegin?
    ensures Serviceable(s) ==> !s.teardownStarted && !s.detached
    ensures CreationOk(s.table.creation, s.table.frame)
  {
    hide KeysOk, SubsOk, LinksOk;
    if s.table.creation.Creating? {
      CreationFrame(l, s.table);
    }
  }

  lemma CreationFrame(l: Limits, t: Table)
    requires KeysOk(l, t)
    ensures CreationOk(t.creation, t.frame)
  {
  }

  lemma LateReleaseKept(l: Limits, pending: map<nat, Pending>, t: Table, h: Handle, forSub: bool)
    requires TableOk(l, pending, t, true, true)
    requires forSub ==> t.frame == Dropping(None, h)
    ensures TableOk(l, pending, Released(t, h, forSub), true, true)
  {
    hide HandlesOk, ClientKeysOk, SubKeysOk, SubHandlesOk;
  }

  lemma LateUnsubscribe(l: Limits, pending: map<nat, Pending>, t: Table, key: Key)
    requires TableOk(l, pending, t, true, true)
    ensures Unsubscribed(t, FindSub(t.subs, key)) == t
  {
  }
}
