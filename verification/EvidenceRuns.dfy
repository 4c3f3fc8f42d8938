/** Whole runs of the evidence registry. */
module EvidenceRuns {
  import opened Totals
  import opened ReportHistory
  import opened EvidenceModel

  /** Outstanding leases carry distinct sequence numbers that have been issued. */
  predicate LatestOk(latest: map<Key, nat>, next: nat) {
    && |latest| <= MAX_ACTIVE_OBSERVATIONS
    && (forall k :: k in latest ==> latest[k] <= next)
    && (forall j, k :: j in latest && k in latest && j != k ==> latest[j] != latest[k])
  }

  /** No sequence number was accepted twice, those of one key increase, and a lease that
      is outstanding is newer than everything accepted for its key. */
  predicate AcceptedOk(accepted: seq<Observation>, latest: map<Key, nat>, next: nat) {
    && (forall i :: 0 <= i < |accepted| ==> accepted[i].sequence <= next)
    && (forall i, j :: 0 <= i < j < |accepted| ==> accepted[i].sequence != accepted[j].sequence)
    && (forall i, j :: 0 <= i < j < |accepted| && accepted[i].key == accepted[j].key ==> accepted[i].sequence < accepted[j].sequence)
    && (forall i, k :: 0 <= i < |accepted| && k in latest ==> accepted[i].sequence != latest[k])
    && (forall i :: 0 <= i < |accepted| && accepted[i].key in latest ==> accepted[i].sequence < latest[accepted[i].key])
  }

  ghost predicate HistoryOk(es: seq<Entry>, all: map<Config, Report>) {
    && Distinct(es) && |es| <= MAX_SOURCE_CONFIGURATIONS
    && forall c: Config :: Lookup(es, c).Some? ==> c in all && (!Reduced(Lookup(es, c).value) ==> !Reduced(all[c]))
  }

  /** Every bounded history is distinct, within its bound, and knows no full report that
      the unbounded map does not have. */
  ghost predicate EvidenceOk(e: Evidence) {
    forall scope: SourceScope :: HistoryOk(History(e.sources, scope), Everything(e.all, scope))
  }

  ghost predicate Inv(s: State) {
    && LatestOk(s.latest, s.next)
    && AcceptedOk(s.accepted, s.latest, s.next)
    && |s.operations| <= MAX_ACTIVE_OBSERVATIONS
    && EvidenceOk(s.evidence)
    && s.next <= MAX_SEQUENCE
  }

  // ------------------------------------------------------------ preservation

  lemma BeginOk(s: State, key: Key, evicted: Key)
    requires LatestOk(s.latest, s.next) && AcceptedOk(s.accepted, s.latest, s.next)
    requires MustEvict(s.latest, key) ==> evicted in s.latest
    ensures var t := ApplyBegin(s, key, evicted); LatestOk(t.latest, t.next) && AcceptedOk(s.accepted, t.latest, t.next)
  {
    hide LatestOk, AcceptedOk;
    SmallerSize(s.latest, evicted);
    DropOk(s.accepted, s.latest, s.next, evicted);
    LatestSize(s.latest, s.next);
    var kept := if MustEvict(s.latest, key) then s.latest - {evicted} else s.latest;
    IssueOk(s.accepted, kept, s.next, key);
  }

  lemma LatestSize(latest: map<Key, nat>, next: nat)
    requires LatestOk(latest, next)
    ensures |latest| <= MAX_ACTIVE_OBSERVATIONS
  {
  }

  lemma IssueOk(accepted: seq<Observation>, latest: map<Key, nat>, next: nat, key: Key)
    requires LatestOk(latest, next) && AcceptedOk(accepted, latest, next)
    requires key in latest || |latest| < MAX_ACTIVE_OBSERVATIONS
    ensures LatestOk(latest[key := next + 1], next + 1) && AcceptedOk(accepted, latest[key := next + 1], next + 1)
  {
    var t := latest[key := next + 1];
    assert t.Keys == latest.Keys + {key};
    assert |t| == |t.Keys| && |latest| == |latest.Keys|;
  }

  lemma SmallerSize<K, V>(m: map<K, V>, k: K)
    ensures |m - {k}| == if k in m then |m| - 1 else |m|
  {
    assert (m - {k}).Keys == m.Keys - {k};
    assert |m - {k}| == |(m - {k}).Keys| && |m| == |m.Keys|;
  }

  lemma DropOk(accepted: seq<Observation>, latest: map<Key, nat>, next: nat, key: Key)
    requires LatestOk(latest, next) && AcceptedOk(accepted, latest, next)
    ensures LatestOk(latest - {key}, next) && AcceptedOk(accepted, latest - {key}, next)
  {
    SmallerSize(latest, key);
  }

  lemma AbandonOk(accepted: seq<Observation>, latest: map<Key, nat>, next: nat, o: Observation)
    requires LatestOk(latest, next) && AcceptedOk(accepted, latest, next)
    ensures LatestOk(Abandoned(latest, o), next) && AcceptedOk(accepted, Abandoned(latest, o), next)
  {
    DropOk(accepted, latest, next, o.key);
  }

  lemma AcceptOk(accepted: seq<Observation>, latest: map<Key, nat>, next: nat, o: Observation)
    requires LatestOk(latest, next) && AcceptedOk(accepted, latest, next) && Current(latest, o)
    ensures LatestOk(latest - {o.key}, next) && AcceptedOk(accepted + [o], latest - {o.key}, next)
  {
    SmallerSize(latest, o.key);
  }

  lemma EnteredSize(operations: map<string, Lease>, id: string, lease: Lease)
    ensures |Entered(operations, id, lease)| <= |operations| + 1
  {
    assert Entered(operations, id, lease).Keys == operations.Keys + {id};
    assert |operations| == |operations.Keys|;
    assert |Entered(operations, id, lease)| == |Entered(operations, id, lease).Keys|;
  }

  lemma LeaseOk(s: State, id: string, lease: Lease, victim: string)
    requires LatestOk(s.latest, s.next) && AcceptedOk(s.accepted, s.latest, s.next)
    requires |s.operations| <= MAX_ACTIVE_OBSERVATIONS
    requires Current(s.latest, lease.observation) && |Entered(s.operations, id, lease)| > MAX_ACTIVE_OBSERVATIONS ==>
               victim in Entered(s.operations, id, lease)
    ensures var t := ApplyLease(s, id, lease, victim);
            LatestOk(t.latest, s.next) && AcceptedOk(s.accepted, t.latest, s.next) && |t.operations| <= MAX_ACTIVE_OBSERVATIONS
  {
    hide LatestOk, AcceptedOk, Current, Abandoned;
    var operations := Entered(s.operations, id, lease);
    EnteredSize(s.operations, id, lease);
    SmallerSize(operations, victim);
    if id in s.operations {
      AbandonOk(s.accepted, s.latest, s.next, s.operations[id].observation);
    }
    if victim in operations {
      AbandonOk(s.accepted, Replaced(s.latest, s.operations, id), s.next, operations[victim].observation);
    }
  }

  lemma StoredOk(e: Evidence, selected: map<SourceScope, Config>, scope: SourceScope, c: Option<Config>, r: Report)
    requires EvidenceOk(e)
    ensures EvidenceOk(Stored(e, selected, scope, c, r))
  {
    if c.Some? {
      var es, all := History(e.sources, scope), Everything(e.all, scope);
      var p := Protected(selected, scope);
      assert HistoryOk(es, all);
      HistoryStored(es, all, c.value, r, p);
      var e' := Stored(e, selected, scope, c, r);
      hide HistoryOk, Insert, Upsert;
      forall other: SourceScope ensures HistoryOk(History(e'.sources, other), Everything(e'.all, other)) {
        if other != scope {
          assert History(e'.sources, other) == History(e.sources, other) && Everything(e'.all, other) == Everything(e.all, other);
        }
      }
    }
  }

  lemma HistoryStored(es: seq<Entry>, all: map<Config, Report>, c: Config, r: Report, p: Option<Config>)
    requires HistoryOk(es, all)
    ensures HistoryOk(Insert(es, c, r, p), Upsert(all, c, r))
  {
    InsertExact(es, c, r, p);
    hide Insert, Lookup, Evicted;
  }

  lemma RecordedOk(e: Evidence, selected: map<SourceScope, Config>, o: Observation, outcome: Outcome)
    requires EvidenceOk(e)
    ensures EvidenceOk(Recorded(e, selected, o, outcome))
  {
    hide Stored, HistoryOk;
    match o.key.target
    case L1Connectivity => StoredOk(e, selected, L1, o.key.configuration, SourceReport(o, outcome));
    case Source(scope) => StoredOk(e, selected, scope, o.key.configuration, SourceReport(o, outcome));
    case OfModule(_) =>
    case LastKnown(_) =>
  }

  lemma CompleteOk(s: State, o: Observation, outcome: Outcome)
    requires Inv(s)
    ensures Inv(ApplyComplete(s, o, outcome))
  {
    hide LatestOk, AcceptedOk, EvidenceOk, Recorded;
    if Current(s.latest, o) {
      AcceptOk(s.accepted, s.latest, s.next, o);
      RecordedOk(s.evidence, s.selected, o, outcome);
    }
  }

  lemma StepInv(s: State, e: Step)
    requires Inv(s) && Enabled(s, e)
    ensures Inv(Apply(s, e))
  {
    hide LatestOk, AcceptedOk, EvidenceOk, ApplyComplete, Current, Entered, Abandoned, OldestLease;
    match e
    case Begin(key, evicted) => BeginOk(s, key, evicted);
    case Abandon(o) => AbandonOk(s.accepted, s.latest, s.next, o);
    case Track(o, generation, op, domain, methodName, victim) => TrackOk(s, o, generation, op, domain, methodName, victim);
    case Complete(o, outcome) => CompleteOk(s, o, outcome);
    case FinishOperation(op) => FinishOk(s, op);
    case Refresh(_) =>
  }

  lemma TrackOk(s: State, o: Observation, generation: Option<nat>, op: Operation, domain: string, methodName: string, victim: string)
    requires Inv(s) && Enabled(s, Track(o, generation, op, domain, methodName, victim))
    ensures Inv(ApplyTrack(s, o, generation, op, domain, methodName, victim))
  {
    hide LatestOk, AcceptedOk, EvidenceOk, ApplyLease, Abandoned;
    AbandonOk(s.accepted, s.latest, s.next, o);
    if op.id.Some? && Matches(op, op.id.value, generation, domain, methodName) {
      var lease := Lease(o, generation, domain, methodName);
      LeaseOk(s, op.id.value, lease, victim);
      LeaseFrame(s, op.id.value, lease, victim);
    }
  }

  lemma LeaseFrame(s: State, id: string, lease: Lease, victim: string)
    ensures var t := ApplyLease(s, id, lease, victim);
            t.evidence == s.evidence && t.accepted == s.accepted && t.next == s.next && t.selected == s.selected
  {
  }

  lemma FinishOk(s: State, op: Operation)
    requires Inv(s)
    ensures Inv(ApplyFinish(s, op))
  {
    hide LatestOk, AcceptedOk, EvidenceOk, ApplyComplete, Matches, Terminal;
    if Settles(s, op) {
      SmallerSize(s.operations, op.id.value);
      CompleteOk(s.(operations := s.operations - {op.id.value}), s.operations[op.id.value].observation, OperationOutcome(op));
    }
  }

  ghost predicate IsRun(ss: seq<State>, es: seq<Step>) {
    && |ss| == |es| + 1
    && ss[0] == Initial()
    && forall i :: 0 <= i < |es| ==> Enabled(ss[i], es[i]) && ss[i + 1] == Apply(ss[i], es[i])
  }

  lemma InitialInv()
    ensures Inv(Initial())
  {
    var e := Initial().evidence;
    forall scope: SourceScope ensures HistoryOk(History(e.sources, scope), Everything(e.all, scope)) {
      assert History(e.sources, scope) == [];
    }
  }

  lemma {:induction false} RunInv(ss: seq<State>, es: seq<Step>, i: nat)
    requires IsRun(ss, es) && i < |ss|
    ensures Inv(ss[i])
    decreases i
  {
    hide Inv, Enabled, Apply;
    if i == 0 {
      InitialInv();
    } else {
      RunInv(ss, es, i - 1);
      StepInv(ss[i - 1], es[i - 1]);
    }
  }

  // ------------------------------------------------------------- main results

  /** In every run: the accepted sequence numbers of one key strictly increase, none is
      accepted twice, and both lease tables stay within 64. */
  lemma SequencesIncrease(ss: seq<State>, es: seq<Step>, n: nat)
    requires IsRun(ss, es) && n < |ss|
    ensures var a := ss[n].accepted;
            && (forall i, j :: 0 <= i < j < |a| ==> a[i].sequence != a[j].sequence)
            && (forall i, j :: 0 <= i < j < |a| && a[i].key == a[j].key ==> a[i].sequence < a[j].sequence)
    ensures |ss[n].latest| <= 64 && |ss[n].operations| <= 64
  {
    hide IsRun, EvidenceOk;
    RunInv(ss, es, n);
  }

  /** The observation whose completion a step lets through, if any. */
  function Accepts(s: State, e: Step): Option<Observation> {
    match e
    case Complete(o, _) => if Current(s.latest, o) then Some(o) else None
    case FinishOperation(op) =>
      if Settles(s, op) && Current(s.latest, s.operations[op.id.value].observation)
      then Some(s.operations[op.id.value].observation) else None
    case _ => None
  }

  /** Evidence changes only in a step that accepts an observation, and a terminal
      operation accepts nothing but the observation it was tracked with. */
  lemma EvidenceNeedsAcceptance(s: State, e: Step)
    ensures Accepts(s, e).None? ==> Apply(s, e).evidence == s.evidence && Apply(s, e).accepted == s.accepted
    ensures Accepts(s, e).Some? ==> Apply(s, e).accepted == s.accepted + [Accepts(s, e).value]
    ensures Accepts(s, e).Some? && e.FinishOperation? ==>
              && e.operation.id.Some? && e.operation.id.value in s.operations
              && Accepts(s, e).value == s.operations[e.operation.id.value].observation
              && e.operation.id.value !in Apply(s, e).operations
  {
    hide Recorded, Matches, Terminal, Current;
    match e
    case Begin(_, _) =>
    case Abandon(_) =>
    case Track(o, generation, op, domain, methodName, victim) =>
      if op.id.Some? {
        LeaseFrame(s, op.id.value, Lease(o, generation, domain, methodName), victim);
      }
    case Complete(_, _) =>
    case FinishOperation(_) =>
    case Refresh(_) =>
  }

  lemma {:induction false} AcceptedGrows(ss: seq<State>, es: seq<Step>, i: nat, j: nat)
    requires IsRun(ss, es) && i <= j < |ss|
    ensures |ss[i].accepted| <= |ss[j].accepted| && ss[j].accepted[..|ss[i].accepted|] == ss[i].accepted
    decreases j - i
  {
    hide Enabled, Apply;
    if i < j {
      AcceptedGrows(ss, es, i, j - 1);
      EvidenceNeedsAcceptance(ss[j - 1], es[j - 1]);
    }
  }

  /** Of two steps of a run, at most one accepts an observation with a given sequence
      number: whatever was tracked, evidence changes for it at most once, and of two
      acceptances for one key the later one is for the newer observation. */
  lemma ChangesAtMostOnce(ss: seq<State>, es: seq<Step>, i: nat, j: nat)
    requires IsRun(ss, es) && i < j < |es|
    requires Accepts(ss[i], es[i]).Some? && Accepts(ss[j], es[j]).Some?
    ensures Accepts(ss[i], es[i]).value.sequence != Accepts(ss[j], es[j]).value.sequence
    ensures Accepts(ss[i], es[i]).value.key == Accepts(ss[j], es[j]).value.key ==>
              Accepts(ss[i], es[i]).value.sequence < Accepts(ss[j], es[j]).value.sequence
  {
    hide Enabled, Apply, Accepts;
    EvidenceNeedsAcceptance(ss[i], es[i]);
    EvidenceNeedsAcceptance(ss[j], es[j]);
    AcceptedGrows(ss, es, i + 1, j);
    SequencesIncrease(ss, es, j + 1);
    var m, n := |ss[i].accepted|, |ss[j].accepted|;
    assert ss[j].accepted[m] == ss[i + 1].accepted[m];
    assert ss[i + 1] == Apply(ss[i], es[i]) && ss[j + 1] == Apply(ss[j], es[j]);
    assert ss[j + 1].accepted[m] == Accepts(ss[i], es[i]).value;
    assert ss[j + 1].accepted[n] == Accepts(ss[j], es[j]).value;
  }

  // ------------------------------------------------------------ pieces of evidence

  /** Requests observe only keys of the issued kinds. */
  lemma RequestsAreIssued(methodName: string, identity: Option<Config>)
    ensures RequestKey(methodName, identity).Some? ==> Issued(RequestKey(methodName, identity).value)
  {
  }

  predicate AllIssued(latest: map<Key, nat>) {
    forall k :: k in latest ==> Issued(k)
  }

  lemma IssuedStep(s: State, e: Step)
    requires AllIssued(s.latest) && Enabled(s, e)
    ensures AllIssued(Apply(s, e).latest)
  {
    hide Recorded, Matches, Terminal, Issued, Oldest, OldestLease, OperationOutcome;
    match e
    case Begin(_, _) =>
    case Abandon(_) =>
    case Track(_, _, _, _, _, _) =>
    case Complete(_, _) =>
    case FinishOperation(_) =>
    case Refresh(_) =>
  }

  lemma {:induction false} RunIssued(ss: seq<State>, es: seq<Step>, i: nat)
    requires IsRun(ss, es) && i < |ss|
    ensures AllIssued(ss[i].latest)
    decreases i
  {
    hide Enabled, Apply, AllIssued;
    if i == 0 {
      NothingIssued();
    } else {
      RunIssued(ss, es, i - 1);
      IssuedStep(ss[i - 1], es[i - 1]);
    }
  }

  lemma NothingIssued()
    ensures AllIssued(Initial().latest)
  {
  }

  /** A piece of evidence that observations compete for. */
  datatype Slot =
    | ModuleSlot(moduleScope: ModuleScope)
    | LastKnownSlot(lastScope: LastKnownScope)
    | SourceSlot(scope: SourceScope, configuration: Config)
    | NoSlot

  /** The piece that an accepted observation writes. */
  function SlotOf(key: Key): Slot {
    match key.target
    case OfModule(m) => ModuleSlot(m)
    case LastKnown(k) => LastKnownSlot(k)
    case L1Connectivity => if key.configuration.Some? then SourceSlot(L1, key.configuration.value) else NoSlot
    case Source(scope) => if key.configuration.Some? then SourceSlot(scope, key.configuration.value) else NoSlot
  }

  /** Observations that are issued under different keys write different pieces. */
  lemma SlotsAreKeys(a: Key, b: Key)
    requires Issued(a) && Issued(b)
    ensures SlotOf(a) != NoSlot
    ensures SlotOf(a) == SlotOf(b) ==> a == b
  {
  }

  datatype Piece = ModulePiece(info: ModuleReport) | DetailPiece(detail: string) | SourcePiece(report: Report)

  /** What the registry holds in a slot. */
  function Content(e: Evidence, slot: Slot): Option<Piece> {
    match slot
    case ModuleSlot(m) => if m in e.modules then Some(ModulePiece(e.modules[m])) else None
    case LastKnownSlot(k) => if k in e.lastKnown then Some(DetailPiece(e.lastKnown[k])) else None
    case SourceSlot(scope, c) =>
      (match Lookup(History(e.sources, scope), c) case None => None case Some(r) => Some(SourcePiece(r)))
    case NoSlot => None
  }

  lemma AcceptedIssued(s: State, e: Step)
    requires AllIssued(s.latest)
    ensures Accepts(s, e).Some? ==> Issued(Accepts(s, e).value.key)
  {
    hide Issued, Matches, Terminal;
  }

  /** No late completion overwrites newer evidence: of two steps of a run that accept an
      observation for the same piece of evidence, the later one accepts the newer
      observation. */
  lemma LaterIsNewer(ss: seq<State>, es: seq<Step>, i: nat, j: nat)
    requires IsRun(ss, es) && i < j < |es|
    requires Accepts(ss[i], es[i]).Some? && Accepts(ss[j], es[j]).Some?
    requires SlotOf(Accepts(ss[i], es[i]).value.key) == SlotOf(Accepts(ss[j], es[j]).value.key)
    ensures Accepts(ss[i], es[i]).value.sequence < Accepts(ss[j], es[j]).value.sequence
  {
    hide Enabled, Apply, Accepts, SlotOf, AllIssued;
    RunIssued(ss, es, i);
    RunIssued(ss, es, j);
    AcceptedIssued(ss[i], es[i]);
    AcceptedIssued(ss[j], es[j]);
    SlotsAreKeys(Accepts(ss[i], es[i]).value.key, Accepts(ss[j], es[j]).value.key);
    ChangesAtMostOnce(ss, es, i, j);
  }

  /** A step that accepts an observation for another piece of evidence leaves this one
      alone, or evicts it from the full history of its scope. */
  lemma OtherPiecesStay(s: State, e: Step, slot: Slot)
    requires Inv(s)
    requires Accepts(s, e).Some? ==> SlotOf(Accepts(s, e).value.key) != slot
    ensures Content(Apply(s, e).evidence, slot) == Content(s.evidence, slot)
            || (slot.SourceSlot? && Content(Apply(s, e).evidence, slot).None?)
  {
    EvidenceNeedsAcceptance(s, e);
    match slot
    case SourceSlot(scope, c) => OtherReportsStay(s, e, scope, c);
    case ModuleSlot(m) => OtherScopesStay(s, e, slot);
    case LastKnownSlot(k) => OtherScopesStay(s, e, slot);
    case NoSlot =>
  }

  lemma OtherScopesStay(s: State, e: Step, slot: Slot)
    requires slot.ModuleSlot? || slot.LastKnownSlot?
    requires Accepts(s, e).Some? ==> SlotOf(Accepts(s, e).value.key) != slot
    ensures Content(Apply(s, e).evidence, slot) == Content(s.evidence, slot)
  {
    EvidenceNeedsAcceptance(s, e);
    hide Matches, Terminal, Current, OperationOutcome, SourceReport, Lookup, Insert, Upsert;
    if Accepts(s, e).Some? {
      match e
      case Complete(o, outcome) => RecordedScopes(s.evidence, s.selected, o, outcome, slot);
      case FinishOperation(op) =>
        RecordedScopes(s.evidence, s.selected, s.operations[op.id.value].observation, OperationOutcome(op), slot);
      case _ =>
    }
  }

  lemma RecordedScopes(e: Evidence, selected: map<SourceScope, Config>, o: Observation, outcome: Outcome, slot: Slot)
    requires (slot.ModuleSlot? || slot.LastKnownSlot?) && SlotOf(o.key) != slot
    ensures Content(Recorded(e, selected, o, outcome), slot) == Content(e, slot)
  {
    hide SourceReport, Lookup, Insert, Upsert;
    match o.key.target
    case L1Connectivity =>
    case Source(_) =>
    case OfModule(_) =>
    case LastKnown(_) =>
  }

  lemma OtherReportsStay(s: State, e: Step, scope: SourceScope, c: Config)
    requires Inv(s)
    requires Accepts(s, e).Some? ==> SlotOf(Accepts(s, e).value.key) != SourceSlot(scope, c)
    ensures var l := Lookup(History(Apply(s, e).evidence.sources, scope), c);
            l == Lookup(History(s.evidence.sources, scope), c) || l.None?
  {
    hide Inv, Apply, Accepts, Insert, Lookup, SourceReport, Evicted;
    ScopeOk(s, scope);
    StoresExact(s, e, scope);
    if Stores(s, e).Some? && Stores(s, e).value.0 == scope {
      InsertExact(History(s.evidence.sources, scope), Stores(s, e).value.1, Stores(s, e).value.2, Protected(s.selected, scope));
    }
  }

  /** Whenever a piece of evidence changes in a run, it was evicted from a full history,
      or the step accepted an observation for it that is newer than every one accepted
      for it before. */
  lemma NewestObservationWins(ss: seq<State>, es: seq<Step>, i: nat, j: nat, slot: Slot)
    requires IsRun(ss, es) && i < j < |es|
    requires Accepts(ss[i], es[i]).Some? && SlotOf(Accepts(ss[i], es[i]).value.key) == slot
    requires Content(ss[j + 1].evidence, slot) != Content(ss[j].evidence, slot)
    ensures (slot.SourceSlot? && Content(ss[j + 1].evidence, slot).None?)
            || (&& Accepts(ss[j], es[j]).Some? && SlotOf(Accepts(ss[j], es[j]).value.key) == slot
                && Accepts(ss[i], es[i]).value.sequence < Accepts(ss[j], es[j]).value.sequence)
  {
    hide Inv, Enabled, Apply, Accepts, SlotOf, Content;
    RunInv(ss, es, j);
    assert ss[j + 1] == Apply(ss[j], es[j]);
    if Accepts(ss[j], es[j]).Some? && SlotOf(Accepts(ss[j], es[j]).value.key) == slot {
      LaterIsNewer(ss, es, i, j);
    } else {
      OtherPiecesStay(ss[j], es[j], slot);
    }
  }

  /** The bounded histories of every reachable state. */
  lemma HistoriesBounded(ss: seq<State>, es: seq<Step>, n: nat, scope: SourceScope)
    requires IsRun(ss, es) && n < |ss|
    ensures Distinct(History(ss[n].evidence.sources, scope)) && |History(ss[n].evidence.sources, scope)| <= 8
  {
    hide IsRun;
    RunInv(ss, es, n);
    assert HistoryOk(History(ss[n].evidence.sources, scope), Everything(ss[n].evidence.all, scope));
  }

  /** The source report that a step stores, if any: scope, configuration and report. */
  function Stores(s: State, e: Step): Option<(SourceScope, Config, Report)> {
    match Accepts(s, e)
    case None => None
    case Some(o) =>
      var outcome := match e case Complete(_, outcome) => outcome
                             case FinishOperation(op) => if op.status.Some? then OperationOutcome(op) else Failure("")
                             case _ => Failure("");
      match SourceOf(o.key)
      case None => None
      case Some(scope) => Some((scope, o.key.configuration.value, SourceReport(o, outcome)))
  }

  /** Where an accepted observation puts a source report, if it does. */
  function SourceOf(key: Key): Option<SourceScope> {
    if key.configuration.None? then None
    else if key.target.L1Connectivity? then Some(L1)
    else if key.target.Source? then Some(key.target.scope)
    else None
  }

  /** One scope's history and unbounded map after a report for it. */
  ghost predicate Took(e: Evidence, e': Evidence, scope: SourceScope, c: Config, r: Report, p: Option<Config>) {
    && History(e'.sources, scope) == Insert(History(e.sources, scope), c, r, p)
    && Everything(e'.all, scope) == Upsert(Everything(e.all, scope), c, r)
  }

  ghost predicate Untouched(e: Evidence, e': Evidence, scope: SourceScope) {
    History(e'.sources, scope) == History(e.sources, scope) && Everything(e'.all, scope) == Everything(e.all, scope)
  }

  lemma StoredExact(e: Evidence, selected: map<SourceScope, Config>, at: SourceScope, c: Config, r: Report, scope: SourceScope)
    ensures var e' := Stored(e, selected, at, Some(c), r);
            if at == scope then Took(e, e', scope, c, r, Protected(selected, scope)) else Untouched(e, e', scope)
  {
    hide Insert, Upsert;
  }

  lemma RecordedExact(e: Evidence, selected: map<SourceScope, Config>, o: Observation, outcome: Outcome, scope: SourceScope)
    ensures var e' := Recorded(e, selected, o, outcome);
            if SourceOf(o.key) == Some(scope)
            then Took(e, e', scope, o.key.configuration.value, SourceReport(o, outcome), Protected(selected, scope))
            else Untouched(e, e', scope)
  {
    hide Took, SourceReport;
    var r := SourceReport(o, outcome);
    match o.key.target
    case L1Connectivity =>
      if o.key.configuration.Some? {
        StoredExact(e, selected, L1, o.key.configuration.value, r, scope);
      }
    case Source(at) =>
      if o.key.configuration.Some? {
        StoredExact(e, selected, at, o.key.configuration.value, r, scope);
      }
    case OfModule(_) =>
    case LastKnown(_) =>
  }

  /** What each step does to the reports of one scope. */
  lemma StoresExact(s: State, e: Step, scope: SourceScope)
    ensures var e' := Apply(s, e).evidence; var st := Stores(s, e);
            if st.Some? && st.value.0 == scope
            then Took(s.evidence, e', scope, st.value.1, st.value.2, Protected(s.selected, scope))
            else Untouched(s.evidence, e', scope)
  {
    EvidenceNeedsAcceptance(s, e);
    hide Matches, Terminal, Current, Recorded, Took, OperationOutcome, SourceReport;
    match e
    case Complete(o, outcome) => RecordedExact(s.evidence, s.selected, o, outcome, scope);
    case FinishOperation(op) =>
      if Settles(s, op) {
        RecordedExact(s.evidence, s.selected, s.operations[op.id.value].observation, OperationOutcome(op), scope);
      }
    case _ =>
  }

  /** The unbounded map takes the report of this step for its configuration. */
  predicate StoredNow(s: State, e: Step, scope: SourceScope, c: Config) {
    && Stores(s, e).Some? && Stores(s, e).value.0 == scope && Stores(s, e).value.1 == c
    && c in Everything(Apply(s, e).evidence.all, scope)
    && Everything(Apply(s, e).evidence.all, scope)[c] == Stores(s, e).value.2
  }

  predicate Agrees(e: Evidence, scope: SourceScope, c: Config) {
    && c in Everything(e.all, scope)
    && Lookup(History(e.sources, scope), c) == Some(Everything(e.all, scope)[c])
  }

  /** Exactly when one insertion leaves the bounded history and the unbounded map with
      the same report: not when a reduced report arrives for a configuration whose full
      report the history has lost. */
  lemma AgreementExact(es: seq<Entry>, all: map<Config, Report>, c: Config, r: Report, p: Option<Config>)
    requires HistoryOk(es, all)
    ensures Lookup(Insert(es, c, r, p), c) == Some(Upsert(all, c, r)[c])
            <==> !(Reduced(r) && c in all && !Reduced(all[c]) && Lookup(es, c) != Some(all[c]))
  {
    InsertExact(es, c, r, p);
    hide Insert, Lookup;
  }

  lemma ScopeOk(s: State, scope: SourceScope)
    requires Inv(s)
    ensures HistoryOk(History(s.evidence.sources, scope), Everything(s.evidence.all, scope))
  {
  }

  lemma AgreementBegins(s: State, e: Step, scope: SourceScope, c: Config)
    requires Inv(s) && StoredNow(s, e, scope, c)
    ensures Agrees(Apply(s, e).evidence, scope, c)
  {
    hide Inv, Apply, Stores;
    ScopeOk(s, scope);
    StoresExact(s, e, scope);
    var es, all, r := History(s.evidence.sources, scope), Everything(s.evidence.all, scope), Stores(s, e).value.2;
    InsertExact(es, c, r, Protected(s.selected, scope));
    hide Insert, Lookup;
  }

  lemma AgreementStays(s: State, e: Step, scope: SourceScope, c: Config)
    requires Inv(s) && Agrees(s.evidence, scope, c) && Protected(s.selected, scope) == Some(c)
    ensures Agrees(Apply(s, e).evidence, scope, c)
  {
    hide Inv, Apply, Stores;
    ScopeOk(s, scope);
    StoresExact(s, e, scope);
    if Stores(s, e).Some? && Stores(s, e).value.0 == scope {
      InsertExact(History(s.evidence.sources, scope), Stores(s, e).value.1, Stores(s, e).value.2, Some(c));
    }
    hide Insert, Lookup;
  }

  /** If the unbounded map took a report for `c` at step `i` and `c` has been the selected
      configuration of its scope ever since, the bounded history answers for `c` exactly
      as the unbounded map does. */
  lemma {:induction false} SelectedLookupAgrees(ss: seq<State>, es: seq<Step>, scope: SourceScope, c: Config, i: nat, j: nat)
    requires IsRun(ss, es) && i < j < |ss|
    requires StoredNow(ss[i], es[i], scope, c)
    requires forall k :: i < k < j ==> Protected(ss[k].selected, scope) == Some(c)
    ensures Agrees(ss[j].evidence, scope, c)
    decreases j
  {
    hide Enabled, Apply, Agrees, StoredNow, Inv;
    RunInv(ss, es, j - 1);
    if j == i + 1 {
      AgreementBegins(ss[i], es[i], scope, c);
    } else {
      SelectedLookupAgrees(ss, es, scope, c, i, j - 1);
      AgreementStays(ss[j - 1], es[j - 1], scope, c);
    }
  }
}
