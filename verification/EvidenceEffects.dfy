/** What every step of the registry leaves behind, told by what was observed: the piece of
    evidence an accepted observation writes, and which leases come and go. */
module EvidenceEffects {
  import opened Totals
  import opened ReportHistory
  import opened EvidenceModel
  import opened EvidenceRuns

  // ----------------------------------------------------------------- evidence

  /** The value a completion brings: its own, or the result of an operation whose status is
      "completed"; nothing for any other completion. */
  function ValueOf(e: Step): Option<Value> {
    match e
    case Complete(_, Success(v)) => Some(v)
    case FinishOperation(op) => if op.status == Some("completed") then op.result else None
    case _ => None
  }

  /** What is said of a completion without a value. */
  function DetailOf(e: Step): string {
    match e
    case Complete(_, Failure(d)) => d
    case FinishOperation(op) =>
      (match (op.error, op.terminalReason)
       case (Some(d), _) => d
       case (None, Some(d)) => d
       case (None, None) => "runtime operation ended with status `" + (if op.status.Some? then op.status.value else "") + "`")
    case _ => ""
  }

  predicate FullReport(p: Option<Piece>) {
    p.Some? && p.value.SourcePiece? && !(p.value.report.Reported? && p.value.report.value.reduced)
  }

  /** The content of the piece that the observation is for, given what it held before. */
  function ContentAfter(key: Key, value: Option<Value>, detail: string, before: Option<Piece>): Option<Piece> {
    match (key.target, value)
    case (OfModule(_), Some(v)) => Some(ModulePiece(ModuleReport(v)))
    case (OfModule(_), None) => Some(ModulePiece(ModuleFailed(detail)))
    case (LastKnown(_), Some(_)) => None
    case (LastKnown(_), None) => Some(DetailPiece(detail))
    case (L1Connectivity, Some(v)) => Some(SourcePiece(Connected(v)))
    case (L1Connectivity, None) => Some(SourcePiece(Failed("blockchain.connection", detail)))
    case (Source(_), Some(v)) => if v.reduced && FullReport(before) then before else Some(SourcePiece(Reported(v)))
    case (Source(L1), None) => Some(SourcePiece(Failed("l1", detail)))
    case (Source(Storage), None) => Some(SourcePiece(Failed("storage", detail)))
    case (Source(Delivery), None) => Some(SourcePiece(Failed("delivery", detail)))
  }

  lemma ModuleContent(e: Evidence, selected: map<SourceScope, Config>, o: Observation, outcome: Outcome, value: Option<Value>, detail: string)
    requires o.key.target.OfModule? || o.key.target.LastKnown?
    requires outcome == match value case Some(v) => Success(v) case None => Failure(detail)
    ensures Content(Recorded(e, selected, o, outcome), SlotOf(o.key)) == ContentAfter(o.key, value, detail, Content(e, SlotOf(o.key)))
  {
  }

  lemma ReportContent(e: Evidence, selected: map<SourceScope, Config>, o: Observation, outcome: Outcome, value: Option<Value>, detail: string)
    requires SourceOf(o.key).Some? && Distinct(History(e.sources, SourceOf(o.key).value)) && |History(e.sources, SourceOf(o.key).value)| <= 8
    requires outcome == match value case Some(v) => Success(v) case None => Failure(detail)
    ensures Content(Recorded(e, selected, o, outcome), SlotOf(o.key)) == ContentAfter(o.key, value, detail, Content(e, SlotOf(o.key)))
  {
    hide Insert, Lookup, Recorded, Evicted;
    var scope := SourceOf(o.key).value;
    var c := o.key.configuration.value;
    RecordedExact(e, selected, o, outcome, scope);
    InsertExact(History(e.sources, scope), c, SourceReport(o, outcome), Protected(selected, scope));
  }

  lemma RecordedContent(e: Evidence, selected: map<SourceScope, Config>, o: Observation, outcome: Outcome, value: Option<Value>, detail: string)
    requires Issued(o.key)
    requires forall scope :: Distinct(History(e.sources, scope)) && |History(e.sources, scope)| <= 8
    requires outcome == match value case Some(v) => Success(v) case None => Failure(detail)
    ensures Content(Recorded(e, selected, o, outcome), SlotOf(o.key)) == ContentAfter(o.key, value, detail, Content(e, SlotOf(o.key)))
  {
    hide Recorded, Content, ContentAfter, Distinct;
    if o.key.target.OfModule? || o.key.target.LastKnown? {
      ModuleContent(e, selected, o, outcome, value, detail);
    } else {
      ReportContent(e, selected, o, outcome, value, detail);
    }
  }

  lemma OutcomeIs(op: Operation)
    requires op.status.Some?
    ensures OperationOutcome(op) ==
            match ValueOf(FinishOperation(op)) case Some(v) => Success(v) case None => Failure(DetailOf(FinishOperation(op)))
  {
  }

  lemma ScopesOk(s: State)
    requires Inv(s)
    ensures forall scope :: Distinct(History(s.evidence.sources, scope)) && |History(s.evidence.sources, scope)| <= 8
  {
    forall scope ensures Distinct(History(s.evidence.sources, scope)) && |History(s.evidence.sources, scope)| <= 8 {
      ScopeOk(s, scope);
    }
  }

  lemma AcceptedEvidence(s: State, e: Step, o: Observation, outcome: Outcome)
    requires Accepts(s, e) == Some(o)
    requires outcome == if e.Complete? then e.outcome
                        else if e.FinishOperation? && e.operation.status.Some? then OperationOutcome(e.operation) else Failure("")
    ensures Apply(s, e).evidence == Recorded(s.evidence, s.selected, o, outcome)
  {
    hide Recorded, OperationOutcome, Matches, Terminal;
  }

  /** Every accepted observation leaves, in the piece of evidence it is for, exactly what it
      brought: a module's value or failure, nothing or a failure detail for what is last
      known, and a source report, which only gives way to a full one it would reduce. A
      runtime operation counts as a success if and only if it completed with a result. */
  lemma ContentExact(s: State, e: Step)
    requires Inv(s) && AllIssued(s.latest) && Accepts(s, e).Some?
    ensures var slot := SlotOf(Accepts(s, e).value.key);
            Content(Apply(s, e).evidence, slot) == ContentAfter(Accepts(s, e).value.key, ValueOf(e), DetailOf(e), Content(s.evidence, slot))
  {
    hide Inv, AllIssued, Accepts, Apply, Recorded, Content, ContentAfter, SlotOf, Issued, Distinct, OperationOutcome;
    var o := Accepts(s, e).value;
    AcceptedIssued(s, e);
    ScopesOk(s);
    AcceptsWhat(s, e);
    match e
    case Complete(_, outcome) =>
      AcceptedEvidence(s, e, o, outcome);
      RecordedContent(s.evidence, s.selected, o, outcome, ValueOf(e), DetailOf(e));
    case FinishOperation(op) =>
      OutcomeIs(op);
      AcceptedEvidence(s, e, o, OperationOutcome(op));
      RecordedContent(s.evidence, s.selected, o, OperationOutcome(op), ValueOf(e), DetailOf(e));
  }

  lemma AcceptsWhat(s: State, e: Step)
    ensures Accepts(s, e).Some? ==> e.Complete? || (e.FinishOperation? && e.operation.status.Some?)
  {
    hide Matches, Terminal, Current;
  }

  /** In every run a piece of evidence that no later step evicts or writes is what the
      newest accepted observation for it left. */
  lemma {:induction false} EvidenceStays(ss: seq<State>, es: seq<Step>, i: nat, j: nat, slot: Slot)
    requires IsRun(ss, es) && i < j < |ss| && Accepts(ss[i], es[i]).Some? && SlotOf(Accepts(ss[i], es[i]).value.key) == slot
    requires forall k :: i < k < j ==> Accepts(ss[k], es[k]).Some? ==> SlotOf(Accepts(ss[k], es[k]).value.key) != slot
    ensures var left := ContentAfter(Accepts(ss[i], es[i]).value.key, ValueOf(es[i]), DetailOf(es[i]), Content(ss[i].evidence, slot));
            Content(ss[j].evidence, slot) == left || (slot.SourceSlot? && Content(ss[j].evidence, slot).None?)
    decreases j
  {
    hide Inv, Enabled, Apply, Accepts, SlotOf, Content, ContentAfter, AllIssued;
    RunInv(ss, es, j - 1);
    RunIssued(ss, es, j - 1);
    if i == j - 1 {
      ContentExact(ss[i], es[i]);
    } else {
      EvidenceStays(ss, es, i, j - 1, slot);
      OtherPiecesStay(ss[j - 1], es[j - 1], slot);
    }
  }

  // ------------------------------------------------------------------- leases

  /** The lease of this observation is the one in force. */
  predicate InForce(s: State, o: Observation) {
    o.key in s.latest && s.latest[o.key] == o.sequence
  }

  /** The operation is the one that was asked for. */
  predicate AsAsked(op: Operation, generation: Option<nat>, domain: string, methodName: string) {
    op.id.Some? && op.domain == Some(domain) && op.methodName == Some(methodName) && op.generation == generation
  }

  /** A terminal operation completes exactly the observation it is tracked with, and only if
      it is the operation that was asked for and the lease is in force. */
  lemma FinishAccepts(s: State, op: Operation, o: Observation)
    ensures Accepts(s, FinishOperation(op)) == Some(o) <==>
              && op.id.Some? && op.id.value in s.operations
              && op.status in {Some("completed"), Some("dispatched"), Some("failed"), Some("canceled"), Some("timed_out")}
              && var lease := s.operations[op.id.value];
              && AsAsked(op, lease.generation, lease.domain, lease.methodName)
              && lease.observation == o && InForce(s, o)
  {
  }

  /** The step enters this lease for the operation. */
  predicate Tracks(s: State, e: Step, id: string) {
    e.Track? && AsAsked(e.operation, e.generation, e.domain, e.methodName) && e.operation.id == Some(id) && InForce(s, e.observation)
  }

  /** There was no room for it, so this operation, the oldest, is given up. */
  predicate GivesUp(s: State, e: Step, id: string) {
    && e.Track? && e.operation.id.Some? && Tracks(s, e, e.operation.id.value)
    && e.operation.id.value !in s.operations && |s.operations| >= 64 && e.victim == id
  }

  /** The operations that are tracked after the step. */
  function OperationAfter(s: State, e: Step, id: string): Option<Lease> {
    var before := if id in s.operations then Some(s.operations[id]) else None;
    if GivesUp(s, e, id) then None
    else if Tracks(s, e, id) then Some(Lease(e.observation, e.generation, e.domain, e.methodName))
    else match e
      case FinishOperation(op) =>
        if && op.id == Some(id) && before.Some?
           && op.status in {Some("completed"), Some("dispatched"), Some("failed"), Some("canceled"), Some("timed_out")}
           && AsAsked(op, before.value.generation, before.value.domain, before.value.methodName) then None else before
      case _ => before
  }

  function OperationOf(s: State, id: string): Option<Lease> {
    if id in s.operations then Some(s.operations[id]) else None
  }

  lemma EnteredCount(operations: map<string, Lease>, id: string, lease: Lease)
    ensures |Entered(operations, id, lease)| == |operations| + if id in operations then 0 else 1
  {
    assert operations[id := lease].Keys == operations.Keys + {id};
    assert |operations[id := lease].Keys| == |operations[id := lease]| && |operations.Keys| == |operations|;
  }

  lemma TrackOperations(s: State, e: Step, id: string)
    requires e.Track? && |s.operations| <= 64 && Enabled(s, e)
    ensures OperationOf(Apply(s, e), id) == OperationAfter(s, e, id)
  {
    hide Abandoned, Replaced;
    if e.operation.id.Some? {
      EnteredCount(s.operations, e.operation.id.value, Lease(e.observation, e.generation, e.domain, e.methodName));
    }
  }

  lemma FinishOperations(s: State, op: Operation, id: string)
    ensures OperationOf(ApplyFinish(s, op), id) == OperationAfter(s, FinishOperation(op), id)
  {
    hide Recorded, OperationOutcome;
  }

  lemma OtherOperations(s: State, e: Step, id: string)
    requires !e.Track? && !e.FinishOperation?
    ensures OperationOf(Apply(s, e), id) == OperationAfter(s, e, id)
  {
    hide Recorded, Abandoned;
  }

  /** Every step, on every tracked operation. */
  lemma OperationsExact(s: State, e: Step, id: string)
    requires Inv(s) && Enabled(s, e)
    ensures OperationOf(Apply(s, e), id) == OperationAfter(s, e, id)
  {
    hide Inv, Enabled, OperationAfter, OperationOf, ApplyBegin, ApplyTrack, ApplyComplete, ApplyFinish, Abandoned;
    OperationsFit(s);
    match e
    case Track(_, _, _, _, _, _) => TrackOperations(s, e, id);
    case FinishOperation(op) => FinishOperations(s, op, id);
    case _ => OtherOperations(s, e, id);
  }

  lemma OperationsFit(s: State)
    requires Inv(s)
    ensures |s.operations| <= 64 && |s.latest| <= 64
  {
  }

  /** The step ends the lease of this key. */
  predicate Ends(s: State, e: Step, k: Key)
    requires k in s.latest
  {
    var o := Observation(k, s.latest[k]);
    match e
    case Begin(key, evicted) => s.next < MAX_SEQUENCE && key !in s.latest && |s.latest| >= 64 && evicted == k
    case Abandon(given) => given == o
    case Complete(given, _) => given == o
    case FinishOperation(_) => Accepts(s, e) == Some(o)
    case Track(given, generation, op, domain, methodName, victim) =>
      || (!AsAsked(op, generation, domain, methodName) && given == o)
      || (op.id.Some? && Tracks(s, e, op.id.value) && op.id.value in s.operations && s.operations[op.id.value].observation == o)
      || (GivesUp(s, e, victim) && (if victim == op.id.value then given == o
                                    else victim in s.operations && s.operations[victim].observation == o))
    case Refresh(_) => false
  }

  function LeaseAfter(s: State, e: Step, k: Key): Option<nat> {
    if e.Begin? && e.key == k && s.next < MAX_SEQUENCE then Some(s.next + 1)
    else if k in s.latest && !Ends(s, e, k) then Some(s.latest[k])
    else None
  }

  function LeaseOf(s: State, k: Key): Option<nat> {
    if k in s.latest then Some(s.latest[k]) else None
  }

  lemma AbandonedLease(latest: map<Key, nat>, o: Observation, k: Key)
    ensures k in Abandoned(latest, o) <==> k in latest && o != Observation(k, latest[k])
    ensures k in Abandoned(latest, o) ==> Abandoned(latest, o)[k] == latest[k]
  {
  }

  lemma TrackLeases(s: State, e: Step, k: Key)
    requires e.Track? && |s.operations| <= 64 && Enabled(s, e)
    ensures LeaseOf(Apply(s, e), k) == LeaseAfter(s, e, k)
  {
    hide Abandoned;
    var op := e.operation;
    AbandonedLease(s.latest, e.observation, k);
    if op.id.Some? {
      var id := op.id.value;
      EnteredCount(s.operations, id, Lease(e.observation, e.generation, e.domain, e.methodName));
      var operations := Entered(s.operations, id, Lease(e.observation, e.generation, e.domain, e.methodName));
      if id in s.operations {
        AbandonedLease(s.latest, s.operations[id].observation, k);
      }
      if e.victim in operations {
        AbandonedLease(Replaced(s.latest, s.operations, id), operations[e.victim].observation, k);
      }
    }
  }

  /** Every step, on the lease of every key: a new one has the next sequence number, and one
      ends exactly by being accepted, given up, replaced or, the oldest, evicted. */
  lemma LeasesExact(s: State, e: Step, k: Key)
    requires Inv(s) && Enabled(s, e)
    ensures LeaseOf(Apply(s, e), k) == LeaseAfter(s, e, k)
    ensures Apply(s, e).next == s.next + if e.Begin? && s.next < MAX_SEQUENCE then 1 else 0
  {
    hide Inv, Recorded, OperationOutcome, Abandoned, Matches, Terminal;
    OperationsFit(s);
    match e
    case Track(_, _, _, _, _, _) => TrackLeases(s, e, k); TrackNext(s, e);
    case Abandon(o) => AbandonedLease(s.latest, o, k);
    case Begin(_, _) => SequenceBound(s);
    case Complete(_, _) =>
    case FinishOperation(_) =>
    case Refresh(_) =>
  }

  lemma SequenceBound(s: State)
    requires Inv(s)
    ensures s.next <= MAX_SEQUENCE
  {
  }

  lemma TrackNext(s: State, e: Step)
    requires e.Track?
    ensures Apply(s, e).next == s.next
  {
    hide Abandoned, Matches;
  }

  // --------------------------------------------------------- what is observed

  /** The methods that observe a module, a source or the provider. */
  lemma SingleMethods(m: string)
    ensures TargetOf(m) == Some(L1Connectivity) <==> m == "blockchainNode"
    ensures TargetOf(m) == Some(Source(Storage)) <==> m == "storageSourceReport"
    ensures TargetOf(m) == Some(Source(Delivery)) <==> m == "deliverySourceReport"
    ensures TargetOf(m) != Some(Source(L1))
    ensures TargetOf(m) == Some(OfModule(BlockchainModule)) <==> m == "blockchainModuleReport"
    ensures TargetOf(m) == Some(OfModule(StorageModule)) <==> m == "storageReport"
    ensures TargetOf(m) == Some(OfModule(DeliveryModule)) <==> m == "deliveryReport"
  {
  }

  lemma LocalNodesMethods(m: string)
    ensures TargetOf(m) == Some(LastKnown(LocalNodes)) <==>
              m in {"localNodesStatus", "localNodesAction", "channelIndexerStatus", "channelIndexerAction"}
  {
  }

  lemma WalletMethods(m: string)
    ensures TargetOf(m) == Some(LastKnown(Wallet)) <==>
              m in {"localWalletProfileStatus", "localWalletAccounts", "localWalletCreateAccount", "localWalletSendTransaction",
                    "localWalletCommand", "localWalletSyncPrivate", "localWalletDeployProgram", "localWalletInstructionSubmit"}
  {
  }

  /** A request is observed for exactly its target, with its configuration where the target
      needs one; without one such a request is not observed. */
  lemma RequestsExact(m: string, identity: Option<Config>, target: Target)
    ensures var configured := target.L1Connectivity? || target.Source?;
            RequestKey(m, identity) == Some(Key(target, if configured then identity else None)) <==>
              TargetOf(m) == Some(target) && (configured ==> identity.Some?)
    ensures RequestKey(m, identity).Some? && RequestKey(m, identity).value.target == target ==>
              RequestKey(m, identity).value.configuration == if target.L1Connectivity? || target.Source? then identity else None
  {
    hide TargetOf;
  }
}
