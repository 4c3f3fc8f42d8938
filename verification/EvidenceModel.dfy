/** The capability evidence registry: leased observations, tracked operations and the
    evidence they leave. */
module EvidenceModel {
  import opened Totals
  import opened ReportHistory

  const MAX_ACTIVE_OBSERVATIONS := 64
  const MAX_SEQUENCE := 0xFFFF_FFFF_FFFF_FFFF

  datatype SourceScope = L1 | Storage | Delivery
  datatype ModuleScope = BlockchainModule | StorageModule | DeliveryModule
  datatype LastKnownScope = Wallet | LocalNodes

  datatype Target =
    | L1Connectivity
    | Source(scope: SourceScope)
    | OfModule(moduleScope: ModuleScope)
    | LastKnown(lastScope: LastKnownScope)

  datatype Key = Key(target: Target, configuration: Option<Config>)

  datatype Observation = Observation(key: Key, sequence: nat)

  datatype Outcome = Success(value: Value) | Failure(detail: string)

  datatype ModuleReport = ModuleReport(value: Value) | ModuleFailed(detail: string)

  datatype Lease = Lease(observation: Observation, generation: Option<nat>, domain: string, methodName: string)

  /** A runtime operation as it is received; a text field that is missing or blank is absent. */
  datatype Operation = Operation(id: Option<string>, status: Option<string>, domain: Option<string>,
                                 methodName: Option<string>, generation: Option<nat>,
                                 result: Option<Value>, error: Option<string>, terminalReason: Option<string>)

  /** What observations have left behind. `all` is the map of every report ever stored
      under the replacement rule; the registry itself keeps only `sources`. */
  datatype Evidence = Evidence(modules: map<ModuleScope, ModuleReport>, lastKnown: map<LastKnownScope, string>,
                               sources: map<SourceScope, seq<Entry>>, all: map<SourceScope, map<Config, Report>>)

  /** `accepted` is the history of observations whose completion was let through. */
  datatype State = State(evidence: Evidence, selected: map<SourceScope, Config>, latest: map<Key, nat>,
                         operations: map<string, Lease>, next: nat, accepted: seq<Observation>)

  function Initial(): State {
    State(Evidence(map[], map[], map[], map[]), map[], map[], map[], 0, [])
  }

  datatype Step =
    | Begin(key: Key, evicted: Key)
    | Abandon(observation: Observation)
    | Track(observation: Observation, generation: Option<nat>, operation: Operation, domain: string, methodName: string,
            victim: string)
    | Complete(observation: Observation, outcome: Outcome)
    | FinishOperation(operation: Operation)
    | Refresh(choice: map<SourceScope, Config>)

  // ---------------------------------------------------------- what is observed

  /** `observation_target`. */
  function TargetOf(methodName: string): Option<Target> {
    if methodName == "blockchainNode" then Some(L1Connectivity)
    else if methodName == "storageSourceReport" then Some(Source(Storage))
    else if methodName == "deliverySourceReport" then Some(Source(Delivery))
    else if methodName == "blockchainModuleReport" then Some(OfModule(BlockchainModule))
    else if methodName == "storageReport" then Some(OfModule(StorageModule))
    else if methodName == "deliveryReport" then Some(OfModule(DeliveryModule))
    else if methodName in {"localNodesStatus", "localNodesAction", "channelIndexerStatus", "channelIndexerAction"} then
      Some(LastKnown(LocalNodes))
    else if methodName in {"localWalletProfileStatus", "localWalletAccounts", "localWalletCreateAccount",
                           "localWalletSendTransaction", "localWalletCommand", "localWalletSyncPrivate",
                           "localWalletDeployProgram", "localWalletInstructionSubmit"} then
      Some(LastKnown(Wallet))
    else None
  }

  /** The key a request is observed under: only provider and source requests carry a
      configuration identity, and without one they are not observed. */
  function RequestKey(methodName: string, identity: Option<Config>): Option<Key> {
    match TargetOf(methodName)
    case None => None
    case Some(target) =>
      if target.L1Connectivity? || target.Source? then
        if identity.None? then None else Some(Key(target, identity))
      else Some(Key(target, None))
  }

  /** The keys that requests are observed under. */
  predicate Issued(key: Key) {
    match key.target
    case L1Connectivity => key.configuration.Some?
    case Source(scope) => scope != L1 && key.configuration.Some?
    case OfModule(_) => key.configuration.None?
    case LastKnown(_) => key.configuration.None?
  }

  // ------------------------------------------------------------------- leases

  predicate Current(latest: map<Key, nat>, o: Observation) {
    o.key in latest && latest[o.key] == o.sequence
  }

  function Abandoned(latest: map<Key, nat>, o: Observation): map<Key, nat> {
    if Current(latest, o) then latest - {o.key} else latest
  }

  predicate MustEvict(latest: map<Key, nat>, key: Key) {
    key !in latest && |latest| >= MAX_ACTIVE_OBSERVATIONS
  }

  /** A key of a nonempty table whose sequence is least. */
  predicate Oldest(latest: map<Key, nat>, key: Key) {
    key in latest && forall k :: k in latest ==> latest[key] <= latest[k]
  }

  predicate OldestLease(operations: map<string, Lease>, id: string) {
    && id in operations
    && forall k :: k in operations ==> operations[id].observation.sequence <= operations[k].observation.sequence
  }

  function ApplyBegin(s: State, key: Key, evicted: Key): State {
    if s.next == MAX_SEQUENCE then s
    else
      var kept := if MustEvict(s.latest, key) then s.latest - {evicted} else s.latest;
      s.(latest := kept[key := s.next + 1], next := s.next + 1)
  }

  predicate Matches(op: Operation, id: string, generation: Option<nat>, domain: string, methodName: string) {
    op.id == Some(id) && op.domain == Some(domain) && op.methodName == Some(methodName) && op.generation == generation
  }

  /** The table after a lease is entered, before its bound is restored. */
  function Entered(operations: map<string, Lease>, id: string, lease: Lease): map<string, Lease> {
    operations[id := lease]
  }

  function Replaced(latest: map<Key, nat>, operations: map<string, Lease>, id: string): map<Key, nat> {
    if id in operations then Abandoned(latest, operations[id].observation) else latest
  }

  function ApplyLease(s: State, id: string, lease: Lease, victim: string): State {
    if !Current(s.latest, lease.observation) then s
    else
      var operations := Entered(s.operations, id, lease);
      var latest := Replaced(s.latest, s.operations, id);
      if |operations| <= MAX_ACTIVE_OBSERVATIONS || victim !in operations
      then s.(operations := operations, latest := latest)
      else s.(operations := operations - {victim}, latest := Abandoned(latest, operations[victim].observation))
  }

  function ApplyTrack(s: State, o: Observation, generation: Option<nat>, op: Operation, domain: string,
                      methodName: string, victim: string): State {
    if op.id.None? || !Matches(op, op.id.value, generation, domain, methodName)
    then s.(latest := Abandoned(s.latest, o))
    else ApplyLease(s, op.id.value, Lease(o, generation, domain, methodName), victim)
  }

  // ----------------------------------------------------------------- evidence

  function SourceReport(o: Observation, outcome: Outcome): Report {
    match outcome
    case Success(value) => if o.key.target.L1Connectivity? then Connected(value) else Reported(value)
    case Failure(detail) =>
      Failed(if o.key.target.L1Connectivity? then "blockchain.connection" else ScopeKey(o.key.target), detail)
  }

  function ScopeKey(t: Target): string {
    if t.Source? then (match t.scope case L1 => "l1" case Storage => "storage" case Delivery => "delivery") else ""
  }

  function History<T>(m: map<SourceScope, seq<T>>, scope: SourceScope): seq<T> {
    if scope in m then m[scope] else []
  }

  function Everything(m: map<SourceScope, map<Config, Report>>, scope: SourceScope): map<Config, Report> {
    if scope in m then m[scope] else map[]
  }

  function Upsert(m: map<Config, Report>, c: Config, r: Report): map<Config, Report> {
    m[c := Merged(if c in m then Some(m[c]) else None, r)]
  }

  function Protected(selected: map<SourceScope, Config>, scope: SourceScope): Option<Config> {
    if scope in selected then Some(selected[scope]) else None
  }

  function Stored(e: Evidence, selected: map<SourceScope, Config>, scope: SourceScope, c: Option<Config>, r: Report): Evidence {
    if c.None? then e
    else e.(sources := e.sources[scope := Insert(History(e.sources, scope), c.value, r, Protected(selected, scope))],
            all := e.all[scope := Upsert(Everything(e.all, scope), c.value, r)])
  }

  function Recorded(e: Evidence, selected: map<SourceScope, Config>, o: Observation, outcome: Outcome): Evidence {
    match o.key.target
    case L1Connectivity => Stored(e, selected, L1, o.key.configuration, SourceReport(o, outcome))
    case Source(scope) => Stored(e, selected, scope, o.key.configuration, SourceReport(o, outcome))
    case OfModule(scope) =>
      e.(modules := e.modules[scope := match outcome case Success(v) => ModuleReport(v) case Failure(d) => ModuleFailed(d)])
    case LastKnown(scope) =>
      match outcome
      case Success(_) => e.(lastKnown := e.lastKnown - {scope})
      case Failure(d) => e.(lastKnown := e.lastKnown[scope := d])
  }

  function ApplyComplete(s: State, o: Observation, outcome: Outcome): State {
    if !Current(s.latest, o) then s
    else s.(latest := s.latest - {o.key}, evidence := Recorded(s.evidence, s.selected, o, outcome), accepted := s.accepted + [o])
  }

  predicate Terminal(status: string) {
    status in {"completed", "dispatched", "failed", "canceled", "timed_out"}
  }

  function OperationOutcome(op: Operation): Outcome
    requires op.status.Some?
  {
    if op.status.value == "completed" && op.result.Some? then Success(op.result.value)
    else
      Failure(if op.error.Some? then op.error.value
              else if op.terminalReason.Some? then op.terminalReason.value
              else "runtime operation ended with status `" + op.status.value + "`")
  }

  /** The lease that a terminal operation settles, if it matches one. */
  predicate Settles(s: State, op: Operation) {
    && op.id.Some? && op.status.Some? && Terminal(op.status.value) && op.id.value in s.operations
    && var lease := s.operations[op.id.value];
       Matches(op, op.id.value, lease.generation, lease.domain, lease.methodName)
  }

  function ApplyFinish(s: State, op: Operation): State {
    if !Settles(s, op) then s
    else
      ApplyComplete(s.(operations := s.operations - {op.id.value}), s.operations[op.id.value].observation, OperationOutcome(op))
  }

  // -------------------------------------------------------------------- steps

  predicate Enabled(s: State, e: Step) {
    match e
    case Begin(key, evicted) => Issued(key) && (MustEvict(s.latest, key) ==> Oldest(s.latest, evicted))
    case Track(o, generation, op, domain, methodName, victim) =>
      op.id.Some? && Matches(op, op.id.value, generation, domain, methodName) && Current(s.latest, o) ==>
        var operations := Entered(s.operations, op.id.value, Lease(o, generation, domain, methodName));
        |operations| > MAX_ACTIVE_OBSERVATIONS ==> OldestLease(operations, victim)
    case _ => true
  }

  function Apply(s: State, e: Step): State {
    match e
    case Begin(key, evicted) => ApplyBegin(s, key, evicted)
    case Abandon(o) => s.(latest := Abandoned(s.latest, o))
    case Track(o, generation, op, domain, methodName, victim) => ApplyTrack(s, o, generation, op, domain, methodName, victim)
    case Complete(o, outcome) => ApplyComplete(s, o, outcome)
    case FinishOperation(op) => ApplyFinish(s, op)
    case Refresh(choice) => s.(selected := choice)
  }
}
