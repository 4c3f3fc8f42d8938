/** The registry as the object it is: maps, a counter and bounded histories, updated in
    place by methods that run one at a time. */
module CapabilityRegistry {
  import opened Totals
  import opened ReportHistory
  import opened EvidenceModel
  import opened EvidenceRuns
  import opened EvidenceEffects

  /** What the registry shows for the selected configurations. */
  datatype Snapshot = Snapshot(modules: map<ModuleScope, ModuleReport>, lastKnown: map<LastKnownScope, string>,
                               reports: map<SourceScope, Report>)

  /** The order in which the scopes are refreshed. */
  function Place(scope: SourceScope): (i: nat)
    ensures i < 3
  {
    match scope case L1 => 0 case Storage => 1 case Delivery => 2
  }

  class Registry {
    var moduleReports: map<ModuleScope, ModuleReport>
    var lastKnown: map<LastKnownScope, string>
    var configuredSources: map<SourceScope, seq<Entry>>
    var selectedConfigurations: map<SourceScope, Config>
    var latest: map<Key, nat>
    var runtimeObservations: map<string, Lease>
    var nextSequence: nat
    ghost var all: map<SourceScope, map<Config, Report>>
    ghost var accepted: seq<Observation>

    ghost function Model(): State
      reads this
    {
      State(Evidence(moduleReports, lastKnown, configuredSources, all), selectedConfigurations, latest,
            runtimeObservations, nextSequence, accepted)
    }

    ghost predicate Valid()
      reads this
    {
      Inv(Model())
    }

    constructor ()
      ensures Valid() && Model() == Initial()
    {
      moduleReports, lastKnown, configuredSources, selectedConfigurations := map[], map[], map[], map[];
      latest, runtimeObservations, nextSequence := map[], map[], 0;
      all, accepted := map[], [];
      new;
      InitialInv();
    }

    /** The lease with the least sequence number, found by going through the table. */
    method OldestObservation() returns (oldest: Key)
      requires latest != map[]
      ensures Oldest(latest, oldest)
    {
      var rest := latest.Keys;
      oldest :| oldest in rest;
      while rest != {}
        invariant oldest in latest && rest <= latest.Keys
        invariant forall k :: k in latest && k !in rest ==> latest[oldest] <= latest[k]
        decreases rest
      {
        var k :| k in rest;
        rest := rest - {k};
        if latest[k] < latest[oldest] {
          oldest := k;
        }
      }
    }

    method OldestOperation(operations: map<string, Lease>) returns (oldest: string)
      requires operations != map[]
      ensures OldestLease(operations, oldest)
    {
      var rest := operations.Keys;
      oldest :| oldest in rest;
      while rest != {}
        invariant oldest in operations && rest <= operations.Keys
        invariant forall k :: k in operations && k !in rest ==>
                    operations[oldest].observation.sequence <= operations[k].observation.sequence
        decreases rest
      {
        var k :| k in rest;
        rest := rest - {k};
        if operations[k].observation.sequence < operations[oldest].observation.sequence {
          oldest := k;
        }
      }
    }

    /** `begin_observation_with_generation`: a method that is not observed, or that needs a
        configuration identity and has none, gets no lease and changes nothing. */
    method BeginRequest(methodName: string, identity: Option<Config>) returns (observed: bool, r: Option<Observation>, ghost evicted: Key)
      requires Valid()
      modifies this`latest, this`nextSequence
      ensures Valid() && (observed <==> RequestKey(methodName, identity).Some?)
      ensures !observed ==> r.None? && Model() == old(Model())
      ensures observed ==> var key := RequestKey(methodName, identity).value;
                && Enabled(old(Model()), Begin(key, evicted)) && Model() == Apply(old(Model()), Begin(key, evicted))
                && (r.None? <==> old(nextSequence) == MAX_SEQUENCE)
                && (r.Some? ==> r.value == Observation(key, nextSequence) && Current(latest, r.value))
    {
      hide Inv, Apply, RequestKey, Issued;
      RequestsAreIssued(methodName, identity);
      var key := RequestKey(methodName, identity);
      observed, r := key.Some?, None;
      evicted := Key(L1Connectivity, None);
      if observed {
        r, evicted := BeginObservation(key.value);
      }
    }

    /** `begin`, for the keys its caller asks for: a lease that is newer than every sequence
        number issued before. */
    method BeginObservation(key: Key) returns (r: Option<Observation>, ghost evicted: Key)
      requires Valid() && Issued(key)
      modifies this`latest, this`nextSequence
      ensures Valid() && Enabled(old(Model()), Begin(key, evicted)) && Model() == Apply(old(Model()), Begin(key, evicted))
      ensures r.None? <==> old(nextSequence) == MAX_SEQUENCE
      ensures r.Some? ==> r.value == Observation(key, nextSequence) && Current(latest, r.value)
      ensures r.Some? ==> nextSequence > old(nextSequence)
    {
      hide Inv;
      evicted := key;
      r := None;
      if nextSequence == MAX_SEQUENCE {
        if MustEvict(latest, key) {
          evicted := OldestObservation();
        }
        StepInv(Model(), Begin(key, evicted));
        return;
      }
      ghost var before := Model();
      if key !in latest && |latest| >= MAX_ACTIVE_OBSERVATIONS {
        var oldest := OldestObservation();
        evicted := oldest;
        latest := latest - {oldest};
      }
      nextSequence := nextSequence + 1;
      latest := latest[key := nextSequence];
      r := Some(Observation(key, nextSequence));
      StepInv(before, Begin(key, evicted));
    }

    /** `accept`: only the newest lease of a key passes, and only once. */
    method Accept(o: Observation) returns (ok: bool)
      modifies this`latest
      ensures ok <==> Current(old(latest), o)
      ensures latest == if ok then old(latest) - {o.key} else old(latest)
    {
      ok := o.key in latest && latest[o.key] == o.sequence;
      if ok {
        latest := latest - {o.key};
      }
    }

    /** `abandon`: gives up a lease that is still the newest of its key. */
    method AbandonObservation(o: Observation)
      requires Valid()
      modifies this`latest
      ensures Valid() && Model() == Apply(old(Model()), Abandon(o))
    {
      hide Inv;
      StepInv(Model(), Abandon(o));
      Drop(o);
    }

    /** `track_runtime_operation`: enter the lease, abandon the one it replaces, and evict
        the oldest leases while the table is too long. */
    method TrackLease(id: string, lease: Lease) returns (ghost victim: string)
      requires Valid()
      modifies this`latest, this`runtimeObservations
      ensures Valid() && Model() == ApplyLease(old(Model()), id, lease, victim)
      ensures Current(old(latest), lease.observation)
              && |Entered(old(runtimeObservations), id, lease)| > MAX_ACTIVE_OBSERVATIONS ==>
                OldestLease(Entered(old(runtimeObservations), id, lease), victim)
      ensures |runtimeObservations| <= MAX_ACTIVE_OBSERVATIONS
    {
      hide Inv, OldestLease, Abandoned;
      victim := "";
      ghost var before := Model();
      EnteredSize(runtimeObservations, id, lease);
      OperationsBound(before);
      if !(lease.observation.key in latest && latest[lease.observation.key] == lease.observation.sequence) {
        return;
      }
      var replaced := if id in runtimeObservations then Some(runtimeObservations[id]) else None;
      runtimeObservations := runtimeObservations[id := lease];
      if replaced.Some? {
        Drop(replaced.value.observation);
      }
      victim := EvictLeases();
      LeaseKept(before, id, lease, victim);
    }

    /** The eviction loop; at most one lease is too many. */
    method EvictLeases() returns (ghost victim: string)
      requires |runtimeObservations| <= MAX_ACTIVE_OBSERVATIONS + 1
      modifies this`latest, this`runtimeObservations
      ensures |runtimeObservations| <= MAX_ACTIVE_OBSERVATIONS
      ensures |old(runtimeObservations)| <= MAX_ACTIVE_OBSERVATIONS ==>
                runtimeObservations == old(runtimeObservations) && latest == old(latest)
      ensures |old(runtimeObservations)| > MAX_ACTIVE_OBSERVATIONS ==>
                && victim in old(runtimeObservations) && OldestLease(old(runtimeObservations), victim)
                && runtimeObservations == old(runtimeObservations) - {victim}
                && latest == Abandoned(old(latest), old(runtimeObservations)[victim].observation)
    {
      hide Abandoned;
      victim := "";
      while |runtimeObservations| > MAX_ACTIVE_OBSERVATIONS
        invariant |runtimeObservations| <= MAX_ACTIVE_OBSERVATIONS + 1
        invariant |runtimeObservations| > MAX_ACTIVE_OBSERVATIONS || |old(runtimeObservations)| <= MAX_ACTIVE_OBSERVATIONS ==>
                    runtimeObservations == old(runtimeObservations) && latest == old(latest)
        invariant |runtimeObservations| <= MAX_ACTIVE_OBSERVATIONS && |old(runtimeObservations)| > MAX_ACTIVE_OBSERVATIONS ==>
                    && OldestLease(old(runtimeObservations), victim)
                    && runtimeObservations == old(runtimeObservations) - {victim}
                    && latest == Abandoned(old(latest), old(runtimeObservations)[victim].observation)
        decreases |runtimeObservations|
      {
        var oldest := OldestOperation(runtimeObservations);
        victim := oldest;
        var removed := runtimeObservations[oldest];
        SmallerSize(runtimeObservations, oldest);
        runtimeObservations := runtimeObservations - {oldest};
        Drop(removed.observation);
      }
    }

    /** The registry's own `track_runtime_operation`: an operation without id, or one that
        is not the one asked for, gives the observation up. */
    method TrackRuntimeOperation(o: Observation, generation: Option<nat>, op: Operation, domain: string, methodName: string)
      returns (ok: bool, ghost victim: string)
      requires Valid()
      modifies this`latest, this`runtimeObservations
      ensures Valid() && Enabled(old(Model()), Track(o, generation, op, domain, methodName, victim))
      ensures Model() == Apply(old(Model()), Track(o, generation, op, domain, methodName, victim))
      ensures ok <==> op.id.Some? && Matches(op, op.id.value, generation, domain, methodName)
    {
      hide Inv, ApplyLease, OldestLease, Current;
      victim := "";
      ok := op.id.Some? && Matches(op, op.id.value, generation, domain, methodName);
      if ok {
        victim := TrackLease(op.id.value, Lease(o, generation, domain, methodName));
      } else {
        AbandonObservation(o);
      }
    }

    method Drop(o: Observation)
      modifies this`latest
      ensures latest == Abandoned(old(latest), o)
    {
      if o.key in latest && latest[o.key] == o.sequence {
        latest := latest - {o.key};
      }
    }

    method InsertSource(scope: SourceScope, configuration: Option<Config>, r: Report)
      modifies this`configuredSources, this`all
      ensures Model().evidence == Stored(old(Model()).evidence, selectedConfigurations, scope, configuration, r)
    {
      if configuration.None? {
        return;
      }
      var entries := if scope in configuredSources then configuredSources[scope] else [];
      var protected := if scope in selectedConfigurations then Some(selectedConfigurations[scope]) else None;
      entries := InsertReport(entries, configuration.value, r, protected);
      configuredSources := configuredSources[scope := entries];
      all := all[scope := Upsert(Everything(all, scope), configuration.value, r)];
    }

    /** `complete_success` and `complete_failure`: evidence changes exactly when the lease
        is the newest one of its key. */
    method CompleteObservation(o: Observation, outcome: Outcome)
      requires Valid()
      modifies this
      ensures Valid() && Model() == ApplyComplete(old(Model()), o, outcome)
      ensures !Current(old(latest), o) ==> Model().evidence == old(Model().evidence)
      ensures Current(old(latest), o) && Issued(o.key) ==>
                Content(Model().evidence, SlotOf(o.key)) ==
                ContentAfter(o.key, ValueOf(Complete(o, outcome)), DetailOf(Complete(o, outcome)), Content(old(Model().evidence), SlotOf(o.key)))
    {
      hide Inv, Stored, Content, ContentAfter, SlotOf, ValueOf, DetailOf, Issued;
      CompleteKept(Model(), o, outcome);
      CompleteLeaves(Model(), o, outcome);
      var ok := Accept(o);
      if !ok {
        return;
      }
      match o.key.target {
        case L1Connectivity => InsertSource(L1, o.key.configuration, SourceReport(o, outcome));
        case Source(scope) => InsertSource(scope, o.key.configuration, SourceReport(o, outcome));
        case OfModule(scope) =>
          match outcome {
            case Success(v) => moduleReports := moduleReports[scope := ModuleReport(v)];
            case Failure(d) => moduleReports := moduleReports[scope := ModuleFailed(d)];
          }
        case LastKnown(scope) =>
          match outcome {
            case Success(_) => lastKnown := lastKnown - {scope};
            case Failure(d) => lastKnown := lastKnown[scope := d];
          }
      }
      accepted := accepted + [o];
    }

    /** `complete_runtime_operation`: a terminal operation that matches its lease takes the
        lease out and completes its observation; anything else changes nothing. */
    method CompleteRuntimeOperation(op: Operation)
      requires Valid()
      modifies this
      ensures Valid() && Model() == Apply(old(Model()), FinishOperation(op))
      ensures Accepts(old(Model()), FinishOperation(op)).None? ==> Model().evidence == old(Model().evidence)
      ensures Accepts(old(Model()), FinishOperation(op)).Some? ==>
                var key := Accepts(old(Model()), FinishOperation(op)).value.key;
                Issued(key) ==>
                  Content(Model().evidence, SlotOf(key)) ==
                  ContentAfter(key, ValueOf(FinishOperation(op)), DetailOf(FinishOperation(op)), Content(old(Model().evidence), SlotOf(key)))
    {
      hide Inv, Terminal, ApplyComplete, Content, ContentAfter, SlotOf, Matches, Accepts;
      FinishLeaves(Model(), op);
      StepInv(Model(), FinishOperation(op));
      if op.id.None? || op.status.None? || !Terminal(op.status.value) || op.id.value !in runtimeObservations {
        return;
      }
      var lease := runtimeObservations[op.id.value];
      if !Matches(op, op.id.value, lease.generation, lease.domain, lease.methodName) {
        return;
      }
      FinishKept(Model(), op.id.value);
      runtimeObservations := runtimeObservations - {op.id.value};
      CompleteObservation(lease.observation, OperationOutcome(op));
    }

    /** `evidence_for_runtime`: select the configurations in force and show, for each
        scope, the report that the history holds for its selected configuration. */
    method EvidenceForRuntime(choice: map<SourceScope, Config>) returns (r: Snapshot)
      requires Valid()
      modifies this`selectedConfigurations
      ensures Valid() && Model() == Apply(old(Model()), Refresh(choice))
      ensures selectedConfigurations == choice
      ensures r.modules == moduleReports && r.lastKnown == lastKnown
      ensures forall scope: SourceScope :: scope in r.reports <==>
                scope in choice && Lookup(History(configuredSources, scope), choice[scope]).Some?
      ensures forall scope: SourceScope :: scope in r.reports ==>
                Lookup(History(configuredSources, scope), choice[scope]) == Some(r.reports[scope])
    {
      hide Inv, Lookup, Selection, Shown;
      StepInv(Model(), Refresh(choice));
      var reports: map<SourceScope, Report> := map[];
      var scopes := [L1, Storage, Delivery];
      SelectionEnds(selectedConfigurations, choice, configuredSources);
      for i := 0 to 3
        invariant selectedConfigurations == Selection(old(selectedConfigurations), choice, i)
        invariant reports == Shown(configuredSources, choice, i)
      {
        var scope := scopes[i];
        SelectionStep(old(selectedConfigurations), choice, scope);
        ShownStep(choice, configuredSources, scope);
        if scope in choice {
          selectedConfigurations := selectedConfigurations[scope := choice[scope]];
          var found := Lookup(if scope in configuredSources then configuredSources[scope] else [], choice[scope]);
          if found.Some? {
            reports := reports[scope := found.value];
          }
        } else {
          selectedConfigurations := selectedConfigurations - {scope};
        }
      }
      r := Snapshot(moduleReports, lastKnown, reports);
    }
  }

  /** The selection and the reports shown when the first `i` scopes have been refreshed. */
  function Selection(before: map<SourceScope, Config>, choice: map<SourceScope, Config>, i: nat): map<SourceScope, Config> {
    map scope: SourceScope | if Place(scope) < i then scope in choice else scope in before ::
      if Place(scope) < i then choice[scope] else before[scope]
  }

  function Shown(sources: map<SourceScope, seq<Entry>>, choice: map<SourceScope, Config>, i: nat): map<SourceScope, Report> {
    map scope: SourceScope | Place(scope) < i && scope in choice && Lookup(History(sources, scope), choice[scope]).Some? ::
      Lookup(History(sources, scope), choice[scope]).value
  }

  lemma SelectionEnds(before: map<SourceScope, Config>, choice: map<SourceScope, Config>, sources: map<SourceScope, seq<Entry>>)
    ensures Selection(before, choice, 0) == before && Selection(before, choice, 3) == choice
    ensures Shown(sources, choice, 0) == map[]
    ensures forall scope: SourceScope :: scope in Shown(sources, choice, 3) <==>
              scope in choice && Lookup(History(sources, scope), choice[scope]).Some?
    ensures forall scope: SourceScope :: scope in Shown(sources, choice, 3) ==>
              Lookup(History(sources, scope), choice[scope]) == Some(Shown(sources, choice, 3)[scope])
  {
    hide Lookup;
  }

  lemma SelectionStep(before: map<SourceScope, Config>, choice: map<SourceScope, Config>, scope: SourceScope)
    ensures var i := Place(scope);
            Selection(before, choice, i + 1) == if scope in choice then Selection(before, choice, i)[scope := choice[scope]]
                                                else Selection(before, choice, i) - {scope}
  {
    match scope
    case L1 =>
    case Storage =>
    case Delivery =>
  }

  lemma ShownStep(choice: map<SourceScope, Config>, sources: map<SourceScope, seq<Entry>>, scope: SourceScope)
    ensures var i := Place(scope);
            Shown(sources, choice, i + 1) == if scope in choice && Lookup(History(sources, scope), choice[scope]).Some?
                                             then Shown(sources, choice, i)[scope := Lookup(History(sources, scope), choice[scope]).value]
                                             else Shown(sources, choice, i)
  {
    hide Lookup;
    match scope
    case L1 =>
    case Storage =>
    case Delivery =>
  }

  lemma OperationsBound(s: State)
    requires Inv(s)
    ensures |s.operations| <= MAX_ACTIVE_OBSERVATIONS
  {
  }

  lemma LeaseKept(s: State, id: string, lease: Lease, victim: string)
    requires Inv(s)
    requires Current(s.latest, lease.observation) && |Entered(s.operations, id, lease)| > MAX_ACTIVE_OBSERVATIONS ==>
               OldestLease(Entered(s.operations, id, lease), victim)
    ensures Inv(ApplyLease(s, id, lease, victim))
  {
    hide LatestOk, AcceptedOk, EvidenceOk, ApplyLease;
    LeaseOk(s, id, lease, victim);
    LeaseFrame(s, id, lease, victim);
  }

  lemma CompleteKept(s: State, o: Observation, outcome: Outcome)
    requires Inv(s)
    ensures Inv(ApplyComplete(s, o, outcome))
  {
    hide Inv, ApplyComplete;
    CompleteOk(s, o, outcome);
  }

  lemma FinishKept(s: State, id: string)
    requires Inv(s)
    ensures Inv(s.(operations := s.operations - {id}))
  {
    SmallerSize(s.operations, id);
  }

  lemma CompleteLeaves(s: State, o: Observation, outcome: Outcome)
    requires Inv(s)
    ensures Current(s.latest, o) && Issued(o.key) ==>
              Content(ApplyComplete(s, o, outcome).evidence, SlotOf(o.key)) ==
              ContentAfter(o.key, ValueOf(Complete(o, outcome)), DetailOf(Complete(o, outcome)), Content(s.evidence, SlotOf(o.key)))
  {
    hide Inv, Content, ContentAfter, SlotOf, Issued, Distinct, Recorded;
    ScopesOk(s);
    if Issued(o.key) {
      RecordedContent(s.evidence, s.selected, o, outcome, ValueOf(Complete(o, outcome)), DetailOf(Complete(o, outcome)));
    }
  }

  lemma FinishLeaves(s: State, op: Operation)
    requires Inv(s)
    ensures Accepts(s, FinishOperation(op)).None? ==> Apply(s, FinishOperation(op)).evidence == s.evidence
    ensures Accepts(s, FinishOperation(op)).Some? ==>
              var key := Accepts(s, FinishOperation(op)).value.key;
              Issued(key) ==>
                Content(Apply(s, FinishOperation(op)).evidence, SlotOf(key)) ==
                ContentAfter(key, ValueOf(FinishOperation(op)), DetailOf(FinishOperation(op)), Content(s.evidence, SlotOf(key)))
  {
    hide Inv, Accepts, Apply, Content, ContentAfter, SlotOf, Issued, Distinct, OperationOutcome, Recorded;
    var e := FinishOperation(op);
    EvidenceNeedsAcceptance(s, e);
    AcceptsWhat(s, e);
    if Accepts(s, e).Some? && Issued(Accepts(s, e).value.key) {
      var o := Accepts(s, e).value;
      ScopesOk(s);
      OutcomeIs(op);
      AcceptedEvidence(s, e, o, OperationOutcome(op));
      RecordedContent(s.evidence, s.selected, o, OperationOutcome(op), ValueOf(e), DetailOf(e));
    }
  }
}
