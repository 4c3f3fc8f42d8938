/** What holds of the transport over whole runs, for every interleaving. */
module TransportRuns {
  import opened Totals
  import opened TransportModel
  import opened TransportRequests
  import opened TransportClients
  import opened TransportSteps
  import opened TransportEvents

  ghost predicate Inv(l: Limits, s: State) {
    RequestInv(l, s) && TableInv(l, s) && EventInv(l, s)
  }

  /** `ss[0]` is the freshly constructed transport and `es[i]` leads from `ss[i]`
      to `ss[i + 1]`. */
  ghost predicate IsRun(l: Limits, ss: seq<State>, es: seq<Step>) {
    && |ss| == |es| + 1
    && (exists b :: ss[0] == Initial(b))
    && forall i :: 0 <= i < |es| ==> Enabled(l, ss[i], es[i]) && ss[i + 1] == Apply(l, ss[i], es[i])
  }

  lemma InitialInv(l: Limits, b: bool)
    ensures Inv(l, Initial(b))
  {
    NoEventsOk(l);
    hide EventsOk;
    assert Total<nat, Pending>(map[], InvokingWeight) == 0 == Total<nat, Pending>(map[], BytesWeight);
  }

  lemma StepInv(l: Limits, s: State, e: Step)
    requires Inv(l, s) && Enabled(l, s, e)
    ensures Inv(l, Apply(l, s, e)) && FatesKept(s.req, Apply(l, s, e).req)
  {
    hide TableInv, EventInv, RequestsOk, LivenessOk, FatesKept, ControlOk;
    match e
    case Setup(x) =>
      SetupStepKept(l, s, x);
      SetupTableKept(l, s, x);
      OtherStepEventInv(l, s, e);
    case OnTable(x) =>
      TableRequestKept(l, s, x);
      TableStepKept(l, s, x);
      OtherStepEventInv(l, s, e);
      SameFates(s.req);
    case OnRequest(x) =>
      RequestStepKept(l, s, x);
      RequestStepFates(l, s, x);
      RequestTableKept(l, s, x);
      OtherStepEventInv(l, s, e);
    case OnEvent(x) =>
      EventStepKept(l, s, x);
      EventTableKept(l, s, x);
      EventStepEventInv(l, s, x);
      SameFates(s.req);
    case Shutdown(x) =>
      ShutdownStepKept(l, s, x);
      ShutdownTableKept(l, s, x);
      OtherStepEventInv(l, s, e);
  }

  lemma SameFates(r: Requests)
    ensures FatesKept(r, r)
  {
  }

  lemma {:induction false} RunInv(l: Limits, ss: seq<State>, es: seq<Step>, i: nat)
    requires IsRun(l, ss, es) && i < |ss|
    ensures Inv(l, ss[i])
    decreases i
  {
    hide Inv, Enabled, Apply;
    if i == 0 {
      var b :| ss[0] == Initial(b);
      InitialInv(l, b);
    } else {
      RunInv(l, ss, es, i - 1);
      StepInv(l, ss[i - 1], es[i - 1]);
    }
  }

  // ---------------------------------------------------------------- replies

  lemma FatesChain(a: Requests, b: Requests, c: Requests)
    requires FatesKept(a, b) && FatesKept(b, c)
    ensures FatesKept(a, c)
  {
  }

  lemma {:induction false} RunFates(l: Limits, ss: seq<State>, es: seq<Step>, i: nat, j: nat)
    requires IsRun(l, ss, es) && i <= j < |ss|
    ensures FatesKept(ss[i].req, ss[j].req)
    decreases j - i
  {
    hide Inv, Enabled, Apply, FatesKept;
    if i == j {
      SameFates(ss[i].req);
    } else {
      RunFates(l, ss, es, i, j - 1);
      RunInv(l, ss, es, j - 1);
      StepInv(l, ss[j - 1], es[j - 1]);
      FatesChain(ss[i].req, ss[j - 1].req, ss[j].req);
    }
  }

  /** In every run each admitted request is replied to at most once, and a request
      that was cancelled first never is. */
  lemma AtMostOneReply(l: Limits, ss: seq<State>, es: seq<Step>, i: nat, j: nat)
    requires IsRun(l, ss, es) && i <= j < |ss|
    ensures forall a, b :: 0 <= a < b < |ss[j].req.replies| ==> ss[j].req.replies[a].serial != ss[j].req.replies[b].serial
    ensures ss[i].req.replies <= ss[j].req.replies
    ensures forall k, a :: 0 <= k < |ss[i].req.fates| && ss[i].req.fates[k] == Cancelled && 0 <= a < |ss[j].req.replies|
              ==> ss[j].req.replies[a].serial != k
  {
    RunFates(l, ss, es, i, j);
    RunInv(l, ss, es, j);
    hide IsRun, FlagsAgree, CallsAgree, AccountsExact, ControlOk, LivenessOk, TableInv, EventInv;
  }

  // ------------------------------------------------------------------ faults

  predicate Past(s: State) { s.lifecycle == Faulting || s.lifecycle == Closed }

  /** One step after a fault: an open request stays open, gets the failure reply,
      or is cancelled by name. */
  lemma FaultStep(l: Limits, s: State, e: Step, k: nat)
    requires Inv(l, s) && Enabled(l, s, e) && Past(s) && k < |s.req.fates| && s.req.fates[k].Live?
    ensures Past(Apply(l, s, e)) && k < |Apply(l, s, e).req.fates|
    ensures var f := Apply(l, s, e).req.fates[k];
            f == s.req.fates[k] || f == Replied(FaultReply)
            || (f == Cancelled && e == OnRequest(Cancel(s.req.fates[k].id)))
  {
    hide TableInv, EventInv, RepliesAgree, CallsAgree, AccountsExact;
    hide ApplySetup, ApplyRequest, ApplyEvent, ApplyShutdown;
    match e
    case Setup(x) => FaultSetup(l, s, x);
    case OnTable(x) =>
    case OnRequest(x) => FaultRequestStep(l, s, x, k);
    case OnEvent(x) => EventStepShape(l, s, x);
    case Shutdown(x) => FaultShutdown(s, x, k);
  }

  lemma FaultSetup(l: Limits, s: State, x: SetupStep)
    requires ControlOk(s) && SetupEnabled(l, s, x) && Past(s)
    ensures Past(ApplySetup(s, x)) && ApplySetup(s, x).req == s.req
  {
  }

  lemma FaultShutdown(s: State, x: ShutdownStep, k: nat)
    requires FlagsAgree(s.req) && ControlOk(s) && ShutdownEnabled(s, x) && Past(s) && k < |s.req.fates|
    ensures Past(ApplyShutdown(s, x)) && k < |ApplyShutdown(s, x).req.fates|
    ensures ApplyShutdown(s, x).req.fates[k] == s.req.fates[k] || ApplyShutdown(s, x).req.fates[k] == Replied(FaultReply)
  {
    hide FlagsAgree, Suppress;
  }

  lemma FaultRequestStep(l: Limits, s: State, e: RequestStep, k: nat)
    requires FlagsAgree(s.req) && RequestEnabled(l, s, e) && Past(s) && k < |s.req.fates| && s.req.fates[k].Live?
    ensures ApplyRequest(l, s, e).lifecycle == s.lifecycle && k < |ApplyRequest(l, s, e).req.fates|
    ensures var f := ApplyRequest(l, s, e).req.fates[k];
            f == s.req.fates[k] || (f == Cancelled && e == Cancel(s.req.fates[k].id))
  {
    hide Erased, Freed, FlagsAgree, InvokeReturn, BeginCallback, CancelOne;
    match e
    case Admit(_, _, _, _) =>
    case InvokeReturned(id, accepted) => ClosedReturn(s.req, s.lifecycle, id, accepted);
    case InvokeFinished(id) => EraseEffect(FinishInvoke(s.req, id), id);
    case CallbackBegin(id, kind) => ClosedCallback(s.req, s.lifecycle, id, kind);
    case CallbackEnd(id) => EraseEffect(EndCallback(s.req, id), id);
    case Cancel(id) =>
      if id in s.req.pending {
        EraseEffect(CancelOne(s.req, id), id);
        CancelHits(s.req, id, k);
      }
  }

  lemma ClosedReturn(r: Requests, lc: Lifecycle, id: nat, accepted: bool)
    requires id in r.pending && id in r.calls && lc != Open
    ensures InvokeReturn(r, lc, id, accepted).fates == r.fates
  {
  }

  lemma ClosedCallback(r: Requests, lc: Lifecycle, id: nat, kind: ReplyKind)
    requires id in r.pending && id in r.calls && lc != Open
    ensures BeginCallback(r, lc, id, kind).fates == r.fates
  {
  }

  lemma CancelHits(r: Requests, id: nat, k: nat)
    requires FlagsAgree(r) && id in r.pending && k < |r.fates| && r.fates[k].Live?
    ensures |CancelOne(r, id).fates| == |r.fates|
    ensures CancelOne(r, id).fates[k] == r.fates[k] || (CancelOne(r, id).fates[k] == Cancelled && r.fates[k].id == id)
  {
  }

  ghost predicate AfterFault(ss: seq<State>, es: seq<Step>, i: nat, j: nat, k: nat)
    requires i <= j < |ss| && |ss| == |es| + 1 && k < |ss[i].req.fates|
  {
    && Past(ss[j]) && k < |ss[j].req.fates|
    && (ss[j].req.fates[k] == ss[i].req.fates[k] || ss[j].req.fates[k] == Replied(FaultReply)
        || (ss[j].req.fates[k] == Cancelled && ss[i].req.fates[k].Live?
            && exists m :: i <= m < j && es[m] == OnRequest(Cancel(ss[i].req.fates[k].id))))
  }

  lemma PastKept(l: Limits, s: State, e: Step)
    requires Inv(l, s) && Enabled(l, s, e) && Past(s)
    ensures Past(Apply(l, s, e))
  {
    hide TableInv, EventInv, RequestsOk, LivenessOk, ApplySetup, ApplyRequest, ApplyEvent, Suppress, Answer;
    match e
    case Setup(x) => FaultSetup(l, s, x);
    case OnTable(x) =>
    case OnRequest(x) => RequestStepEvents(l, s, x);
    case OnEvent(x) => EventStepShape(l, s, x);
    case Shutdown(x) =>
  }

  lemma {:induction false} RunAfterFault(l: Limits, ss: seq<State>, es: seq<Step>, i: nat, j: nat, k: nat)
    requires IsRun(l, ss, es) && i <= j < |ss| && Past(ss[i]) && k < |ss[i].req.fates| && ss[i].req.fates[k].Live?
    ensures AfterFault(ss, es, i, j, k)
    decreases j - i
  {
    hide Inv, Enabled, Apply, Past;
    if i < j {
      RunAfterFault(l, ss, es, i, j - 1, k);
      RunInv(l, ss, es, j - 1);
      PastKept(l, ss[j - 1], es[j - 1]);
      StepInv(l, ss[j - 1], es[j - 1]);
      if ss[j - 1].req.fates[k].Live? {
        FaultStep(l, ss[j - 1], es[j - 1], k);
      }
    }
  }

  /** If the run faults, then once the worker has finished, every request that was open at
      that moment either was cancelled by name in between and has no reply at all, or has
      exactly one reply, the failure. */
  lemma FaultAnswersAll(l: Limits, ss: seq<State>, es: seq<Step>, i: nat, j: nat, k: nat)
    requires IsRun(l, ss, es) && i <= j < |ss| && ss[i].lifecycle == Faulting
    requires k < |ss[i].req.fates| && ss[i].req.fates[k].Live?
    requires ss[j].worker == Finishing || ss[j].worker == Stopped
    ensures k < |ss[j].req.fates|
    ensures (&& ss[j].req.fates[k] == Cancelled
             && (exists m :: i <= m < j && es[m] == OnRequest(Cancel(ss[i].req.fates[k].id)))
             && forall r :: r in ss[j].req.replies ==> r.serial != k)
            || (&& ss[j].req.fates[k] == Replied(FaultReply) && Reply(k, FaultReply) in ss[j].req.replies
                && forall r :: r in ss[j].req.replies && r.serial == k ==> r == Reply(k, FaultReply))
  {
    RunAfterFault(l, ss, es, i, j, k);
    RunInv(l, ss, es, j);
    hide IsRun, FlagsAgree, CallsAgree, AccountsExact, ControlOk, TableInv, EventInv;
    assert NoneLive(ss[j].req);
  }

  // ---------------------------------------------------------- record lifetime

  /** The library is done with a call: it returned, and it refused or its callback ran. */
  predicate CallOver(c: Call) {
    c.returned && (c.refused || c.callback == Ran)
  }

  /** What erasing record `id` in this step presupposes. */
  ghost predicate MayErase(s: State, e: Step, id: nat)
    requires id in s.req.pending && id in s.req.calls
  {
    var p, c := s.req.pending[id], s.req.calls[id];
    match e
    case OnRequest(InvokeFinished(i)) => i == id && CallOver(c)
    case OnRequest(CallbackEnd(i)) => i == id && !p.invoking && CallOver(c.(callback := Ran))
    case OnRequest(Cancel(i)) => i == id && !p.invoking && CallOver(c)
    case Shutdown(TeardownFinish) => !p.invoking && c.callback != Running && p.client in s.table.destroyed
    case _ => false
  }

  lemma WhatErases(r: Requests, id: nat, i: nat)
    requires i in r.pending && i !in Erased(r, id).pending
    ensures i == id && Finished(r.pending[id])
  {
  }

  lemma RequestErases(l: Limits, s: State, x: RequestStep, id: nat)
    requires CallsAgree(s.req, s.table.destroyed) && RequestEnabled(l, s, x) && id in s.req.pending
    requires id !in ApplyRequest(l, s, x).req.pending
    ensures MayErase(s, OnRequest(x), id)
  {
    hide Erased, Freed;
    match x
    case InvokeFinished(i) => WhatErases(FinishInvoke(s.req, i), i, id);
    case CallbackEnd(i) => WhatErases(EndCallback(s.req, i), i, id);
    case Cancel(i) => if i in s.req.pending { WhatErases(CancelOne(s.req, i), i, id); }
    case Admit(_, _, _, _) =>
    case InvokeReturned(_, _) =>
    case CallbackBegin(_, _) =>
  }

  lemma OthersKeep(l: Limits, s: State, e: Step)
    requires Enabled(l, s, e) && !e.OnRequest? && e != Shutdown(TeardownFinish)
    ensures Apply(l, s, e).req.pending.Keys == s.req.pending.Keys
  {
    hide ApplySetup, ApplyTable, ApplyEvent, ApplyShutdown;
    match e
    case Setup(x) => SetupKeys(s, x);
    case OnTable(x) => TableKeys(l, s, x);
    case OnEvent(x) => EventStepShape(l, s, x);
    case Shutdown(x) => ShutdownKeys(s, x);
  }

  lemma SetupKeys(s: State, x: SetupStep)
    ensures ApplySetup(s, x).req.pending.Keys == s.req.pending.Keys
  {
    hide Suppress, ApplySetup;
    SuppressKeys(s.req);
    SetupRequests(s, x);
  }

  lemma SetupRequests(s: State, x: SetupStep)
    ensures ApplySetup(s, x).req == s.req || ApplySetup(s, x).req == Suppress(s.req)
  {
    hide Suppress;
    match x
    case ActivateBegin =>
    case SpawnFailed =>
    case WorkerStart =>
    case BaseClient(_) =>
    case SetupAbandoned =>
    case ClearPartial =>
    case ActivateOpen(_) =>
    case ActivateFail =>
  }

  lemma TableKeys(l: Limits, s: State, x: TableStep)
    requires TableEnabled(l, s, x)
    ensures ApplyTable(l, s, x).req == s.req
  {
  }

  lemma ShutdownKeys(s: State, x: ShutdownStep)
    requires ShutdownEnabled(s, x) && !x.TeardownFinish?
    ensures ApplyShutdown(s, x).req.pending.Keys == s.req.pending.Keys
  {
    hide Suppress, Answer, ApplyShutdown;
    SuppressKeys(s.req);
    ShutdownRequests(s, x);
    if x.FailOne? {
      AnswerKeys(s.req, x.id);
    }
  }

  lemma ShutdownRequests(s: State, x: ShutdownStep)
    requires ShutdownEnabled(s, x) && !x.TeardownFinish?
    ensures var r := ApplyShutdown(s, x).req;
            if x.FailOne? then r == Answer(s.req, x.id, FaultReply) else r == s.req || r == Suppress(s.req)
  {
    hide Suppress, Answer;
    match x
    case Close =>
    case WorkerShutdown =>
    case FailOne(_) =>
    case FailNone =>
    case WorkerFinish =>
    case EmergencyClose =>
    case TeardownStart =>
    case TeardownDetach =>
    case QuiesceSub(_) =>
    case QuiesceClient(_) =>
    case TeardownFinish =>
  }

  lemma SuppressKeys(r: Requests)
    ensures Suppress(r).pending.Keys == r.pending.Keys
  {
  }

  lemma AnswerKeys(r: Requests, id: nat)
    requires id in r.pending
    ensures Answer(r, id, FaultReply).pending.Keys == r.pending.Keys
  {
  }

  /** No record is erased while its invoke is on the stack or its callback is still
      owed; at the end of teardown the client it was sent through is destroyed. */
  lemma RecordLifetime(l: Limits, s: State, e: Step, id: nat)
    requires Inv(l, s) && Enabled(l, s, e) && id in s.req.pending
    ensures id in s.req.calls
    ensures id !in Apply(l, s, e).req.pending ==> MayErase(s, e, id)
  {
    hide TableInv, EventInv, FlagsAgree, RepliesAgree, AccountsExact, LivenessOk, ControlOk;
    match e
    case OnRequest(x) => if id !in Apply(l, s, e).req.pending { RequestErases(l, s, x, id); }
    case Shutdown(TeardownFinish) => TeardownLifetime(l, s, id);
    case _ => OthersKeep(l, s, e);
  }

  lemma TeardownLifetime(l: Limits, s: State, id: nat)
    requires Inv(l, s) && ShutdownEnabled(s, TeardownFinish) && id in s.req.pending
    ensures id in s.req.calls
    ensures s.req.calls[id].callback != Running && s.req.pending[id].client in s.table.destroyed
    ensures !s.req.pending[id].invoking
  {
    hide EventInv, FlagsAgree, RepliesAgree, SubsOk, ClientKeysOk, LinksOk;
    TotalAtLeast(s.req.pending, id, InvokingWeight);
    assert s.table.clients.Keys == {};
  }

  /** The accounts of every reachable state are exact sums within their limits, so
      neither the admission test nor the erasing subtraction ever wraps. */
  lemma ExactAccounts(l: Limits, ss: seq<State>, es: seq<Step>, i: nat)
    requires IsRun(l, ss, es) && i < |ss|
    ensures var r := ss[i].req;
            && r.activeInvokes == Total(r.pending, InvokingWeight)
            && r.retainedBytes == Total(r.pending, BytesWeight) <= l.maxRetainedRequestBytes
            && SizeSub(l.maxRetainedRequestBytes, r.retainedBytes) == l.maxRetainedRequestBytes - r.retainedBytes
            && |r.pending| <= l.maxPendingRequests
            && forall id :: id in r.pending ==> r.pending[id].bytes <= r.retainedBytes
  {
    hide IsRun, FlagsAgree, RepliesAgree, CallsAgree, ControlOk, LivenessOk, TableInv, EventInv;
    RunInv(l, ss, es, i);
    forall id | id in ss[i].req.pending ensures ss[i].req.pending[id].bytes <= ss[i].req.retainedBytes {
      TotalAtLeast(ss[i].req.pending, id, BytesWeight);
    }
  }

  // ------------------------------------------------------------ event order

  /** The event step `e` admits an arrival in `s`: it passes the filters of
      `ingestEvent` and does not make the transport fault. */
  predicate AdmitsEvent(l: Limits, s: State, x: EventStep) {
    && x.Ingest?
    && (s.lifecycle == Activating || s.lifecycle == Open)
    && (if x.event.instance == "" then s.ownsEvents else s.ingestsInstances)
    && ApplyEvent(l, s, x).lifecycle == s.lifecycle
  }

  predicate Admits(l: Limits, s: State, e: Step) {
    e.OnEvent? && AdmitsEvent(l, s, e.event)
  }

  /** The core accepted this event in this step. */
  function AcceptsEvent(l: Limits, s: State, x: EventStep): seq<Event>
    requires x.Deliver? ==> s.ev.queue != []
  {
    if x.Deliver? && x.status == Accepted then [s.ev.queue[0]]
    else if AdmitsEvent(l, s, x) && s.lifecycle == Open && s.ev.queue == [] && x.status == Accepted then [x.event]
    else []
  }

  ghost function Accepts(l: Limits, s: State, e: Step): seq<Event>
    requires Enabled(l, s, e)
  {
    if e.OnEvent? then AcceptsEvent(l, s, e.event) else []
  }

  /** The steps that drop whatever is queued: an event catalogue that could not be armed
      completely, and from the worker's leaving on every later block that clears the queue. */
  predicate Drops(e: Step) {
    || e == Setup(ClearPartial)
    || LeavesQueue(e)
  }

  predicate LeavesQueue(e: Step) {
    e.Shutdown? && (e.shutdown == WorkerShutdown || e.shutdown == WorkerFinish || e.shutdown == EmergencyClose
                    || e.shutdown == TeardownDetach || e.shutdown == TeardownFinish)
  }

  /** The arrivals admitted since the queue was last dropped. */
  ghost function Admitted(l: Limits, ss: seq<State>, es: seq<Step>): seq<Event>
    requires IsRun(l, ss, es)
  {
    if es == [] || Drops(es[|es| - 1]) then [] else
    Admitted(l, ss[..|es|], es[..|es| - 1])
    + (if Admits(l, ss[|es| - 1], es[|es| - 1]) then [es[|es| - 1].event.event] else [])
  }

  /** The events the core accepted since the queue was last dropped. */
  ghost function Delivered(l: Limits, ss: seq<State>, es: seq<Step>): seq<Event>
    requires IsRun(l, ss, es)
  {
    if es == [] || Drops(es[|es| - 1]) then [] else
    Delivered(l, ss[..|es|], es[..|es| - 1]) + Accepts(l, ss[|es| - 1], es[|es| - 1])
  }

  lemma EnqueueRecords(l: Limits, ev: Events, e: Event)
    ensures var r := Enqueue(l, ev, e);
            r.Some? ==> r.value.arrivals == ev.arrivals + [e] && r.value.delivered == ev.delivered
  {
    hide EventBytes, IsLatestBlock, AllBlocks, SizeSub;
  }

  lemma FaultRecords(s: State)
    ensures Fault(s).ev == s.ev
    ensures s.lifecycle == Activating || s.lifecycle == Open ==> Fault(s).lifecycle != s.lifecycle
  {
  }

  lemma SetRecords(l: Limits, s: State, e: Event)
    requires s.lifecycle == Activating || s.lifecycle == Open
    ensures var s' := SetEvents(s, Enqueue(l, s.ev, e));
            && s'.ev.arrivals == s.ev.arrivals + (if s'.lifecycle == s.lifecycle then [e] else [])
            && s'.ev.delivered == s.ev.delivered
  {
    hide Enqueue, Fault;
    EnqueueRecords(l, s.ev, e);
    FaultRecords(s);
  }

  lemma IngestRecords(l: Limits, s: State, e: Event, wellFormed: bool, status: IngestStatus)
    ensures var x := Ingest(e, wellFormed, status); var s' := IngestEvent(l, s, e, wellFormed, status);
            && s'.ev.arrivals == s.ev.arrivals + (if AdmitsEvent(l, s, x) then [e] else [])
            && s'.ev.delivered == s.ev.delivered + AcceptsEvent(l, s, x)
  {
    hide EventBytes, Enqueue, SetEvents, Fault;
    FaultRecords(s);
    if s.lifecycle == Activating || s.lifecycle == Open {
      SetRecords(l, s, e);
      match status
      case Accepted =>
      case Backpressure =>
      case Rejected =>
    }
  }

  lemma DeliverRecords(l: Limits, s: State, status: IngestStatus)
    requires s.ev.queue != []
    ensures DeliverFront(s, status).ev.arrivals == s.ev.arrivals
    ensures DeliverFront(s, status).ev.delivered == s.ev.delivered + AcceptsEvent(l, s, Deliver(status))
  {
    hide EventBytes, Fault, AdmitsEvent;
    NotIngest(l, s, Deliver(status));
    FaultRecords(s);
  }

  lemma EventStepRecords(l: Limits, s: State, x: EventStep)
    requires EventEnabled(s, x)
    ensures ApplyEvent(l, s, x).ev.arrivals == s.ev.arrivals + (if AdmitsEvent(l, s, x) then [x.event] else [])
    ensures ApplyEvent(l, s, x).ev.delivered == s.ev.delivered + AcceptsEvent(l, s, x)
  {
    hide IngestEvent, DeliverFront, AdmitsEvent;
    match x
    case Ingest(e, w, st) => IngestRecords(l, s, e, w, st);
    case Deliver(st) => NotIngest(l, s, x); DeliverRecords(l, s, st);
    case RequestFault => NotIngest(l, s, x);
  }

  lemma NotIngest(l: Limits, s: State, x: EventStep)
    requires !x.Ingest?
    ensures !AdmitsEvent(l, s, x)
  {
  }

  lemma StepRecords(l: Limits, s: State, e: Step)
    requires Enabled(l, s, e)
    ensures var ev := Apply(l, s, e).ev;
            if Drops(e) then ev == NoEvents
            else ev.arrivals == s.ev.arrivals + (if Admits(l, s, e) then [e.event.event] else [])
                 && ev.delivered == s.ev.delivered + Accepts(l, s, e)
  {
    hide ApplyEvent, ApplyRequest, ApplySetup, ApplyTable, ApplyShutdown, AdmitsEvent, AcceptsEvent, TableEnabled, SetupEnabled,
      RequestEnabled, ShutdownEnabled, LeavesQueue;
    NoShutdown(e);
    match e
    case OnEvent(x) => EventStepRecords(l, s, x);
    case OnRequest(x) => RequestStepEvents(l, s, x);
    case Setup(x) => SetupRecords(s, x);
    case OnTable(x) => TableStepControl(l, s, x);
    case Shutdown(x) => ShutdownRecords(s, x);
  }

  lemma NoShutdown(e: Step)
    ensures LeavesQueue(e) ==> e.Shutdown?
  {
  }

  lemma SetupRecords(s: State, x: SetupStep)
    ensures ApplySetup(s, x).ev == if x.ClearPartial? then NoEvents else s.ev
  {
    hide Suppress;
    match x
    case ActivateBegin =>
    case SpawnFailed =>
    case WorkerStart =>
    case BaseClient(_) =>
    case SetupAbandoned =>
    case ClearPartial =>
    case ActivateOpen(_) =>
    case ActivateFail =>
  }

  lemma ShutdownRecords(s: State, x: ShutdownStep)
    requires ShutdownEnabled(s, x)
    ensures ApplyShutdown(s, x).ev == if LeavesQueue(Shutdown(x)) then NoEvents else s.ev
  {
    hide Suppress, Answer;
    match x
    case Close =>
    case WorkerShutdown =>
    case FailOne(_) =>
    case FailNone =>
    case WorkerFinish =>
    case EmergencyClose =>
    case TeardownStart =>
    case TeardownDetach =>
    case QuiesceSub(_) =>
    case QuiesceClient(_) =>
    case TeardownFinish =>
  }

  lemma RunPrefix(l: Limits, ss: seq<State>, es: seq<Step>)
    requires IsRun(l, ss, es) && es != []
    ensures IsRun(l, ss[..|es|], es[..|es| - 1])
    ensures Enabled(l, ss[|es| - 1], es[|es| - 1]) && Last(ss) == Apply(l, ss[|es| - 1], es[|es| - 1])
    ensures Last(ss[..|es|]) == ss[|es| - 1]
  {
    hide Enabled, Apply, Initial;
    var b :| ss[0] == Initial(b);
    assert ss[..|es|][0] == Initial(b);
  }

  lemma {:induction false} RunRecords(l: Limits, ss: seq<State>, es: seq<Step>)
    requires IsRun(l, ss, es)
    ensures Last(ss).ev.arrivals == Admitted(l, ss, es) && Last(ss).ev.delivered == Delivered(l, ss, es)
    decreases |es|
  {
    if es == [] {
      var b :| ss[0] == Initial(b);
    } else {
      hide IsRun, Inv, Enabled, Apply, Admits, Accepts, Drops;
      var n := |es| - 1;
      RunPrefix(l, ss, es);
      RunRecords(l, ss[..|es|], es[..n]);
      StepRecords(l, ss[n], es[n]);
    }
  }

  /** In every state of every run, faults and closing included: what the core accepted
      since the queue was last dropped, followed by what is queued, is the sequence of
      arrivals admitted since then with some blocks thinned out; the queue is within both
      of its bounds and its byte count is exact. */
  lemma EventOrder(l: Limits, ss: seq<State>, es: seq<Step>)
    requires IsRun(l, ss, es)
    ensures Thinned(Admitted(l, ss, es), Delivered(l, ss, es) + Last(ss).ev.queue)
    ensures NonBlocks(Delivered(l, ss, es) + Last(ss).ev.queue) == NonBlocks(Admitted(l, ss, es))
    ensures Last(ss).ev.bytes == QueueBytes(Last(ss).ev.queue) <= l.maxQueuedEventBytes
    ensures |Last(ss).ev.queue| <= l.maxQueuedEvents
  {
    hide Thinned, Enabled, Apply, RequestInv, TableInv;
    RunRecords(l, ss, es);
    RunInv(l, ss, es, |es|);
    ThinnedKeeps(Admitted(l, ss, es), Delivered(l, ss, es) + Last(ss).ev.queue);
  }

  /** The worker has left its loop. */
  predicate WorkerLeft(s: State) {
    s.worker == FailingPending || s.worker == Finishing || s.worker == Stopped
  }

  lemma WorkerStaysAway(l: Limits, s: State, e: Step)
    requires RequestInv(l, s) && Enabled(l, s, e)
    ensures WorkerLeft(s) || LeavesQueue(e) ==> WorkerLeft(Apply(l, s, e))
  {
    hide RequestsOk, LivenessOk, ApplyEvent, ApplyRequest, ApplyTable, ApplyShutdown, ApplySetup, ShutdownEnabled, TableEnabled;
    match e
    case OnEvent(x) => EventStepShape(l, s, x);
    case OnRequest(x) => RequestStepControl(l, s, x);
    case Setup(x) => SetupWorker(l, s, x);
    case OnTable(x) => TableStepControl(l, s, x);
    case Shutdown(x) => ShutdownWorker(s, x);
  }

  lemma SetupWorker(l: Limits, s: State, x: SetupStep)
    requires SetupEnabled(l, s, x)
    ensures WorkerLeft(s) ==> WorkerLeft(ApplySetup(s, x))
  {
    hide Suppress, FindClient;
    match x
    case ActivateBegin =>
    case SpawnFailed =>
    case WorkerStart =>
    case BaseClient(_) =>
    case SetupAbandoned =>
    case ClearPartial =>
    case ActivateOpen(_) =>
    case ActivateFail =>
  }

  lemma TableStepControl(l: Limits, s: State, x: TableStep)
    requires TableEnabled(l, s, x)
    ensures ApplyTable(l, s, x) == s.(table := ApplyTable(l, s, x).table)
  {
    hide AcquireFound, AcquireEnded, Released, SubscribeBegun, SubscribeCommitted, SubscribeEnded, Unsubscribed;
  }

  lemma ShutdownWorker(s: State, x: ShutdownStep)
    requires ShutdownEnabled(s, x) && ControlOk(s)
    ensures WorkerLeft(s) || LeavesQueue(Shutdown(x)) ==> WorkerLeft(ApplyShutdown(s, x))
  {
    hide Suppress, Answer;
    match x
    case Close =>
    case WorkerShutdown =>
    case FailOne(_) =>
    case FailNone =>
    case WorkerFinish =>
    case EmergencyClose =>
    case TeardownStart =>
    case TeardownDetach =>
    case QuiesceSub(_) =>
    case QuiesceClient(_) =>
    case TeardownFinish =>
  }

  lemma {:induction false} WorkerLeftAt(l: Limits, ss: seq<State>, es: seq<Step>, i: nat, j: nat)
    requires IsRun(l, ss, es) && i < j < |ss| && LeavesQueue(es[i])
    ensures WorkerLeft(ss[j])
    decreases j
  {
    hide Enabled, Apply, RequestInv, TableInv, EventInv, WorkerLeft, LeavesQueue;
    RunInv(l, ss, es, j - 1);
    WorkerStaysAway(l, ss[j - 1], es[j - 1]);
    if i < j - 1 {
      WorkerLeftAt(l, ss, es, i, j - 1);
    }
  }

  /** Once shutdown has dropped the queue, nothing is admitted and the core accepts nothing
      any more: what was accepted until then is all that ever is. */
  lemma NothingAfterShutdown(l: Limits, ss: seq<State>, es: seq<Step>, i: nat, j: nat)
    requires IsRun(l, ss, es) && i < j < |es| && LeavesQueue(es[i])
    ensures Enabled(l, ss[j], es[j]) && !Admits(l, ss[j], es[j]) && Accepts(l, ss[j], es[j]) == []
  {
    hide Apply, TableInv, EventInv, RequestsOk, LivenessOk, LeavesQueue, ApplyEvent;
    WorkerLeftAt(l, ss, es, i, j);
    RunInv(l, ss, es, j);
  }

  // ------------------------------------------------------ clients and handles

  /** In every reachable state before teardown detaches the tables: the count of a
      scoped client is the number of its uses and not zero, no two clients share a
      key, and both scoped tables are within their bounds. */
  lemma ClientCounts(l: Limits, ss: seq<State>, es: seq<Step>, i: nat, h: Handle)
    requires IsRun(l, ss, es) && i < |ss| && !ss[i].detached && IsScoped(ss[i].table.clients, h)
    ensures var t := ss[i].table;
            && t.clients[h].refs == PendingRefs(ss[i].req.pending, h) + SubRefs(t.subs, h) + t.held[h] + FrameRefs(t.frame, h)
            && t.clients[h].refs > 0 && h !in t.destroyed
            && (forall g :: g in t.clients && t.clients[g].key == t.clients[h].key ==> g == h)
            && Total(t.clients, ScopedWeight) <= l.maxScopedClients && |t.subs| <= l.maxScopedSubscriptions
  {
    hide IsRun;
    RunInv(l, ss, es, i);
    hide RequestInv, EventInv, PendingOk, SubClientsOk, HoldersOk, SubHandlesOk, SubRecordsOk, FrameOk;
    assert h in ss[i].table.clients.Keys;
  }

  /** The handles this step gives to `clientDestroy`. */
  ghost function Destroys(l: Limits, s: State, e: Step): set<Handle>
    requires Enabled(l, s, e)
  {
    match e
    case OnTable(AcquireEnd(ok)) => if ok && !Serviceable(s) then {s.table.created} else {}
    case OnTable(Release(h, forSub)) => if h in s.table.clients && h !in Released(s.table, h, forSub).clients then {h} else {}
    case Shutdown(QuiesceClient(h)) => {h}
    case _ => {}
  }

  /** Every client handle is destroyed at most once, never while a pending request
      uses it before teardown, and when the transport has closed after an
      activation none is left. */
  lemma DestroyedOnce(l: Limits, s: State, e: Step)
    requires Inv(l, s) && Enabled(l, s, e)
    ensures Destroys(l, s, e) !! s.table.destroyed
    ensures Apply(l, s, e).table.destroyed == s.table.destroyed + Destroys(l, s, e)
    ensures !s.detached ==> forall id :: id in s.req.pending ==> s.req.pending[id].client !in Destroys(l, s, e)
    ensures e == Shutdown(TeardownFinish) ==>
              forall h: Handle :: h < s.table.created <==> h in Apply(l, s, e).table.destroyed
  {
    hide RequestInv, EventInv, TableInv, ApplyTable, ApplyRequest, ApplyEvent, ApplySetup, ApplyShutdown;
    match e
    case OnTable(x) => TableDestroys(l, s, x);
    case OnRequest(x) => RequestStepControl(l, s, x);
    case OnEvent(x) => EventStepShape(l, s, x);
    case Setup(x) => SetupHandles(s, x);
    case Shutdown(x) => ShutdownDestroys(l, s, x);
  }

  lemma SetupHandles(s: State, x: SetupStep)
    ensures var s' := ApplySetup(s, x);
            s'.table.destroyed == s.table.destroyed && s'.table.unsubscribed == s.table.unsubscribed && s'.detached == s.detached
  {
    hide Suppress;
    match x
    case ActivateBegin =>
    case SpawnFailed =>
    case WorkerStart =>
    case BaseClient(_) =>
    case SetupAbandoned =>
    case ClearPartial =>
    case ActivateOpen(_) =>
    case ActivateFail =>
  }

  lemma TableDestroys(l: Limits, s: State, x: TableStep)
    requires Inv(l, s) && TableEnabled(l, s, x)
    ensures Destroys(l, s, OnTable(x)) !! s.table.destroyed
    ensures ApplyTable(l, s, x).table.destroyed == s.table.destroyed + Destroys(l, s, OnTable(x))
    ensures forall id :: id in s.req.pending ==> s.req.pending[id].client !in Destroys(l, s, OnTable(x))
  {
    hide Destroys, ApplyTable, RequestsOk, LivenessOk, EventInv, TableInv, ControlOk;
    DestroyedUnused(l, s, x);
    DestroyedFrame(l, s, x);
    LiveUndestroyed(l, s, x);
  }

  lemma LiveUndestroyed(l: Limits, s: State, x: TableStep)
    requires TableInv(l, s) && TableEnabled(l, s, x)
    ensures Destroys(l, s, OnTable(x)) !! s.table.destroyed
  {
    hide SubsOk, LinksOk, ClientKeysOk, Released;
    assert s.table.clients.Keys !! s.table.destroyed;
    assert x.Release? && x.client in s.table.clients ==> x.client in s.table.clients.Keys;
  }

  lemma ShutdownDestroys(l: Limits, s: State, x: ShutdownStep)
    requires TableInv(l, s) && ShutdownEnabled(s, x)
    ensures Destroys(l, s, Shutdown(x)) !! s.table.destroyed
    ensures ApplyShutdown(s, x).table.destroyed == s.table.destroyed + Destroys(l, s, Shutdown(x))
    ensures x.QuiesceClient? ==> s.detached
    ensures x.TeardownFinish? ==> forall h: Handle :: h < s.table.created <==> h in s.table.destroyed
  {
    hide TableInv, ApplyShutdown, ShutdownEnabled, Destroys;
    ShutdownTable(s, x);
    ShutdownHandles(l, s, x);
    LeavingHandles(l, s);
  }

  lemma ShutdownHandles(l: Limits, s: State, x: ShutdownStep)
    requires ShutdownEnabled(s, x)
    ensures Enabled(l, s, Shutdown(x))
    ensures Destroys(l, s, Shutdown(x)) == if x.QuiesceClient? then {x.client} else {}
    ensures x.QuiesceClient? ==> x.client in s.table.leaving
    ensures x.TeardownFinish? ==> s.detached && s.table.leaving == {}
  {
    hide Released;
  }

  /** A client on its way out has not been destroyed; detached tables hold no other. */
  lemma LeavingHandles(l: Limits, s: State)
    requires TableInv(l, s)
    ensures s.table.leaving !! s.table.destroyed
    ensures s.table.leaving != {} ==> s.detached
    ensures s.detached && s.table.leaving == {} ==> forall h: Handle :: h < s.table.created <==> h in s.table.destroyed
  {
    hide SubsOk, LinksOk, ClientKeysOk;
    assert s.table.clients == map[] ==> s.table.clients.Keys == {};
  }

  lemma ShutdownTable(s: State, x: ShutdownStep)
    requires ShutdownEnabled(s, x)
    ensures ApplyShutdown(s, x).table.destroyed == s.table.destroyed + (if x.QuiesceClient? then {x.client} else {})
  {
    hide Suppress, Answer;
    match x
    case Close =>
    case WorkerShutdown =>
    case FailOne(_) =>
    case FailNone =>
    case WorkerFinish =>
    case EmergencyClose =>
    case TeardownStart =>
    case TeardownDetach =>
    case QuiesceSub(_) =>
    case QuiesceClient(_) =>
    case TeardownFinish =>
  }

  lemma ReleaseDestroys(t: Table, h: Handle, forSub: bool)
    ensures Released(t, h, forSub).destroyed ==
            t.destroyed + (if h in t.clients && h !in Released(t, h, forSub).clients then {h} else {})
  {
  }

  lemma DestroyedFrame(l: Limits, s: State, x: TableStep)
    requires TableEnabled(l, s, x)
    ensures ApplyTable(l, s, x).table.destroyed == s.table.destroyed + Destroys(l, s, OnTable(x))
  {
    hide FindSub, FindClient, Released;
    if x.Release? { ReleaseDestroys(s.table, x.client, x.forSub); }
  }

  /** The scoped subscription handles this step gives to `unsubscribe`. */
  ghost function Unsubscribes(l: Limits, s: State, e: Step): set<Handle>
    requires Enabled(l, s, e)
  {
    match e
    case OnTable(DropHandle) => {s.table.frame.handle.value}
    case Shutdown(QuiesceSub(h)) => {h}
    case _ => {}
  }

  /** Every scoped subscription handle is unsubscribed at most once; once closed, only
      an `unsubscribeInstance` that is still running can own one that has not been. */
  lemma UnsubscribedOnce(l: Limits, s: State, e: Step)
    requires Inv(l, s) && Enabled(l, s, e)
    ensures Unsubscribes(l, s, e) !! s.table.unsubscribed
    ensures e == Shutdown(TeardownFinish) ==>
              forall h: Handle :: h < s.table.subCreated <==> h in s.table.unsubscribed || h in FrameHandle(s.table.frame)
  {
    hide RequestInv, EventInv, KeysOk, LinksOk, SubKeysOk, FrameOk, SubRecordsOk;
    if e == OnTable(DropHandle) {
      assert s.table.frame.handle.value in FrameHandle(s.table.frame);
    }
    if e == Shutdown(TeardownFinish) {
      assert SubHandles(s.table.subs) == {};
    }
  }

  // ------------------------------------------------------ handles over whole runs

  lemma UnsubscribedTable(l: Limits, s: State, x: TableStep)
    requires TableEnabled(l, s, x)
    ensures ApplyTable(l, s, x).table.unsubscribed == s.table.unsubscribed + Unsubscribes(l, s, OnTable(x))
  {
    hide FindSub, FindClient;
  }

  lemma UnsubscribedRequest(l: Limits, s: State, x: RequestStep)
    requires RequestEnabled(l, s, x)
    ensures ApplyRequest(l, s, x).table.unsubscribed == s.table.unsubscribed
  {
    hide Erased, Freed, CancelOne, FinishInvoke, EndCallback, InvokeReturn, BeginCallback;
    match x
    case Admit(_, _, _, _) =>
    case InvokeReturned(_, _) =>
    case InvokeFinished(_) =>
    case CallbackBegin(_, _) =>
    case CallbackEnd(_) =>
    case Cancel(_) =>
  }

  lemma UnsubscribedShutdown(l: Limits, s: State, x: ShutdownStep)
    requires ShutdownEnabled(s, x)
    ensures ApplyShutdown(s, x).table.unsubscribed == s.table.unsubscribed + Unsubscribes(l, s, Shutdown(x))
  {
    hide Suppress, Answer;
    match x
    case Close =>
    case WorkerShutdown =>
    case FailOne(_) =>
    case FailNone =>
    case WorkerFinish =>
    case EmergencyClose =>
    case TeardownStart =>
    case TeardownDetach =>
    case QuiesceSub(_) =>
    case QuiesceClient(_) =>
    case TeardownFinish =>
  }

  lemma UnsubscribedFrame(l: Limits, s: State, e: Step)
    requires Enabled(l, s, e)
    ensures Apply(l, s, e).table.unsubscribed == s.table.unsubscribed + Unsubscribes(l, s, e)
  {
    hide ApplyTable, ApplyRequest, ApplyEvent, ApplySetup, ApplyShutdown;
    match e
    case OnTable(x) => UnsubscribedTable(l, s, x);
    case OnRequest(x) => UnsubscribedRequest(l, s, x);
    case OnEvent(x) => EventStepShape(l, s, x);
    case Setup(x) => SetupHandles(s, x);
    case Shutdown(x) => UnsubscribedShutdown(l, s, x);
  }

  lemma {:induction false} HandlesStayGone(l: Limits, ss: seq<State>, es: seq<Step>, i: nat, j: nat)
    requires IsRun(l, ss, es) && i <= j < |ss|
    ensures ss[i].table.destroyed <= ss[j].table.destroyed && ss[i].table.unsubscribed <= ss[j].table.unsubscribed
    decreases j - i
  {
    hide Inv, Enabled, Apply, Destroys, Unsubscribes;
    if i < j {
      HandlesStayGone(l, ss, es, i, j - 1);
      RunInv(l, ss, es, j - 1);
      DestroyedOnce(l, ss[j - 1], es[j - 1]);
      UnsubscribedFrame(l, ss[j - 1], es[j - 1]);
    }
  }

  /** Of two steps of a run, no client handle is destroyed in both and no scoped
      subscription handle is unsubscribed in both. */
  lemma HandlesGoOnce(l: Limits, ss: seq<State>, es: seq<Step>, i: nat, j: nat)
    requires IsRun(l, ss, es) && i < j < |es|
    ensures Enabled(l, ss[i], es[i]) && Enabled(l, ss[j], es[j])
    ensures Destroys(l, ss[i], es[i]) !! Destroys(l, ss[j], es[j])
    ensures Unsubscribes(l, ss[i], es[i]) !! Unsubscribes(l, ss[j], es[j])
  {
    hide Inv, Enabled, Apply, Destroys, Unsubscribes;
    assert Enabled(l, ss[i], es[i]) && ss[i + 1] == Apply(l, ss[i], es[i]);
    assert Enabled(l, ss[j], es[j]);
    RunInv(l, ss, es, i);
    RunInv(l, ss, es, j);
    DestroyedOnce(l, ss[i], es[i]);
    UnsubscribedFrame(l, ss[i], es[i]);
    HandlesStayGone(l, ss, es, i + 1, j);
    DestroyedOnce(l, ss[j], es[j]);
    UnsubscribedOnce(l, ss[j], es[j]);
  }

  /** In every run a record goes only when its invoke is off the stack and its callback
      has run or was refused, or with the destroyed client at the end of teardown. */
  lemma RecordsOutliveCalls(l: Limits, ss: seq<State>, es: seq<Step>, i: nat, id: nat)
    requires IsRun(l, ss, es) && i < |es| && id in ss[i].req.pending && id !in ss[i + 1].req.pending
    ensures id in ss[i].req.calls && MayErase(ss[i], es[i], id)
  {
    hide Inv, Enabled, Apply, MayErase;
    assert Enabled(l, ss[i], es[i]) && ss[i + 1] == Apply(l, ss[i], es[i]);
    RunInv(l, ss, es, i);
    RecordLifetime(l, ss[i], es[i], id);
  }
}
