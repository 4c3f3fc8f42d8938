/** What every step does to the requests, told by what has happened to each of them: which
    step answers which request and with what, which records change and which go. */
module TransportReplies {
  import opened Totals
  import opened TransportModel
  import opened TransportRequests
  import opened TransportClients
  import opened TransportEvents
  import opened TransportRuns

  /** The request that is answered by this step, and the reply it gets: a completion while
      the transport is open, a refused invoke while it is open, or a failure after a fault,
      each only for a request that was neither answered nor cancelled. */
  function AnswerOf(s: State, e: Step): Option<(nat, ReplyKind)> {
    match e
    case OnRequest(CallbackBegin(id, kind)) => if s.lifecycle == Open && Waiting(s.req, id) then Some((id, kind)) else None
    case OnRequest(InvokeReturned(id, false)) => if s.lifecycle == Open && Waiting(s.req, id) then Some((id, Refusal)) else None
    case Shutdown(FailOne(id)) => if Waiting(s.req, id) then Some((id, FaultReply)) else None
    case _ => None
  }

  predicate Waiting(r: Requests, id: nat) {
    id in r.pending && !r.pending[id].cancelled && !r.pending[id].terminal
  }

  /** The step cancels every request: close, or a failed activation. */
  predicate CancelsAll(s: State, e: Step) {
    || (e == Shutdown(Close) && (s.lifecycle == Activating || s.lifecycle == Open))
    || (e == Setup(ActivateFail) && s.lifecycle == Activating)
  }

  /** The flags of a record after the step. */
  function After(s: State, e: Step, id: nat): Pending
    requires id in s.req.pending
  {
    var p := s.req.pending[id];
    p.(invoking := p.invoking && e != OnRequest(InvokeFinished(id)),
       callbackFinished := p.callbackFinished || e == OnRequest(CallbackEnd(id)) || e == OnRequest(InvokeReturned(id, false)),
       cancelled := p.cancelled || e == OnRequest(Cancel(id)) || CancelsAll(s, e),
       terminal := p.terminal || (AnswerOf(s, e).Some? && AnswerOf(s, e).value.0 == id))
  }

  /** The record has had its invoke, its callback and its answer or cancellation, and the
      step is one of those that look at that. */
  predicate Goes(s: State, e: Step, id: nat)
    requires id in s.req.pending
  {
    var p := After(s, e, id);
    || e == Shutdown(TeardownFinish)
    || ((e == OnRequest(InvokeFinished(id)) || e == OnRequest(CallbackEnd(id)) || e == OnRequest(Cancel(id)))
        && !p.invoking && p.callbackFinished && (p.terminal || p.cancelled))
  }

  /** This step admits a request with this id: the transport is open with its worker running,
      the id is free, and both limits leave room. */
  ghost predicate Enters(l: Limits, s: State, e: Step, id: nat) {
    && e.OnRequest? && e.request.Admit? && e.request.id == id
    && s.lifecycle == Open && s.workerLive && id !in s.req.pending
    && |s.req.pending| < l.maxPendingRequests
    && Total(s.req.pending, BytesWeight) + e.request.bytes <= l.maxRetainedRequestBytes
  }

  // -------------------------------------------------------------- one function

  predicate Same(r: Requests, r': Requests) {
    r'.pending == r.pending && r'.fates == r.fates && r'.replies == r.replies
  }

  /** The request is answered: its record is terminal, its reply logged, its fate decided. */
  predicate IsAnswered(r: Requests, r': Requests, id: nat, kind: ReplyKind)
    requires id in r.pending
  {
    var p := r.pending[id];
    && r'.pending == r.pending[id := p.(terminal := true)]
    && r'.replies == r.replies + [Reply(p.serial, kind)]
    && r'.fates == SetFate(r.fates, p.serial, Replied(kind))
  }

  lemma BeginEffect(r: Requests, lc: Lifecycle, id: nat, kind: ReplyKind)
    requires id in r.pending && id in r.calls
    ensures var r' := BeginCallback(r, lc, id, kind);
            if lc == Open && Waiting(r, id) then IsAnswered(r, r', id, kind) else Same(r, r')
  {
  }

  lemma ReturnEffect(r: Requests, lc: Lifecycle, id: nat, accepted: bool)
    requires id in r.pending && id in r.calls
    ensures var r' := InvokeReturn(r, lc, id, accepted);
            var r1 := if accepted then r else r.(pending := r.pending[id := r.pending[id].(callbackFinished := true)]);
            if !accepted && lc == Open && Waiting(r, id) then IsAnswered(r1, r', id, Refusal) else Same(r1, r')
  {
  }

  lemma EraseRecord(r: Requests, id: nat)
    ensures var r' := Erased(r, id);
            && r'.fates == r.fates && r'.replies == r.replies
            && r'.pending == (if id in r.pending && !r.pending[id].invoking && r.pending[id].callbackFinished
                                 && (r.pending[id].terminal || r.pending[id].cancelled) then r.pending - {id} else r.pending)
  {
  }

  lemma SuppressEffect(r: Requests)
    ensures var r' := Suppress(r);
            && r'.replies == r.replies && |r'.fates| == |r.fates|
            && (forall k :: 0 <= k < |r.fates| ==> r'.fates[k] == if r.fates[k].Live? then Cancelled else r.fates[k])
            && r'.pending.Keys == r.pending.Keys
            && (forall id :: id in r.pending ==> r'.pending[id] == r.pending[id].(cancelled := true))
  {
  }

  lemma AdmitEffect(l: Limits, s: State, id: nat, client: Handle, scoped: bool, bytes: nat)
    requires AccountsExact(l, s.req)
    ensures var e := OnRequest(Admit(id, client, scoped, bytes));
            var r' := AdmitRequest(l, s, id, client, scoped, bytes).req;
            if Enters(l, s, e, id) then
              && r'.pending == s.req.pending[id := Pending(|s.req.fates|, client, scoped, bytes, true, false, false, false)]
              && r'.fates == s.req.fates + [Live(id)] && r'.replies == s.req.replies
            else Same(s.req, r')
  {
  }

  // ------------------------------------------------------------------- records

  ghost predicate RecordExact(l: Limits, s: State, e: Step, id: nat, r': Requests) {
    if id in s.req.pending then
      (id in r'.pending <==> !Goes(s, e, id)) && (id in r'.pending ==> r'.pending[id] == After(s, e, id))
    else
      && (id in r'.pending <==> Enters(l, s, e, id))
      && (id in r'.pending ==>
            r'.pending[id] == Pending(|s.req.fates|, e.request.client, e.request.scoped, e.request.bytes, true, false, false, false))
  }

  lemma AdmitRecord(l: Limits, s: State, i: nat, client: Handle, scoped: bool, bytes: nat, id: nat)
    requires AccountsExact(l, s.req)
    ensures RecordExact(l, s, OnRequest(Admit(i, client, scoped, bytes)), id, AdmitRequest(l, s, i, client, scoped, bytes).req)
  {
    hide AdmitRequest, AccountsExact;
    AdmitEffect(l, s, i, client, scoped, bytes);
  }

  lemma ReturnRecord(l: Limits, s: State, i: nat, accepted: bool, id: nat)
    requires i in s.req.pending && i in s.req.calls
    ensures RecordExact(l, s, OnRequest(InvokeReturned(i, accepted)), id, InvokeReturn(s.req, s.lifecycle, i, accepted))
  {
    hide InvokeReturn, SetFate;
    ReturnEffect(s.req, s.lifecycle, i, accepted);
  }

  lemma BeginRecord(l: Limits, s: State, i: nat, kind: ReplyKind, id: nat)
    requires i in s.req.pending && i in s.req.calls
    ensures RecordExact(l, s, OnRequest(CallbackBegin(i, kind)), id, BeginCallback(s.req, s.lifecycle, i, kind))
  {
    hide BeginCallback, SetFate;
    BeginEffect(s.req, s.lifecycle, i, kind);
  }

  lemma FinishRecord(l: Limits, s: State, i: nat, id: nat)
    requires i in s.req.pending
    ensures RecordExact(l, s, OnRequest(InvokeFinished(i)), id, Erased(FinishInvoke(s.req, i), i))
  {
    hide Erased;
    EraseRecord(FinishInvoke(s.req, i), i);
  }

  lemma EndRecord(l: Limits, s: State, i: nat, id: nat)
    requires i in s.req.pending && i in s.req.calls
    ensures RecordExact(l, s, OnRequest(CallbackEnd(i)), id, Erased(EndCallback(s.req, i), i))
  {
    hide Erased;
    EraseRecord(EndCallback(s.req, i), i);
  }

  lemma CancelRecord(l: Limits, s: State, i: nat, id: nat)
    requires i in s.req.pending
    ensures RecordExact(l, s, OnRequest(Cancel(i)), id, Erased(CancelOne(s.req, i), i))
  {
    hide Erased, SetFate;
    EraseRecord(CancelOne(s.req, i), i);
  }

  lemma RequestRecords(l: Limits, s: State, x: RequestStep, id: nat)
    requires AccountsExact(l, s.req) && RequestEnabled(l, s, x)
    ensures RecordExact(l, s, OnRequest(x), id, ApplyRequest(l, s, x).req)
  {
    hide Erased, Freed, InvokeReturn, BeginCallback, AdmitRequest, CancelOne, FinishInvoke, EndCallback, AccountsExact, RecordExact;
    match x
    case Admit(i, client, scoped, bytes) => AdmitRecord(l, s, i, client, scoped, bytes, id);
    case InvokeReturned(i, accepted) => ReturnRecord(l, s, i, accepted, id);
    case InvokeFinished(i) => FinishRecord(l, s, i, id);
    case CallbackBegin(i, kind) => BeginRecord(l, s, i, kind, id);
    case CallbackEnd(i) => EndRecord(l, s, i, id);
    case Cancel(i) =>
      if i in s.req.pending {
        CancelRecord(l, s, i, id);
      } else {
        NoCancelRecord(l, s, i, id);
      }
  }

  lemma NoCancelRecord(l: Limits, s: State, i: nat, id: nat)
    requires i !in s.req.pending
    ensures RecordExact(l, s, OnRequest(Cancel(i)), id, s.req)
  {
  }

  /** The other steps leave the requests alone, cancel them all, fail one, or drop the
      records. */
  lemma SetupRequests(s: State, x: SetupStep)
    ensures ApplySetup(s, x).req == if CancelsAll(s, Setup(x)) then Suppress(s.req) else s.req
  {
    hide Suppress;
    match x
    case ActivateBegin =>
    case SpawnFailed =>
    case WorkerStart =>
    case BaseClient(_) =>
    case SetupAbandoned =>
    case ClearPartial =>
    case ActivateOpen(_) =>
    case ActivateFail =>
  }

  lemma ShutdownRequests(s: State, x: ShutdownStep)
    requires ShutdownEnabled(s, x)
    ensures var r' := ApplyShutdown(s, x).req;
            match x
            case FailOne(id) => id in s.req.pending && IsAnswered(s.req, r', id, FaultReply)
            case TeardownFinish => r'.pending == map[] && r'.fates == s.req.fates && r'.replies == s.req.replies
            case _ => r' == if CancelsAll(s, Shutdown(x)) then Suppress(s.req) else s.req
  {
    hide Suppress;
    match x
    case Close =>
    case WorkerShutdown =>
    case FailOne(_) =>
    case FailNone =>
    case WorkerFinish =>
    case EmergencyClose =>
    case TeardownStart =>
    case TeardownDetach =>
    case QuiesceSub(_) =>
    case QuiesceClient(_) =>
    case TeardownFinish =>
  }

  lemma CancelledRecord(l: Limits, s: State, e: Step, id: nat)
    requires CancelsAll(s, e)
    ensures RecordExact(l, s, e, id, Suppress(s.req))
  {
    hide Suppress;
    SuppressEffect(s.req);
  }

  lemma FailRecord(l: Limits, s: State, i: nat, id: nat, r': Requests)
    requires i in s.req.pending && Unanswered(s.req.pending[i]) && IsAnswered(s.req, r', i, FaultReply)
    ensures RecordExact(l, s, Shutdown(FailOne(i)), id, r')
  {
    hide SetFate;
  }

  lemma FinishedRecord(l: Limits, s: State, id: nat, r': Requests)
    requires r'.pending == map[]
    ensures RecordExact(l, s, Shutdown(TeardownFinish), id, r')
  {
  }

  predicate LeavesRequests(s: State, e: Step) {
    !e.OnRequest? && !CancelsAll(s, e) && e != Shutdown(TeardownFinish) && !(e.Shutdown? && e.shutdown.FailOne?)
  }

  lemma PlainRecords(l: Limits, s: State, e: Step, id: nat)
    requires LeavesRequests(s, e)
    ensures RecordExact(l, s, e, id, s.req)
  {
  }

  lemma ShutdownRecords(l: Limits, s: State, x: ShutdownStep, id: nat)
    requires ShutdownEnabled(s, x)
    ensures RecordExact(l, s, Shutdown(x), id, ApplyShutdown(s, x).req)
  {
    hide Suppress, RecordExact, ApplyShutdown, IsAnswered;
    ShutdownRequests(s, x);
    match x
    case FailOne(i) => FailRecord(l, s, i, id, ApplyShutdown(s, x).req);
    case TeardownFinish => FinishedRecord(l, s, id, ApplyShutdown(s, x).req);
    case _ =>
      if CancelsAll(s, Shutdown(x)) {
        CancelledRecord(l, s, Shutdown(x), id);
      } else {
        PlainRecords(l, s, Shutdown(x), id);
      }
  }

  lemma SetupRecords(l: Limits, s: State, x: SetupStep, id: nat)
    ensures RecordExact(l, s, Setup(x), id, ApplySetup(s, x).req)
  {
    hide Suppress, RecordExact, ApplySetup;
    SetupRequests(s, x);
    if CancelsAll(s, Setup(x)) {
      CancelledRecord(l, s, Setup(x), id);
    } else {
      PlainRecords(l, s, Setup(x), id);
    }
  }

  /** Every step, on every record: exactly which flags it sets, which records it lets go and
      which it makes. */
  lemma RecordsExact(l: Limits, s: State, e: Step, id: nat)
    requires RequestInv(l, s) && Enabled(l, s, e)
    ensures RecordExact(l, s, e, id, Apply(l, s, e).req)
  {
    hide RecordExact, ApplySetup, ApplyTable, ApplyRequest, ApplyEvent, ApplyShutdown, FlagsAgree, RepliesAgree, CallsAgree,
      AccountsExact, ControlOk, LivenessOk, TableEnabled, RequestEnabled, SetupEnabled, ShutdownEnabled;
    match e
    case OnRequest(x) => RequestRecords(l, s, x, id);
    case Setup(x) => SetupRecords(l, s, x, id);
    case Shutdown(x) => ShutdownRecords(l, s, x, id);
    case OnTable(x) => TableStepControl(l, s, x); PlainRecords(l, s, e, id);
    case OnEvent(x) => EventStepShape(l, s, x); PlainRecords(l, s, e, id);
  }

  // ------------------------------------------------------------ replies and fates

  /** The reply the step adds to the log. */
  function Given(s: State, e: Step): seq<Reply> {
    match AnswerOf(s, e)
    case Some((id, kind)) => if id in s.req.pending then [Reply(s.req.pending[id].serial, kind)] else []
    case None => []
  }

  ghost predicate LogExact(l: Limits, s: State, e: Step, r': Requests) {
    && r'.replies == s.req.replies + Given(s, e)
    && |r'.fates| == |s.req.fates| + (if e.OnRequest? && e.request.Admit? && Enters(l, s, e, e.request.id) then 1 else 0)
    && (|r'.fates| > |s.req.fates| ==> r'.fates[|s.req.fates|] == Live(e.request.id))
    && (forall k :: 0 <= k < |s.req.fates| ==> r'.fates[k] == FateAfter(s, e, k))
  }

  /** What becomes of request number `k`. */
  function FateAfter(s: State, e: Step, k: nat): Fate
    requires k < |s.req.fates|
  {
    var fate := s.req.fates[k];
    if Given(s, e) != [] && Given(s, e)[0].serial == k then Replied(Given(s, e)[0].kind)
    else if fate.Live? && (CancelsAll(s, e) || e == OnRequest(Cancel(fate.id))) then Cancelled
    else fate
  }

  lemma CancelEffect(r: Requests, id: nat)
    requires FlagsAgree(r) && id in r.pending
    ensures var r' := CancelOne(r, id);
            && |r'.fates| == |r.fates| && r'.replies == r.replies
            && forall k :: 0 <= k < |r.fates| ==> r'.fates[k] == if r.fates[k] == Live(id) then Cancelled else r.fates[k]
  {
  }

  lemma AdmitLog(l: Limits, s: State, i: nat, client: Handle, scoped: bool, bytes: nat)
    requires AccountsExact(l, s.req)
    ensures LogExact(l, s, OnRequest(Admit(i, client, scoped, bytes)), AdmitRequest(l, s, i, client, scoped, bytes).req)
  {
    hide AdmitRequest, AccountsExact, Enters;
    AdmitEffect(l, s, i, client, scoped, bytes);
  }

  lemma AnsweredLog(l: Limits, s: State, e: Step, id: nat, kind: ReplyKind, r1: Requests, r': Requests)
    requires FlagsAgree(s.req) && AnswerOf(s, e) == Some((id, kind)) && id in s.req.pending
    requires r1.fates == s.req.fates && r1.replies == s.req.replies && id in r1.pending
    requires r1.pending[id].serial == s.req.pending[id].serial && IsAnswered(r1, r', id, kind)
    ensures LogExact(l, s, e, r')
  {
    hide FlagsAgree;
    SerialListed(s.req, id);
    AnswersOnly(s, e);
  }

  /** A step that answers does not admit and does not cancel. */
  lemma AnswersOnly(s: State, e: Step)
    ensures AnswerOf(s, e).Some? ==> !CancelsAll(s, e) && (e.OnRequest? ==> !e.request.Admit? && !e.request.Cancel?)
  {
  }

  lemma SameLog(l: Limits, s: State, e: Step, r': Requests)
    requires r'.fates == s.req.fates && r'.replies == s.req.replies && AnswerOf(s, e).None? && !CancelsAll(s, e)
    requires e.OnRequest? ==>
               !e.request.Admit? && (e.request.Cancel? ==> forall k :: 0 <= k < |s.req.fates| ==> s.req.fates[k] != Live(e.request.id))
    ensures LogExact(l, s, e, r')
  {
  }

  lemma ReturnLog(l: Limits, s: State, i: nat, accepted: bool)
    requires FlagsAgree(s.req) && i in s.req.pending && i in s.req.calls
    ensures LogExact(l, s, OnRequest(InvokeReturned(i, accepted)), InvokeReturn(s.req, s.lifecycle, i, accepted))
  {
    hide InvokeReturn, FlagsAgree, LogExact, IsAnswered;
    ReturnEffect(s.req, s.lifecycle, i, accepted);
    var r1 := if accepted then s.req else s.req.(pending := s.req.pending[i := s.req.pending[i].(callbackFinished := true)]);
    var r' := InvokeReturn(s.req, s.lifecycle, i, accepted);
    if !accepted && s.lifecycle == Open && Waiting(s.req, i) {
      AnsweredLog(l, s, OnRequest(InvokeReturned(i, accepted)), i, Refusal, r1, r');
    } else {
      SameLog(l, s, OnRequest(InvokeReturned(i, accepted)), r');
    }
  }

  lemma BeginLog(l: Limits, s: State, i: nat, kind: ReplyKind)
    requires FlagsAgree(s.req) && i in s.req.pending && i in s.req.calls
    ensures LogExact(l, s, OnRequest(CallbackBegin(i, kind)), BeginCallback(s.req, s.lifecycle, i, kind))
  {
    hide BeginCallback, FlagsAgree, LogExact, IsAnswered;
    BeginEffect(s.req, s.lifecycle, i, kind);
    var r' := BeginCallback(s.req, s.lifecycle, i, kind);
    if s.lifecycle == Open && Waiting(s.req, i) {
      AnsweredLog(l, s, OnRequest(CallbackBegin(i, kind)), i, kind, s.req, r');
    } else {
      SameLog(l, s, OnRequest(CallbackBegin(i, kind)), r');
    }
  }

  lemma CancelLog(l: Limits, s: State, i: nat)
    requires FlagsAgree(s.req)
    ensures LogExact(l, s, OnRequest(Cancel(i)), if i in s.req.pending then Erased(CancelOne(s.req, i), i) else s.req)
  {
    hide Erased, CancelOne;
    if i in s.req.pending {
      EraseRecord(CancelOne(s.req, i), i);
      CancelEffect(s.req, i);
    }
  }

  lemma RequestLog(l: Limits, s: State, x: RequestStep)
    requires FlagsAgree(s.req) && AccountsExact(l, s.req) && RequestEnabled(l, s, x)
    ensures LogExact(l, s, OnRequest(x), ApplyRequest(l, s, x).req)
  {
    hide Erased, Freed, InvokeReturn, BeginCallback, AdmitRequest, CancelOne, AccountsExact, FlagsAgree, LogExact;
    match x
    case Admit(i, client, scoped, bytes) => AdmitLog(l, s, i, client, scoped, bytes);
    case InvokeReturned(i, accepted) => ReturnLog(l, s, i, accepted);
    case InvokeFinished(i) =>
      EraseRecord(FinishInvoke(s.req, i), i);
      SameLog(l, s, OnRequest(x), ApplyRequest(l, s, x).req);
    case CallbackBegin(i, kind) => BeginLog(l, s, i, kind);
    case CallbackEnd(i) =>
      EraseRecord(EndCallback(s.req, i), i);
      SameLog(l, s, OnRequest(x), ApplyRequest(l, s, x).req);
    case Cancel(i) => CancelLog(l, s, i);
  }

  lemma CancelledLog(l: Limits, s: State, e: Step)
    requires CancelsAll(s, e)
    ensures LogExact(l, s, e, Suppress(s.req))
  {
    hide Suppress;
    SuppressEffect(s.req);
  }

  lemma SetupLog(l: Limits, s: State, x: SetupStep)
    ensures LogExact(l, s, Setup(x), ApplySetup(s, x).req)
  {
    hide Suppress, LogExact, ApplySetup;
    SetupRequests(s, x);
    if CancelsAll(s, Setup(x)) {
      CancelledLog(l, s, Setup(x));
    } else {
      SameLog(l, s, Setup(x), s.req);
    }
  }

  lemma ShutdownLog(l: Limits, s: State, x: ShutdownStep)
    requires FlagsAgree(s.req) && ShutdownEnabled(s, x)
    ensures LogExact(l, s, Shutdown(x), ApplyShutdown(s, x).req)
  {
    hide Suppress, LogExact, ApplyShutdown, IsAnswered, FlagsAgree;
    ShutdownRequests(s, x);
    match x
    case FailOne(i) => AnsweredLog(l, s, Shutdown(x), i, FaultReply, s.req, ApplyShutdown(s, x).req);
    case TeardownFinish => SameLog(l, s, Shutdown(x), ApplyShutdown(s, x).req);
    case _ =>
      if CancelsAll(s, Shutdown(x)) {
        CancelledLog(l, s, Shutdown(x));
      } else {
        SameLog(l, s, Shutdown(x), s.req);
      }
  }

  /** Every step, on the log and on the fate of every request: exactly which request it
      answers and with what, which it cancels and which it admits. */
  lemma RepliesExact(l: Limits, s: State, e: Step)
    requires RequestInv(l, s) && Enabled(l, s, e)
    ensures LogExact(l, s, e, Apply(l, s, e).req)
  {
    hide LogExact, ApplySetup, ApplyTable, ApplyRequest, ApplyEvent, ApplyShutdown, FlagsAgree, RepliesAgree, CallsAgree,
      AccountsExact, ControlOk, LivenessOk, TableEnabled, RequestEnabled, SetupEnabled, ShutdownEnabled;
    match e
    case OnRequest(x) => RequestLog(l, s, x);
    case Setup(x) => SetupLog(l, s, x);
    case Shutdown(x) => ShutdownLog(l, s, x);
    case OnTable(x) => TableStepControl(l, s, x); SameLog(l, s, e, s.req);
    case OnEvent(x) => EventStepShape(l, s, x); SameLog(l, s, e, s.req);
  }

  // ------------------------------------------------------------------ whole runs

  /** In every later state the log holds exactly one reply for this request, this one. */
  predicate OnlyReply(r: Requests, serial: nat, kind: ReplyKind) {
    && Reply(serial, kind) in r.replies
    && (forall a :: 0 <= a < |r.replies| && r.replies[a].serial == serial ==> r.replies[a].kind == kind)
    && (forall a, b :: 0 <= a < b < |r.replies| && r.replies[a].serial == serial ==> r.replies[b].serial != serial)
  }

  lemma DecidedReply(r: Requests, serial: nat, kind: ReplyKind)
    requires RepliesAgree(r) && serial < |r.fates| && r.fates[serial] == Replied(kind)
    ensures OnlyReply(r, serial, kind)
  {
  }

  lemma RunReplies(l: Limits, ss: seq<State>, es: seq<Step>, i: nat)
    requires IsRun(l, ss, es) && i < |ss|
    ensures RequestInv(l, ss[i]) && FlagsAgree(ss[i].req) && RepliesAgree(ss[i].req)
  {
    hide IsRun, FlagsAgree, RepliesAgree, CallsAgree, AccountsExact, ControlOk, LivenessOk, TableInv, EventInv;
    RunInv(l, ss, es, i);
  }

  /** A request that a step of a run answers, be it with its result, a refusal or the
      failure, has in every later state exactly one reply, and it is that one. */
  lemma AnswerStays(l: Limits, ss: seq<State>, es: seq<Step>, i: nat, j: nat)
    requires IsRun(l, ss, es) && i < j < |ss| && AnswerOf(ss[i], es[i]).Some?
    ensures var (id, kind) := AnswerOf(ss[i], es[i]).value;
            && id in ss[i].req.pending
            && var k := ss[i].req.pending[id].serial;
            && k < |ss[j].req.fates| && ss[j].req.fates[k] == Replied(kind)
            && OnlyReply(ss[j].req, k, kind)
  {
    hide Enabled, Apply, RequestInv, FlagsAgree, RepliesAgree, AnswerOf, OnlyReply;
    var (id, kind) := AnswerOf(ss[i], es[i]).value;
    AnsweredPending(ss[i], es[i]);
    var k := ss[i].req.pending[id].serial;
    RunReplies(l, ss, es, i);
    RunReplies(l, ss, es, j);
    SerialListed(ss[i].req, id);
    RepliesExact(l, ss[i], es[i]);
    RunFates(l, ss, es, i + 1, j);
    DecidedReply(ss[j].req, k, kind);
  }

  lemma AnsweredPending(s: State, e: Step)
    ensures AnswerOf(s, e).Some? ==> AnswerOf(s, e).value.0 in s.req.pending
  {
  }

  lemma SerialListed(r: Requests, id: nat)
    requires FlagsAgree(r) && id in r.pending
    ensures r.pending[id].serial < |r.fates|
  {
  }

  /** A request whose callback begins while the transport is open, not yet answered or
      cancelled, has in every later state exactly one reply: what the callback brought. */
  lemma CompletionAnswers(l: Limits, ss: seq<State>, es: seq<Step>, i: nat, j: nat, id: nat, kind: ReplyKind)
    requires IsRun(l, ss, es) && i < j < |ss| && es[i] == OnRequest(CallbackBegin(id, kind))
    requires ss[i].lifecycle == Open && id in ss[i].req.pending
    requires !ss[i].req.pending[id].cancelled && !ss[i].req.pending[id].terminal
    ensures OnlyReply(ss[j].req, ss[i].req.pending[id].serial, kind)
  {
    hide IsRun, OnlyReply;
    AnswerStays(l, ss, es, i, j);
  }

  /** Every reply in the log was given by a step of the run that answers this request with
      it. */
  lemma {:induction false} RepliesHaveCauses(l: Limits, ss: seq<State>, es: seq<Step>, j: nat, reply: Reply)
    requires IsRun(l, ss, es) && j < |ss| && reply in ss[j].req.replies
    ensures exists i :: 0 <= i < j && Given(ss[i], es[i]) == [reply]
    decreases j
  {
    hide Enabled, Apply, RequestInv, Given;
    if j > 0 {
      RunReplies(l, ss, es, j - 1);
      RepliesExact(l, ss[j - 1], es[j - 1]);
      GivenOne(ss[j - 1], es[j - 1]);
      if reply in ss[j - 1].req.replies {
        RepliesHaveCauses(l, ss, es, j - 1, reply);
      }
    }
  }

  lemma GivenOne(s: State, e: Step)
    ensures |Given(s, e)| <= 1
  {
  }
}
