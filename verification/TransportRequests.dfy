/** Invariants of the request half of the transport: exact accounts, record
    lifetime, and one reply per request in every interleaving. */
module TransportRequests {
  import opened Totals
  import opened TransportModel

  function InvokingWeight(p: Pending): nat { if p.invoking then 1 else 0 }
  function BytesWeight(p: Pending): nat { p.bytes }

  /** The flags of a record and the recorded fate of its request say the same. */
  predicate FateAgrees(id: nat, p: Pending, fate: Fate) {
    && (Unanswered(p) ==> fate == Live(id))
    && (p.terminal ==> fate.Replied?)
    && (p.cancelled && !p.terminal ==> fate == Cancelled)
  }

  ghost predicate FlagsAgree(r: Requests) {
    && (forall id :: id in r.pending ==>
          r.pending[id].serial < |r.fates| && FateAgrees(id, r.pending[id], r.fates[r.pending[id].serial]))
    && (forall k :: 0 <= k < |r.fates| && r.fates[k].Live? ==>
          r.fates[k].id in r.pending && r.pending[r.fates[k].id].serial == k)
    && (forall i, j :: i in r.pending && j in r.pending && r.pending[i].serial == r.pending[j].serial ==> i == j)
  }

  /** The reply log holds each answered request once, and nothing else. */
  ghost predicate RepliesAgree(r: Requests) {
    && (forall i :: 0 <= i < |r.replies| ==>
          r.replies[i].serial < |r.fates| && r.fates[r.replies[i].serial] == Replied(r.replies[i].kind))
    && (forall i, j :: 0 <= i < j < |r.replies| ==> r.replies[i].serial != r.replies[j].serial)
    && (forall k :: 0 <= k < |r.fates| && r.fates[k].Replied? ==> Reply(k, r.fates[k].kind) in r.replies)
  }

  /** The flags of a record and the state of its foreign call say the same. */
  predicate CallAgrees(p: Pending, c: Call, destroyed: set<Handle>) {
    && (p.callbackFinished <==> c.callback == Ran || c.refused)
    && (c.refused ==> c.returned && c.callback == Idle)
    && (!c.returned ==> p.invoking)
    && (c.callback == Running ==> p.client !in destroyed)
  }

  ghost predicate CallsAgree(r: Requests, destroyed: set<Handle>) {
    && r.calls.Keys == r.pending.Keys
    && (forall id :: id in r.pending ==> CallAgrees(r.pending[id], r.calls[id], destroyed))
  }

  ghost predicate AccountsExact(l: Limits, r: Requests) {
    && r.activeInvokes == Total(r.pending, InvokingWeight)
    && r.retainedBytes == Total(r.pending, BytesWeight) <= l.maxRetainedRequestBytes
    && |r.pending| <= l.maxPendingRequests
  }

  ghost predicate RequestsOk(l: Limits, r: Requests, destroyed: set<Handle>) {
    FlagsAgree(r) && RepliesAgree(r) && CallsAgree(r, destroyed) && AccountsExact(l, r)
  }

  ghost predicate NoneLive(r: Requests) {
    forall k :: 0 <= k < |r.fates| ==> !r.fates[k].Live?
  }

  /** How the lifecycle, the worker and the teardown flags may combine. */
  ghost predicate ControlOk(s: State) {
    && (s.lifecycle == Dormant ==> s.worker == Unstarted && !s.activationInProgress)
    && (s.lifecycle == Activating ==>
          s.activationInProgress && !s.setupComplete && (s.worker == Unstarted || s.worker == Serving))
    && (s.lifecycle == Open ==> !s.activationInProgress && s.setupComplete && s.worker == Serving)
    && (s.worker == FailingPending ==> s.lifecycle == Faulting)
    && (s.worker == Finishing || s.worker == Stopped ==>
          s.lifecycle == Faulting || s.lifecycle == Closing || s.lifecycle == Closed)
    && (s.lifecycle == Closed ==> s.worker == Unstarted || s.worker == Stopped)
    && (s.workerLive <==> s.worker == Serving || s.worker == FailingPending || s.worker == Finishing)
    && (s.teardownStarted ==> s.worker == Stopped && s.setupComplete)
    && (s.detached ==> s.teardownStarted)
    && (s.lifecycle == Closed && s.worker == Unstarted ==> !s.activationInProgress)
  }

  /** Unanswered requests exist only while the transport is open or failing. */
  ghost predicate LivenessOk(s: State) {
    && (s.lifecycle != Open && s.lifecycle != Faulting ==> NoneLive(s.req))
    && (s.worker == Finishing || s.worker == Stopped || s.worker == Unstarted ==> NoneLive(s.req))
  }

  ghost predicate RequestInv(l: Limits, s: State) {
    && RequestsOk(l, s.req, s.table.destroyed) && ControlOk(s) && LivenessOk(s)
    && (s.detached ==> s.req.activeInvokes == 0)
  }

  // ------------------------------------------------- one change at a time

  /** Rewriting one record without touching its account. */
  lemma AccountsRewrite(l: Limits, r: Requests, r': Requests, id: nat, p: Pending)
    requires AccountsExact(l, r) && id in r.pending && r'.pending == r.pending[id := p]
    requires p.bytes == r.pending[id].bytes && r'.retainedBytes == r.retainedBytes
    requires r'.activeInvokes + InvokingWeight(r.pending[id]) == r.activeInvokes + InvokingWeight(p)
    ensures AccountsExact(l, r')
  {
    TotalUpdate(r.pending, id, p, InvokingWeight);
    TotalUpdate(r.pending, id, p, BytesWeight);
    assert r'.pending.Keys == r.pending.Keys;
    assert |r'.pending| == |r'.pending.Keys|;
  }

  /** Rewriting one record without touching its serial, `cancelled` or `terminal`. */
  lemma FlagsRewrite(r: Requests, r': Requests, id: nat, p: Pending)
    requires FlagsAgree(r) && id in r.pending && r'.pending == r.pending[id := p] && r'.fates == r.fates
    requires p.serial == r.pending[id].serial && p.cancelled == r.pending[id].cancelled
    requires p.terminal == r.pending[id].terminal
    ensures FlagsAgree(r')
  {
    assert forall i :: i in r'.pending ==> r'.pending[i].serial == r.pending[i].serial;
  }

  lemma AnswerFlags(r: Requests, id: nat, kind: ReplyKind)
    requires FlagsAgree(r) && id in r.pending && Unanswered(r.pending[id])
    ensures FlagsAgree(Answer(r, id, kind))
  {
    var r' := Answer(r, id, kind);
    assert forall i :: i in r'.pending ==> r'.pending[i].serial == r.pending[i].serial;
  }

  lemma AnswerReplies(r: Requests, id: nat, kind: ReplyKind)
    requires FlagsAgree(r) && RepliesAgree(r) && id in r.pending && Unanswered(r.pending[id])
    ensures RepliesAgree(Answer(r, id, kind))
  {
    var r' := Answer(r, id, kind);
    var n := r.pending[id].serial;
    assert r.fates[n] == Live(id);
    assert r'.replies[|r.replies|] == Reply(n, kind);
    assert forall x :: x in r.replies ==> x in r'.replies;
  }

  /** Writing one record and its call, old or new. */
  lemma CallsRewrite(r: Requests, r': Requests, gone: set<Handle>, id: nat, p: Pending, c: Call)
    requires CallsAgree(r, gone) && CallAgrees(p, c, gone)
    requires r'.pending == r.pending[id := p] && r'.calls == r.calls[id := c]
    ensures CallsAgree(r', gone)
  {
    assert r'.pending.Keys == r.pending.Keys + {id} && r'.calls.Keys == r.calls.Keys + {id};
  }

  lemma RepliesRewrite(r: Requests, r': Requests)
    requires RepliesAgree(r) && r'.replies == r.replies && |r'.fates| >= |r.fates|
    requires forall k :: 0 <= k < |r.fates| && r.fates[k].Replied? ==> r'.fates[k] == r.fates[k]
    requires forall k :: 0 <= k < |r'.fates| && r'.fates[k].Replied? ==> k < |r.fates| && r'.fates[k] == r.fates[k]
    ensures RepliesAgree(r')
  {
  }

  lemma AnswerKeeps(l: Limits, r: Requests, gone: set<Handle>, id: nat, kind: ReplyKind)
    requires RequestsOk(l, r, gone) && id in r.pending && Unanswered(r.pending[id])
    ensures RequestsOk(l, Answer(r, id, kind), gone)
  {
    hide FlagsAgree, RepliesAgree, AccountsExact;
    var p := r.pending[id].(terminal := true);
    AccountsRewrite(l, r, Answer(r, id, kind), id, p);
    AnswerFlags(r, id, kind);
    AnswerReplies(r, id, kind);
    CallsRewrite(r, Answer(r, id, kind), gone, id, p, r.calls[id]);
  }

  lemma CancelFlags(r: Requests, id: nat)
    requires FlagsAgree(r) && id in r.pending
    ensures FlagsAgree(CancelOne(r, id))
  {
    var r' := CancelOne(r, id);
    assert forall i :: i in r'.pending ==> r'.pending[i].serial == r.pending[i].serial;
  }

  lemma CancelReplies(r: Requests, id: nat)
    requires FlagsAgree(r) && RepliesAgree(r) && id in r.pending
    ensures RepliesAgree(CancelOne(r, id))
  {
    RepliesRewrite(r, CancelOne(r, id));
  }

  lemma CancelKeeps(l: Limits, r: Requests, gone: set<Handle>, id: nat)
    requires RequestsOk(l, r, gone) && id in r.pending
    ensures RequestsOk(l, CancelOne(r, id), gone)
  {
    hide FlagsAgree, RepliesAgree, AccountsExact;
    var p := r.pending[id].(cancelled := true);
    AccountsRewrite(l, r, CancelOne(r, id), id, p);
    CancelFlags(r, id);
    CancelReplies(r, id);
    CallsRewrite(r, CancelOne(r, id), gone, id, p, r.calls[id]);
  }

  lemma SuppressFlags(r: Requests)
    requires FlagsAgree(r)
    ensures FlagsAgree(Suppress(r)) && NoneLive(Suppress(r))
  {
    var r' := Suppress(r);
    assert forall i :: i in r'.pending ==> r'.pending[i].serial == r.pending[i].serial;
  }

  lemma SuppressAccounts(l: Limits, r: Requests)
    requires AccountsExact(l, r)
    ensures AccountsExact(l, Suppress(r))
  {
    var m := Suppress(r).pending;
    assert m.Keys == r.pending.Keys;
    assert |m| == |m.Keys|;
    TotalSame(r.pending, m, InvokingWeight);
    TotalSame(r.pending, m, BytesWeight);
  }

  lemma SuppressKeeps(l: Limits, r: Requests, gone: set<Handle>)
    requires RequestsOk(l, r, gone)
    ensures RequestsOk(l, Suppress(r), gone) && NoneLive(Suppress(r))
  {
    hide FlagsAgree, AccountsExact;
    SuppressFlags(r);
    SuppressAccounts(l, r);
    RepliesRewrite(r, Suppress(r));
    assert Suppress(r).pending.Keys == r.pending.Keys;
  }

  /** Recording that the library refused the invoke, before any reply. */
  lemma RefusalKeeps(l: Limits, r: Requests, gone: set<Handle>, id: nat)
    requires RequestsOk(l, r, gone) && id in r.pending
    requires !r.calls[id].returned && r.calls[id].callback == Idle
    ensures RequestsOk(l, SetPending(SetCall(r, id, r.calls[id].(returned := true, refused := true)), id,
                                     r.pending[id].(callbackFinished := true)), gone)
  {
    hide FlagsAgree, RepliesAgree, AccountsExact;
    var p := r.pending[id].(callbackFinished := true);
    var r' := SetPending(SetCall(r, id, r.calls[id].(returned := true, refused := true)), id, p);
    AccountsRewrite(l, r, r', id, p);
    FlagsRewrite(r, r', id, p);
    RepliesRewrite(r, r');
    CallsRewrite(r, r', gone, id, p, r.calls[id].(returned := true, refused := true));
  }

  lemma CallKeeps(l: Limits, r: Requests, gone: set<Handle>, id: nat, c: Call)
    requires RequestsOk(l, r, gone) && id in r.pending
    requires c.refused == r.calls[id].refused && (r.calls[id].returned ==> c.returned)
    requires c.callback == r.calls[id].callback
             || (r.calls[id].callback == Idle && c.callback == Running && !c.refused && r.pending[id].client !in gone)
    ensures RequestsOk(l, SetCall(r, id, c), gone)
  {
    hide FlagsAgree, RepliesAgree;
    CallsRewrite(r, SetCall(r, id, c), gone, id, r.pending[id], c);
    FlagsFrame(r, SetCall(r, id, c));
    RepliesRewrite(r, SetCall(r, id, c));
  }

  lemma FlagsFrame(r: Requests, r': Requests)
    requires FlagsAgree(r) && r'.pending == r.pending && r'.fates == r.fates
    ensures FlagsAgree(r')
  {
  }

  lemma InvokeReturnKeeps(l: Limits, r: Requests, gone: set<Handle>, lc: Lifecycle, id: nat, accepted: bool)
    requires RequestsOk(l, r, gone) && id in r.pending
    requires !r.calls[id].returned && (!accepted ==> r.calls[id].callback == Idle)
    ensures RequestsOk(l, InvokeReturn(r, lc, id, accepted), gone)
  {
    hide FlagsAgree, RepliesAgree, AccountsExact;
    if accepted {
      CallKeeps(l, r, gone, id, r.calls[id].(returned := true, refused := false));
    } else {
      RefusalKeeps(l, r, gone, id);
      if lc == Open && Unanswered(r.pending[id]) {
        AnswerKeeps(l, SetPending(SetCall(r, id, r.calls[id].(returned := true, refused := true)), id,
                                  r.pending[id].(callbackFinished := true)), gone, id, Refusal);
      }
    }
  }

  lemma FinishInvokeKeeps(l: Limits, r: Requests, gone: set<Handle>, id: nat)
    requires RequestsOk(l, r, gone) && id in r.pending && r.calls[id].returned && r.pending[id].invoking
    ensures RequestsOk(l, FinishInvoke(r, id), gone)
    ensures FinishInvoke(r, id).activeInvokes == r.activeInvokes - 1
  {
    hide FlagsAgree, RepliesAgree;
    var p := r.pending[id].(invoking := false);
    TotalAtLeast(r.pending, id, InvokingWeight);
    AccountsRewrite(l, r, FinishInvoke(r, id), id, p);
    FlagsRewrite(r, FinishInvoke(r, id), id, p);
    RepliesRewrite(r, FinishInvoke(r, id));
    CallsRewrite(r, FinishInvoke(r, id), gone, id, p, r.calls[id]);
  }

  lemma BeginCallbackKeeps(l: Limits, r: Requests, gone: set<Handle>, lc: Lifecycle, id: nat, kind: ReplyKind)
    requires RequestsOk(l, r, gone) && id in r.pending
    requires r.calls[id].callback == Idle && !r.calls[id].refused && r.pending[id].client !in gone
    ensures RequestsOk(l, BeginCallback(r, lc, id, kind), gone)
  {
    hide FlagsAgree, RepliesAgree, AccountsExact;
    var c := r.calls[id].(callback := Running);
    CallKeeps(l, r, gone, id, c);
    if lc == Open && Unanswered(r.pending[id]) {
      AnswerKeeps(l, SetCall(r, id, c), gone, id, kind);
    }
  }

  lemma EndCallbackKeeps(l: Limits, r: Requests, gone: set<Handle>, id: nat)
    requires RequestsOk(l, r, gone) && id in r.pending && r.calls[id].callback == Running
    ensures RequestsOk(l, EndCallback(r, id), gone)
  {
    hide FlagsAgree, RepliesAgree, AccountsExact;
    var p := r.pending[id].(callbackFinished := true);
    AccountsRewrite(l, r, EndCallback(r, id), id, p);
    FlagsRewrite(r, EndCallback(r, id), id, p);
    RepliesRewrite(r, EndCallback(r, id));
    CallsRewrite(r, EndCallback(r, id), gone, id, p, r.calls[id].(callback := Ran));
  }

  lemma EraseFlags(r: Requests, id: nat)
    requires FlagsAgree(r)
    ensures FlagsAgree(Erased(r, id))
  {
    if Erasable(r, id) {
      assert !r.fates[r.pending[id].serial].Live?;
      assert forall k :: 0 <= k < |r.fates| && r.fates[k].Live? ==> r.fates[k].id != id;
    }
  }

  /** Erasing a finished record keeps the accounts; the saturating subtraction
      never saturates. */
  lemma EraseAccounts(l: Limits, r: Requests, id: nat)
    requires AccountsExact(l, r)
    ensures AccountsExact(l, Erased(r, id))
    ensures Erasable(r, id) ==> Erased(r, id).retainedBytes == r.retainedBytes - r.pending[id].bytes
  {
    if Erasable(r, id) {
      TotalRemove(r.pending, id, InvokingWeight);
      TotalRemove(r.pending, id, BytesWeight);
      assert (r.pending - {id}).Keys == r.pending.Keys - {id};
      assert |r.pending - {id}| == |(r.pending - {id}).Keys|;
    }
  }

  lemma EraseCalls(r: Requests, gone: set<Handle>, id: nat)
    requires CallsAgree(r, gone)
    ensures CallsAgree(Erased(r, id), gone)
  {
    assert (r.pending - {id}).Keys == r.pending.Keys - {id};
    assert (r.calls - {id}).Keys == r.calls.Keys - {id};
  }

  lemma EraseEffect(r: Requests, id: nat)
    ensures Erased(r, id).fates == r.fates && Erased(r, id).replies == r.replies
    ensures Erased(r, id).activeInvokes == r.activeInvokes
  {
  }

  lemma EraseKeeps(l: Limits, r: Requests, gone: set<Handle>, id: nat)
    requires RequestsOk(l, r, gone)
    ensures RequestsOk(l, Erased(r, id), gone)
  {
    hide FlagsAgree, CallsAgree, AccountsExact, Erased;
    EraseFlags(r, id);
    EraseAccounts(l, r, id);
    EraseEffect(r, id);
    RepliesRewrite(r, Erased(r, id));
    EraseCalls(r, gone, id);
  }

  lemma AdmitFlags(l: Limits, s: State, id: nat, client: Handle, scoped: bool, bytes: nat)
    requires FlagsAgree(s.req)
    ensures FlagsAgree(AdmitRequest(l, s, id, client, scoped, bytes).req)
  {
  }

  lemma AdmitAccounts(l: Limits, s: State, id: nat, client: Handle, scoped: bool, bytes: nat)
    requires AccountsExact(l, s.req)
    ensures AccountsExact(l, AdmitRequest(l, s, id, client, scoped, bytes).req)
  {
    if Admissible(l, s, id, bytes) {
      var p := Pending(|s.req.fates|, client, scoped, bytes, true, false, false, false);
      TotalUpdate(s.req.pending, id, p, InvokingWeight);
      TotalUpdate(s.req.pending, id, p, BytesWeight);
      assert s.req.pending[id := p].Keys == s.req.pending.Keys + {id};
      assert |s.req.pending[id := p]| == |s.req.pending[id := p].Keys|;
    }
  }

  lemma AdmitKeeps(l: Limits, s: State, id: nat, client: Handle, scoped: bool, bytes: nat)
    requires RequestsOk(l, s.req, s.table.destroyed)
    ensures RequestsOk(l, AdmitRequest(l, s, id, client, scoped, bytes).req, s.table.destroyed)
  {
    hide FlagsAgree, RepliesAgree, AccountsExact;
    var r' := AdmitRequest(l, s, id, client, scoped, bytes).req;
    AdmitFlags(l, s, id, client, scoped, bytes);
    AdmitAccounts(l, s, id, client, scoped, bytes);
    RepliesRewrite(s.req, r');
    if Admissible(l, s, id, bytes) {
      CallsRewrite(s.req, r', s.table.destroyed, id, r'.pending[id], Call(false, false, Idle));
    }
  }

  // ----------------------------------------------------------- every step

  /** Fates are written once: what is decided stays, and serials are not reused. */
  ghost predicate FatesKept(r: Requests, r': Requests) {
    && |r.fates| <= |r'.fates| && |r.replies| <= |r'.replies| && r'.replies[..|r.replies|] == r.replies
    && (forall k :: 0 <= k < |r.fates| && !r.fates[k].Live? ==> r'.fates[k] == r.fates[k])
    && (forall k :: 0 <= k < |r.fates| && r'.fates[k].Live? ==> r'.fates[k] == r.fates[k])
  }

  /** Nothing unanswered appears. */
  lemma NoneLiveKept(r: Requests, r': Requests)
    requires NoneLive(r) && FatesKept(r, r') && |r'.fates| == |r.fates|
    ensures NoneLive(r')
  {
  }

  lemma InvokeReturnFates(r: Requests, lc: Lifecycle, id: nat, accepted: bool)
    requires FlagsAgree(r) && id in r.pending && id in r.calls
    ensures FatesKept(r, InvokeReturn(r, lc, id, accepted))
    ensures |InvokeReturn(r, lc, id, accepted).fates| == |r.fates|
  {
  }

  lemma BeginCallbackFates(r: Requests, lc: Lifecycle, id: nat, kind: ReplyKind)
    requires FlagsAgree(r) && id in r.pending && id in r.calls
    ensures FatesKept(r, BeginCallback(r, lc, id, kind))
    ensures |BeginCallback(r, lc, id, kind).fates| == |r.fates|
  {
  }

  lemma CancelFates(r: Requests, id: nat)
    requires FlagsAgree(r) && id in r.pending
    ensures FatesKept(r, CancelOne(r, id)) && |CancelOne(r, id).fates| == |r.fates|
  {
  }

  lemma RequestStepFates(l: Limits, s: State, e: RequestStep)
    requires RequestInv(l, s) && RequestEnabled(l, s, e)
    ensures FatesKept(s.req, ApplyRequest(l, s, e).req)
    ensures !e.Admit? ==> |ApplyRequest(l, s, e).req.fates| == |s.req.fates|
  {
    hide RepliesAgree, CallsAgree, AccountsExact, ControlOk, LivenessOk, Erased, Freed;
    match e
    case Admit(_, _, _, _) =>
    case InvokeReturned(id, accepted) => InvokeReturnFates(s.req, s.lifecycle, id, accepted);
    case InvokeFinished(id) => EraseEffect(FinishInvoke(s.req, id), id);
    case CallbackBegin(id, kind) => BeginCallbackFates(s.req, s.lifecycle, id, kind);
    case CallbackEnd(id) => EraseEffect(EndCallback(s.req, id), id);
    case Cancel(id) =>
      if id in s.req.pending {
        CancelFates(s.req, id);
        EraseEffect(CancelOne(s.req, id), id);
      }
  }

  lemma RequestStepOk(l: Limits, s: State, e: RequestStep)
    requires RequestInv(l, s) && RequestEnabled(l, s, e)
    ensures RequestsOk(l, ApplyRequest(l, s, e).req, s.table.destroyed)
  {
    hide FlagsAgree, RepliesAgree, AccountsExact, ControlOk, LivenessOk, Erased, Freed;
    match e
    case Admit(id, client, scoped, bytes) => AdmitKeeps(l, s, id, client, scoped, bytes);
    case InvokeReturned(id, accepted) =>
      InvokeReturnKeeps(l, s.req, s.table.destroyed, s.lifecycle, id, accepted);
    case InvokeFinished(id) =>
      FinishInvokeKeeps(l, s.req, s.table.destroyed, id);
      EraseKeeps(l, FinishInvoke(s.req, id), s.table.destroyed, id);
    case CallbackBegin(id, kind) => BeginCallbackKeeps(l, s.req, s.table.destroyed, s.lifecycle, id, kind);
    case CallbackEnd(id) =>
      EndCallbackKeeps(l, s.req, s.table.destroyed, id);
      EraseKeeps(l, EndCallback(s.req, id), s.table.destroyed, id);
    case Cancel(id) =>
      if id in s.req.pending {
        CancelKeeps(l, s.req, s.table.destroyed, id);
        EraseKeeps(l, CancelOne(s.req, id), s.table.destroyed, id);
      }
  }

  lemma RequestStepKept(l: Limits, s: State, e: RequestStep)
    requires RequestInv(l, s) && RequestEnabled(l, s, e)
    ensures RequestInv(l, ApplyRequest(l, s, e))
  {
    hide RequestsOk, FatesKept, NoneLive, ApplyRequest, RequestEnabled;
    RequestStepOk(l, s, e);
    RequestStepFates(l, s, e);
    RequestStepControl(l, s, e);
    var s' := ApplyRequest(l, s, e);
    if NoneLive(s.req) && |s'.req.fates| == |s.req.fates| {
      NoneLiveKept(s.req, s'.req);
    }
  }

  /** No more invokes and no more requests than before. */
  predicate NoMore(r: Requests, r': Requests) {
    r'.activeInvokes <= r.activeInvokes && |r'.fates| == |r.fates|
  }

  lemma RewritesNoMore(r: Requests, lc: Lifecycle, id: nat, accepted: bool, kind: ReplyKind)
    requires id in r.pending && id in r.calls
    ensures NoMore(r, InvokeReturn(r, lc, id, accepted)) && NoMore(r, BeginCallback(r, lc, id, kind))
    ensures NoMore(r, Erased(EndCallback(r, id), id))
  {
    hide Erased;
    EraseEffect(EndCallback(r, id), id);
  }

  lemma EndsNoMore(r: Requests, id: nat)
    requires id in r.pending
    ensures NoMore(r, Erased(FinishInvoke(r, id), id)) && NoMore(r, Erased(CancelOne(r, id), id))
  {
    hide Erased;
    EraseEffect(FinishInvoke(r, id), id);
    EraseEffect(CancelOne(r, id), id);
  }

  predicate OnlyRequests(s: State, s': State) {
    && s' == s.(req := s'.req, table := s'.table) && s'.table.destroyed == s.table.destroyed
    && (NoMore(s.req, s'.req) || Serviceable(s))
  }

  lemma AdmitOnly(l: Limits, s: State, id: nat, client: Handle, scoped: bool, bytes: nat)
    ensures OnlyRequests(s, AdmitRequest(l, s, id, client, scoped, bytes))
  {
  }

  lemma SetOnly(s: State, r: Requests)
    requires NoMore(s.req, r)
    ensures OnlyRequests(s, s.(req := r))
  {
  }

  lemma ReapOnly(s: State, r: Requests, id: nat)
    requires NoMore(s.req, Erased(r, id))
    ensures OnlyRequests(s, Reap(s.(req := r), id))
  {
    hide Erased, Freed;
  }

  lemma RequestStepOnly(l: Limits, s: State, e: RequestStep)
    requires RequestEnabled(l, s, e)
    ensures OnlyRequests(s, ApplyRequest(l, s, e))
  {
    hide Erased, Reap, InvokeReturn, BeginCallback, EndCallback, FinishInvoke, CancelOne, AdmitRequest, NoMore, OnlyRequests;
    match e
    case Admit(id, client, scoped, bytes) => AdmitOnly(l, s, id, client, scoped, bytes);
    case InvokeReturned(id, accepted) =>
      RewritesNoMore(s.req, s.lifecycle, id, accepted, Malformed);
      SetOnly(s, InvokeReturn(s.req, s.lifecycle, id, accepted));
    case InvokeFinished(id) =>
      EndsNoMore(s.req, id);
      ReapOnly(s, FinishInvoke(s.req, id), id);
    case CallbackBegin(id, kind) =>
      RewritesNoMore(s.req, s.lifecycle, id, true, kind);
      SetOnly(s, BeginCallback(s.req, s.lifecycle, id, kind));
    case CallbackEnd(id) =>
      RewritesNoMore(s.req, s.lifecycle, id, true, Malformed);
      ReapOnly(s, EndCallback(s.req, id), id);
    case Cancel(id) =>
      if id in s.req.pending {
        EndsNoMore(s.req, id);
        ReapOnly(s, CancelOne(s.req, id), id);
      } else {
        SameOnly(s);
      }
  }

  lemma SameOnly(s: State)
    ensures OnlyRequests(s, s)
  {
  }

  lemma RequestStepControl(l: Limits, s: State, e: RequestStep)
    requires RequestEnabled(l, s, e)
    ensures ApplyRequest(l, s, e) == s.(req := ApplyRequest(l, s, e).req, table := ApplyRequest(l, s, e).table)
    ensures ApplyRequest(l, s, e).table.destroyed == s.table.destroyed
    ensures ApplyRequest(l, s, e).req.activeInvokes <= s.req.activeInvokes || Serviceable(s)
    ensures |ApplyRequest(l, s, e).req.fates| == |s.req.fates| || Serviceable(s)
  {
    hide ApplyRequest, RequestEnabled;
    RequestStepOnly(l, s, e);
  }

  lemma SetupStepKept(l: Limits, s: State, e: SetupStep)
    requires RequestInv(l, s) && SetupEnabled(l, s, e)
    ensures RequestInv(l, ApplySetup(s, e)) && FatesKept(s.req, ApplySetup(s, e).req)
  {
    hide RequestsOk;
    if e.ActivateFail? {
      SuppressKeeps(l, s.req, s.table.destroyed);
    }
  }

  /** An event step changes the queue, or faults, and nothing else. */
  ghost predicate OnlyEvents(s: State, s': State) {
    s' == s.(lifecycle := s'.lifecycle, ownsEvents := s'.ownsEvents, ev := s'.ev)
    && (s'.lifecycle == s.lifecycle || (s'.lifecycle == Faulting && (s.lifecycle == Open || s.lifecycle == Activating)))
  }

  lemma FaultShape(s: State)
    ensures OnlyEvents(s, Fault(s))
  {
  }

  lemma QueueShape(s: State, ev: Events)
    ensures OnlyEvents(s, s.(ev := ev))
  {
  }

  lemma SetEventsShape(s: State, ev: Option<Events>)
    ensures OnlyEvents(s, SetEvents(s, ev))
  {
    hide OnlyEvents, Fault;
    FaultShape(s);
    if ev.Some? {
      QueueShape(s, ev.value);
    }
  }

  lemma EventStepShape(l: Limits, s: State, e: EventStep)
    requires EventEnabled(s, e)
    ensures OnlyEvents(s, ApplyEvent(l, s, e))
  {
    hide OnlyEvents, Fault, EventBytes, Enqueue, SetEvents;
    FaultShape(s);
    QueueShape(s, s.ev);
    QueueShape(s, ApplyEvent(l, s, e).ev);
    if e.Ingest? {
      SetEventsShape(s, Enqueue(l, s.ev, e.event));
    }
  }

  lemma EventStepKept(l: Limits, s: State, e: EventStep)
    requires RequestInv(l, s) && EventEnabled(s, e)
    ensures RequestInv(l, ApplyEvent(l, s, e)) && ApplyEvent(l, s, e).req == s.req
  {
    hide RequestsOk, NoneLive, ApplyEvent;
    EventStepShape(l, s, e);
  }

  lemma AnswerFates(r: Requests, id: nat, kind: ReplyKind)
    requires FlagsAgree(r) && id in r.pending && Unanswered(r.pending[id])
    ensures FatesKept(r, Answer(r, id, kind)) && |Answer(r, id, kind).fates| == |r.fates|
  {
  }

  lemma FailOneKept(l: Limits, s: State, id: nat)
    requires RequestInv(l, s) && ShutdownEnabled(s, FailOne(id))
    ensures RequestInv(l, ApplyShutdown(s, FailOne(id))) && FatesKept(s.req, ApplyShutdown(s, FailOne(id)).req)
  {
    hide FlagsAgree, RepliesAgree, CallsAgree, AccountsExact, FatesKept, NoneLive;
    AnswerKeeps(l, s.req, s.table.destroyed, id, FaultReply);
    AnswerFates(s.req, id, FaultReply);
  }

  /** When the worker finds nothing left to fail, every request is decided. */
  lemma NothingLeft(r: Requests)
    requires FlagsAgree(r) && forall id :: id in r.pending ==> !Unanswered(r.pending[id])
    ensures NoneLive(r)
  {
  }

  /** Teardown empties the table only when nothing is live. */
  lemma ClearedOk(l: Limits, r: Requests, gone: set<Handle>)
    requires RequestsOk(l, r, gone) && NoneLive(r) && r.activeInvokes == 0
    ensures RequestsOk(l, r.(pending := map[], calls := map[], retainedBytes := 0), gone)
  {
  }

  lemma QuiesceCalls(r: Requests, gone: set<Handle>, h: Handle)
    requires CallsAgree(r, gone)
    requires forall id :: id in r.pending && id in r.calls && r.pending[id].client == h ==> r.calls[id].callback != Running
    ensures CallsAgree(r, gone + {h})
  {
  }

  lemma ShutdownStepKept(l: Limits, s: State, e: ShutdownStep)
    requires RequestInv(l, s) && ShutdownEnabled(s, e)
    ensures RequestInv(l, ApplyShutdown(s, e)) && FatesKept(s.req, ApplyShutdown(s, e).req)
  {
    hide FlagsAgree, RepliesAgree, CallsAgree, AccountsExact;
    match e
    case FailOne(id) => FailOneKept(l, s, id);
    case Close => SuppressKeeps(l, s.req, s.table.destroyed);
    case FailNone => NothingLeft(s.req);
    case QuiesceClient(h) => QuiesceCalls(s.req, s.table.destroyed, h);
    case TeardownFinish => ClearedOk(l, s.req, s.table.destroyed);
    case WorkerShutdown =>
    case WorkerFinish =>
    case EmergencyClose =>
    case TeardownStart =>
    case TeardownDetach =>
    case QuiesceSub(_) =>
  }
}
