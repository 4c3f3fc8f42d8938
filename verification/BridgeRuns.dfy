/** Whole runs of the asynchronous bridge. */
module BridgeRuns {
  import opened Totals
  import opened BridgeTokens
  import opened BridgeModel
  import opened BridgeAccounts
  import opened BridgeFlow

  /** The first closer moves through its phases once. When its wait is over nothing is
      inside the core and no callback is owed, and that stays so. */
  predicate CloserOk(life: Lifecycle, closer: Closer, frees: nat, f: Flow) {
    && (life.Open? <==> closer.NotCalled?)
    && (life.Closed? <==> closer.Finished?)
    && frees == (if closer.Freed? || closer.Finished? then 1 else 0)
    && (Freeing(closer) ==> f.owners == 0 && f.active == 0)
  }

  predicate Freeing(closer: Closer) {
    closer.InFree? || closer.Freed? || closer.Finished?
  }

  ghost predicate Inv(l: Limits, space: nat, s: State) {
    && TableOk(l, space, s.table)
    && FlowOk(s.table, s.flow)
    && CloserOk(s.life, s.closer, s.frees, s.flow)
  }

  ghost predicate IsRun(l: Limits, space: nat, ss: seq<State>, es: seq<Step>) {
    && |ss| == |es| + 1
    && ss[0] == Initial()
    && forall i :: 0 <= i < |es| ==> Enabled(l, space, ss[i], es[i]) && ss[i + 1] == Apply(l, space, ss[i], es[i])
  }

  lemma EmptyTableOk(l: Limits, space: nat)
    ensures TableOk(l, space, NO_TABLE)
  {
    assert Total<nat, Entry>(map[], InputOf) == 0 == Total<nat, Entry>(map[], ResponseOf);
  }

  lemma InitialInv(l: Limits, space: nat)
    ensures Inv(l, space, Initial())
  {
    EmptyTableOk(l, space);
    assert Total<nat, CoreCall>(map[], LiveOf) == 0 == Total<nat, CoreCall>(map[], StackOf);
    hide TableOk;
  }

  lemma DisjointIds(l: Limits, space: nat, t: Table)
    requires TableOk(l, space, t)
    ensures t.entries.Keys !! t.detached
  {
  }

  // -------------------------------------------------------------- step by step

  lemma StartStep(l: Limits, space: nat, s: State, context: nat, correlation: string, g: Target, now: int)
    requires ValidLimits(l) && space < TWO64 && Inv(l, space, s) && context !in s.flow.calls
    ensures Inv(l, space, ApplyStart(l, space, s, context, correlation, g, now))
  {
    hide TableOk, FlowOk, MakeToken, Allocate, InputBytes, Inserted, Called, ValidLimits, Admit, DropStale;
    NothingStale(l, space, s.table, correlation);
    var a := Admit(l, space, s.life, s.table, s.nextId, correlation, g);
    if a.Admitted? {
      AdmissionExact(l, space, s.life, s.table, s.nextId, correlation, g);
      StartedOk(l, space, s.table, s.nextId, correlation, g, now);
      CalledOk(s.table, s.flow, context, a.id, NewEntry(l, space, a.id, correlation, g, now));
    }
  }

  lemma ReturnedStep(l: Limits, space: nat, s: State, context: nat, accepted: bool)
    requires Inv(l, space, s) && Enabled(l, space, s, CoreReturned(context, accepted))
    ensures Inv(l, space, ApplyReturned(s, context, accepted))
  {
    hide TableOk, FlowOk, Removed, Submitted;
    var id := s.flow.calls[context].id;
    DisjointIds(l, space, s.table);
    if accepted {
      SubmittedOk(l, space, s.table, id);
      AcceptedOk(s.table, s.flow, context);
    } else {
      if id in s.table.entries {
        RemovedOk(l, space, s.table, id);
      }
      RejectedOk(s.table, s.flow, context);
    }
  }

  lemma ReplyStep(l: Limits, space: nat, s: State, context: nat, echoed: nat, response: Option<string>, now: int)
    requires Inv(l, space, s) && context in s.flow.calls && Live(s.flow.calls[context])
    ensures var id := s.flow.calls[context].id;
            && Inv(l, space, s.(table := Answered(l, s.table, id, echoed, response, now), flow := ReplyGiven(s.flow, context)))
            && Inv(l, space, s.(table := Failed(l, s.table, id, now), flow := ReplyGiven(s.flow, context)))
  {
    hide TableOk, FlowOk, Answered, Failed, SlotSettled;
    var id := s.flow.calls[context].id;
    DisjointIds(l, space, s.table);
    LinkedId(s.table, s.flow, context);
    AnswerSettles(l, s.table, id, echoed, response, now);
    AnsweredOk(l, space, s.table, id, echoed, response, now);
    FailedOk(l, space, s.table, id, now);
    RepliedOk(s.table, s.flow, context, Answered(l, s.table, id, echoed, response, now));
    RepliedOk(s.table, s.flow, context, Failed(l, s.table, id, now));
  }

  lemma ThrewStep(l: Limits, space: nat, s: State, context: nat)
    requires Inv(l, space, s) && Enabled(l, space, s, ReplyThrew(context))
    ensures Inv(l, space, Apply(l, space, s, ReplyThrew(context)))
  {
    hide TableOk, FlowOk, Submitted;
    SubmittedOk(l, space, s.table, s.flow.calls[context].id);
    ThrowingOk(s.table, s.flow, context);
  }

  lemma DropStep(l: Limits, space: nat, s: State, id: nat)
    requires Inv(l, space, s) && id in s.table.entries && !s.table.entries[id].submitting
    ensures TableOk(l, space, Dropped(s.table, id)) && FlowOk(Dropped(s.table, id), s.flow)
  {
    hide TableOk, FlowOk, Removed, Detached;
    if s.table.entries[id].status.Pending? {
      DetachedOk(l, space, s.table, id);
    } else {
      RemovedOk(l, space, s.table, id);
    }
    EntryDroppedOk(s.table, s.flow, id);
  }

  lemma ReleaseStep(l: Limits, space: nat, s: State, token: string)
    requires Inv(l, space, s) && Enabled(l, space, s, Release(token))
    ensures Inv(l, space, ApplyRelease(s, token))
  {
    hide TableOk, FlowOk, Dropped;
    var named := Named(s.table, token);
    if named.Some? {
      DropStep(l, space, s, named.value);
      EnteredOk(Dropped(s.table, named.value), s.flow);
    }
  }

  /** Nothing is left when the closer clears the tables. */
  lemma FinishStep(l: Limits, space: nat, s: State)
    requires Inv(l, space, s) && s.closer.Freed?
    ensures Inv(l, space, s.(closer := Finished, life := Closed, table := NO_TABLE))
    ensures s.flow.calls == map[]
  {
    EmptyTableOk(l, space);
    NobodyInside(s.table, s.flow);
    assert s.flow.calls == map[];
    hide TableOk;
  }

  /** Zero counters mean that no thread is in the core and no callback is owed. */
  lemma NobodyInside(t: Table, f: Flow)
    requires FlowOk(t, f) && f.active == 0 && f.owners == 0
    ensures f.others == 0 && f.calls == map[]
  {
    TotalZero(f.calls, LiveOf);
    TotalZero(f.calls, StackOf);
    assert forall c :: c in f.calls ==> LiveOf(f.calls[c]) + StackOf(f.calls[c]) >= 1;
  }

  lemma StepInv(l: Limits, space: nat, s: State, e: Step)
    requires ValidLimits(l) && space < TWO64 && Inv(l, space, s) && Enabled(l, space, s, e)
    ensures Inv(l, space, Apply(l, space, s, e))
  {
    hide TableOk, FlowOk, ValidInput, Admit, Answered, Failed, Submitted, Dropped, ApplyStart, ApplyReturned,
      ApplyRelease, ReplyGiven;
    match e
    case Start(context, correlation, g, now) => StartStep(l, space, s, context, correlation, g, now);
    case CoreReturned(context, accepted) => ReturnedStep(l, space, s, context, accepted);
    case Reply(context, echoed, response, now) => ReplyStep(l, space, s, context, echoed, response, now);
    case ReplyThrew(context) => ThrewStep(l, space, s, context);
    case ReplyFailed(context, now) => ReplyStep(l, space, s, context, 0, None, now);
    case Cancel(token) => EnteredOk(s.table, s.flow);
    case Release(token) => ReleaseStep(l, space, s, token);
    case Expire(id, _) => DropStep(l, space, s, id);
    case EnterCore => EnteredOk(s.table, s.flow);
    case LeaveCore => EnteredOk(s.table, s.flow);
    case Close =>
    case CloseReturned =>
    case WaitOver =>
    case FreeReturned =>
    case FinishClose => FinishStep(l, space, s);
  }

  lemma {:induction false} RunInv(l: Limits, space: nat, ss: seq<State>, es: seq<Step>, i: nat)
    requires ValidLimits(l) && space < TWO64 && IsRun(l, space, ss, es) && i < |ss|
    ensures Inv(l, space, ss[i])
    decreases i
  {
    hide Inv, Enabled, Apply, ValidLimits;
    if i == 0 {
      InitialInv(l, space);
    } else {
      RunInv(l, space, ss, es, i - 1);
      StepInv(l, space, ss[i - 1], es[i - 1]);
    }
  }

  // ------------------------------------------------------------- main results

  /** In every reachable state: slots are entries plus detached ids, which are disjoint,
      within the bound; both byte accounts are exact sums within their limits; and the
      two indexes are bijections with the entries. */
  lemma AccountsExact(l: Limits, space: nat, ss: seq<State>, es: seq<Step>, i: nat)
    requires ValidLimits(l) && space < TWO64 && IsRun(l, space, ss, es) && i < |ss|
    ensures var t := ss[i].table;
            && t.entries.Keys !! t.detached
            && t.slots == |t.entries.Keys| + |t.detached| <= l.maxSlots
            && t.inputs == Total(t.entries, InputOf) <= l.maxInput
            && t.responses == Total(t.entries, ResponseOf) <= l.maxResponse
            && (forall id :: id in t.entries ==>
                  && t.entries[id].correlation in t.correlations && t.correlations[t.entries[id].correlation] == id
                  && t.entries[id].token in t.tokens && t.tokens[t.entries[id].token] == id)
            && (forall k :: k in t.correlations ==> t.correlations[k] in t.entries && t.entries[t.correlations[k]].correlation == k)
            && (forall k :: k in t.tokens ==> t.tokens[k] in t.entries && t.entries[t.tokens[k]].token == k)
  {
    hide IsRun, Enabled, Apply, ValidLimits, FlowOk, CloserOk;
    RunInv(l, space, ss, es, i);
    Unfold(l, space, ss[i].table);
  }

  lemma Unfold(l: Limits, space: nat, t: Table)
    requires TableOk(l, space, t)
    ensures forall id :: id in t.entries ==>
              && t.entries[id].correlation in t.correlations && t.correlations[t.entries[id].correlation] == id
              && t.entries[id].token in t.tokens && t.tokens[t.entries[id].token] == id
    ensures forall k :: k in t.correlations ==> t.correlations[k] in t.entries && t.entries[t.correlations[k]].correlation == k
    ensures forall k :: k in t.tokens ==> t.tokens[k] in t.entries && t.entries[t.tokens[k]].token == k
  {
    assert forall id :: id in t.entries ==> CorrelationOf(t.entries[id]) in t.correlations && TokenOf(t.entries[id]) in t.tokens;
  }

  /** No subtraction that a step makes would go below zero. */
  ghost predicate NothingSaturates(s: State, e: Step) {
    var t, f := s.table, s.flow;
    match e
    case CoreReturned(context, accepted) =>
      && context in f.calls && f.active >= 1
      && (!accepted ==> f.owners >= 1 && (f.calls[context].id in t.entries ==> CanDrop(t, f.calls[context].id)))
    case Reply(context, _, _, _) =>
      context in f.calls && f.owners >= 1 && (f.calls[context].id in t.detached ==> t.slots >= 1)
    case ReplyFailed(context, _) =>
      context in f.calls && f.owners >= 1 && (f.calls[context].id in t.detached ==> t.slots >= 1)
    case Release(token) => Named(t, token).Some? ==> CanDrop(t, Named(t, token).value)
    case Expire(id, _) => id in t.entries && CanDrop(t, id)
    case LeaveCore => f.active >= 1
    case _ => true
  }

  predicate CanDrop(t: Table, id: nat)
    requires id in t.entries
  {
    t.slots >= 1 && t.inputs >= t.entries[id].inputBytes && t.responses >= |t.entries[id].response|
  }

  lemma NeverSaturates(l: Limits, space: nat, ss: seq<State>, es: seq<Step>, i: nat)
    requires ValidLimits(l) && space < TWO64 && IsRun(l, space, ss, es) && i < |es|
    ensures NothingSaturates(ss[i], es[i])
  {
    RunInv(l, space, ss, es, i);
    assert Enabled(l, space, ss[i], es[i]);
    hide IsRun, ValidLimits;
    StepNeverSaturates(l, space, ss[i], es[i]);
  }

  lemma StepNeverSaturates(l: Limits, space: nat, s: State, e: Step)
    requires Inv(l, space, s) && Enabled(l, space, s, e)
    ensures NothingSaturates(s, e)
  {
    hide TableOk, CountsOk, LinksOk, BackedOk, ValidInput, Admit;
    match e
    case CoreReturned(context, accepted) =>
      ReturnedCounts(s.flow, context);
      if s.flow.calls[context].id in s.table.entries {
        RemovedOk(l, space, s.table, s.flow.calls[context].id);
      }
    case Reply(context, _, _, _) =>
      GivenCounts(s.flow, context);
      ForgottenOk(l, space, s.table, s.flow.calls[context].id);
    case ReplyFailed(context, _) =>
      GivenCounts(s.flow, context);
      ForgottenOk(l, space, s.table, s.flow.calls[context].id);
    case Release(token) =>
      if Named(s.table, token).Some? {
        RemovedOk(l, space, s.table, Named(s.table, token).value);
      }
    case Expire(id, _) => RemovedOk(l, space, s.table, id);
    case LeaveCore => EnteredOk(s.table, s.flow);
    case _ =>
  }

  /** In every reachable state `callbackOwners` is the number of callbacks still to run,
      at most the pending entries and the detached ids together, and equal to their
      number unless an id came round while an earlier call still had it on the stack. */
  lemma OwnersCountCallbacks(l: Limits, space: nat, ss: seq<State>, es: seq<Step>, i: nat)
    requires ValidLimits(l) && space < TWO64 && IsRun(l, space, ss, es) && i < |ss|
    ensures var t, f := ss[i].table, ss[i].flow;
            && f.owners == |LiveCalls(f.calls)| <= |PendingIds(t.entries)| + |t.detached|
            && (!f.reissued ==> f.owners == |PendingIds(t.entries)| + |t.detached|)
  {
    hide IsRun, ValidLimits, TableOk, FlowOk;
    RunInv(l, space, ss, es, i);
    DisjointIds(l, space, ss[i].table);
    OwnersExact(ss[i].table, ss[i].flow);
  }

  /** A thread is inside a call, a dispatch or a cancel on the core. */
  predicate InCore(f: Flow) {
    f.others > 0 || exists c :: c in f.calls && !f.calls[c].returned
  }

  function Rank(c: Closer): nat {
    match c
    case NotCalled => 0
    case InCoreClose => 1
    case Waiting => 2
    case InFree => 3
    case Freed => 4
    case Finished => 5
  }

  lemma PhaseStep(l: Limits, space: nat, s: State, e: Step)
    requires Enabled(l, space, s, e) && CloserOk(s.life, s.closer, s.frees, s.flow)
    ensures Rank(s.closer) <= Rank(Apply(l, space, s, e).closer)
  {
    hide ValidInput, Admit, Answered, Failed, Submitted, Dropped, ReplyGiven, ReturnAccepted, ReturnRejected, Called,
      Inserted, Removed, DropStale, Named;
    match e
    case Start(_, _, _, _) =>
    case CoreReturned(_, _) =>
    case Reply(_, _, _, _) =>
    case ReplyThrew(_) =>
    case ReplyFailed(_, _) =>
    case Cancel(_) =>
    case Release(_) =>
    case Expire(_, _) =>
    case _ =>
  }

  lemma {:induction false} PhasesAdvance(l: Limits, space: nat, ss: seq<State>, es: seq<Step>, i: nat, j: nat)
    requires ValidLimits(l) && space < TWO64 && IsRun(l, space, ss, es) && i <= j < |ss|
    ensures Rank(ss[i].closer) <= Rank(ss[j].closer)
    decreases j - i
  {
    hide TableOk, FlowOk, CloserOk, Enabled, Apply, Rank, ValidLimits;
    if i < j {
      PhasesAdvance(l, space, ss, es, i, j - 1);
      RunInv(l, space, ss, es, j - 1);
      PhaseStep(l, space, ss[j - 1], es[j - 1]);
    }
  }

  /** Once the wait of `close` is over, in that state and every later one of the run, no
      thread is inside the core and no callback is owed; `free` returns at most once; and
      it has been called exactly when the closer has passed it. Any number of threads may
      call `close` in the run. */
  lemma FreeIsLast(l: Limits, space: nat, ss: seq<State>, es: seq<Step>, i: nat, j: nat)
    requires ValidLimits(l) && space < TWO64 && IsRun(l, space, ss, es) && i <= j < |ss|
    ensures Freeing(ss[i].closer) ==> !InCore(ss[j].flow) && LiveCalls(ss[j].flow.calls) == {}
    ensures ss[i].frees <= ss[j].frees <= 1
    ensures ss[j].frees == 1 <==> ss[j].closer.Freed? || ss[j].closer.Finished?
  {
    PhasesAdvance(l, space, ss, es, i, j);
    RunInv(l, space, ss, es, i);
    RunInv(l, space, ss, es, j);
    hide IsRun, ValidLimits, TableOk, FlowOk;
    if Freeing(ss[i].closer) {
      NobodyInside(ss[j].table, ss[j].flow);
    }
  }

  /** A finished request keeps all its data while it is retained. */
  predicate Kept(t: Table, id: nat, t': Table)
    requires id in t.entries
  {
    id in t'.entries ==> t'.entries[id] == t.entries[id]
  }

  lemma TableKept(l: Limits, t: Table, id: nat, other: nat, echoed: nat, response: Option<string>, now: int)
    requires id in t.entries && !t.entries[id].status.Pending? && !t.entries[id].submitting
    ensures Kept(t, id, Submitted(t, other))
    ensures Kept(t, id, Answered(l, t, other, echoed, response, now))
    ensures Kept(t, id, Failed(l, t, other, now))
    ensures other in t.entries ==> Kept(t, id, Removed(t, other)) && Kept(t, id, Dropped(t, other))
  {
    hide Outcome;
  }

  lemma StartKept(l: Limits, space: nat, s: State, context: nat, correlation: string, g: Target, now: int, id: nat)
    requires ValidLimits(l) && space < TWO64 && TableOk(l, space, s.table) && id in s.table.entries
    ensures Kept(s.table, id, ApplyStart(l, space, s, context, correlation, g, now).table)
  {
    hide TableOk, MakeToken, Allocate, InputBytes, ValidLimits, Admit, Called;
    var a := Admit(l, space, s.life, s.table, s.nextId, correlation, g);
    if a.Admitted? {
      AdmissionExact(l, space, s.life, s.table, s.nextId, correlation, g);
      StartedOk(l, space, s.table, s.nextId, correlation, g, now);
    }
  }

  /** A finished request keeps its status and its text until its entry goes. */
  lemma SettledKept(l: Limits, space: nat, s: State, e: Step, id: nat)
    requires ValidLimits(l) && space < TWO64 && Inv(l, space, s) && Enabled(l, space, s, e)
    requires id in s.table.entries && !s.table.entries[id].status.Pending?
    ensures Kept(s.table, id, Apply(l, space, s, e).table)
  {
    BasicFacts(l, space, s.table, id);
    hide TableOk, FlowOk, CloserOk, ValidInput, Admit, Answered, Failed, Submitted, Dropped, Removed, ApplyStart,
      ReplyGiven, ReturnAccepted, ReturnRejected;
    match e
    case Start(context, correlation, g, now) => StartKept(l, space, s, context, correlation, g, now, id);
    case CoreReturned(context, _) => TableKept(l, s.table, id, s.flow.calls[context].id, 0, None, 0);
    case Reply(context, echoed, response, now) =>
      TableKept(l, s.table, id, s.flow.calls[context].id, echoed, response, now);
    case ReplyThrew(context) => TableKept(l, s.table, id, s.flow.calls[context].id, 0, None, 0);
    case ReplyFailed(context, now) => TableKept(l, s.table, id, s.flow.calls[context].id, 0, None, now);
    case Cancel(_) =>
    case Release(token) =>
      if Named(s.table, token).Some? {
        TableKept(l, s.table, id, Named(s.table, token).value, 0, None, 0);
      }
    case Expire(other, now) => TableKept(l, s.table, id, other, 0, None, now);
    case _ =>
  }

  /** A pending backup import is never swept away. */
  lemma ImportNotSwept(l: Limits, space: nat, ss: seq<State>, es: seq<Step>, i: nat, id: nat, now: int)
    requires ValidLimits(l) && space < TWO64 && IsRun(l, space, ss, es) && i < |es| && es[i] == Expire(id, now)
    ensures id in ss[i].table.entries
    ensures ss[i].table.entries[id].status.Pending? ==> !Retains(ss[i].table.entries[id].target)
  {
    RunInv(l, space, ss, es, i);
    assert Enabled(l, space, ss[i], es[i]);
    hide IsRun, ValidLimits, FlowOk;
    BasicFacts(l, space, ss[i].table, id);
  }
}
