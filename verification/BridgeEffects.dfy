/** What every step does to a retained request, told by what the core brought, by sums and
    by times; and where the text that a client polls comes from. */
module BridgeEffects {
  import opened Totals
  import opened BridgeTokens
  import opened BridgeModel
  import opened BridgeAccounts
  import opened BridgeFlow
  import opened BridgeRuns

  // -------------------------------------------------------------- one callback

  /** The callback of request `id` was about another id. */
  predicate Mismatched(id: nat, echoed: nat) { echoed != id }

  /** The text fits beside everything that is retained. */
  ghost predicate TextFits(l: Limits, entries: map<nat, Entry>, text: string) {
    Total(entries, ResponseOf) + |text| <= l.maxResponse
  }

  /** The same request with another status and text. */
  predicate FinishedAs(e: Entry, e': Entry, status: Status, text: string, expires: int) {
    && e'.status == status && e'.response == text && e'.expires == At(expires) && !e'.submitting
    && e'.correlation == e.correlation && e'.token == e.token && e'.target == e.target && e'.inputBytes == e.inputBytes
  }

  /** What a callback makes of a pending request. */
  ghost predicate RepliedTo(l: Limits, entries: map<nat, Entry>, id: nat, echoed: nat, response: Option<string>, now: int, e': Entry)
    requires id in entries
  {
    var e := entries[id];
    if Mismatched(id, echoed) then FinishedAs(e, e', CallbackIdMismatch, "", now + l.ttl)
    else match response
      case None => FinishedAs(e, e', MissingResponse, "", now + l.ttl)
      case Some(text) =>
        if TextFits(l, entries, text) then FinishedAs(e, e', Ready, text, now + l.ttl)
        else FinishedAs(e, e', ResponseLimitExceeded, "", now + l.ttl)
  }

  // ----------------------------------------------------------------- every step

  /** The core call that the step is about belongs to this request. */
  predicate About(s: State, context: nat, id: nat) {
    context in s.flow.calls && s.flow.calls[context].id == id
  }

  /** The step takes the request out of the table. */
  predicate Leaves(s: State, step: Step, id: nat)
    requires id in s.table.entries
  {
    match step
    case CoreReturned(context, accepted) => !accepted && About(s, context, id)
    case Release(token) => s.life.Open? && s.table.entries[id].token == token
    case Expire(i, _) => i == id
    case FinishClose => true
    case _ => false
  }

  /** The request after a step that leaves it in the table. */
  ghost predicate Stays(l: Limits, s: State, step: Step, id: nat, e': Entry)
    requires id in s.table.entries
  {
    var e := s.table.entries[id];
    match step
    case Reply(context, echoed, response, now) =>
      if !About(s, context, id) then e' == e
      else if e.status.Pending? then RepliedTo(l, s.table.entries, id, echoed, response, now, e')
      else e' == e.(submitting := false)
    case ReplyFailed(context, now) =>
      if About(s, context, id) && e.status.Pending? then FinishedAs(e, e', CallbackFailure, "", now + l.ttl) else e' == e
    case ReplyThrew(context) => if About(s, context, id) then e' == e.(submitting := false) else e' == e
    case CoreReturned(context, accepted) => if accepted && About(s, context, id) then e' == e.(submitting := false) else e' == e
    case _ => e' == e
  }

  /** The start of a new request: open, a new correlation id, a slot and room for its input. */
  ghost predicate Begins(l: Limits, s: State, step: Step) {
    && step.Start? && s.life.Open? && step.correlation !in s.table.correlations
    && |s.table.entries.Keys| + |s.table.detached| < l.maxSlots
    && Total(s.table.entries, InputOf) + |step.correlation| + |step.target.name| + |step.target.method_| + |step.target.args| <= l.maxInput
  }

  /** A new request is pending, its call is being made, and only a backup import never
      expires. */
  predicate Fresh(l: Limits, space: nat, step: Step, id: nat, e: Entry)
    requires step.Start?
  {
    var g := step.target;
    && e.correlation == step.correlation && e.target == g && e.token == MakeToken(space, id)
    && e.status == Pending && e.response == "" && e.submitting
    && e.inputBytes == |step.correlation| + |g.name| + |g.method_| + |g.args|
    && e.expires == (if g.name == "logos_inspector" && g.method_ == "settingsBackupImportApply" then Never else At(step.now + l.ttl))
  }

  ghost predicate EntryExact(l: Limits, space: nat, s: State, step: Step, id: nat, t': Table) {
    if id in s.table.entries then
      (id in t'.entries <==> !Leaves(s, step, id)) && (id in t'.entries ==> Stays(l, s, step, id, t'.entries[id]))
    else
      id in t'.entries ==> Begins(l, s, step) && Fresh(l, space, step, id, t'.entries[id])
  }

  lemma ReplyEntry(l: Limits, space: nat, s: State, context: nat, echoed: nat, response: Option<string>, now: int, id: nat)
    requires TableOk(l, space, s.table) && context in s.flow.calls
    ensures EntryExact(l, space, s, Reply(context, echoed, response, now), id,
                       Answered(l, s.table, s.flow.calls[context].id, echoed, response, now))
  {
    hide SlotsOk, IndexOk, EntriesOk, MakeToken;
  }

  lemma FailedEntry(l: Limits, space: nat, s: State, context: nat, now: int, id: nat)
    requires context in s.flow.calls
    ensures EntryExact(l, space, s, ReplyFailed(context, now), id, Failed(l, s.table, s.flow.calls[context].id, now))
  {
    hide MakeToken;
  }

  lemma ThrewEntry(l: Limits, space: nat, s: State, context: nat, id: nat)
    requires context in s.flow.calls
    ensures EntryExact(l, space, s, ReplyThrew(context), id, Submitted(s.table, s.flow.calls[context].id))
  {
    hide MakeToken;
  }

  lemma ReturnedEntry(l: Limits, space: nat, s: State, context: nat, accepted: bool, id: nat)
    requires context in s.flow.calls
    ensures EntryExact(l, space, s, CoreReturned(context, accepted), id, ApplyReturned(s, context, accepted).table)
  {
    hide MakeToken, ReturnAccepted, ReturnRejected;
  }

  lemma DroppedEntry(t: Table, i: nat, id: nat)
    requires i in t.entries
    ensures Dropped(t, i).entries == t.entries - {i}
  {
  }

  lemma ReleasedEntry(l: Limits, space: nat, s: State, token: string, id: nat)
    requires TableOk(l, space, s.table)
    ensures EntryExact(l, space, s, Release(token), id, ApplyRelease(s, token).table)
  {
    hide SlotsOk, BytesOk, EntriesOk, MakeToken, Dropped, Entered;
    TokensNamed(l, space, s.table, token);
    if Named(s.table, token).Some? {
      DroppedEntry(s.table, Named(s.table, token).value, id);
    }
  }

  lemma TokensNamed(l: Limits, space: nat, t: Table, token: string)
    requires TableOk(l, space, t)
    ensures forall id :: id in t.entries ==> (t.entries[id].token == token <==> Named(t, token) == Some(id))
  {
    hide SlotsOk, BytesOk, EntriesOk;
    assert forall id :: id in t.entries ==> TokenOf(t.entries[id]) in t.tokens;
  }

  lemma StartedEntry(l: Limits, space: nat, s: State, step: Step, id: nat)
    requires ValidLimits(l) && space < TWO64 && TableOk(l, space, s.table) && step.Start?
    ensures EntryExact(l, space, s, step, id, ApplyStart(l, space, s, step.context, step.correlation, step.target, step.now).table)
  {
    hide TableOk, MakeToken, Allocate, Admit, Called, DropStale, ValidLimits;
    NothingStale(l, space, s.table, step.correlation);
    StartSums(l, space, s.table);
    AdmissionExact(l, space, s.life, s.table, s.nextId, step.correlation, step.target);
    if Admit(l, space, s.life, s.table, s.nextId, step.correlation, step.target).Admitted? {
      StartedOk(l, space, s.table, s.nextId, step.correlation, step.target, step.now);
      OpenAdmits(l, space, s.life, s.table, s.nextId, step.correlation, step.target);
    }
  }

  lemma OpenAdmits(l: Limits, space: nat, life: Lifecycle, t: Table, next: Word, correlation: string, g: Target)
    ensures Admit(l, space, life, t, next, correlation, g).Admitted? ==> life.Open?
  {
    hide Allocate, MakeToken;
  }

  lemma StartSums(l: Limits, space: nat, t: Table)
    requires TableOk(l, space, t)
    ensures t.slots == |t.entries.Keys| + |t.detached| && t.inputs == Total(t.entries, InputOf)
  {
    hide IndexOk, EntriesOk;
  }

  lemma PlainEntry(l: Limits, space: nat, s: State, step: Step, id: nat)
    requires step.Cancel? || step.EnterCore? || step.LeaveCore? || step.Close? || step.CloseReturned? || step.WaitOver? || step.FreeReturned?
    ensures EntryExact(l, space, s, step, id, s.table)
  {
    hide MakeToken;
  }

  lemma GoneEntry(l: Limits, space: nat, s: State, step: Step, i: nat, id: nat)
    requires step.Expire? && step.id == i && i in s.table.entries
    ensures EntryExact(l, space, s, step, id, Dropped(s.table, i))
  {
    hide Dropped, MakeToken;
    DroppedEntry(s.table, i, id);
  }

  lemma ClearedEntry(l: Limits, space: nat, s: State, id: nat)
    ensures EntryExact(l, space, s, FinishClose, id, NO_TABLE)
  {
    hide MakeToken;
  }

  /** Every step, on every request: exactly which one it takes out of the table, which
      status, text and expiry it leaves on which, and what a new one looks like. */
  lemma EntriesExact(l: Limits, space: nat, s: State, step: Step, id: nat)
    requires ValidLimits(l) && space < TWO64 && Inv(l, space, s) && Enabled(l, space, s, step)
    ensures EntryExact(l, space, s, step, id, Apply(l, space, s, step).table)
  {
    hide TableOk, FlowOk, CloserOk, EntryExact, ValidInput, Admit, Answered, Failed, Submitted, Dropped, ApplyStart, ApplyReturned,
      ApplyRelease, ReplyGiven, ValidLimits;
    match step
    case Start(_, _, _, _) => StartedEntry(l, space, s, step, id);
    case CoreReturned(context, accepted) => ReturnedEntry(l, space, s, context, accepted, id);
    case Reply(context, echoed, response, now) => ReplyEntry(l, space, s, context, echoed, response, now, id);
    case ReplyThrew(context) => ThrewEntry(l, space, s, context, id);
    case ReplyFailed(context, now) => FailedEntry(l, space, s, context, now, id);
    case Release(token) => ReleasedEntry(l, space, s, token, id);
    case Expire(i, _) => GoneEntry(l, space, s, step, i, id);
    case FinishClose => ClearedEntry(l, space, s, id);
    case _ => PlainEntry(l, space, s, step, id);
  }

  /** A start that can begin does, with the id that is allocated. */
  lemma StartBegins(l: Limits, space: nat, s: State, step: Step)
    requires ValidLimits(l) && space < TWO64 && Inv(l, space, s) && Enabled(l, space, s, step) && Begins(l, s, step)
    ensures exists id :: id !in s.table.entries && id in Apply(l, space, s, step).table.entries
                         && Apply(l, space, s, step).table.entries.Keys == s.table.entries.Keys + {id}
  {
    hide TableOk, FlowOk, CloserOk, MakeToken, Allocate, Admit, Called, DropStale, ValidLimits, ValidInput;
    NothingStale(l, space, s.table, step.correlation);
    StartSums(l, space, s.table);
    AdmissionExact(l, space, s.life, s.table, s.nextId, step.correlation, step.target);
    StartedOk(l, space, s.table, s.nextId, step.correlation, step.target, step.now);
    OpenAdmits(l, space, s.life, s.table, s.nextId, step.correlation, step.target);
    var id := Admit(l, space, s.life, s.table, s.nextId, step.correlation, step.target).id;
    assert id in Apply(l, space, s, step).table.entries;
  }

  // ------------------------------------------------------------- detached ids

  /** The callback about this id has run. */
  predicate CallsBack(s: State, step: Step, id: nat) {
    || (step.Reply? && About(s, step.context, id))
    || (step.ReplyFailed? && About(s, step.context, id))
  }

  lemma CallbackDetached(l: Limits, t: Table, i: nat, echoed: nat, response: Option<string>, now: int)
    ensures Answered(l, t, i, echoed, response, now).detached == if i in t.entries then t.detached else t.detached - {i}
    ensures Failed(l, t, i, now).detached == if i in t.entries then t.detached else t.detached - {i}
  {
    hide Outcome;
  }

  lemma DroppedDetached(t: Table, i: nat)
    requires i in t.entries
    ensures Dropped(t, i).detached == t.detached + if t.entries[i].status.Pending? then {i} else {}
    ensures Removed(t, i).detached == t.detached && Submitted(t, i).detached == t.detached
  {
  }

  lemma StartDetached(l: Limits, space: nat, s: State, context: nat, correlation: string, g: Target, now: int)
    ensures ApplyStart(l, space, s, context, correlation, g, now).table.detached == s.table.detached
  {
    hide Admit, Called, NewEntry;
  }

  lemma ReturnedDetached(s: State, context: nat, accepted: bool)
    requires context in s.flow.calls
    ensures ApplyReturned(s, context, accepted).table.detached == s.table.detached
  {
    hide ReturnAccepted, ReturnRejected;
  }

  ghost predicate DetachExact(s: State, step: Step, id: nat, detached': set<nat>) {
    id in detached' <==>
      && step != FinishClose
      && ((id in s.table.detached && !CallsBack(s, step, id))
          || (id in s.table.entries && s.table.entries[id].status.Pending? && Leaves(s, step, id) && !step.CoreReturned?))
  }

  lemma ReleaseDetached(l: Limits, space: nat, s: State, token: string, id: nat)
    requires TableOk(l, space, s.table)
    ensures DetachExact(s, Release(token), id, ApplyRelease(s, token).table.detached)
  {
    hide TableOk, Dropped, Entered;
    TokensNamed(l, space, s.table, token);
    if Named(s.table, token).Some? {
      DroppedDetached(s.table, Named(s.table, token).value);
    }
  }

  lemma SameDetached(s: State, step: Step, id: nat)
    requires s.table.entries.Keys !! s.table.detached
    requires !step.Reply? && !step.ReplyFailed? && !step.Release? && !step.Expire? && !step.FinishClose?
    ensures DetachExact(s, step, id, s.table.detached)
  {
  }

  lemma ReplyDetached(s: State, step: Step, id: nat, i: nat, detached': set<nat>)
    requires s.table.entries.Keys !! s.table.detached && (step.Reply? || step.ReplyFailed?) && About(s, step.context, i)
    requires detached' == if i in s.table.entries then s.table.detached else s.table.detached - {i}
    ensures DetachExact(s, step, id, detached')
  {
  }

  lemma SweptDetached(s: State, i: nat, now: int, id: nat)
    requires s.table.entries.Keys !! s.table.detached && i in s.table.entries
    ensures DetachExact(s, Expire(i, now), id, Dropped(s.table, i).detached)
  {
    hide Dropped;
    DroppedDetached(s.table, i);
  }

  /** Every step, on the ids whose slot outlives their request: exactly a pending request
      that is released or swept joins them, and exactly its callback takes it out. */
  lemma DetachedExact(l: Limits, space: nat, s: State, step: Step, id: nat)
    requires Inv(l, space, s) && Enabled(l, space, s, step)
    ensures DetachExact(s, step, id, Apply(l, space, s, step).table.detached)
  {
    DisjointIds(l, space, s.table);
    hide TableOk, FlowOk, CloserOk, ValidInput, Admit, ReplyGiven, Answered, Failed, Dropped, Submitted, ApplyStart, ApplyReturned,
      ApplyRelease, ApplyCancel, Entered, Left, DetachExact;
    match step
    case Start(context, correlation, g, now) =>
      StartDetached(l, space, s, context, correlation, g, now);
      SameDetached(s, step, id);
    case CoreReturned(context, accepted) =>
      ReturnedDetached(s, context, accepted);
      SameDetached(s, step, id);
    case Reply(context, echoed, response, now) =>
      CallbackDetached(l, s.table, s.flow.calls[context].id, echoed, response, now);
      ReplyDetached(s, step, id, s.flow.calls[context].id, Apply(l, space, s, step).table.detached);
    case ReplyThrew(context) =>
      ThrewDetached(s.table, s.flow.calls[context].id);
      SameDetached(s, step, id);
    case ReplyFailed(context, now) =>
      CallbackDetached(l, s.table, s.flow.calls[context].id, 0, None, now);
      ReplyDetached(s, step, id, s.flow.calls[context].id, Apply(l, space, s, step).table.detached);
    case Cancel(token) =>
      CancelDetached(s, token);
      SameDetached(s, step, id);
    case Release(token) => ReleaseDetached(l, space, s, token, id);
    case Expire(i, now) => SweptDetached(s, i, now, id);
    case FinishClose => ClearedDetached(s, id);
    case _ => SameDetached(s, step, id);
  }

  lemma CancelDetached(s: State, token: string)
    ensures ApplyCancel(s, token).table == s.table
  {
  }

  lemma ClearedDetached(s: State, id: nat)
    ensures DetachExact(s, FinishClose, id, {})
  {
  }

  lemma ThrewDetached(t: Table, i: nat)
    ensures Submitted(t, i).detached == t.detached
  {
  }

  // ------------------------------------------------------------- where texts come from

  /** The callback in this step finished the request as it is in `e`. */
  ghost predicate Finishes(l: Limits, s: State, step: Step, id: nat, e: Entry) {
    && id in s.table.entries && s.table.entries[id].status.Pending?
    && CallsBack(s, step, id) && Stays(l, s, step, id, e)
  }

  lemma FinishStays(l: Limits, space: nat, s: State, step: Step, id: nat)
    requires ValidLimits(l) && space < TWO64 && Inv(l, space, s) && Enabled(l, space, s, step)
    requires id in Apply(l, space, s, step).table.entries && !Apply(l, space, s, step).table.entries[id].status.Pending?
    ensures id in s.table.entries
    ensures var e' := Apply(l, space, s, step).table.entries[id];
            if s.table.entries[id].status.Pending? then Finishes(l, s, step, id, e') && !e'.submitting
            else !s.table.entries[id].submitting ==> e' == s.table.entries[id]
  {
    hide Inv, Enabled, Apply, MakeToken, ValidLimits, TextFits;
    EntriesExact(l, space, s, step, id);
  }

  /** In every run a finished request was finished by one step, a callback of its own while
      it was pending, and has been exactly as that callback left it ever since. */
  lemma {:induction false} FinishedByCallback(l: Limits, space: nat, ss: seq<State>, es: seq<Step>, j: nat, id: nat) returns (i: nat)
    requires ValidLimits(l) && space < TWO64 && IsRun(l, space, ss, es) && j < |ss|
    requires id in ss[j].table.entries && !ss[j].table.entries[id].status.Pending?
    ensures i < j && Finishes(l, ss[i], es[i], id, ss[j].table.entries[id])
    ensures forall k :: i < k <= j ==> id in ss[k].table.entries && ss[k].table.entries[id] == ss[j].table.entries[id]
    ensures !ss[j].table.entries[id].submitting
    decreases j
  {
    hide Inv, Enabled, Apply, Finishes, ValidLimits;
    RunInv(l, space, ss, es, j - 1);
    FinishStays(l, space, ss[j - 1], es[j - 1], id);
    if ss[j - 1].table.entries[id].status.Pending? {
      i := j - 1;
    } else {
      i := FinishedByCallback(l, space, ss, es, j - 1, id);
    }
  }

  /** The step is the callback of request `id`, which was pending, and it brought this text. */
  predicate Brings(s: State, step: Step, id: nat, text: string) {
    && step.Reply? && About(s, step.context, id) && step.echoed == id && step.response == Some(text)
    && id in s.table.entries && s.table.entries[id].status.Pending?
  }

  /** The text retained for a ready request, in every state of every run, is the text that
      its own callback brought, and it fitted. */
  lemma ReadyTextBrought(l: Limits, space: nat, ss: seq<State>, es: seq<Step>, j: nat, id: nat)
    requires ValidLimits(l) && space < TWO64 && IsRun(l, space, ss, es) && j < |ss|
    requires id in ss[j].table.entries && ss[j].table.entries[id].status.Ready?
    ensures exists i :: 0 <= i < j && Brings(ss[i], es[i], id, ss[j].table.entries[id].response)
                        && TextFits(l, ss[i].table.entries, ss[j].table.entries[id].response)
  {
    hide Enabled, Apply, ValidLimits, TextFits;
    var i := FinishedByCallback(l, space, ss, es, j, id);
    assert Brings(ss[i], es[i], id, ss[j].table.entries[id].response);
  }

  /** A request whose callback brought a text that fits is ready with exactly that text in
      every later state in which it was never taken out of the table. */
  lemma {:induction false} BroughtTextKept(l: Limits, space: nat, ss: seq<State>, es: seq<Step>, i: nat, j: nat, id: nat, text: string)
    requires ValidLimits(l) && space < TWO64 && IsRun(l, space, ss, es) && i < j < |ss|
    requires Brings(ss[i], es[i], id, text) && TextFits(l, ss[i].table.entries, text)
    requires forall k :: i <= k <= j ==> id in ss[k].table.entries
    ensures ss[j].table.entries[id].status == Ready && ss[j].table.entries[id].response == text
    decreases j
  {
    hide Inv, Enabled, Apply, ValidLimits, TextFits, MakeToken;
    RunInv(l, space, ss, es, j - 1);
    EntriesExact(l, space, ss[j - 1], es[j - 1], id);
    if i < j - 1 {
      BroughtTextKept(l, space, ss, es, i, j - 1, id, text);
    }
  }

  // ----------------------------------------------------------- threads and callbacks

  /** A pending request that the token names, while the bridge is open. */
  predicate NamesPending(s: State, token: string) {
    s.life.Open? && Named(s.table, token).Some? && s.table.entries[Named(s.table, token).value].status.Pending?
  }

  /** The start was admitted. */
  predicate Admits(l: Limits, space: nat, s: State, step: Step) {
    step.Start? && Admit(l, space, s.life, s.table, s.nextId, step.correlation, step.target).Admitted?
  }

  /** How many threads enter or leave another call on the core. */
  function OthersChange(s: State, step: Step): int {
    match step
    case Cancel(token) => if NamesPending(s, token) then 1 else 0
    case Release(token) => if NamesPending(s, token) then 1 else 0
    case EnterCore => if s.life.Open? then 1 else 0
    case LeaveCore => -1
    case _ => 0
  }

  /** How many callbacks are owed more or less. */
  function OwnersChange(l: Limits, space: nat, s: State, step: Step): int {
    match step
    case Start(_, _, _, _) => if Admits(l, space, s, step) then 1 else 0
    case CoreReturned(_, accepted) => if accepted then 0 else -1
    case Reply(_, _, _, _) => -1
    case ReplyFailed(_, _) => -1
    case _ => 0
  }

  function ActiveChange(l: Limits, space: nat, s: State, step: Step): int {
    match step
    case Start(_, _, _, _) => if Admits(l, space, s, step) then 1 else 0
    case CoreReturned(_, _) => -1
    case _ => OthersChange(s, step)
  }

  /** The counters after a change of each. */
  predicate Counted(f: Flow, f': Flow, others: int, owners: int, active: int) {
    f'.others == f.others + others && f'.owners == f.owners + owners && f'.active == f.active + active
  }

  lemma CallCounters(f: Flow, context: nat)
    requires context in f.calls
    ensures f.owners >= 1 ==> Counted(f, ReplyGiven(f, context), 0, -1, 0)
    ensures f.active >= 1 ==> Counted(f, ReturnAccepted(f, context), 0, 0, -1)
    ensures f.active >= 1 && f.owners >= 1 ==> Counted(f, ReturnRejected(f, context), 0, -1, -1)
  {
  }

  lemma EnterCounters(f: Flow, context: nat, id: nat)
    ensures Counted(f, Called(f, context, id), 0, 1, 1) && Counted(f, Entered(f), 1, 0, 1) && Counted(f, f, 0, 0, 0)
    ensures f.others > 0 && f.active > 0 ==> Counted(f, Left(f), -1, 0, -1)
  {
    hide OnStack;
  }

  lemma StartCounters(l: Limits, space: nat, s: State, context: nat, correlation: string, g: Target, now: int)
    ensures var a := Admit(l, space, s.life, s.table, s.nextId, correlation, g);
            var n := if a.Admitted? then 1 else 0;
            Counted(s.flow, ApplyStart(l, space, s, context, correlation, g, now).flow, 0, n, n)
  {
    hide Admit, Called, Inserted, DropStale, NewEntry, Counted;
    var a := Admit(l, space, s.life, s.table, s.nextId, correlation, g);
    EnterCounters(s.flow, context, if a.Admitted? then a.id else 0);
  }

  /** Every step, on the bridge's counters: an admitted start enters the core and owes a
      callback, the return of its call leaves the core, its callback or its rejection
      settles what it owes, and a cancel enters the core once more. */
  lemma CountersExact(l: Limits, space: nat, s: State, step: Step)
    requires Inv(l, space, s) && Enabled(l, space, s, step)
    ensures Counted(s.flow, Apply(l, space, s, step).flow, OthersChange(s, step), OwnersChange(l, space, s, step),
                    ActiveChange(l, space, s, step))
  {
    StepNeverSaturates(l, space, s, step);
    EnterCounters(s.flow, 0, 0);
    hide Inv, ValidInput, Admit, Answered, Failed, Submitted, Dropped, Removed, Named, CanDrop, Counted, Called, Entered, Left, ReplyGiven,
      ReturnAccepted, ReturnRejected, ApplyStart;
    match step
    case Start(context, correlation, g, now) => StartCounters(l, space, s, context, correlation, g, now);
    case CoreReturned(context, _) => CallCounters(s.flow, context);
    case Reply(context, _, _, _) => CallCounters(s.flow, context);
    case ReplyThrew(_) => ThrewCounters(s, step);
    case ReplyFailed(context, _) => CallCounters(s.flow, context);
    case Cancel(_) =>
    case Release(_) =>
    case Expire(_, _) =>
    case EnterCore =>
    case LeaveCore =>
    case Close =>
    case CloseReturned =>
    case WaitOver =>
    case FreeReturned =>
    case FinishClose =>
  }

  lemma ThrewCounters(s: State, step: Step)
    requires step.ReplyThrew? && step.context in s.flow.calls
    ensures Counted(s.flow, s.flow.(calls := s.flow.calls[step.context := s.flow.calls[step.context].(answer := Throwing)]), 0, 0, 0)
  {
  }

  /** The core call of a context after the step: made by an admitted start, gone when it has
      both returned and been answered, or was rejected. */
  function CallAfter(l: Limits, space: nat, s: State, step: Step, c: nat): Option<CoreCall> {
    var before := if c in s.flow.calls then Some(s.flow.calls[c]) else None;
    match step
    case Start(context, correlation, g, _) =>
      if context == c && Admits(l, space, s, step)
      then Some(CoreCall(Admit(l, space, s.life, s.table, s.nextId, correlation, g).id, false, Owed)) else before
    case CoreReturned(context, accepted) =>
      if context != c || before.None? then before
      else if !accepted || before.value.answer.Given? then None
      else Some(before.value.(returned := true))
    case Reply(context, _, _, _) =>
      if context != c || before.None? then before
      else if before.value.returned then None else Some(before.value.(answer := Given))
    case ReplyFailed(context, _) =>
      if context != c || before.None? then before
      else if before.value.returned then None else Some(before.value.(answer := Given))
    case ReplyThrew(context) => if context != c || before.None? then before else Some(before.value.(answer := Throwing))
    case _ => before
  }

  lemma CallsExact(l: Limits, space: nat, s: State, step: Step, c: nat)
    requires Enabled(l, space, s, step)
    ensures var calls' := Apply(l, space, s, step).flow.calls;
            (if c in calls' then Some(calls'[c]) else None) == CallAfter(l, space, s, step, c)
  {
    hide ValidInput, Admit, Answered, Failed, Submitted, Dropped, Inserted, DropStale, NewEntry, OnStack, Removed, Named;
    match step
    case Start(_, _, _, _) =>
    case CoreReturned(_, _) =>
    case Reply(_, _, _, _) =>
    case ReplyThrew(_) =>
    case ReplyFailed(_, _) =>
    case Cancel(_) =>
    case Release(_) =>
    case _ =>
  }

  /** Every step, on the way to the end: only the first close of an open bridge starts it,
      and each phase follows the one before. */
  lemma ClosingExact(l: Limits, space: nat, s: State, step: Step)
    requires Enabled(l, space, s, step)
    ensures var s' := Apply(l, space, s, step);
            && s'.life == (match step case Close => if s.life.Open? then Closing else s.life case FinishClose => Closed case _ => s.life)
            && s'.closer == (match step
                             case Close => if s.life.Open? then InCoreClose else s.closer
                             case CloseReturned => Waiting
                             case WaitOver => InFree
                             case FreeReturned => Freed
                             case FinishClose => Finished
                             case _ => s.closer)
            && s'.frees == s.frees + if step.FreeReturned? then 1 else 0
  {
    hide ValidInput, Admit, Answered, Failed, Submitted, Dropped, Inserted, DropStale, NewEntry, OnStack, Removed, Named, ReplyGiven,
      ReturnAccepted, ReturnRejected, Called;
    match step
    case Start(_, _, _, _) =>
    case CoreReturned(_, _) =>
    case Reply(_, _, _, _) =>
    case ReplyThrew(_) =>
    case ReplyFailed(_, _) =>
    case Cancel(_) =>
    case Release(_) =>
    case _ =>
  }
}
