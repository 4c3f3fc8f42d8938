/** The asynchronous bridge as a state machine.

    Every block that runs under the bridge's mutex is one step, and steps of different
    threads interleave freely.  The core library is an environment with one contract: an
    accepted call is answered by exactly one callback, which may run before the call
    returns, and a rejected call by none. */
module BridgeModel {
  import opened Totals
  import opened BridgeTokens

  const MAX_IDENTIFIER := 256
  const INSPECTOR_MODULE := "logos_inspector"
  const BACKUP_IMPORT_METHOD := "settingsBackupImportApply"

  datatype Limits = Limits(maxSlots: nat, maxSingleInput: nat, maxInput: nat, maxResponse: nat, ttl: int)

  /** What `validateLimits` admits, each count being a `size_t`. */
  predicate ValidLimits(l: Limits) {
    && 0 < l.maxSlots < TWO64
    && 0 < l.maxSingleInput < TWO64
    && 0 < l.maxInput < TWO64
    && l.maxResponse < TWO64 - 1
    && 0 < l.ttl
  }

  datatype Lifecycle = Open | Closing | Closed

  datatype Status =
    | Pending
    | Ready
    | ResponseLimitExceeded
    | MissingResponse
    | CallbackIdMismatch
    | CallbackFailure

  datatype Expiry = Never | At(time: int)

  datatype Target = Target(name: string, method_: string, args: string)

  datatype Entry = Entry(correlation: string, token: string, target: Target, response: string,
                         inputBytes: nat, status: Status, submitting: bool, expires: Expiry)

  /** The retained entries, their two indexes, the ids whose entry was dropped while a
      callback was owed, and the three accounts. */
  datatype Table = Table(entries: map<nat, Entry>, correlations: map<string, nat>, tokens: map<string, nat>,
                         detached: set<nat>, slots: nat, inputs: nat, responses: nat)

  datatype Answer = Owed | Throwing | Given

  /** One `callModuleAsync` on the core: has it returned, and how far is its callback? */
  datatype CoreCall = CoreCall(id: nat, returned: bool, answer: Answer)

  /** The core calls by callback context, the bridge's two counters, and the number of
      threads that are inside another call on the core. `reissued` records that an id was
      given out while an earlier `start` holding the same id had not yet returned. */
  datatype Flow = Flow(calls: map<nat, CoreCall>, owners: nat, active: nat, others: nat, reissued: bool)

  datatype Closer = NotCalled | InCoreClose | Waiting | InFree | Freed | Finished

  datatype State = State(life: Lifecycle, table: Table, flow: Flow, nextId: Word, closer: Closer, frees: nat)

  const NO_TABLE := Table(map[], map[], map[], {}, 0, 0, 0)

  function Initial(): State {
    State(Open, NO_TABLE, Flow(map[], 0, 0, 0, false), 1, NotCalled, 0)
  }

  datatype Step =
    | Start(context: nat, correlation: string, target: Target, now: int)
    | CoreReturned(context: nat, accepted: bool)
    | Reply(context: nat, echoed: nat, response: Option<string>, now: int)
    | ReplyThrew(context: nat)
    | ReplyFailed(context: nat, now: int)
    | Cancel(token: string)
    | Release(token: string)
    | Expire(id: nat, now: int)
    | EnterCore
    | LeaveCore
    | Close
    | CloseReturned
    | WaitOver
    | FreeReturned
    | FinishClose

  // ------------------------------------------------------------- accounting

  /** `subtractBounded`. */
  function Less(value: nat, amount: nat): nat {
    if amount <= value then value - amount else 0
  }

  function Removed(t: Table, id: nat): Table
    requires id in t.entries
  {
    var e := t.entries[id];
    t.(entries := t.entries - {id},
       correlations := t.correlations - {e.correlation},
       tokens := t.tokens - {e.token},
       slots := Less(t.slots, 1),
       inputs := Less(t.inputs, e.inputBytes),
       responses := Less(t.responses, |e.response|))
  }

  function Detached(t: Table, id: nat): Table
    requires id in t.entries
  {
    var e := t.entries[id];
    t.(entries := t.entries - {id},
       correlations := t.correlations - {e.correlation},
       tokens := t.tokens - {e.token},
       detached := t.detached + {id},
       inputs := Less(t.inputs, e.inputBytes))
  }

  function Dropped(t: Table, id: nat): Table
    requires id in t.entries
  {
    if t.entries[id].status.Pending? then Detached(t, id) else Removed(t, id)
  }

  // -------------------------------------------------------------- admission

  predicate ValidIdentifier(s: string) {
    0 < |s| <= MAX_IDENTIFIER && '\0' !in s
  }

  function InputBytes(correlation: string, g: Target): nat {
    |correlation| + |g.name| + |g.method_| + |g.args|
  }

  predicate ValidInput(l: Limits, correlation: string, g: Target) {
    && ValidIdentifier(correlation) && ValidIdentifier(g.name) && ValidIdentifier(g.method_)
    && '\0' !in g.args
    && InputBytes(correlation, g) <= l.maxSingleInput
  }

  predicate Retains(g: Target) {
    g.name == INSPECTOR_MODULE && g.method_ == BACKUP_IMPORT_METHOD
  }

  datatype Refusal = BridgeClosed | OtherPayload | NoSlot | NoInputRoom | NoId | TokenCollision

  datatype Admission =
    | Refused(reason: Refusal, next: Word)
    | Known(token: string)
    | MustWait
    | Admitted(id: nat, next: Word)

  /** An index entry whose request is gone is erased on the way. */
  function DropStale(t: Table, correlation: string): Table {
    if correlation in t.correlations && t.correlations[correlation] !in t.entries
    then t.(correlations := t.correlations - {correlation}) else t
  }

  function Admit(l: Limits, space: nat, life: Lifecycle, t: Table, next: Word, correlation: string, g: Target): Admission
  {
    if !life.Open? then Refused(BridgeClosed, next)
    else if correlation in t.correlations && t.correlations[correlation] in t.entries then
      var e := t.entries[t.correlations[correlation]];
      if e.target != g then Refused(OtherPayload, next)
      else if e.submitting then MustWait
      else Known(e.token)
    else if t.slots >= l.maxSlots then Refused(NoSlot, next)
    else if InputBytes(correlation, g) > l.maxInput - (if t.inputs < l.maxInput then t.inputs else l.maxInput) then
      Refused(NoInputRoom, next)
    else
      var (id, after) := Allocate(next, t.entries.Keys + t.detached, t.slots + 2);
      if id == 0 then Refused(NoId, after)
      else if MakeToken(space, id) in t.tokens then Refused(TokenCollision, after)
      else Admitted(id, after)
  }

  function NewEntry(l: Limits, space: nat, id: nat, correlation: string, g: Target, now: int): Entry {
    Entry(correlation, MakeToken(space, id), g, "", InputBytes(correlation, g), Pending, true,
          if Retains(g) then Never else At(now + l.ttl))
  }

  function Inserted(t: Table, id: nat, e: Entry): Table {
    t.(entries := t.entries[id := e],
       correlations := t.correlations[e.correlation := id],
       tokens := t.tokens[e.token := id],
       slots := t.slots + 1,
       inputs := t.inputs + e.inputBytes)
  }

  /** Some `start` that was given this id is still inside the core. */
  predicate OnStack(calls: map<nat, CoreCall>, id: nat) {
    exists c :: c in calls && !calls[c].returned && calls[c].id == id
  }

  function Called(f: Flow, context: nat, id: nat): Flow {
    f.(calls := f.calls[context := CoreCall(id, false, Owed)],
       owners := f.owners + 1,
       active := f.active + 1,
       reissued := f.reissued || OnStack(f.calls, id))
  }

  // ----------------------------------------------------------------- replies

  function Settled(e: Entry, status: Status, response: string, expires: Expiry): Entry {
    e.(status := status, response := response, submitting := false, expires := expires)
  }

  /** The status and the text that a callback leaves on a pending entry. */
  function Outcome(l: Limits, responses: nat, id: nat, echoed: nat, response: Option<string>): (Status, string) {
    if echoed != id then (CallbackIdMismatch, "")
    else if response.None? then (MissingResponse, "")
    else if |response.value| <= l.maxResponse - (if responses <= l.maxResponse then responses else l.maxResponse)
    then (Ready, response.value)
    else (ResponseLimitExceeded, "")
  }

  function Answered(l: Limits, t: Table, id: nat, echoed: nat, response: Option<string>, now: int): Table {
    if id in t.entries then
      var e := t.entries[id];
      if e.status.Pending? then
        var (status, text) := Outcome(l, t.responses, id, echoed, response);
        t.(entries := t.entries[id := Settled(e, status, text, At(now + l.ttl))],
           responses := t.responses + |text|)
      else t.(entries := t.entries[id := e.(submitting := false)])
    else Forgotten(t, id)
  }

  function Failed(l: Limits, t: Table, id: nat, now: int): Table {
    if id in t.entries then
      var e := t.entries[id];
      if e.status.Pending?
      then t.(entries := t.entries[id := Settled(e, CallbackFailure, "", At(now + l.ttl))])
      else t
    else Forgotten(t, id)
  }

  /** The callback of a detached request gives its slot back. */
  function Forgotten(t: Table, id: nat): Table {
    if id in t.detached then t.(detached := t.detached - {id}, slots := Less(t.slots, 1)) else t
  }

  function Submitted(t: Table, id: nat): Table {
    if id in t.entries then t.(entries := t.entries[id := t.entries[id].(submitting := false)]) else t
  }

  function ReplyGiven(f: Flow, context: nat): Flow
    requires context in f.calls
  {
    var c := f.calls[context];
    f.(calls := if c.returned then f.calls - {context} else f.calls[context := c.(answer := Given)],
       owners := Less(f.owners, 1))
  }

  function ReturnAccepted(f: Flow, context: nat): Flow
    requires context in f.calls
  {
    var c := f.calls[context];
    f.(calls := if c.answer.Given? then f.calls - {context} else f.calls[context := c.(returned := true)],
       active := Less(f.active, 1))
  }

  function ReturnRejected(f: Flow, context: nat): Flow
    requires context in f.calls
  {
    f.(calls := f.calls - {context}, active := Less(f.active, 1), owners := Less(f.owners, 1))
  }

  // ------------------------------------------------------------------- steps

  /** The request a token names, if it is still retained. */
  function Named(t: Table, token: string): Option<nat> {
    if token in t.tokens && t.tokens[token] in t.entries then Some(t.tokens[token]) else None
  }

  predicate Expired(e: Entry, now: int) {
    !e.submitting && e.expires.At? && e.expires.time <= now
  }

  predicate Enabled(l: Limits, space: nat, s: State, step: Step)
  {
    match step
    case Start(context, correlation, g, _) =>
      && context !in s.flow.calls && ValidInput(l, correlation, g)
      && !Admit(l, space, s.life, s.table, s.nextId, correlation, g).MustWait?
    case CoreReturned(context, accepted) =>
      && context in s.flow.calls && !s.flow.calls[context].returned
      && (!accepted ==> s.flow.calls[context].answer.Owed?)
    case Reply(context, _, _, _) => context in s.flow.calls && s.flow.calls[context].answer.Owed?
    case ReplyThrew(context) => context in s.flow.calls && s.flow.calls[context].answer.Owed?
    case ReplyFailed(context, _) => context in s.flow.calls && s.flow.calls[context].answer.Throwing?
    case Cancel(token) => Named(s.table, token).None? || !s.table.entries[Named(s.table, token).value].submitting
    case Release(token) => Named(s.table, token).None? || !s.table.entries[Named(s.table, token).value].submitting
    case Expire(id, now) => s.life.Open? && id in s.table.entries && Expired(s.table.entries[id], now)
    case EnterCore => true
    case LeaveCore => s.flow.others > 0
    case Close => true
    case CloseReturned => s.closer.InCoreClose?
    case WaitOver => s.closer.Waiting? && s.flow.active == 0 && s.flow.owners == 0
    case FreeReturned => s.closer.InFree?
    case FinishClose => s.closer.Freed?
  }

  function Entered(f: Flow): Flow {
    f.(active := f.active + 1, others := f.others + 1)
  }

  function Left(f: Flow): Flow
    requires f.others > 0
  {
    f.(active := Less(f.active, 1), others := f.others - 1)
  }

  function ApplyStart(l: Limits, space: nat, s: State, context: nat, correlation: string, g: Target, now: int): State
  {
    match Admit(l, space, s.life, s.table, s.nextId, correlation, g)
    case Refused(reason, next) =>
      if reason.BridgeClosed? then s
      else s.(table := DropStale(s.table, correlation), nextId := next)
    case Known(_) => s
    case MustWait => s
    case Admitted(id, next) =>
      s.(table := Inserted(DropStale(s.table, correlation), id, NewEntry(l, space, id, correlation, g, now)),
         flow := Called(s.flow, context, id),
         nextId := next)
  }

  function ApplyReturned(s: State, context: nat, accepted: bool): State
    requires context in s.flow.calls
  {
    var id := s.flow.calls[context].id;
    if accepted then s.(table := Submitted(s.table, id), flow := ReturnAccepted(s.flow, context))
    else s.(table := if id in s.table.entries then Removed(s.table, id) else s.table,
            flow := ReturnRejected(s.flow, context))
  }

  function ApplyRelease(s: State, token: string): State {
    var named := Named(s.table, token);
    if !s.life.Open? || named.None? then s
    else
      s.(table := Dropped(s.table, named.value),
         flow := if s.table.entries[named.value].status.Pending? then Entered(s.flow) else s.flow)
  }

  function ApplyCancel(s: State, token: string): State {
    var named := Named(s.table, token);
    if s.life.Open? && named.Some? && s.table.entries[named.value].status.Pending?
    then s.(flow := Entered(s.flow)) else s
  }

  function ApplyClose(s: State): State {
    if s.life.Open? then s.(life := Closing, closer := InCoreClose) else s
  }

  function Apply(l: Limits, space: nat, s: State, step: Step): State
    requires Enabled(l, space, s, step)
  {
    match step
    case Start(context, correlation, g, now) => ApplyStart(l, space, s, context, correlation, g, now)
    case CoreReturned(context, accepted) => ApplyReturned(s, context, accepted)
    case Reply(context, echoed, response, now) =>
      s.(table := Answered(l, s.table, s.flow.calls[context].id, echoed, response, now),
         flow := ReplyGiven(s.flow, context))
    case ReplyThrew(context) =>
      s.(table := Submitted(s.table, s.flow.calls[context].id),
         flow := s.flow.(calls := s.flow.calls[context := s.flow.calls[context].(answer := Throwing)]))
    case ReplyFailed(context, now) =>
      s.(table := Failed(l, s.table, s.flow.calls[context].id, now), flow := ReplyGiven(s.flow, context))
    case Cancel(token) => ApplyCancel(s, token)
    case Release(token) => ApplyRelease(s, token)
    case Expire(id, _) => s.(table := Dropped(s.table, id))
    case EnterCore => if s.life.Open? then s.(flow := Entered(s.flow)) else s
    case LeaveCore => s.(flow := Left(s.flow))
    case Close => ApplyClose(s)
    case CloseReturned => s.(closer := Waiting)
    case WaitOver => s.(closer := InFree)
    case FreeReturned => s.(closer := Freed, frees := s.frees + 1)
    case FinishClose => s.(closer := Finished, life := Closed, table := NO_TABLE)
  }
}
