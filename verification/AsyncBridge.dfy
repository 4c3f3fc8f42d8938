/** The asynchronous bridge as the object it is: fields updated in place by the blocks
    that run under its mutex, each one a step of the state machine. */
module AsyncBridge {
  import opened Totals
  import opened BridgeTokens
  import opened BridgeModel
  import opened BridgeAccounts
  import opened BridgeRuns
  import opened BridgeEffects
  import J = JsonText

  class Bridge {
    const limits: Limits
    const space: nat
    var lifecycle: Lifecycle
    var activeAbiCalls: nat
    var callbackOwners: nat
    var reservedSlots: nat
    var retainedInputBytes: nat
    var retainedResponseBytes: nat
    var nextBridgeId: Word
    var entries: map<nat, Entry>
    var correlationIndex: map<string, nat>
    var tokenIndex: map<string, nat>
    var detachedPending: set<nat>

    /** The calls on the core, other threads inside it, and the closing thread. */
    ghost var calls: map<nat, CoreCall>
    ghost var others: nat
    ghost var reissued: bool
    ghost var closer: Closer
    ghost var frees: nat

    ghost function Tables(): Table
      reads this
    {
      Table(entries, correlationIndex, tokenIndex, detachedPending, reservedSlots, retainedInputBytes, retainedResponseBytes)
    }

    ghost function Flows(): Flow
      reads this
    {
      Flow(calls, callbackOwners, activeAbiCalls, others, reissued)
    }

    ghost function Model(): State
      reads this
    {
      State(lifecycle, Tables(), Flows(), nextBridgeId, closer, frees)
    }

    ghost predicate Valid()
      reads this
    {
      ValidLimits(limits) && space < TWO64 && Inv(limits, space, Model())
    }

    constructor (l: Limits, namespace: nat)
      requires ValidLimits(l) && namespace < TWO64
      ensures Valid() && Model() == Initial() && limits == l && space == namespace
    {
      limits, space := l, namespace;
      lifecycle, activeAbiCalls, callbackOwners := Open, 0, 0;
      reservedSlots, retainedInputBytes, retainedResponseBytes, nextBridgeId := 0, 0, 0, 1;
      entries, correlationIndex, tokenIndex, detachedPending := map[], map[], map[], {};
      calls, others, reissued, closer, frees := map[], 0, false, NotCalled, 0;
      new;
      InitialInv(l, namespace);
    }

    // ---------------------------------------------------------- table updates

    method RemoveEntry(id: nat)
      requires id in entries
      modifies this`entries, this`correlationIndex, this`tokenIndex, this`reservedSlots, this`retainedInputBytes,
               this`retainedResponseBytes
      ensures Tables() == Removed(old(Tables()), id)
    {
      var e := entries[id];
      correlationIndex := correlationIndex - {e.correlation};
      tokenIndex := tokenIndex - {e.token};
      retainedInputBytes := Less(retainedInputBytes, e.inputBytes);
      retainedResponseBytes := Less(retainedResponseBytes, |e.response|);
      reservedSlots := Less(reservedSlots, 1);
      entries := entries - {id};
    }

    method DetachPending(id: nat)
      requires id in entries
      modifies this`entries, this`correlationIndex, this`tokenIndex, this`detachedPending, this`retainedInputBytes
      ensures Tables() == Detached(old(Tables()), id)
    {
      var e := entries[id];
      detachedPending := detachedPending + {id};
      correlationIndex := correlationIndex - {e.correlation};
      tokenIndex := tokenIndex - {e.token};
      retainedInputBytes := Less(retainedInputBytes, e.inputBytes);
      entries := entries - {id};
    }

    /** The sweep: exactly the expired entries go, and the ids to cancel are exactly those
        of them that were pending, each once. */
    method CollectExpired(now: int) returns (cancelIds: seq<nat>)
      requires Valid() && lifecycle.Open?
      modifies this`entries, this`correlationIndex, this`tokenIndex, this`detachedPending, this`reservedSlots,
               this`retainedInputBytes, this`retainedResponseBytes
      ensures Valid()
      ensures forall id :: id in entries <==>
                && id in old(entries)
                && (old(entries)[id].submitting || old(entries)[id].expires.Never? || now < old(entries)[id].expires.time)
      ensures forall id :: id in entries ==> entries[id] == old(entries)[id]
      ensures forall id :: id in cancelIds <==> id in old(entries) && id !in entries && old(entries)[id].status.Pending?
      ensures forall i, j :: 0 <= i < j < |cancelIds| ==> cancelIds[i] != cancelIds[j]
      ensures detachedPending == old(detachedPending) + set id | id in cancelIds
    {
      hide Valid, Model, Tables, Flows, Apply;
      cancelIds := [];
      var all := entries;
      var rest := all.Keys;
      while rest != {}
        invariant Valid() && lifecycle.Open? && rest <= all.Keys
        invariant forall id :: id in entries <==> id in all && (id in rest || !Expired(all[id], now))
        invariant forall id :: id in entries ==> entries[id] == all[id]
        invariant forall id :: id in cancelIds <==> id in all && id !in rest && Expired(all[id], now) && all[id].status.Pending?
        invariant forall i, j :: 0 <= i < j < |cancelIds| ==> cancelIds[i] != cancelIds[j]
        invariant detachedPending == old(detachedPending) + set id | id in cancelIds
        decreases rest
      {
        var id :| id in rest;
        rest := rest - {id};
        var e := entries[id];
        if !(e.submitting || e.expires.Never? || e.expires.time > now) {
          DropExpired(id, now);
          if e.status.Pending? {
            cancelIds := cancelIds + [id];
          }
        }
      }
    }

    /** One expired entry goes: detached when its callback is owed, erased otherwise. */
    method DropExpired(id: nat, ghost now: int)
      requires Valid() && lifecycle.Open? && id in entries && Expired(entries[id], now)
      modifies this`entries, this`correlationIndex, this`tokenIndex, this`detachedPending, this`reservedSlots,
               this`retainedInputBytes, this`retainedResponseBytes
      ensures Valid() && Model() == Apply(limits, space, old(Model()), Expire(id, now))
      ensures entries == old(entries) - {id}
      ensures detachedPending == old(detachedPending) + (if old(entries)[id].status.Pending? then {id} else {})
    {
      hide Inv, Removed, Detached, ValidLimits;
      StepInv(limits, space, Model(), Expire(id, now));
      ghost var before := Tables();
      if entries[id].status.Pending? {
        DetachPending(id);
        DetachedShape(before, id);
      } else {
        RemoveEntry(id);
        RemovedShape(before, id);
      }
    }

    // ------------------------------------------------------------------ start

    /** The id loop tries `reservedSlots + 2` consecutive ids. */
    method AllocateId() returns (bridgeId: nat)
      modifies this`nextBridgeId
      ensures (bridgeId, nextBridgeId as nat) == Allocate(old(nextBridgeId), entries.Keys + detachedPending, reservedSlots + 2)
    {
      bridgeId := 0;
      var attempts := 0;
      while attempts <= reservedSlots + 1
        invariant attempts <= reservedSlots + 2
        invariant bridgeId == 0
        invariant Allocate(nextBridgeId, entries.Keys + detachedPending, reservedSlots + 2 - attempts)
               == Allocate(old(nextBridgeId), entries.Keys + detachedPending, reservedSlots + 2)
      {
        bridgeId := nextBridgeId;
        nextBridgeId := Succ64(nextBridgeId);
        if bridgeId != 0 && bridgeId !in entries && bridgeId !in detachedPending {
          return;
        }
        bridgeId := 0;
        attempts := attempts + 1;
      }
    }

    method EraseStale(correlation: string)
      modifies this`correlationIndex
      ensures Tables() == DropStale(old(Tables()), correlation)
    {
      if correlation in correlationIndex && correlationIndex[correlation] !in entries {
        correlationIndex := correlationIndex - {correlation};
      }
    }

    /** A request enters the table and both indexes and is charged to every account. */
    method InsertEntry(ghost context: nat, bridgeId: nat, e: Entry)
      modifies this`entries, this`correlationIndex, this`tokenIndex, this`reservedSlots, this`retainedInputBytes,
               this`callbackOwners, this`activeAbiCalls, this`reissued, this`calls
      ensures Tables() == Inserted(old(Tables()), bridgeId, e)
      ensures Flows() == Called(old(Flows()), context, bridgeId)
    {
      entries := entries[bridgeId := e];
      correlationIndex := correlationIndex[e.correlation := bridgeId];
      tokenIndex := tokenIndex[e.token := bridgeId];
      reservedSlots := reservedSlots + 1;
      retainedInputBytes := retainedInputBytes + e.inputBytes;
      callbackOwners := callbackOwners + 1;
      activeAbiCalls := activeAbiCalls + 1;
      reissued := reissued || OnStack(calls, bridgeId);
      calls := calls[context := CoreCall(bridgeId, false, Owed)];
    }

    /** The locked block of `start`. A result of `MustWait` is the wait on the condition
        variable: nothing has changed and the block is entered again later. */
    method StartLocked(ghost context: nat, correlation: string, g: Target, now: int) returns (r: Admission)
      requires Valid() && context !in calls && ValidInput(limits, correlation, g)
      modifies this
      ensures Valid()
      ensures r == Admit(limits, space, old(lifecycle), old(Tables()), old(nextBridgeId), correlation, g)
      ensures Model() == ApplyStart(limits, space, old(Model()), context, correlation, g, now)
    {
      hide Inv, MakeToken, Allocate, ValidLimits, DropStale, Inserted, Called, ValidInput, InputBytes;
      StartStep(limits, space, Model(), context, correlation, g, now);
      StaleFree(limits, space, Model(), correlation);
      if !lifecycle.Open? {
        return Refused(BridgeClosed, nextBridgeId);
      }
      if correlation in correlationIndex {
        var existing := correlationIndex[correlation];
        if existing in entries {
          var e := entries[existing];
          if e.target != g {
            return Refused(OtherPayload, nextBridgeId);
          }
          return if e.submitting then MustWait else Known(e.token);
        }
      }
      EraseStale(correlation);
      if reservedSlots >= limits.maxSlots {
        return Refused(NoSlot, nextBridgeId);
      }
      var bytes := InputBytes(correlation, g);
      if bytes > limits.maxInput - (if retainedInputBytes < limits.maxInput then retainedInputBytes else limits.maxInput) {
        return Refused(NoInputRoom, nextBridgeId);
      }
      var bridgeId := AllocateId();
      if bridgeId == 0 {
        return Refused(NoId, nextBridgeId);
      }
      var token := MakeToken(space, bridgeId);
      if token in tokenIndex {
        return Refused(TokenCollision, nextBridgeId);
      }
      InsertEntry(context, bridgeId, NewEntry(limits, space, bridgeId, correlation, g, now));
      r := Admitted(bridgeId, nextBridgeId);
    }

    /** The second locked block of `start`, after the core has returned. */
    method CoreReturnedLocked(ghost context: nat, bridgeId: nat, accepted: bool)
      requires Valid() && Enabled(limits, space, Model(), CoreReturned(context, accepted))
      requires calls[context].id == bridgeId
      modifies this
      ensures Valid() && Model() == Apply(limits, space, old(Model()), CoreReturned(context, accepted))
    {
      hide Inv, ValidLimits, Removed, ValidInput, Admit;
      StepInv(limits, space, Model(), CoreReturned(context, accepted));
      activeAbiCalls := Less(activeAbiCalls, 1);
      if accepted {
        if bridgeId in entries {
          entries := entries[bridgeId := entries[bridgeId].(submitting := false)];
        }
        calls := ReturnAccepted(old(Flows()), context).calls;
      } else {
        if bridgeId in entries {
          RemoveEntry(bridgeId);
        }
        callbackOwners := Less(callbackOwners, 1);
        calls := calls - {context};
      }
    }

    // ---------------------------------------------------------------- replies

    method FinishCoreReply(ghost context: nat, expected: nat, echoed: nat, response: Option<string>, now: int)
      requires Valid() && Enabled(limits, space, Model(), Reply(context, echoed, response, now))
      requires calls[context].id == expected
      modifies this
      ensures Valid() && Model() == Apply(limits, space, old(Model()), Reply(context, echoed, response, now))
      ensures expected in old(entries) && old(entries)[expected].status.Pending? ==>
                && expected in entries
                && RepliedTo(limits, old(entries), expected, echoed, response, now, entries[expected])
    {
      hide Inv, ValidLimits, RepliedTo, ValidInput, Admit, Removed, Detached, NewEntry, MakeToken;
      ReplyLeaves(limits, space, Model(), context, echoed, response, now);
      StepInv(limits, space, Model(), Reply(context, echoed, response, now));
      if expected !in entries {
        if expected in detachedPending {
          detachedPending := detachedPending - {expected};
          reservedSlots := Less(reservedSlots, 1);
        }
      } else {
        var value := entries[expected].(submitting := false);
        if value.status.Pending? {
          if echoed != expected {
            value := value.(status := CallbackIdMismatch, response := "");
          } else if response.None? {
            value := value.(status := MissingResponse, response := "");
          } else {
            var available := if limits.maxResponse >= retainedResponseBytes then limits.maxResponse - retainedResponseBytes else 0;
            if |response.value| > available {
              value := value.(status := ResponseLimitExceeded, response := "");
            } else {
              value := value.(status := Ready, response := response.value);
              retainedResponseBytes := retainedResponseBytes + |response.value|;
            }
          }
          value := value.(expires := At(now + limits.ttl));
        }
        entries := entries[expected := value];
      }
      callbackOwners := Less(callbackOwners, 1);
      calls := ReplyGiven(old(Flows()), context).calls;
    }

    /** `finishCoreReply` left by an exception while it copied the text. */
    method ReplyAborted(ghost context: nat, expected: nat)
      requires Valid() && Enabled(limits, space, Model(), ReplyThrew(context))
      requires calls[context].id == expected
      modifies this`entries, this`calls
      ensures Valid() && Model() == Apply(limits, space, old(Model()), ReplyThrew(context))
    {
      hide Inv, ValidLimits;
      StepInv(limits, space, Model(), ReplyThrew(context));
      if expected in entries {
        entries := entries[expected := entries[expected].(submitting := false)];
      }
      calls := calls[context := calls[context].(answer := Throwing)];
    }

    method MarkCallbackFailure(ghost context: nat, bridgeId: nat, now: int)
      requires Valid() && Enabled(limits, space, Model(), ReplyFailed(context, now))
      requires calls[context].id == bridgeId
      modifies this
      ensures Valid() && Model() == Apply(limits, space, old(Model()), ReplyFailed(context, now))
      ensures bridgeId in old(entries) && old(entries)[bridgeId].status.Pending? ==>
                && bridgeId in entries
                && FinishedAs(old(entries)[bridgeId], entries[bridgeId], CallbackFailure, "", now + limits.ttl)
    {
      hide Inv, ValidLimits;
      StepInv(limits, space, Model(), ReplyFailed(context, now));
      if bridgeId in entries && entries[bridgeId].status.Pending? {
        var e := entries[bridgeId];
        entries := entries[bridgeId := Settled(e, CallbackFailure, "", At(now + limits.ttl))];
      } else if bridgeId !in entries && bridgeId in detachedPending {
        detachedPending := detachedPending - {bridgeId};
        reservedSlots := Less(reservedSlots, 1);
      }
      callbackOwners := Less(callbackOwners, 1);
      calls := ReplyGiven(old(Flows()), context).calls;
    }

    // --------------------------------------------------------- token operations

    /** `pollAsync`: a reader of the returned text learns the status of the retained
        request and recovers its response exactly, or reads which of the three errors it is. */
    method PollAsync(token: string) returns (text: string)
      requires Valid()
      ensures !ValidToken(token) ==> J.Read(text) == Some((J.ErrorValue("invalid asynchronous bridge token"), ""))
      ensures ValidToken(token) && !lifecycle.Open? ==>
                J.Read(text) == Some((J.ErrorValue("Logos Inspector asynchronous bridge is closed"), ""))
      ensures ValidToken(token) && lifecycle.Open? && token !in tokenIndex ==>
                J.Read(text) == Some((J.ErrorValue("unknown or released asynchronous bridge token"), ""))
      ensures ValidToken(token) && lifecycle.Open? && token in tokenIndex ==>
                && tokenIndex[token] in entries && token == MakeToken(space, tokenIndex[token])
                && var e := entries[tokenIndex[token]];
                   J.Read(text) == Some((J.Envelope(J.Object(
                     match e.status
                     case Pending => J.PollMembers(token, "pending", None)
                     case Ready => J.PollMembers(token, "ready", Some(e.response))
                     case _ => J.PollMembers(token, "ready", Some(TerminalResponse(e.status))))), ""))
    {
      hide J.Read, ValidToken, MakeToken, ValidLimits, Inv;
      if !ValidToken(token) {
        text := PollError("invalid asynchronous bridge token");
        return;
      }
      if !lifecycle.Open? {
        text := PollError("Logos Inspector asynchronous bridge is closed");
        return;
      }
      if token !in tokenIndex {
        text := PollError("unknown or released asynchronous bridge token");
        return;
      }
      TokenNamed(limits, space, Model(), token);
      var e := entries[tokenIndex[token]];
      PlainStatus(e);
      J.PollRecovered(token, PollStatus(e), PollBody(e));
      if e.status.Pending? {
        text := J.PollResponse(token, "pending", None);
      } else {
        var response := if e.status.Ready? then e.response else TerminalResponse(e.status);
        text := J.PollResponse(token, "ready", Some(response));
      }
    }

    method PollError(error: string) returns (text: string)
      ensures J.Read(text) == Some((J.ErrorValue(error), ""))
    {
      hide J.Read;
      J.ErrorRecovered(error);
      text := J.JsonError(error);
    }

    /** The locked block of `cancelAsync`; the id to cancel on the core, if any. */
    method CancelLocked(token: string) returns (cancelId: Option<nat>)
      requires Valid() && Enabled(limits, space, Model(), Cancel(token))
      modifies this`activeAbiCalls, this`others
      ensures Valid() && Model() == Apply(limits, space, old(Model()), Cancel(token))
      ensures cancelId.Some? <==> lifecycle.Open? && Named(Tables(), token).Some?
                                  && entries[Named(Tables(), token).value].status.Pending?
      ensures cancelId.Some? ==> cancelId == Named(Tables(), token)
    {
      hide Inv, ValidLimits;
      StepInv(limits, space, Model(), Cancel(token));
      cancelId := None;
      if lifecycle.Open? && token in tokenIndex && tokenIndex[token] in entries {
        if entries[tokenIndex[token]].status.Pending? {
          activeAbiCalls, others := activeAbiCalls + 1, others + 1;
          cancelId := Some(tokenIndex[token]);
        }
      }
    }

    /** The locked block of `releaseAsync`. */
    method ReleaseLocked(token: string) returns (released: bool, cancelId: Option<nat>)
      requires Valid() && Enabled(limits, space, Model(), Release(token))
      modifies this
      ensures Valid() && Model() == Apply(limits, space, old(Model()), Release(token))
      ensures released <==> old(lifecycle.Open? && Named(Tables(), token).Some?)
      ensures released ==> Named(Tables(), token).None?
      ensures cancelId.Some? <==> released && old(entries)[old(Named(Tables(), token)).value].status.Pending?
      ensures cancelId.Some? ==> old(Named(Tables(), token)) == cancelId && cancelId.value in detachedPending
    {
      hide Inv, ValidLimits, Removed, Detached, ValidInput, Admit;
      StepInv(limits, space, Model(), Release(token));
      released, cancelId := false, None;
      if lifecycle.Open? && token in tokenIndex && tokenIndex[token] in entries {
        var id := tokenIndex[token];
        TokenOfNamed(token);
        ghost var before := Tables();
        if entries[id].status.Pending? {
          DetachPending(id);
          DetachedShape(before, id);
          activeAbiCalls, others := activeAbiCalls + 1, others + 1;
          cancelId := Some(id);
        } else {
          RemoveEntry(id);
          RemovedShape(before, id);
        }
        released := true;
      }
    }

    lemma TokenOfNamed(token: string)
      requires Valid() && token in tokenIndex && tokenIndex[token] in entries
      ensures entries[tokenIndex[token]].token == token
    {
      assert TokenOf(entries[tokenIndex[token]]) == token;
    }

    // ------------------------------------------------------------------- calls

    method EnterAbi() returns (active: bool)
      requires Valid()
      modifies this`activeAbiCalls, this`others
      ensures Valid() && Model() == Apply(limits, space, old(Model()), EnterCore) && active == lifecycle.Open?
    {
      hide Inv, ValidLimits;
      StepInv(limits, space, Model(), EnterCore);
      active := lifecycle.Open?;
      if active {
        activeAbiCalls, others := activeAbiCalls + 1, others + 1;
      }
    }

    method LeaveAbi()
      requires Valid() && others > 0
      modifies this`activeAbiCalls, this`others
      ensures Valid() && Model() == Apply(limits, space, old(Model()), LeaveCore)
    {
      hide Inv, ValidLimits;
      StepInv(limits, space, Model(), LeaveCore);
      activeAbiCalls := Less(activeAbiCalls, 1);
      others := others - 1;
    }

    /** The first block of `close`; only one caller is told to go on. */
    method BeginClose() returns (first: bool)
      requires Valid()
      modifies this`lifecycle, this`closer
      ensures Valid() && Model() == Apply(limits, space, old(Model()), Step.Close)
      ensures first <==> old(lifecycle).Open?
    {
      hide Inv, ValidLimits;
      StepInv(limits, space, Model(), Step.Close);
      first := lifecycle.Open?;
      if first {
        lifecycle, closer := Closing, InCoreClose;
      }
    }

    /** The core's own `close` and `free` have returned to the closing thread. */
    ghost method CoreCloseReturned()
      requires Valid() && closer.InCoreClose?
      modifies this`closer
      ensures Valid() && Model() == Apply(limits, space, old(Model()), CloseReturned)
    {
      hide Inv, ValidLimits;
      StepInv(limits, space, Model(), CloseReturned);
      closer := Waiting;
    }

    ghost method CoreFreeReturned()
      requires Valid() && closer.InFree?
      modifies this`closer, this`frees
      ensures Valid() && Model() == Apply(limits, space, old(Model()), FreeReturned)
    {
      hide Inv, ValidLimits;
      StepInv(limits, space, Model(), FreeReturned);
      closer, frees := Freed, frees + 1;
    }

    /** The wait of `close` may end only when both counters are zero; then nobody is left
        inside the core and no callback is owed. */
    method WaitForQuiet() returns (quiet: bool)
      requires Valid() && closer.Waiting?
      modifies this`closer
      ensures Valid() && quiet == (activeAbiCalls == 0 && callbackOwners == 0)
      ensures quiet ==> Model() == Apply(limits, space, old(Model()), WaitOver) && calls == map[] && others == 0
      ensures !quiet ==> Model() == old(Model())
    {
      quiet := activeAbiCalls == 0 && callbackOwners == 0;
      if quiet {
        NobodyInside(Tables(), Flows());
        StepInv(limits, space, Model(), WaitOver);
        closer := InFree;
      }
    }

    /** The last block of `close` clears everything. */
    method FinishClosing()
      requires Valid() && closer.Freed?
      modifies this
      ensures Valid() && Model() == Apply(limits, space, old(Model()), FinishClose)
      ensures lifecycle.Closed? && entries == map[] && frees == 1
    {
      hide Inv, ValidLimits, Apply;
      FreedOnce(limits, space, Model());
      StepInv(limits, space, Model(), FinishClose);
      entries, correlationIndex, tokenIndex, detachedPending := map[], map[], map[], {};
      reservedSlots, retainedInputBytes, retainedResponseBytes := 0, 0, 0;
      lifecycle, closer := Closed, Finished;
    }
  }

  // ------------------------------------------------------------------ polled text

  function PollStatus(e: Entry): string {
    if e.status.Pending? then "pending" else "ready"
  }

  /** The text a finished request is polled with: its response, or the error its status
      stands for. */
  function PollBody(e: Entry): Option<string> {
    if e.status.Pending? then None
    else if e.status.Ready? then Some(e.response)
    else Some(TerminalResponse(e.status))
  }

  function TerminalResponse(s: Status): string {
    match s
    case ResponseLimitExceeded => J.JsonError("asynchronous response exceeds retained response capacity")
    case MissingResponse => J.JsonError("asynchronous core callback returned no response")
    case CallbackIdMismatch => J.JsonError("asynchronous core callback request id mismatch")
    case CallbackFailure => J.JsonError("asynchronous core callback failed")
    case Pending => J.JsonError("invalid asynchronous bridge state")
    case Ready => J.JsonError("invalid asynchronous bridge state")
  }

  /** What a reader of the text for an unsuccessful request reads: which error it is. */
  lemma TerminalRecovered(s: Status)
    ensures var read := J.Read(TerminalResponse(s));
            && (s.ResponseLimitExceeded? ==> read == Some((J.ErrorValue("asynchronous response exceeds retained response capacity"), "")))
            && (s.MissingResponse? ==> read == Some((J.ErrorValue("asynchronous core callback returned no response"), "")))
            && (s.CallbackIdMismatch? ==> read == Some((J.ErrorValue("asynchronous core callback request id mismatch"), "")))
            && (s.CallbackFailure? ==> read == Some((J.ErrorValue("asynchronous core callback failed"), "")))
  {
    hide J.Read, J.JsonError, J.ErrorValue;
    match s
    case ResponseLimitExceeded => J.ErrorRecovered("asynchronous response exceeds retained response capacity");
    case MissingResponse => J.ErrorRecovered("asynchronous core callback returned no response");
    case CallbackIdMismatch => J.ErrorRecovered("asynchronous core callback request id mismatch");
    case CallbackFailure => J.ErrorRecovered("asynchronous core callback failed");
    case Pending =>
    case Ready =>
  }

  lemma ReplyLeaves(l: Limits, space: nat, s: State, context: nat, echoed: nat, response: Option<string>, now: int)
    requires ValidLimits(l) && space < TWO64 && Inv(l, space, s) && Enabled(l, space, s, Reply(context, echoed, response, now))
    ensures var id := s.flow.calls[context].id; var s' := Apply(l, space, s, Reply(context, echoed, response, now));
            id in s.table.entries && s.table.entries[id].status.Pending? ==>
              id in s'.table.entries && RepliedTo(l, s.table.entries, id, echoed, response, now, s'.table.entries[id])
  {
    hide Inv, Apply, RepliedTo, MakeToken, ValidLimits;
    EntriesExact(l, space, s, Reply(context, echoed, response, now), s.flow.calls[context].id);
  }

  lemma PlainStatus(e: Entry)
    ensures forall i :: 0 <= i < |PollStatus(e)| ==> J.Plain(PollStatus(e)[i])
  {
  }

  lemma TokenNamed(l: Limits, space: nat, s: State, token: string)
    requires Inv(l, space, s) && token in s.table.tokens
    ensures s.table.tokens[token] in s.table.entries && token == MakeToken(space, s.table.tokens[token])
  {
    hide MakeToken;
    var id := s.table.tokens[token];
    assert id in s.table.entries && TokenOf(s.table.entries[id]) == token;
  }

  lemma FreedOnce(l: Limits, space: nat, s: State)
    requires Inv(l, space, s) && s.closer.Freed?
    ensures s.frees == 1
    ensures Apply(l, space, s, FinishClose) == s.(closer := Finished, life := Closed, table := NO_TABLE)
  {
  }

  lemma StaleFree(l: Limits, space: nat, s: State, correlation: string)
    requires Inv(l, space, s)
    ensures DropStale(s.table, correlation) == s.table
  {
    NothingStale(l, space, s.table, correlation);
  }

  lemma RemovedShape(t: Table, id: nat)
    requires id in t.entries
    ensures Removed(t, id).entries == t.entries - {id} && Removed(t, id).detached == t.detached
    ensures Removed(t, id).tokens == t.tokens - {t.entries[id].token}
  {
  }

  lemma DetachedShape(t: Table, id: nat)
    requires id in t.entries
    ensures Detached(t, id).entries == t.entries - {id} && Detached(t, id).detached == t.detached + {id}
    ensures Detached(t, id).tokens == t.tokens - {t.entries[id].token}
  {
  }
}
