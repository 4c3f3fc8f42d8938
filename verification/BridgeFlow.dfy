/** Who still owes a callback, and who is still inside the core. */
module BridgeFlow {
  import opened Totals
  import opened BridgeModel

  predicate Live(c: CoreCall) { !c.answer.Given? }

  function LiveOf(c: CoreCall): nat { if Live(c) then 1 else 0 }
  function StackOf(c: CoreCall): nat { if c.returned then 0 else 1 }

  /** The counters are exact: owners are the callbacks still to run, and active calls the
      threads inside the core. A finished call leaves no record. */
  ghost predicate CountsOk(f: Flow) {
    && f.owners == Total(f.calls, LiveOf)
    && f.active == Total(f.calls, StackOf) + f.others
    && forall c :: c in f.calls && f.calls[c].returned ==> Live(f.calls[c])
  }

  /** A slot is held for a callback that has not run. */
  predicate Held(entries: map<nat, Entry>, detached: set<nat>, id: nat) {
    (id in entries && entries[id].status.Pending?) || id in detached
  }

  /** Every callback still to run has a slot of its own. */
  predicate LinksOk(entries: map<nat, Entry>, detached: set<nat>, calls: map<nat, CoreCall>) {
    && (forall c :: c in calls && Live(calls[c]) ==> Held(entries, detached, calls[c].id))
    && (forall c, d :: c in calls && d in calls && c != d && Live(calls[c]) && Live(calls[d]) ==> calls[c].id != calls[d].id)
  }

  predicate Backed(calls: map<nat, CoreCall>, id: nat) {
    exists c :: c in calls && Live(calls[c]) && calls[c].id == id
  }

  /** Conversely, every held slot has its callback; an entry whose call has neither
      returned nor been answered is marked as submitting; and calls on the stack have
      distinct ids. */
  ghost predicate BackedOk(entries: map<nat, Entry>, detached: set<nat>, calls: map<nat, CoreCall>) {
    && (forall id :: Held(entries, detached, id) ==> Backed(calls, id))
    && (forall c :: c in calls && !calls[c].returned && calls[c].answer.Owed? ==>
          calls[c].id in entries && entries[calls[c].id].submitting)
    && (forall c, d :: c in calls && d in calls && c != d && !calls[c].returned && !calls[d].returned ==>
          calls[c].id != calls[d].id)
  }

  ghost predicate FlowOk(t: Table, f: Flow) {
    && CountsOk(f)
    && LinksOk(t.entries, t.detached, f.calls)
    && (!f.reissued ==> BackedOk(t.entries, t.detached, f.calls))
  }

  // -------------------------------------------------------------------- start

  lemma CalledCounts(f: Flow, context: nat, id: nat)
    requires CountsOk(f) && context !in f.calls
    ensures CountsOk(Called(f, context, id))
  {
    TotalUpdate(f.calls, context, CoreCall(id, false, Owed), LiveOf);
    TotalUpdate(f.calls, context, CoreCall(id, false, Owed), StackOf);
  }

  lemma CalledLinks(entries: map<nat, Entry>, detached: set<nat>, calls: map<nat, CoreCall>, context: nat, id: nat, e: Entry)
    requires LinksOk(entries, detached, calls) && context !in calls
    requires id !in entries && id !in detached && e.status.Pending?
    ensures LinksOk(entries[id := e], detached, calls[context := CoreCall(id, false, Owed)])
  {
  }

  lemma CalledBacked(entries: map<nat, Entry>, detached: set<nat>, calls: map<nat, CoreCall>, context: nat, id: nat, e: Entry)
    requires BackedOk(entries, detached, calls) && context !in calls && !OnStack(calls, id)
    requires id !in entries && id !in detached && e.status.Pending? && e.submitting
    ensures BackedOk(entries[id := e], detached, calls[context := CoreCall(id, false, Owed)])
  {
    var entries', calls' := entries[id := e], calls[context := CoreCall(id, false, Owed)];
    forall i | Held(entries', detached, i) ensures Backed(calls', i) {
      if i == id {
        assert calls'[context].id == id;
      } else {
        assert Held(entries, detached, i);
        var c :| c in calls && Live(calls[c]) && calls[c].id == i;
        assert calls'[c] == calls[c];
      }
    }
  }

  lemma CalledOk(t: Table, f: Flow, context: nat, id: nat, e: Entry)
    requires FlowOk(t, f) && context !in f.calls
    requires id !in t.entries && id !in t.detached && e.status.Pending? && e.submitting
    ensures FlowOk(Inserted(t, id, e), Called(f, context, id))
  {
    hide CountsOk, LinksOk, BackedOk, OnStack;
    CalledCounts(f, context, id);
    CalledLinks(t.entries, t.detached, f.calls, context, id, e);
    if !f.reissued && !OnStack(f.calls, id) {
      CalledBacked(t.entries, t.detached, f.calls, context, id, e);
    }
  }

  // ------------------------------------------------------------- core returns

  lemma ReturnedCounts(f: Flow, context: nat)
    requires CountsOk(f) && context in f.calls && !f.calls[context].returned
    ensures f.active >= 1
    ensures CountsOk(ReturnAccepted(f, context))
    ensures f.calls[context].answer.Owed? ==> f.owners >= 1 && CountsOk(ReturnRejected(f, context))
  {
    var c := f.calls[context];
    TotalRemove(f.calls, context, LiveOf);
    TotalRemove(f.calls, context, StackOf);
    TotalUpdate(f.calls, context, c.(returned := true), LiveOf);
    TotalUpdate(f.calls, context, c.(returned := true), StackOf);
  }

  lemma AcceptedLinks(t: Table, f: Flow, context: nat)
    requires LinksOk(t.entries, t.detached, f.calls) && context in f.calls
    ensures LinksOk(Submitted(t, f.calls[context].id).entries, t.detached, ReturnAccepted(f, context).calls)
  {
    var id := f.calls[context].id;
    var entries' := Submitted(t, id).entries;
    assert forall i :: i in entries' <==> i in t.entries;
    assert forall i :: Held(t.entries, t.detached, i) ==> Held(entries', t.detached, i);
  }

  lemma AcceptedBacked(t: Table, f: Flow, context: nat)
    requires BackedOk(t.entries, t.detached, f.calls) && context in f.calls && !f.calls[context].returned
    ensures BackedOk(Submitted(t, f.calls[context].id).entries, t.detached, ReturnAccepted(f, context).calls)
  {
    var id := f.calls[context].id;
    var entries', calls' := Submitted(t, id).entries, ReturnAccepted(f, context).calls;
    forall i | Held(entries', t.detached, i) ensures Backed(calls', i) {
      assert Held(t.entries, t.detached, i);
      var c :| c in f.calls && Live(f.calls[c]) && f.calls[c].id == i;
      assert c in calls' && Live(calls'[c]) && calls'[c].id == i;
    }
  }

  lemma AcceptedOk(t: Table, f: Flow, context: nat)
    requires FlowOk(t, f) && context in f.calls && !f.calls[context].returned
    ensures FlowOk(Submitted(t, f.calls[context].id), ReturnAccepted(f, context))
  {
    hide CountsOk, LinksOk, BackedOk;
    ReturnedCounts(f, context);
    AcceptedLinks(t, f, context);
    if !f.reissued {
      AcceptedBacked(t, f, context);
    }
  }

  lemma DroppedCall(entries: map<nat, Entry>, detached: set<nat>, calls: map<nat, CoreCall>, context: nat,
                    entries': map<nat, Entry>, detached': set<nat>)
    requires LinksOk(entries, detached, calls) && context in calls && Live(calls[context])
    requires forall i :: i != calls[context].id && Held(entries, detached, i) ==> Held(entries', detached', i)
    ensures LinksOk(entries', detached', calls - {context})
  {
  }

  /** The callback slot of one call is given up: the others keep theirs. */
  lemma DroppedBacking(entries: map<nat, Entry>, detached: set<nat>, calls: map<nat, CoreCall>, context: nat,
                       entries': map<nat, Entry>, detached': set<nat>)
    requires LinksOk(entries, detached, calls) && BackedOk(entries, detached, calls)
    requires context in calls && Live(calls[context])
    requires forall i :: Held(entries', detached', i) ==> i != calls[context].id && Held(entries, detached, i)
    requires forall i :: i in entries && i != calls[context].id ==> i in entries' && entries'[i] == entries[i]
    ensures BackedOk(entries', detached', calls - {context})
  {
    var calls' := calls - {context};
    forall i | Held(entries', detached', i) ensures Backed(calls', i) {
      var c :| c in calls && Live(calls[c]) && calls[c].id == i;
      assert c in calls';
    }
  }

  lemma RejectedOk(t: Table, f: Flow, context: nat)
    requires FlowOk(t, f) && context in f.calls && !f.calls[context].returned && f.calls[context].answer.Owed?
    requires t.entries.Keys !! t.detached
    ensures var id := f.calls[context].id;
            FlowOk(if id in t.entries then Removed(t, id) else t, ReturnRejected(f, context))
  {
    var id := f.calls[context].id;
    var entries' := t.entries - {id};
    assert forall i :: i != id && Held(t.entries, t.detached, i) ==> Held(entries', t.detached, i);
    ReturnedCounts(f, context);
    DroppedCall(t.entries, t.detached, f.calls, context, entries', t.detached);
    if !f.reissued {
      InEntries(t, f, context);
      DroppedBacking(t.entries, t.detached, f.calls, context, entries', t.detached);
    }
    assert id !in t.entries ==> entries' == t.entries;
    hide CountsOk, LinksOk, BackedOk;
  }

  lemma InEntries(t: Table, f: Flow, context: nat)
    requires BackedOk(t.entries, t.detached, f.calls) && context in f.calls
    requires !f.calls[context].returned && f.calls[context].answer.Owed?
    ensures f.calls[context].id in t.entries && t.entries[f.calls[context].id].submitting
  {
  }

  // ------------------------------------------------------------------ replies

  lemma GivenCounts(f: Flow, context: nat)
    requires CountsOk(f) && context in f.calls && Live(f.calls[context])
    ensures f.owners >= 1
    ensures CountsOk(ReplyGiven(f, context))
  {
    var c := f.calls[context];
    TotalRemove(f.calls, context, LiveOf);
    TotalRemove(f.calls, context, StackOf);
    TotalUpdate(f.calls, context, c.(answer := Given), LiveOf);
    TotalUpdate(f.calls, context, c.(answer := Given), StackOf);
  }

  lemma GivenLinks(calls: map<nat, CoreCall>, context: nat, entries: map<nat, Entry>, detached: set<nat>)
    requires context in calls && LinksOk(entries, detached, calls - {context})
    ensures LinksOk(entries, detached, calls[context := calls[context].(answer := Given)])
  {
    GivenRest(calls, context);
  }

  lemma GivenRest(calls: map<nat, CoreCall>, context: nat)
    requires context in calls
    ensures var calls', rest := calls[context := calls[context].(answer := Given)], calls - {context};
            forall c :: c in calls' && Live(calls'[c]) ==> c in rest && rest[c] == calls'[c]
  {
  }

  lemma GivenBacked(calls: map<nat, CoreCall>, context: nat, entries: map<nat, Entry>, detached: set<nat>)
    requires context in calls && BackedOk(entries, detached, calls - {context})
    requires forall c, d :: c in calls && d in calls && c != d && !calls[c].returned && !calls[d].returned ==>
               calls[c].id != calls[d].id
    ensures BackedOk(entries, detached, calls[context := calls[context].(answer := Given)])
  {
    var calls', rest := calls[context := calls[context].(answer := Given)], calls - {context};
    GivenRest(calls, context);
    forall i | Held(entries, detached, i) ensures Backed(calls', i) {
      var c :| c in rest && Live(rest[c]) && rest[c].id == i;
      assert calls'[c] == rest[c];
    }
  }

  /** A callback that runs turns its slot free or its entry into a finished one. */
  ghost predicate SlotSettled(t: Table, id: nat, t': Table) {
    && (forall i :: i != id && i in t.entries ==> i in t'.entries && t'.entries[i] == t.entries[i])
    && (forall i :: i in t'.entries ==> i in t.entries && (i != id ==> t'.entries[i] == t.entries[i]))
    && (id in t'.entries ==> !t'.entries[id].status.Pending?)
    && t'.detached == t.detached - {id}
  }

  lemma RepliedOk(t: Table, f: Flow, context: nat, t': Table)
    requires FlowOk(t, f) && context in f.calls && Live(f.calls[context])
    requires SlotSettled(t, f.calls[context].id, t')
    ensures FlowOk(t', ReplyGiven(f, context))
  {
    var id := f.calls[context].id;
    assert forall i :: i != id ==> (Held(t.entries, t.detached, i) <==> Held(t'.entries, t'.detached, i));
    assert !Held(t'.entries, t'.detached, id);
    GivenCounts(f, context);
    DroppedCall(t.entries, t.detached, f.calls, context, t'.entries, t'.detached);
    GivenLinks(f.calls, context, t'.entries, t'.detached);
    if !f.reissued {
      DroppedBacking(t.entries, t.detached, f.calls, context, t'.entries, t'.detached);
      StackDistinct(t, f);
      GivenBacked(f.calls, context, t'.entries, t'.detached);
    }
    hide CountsOk, LinksOk, BackedOk, Held, SlotSettled;
  }

  lemma StackDistinct(t: Table, f: Flow)
    requires BackedOk(t.entries, t.detached, f.calls)
    ensures forall c, d :: c in f.calls && d in f.calls && c != d && !f.calls[c].returned && !f.calls[d].returned ==>
              f.calls[c].id != f.calls[d].id
  {
  }

  lemma LinkedId(t: Table, f: Flow, context: nat)
    requires FlowOk(t, f) && context in f.calls && Live(f.calls[context])
    ensures Held(t.entries, t.detached, f.calls[context].id)
  {
  }

  /** Both reply paths settle the slot of a live call. */
  lemma AnswerSettles(l: Limits, t: Table, id: nat, echoed: nat, response: Option<string>, now: int)
    requires Held(t.entries, t.detached, id) && t.entries.Keys !! t.detached
    ensures SlotSettled(t, id, Answered(l, t, id, echoed, response, now))
    ensures SlotSettled(t, id, Failed(l, t, id, now))
  {
  }

  /** A callback that throws half way is still owed. */
  lemma ThrowingOk(t: Table, f: Flow, context: nat)
    requires FlowOk(t, f) && context in f.calls && f.calls[context].answer.Owed?
    ensures FlowOk(Submitted(t, f.calls[context].id),
                   f.(calls := f.calls[context := f.calls[context].(answer := Throwing)]))
  {
    var c := f.calls[context];
    var calls' := f.calls[context := c.(answer := Throwing)];
    var entries' := Submitted(t, c.id).entries;
    TotalUpdate(f.calls, context, c.(answer := Throwing), LiveOf);
    TotalUpdate(f.calls, context, c.(answer := Throwing), StackOf);
    assert forall i :: Held(t.entries, t.detached, i) <==> Held(entries', t.detached, i);
    if !f.reissued {
      forall i | Held(entries', t.detached, i) ensures Backed(calls', i) {
        var d :| d in f.calls && Live(f.calls[d]) && f.calls[d].id == i;
        assert d in calls' && Live(calls'[d]) && calls'[d].id == i;
      }
    }
  }

  // ------------------------------------------------------------ drop and count

  /** Releasing or expiring an entry whose call has been made keeps every callback's slot. */
  lemma EntryDroppedOk(t: Table, f: Flow, id: nat)
    requires FlowOk(t, f) && id in t.entries && !t.entries[id].submitting
    ensures FlowOk(Dropped(t, id), f)
  {
    var t' := Dropped(t, id);
    assert forall i :: Held(t.entries, t.detached, i) <==> Held(t'.entries, t'.detached, i);
  }

  lemma EnteredOk(t: Table, f: Flow)
    requires FlowOk(t, f)
    ensures FlowOk(t, Entered(f))
    ensures f.others > 0 ==> f.active >= 1 && FlowOk(t, Left(f))
  {
  }

  // -------------------------------------------------------------- cardinality

  function PendingIds(entries: map<nat, Entry>): set<nat> {
    set id | id in entries && entries[id].status.Pending?
  }

  function LiveCalls(calls: map<nat, CoreCall>): set<nat> {
    set c | c in calls && Live(calls[c])
  }

  lemma {:induction false} LiveCount(calls: map<nat, CoreCall>)
    ensures Total(calls, LiveOf) == |LiveCalls(calls)|
    decreases |calls|
  {
    if calls != map[] {
      var c :| c in calls;
      TotalRemove(calls, c, LiveOf);
      LiveCount(calls - {c});
      assert LiveCalls(calls - {c}) == LiveCalls(calls) - {c};
    }
  }

  predicate Used(calls: map<nat, CoreCall>, live: set<nat>, id: nat) {
    exists c :: c in live && c in calls && calls[c].id == id
  }

  /** Calls with distinct ids are as many as their ids. */
  lemma {:induction false} IdCount(calls: map<nat, CoreCall>, live: set<nat>, ids: set<nat>)
    requires forall c :: c in live ==> c in calls && calls[c].id in ids
    requires forall c, d :: c in live && d in live && c != d ==> calls[c].id != calls[d].id
    ensures |live| <= |ids|
    ensures (forall i :: i in ids ==> Used(calls, live, i)) ==> |live| == |ids|
    decreases |live|
  {
    if live == {} {
      assert (forall i :: i in ids ==> Used(calls, live, i)) ==> ids == {};
    } else {
      var c :| c in live;
      IdCount(calls, live - {c}, ids - {calls[c].id});
      if forall i :: i in ids ==> Used(calls, live, i) {
        forall j | j in ids - {calls[c].id} ensures Used(calls, live - {c}, j) {
          assert Used(calls, live, j);
        }
      }
    }
  }

  /** Owed callbacks never outnumber the pending entries and the detached ids, and as long
      as no id was reissued to a second call on the stack, they are exactly as many. */
  lemma OwnersExact(t: Table, f: Flow)
    requires FlowOk(t, f) && t.entries.Keys !! t.detached
    ensures f.owners == |LiveCalls(f.calls)| <= |PendingIds(t.entries)| + |t.detached|
    ensures !f.reissued ==> f.owners == |PendingIds(t.entries)| + |t.detached|
  {
    LiveCount(f.calls);
    var ids := PendingIds(t.entries) + t.detached;
    assert PendingIds(t.entries) !! t.detached;
    assert |ids| == |PendingIds(t.entries)| + |t.detached|;
    var live := LiveCalls(f.calls);
    assert forall i :: i in ids <==> Held(t.entries, t.detached, i);
    if !f.reissued {
      forall i | i in ids ensures Used(f.calls, live, i) {
        assert Backed(f.calls, i);
      }
    }
    IdCount(f.calls, live, ids);
  }
}
