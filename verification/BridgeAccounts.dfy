/** The table of the bridge: slots, bytes and the two indexes stay exact. */
module BridgeAccounts {
  import opened Totals
  import opened BridgeTokens
  import opened BridgeModel

  function InputOf(e: Entry): nat { e.inputBytes }
  function ResponseOf(e: Entry): nat { |e.response| }
  function CorrelationOf(e: Entry): string { e.correlation }
  function TokenOf(e: Entry): string { e.token }

  predicate ValidId(id: nat) { 0 < id < TWO64 }

  /** Reserved slots are the entries and the detached ids, which are disjoint. */
  predicate SlotsOk(l: Limits, entries: map<nat, Entry>, detached: set<nat>, slots: nat) {
    && entries.Keys !! detached
    && slots == |entries.Keys| + |detached| <= l.maxSlots
    && (forall id :: id in entries ==> ValidId(id))
    && (forall id :: id in detached ==> ValidId(id))
  }

  /** Retained bytes are the exact sums over the entries and within their limits. */
  ghost predicate BytesOk(l: Limits, entries: map<nat, Entry>, inputs: nat, responses: nat) {
    && inputs == Total(entries, InputOf) <= l.maxInput
    && responses == Total(entries, ResponseOf) <= l.maxResponse
  }

  /** `index` is the inverse of the key function on the entries. */
  predicate IndexOk(entries: map<nat, Entry>, index: map<string, nat>, key: Entry -> string) {
    && (forall id :: id in entries ==> key(entries[id]) in index && index[key(entries[id])] == id)
    && (forall k :: k in index ==> index[k] in entries && key(entries[index[k]]) == k)
  }

  /** Every entry carries the token of its id; text is kept for ready entries only; an
      entry whose call is still being made is pending; and a pending backup import has no
      expiry. */
  predicate EntriesOk(space: nat, entries: map<nat, Entry>) {
    forall id :: id in entries ==>
      && entries[id].token == MakeToken(space, id)
      && (!entries[id].status.Ready? ==> entries[id].response == "")
      && (entries[id].submitting ==> entries[id].status.Pending?)
      && (entries[id].status.Pending? && Retains(entries[id].target) ==> entries[id].expires.Never?)
  }

  ghost predicate TableOk(l: Limits, space: nat, t: Table) {
    && SlotsOk(l, t.entries, t.detached, t.slots)
    && BytesOk(l, t.entries, t.inputs, t.responses)
    && IndexOk(t.entries, t.correlations, CorrelationOf)
    && IndexOk(t.entries, t.tokens, TokenOf)
    && EntriesOk(space, t.entries)
  }

  // ------------------------------------------------- the three kinds of change

  lemma IndexAdd(entries: map<nat, Entry>, index: map<string, nat>, key: Entry -> string, id: nat, e: Entry)
    requires IndexOk(entries, index, key) && id !in entries && key(e) !in index
    ensures IndexOk(entries[id := e], index[key(e) := id], key)
  {
  }

  lemma IndexDrop(entries: map<nat, Entry>, index: map<string, nat>, key: Entry -> string, id: nat, k: string)
    requires IndexOk(entries, index, key) && id in entries && k == key(entries[id])
    ensures IndexOk(entries - {id}, index - {k}, key)
  {
  }

  lemma IndexKeep(entries: map<nat, Entry>, index: map<string, nat>, key: Entry -> string, id: nat, e: Entry)
    requires IndexOk(entries, index, key) && id in entries && key(e) == key(entries[id])
    ensures IndexOk(entries[id := e], index, key)
  {
  }

  lemma InsertedSlots(l: Limits, entries: map<nat, Entry>, detached: set<nat>, slots: nat, id: nat, e: Entry)
    requires SlotsOk(l, entries, detached, slots) && slots < l.maxSlots
    requires id !in entries && id !in detached && ValidId(id)
    ensures SlotsOk(l, entries[id := e], detached, slots + 1)
  {
    assert entries[id := e].Keys == entries.Keys + {id};
  }

  lemma InsertedBytes(l: Limits, entries: map<nat, Entry>, inputs: nat, responses: nat, id: nat, e: Entry)
    requires BytesOk(l, entries, inputs, responses) && id !in entries
    requires inputs + e.inputBytes <= l.maxInput && e.response == ""
    ensures BytesOk(l, entries[id := e], inputs + e.inputBytes, responses)
  {
    TotalUpdate(entries, id, e, InputOf);
    TotalUpdate(entries, id, e, ResponseOf);
  }

  lemma InsertedOk(l: Limits, space: nat, t: Table, id: nat, e: Entry)
    requires TableOk(l, space, t) && t.slots < l.maxSlots && ValidId(id)
    requires id !in t.entries && id !in t.detached
    requires e.correlation !in t.correlations && e.token !in t.tokens
    requires e.token == MakeToken(space, id) && e.response == "" && e.status.Pending?
    requires Retains(e.target) ==> e.expires.Never?
    requires t.inputs + e.inputBytes <= l.maxInput
    ensures TableOk(l, space, Inserted(t, id, e))
  {
    hide SlotsOk, BytesOk, IndexOk;
    InsertedSlots(l, t.entries, t.detached, t.slots, id, e);
    InsertedBytes(l, t.entries, t.inputs, t.responses, id, e);
    IndexAdd(t.entries, t.correlations, CorrelationOf, id, e);
    IndexAdd(t.entries, t.tokens, TokenOf, id, e);
  }

  lemma DroppedSlots(l: Limits, entries: map<nat, Entry>, detached: set<nat>, slots: nat, id: nat)
    requires SlotsOk(l, entries, detached, slots) && id in entries
    ensures slots >= 1
    ensures SlotsOk(l, entries - {id}, detached, Less(slots, 1))
    ensures SlotsOk(l, entries - {id}, detached + {id}, slots)
  {
    assert (entries - {id}).Keys == entries.Keys - {id};
  }

  lemma DroppedBytes(l: Limits, entries: map<nat, Entry>, inputs: nat, responses: nat, id: nat)
    requires BytesOk(l, entries, inputs, responses) && id in entries
    ensures entries[id].inputBytes <= inputs && |entries[id].response| <= responses
    ensures BytesOk(l, entries - {id}, Less(inputs, entries[id].inputBytes), Less(responses, |entries[id].response|))
  {
    TotalRemove(entries, id, InputOf);
    TotalRemove(entries, id, ResponseOf);
  }

  lemma DroppedEntries(space: nat, entries: map<nat, Entry>, id: nat)
    requires EntriesOk(space, entries)
    ensures EntriesOk(space, entries - {id})
    ensures id in entries && entries[id].status.Pending? ==> entries[id].response == ""
  {
  }

  /** Erasing an entry keeps the table exact, and none of the three subtractions would
      have gone below zero. */
  lemma RemovedOk(l: Limits, space: nat, t: Table, id: nat)
    requires TableOk(l, space, t) && id in t.entries
    ensures TableOk(l, space, Removed(t, id))
    ensures t.slots >= 1 && t.inputs >= t.entries[id].inputBytes && t.responses >= |t.entries[id].response|
  {
    hide SlotsOk, BytesOk, IndexOk, EntriesOk, Less;
    DroppedSlots(l, t.entries, t.detached, t.slots, id);
    DroppedBytes(l, t.entries, t.inputs, t.responses, id);
    IndexDrop(t.entries, t.correlations, CorrelationOf, id, t.entries[id].correlation);
    IndexDrop(t.entries, t.tokens, TokenOf, id, t.entries[id].token);
    DroppedEntries(space, t.entries, id);
  }

  lemma DetachedOk(l: Limits, space: nat, t: Table, id: nat)
    requires TableOk(l, space, t) && id in t.entries && t.entries[id].status.Pending?
    ensures TableOk(l, space, Detached(t, id))
  {
    hide SlotsOk, BytesOk, IndexOk, EntriesOk;
    RemovedOk(l, space, t, id);
    DroppedSlots(l, t.entries, t.detached, t.slots, id);
    DroppedEntries(space, t.entries, id);
    var r, t' := Removed(t, id), Detached(t, id);
    assert t'.entries == r.entries && t'.correlations == r.correlations && t'.tokens == r.tokens;
    assert t'.inputs == r.inputs && t'.responses == r.responses;
  }

  lemma ForgottenOk(l: Limits, space: nat, t: Table, id: nat)
    requires TableOk(l, space, t)
    ensures TableOk(l, space, Forgotten(t, id))
    ensures id in t.detached ==> t.slots >= 1
  {
  }

  lemma RewrittenSlots(l: Limits, entries: map<nat, Entry>, detached: set<nat>, slots: nat, id: nat, e: Entry)
    requires SlotsOk(l, entries, detached, slots) && id in entries
    ensures SlotsOk(l, entries[id := e], detached, slots)
  {
    assert entries[id := e].Keys == entries.Keys;
  }

  lemma RewrittenBytes(l: Limits, entries: map<nat, Entry>, inputs: nat, responses: nat, id: nat, e: Entry)
    requires BytesOk(l, entries, inputs, responses) && id in entries
    requires e.inputBytes == entries[id].inputBytes
    requires responses - |entries[id].response| + |e.response| <= l.maxResponse
    ensures |entries[id].response| <= responses
    ensures BytesOk(l, entries[id := e], inputs, responses - |entries[id].response| + |e.response|)
  {
    TotalUpdate(entries, id, e, InputOf);
    TotalUpdate(entries, id, e, ResponseOf);
    TotalAtLeast(entries, id, ResponseOf);
  }

  /** Rewriting an entry in place keeps the table exact when the entry keeps its keys and
      its response account is moved along. */
  lemma RewrittenOk(l: Limits, space: nat, t: Table, id: nat, e: Entry, t': Table)
    requires TableOk(l, space, t) && id in t.entries
    requires e.correlation == t.entries[id].correlation && e.token == t.entries[id].token
    requires e.inputBytes == t.entries[id].inputBytes
    requires (!e.status.Ready? ==> e.response == "") && (e.submitting ==> e.status.Pending?)
    requires e.status.Pending? && Retains(e.target) ==> e.expires.Never?
    requires t.responses - |t.entries[id].response| + |e.response| <= l.maxResponse
    requires t' == t.(entries := t.entries[id := e], responses := t'.responses)
    requires t'.responses == t.responses - |t.entries[id].response| + |e.response|
    ensures TableOk(l, space, t')
  {
    hide SlotsOk, BytesOk, IndexOk;
    RewrittenSlots(l, t.entries, t.detached, t.slots, id, e);
    RewrittenBytes(l, t.entries, t.inputs, t.responses, id, e);
    IndexKeep(t.entries, t.correlations, CorrelationOf, id, e);
    IndexKeep(t.entries, t.tokens, TokenOf, id, e);
  }

  lemma AnsweredOk(l: Limits, space: nat, t: Table, id: nat, echoed: nat, response: Option<string>, now: int)
    requires TableOk(l, space, t)
    ensures TableOk(l, space, Answered(l, t, id, echoed, response, now))
  {
    hide TableOk, Forgotten;
    if id in t.entries {
      var e := t.entries[id];
      var t' := Answered(l, t, id, echoed, response, now);
      BasicFacts(l, space, t, id);
      RewrittenOk(l, space, t, id, t'.entries[id], t');
    } else {
      ForgottenOk(l, space, t, id);
    }
  }

  lemma BasicFacts(l: Limits, space: nat, t: Table, id: nat)
    requires TableOk(l, space, t) && id in t.entries
    ensures t.responses <= l.maxResponse
    ensures !t.entries[id].status.Ready? ==> t.entries[id].response == ""
    ensures t.entries[id].submitting ==> t.entries[id].status.Pending?
    ensures t.entries[id].status.Pending? && Retains(t.entries[id].target) ==> t.entries[id].expires.Never?
  {
  }

  lemma FailedOk(l: Limits, space: nat, t: Table, id: nat, now: int)
    requires TableOk(l, space, t)
    ensures TableOk(l, space, Failed(l, t, id, now))
  {
    hide TableOk, Forgotten;
    if id in t.entries {
      var t' := Failed(l, t, id, now);
      BasicFacts(l, space, t, id);
      if t.entries[id].status.Pending? {
        RewrittenOk(l, space, t, id, t'.entries[id], t');
      }
    } else {
      ForgottenOk(l, space, t, id);
    }
  }

  lemma SubmittedOk(l: Limits, space: nat, t: Table, id: nat)
    requires TableOk(l, space, t)
    ensures TableOk(l, space, Submitted(t, id))
  {
    hide TableOk;
    if id in t.entries {
      BasicFacts(l, space, t, id);
      var t' := Submitted(t, id);
      RewrittenOk(l, space, t, id, t'.entries[id], t');
    }
  }

  // --------------------------------------------------------------- admission

  /** In an exact table there are no stale index entries. */
  lemma NothingStale(l: Limits, space: nat, t: Table, correlation: string)
    requires TableOk(l, space, t)
    ensures DropStale(t, correlation) == t
    ensures correlation in t.correlations ==> t.correlations[correlation] in t.entries
  {
  }

  /** A token in use belongs to a retained id. */
  lemma TokenTaken(l: Limits, space: nat, t: Table, id: nat)
    requires TableOk(l, space, t) && space < TWO64 && id < TWO64 && MakeToken(space, id) in t.tokens
    ensures id in t.entries
  {
    hide BytesOk, MakeToken;
    var other := t.tokens[MakeToken(space, id)];
    TokensInjective(space, id, space, other);
  }

  /** With a free slot and room for the input, a request with a new correlation id is
      always admitted: no id shortage, no token collision, for any value of the 64-bit
      id counter. */
  lemma AdmissionNeverExhausted(l: Limits, space: nat, t: Table, next: Word, correlation: string, g: Target)
    requires ValidLimits(l) && space < TWO64 && TableOk(l, space, t)
    requires correlation !in t.correlations && t.slots < l.maxSlots
    requires t.inputs + InputBytes(correlation, g) <= l.maxInput
    ensures var a := Admit(l, space, Open, t, next, correlation, g);
            && a.Admitted? && ValidId(a.id) && a.id !in t.entries && a.id !in t.detached
            && MakeToken(space, a.id) !in t.tokens
  {
    var taken := t.entries.Keys + t.detached;
    SlotCount(l, space, t);
    AllocateSucceeds(next, taken);
    var id := Allocate(next, taken, t.slots + 2).0;
    hide TableOk, MakeToken, Allocate, InputBytes;
    if MakeToken(space, id) in t.tokens {
      TokenTaken(l, space, t, id);
    }
  }

  lemma SlotCount(l: Limits, space: nat, t: Table)
    requires TableOk(l, space, t)
    ensures |t.entries.Keys + t.detached| == t.slots <= l.maxSlots && t.inputs <= l.maxInput
  {
    Disjoint(t.entries.Keys, t.detached);
  }

  lemma Disjoint(a: set<nat>, b: set<nat>)
    requires a !! b
    ensures |a + b| == |a| + |b|
  {
  }

  /** The correlation id belongs to a retained request with this payload. */
  predicate Repeats(t: Table, correlation: string, g: Target) {
    && correlation in t.correlations && t.correlations[correlation] in t.entries
    && t.entries[t.correlations[correlation]].target == g
  }

  predicate Fits(l: Limits, t: Table, correlation: string, g: Target) {
    t.inputs + InputBytes(correlation, g) <= l.maxInput
  }

  /** The outcome of a start, exactly: admitted, answered with the token it already has,
      made to wait for the call that is being made, or refused for one of the four
      documented reasons. */
  lemma AdmissionExact(l: Limits, space: nat, life: Lifecycle, t: Table, next: Word, correlation: string, g: Target)
    requires ValidLimits(l) && space < TWO64 && TableOk(l, space, t)
    ensures var a := Admit(l, space, life, t, next, correlation, g);
            var fresh_ := correlation !in t.correlations;
            && (a.Admitted? <==> life.Open? && fresh_ && t.slots < l.maxSlots && Fits(l, t, correlation, g))
            && (a.Known? <==> life.Open? && Repeats(t, correlation, g) && !t.entries[t.correlations[correlation]].submitting)
            && (a.Known? ==> a.token == MakeToken(space, t.correlations[correlation]))
            && (a.MustWait? <==> life.Open? && Repeats(t, correlation, g) && t.entries[t.correlations[correlation]].submitting)
            && (a.Refused? <==> !a.Admitted? && !a.Known? && !a.MustWait?)
            && (a.Refused? ==> a.reason == (if !life.Open? then BridgeClosed
                                            else if !fresh_ then OtherPayload
                                            else if t.slots >= l.maxSlots then NoSlot
                                            else NoInputRoom))
  {
    NothingStale(l, space, t, correlation);
    SlotCount(l, space, t);
    if correlation !in t.correlations && t.slots < l.maxSlots && Fits(l, t, correlation, g) {
      AdmissionNeverExhausted(l, space, t, next, correlation, g);
    }
    hide SlotsOk, BytesOk, IndexOk, MakeToken, Allocate, InputBytes;
  }

  lemma StartedOk(l: Limits, space: nat, t: Table, next: Word, correlation: string, g: Target, now: int)
    requires ValidLimits(l) && space < TWO64 && TableOk(l, space, t)
    requires Admit(l, space, Open, t, next, correlation, g).Admitted?
    ensures var id := Admit(l, space, Open, t, next, correlation, g).id;
            && ValidId(id) && id !in t.entries && id !in t.detached && DropStale(t, correlation) == t
            && TableOk(l, space, Inserted(t, id, NewEntry(l, space, id, correlation, g, now)))
  {
    hide TableOk, MakeToken, Allocate, InputBytes, Inserted;
    NothingStale(l, space, t, correlation);
    AdmissionExact(l, space, Open, t, next, correlation, g);
    AdmissionNeverExhausted(l, space, t, next, correlation, g);
    var id := Admit(l, space, Open, t, next, correlation, g).id;
    InsertedOk(l, space, t, id, NewEntry(l, space, id, correlation, g, now));
  }
}
