/** Order and bounds of the event queue. A run of arrivals is cut into groups; a
    group of more than one event consists of base `newBlock` events only, and
    what the core gets to see is the last event of every group, in order. */
module TransportEvents {
  import opened TransportModel
  import opened TransportRequests

  predicate IsGroup(g: seq<Event>) {
    g != [] && (|g| > 1 ==> AllBlocks(g))
  }

  function Flatten(gs: seq<seq<Event>>): seq<Event> {
    if gs == [] then [] else Flatten(gs[..|gs| - 1]) + gs[|gs| - 1]
  }

  predicate AreGroups(gs: seq<seq<Event>>) {
    forall i :: 0 <= i < |gs| ==> IsGroup(gs[i])
  }

  function Last<T>(s: seq<T>): T
    requires s != []
  {
    s[|s| - 1]
  }

  function Lasts(gs: seq<seq<Event>>): (r: seq<Event>)
    requires AreGroups(gs)
    ensures |r| == |gs|
    ensures forall i :: 0 <= i < |gs| ==> r[i] == Last(gs[i])
  {
    seq(|gs|, i requires 0 <= i < |gs| => Last(gs[i]))
  }

  /** `kept` is `arrivals` with some blocks dropped, each in favour of a later
      block that only blocks separate from it. */
  ghost predicate Thinned(arrivals: seq<Event>, kept: seq<Event>) {
    exists gs :: AreGroups(gs) && Flatten(gs) == arrivals && Lasts(gs) == kept
  }

  lemma ThinnedAppend(arrivals: seq<Event>, kept: seq<Event>, e: Event)
    requires Thinned(arrivals, kept)
    ensures Thinned(arrivals + [e], kept + [e])
  {
    var gs :| AreGroups(gs) && Flatten(gs) == arrivals && Lasts(gs) == kept;
    var gs' := gs + [[e]];
    assert gs'[..|gs'| - 1] == gs;
    assert Flatten(gs') == arrivals + [e];
    assert Lasts(gs') == kept + [e];
  }

  lemma {:induction false} FlattenConcat(a: seq<seq<Event>>, b: seq<seq<Event>>)
    ensures Flatten(a + b) == Flatten(a) + Flatten(b)
    decreases |b|
  {
    if b == [] {
      assert a + b == a;
    } else {
      assert (a + b)[..|a + b| - 1] == a + b[..|b| - 1];
      FlattenConcat(a, b[..|b| - 1]);
    }
  }

  lemma {:induction false} BlockGroups(gs: seq<seq<Event>>)
    requires AreGroups(gs) && AllBlocks(Lasts(gs))
    ensures AllBlocks(Flatten(gs))
    decreases |gs|
  {
    if gs != [] {
      var front := gs[..|gs| - 1];
      assert forall i :: 0 <= i < |front| ==> Lasts(front)[i] == Lasts(gs)[i];
      BlockGroups(front);
      assert IsLatestBlock(Lasts(gs)[|gs| - 1]);
      assert AllBlocks(gs[|gs| - 1]);
    }
  }

  /** The last groups, all of blocks, merge with one more block. */
  lemma MergeGroups(a: seq<seq<Event>>, b: seq<seq<Event>>, e: Event)
    requires AreGroups(a) && AreGroups(b) && AllBlocks(Lasts(b)) && IsLatestBlock(e)
    ensures AreGroups(a + [Flatten(b) + [e]])
    ensures Flatten(a + [Flatten(b) + [e]]) == Flatten(a + b) + [e]
    ensures Lasts(a + [Flatten(b) + [e]]) == Lasts(a) + [e]
  {
    hide IsLatestBlock;
    BlockGroups(b);
    FlattenConcat(a, b);
    var gs' := a + [Flatten(b) + [e]];
    assert gs'[..|gs'| - 1] == a;
    assert IsGroup(Flatten(b) + [e]);
  }

  lemma SplitGroups(gs: seq<seq<Event>>, n: nat)
    requires AreGroups(gs) && n <= |gs|
    ensures AreGroups(gs[..n]) && AreGroups(gs[n..])
    ensures Lasts(gs[..n]) == Lasts(gs)[..n] && Lasts(gs[n..]) == Lasts(gs)[n..]
  {
    hide IsGroup;
  }

  lemma ThinnedCoalesce(arrivals: seq<Event>, delivered: seq<Event>, queue: seq<Event>, e: Event)
    requires Thinned(arrivals, delivered + queue) && AllBlocks(queue) && IsLatestBlock(e)
    ensures Thinned(arrivals + [e], delivered + [e])
  {
    hide IsLatestBlock, AllBlocks, AreGroups, Flatten;
    var gs :| AreGroups(gs) && Flatten(gs) == arrivals && Lasts(gs) == delivered + queue;
    var a, b := gs[..|delivered|], gs[|delivered|..];
    assert gs == a + b;
    SplitGroups(gs, |delivered|);
    assert (delivered + queue)[..|delivered|] == delivered && (delivered + queue)[|delivered|..] == queue;
    MergeGroups(a, b, e);
  }

  // ------------------------------------------------- what thinning preserves

  function NonBlocks(s: seq<Event>): seq<Event> {
    if s == [] then [] else
    NonBlocks(s[..|s| - 1]) + (if IsLatestBlock(Last(s)) then [] else [Last(s)])
  }

  lemma {:induction false} NonBlocksConcat(a: seq<Event>, b: seq<Event>)
    ensures NonBlocks(a + b) == NonBlocks(a) + NonBlocks(b)
    decreases |b|
  {
    if b == [] {
      assert a + b == a;
    } else {
      assert (a + b)[..|a + b| - 1] == a + b[..|b| - 1];
      NonBlocksConcat(a, b[..|b| - 1]);
    }
  }

  lemma {:induction false} NonBlocksNone(s: seq<Event>)
    requires AllBlocks(s)
    ensures NonBlocks(s) == []
    decreases |s|
  {
    if s != [] {
      NonBlocksNone(s[..|s| - 1]);
    }
  }

  lemma {:induction false} GroupsKeepNonBlocks(gs: seq<seq<Event>>)
    requires AreGroups(gs)
    ensures NonBlocks(Flatten(gs)) == NonBlocks(Lasts(gs))
    decreases |gs|
  {
    if gs != [] {
      var front, g := gs[..|gs| - 1], gs[|gs| - 1];
      GroupsKeepNonBlocks(front);
      assert Lasts(gs)[..|gs| - 1] == Lasts(front);
      NonBlocksConcat(Flatten(front), g);
      if |g| > 1 {
        NonBlocksNone(g);
      } else {
        assert g == [Last(g)];
        assert g[..0] == [];
      }
    }
  }

  /** Every event that is not a block survives in order, and the last arrival of
      all is the last event kept. */
  lemma ThinnedKeeps(arrivals: seq<Event>, kept: seq<Event>)
    requires Thinned(arrivals, kept)
    ensures NonBlocks(kept) == NonBlocks(arrivals)
    ensures arrivals == [] <==> kept == []
    ensures arrivals != [] ==> Last(kept) == Last(arrivals)
  {
    var gs :| AreGroups(gs) && Flatten(gs) == arrivals && Lasts(gs) == kept;
    GroupsKeepNonBlocks(gs);
    if gs != [] {
      assert Flatten(gs) == Flatten(gs[..|gs| - 1]) + gs[|gs| - 1];
    }
  }

  // -------------------------------------------------------------- invariant

  ghost predicate EventsOk(l: Limits, ev: Events) {
    && ev.bytes == QueueBytes(ev.queue) <= l.maxQueuedEventBytes
    && |ev.queue| <= l.maxQueuedEvents
    && Thinned(ev.arrivals, ev.delivered + ev.queue)
  }

  ghost predicate EventInv(l: Limits, s: State) {
    && EventsOk(l, s.ev)
    && (s.lifecycle != Dormant && s.lifecycle != Closed ==> ValidLimits(l))
  }

  lemma NoEventsOk(l: Limits)
    ensures EventsOk(l, NoEvents)
  {
    assert AreGroups([]) && Flatten([]) == [] && Lasts([]) == [];
    assert Thinned([], []);
  }

  lemma EnqueueKept(l: Limits, ev: Events, e: Event)
    requires EventsOk(l, ev) && ValidLimits(l) && EventBytes(e) <= l.maxSingleEventBytes
    ensures Enqueue(l, ev, e).Some? ==> EventsOk(l, Enqueue(l, ev, e).value)
  {
    hide Thinned, IsLatestBlock, EventBytes;
    if Enqueue(l, ev, e).Some? {
      if Enqueue(l, ev, e).value.queue == ev.queue + [e] {
        ThinnedAppend(ev.arrivals, ev.delivered + ev.queue, e);
        assert ev.delivered + ev.queue + [e] == ev.delivered + (ev.queue + [e]);
        assert (ev.queue + [e])[..|ev.queue + [e]| - 1] == ev.queue;
      } else {
        ThinnedCoalesce(ev.arrivals, ev.delivered, ev.queue, e);
        assert [e][..0] == [];
        assert QueueBytes([e]) == QueueBytes([]) + EventBytes(e);
      }
    }
  }

  lemma AcceptKept(l: Limits, ev: Events, e: Event)
    requires EventsOk(l, ev) && ev.queue == []
    ensures EventsOk(l, ev.(arrivals := ev.arrivals + [e], delivered := ev.delivered + [e]))
  {
    hide Thinned;
    assert ev.delivered + ev.queue == ev.delivered;
    ThinnedAppend(ev.arrivals, ev.delivered, e);
    assert ev.delivered + [e] + [] == ev.delivered + [e];
  }

  lemma {:induction false} QueueBytesFront(q: seq<Event>)
    requires q != []
    ensures QueueBytes(q) == EventBytes(q[0]) + QueueBytes(q[1..])
    decreases |q|
  {
    if |q| > 1 {
      QueueBytesFront(q[..|q| - 1]);
      assert q[..|q| - 1][1..] == q[1..][..|q| - 2];
      assert q[1..][|q| - 2] == q[|q| - 1];
    } else {
      assert q[..0] == [] && q[1..] == [];
    }
  }

  lemma DeliverKept(l: Limits, s: State, status: IngestStatus)
    requires EventsOk(l, s.ev) && s.ev.queue != [] && status == Accepted
    ensures EventsOk(l, DeliverFront(s, status).ev)
    ensures DeliverFront(s, status).ev.bytes == s.ev.bytes - EventBytes(s.ev.queue[0])
  {
    hide Thinned;
    QueueBytesFront(s.ev.queue);
    assert s.ev.delivered + [s.ev.queue[0]] + s.ev.queue[1..] == s.ev.delivered + s.ev.queue;
  }

  lemma EventStepEvents(l: Limits, s: State, e: EventStep)
    requires EventInv(l, s) && EventEnabled(s, e)
    ensures EventsOk(l, ApplyEvent(l, s, e).ev)
  {
    hide EventsOk, EventBytes, Enqueue, ValidLimits;
    match e
    case Ingest(event, wellFormed, status) =>
      if s.lifecycle == Activating || s.lifecycle == Open {
        if EventBytes(event) <= l.maxSingleEventBytes {
          EnqueueKept(l, s.ev, event);
          if s.ev.queue == [] {
            AcceptKept(l, s.ev, event);
          }
        }
      }
    case Deliver(status) =>
      if status == Accepted {
        DeliverKept(l, s, status);
      }
    case RequestFault =>
  }

  lemma EventStepEventInv(l: Limits, s: State, e: EventStep)
    requires EventInv(l, s) && EventEnabled(s, e)
    ensures EventInv(l, ApplyEvent(l, s, e))
  {
    hide EventsOk, ApplyEvent, ValidLimits;
    EventStepEvents(l, s, e);
    EventStepShape(l, s, e);
  }

  lemma OtherStepEventInv(l: Limits, s: State, e: Step)
    requires EventInv(l, s) && ControlOk(s) && Enabled(l, s, e) && !e.OnEvent?
    ensures EventInv(l, Apply(l, s, e))
  {
    hide EventsOk;
    NoEventsOk(l);
    match e
    case Setup(x) =>
    case OnTable(x) =>
    case OnRequest(x) => RequestStepEvents(l, s, x);
    case Shutdown(x) =>
  }

  lemma RequestStepEvents(l: Limits, s: State, e: RequestStep)
    requires RequestEnabled(l, s, e)
    ensures ApplyRequest(l, s, e).ev == s.ev && ApplyRequest(l, s, e).lifecycle == s.lifecycle
  {
    hide Erased, Freed;
    match e
    case Admit(_, _, _, _) =>
    case InvokeReturned(_, _) =>
    case InvokeFinished(id) => EraseEffect(FinishInvoke(s.req, id), id);
    case CallbackBegin(_, _) =>
    case CallbackEnd(id) => EraseEffect(EndCallback(s.req, id), id);
    case Cancel(id) =>
      if id in s.req.pending {
        EraseEffect(CancelOne(s.req, id), id);
      }
  }
}
