/** Which of two snapshots of a runtime operation is the newer one. */
module SnapshotOrder {
  import opened Totals

  /** A number that is finite and not negative. */
  type Measure = x: real | x >= 0.0

  /** A snapshot with its fields as they are read: an absent or unusable cursor or
      number is `None`, an absent operation id or status is empty. */
  datatype Snapshot = Snapshot(operationId: string, status: string, cursor: Option<nat>, progress: Option<Measure>,
                               bytesWritten: Option<Measure>, coalescedCount: Option<Measure>, updatedAt: Option<Measure>)

  predicate Terminal(status: string) {
    status == "completed" || status == "dispatched" || status == "failed" || status == "canceled" || status == "timed_out"
  }

  /** The four monotonic fields, in the order they are compared. */
  function Fields(s: Snapshot): (r: seq<Option<Measure>>)
    ensures |r| == 4
  {
    [s.progress, s.bytesWritten, s.coalescedCount, s.updatedAt]
  }

  /** A field is neither lost nor lowered. */
  predicate Kept(previous: Option<Measure>, candidate: Option<Measure>) {
    previous.Some? ==> candidate.Some? && previous.value <= candidate.value
  }

  /** A field appears or grows. */
  predicate Advanced(previous: Option<Measure>, candidate: Option<Measure>) {
    (previous.None? && candidate.Some?) || (previous.Some? && candidate.Some? && previous.value < candidate.value)
  }

  predicate AllKept(p: Snapshot, c: Snapshot) {
    forall i :: 0 <= i < 4 ==> Kept(Fields(p)[i], Fields(c)[i])
  }

  predicate SomeAdvanced(p: Snapshot, c: Snapshot) {
    exists i :: 0 <= i < 3 && Advanced(Fields(p)[i], Fields(c)[i])
  }

  predicate ProgressIsNewer(p: Snapshot, c: Snapshot) {
    p.status == c.status && AllKept(p, c) && SomeAdvanced(p, c)
  }

  /** `sameCursorProgressIsNewer`: the loop over the field names. */
  method SameCursorProgressIsNewer(previous: Snapshot, candidate: Snapshot) returns (r: bool)
    ensures r == ProgressIsNewer(previous, candidate)
  {
    if previous.status != candidate.status {
      return false;
    }
    var ps, cs := Fields(previous), Fields(candidate);
    var advanced := false;
    for i := 0 to 4
      invariant forall j :: 0 <= j < i ==> Kept(ps[j], cs[j])
      invariant advanced == exists j :: 0 <= j < i && j < 3 && Advanced(ps[j], cs[j])
    {
      var p, c := ps[i], cs[i];
      if p.Some? && c.None? {
        assert !Kept(ps[i], cs[i]);
        return false;
      }
      if p.Some? && c.value < p.value {
        assert !Kept(ps[i], cs[i]);
        return false;
      }
      if i < 3 && ((p.None? && c.Some?) || (p.Some? && c.value > p.value)) {
        advanced := true;
        assert Advanced(ps[i], cs[i]);
      }
    }
    r := advanced;
  }

  /** `runtimeSnapshotIsNewer`. */
  predicate IsNewer(current: Option<Snapshot>, candidate: Option<Snapshot>) {
    if candidate.None? then false
    else if current.None? then true
    else
      var p, c := current.value, candidate.value;
      if p.operationId != "" && c.operationId != "" && p.operationId != c.operationId then true
      else if Terminal(p.status) then false
      else if p.cursor.Some? && c.cursor.None? then false
      else if p.cursor.None? || c.cursor.None? then true
      else if c.cursor.value != p.cursor.value then c.cursor.value > p.cursor.value
      else ProgressIsNewer(p, c)
  }

  // ------------------------------------------------------------------- ordering

  /** A snapshot that can belong to the operation. */
  predicate Of(s: Snapshot, id: string) {
    s.operationId == id || s.operationId == ""
  }

  predicate Newer(a: Snapshot, b: Snapshot) {
    IsNewer(Some(a), Some(b))
  }

  lemma {:induction false} AdvanceIsStrict(a: Snapshot, b: Snapshot)
    requires AllKept(a, b) && SomeAdvanced(a, b)
    ensures !AllKept(b, a)
  {
    var i :| 0 <= i < 3 && Advanced(Fields(a)[i], Fields(b)[i]);
    assert !Kept(Fields(b)[i], Fields(a)[i]);
  }

  lemma KeptChain(a: Snapshot, b: Snapshot, c: Snapshot)
    requires AllKept(a, b) && AllKept(b, c)
    ensures AllKept(a, c)
    ensures SomeAdvanced(a, b) || SomeAdvanced(b, c) ==> SomeAdvanced(a, c)
  {
    hide Fields;
    forall i | 0 <= i < 4 ensures Kept(Fields(a)[i], Fields(c)[i]) {
      assert Kept(Fields(a)[i], Fields(b)[i]) && Kept(Fields(b)[i], Fields(c)[i]);
    }
    if SomeAdvanced(a, b) {
      var i :| 0 <= i < 3 && Advanced(Fields(a)[i], Fields(b)[i]);
      assert Kept(Fields(b)[i], Fields(c)[i]);
      assert Advanced(Fields(a)[i], Fields(c)[i]);
    }
    if SomeAdvanced(b, c) {
      var i :| 0 <= i < 3 && Advanced(Fields(b)[i], Fields(c)[i]);
      assert Kept(Fields(a)[i], Fields(b)[i]);
      assert Advanced(Fields(a)[i], Fields(c)[i]);
    }
  }

  /** A snapshot counts as newer than itself exactly when it is not terminal and has no
      known cursor; two snapshots of one operation are each newer than the other exactly
      when that holds of both. So with known cursors the order is irreflexive and
      asymmetric. */
  lemma StrictExactly(a: Snapshot, b: Snapshot, id: string)
    requires Of(a, id) && Of(b, id)
    ensures Newer(a, a) <==> !Terminal(a.status) && a.cursor.None?
    ensures Newer(a, b) && Newer(b, a) <==>
              !Terminal(a.status) && a.cursor.None? && !Terminal(b.status) && b.cursor.None?
  {
    hide AllKept, SomeAdvanced, Terminal;
    if AllKept(a, a) && SomeAdvanced(a, a) {
      AdvanceIsStrict(a, a);
    }
    if AllKept(a, b) && SomeAdvanced(a, b) {
      AdvanceIsStrict(a, b);
    }
  }

  /** The order is transitive on the snapshots of one operation, known cursors or not. */
  lemma NewerIsTransitive(a: Snapshot, b: Snapshot, c: Snapshot, id: string)
    requires Of(a, id) && Of(b, id) && Of(c, id) && Newer(a, b) && Newer(b, c)
    ensures Newer(a, c)
  {
    hide AllKept, SomeAdvanced, Terminal;
    if AllKept(a, b) && AllKept(b, c) {
      KeptChain(a, b, c);
    }
  }

  lemma NotIrreflexive()
    ensures var s := Snapshot("op", "running", None, None, None, None, None); Newer(s, s)
  {
  }

  // -------------------------------------------------------------------- folding

  /** Keeping the newest: each snapshot replaces the current one when it is newer. */
  function Fold(current: Option<Snapshot>, stream: seq<Option<Snapshot>>): Option<Snapshot>
    decreases |stream|
  {
    if stream == [] then current
    else Fold(if IsNewer(current, stream[0]) then stream[0] else current, stream[1..])
  }

  predicate StreamOf(stream: seq<Option<Snapshot>>, id: string) {
    forall i :: 0 <= i < |stream| ==> stream[i].Some? ==> Of(stream[i].value, id)
  }

  /** A known cursor is neither lost nor lowered, and while it stays the same no field is
      lost or lowered and the status does not change. */
  predicate NeverBack(s: Snapshot, t: Snapshot) {
    s.cursor.Some? ==>
      && t.cursor.Some? && s.cursor.value <= t.cursor.value
      && (s.cursor == t.cursor ==> s.status == t.status && AllKept(s, t))
  }

  lemma SelfKept(s: Snapshot)
    ensures NeverBack(s, s)
  {
  }

  lemma BackChain(a: Snapshot, b: Snapshot, c: Snapshot)
    requires NeverBack(a, b) && NeverBack(b, c)
    ensures NeverBack(a, c)
  {
    hide AllKept;
    if a.cursor.Some? && a.cursor == c.cursor {
      KeptChain(a, b, c);
    }
  }

  /** Folding any stream of snapshots of one operation: a terminal state is final, and
      otherwise nothing known at a cursor is lost or lowered. */
  lemma {:induction false} FoldNeverGoesBack(s: Snapshot, stream: seq<Option<Snapshot>>, id: string)
    requires Of(s, id) && StreamOf(stream, id)
    ensures var r := Fold(Some(s), stream);
            && r.Some? && Of(r.value, id)
            && (Terminal(s.status) ==> r == Some(s))
            && NeverBack(s, r.value)
    decreases |stream|
  {
    hide AllKept, SomeAdvanced, Terminal;
    if stream == [] {
      SelfKept(s);
    } else {
      var next := if IsNewer(Some(s), stream[0]) then stream[0].value else s;
      assert StreamOf(stream[1..], id);
      FoldNeverGoesBack(next, stream[1..], id);
      SelfKept(s);
      BackChain(s, next, Fold(Some(next), stream[1..]).value);
    }
  }

  lemma FoldStep(s: Snapshot, stream: seq<Option<Snapshot>>, id: string)
    requires Of(s, id) && StreamOf(stream, id) && stream != []
    ensures var next := if IsNewer(Some(s), stream[0]) then stream[0].value else s;
            Of(next, id) && StreamOf(stream[1..], id) && Fold(Some(s), stream) == Fold(Some(next), stream[1..])
  {
  }

  /** What a fold ends with is at least as new as everything it has seen: a snapshot of the
      stream counts as newer than the result exactly when the result is not terminal and
      has no known cursor, as then every snapshot does. */
  lemma {:induction false} FoldIsNewest(s: Snapshot, stream: seq<Option<Snapshot>>, id: string, i: nat)
    requires Of(s, id) && StreamOf(stream, id) && i < |stream|
    ensures var r := Fold(Some(s), stream);
            && r.Some?
            && (IsNewer(r, stream[i]) <==> stream[i].Some? && !Terminal(r.value.status) && r.value.cursor.None?)
    decreases |stream|
  {
    hide AllKept, SomeAdvanced, Terminal, Fold;
    FoldStep(s, stream, id);
    var next := if IsNewer(Some(s), stream[0]) then stream[0].value else s;
    FoldNeverGoesBack(next, stream[1..], id);
    if i > 0 {
      FoldIsNewest(next, stream[1..], id, i - 1);
    } else if stream[0].Some? {
      var r, c := Fold(Some(next), stream[1..]).value, stream[0].value;
      if next == c {
        if AllKept(r, c) && SomeAdvanced(r, c) {
          AdvanceIsStrict(r, c);
        }
      } else if AllKept(s, r) && AllKept(r, c) {
        KeptChain(s, r, c);
      }
    }
  }

  /** No field is lost or lowered, and one of the first three appears or grows. */
  predicate Grown(p: Option<Measure>, c: Option<Measure>) {
    c.Some? && (p.None? || p.value < c.value)
  }

  predicate NotBack(p: Option<Measure>, c: Option<Measure>) {
    p.None? || (c.Some? && p.value <= c.value)
  }

  /** When a candidate is newer, in every case: always as the first one or as one of another
      operation, never when there is none or after a final state, and otherwise by its
      cursor and, at the same cursor and status, by its progress. */
  lemma NewerExact(current: Option<Snapshot>, candidate: Option<Snapshot>)
    ensures IsNewer(current, candidate) <==>
              && candidate.Some?
              && (current.Some? ==>
                    var p, c := current.value, candidate.value;
                    || (p.operationId != "" && c.operationId != "" && p.operationId != c.operationId)
                    || (&& p.status !in {"completed", "dispatched", "failed", "canceled", "timed_out"}
                        && (|| p.cursor.None?
                            || (c.cursor.Some? && p.cursor.value < c.cursor.value)
                            || (&& c.cursor == p.cursor && p.status == c.status
                                && NotBack(p.progress, c.progress) && NotBack(p.bytesWritten, c.bytesWritten)
                                && NotBack(p.coalescedCount, c.coalescedCount) && NotBack(p.updatedAt, c.updatedAt)
                                && (Grown(p.progress, c.progress) || Grown(p.bytesWritten, c.bytesWritten)
                                    || Grown(p.coalescedCount, c.coalescedCount))))))
  {
    if current.Some? && candidate.Some? {
      ProgressExact(current.value, candidate.value);
    }
  }

  lemma ProgressExact(p: Snapshot, c: Snapshot)
    ensures AllKept(p, c) <==> NotBack(p.progress, c.progress) && NotBack(p.bytesWritten, c.bytesWritten)
                               && NotBack(p.coalescedCount, c.coalescedCount) && NotBack(p.updatedAt, c.updatedAt)
    ensures SomeAdvanced(p, c) <==> Grown(p.progress, c.progress) || Grown(p.bytesWritten, c.bytesWritten)
                                    || Grown(p.coalescedCount, c.coalescedCount)
  {
    assert Fields(p)[0] == p.progress && Fields(p)[1] == p.bytesWritten && Fields(p)[2] == p.coalescedCount && Fields(p)[3] == p.updatedAt;
    assert Fields(c)[0] == c.progress && Fields(c)[1] == c.bytesWritten && Fields(c)[2] == c.coalescedCount && Fields(c)[3] == c.updatedAt;
  }
}
