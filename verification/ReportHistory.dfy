/** The bounded history of source reports of one scope. */
module ReportHistory {
  import opened Totals

  const MAX_SOURCE_CONFIGURATIONS := 8

  /** A digest of connector, endpoints and generation; only equality matters. */
  type Config = nat

  /** A report as received. `reduced` is the verdict of the test for reports that are
      reachable, not ready, and carry no probes. */
  datatype Value = Value(content: string, reduced: bool)

  datatype Report =
    | Reported(value: Value)
    | Connected(value: Value)
    | Failed(key: string, detail: string)

  /** Of the three kinds only a received report can be a reduced one. */
  predicate Reduced(r: Report) {
    r.Reported? && r.value.reduced
  }

  datatype Entry = Entry(configuration: Config, report: Report)

  predicate Distinct(es: seq<Entry>) {
    forall i, j :: 0 <= i < j < |es| ==> es[i].configuration != es[j].configuration
  }

  /** The first entry of a configuration, or the length. */
  function Find(es: seq<Entry>, c: Config): (i: nat)
    ensures i <= |es| && (i < |es| ==> es[i].configuration == c)
    ensures forall j :: 0 <= j < i ==> es[j].configuration != c
  {
    if es == [] || es[0].configuration == c then 0 else 1 + Find(es[1..], c)
  }

  /** The first entry that is not the protected one, or the length. */
  function FirstOther(es: seq<Entry>, protected: Option<Config>): (i: nat)
    ensures i <= |es| && (i < |es| ==> Some(es[i].configuration) != protected)
    ensures forall j :: 0 <= j < i ==> Some(es[j].configuration) == protected
  {
    if es == [] || Some(es[0].configuration) != protected then 0 else 1 + FirstOther(es[1..], protected)
  }

  function Without(es: seq<Entry>, i: nat): seq<Entry>
    requires i < |es|
  {
    es[..i] + es[i + 1..]
  }

  /** Evict from the front until the bound holds, never the protected entry. */
  function Trim(es: seq<Entry>, protected: Option<Config>): seq<Entry>
    decreases |es|
  {
    if |es| <= MAX_SOURCE_CONFIGURATIONS then es
    else
      var i := FirstOther(es, protected);
      if i == |es| then es else Trim(Without(es, i), protected)
  }

  function Insert(es: seq<Entry>, c: Config, r: Report, protected: Option<Config>): seq<Entry> {
    var i := Find(es, c);
    if i < |es| && Reduced(r) && !Reduced(es[i].report) then es
    else Trim((if i < |es| then Without(es, i) else es) + [Entry(c, r)], protected)
  }

  function Lookup(es: seq<Entry>, c: Config): Option<Report> {
    var i := Find(es, c);
    if i < |es| then Some(es[i].report) else None
  }

  /** The replacement rule, as an unbounded map applies it. */
  function Merged(old_: Option<Report>, r: Report): Report {
    if old_.Some? && Reduced(r) && !Reduced(old_.value) then old_.value else r
  }

  // ------------------------------------------------------------------- method

  /** The position search of an insertion. */
  method PositionOf(entries: seq<Entry>, c: Config) returns (index: nat)
    ensures index == Find(entries, c)
  {
    index := 0;
    while index < |entries| && entries[index].configuration != c
      invariant 0 <= index <= |entries|
      invariant forall j :: 0 <= j < index ==> entries[j].configuration != c
    {
      index := index + 1;
    }
  }

  method Removable(entries: seq<Entry>, protected: Option<Config>) returns (index: nat)
    ensures index == FirstOther(entries, protected)
  {
    index := 0;
    while index < |entries| && Some(entries[index].configuration) == protected
      invariant 0 <= index <= |entries|
      invariant forall j :: 0 <= j < index ==> Some(entries[j].configuration) == protected
    {
      index := index + 1;
    }
  }

  /** `ConfiguredSourceReports::insert`, with its eviction loop. */
  method InsertReport(entries: seq<Entry>, c: Config, r: Report, protected: Option<Config>) returns (out: seq<Entry>)
    ensures out == Insert(entries, c, r, protected)
  {
    hide Find, FirstOther;
    out := entries;
    var index := PositionOf(entries, c);
    if index < |out| {
      if Reduced(r) && !Reduced(out[index].report) {
        return;
      }
      out := out[..index] + out[index + 1..];
    }
    out := out + [Entry(c, r)];
    ghost var pushed := out;
    while |out| > MAX_SOURCE_CONFIGURATIONS
      invariant Trim(out, protected) == Trim(pushed, protected)
      decreases |out|
    {
      var removable := Removable(out, protected);
      if removable == |out| {
        break;
      }
      out := out[..removable] + out[removable + 1..];
    }
  }

  // ------------------------------------------------------------------- lemmas

  lemma LookupAt(es: seq<Entry>, i: nat)
    requires Distinct(es) && i < |es|
    ensures Find(es, es[i].configuration) == i
  {
  }

  lemma WithoutDistinct(es: seq<Entry>, i: nat)
    requires Distinct(es) && i < |es|
    ensures Distinct(Without(es, i)) && |Without(es, i)| == |es| - 1
    ensures forall j :: 0 <= j < |es| - 1 ==> Without(es, i)[j] == if j < i then es[j] else es[j + 1]
  {
  }

  /** Dropping one entry changes the lookup of its configuration only. */
  lemma WithoutLookup(es: seq<Entry>, i: nat, d: Config)
    requires Distinct(es) && i < |es|
    ensures Lookup(Without(es, i), d) == if d == es[i].configuration then None else Lookup(es, d)
  {
    WithoutDistinct(es, i);
    var j := Find(es, d);
    var rest := Without(es, i);
    if j < |es| && j != i {
      var k := if j < i then j else j - 1;
      assert rest[k] == es[j];
      LookupAt(rest, k);
    }
  }

  lemma PushLookup(es: seq<Entry>, e: Entry, d: Config)
    requires Distinct(es) && Find(es, e.configuration) == |es|
    ensures Distinct(es + [e])
    ensures Lookup(es + [e], d) == if d == e.configuration then Some(e.report) else Lookup(es, d)
  {
    var out := es + [e];
    if d == e.configuration {
      LookupAt(out, |es|);
    } else if Find(es, d) < |es| {
      assert out[Find(es, d)] == es[Find(es, d)];
      LookupAt(out, Find(es, d));
    }
  }

  /** With at most one entry too many, trimming drops exactly the first entry that is not
      protected, and only when it has to. */
  lemma TrimOnce(es: seq<Entry>, protected: Option<Config>)
    requires Distinct(es) && |es| <= MAX_SOURCE_CONFIGURATIONS + 1
    ensures Distinct(Trim(es, protected)) && |Trim(es, protected)| <= MAX_SOURCE_CONFIGURATIONS
    ensures |es| <= MAX_SOURCE_CONFIGURATIONS ==> Trim(es, protected) == es
    ensures |es| == MAX_SOURCE_CONFIGURATIONS + 1 ==>
              FirstOther(es, protected) <= 1 && Trim(es, protected) == Without(es, FirstOther(es, protected))
  {
    if |es| == MAX_SOURCE_CONFIGURATIONS + 1 {
      var i := FirstOther(es, protected);
      assert es[0].configuration != es[1].configuration;
      assert i <= 1;
      WithoutDistinct(es, i);
    }
  }

  /** Everything one insertion does: the list stays distinct and bounded; the inserted
      configuration holds what the unbounded rule says; every other configuration keeps its
      report, except that one which is not protected may be evicted, and only when the
      list was full and the inserted configuration new. */
  lemma InsertExact(es: seq<Entry>, c: Config, r: Report, protected: Option<Config>)
    requires Distinct(es) && |es| <= MAX_SOURCE_CONFIGURATIONS
    ensures Distinct(Insert(es, c, r, protected)) && |Insert(es, c, r, protected)| <= MAX_SOURCE_CONFIGURATIONS
    ensures Lookup(Insert(es, c, r, protected), c) == Some(Merged(Lookup(es, c), r))
    ensures forall d: Config :: d != c ==>
              Lookup(Insert(es, c, r, protected), d) == if Evicted(es, c, protected, d) then None else Lookup(es, d)
  {
    var i := Find(es, c);
    if i == |es| || !Reduced(r) || Reduced(es[i].report) {
      var kept := if i < |es| then Without(es, i) else es;
      forall d: Config ensures Lookup(kept, d) == if d == c then None else Lookup(es, d) {
        if i < |es| {
          WithoutLookup(es, i, d);
        }
      }
      if i < |es| {
        WithoutDistinct(es, i);
      }
      var out := kept + [Entry(c, r)];
      forall d: Config ensures Distinct(out) && Lookup(out, d) == if d == c then Some(r) else Lookup(es, d) {
        PushLookup(kept, Entry(c, r), d);
      }
      assert Distinct(out) by {
        PushLookup(kept, Entry(c, r), c);
      }
      TrimOnce(out, protected);
      if |out| == MAX_SOURCE_CONFIGURATIONS + 1 {
        var v := FirstOther(out, protected);
        assert out[v] == es[v];
        FirstOtherPrefix(es, Entry(c, r), protected);
        forall d: Config ensures Lookup(Trim(out, protected), d) == if d == es[v].configuration then None else Lookup(out, d) {
          WithoutLookup(out, v, d);
        }
      }
    }
  }

  /** The entry that goes when `c` comes into a full list. */
  predicate Evicted(es: seq<Entry>, c: Config, protected: Option<Config>, d: Config) {
    && |es| == MAX_SOURCE_CONFIGURATIONS && Find(es, c) == |es|
    && FirstOther(es, protected) < |es| && es[FirstOther(es, protected)].configuration == d
  }

  lemma FirstOtherPrefix(es: seq<Entry>, e: Entry, protected: Option<Config>)
    requires FirstOther(es + [e], protected) < |es|
    ensures FirstOther(es, protected) == FirstOther(es + [e], protected)
  {
    assert forall k :: 0 <= k < |es| ==> (es + [e])[k] == es[k];
  }

  /** The protected configuration is never evicted. */
  lemma ProtectedKept(es: seq<Entry>, c: Config, r: Report, p: Config)
    requires Distinct(es) && |es| <= MAX_SOURCE_CONFIGURATIONS && p != c
    ensures Lookup(Insert(es, c, r, Some(p)), p) == Lookup(es, p)
  {
    InsertExact(es, c, r, Some(p));
  }
}
