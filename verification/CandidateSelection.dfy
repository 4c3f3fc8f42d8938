/** Which decode candidates are tried, in which order, and the two independent ways in
    which duplicates are dropped. */
module CandidateSelection {
  import opened Totals
  import opened TextFormat

  datatype Candidate = Candidate(key: string, name: string, programId: string, json: string, accountType: Option<string>,
                                 cached: bool, shared: bool, ownerMatched: bool)

  function TypeText(c: Candidate): string {
    Trim(if c.accountType.Some? then c.accountType.value else "")
  }

  /** `same_candidate`. */
  predicate Same(a: Candidate, b: Candidate) {
    if Trim(a.key) != "" || Trim(b.key) != "" then Trim(a.key) == Trim(b.key)
    else if Trim(a.programId) != "" || Trim(b.programId) != "" then
      Trim(a.programId) == Trim(b.programId) && Trim(a.name) == Trim(b.name) && TypeText(a) == TypeText(b)
    else Trim(a.json) == Trim(b.json)
  }

  /** `candidate_identity`. */
  function Identity(c: Candidate): string {
    if Trim(c.key) != "" then "key:" + Trim(c.key)
    else if Trim(c.programId) != "" then "program:" + Joined(Trim(c.programId), Trim(c.name), TypeText(c))
    else "json:" + Trim(c.json)
  }

  function Joined(p: string, n: string, t: string): string {
    p + ":" + n + ":" + t
  }

  function AccountRank(c: Candidate): nat {
    if c.cached && !c.shared then 0
    else if !c.shared && c.ownerMatched then 1
    else if c.cached && c.shared then 2
    else if c.shared then 3
    else 4
  }

  function TransactionRank(c: Candidate): nat {
    if c.cached then 0 else 1
  }

  lemma SameIsEquivalence(a: Candidate, b: Candidate, c: Candidate)
    ensures Same(a, a)
    ensures Same(a, b) ==> Same(b, a)
    ensures Same(a, b) && Same(b, c) ==> Same(a, c)
  {
    hide Trim;
  }

  // ------------------------------------------------------------ order and plan

  /** Row `i` goes before row `j`: by rank, then by original position. */
  predicate Before(cs: seq<Candidate>, rank: Candidate -> nat, i: nat, j: nat)
    requires i < |cs| && j < |cs|
  {
    rank(cs[i]) < rank(cs[j]) || (rank(cs[i]) == rank(cs[j]) && i < j)
  }

  predicate Indices(cs: seq<Candidate>, order: seq<nat>) {
    forall k :: 0 <= k < |order| ==> order[k] < |cs|
  }

  predicate Ordered(cs: seq<Candidate>, rank: Candidate -> nat, order: seq<nat>)
    requires Indices(cs, order)
  {
    forall k, l :: 0 <= k < l < |order| ==> Before(cs, rank, order[k], order[l])
  }

  function InsertRow(cs: seq<Candidate>, rank: Candidate -> nat, order: seq<nat>, i: nat): (r: seq<nat>)
    requires Indices(cs, order) && i < |cs|
    ensures Indices(cs, r)
  {
    if order == [] || Before(cs, rank, i, order[0]) then [i] + order
    else [order[0]] + InsertRow(cs, rank, order[1..], i)
  }

  /** The included rows among the first `n`, sorted by rank and position. */
  function SortedRows(cs: seq<Candidate>, wanted: Candidate -> bool, rank: Candidate -> nat, n: nat): (r: seq<nat>)
    requires n <= |cs|
    ensures Indices(cs, r)
  {
    if n == 0 then []
    else
      var order := SortedRows(cs, wanted, rank, n - 1);
      if wanted(cs[n - 1]) then InsertRow(cs, rank, order, n - 1) else order
  }

  lemma {:induction false} InsertOrdered(cs: seq<Candidate>, rank: Candidate -> nat, order: seq<nat>, i: nat)
    requires Indices(cs, order) && i < |cs| && i !in order && Ordered(cs, rank, order)
    ensures Ordered(cs, rank, InsertRow(cs, rank, order, i))
    ensures forall j :: j in InsertRow(cs, rank, order, i) <==> j == i || j in order
  {
    if order != [] && !Before(cs, rank, i, order[0]) {
      var rest := order[1..];
      assert forall k :: 0 <= k < |rest| ==> rest[k] == order[k + 1];
      InsertOrdered(cs, rank, rest, i);
      var tail := InsertRow(cs, rank, rest, i);
      assert order == [order[0]] + rest;
      assert Before(cs, rank, order[0], i);
      forall l | 0 <= l < |tail| ensures Before(cs, rank, order[0], tail[l]) {
        if tail[l] != i {
          assert tail[l] in rest;
        }
      }
    }
  }

  lemma {:induction false} RowsSorted(cs: seq<Candidate>, wanted: Candidate -> bool, rank: Candidate -> nat, n: nat)
    requires n <= |cs|
    ensures Ordered(cs, rank, SortedRows(cs, wanted, rank, n))
    ensures forall j: nat :: j in SortedRows(cs, wanted, rank, n) <==> j < n && wanted(cs[j])
  {
    hide InsertRow, Before;
    if n > 0 {
      RowsSorted(cs, wanted, rank, n - 1);
      var order := SortedRows(cs, wanted, rank, n - 1);
      if wanted(cs[n - 1]) {
        InsertOrdered(cs, rank, order, n - 1);
      }
    }
  }

  /** Some kept row is the same candidate. */
  predicate Represented(cs: seq<Candidate>, kept: seq<nat>, i: nat)
    requires Indices(cs, kept) && i < |cs|
  {
    exists k :: 0 <= k < |kept| && Same(cs[kept[k]], cs[i])
  }

  /** `unique_candidates` of the plan, on row numbers: a row is kept unless a kept one is
      the same candidate. */
  function Unique(cs: seq<Candidate>, order: seq<nat>): (r: seq<nat>)
    requires Indices(cs, order)
    ensures Indices(cs, r)
  {
    if order == [] then []
    else
      var kept := Unique(cs, order[..|order| - 1]);
      var i := order[|order| - 1];
      if Represented(cs, kept, i) then kept else kept + [i]
  }

  predicate Different(cs: seq<Candidate>, r: seq<nat>)
    requires Indices(cs, r)
  {
    forall k, l :: 0 <= k < l < |r| ==> !Same(cs[r[k]], cs[r[l]])
  }

  predicate AllRepresented(cs: seq<Candidate>, order: seq<nat>, r: seq<nat>)
    requires Indices(cs, order) && Indices(cs, r)
  {
    forall p :: 0 <= p < |order| ==> Represented(cs, r, order[p])
  }

  predicate AllFirst(cs: seq<Candidate>, order: seq<nat>, r: seq<nat>)
    requires Indices(cs, order) && Indices(cs, r)
  {
    forall k :: 0 <= k < |r| ==> FirstOfKind(cs, order, r[k])
  }

  lemma KeptDifferent(cs: seq<Candidate>, kept: seq<nat>, i: nat)
    requires Indices(cs, kept) && i < |cs| && Different(cs, kept) && !Represented(cs, kept, i)
    ensures Different(cs, kept + [i])
  {
    hide Same;
  }

  lemma KeptRepresented(cs: seq<Candidate>, kept: seq<nat>, last: nat, i: nat)
    requires Indices(cs, kept) && i < |cs| && last < |cs| && (Represented(cs, kept, i) || i == last)
    ensures Represented(cs, kept + [last], i)
  {
    SameIsEquivalence(cs[i], cs[i], cs[i]);
    hide Same;
    var r := kept + [last];
    if Represented(cs, kept, i) {
      var k :| 0 <= k < |kept| && Same(cs[kept[k]], cs[i]);
      assert r[k] == kept[k];
    } else {
      assert r[|kept|] == i;
    }
  }

  /** What is kept: rows of which no two are the same candidate, in which everything is
      represented, each kept row being the first of its kind. */
  lemma {:induction false} UniqueKeepsFirst(cs: seq<Candidate>, order: seq<nat>)
    requires Indices(cs, order)
    ensures var r := Unique(cs, order); Different(cs, r) && AllRepresented(cs, order, r) && AllFirst(cs, order, r)
  {
    hide Same, Represented, FirstOfKind;
    if order != [] {
      var shorter := order[..|order| - 1];
      var last := order[|order| - 1];
      assert order == shorter + [last];
      UniqueKeepsFirst(cs, shorter);
      var kept := Unique(cs, shorter);
      var r := Unique(cs, order);
      forall k | 0 <= k < |kept| ensures FirstOfKind(cs, order, kept[k]) {
        FirstStays(cs, shorter, last, kept[k]);
      }
      if !Represented(cs, kept, last) {
        KeptDifferent(cs, kept, last);
        NewIsFirst(cs, shorter, kept, last);
        forall p | 0 <= p < |order| ensures Represented(cs, r, order[p]) {
          KeptRepresented(cs, kept, last, order[p]);
        }
      }
    }
  }

  /** Position `p` holds row `i`, and no earlier position holds the same candidate. */
  predicate FirstAt(cs: seq<Candidate>, order: seq<nat>, i: nat, p: nat)
    requires Indices(cs, order) && i < |cs|
  {
    p < |order| && order[p] == i && forall q :: 0 <= q < p ==> !Same(cs[order[q]], cs[i])
  }

  predicate FirstOfKind(cs: seq<Candidate>, order: seq<nat>, i: nat)
    requires Indices(cs, order) && i < |cs|
  {
    exists p :: 0 <= p < |order| && FirstAt(cs, order, i, p)
  }

  lemma FirstStays(cs: seq<Candidate>, order: seq<nat>, last: nat, i: nat)
    requires Indices(cs, order + [last]) && Indices(cs, order) && i < |cs| && FirstOfKind(cs, order, i)
    ensures FirstOfKind(cs, order + [last], i)
  {
    var p :| 0 <= p < |order| && FirstAt(cs, order, i, p);
    assert FirstAt(cs, order + [last], i, p);
  }

  lemma NewIsFirst(cs: seq<Candidate>, order: seq<nat>, kept: seq<nat>, last: nat)
    requires Indices(cs, order + [last]) && Indices(cs, order) && Indices(cs, kept) && last < |cs|
    requires forall p :: 0 <= p < |order| ==> Represented(cs, kept, order[p])
    requires !Represented(cs, kept, last)
    ensures FirstOfKind(cs, order + [last], last)
  {
    hide Same;
    var longer := order + [last];
    forall q | 0 <= q < |order| ensures !Same(cs[longer[q]], cs[last]) {
      assert Represented(cs, kept, order[q]);
      var k :| 0 <= k < |kept| && Same(cs[kept[k]], cs[order[q]]);
      SameIsEquivalence(cs[kept[k]], cs[order[q]], cs[last]);
    }
    assert FirstAt(cs, longer, last, |order|);
  }

  /** `ProgramDecodePlan::new`, on row numbers. */
  function Plan(cs: seq<Candidate>, wanted: Candidate -> bool, rank: Candidate -> nat): (r: seq<nat>)
    ensures Indices(cs, r)
  {
    Unique(cs, SortedRows(cs, wanted, rank, |cs|))
  }

  /** Dropping rows keeps the order of the others. */
  lemma {:induction false} UniqueOrdered(cs: seq<Candidate>, rank: Candidate -> nat, order: seq<nat>)
    requires Indices(cs, order) && Ordered(cs, rank, order)
    ensures Ordered(cs, rank, Unique(cs, order))
    ensures forall i :: i in Unique(cs, order) ==> i in order
  {
    hide Before, Represented;
    if order != [] {
      var n := |order| - 1;
      assert forall k :: 0 <= k < n ==> order[..n][k] == order[k];
      UniqueOrdered(cs, rank, order[..n]);
      var kept := Unique(cs, order[..n]);
      forall k | 0 <= k < |kept| ensures Before(cs, rank, kept[k], order[n]) {
        assert kept[k] in order[..n];
        var q :| 0 <= q < n && order[q] == kept[k];
      }
    }
  }

  /** What a plan of the candidates is for: rows of included candidates in the order of rank
      and position, every included class represented once, by its first member. */
  ghost predicate IsPlan(cs: seq<Candidate>, wanted: Candidate -> bool, rank: Candidate -> nat, r: seq<nat>)
    requires Indices(cs, r)
  {
    && Ordered(cs, rank, r)
    && (forall k :: 0 <= k < |r| ==> wanted(cs[r[k]]))
    && (forall j :: 0 <= j < |cs| && wanted(cs[j]) ==> Represented(cs, r, j))
    && (forall k, j :: 0 <= k < |r| && 0 <= j < |cs| && wanted(cs[j]) && Same(cs[j], cs[r[k]]) && j != r[k] ==>
          Before(cs, rank, r[k], j))
  }

  /** The plan keeps exactly one member of every included class of same candidates, the
      one with the least rank and, among those, the first; its rows are tried in the order
      of rank and position. */
  lemma PlanExact(cs: seq<Candidate>, wanted: Candidate -> bool, rank: Candidate -> nat)
    ensures var r := Plan(cs, wanted, rank); IsPlan(cs, wanted, rank, r) && Different(cs, r)
  {
    hide Same, Before, SortedRows, Unique, FirstOfKind, Represented;
    var order := SortedRows(cs, wanted, rank, |cs|);
    RowsSorted(cs, wanted, rank, |cs|);
    UniqueKeepsFirst(cs, order);
    UniqueOrdered(cs, rank, order);
    var r := Unique(cs, order);
    forall j | 0 <= j < |cs| && wanted(cs[j]) ensures Represented(cs, r, j) {
      assert j in order;
    }
    forall k | 0 <= k < |r| ensures wanted(cs[r[k]]) {
      assert r[k] in order;
    }
    forall k, j | 0 <= k < |r| && 0 <= j < |cs| && wanted(cs[j]) && Same(cs[j], cs[r[k]]) && j != r[k]
      ensures Before(cs, rank, r[k], j)
    {
      assert j in order;
      LeastOfKind(cs, rank, order, r[k], j);
    }
  }

  /** There is no other plan. */
  lemma OnlyPlan(cs: seq<Candidate>, wanted: Candidate -> bool, rank: Candidate -> nat, r: seq<nat>)
    requires Indices(cs, r) && IsPlan(cs, wanted, rank, r)
    ensures r == Plan(cs, wanted, rank)
  {
    hide Same, Before, Plan, Ordered;
    PlanExact(cs, wanted, rank);
    var p := Plan(cs, wanted, rank);
    PlanRowsIn(cs, wanted, rank, p, r);
    PlanRowsIn(cs, wanted, rank, r, p);
    OrderDetermines(cs, rank, p, r);
  }

  lemma BeforeIsStrict(cs: seq<Candidate>, rank: Candidate -> nat, i: nat, j: nat)
    requires i < |cs| && j < |cs|
    ensures !(Before(cs, rank, i, j) && Before(cs, rank, j, i))
  {
  }

  lemma PlanRowsIn(cs: seq<Candidate>, wanted: Candidate -> bool, rank: Candidate -> nat, p: seq<nat>, r: seq<nat>)
    requires Indices(cs, p) && Indices(cs, r) && IsPlan(cs, wanted, rank, p) && IsPlan(cs, wanted, rank, r)
    ensures Within(p, r)
  {
    hide Same, Ordered, Before;
    forall k | 0 <= k < |p| ensures p[k] in r {
      assert Represented(cs, r, p[k]);
      var m :| 0 <= m < |r| && Same(cs[r[m]], cs[p[k]]);
      SameIsEquivalence(cs[r[m]], cs[p[k]], cs[p[k]]);
      BeforeIsStrict(cs, rank, r[m], p[k]);
    }
  }

  predicate Within(p: seq<nat>, r: seq<nat>) {
    forall k :: 0 <= k < |p| ==> p[k] in r
  }

  /** Two ordered lists with the same members are equal. */
  lemma {:induction false} OrderDetermines(cs: seq<Candidate>, rank: Candidate -> nat, p: seq<nat>, r: seq<nat>)
    requires Indices(cs, p) && Indices(cs, r) && Ordered(cs, rank, p) && Ordered(cs, rank, r) && Within(p, r) && Within(r, p)
    ensures p == r
    decreases |p|
  {
    hide Before, Within, Ordered;
    NeitherEmpty(p, r);
    if p != [] {
      var m, n := |p| - 1, |r| - 1;
      LastIsLast(cs, rank, p, r);
      FrontOrdered(cs, rank, p);
      FrontOrdered(cs, rank, r);
      FrontWithin(p, r);
      FrontWithin(r, p);
      OrderDetermines(cs, rank, p[..m], r[..n]);
      assert p == p[..m] + [p[m]] && r == r[..n] + [r[n]];
    }
  }

  lemma NeitherEmpty(p: seq<nat>, r: seq<nat>)
    requires Within(p, r) && Within(r, p)
    ensures p == [] <==> r == []
  {
    assert p != [] ==> p[0] in r;
    assert r != [] ==> r[0] in p;
  }

  lemma FrontOrdered(cs: seq<Candidate>, rank: Candidate -> nat, p: seq<nat>)
    requires Indices(cs, p) && Ordered(cs, rank, p) && p != []
    ensures Indices(cs, p[..|p| - 1]) && Ordered(cs, rank, p[..|p| - 1])
    ensures forall k :: 0 <= k < |p| - 1 ==> p[k] != p[|p| - 1]
  {
    forall k | 0 <= k < |p| - 1 ensures p[k] != p[|p| - 1] {
      assert Before(cs, rank, p[k], p[|p| - 1]);
    }
  }

  lemma FrontWithin(p: seq<nat>, r: seq<nat>)
    requires p != [] && r != [] && Within(p, r) && p[|p| - 1] == r[|r| - 1]
    requires forall k :: 0 <= k < |p| - 1 ==> p[k] != p[|p| - 1]
    ensures Within(p[..|p| - 1], r[..|r| - 1])
  {
    forall k | 0 <= k < |p| - 1 ensures p[k] in r[..|r| - 1] {
      assert p[k] in r;
      var i :| 0 <= i < |r| && r[i] == p[k];
      assert r[..|r| - 1][i] == p[k];
    }
  }

  lemma LastIsLast(cs: seq<Candidate>, rank: Candidate -> nat, p: seq<nat>, r: seq<nat>)
    requires Indices(cs, p) && Indices(cs, r) && Ordered(cs, rank, p) && Ordered(cs, rank, r) && p != [] && r != []
    requires Within(p, r) && Within(r, p)
    ensures p[|p| - 1] == r[|r| - 1]
  {
    hide Before;
    var m, n := |p| - 1, |r| - 1;
    assert p[m] in r && r[n] in p;
    var i :| 0 <= i < |r| && r[i] == p[m];
    var j :| 0 <= j < |p| && p[j] == r[n];
    BeforeIsStrict(cs, rank, p[m], r[n]);
  }

  lemma LeastOfKind(cs: seq<Candidate>, rank: Candidate -> nat, order: seq<nat>, i: nat, j: nat)
    requires Indices(cs, order) && Ordered(cs, rank, order) && i < |cs| && j < |cs|
    requires FirstOfKind(cs, order, i) && j in order && j != i && Same(cs[j], cs[i])
    ensures Before(cs, rank, i, j)
  {
    hide Same, Before;
    var p :| 0 <= p < |order| && FirstAt(cs, order, i, p);
    var q :| 0 <= q < |order| && order[q] == j;
    assert q > p;
  }

  /** Of same candidates the account plan keeps a cached unshared one when there is one,
      and the transaction plan a cached one. */
  lemma CachedWins(cs: seq<Candidate>, wanted: Candidate -> bool, j: nat)
    requires j < |cs| && wanted(cs[j]) && cs[j].cached
    ensures !cs[j].shared ==> var r := Plan(cs, wanted, AccountRank);
              exists k :: 0 <= k < |r| && Same(cs[r[k]], cs[j]) && cs[r[k]].cached && !cs[r[k]].shared
    ensures var r := Plan(cs, wanted, TransactionRank);
            exists k :: 0 <= k < |r| && Same(cs[r[k]], cs[j]) && cs[r[k]].cached
  {
    hide Same, Plan;
    KeptRank(cs, wanted, AccountRank, j);
    KeptRank(cs, wanted, TransactionRank, j);
  }

  lemma PlanRepresents(cs: seq<Candidate>, wanted: Candidate -> bool, rank: Candidate -> nat, j: nat)
    requires j < |cs| && wanted(cs[j])
    ensures Represented(cs, Plan(cs, wanted, rank), j)
  {
    hide Plan, Same, Before, Represented;
    PlanExact(cs, wanted, rank);
  }

  lemma PlanLeast(cs: seq<Candidate>, wanted: Candidate -> bool, rank: Candidate -> nat, k: nat, j: nat)
    requires k < |Plan(cs, wanted, rank)| && j < |cs| && wanted(cs[j]) && Same(cs[j], cs[Plan(cs, wanted, rank)[k]])
    ensures j == Plan(cs, wanted, rank)[k] || Before(cs, rank, Plan(cs, wanted, rank)[k], j)
  {
    hide Plan, Same, Before, Represented;
    PlanExact(cs, wanted, rank);
  }

  lemma KeptRank(cs: seq<Candidate>, wanted: Candidate -> bool, rank: Candidate -> nat, j: nat)
    requires j < |cs| && wanted(cs[j])
    ensures var r := Plan(cs, wanted, rank); exists k :: 0 <= k < |r| && Same(cs[r[k]], cs[j]) && rank(cs[r[k]]) <= rank(cs[j])
  {
    hide Plan, Same;
    PlanRepresents(cs, wanted, rank, j);
    var r := Plan(cs, wanted, rank);
    var k :| 0 <= k < |r| && Same(cs[r[k]], cs[j]);
    SameIsEquivalence(cs[r[k]], cs[j], cs[j]);
    PlanLeast(cs, wanted, rank, k, j);
  }

  // ------------------------------------------------------------------- loops

  /** The plan's loop: each candidate against every one kept so far. */
  method UniqueCandidates(cs: seq<Candidate>, order: seq<nat>) returns (rows: seq<nat>)
    requires Indices(cs, order)
    ensures rows == Unique(cs, order)
  {
    hide Same;
    rows := [];
    for p := 0 to |order|
      invariant rows == Unique(cs, order[..p])
    {
      assert order[..p + 1][..p] == order[..p] && order[..p + 1][p] == order[p];
      var found := false;
      for k := 0 to |rows|
        invariant found == exists j :: 0 <= j < k && Same(cs[rows[j]], cs[order[p]])
      {
        if Same(cs[rows[k]], cs[order[p]]) {
          found := true;
        }
      }
      if !found {
        rows := rows + [order[p]];
      }
    }
    assert order[..|order|] == order;
  }

  /** `unique_candidates` of the session: a candidate is kept unless its identity was
      seen. */
  function SessionUnique(cs: seq<Candidate>): seq<Candidate> {
    if cs == [] then []
    else
      var rest := cs[..|cs| - 1];
      var c := cs[|cs| - 1];
      if Identity(c) in Identities(rest) then SessionUnique(rest) else SessionUnique(rest) + [c]
  }

  function Identities(cs: seq<Candidate>): set<string> {
    if cs == [] then {} else Identities(cs[..|cs| - 1]) + {Identity(cs[|cs| - 1])}
  }

  lemma SessionStep(cs: seq<Candidate>, i: nat)
    requires i < |cs|
    ensures Identities(cs[..i + 1]) == Identities(cs[..i]) + {Identity(cs[i])}
    ensures SessionUnique(cs[..i + 1])
         == if Identity(cs[i]) in Identities(cs[..i]) then SessionUnique(cs[..i]) else SessionUnique(cs[..i]) + [cs[i]]
  {
    hide Identity;
    assert cs[..i + 1][..i] == cs[..i] && cs[..i + 1][i] == cs[i];
  }

  lemma {:induction false} IdentitySeen(cs: seq<Candidate>, s: string) returns (k: nat)
    requires s in Identities(cs)
    ensures k < |cs| && Identity(cs[k]) == s
  {
    hide Identity;
    if Identity(cs[|cs| - 1]) == s {
      k := |cs| - 1;
    } else {
      k := IdentitySeen(cs[..|cs| - 1], s);
    }
  }

  method SessionUniqueCandidates(cs: seq<Candidate>) returns (rows: seq<Candidate>)
    ensures rows == SessionUnique(cs)
  {
    hide Identity, Identities, SessionUnique;
    NothingSeen();
    rows := [];
    var seen: set<string> := {};
    for i := 0 to |cs|
      invariant rows == SessionUnique(cs[..i]) && seen == Identities(cs[..i])
    {
      SessionStep(cs, i);
      if Identity(cs[i]) !in seen {
        rows := rows + [cs[i]];
      }
      seen := seen + {Identity(cs[i])};
    }
    assert cs[..|cs|] == cs;
  }

  lemma NothingSeen()
    ensures SessionUnique([]) == [] && Identities([]) == {}
  {
  }

  // ----------------------------------------------------------- the two agree

  /** A separator that could stand between two trimmed fields: no white space beside it. */
  predicate CleanColon(s: string, i: nat) {
    && i < |s| && s[i] == ':'
    && (i == 0 || !Space(s[i - 1]))
    && (i + 1 == |s| || !Space(s[i + 1]))
  }

  predicate NoCleanColon(s: string, from: nat) {
    forall i: nat :: from <= i < |s| ==> !CleanColon(s, i)
  }

  /** The identity is composed of program id, name and account type. */
  predicate Composed(c: Candidate) {
    Trim(c.key) == "" && Trim(c.programId) != ""
  }

  /** The fields of a composed identity hold no separator without white space beside it,
      except perhaps as the first character of the program id. */
  predicate Separable(c: Candidate) {
    Composed(c) ==>
      NoCleanColon(Trim(c.programId), 1) && NoCleanColon(Trim(c.name), 0) && NoCleanColon(TypeText(c), 0)
  }

  /** Where the two separators stand. */
  lemma JoinedAt(p: string, n: string, t: string)
    ensures var j := Joined(p, n, t);
            && |j| == |p| + |n| + |t| + 2
            && j[|p|] == ':' && j[|p| + 1 + |n|] == ':'
            && j[..|p|] == p && j[|p| + 1..|p| + 1 + |n|] == n && j[|p| + 2 + |n|..] == t
    ensures forall i :: 0 <= i < |p| ==> Joined(p, n, t)[i] == p[i]
    ensures forall i :: 0 <= i < |n| ==> Joined(p, n, t)[|p| + 1 + i] == n[i]
    ensures forall i :: 0 <= i < |t| ==> Joined(p, n, t)[|p| + 2 + |n| + i] == t[i]
  {
  }

  lemma SeparatorsClean(p: string, n: string, t: string)
    requires p != "" && Trimmed(p) && Trimmed(n) && Trimmed(t)
    ensures CleanColon(Joined(p, n, t), |p|) && CleanColon(Joined(p, n, t), |p| + 1 + |n|)
  {
    hide Joined, Space;
    JoinedAt(p, n, t);
    ColonIsNoSpace();
    var j := Joined(p, n, t);
    assert j[|p| - 1] == p[|p| - 1];
    if n != "" {
      assert j[|p| + 1] == n[0] && j[|p| + |n|] == n[|n| - 1];
    }
    if t != "" {
      assert j[|p| + 2 + |n|] == t[0];
    }
  }

  lemma ColonIsNoSpace()
    ensures !Space(':')
  {
  }

  /** A clean separator of the whole is one of the two, or one inside a field. */
  lemma CleanInField(p: string, n: string, t: string, i: nat)
    requires p != "" && i >= 1 && CleanColon(Joined(p, n, t), i)
    ensures i == |p| || i == |p| + 1 + |n|
            || (i < |p| && CleanColon(p, i))
            || (|p| < i < |p| + 1 + |n| && CleanColon(n, i - |p| - 1))
            || (i > |p| + 1 + |n| && CleanColon(t, i - |p| - 2 - |n|))
  {
    hide Joined, Space;
    JoinedAt(p, n, t);
    var j := Joined(p, n, t);
    if i < |p| {
      assert j[i] == p[i] && j[i - 1] == p[i - 1];
      assert i + 1 < |p| ==> j[i + 1] == p[i + 1];
    } else if |p| < i < |p| + 1 + |n| {
      var k := i - |p| - 1;
      assert j[i] == n[k];
      assert k > 0 ==> j[i - 1] == n[k - 1];
      assert k + 1 < |n| ==> j[i + 1] == n[k + 1];
    } else if i > |p| + 1 + |n| {
      var k := i - |p| - 2 - |n|;
      assert j[i] == t[k];
      assert k > 0 ==> j[i - 1] == t[k - 1];
      assert k + 1 < |t| ==> j[i + 1] == t[k + 1];
    }
  }

  /** Conversely, a clean separator inside a field is one of the whole. */
  lemma FieldInClean(p: string, n: string, t: string)
    requires p != ""
    ensures forall i: nat :: 1 <= i < |p| && CleanColon(p, i) ==> CleanColon(Joined(p, n, t), i)
    ensures forall i: nat :: i < |n| && CleanColon(n, i) ==> CleanColon(Joined(p, n, t), |p| + 1 + i)
    ensures forall i: nat :: i < |t| && CleanColon(t, i) ==> CleanColon(Joined(p, n, t), |p| + 2 + |n| + i)
  {
    hide Joined, Space;
    JoinedAt(p, n, t);
    ColonIsNoSpace();
    var j := Joined(p, n, t);
    forall i: nat | 1 <= i < |p| && CleanColon(p, i) ensures CleanColon(j, i) {
      assert j[i] == p[i] && j[i - 1] == p[i - 1];
      assert i + 1 < |p| ==> j[i + 1] == p[i + 1];
    }
    forall i: nat | i < |n| && CleanColon(n, i) ensures CleanColon(j, |p| + 1 + i) {
      assert j[|p| + 1 + i] == n[i];
      assert i > 0 ==> j[|p| + i] == n[i - 1];
      assert i + 1 < |n| ==> j[|p| + 2 + i] == n[i + 1];
    }
    forall i: nat | i < |t| && CleanColon(t, i) ensures CleanColon(j, |p| + 2 + |n| + i) {
      assert j[|p| + 2 + |n| + i] == t[i];
      assert i > 0 ==> j[|p| + 1 + |n| + i] == t[i - 1];
      assert i + 1 < |t| ==> j[|p| + 3 + |n| + i] == t[i + 1];
    }
  }

  /** Fields without clean separators are recovered from the composed text, whatever
      trimmed fields the other side has. */
  lemma ComposedInjective(p: string, n: string, t: string, q: string, m: string, u: string)
    requires p != "" && q != "" && Trimmed(q) && Trimmed(m) && Trimmed(u) && Joined(p, n, t) == Joined(q, m, u)
    requires NoCleanColon(p, 1) && NoCleanColon(n, 0) && NoCleanColon(t, 0)
    ensures p == q && n == m && t == u
  {
    hide Joined, CleanColon, Trimmed;
    SeparatorsClean(q, m, u);
    CleanInField(p, n, t, |q|);
    CleanInField(p, n, t, |q| + 1 + |m|);
    JoinedAt(p, n, t);
    JoinedAt(q, m, u);
  }

  lemma Tagged(tag: string, s: string, tag': string, s': string)
    requires tag != "" && tag' != ""
    ensures tag + s == tag' + s' ==> tag[0] == tag'[0] && (tag == tag' ==> s == s')
  {
    if tag + s == tag' + s' {
      assert (tag + s)[0] == tag[0] && (tag' + s')[0] == tag'[0];
      assert (tag + s)[|tag|..] == s && (tag' + s')[|tag'|..] == s';
    }
  }

  /** Same candidates always have equal identities, and a separable one shares its
      identity with no other candidate. */
  lemma IdentityExact(a: Candidate, b: Candidate)
    ensures Same(a, b) ==> Identity(a) == Identity(b)
    ensures Separable(a) ==> (Same(a, b) <==> Identity(a) == Identity(b))
  {
    hide Trim, Joined, NoCleanColon, Trimmed;
    var ka, kb := Trim(a.key), Trim(b.key);
    var ja := Joined(Trim(a.programId), Trim(a.name), TypeText(a));
    var jb := Joined(Trim(b.programId), Trim(b.name), TypeText(b));
    Tagged("key:", ka, "key:", kb);
    Tagged("program:", ja, "program:", jb);
    Tagged("json:", Trim(a.json), "json:", Trim(b.json));
    Tagged("key:", ka, "program:", jb);
    Tagged("key:", ka, "json:", Trim(b.json));
    Tagged("program:", ja, "key:", kb);
    Tagged("program:", ja, "json:", Trim(b.json));
    Tagged("json:", Trim(a.json), "key:", kb);
    Tagged("json:", Trim(a.json), "program:", jb);
    if Separable(a) && Composed(a) && Composed(b) && ja == jb {
      TrimExact(b.programId);
      TrimExact(b.name);
      TrimExact(if b.accountType.Some? then b.accountType.value else "");
      ComposedInjective(Trim(a.programId), Trim(a.name), TypeText(a), Trim(b.programId), Trim(b.name), TypeText(b));
    }
  }

  function Triple(p: string, n: string, t: string): Candidate {
    Candidate("", n, p, "", Some(t), false, false, false)
  }

  lemma TripleIdentity(p: string, n: string, t: string)
    requires p != "" && Trimmed(p) && Trimmed(n) && Trimmed(t)
    ensures var c := Triple(p, n, t);
            && Composed(c) && Identity(c) == "program:" + Joined(p, n, t)
            && Trim(c.programId) == p && Trim(c.name) == n && TypeText(c) == t
  {
    TrimExact(p);
    TrimExact(n);
    TrimExact(t);
    TrimExact("");
    hide Trim;
  }

  /** Two clean separators cut a text into three trimmed fields. */
  lemma CleanCut(j: string, x: nat, y: nat)
    requires 1 <= x < y && CleanColon(j, x) && CleanColon(j, y) && Trimmed(j)
    ensures y < |j|
    ensures j[..x] != "" && Trimmed(j[..x]) && Trimmed(j[x + 1..y]) && Trimmed(j[y + 1..])
    ensures Joined(j[..x], j[x + 1..y], j[y + 1..]) == j
  {
    assert j == j[..x] + [j[x]] + j[x + 1..y] + [j[y]] + j[y + 1..];
    hide Space;
  }

  lemma JoinedTrimmed(p: string, n: string, t: string)
    requires p != "" && Trimmed(p) && Trimmed(t)
    ensures Trimmed(Joined(p, n, t))
  {
    hide Joined, Space;
    JoinedAt(p, n, t);
    ColonIsNoSpace();
    if t != "" {
      assert Joined(p, n, t)[|p| + 2 + |n| + |t| - 1] == t[|t| - 1];
    }
  }

  /** A third clean separator of the composed text. */
  lemma ThirdSeparator(p: string, n: string, t: string) returns (k: nat)
    requires p != "" && !(NoCleanColon(p, 1) && NoCleanColon(n, 0) && NoCleanColon(t, 0))
    ensures k >= 1 && k != |p| && k != |p| + 1 + |n| && CleanColon(Joined(p, n, t), k)
  {
    hide Joined, CleanColon;
    FieldInClean(p, n, t);
    if !NoCleanColon(p, 1) {
      k :| 1 <= k < |p| && CleanColon(p, k);
    } else if !NoCleanColon(n, 0) {
      var i: nat :| i < |n| && CleanColon(n, i);
      k := |p| + 1 + i;
    } else {
      var i: nat :| i < |t| && CleanColon(t, i);
      k := |p| + 2 + |n| + i;
    }
  }

  /** A clean separator inside a field can be taken for one between fields: then another
      candidate has the same identity. */
  lemma MovedSeparatorCollides(p: string, n: string, t: string) returns (b: Candidate)
    requires p != "" && Trimmed(p) && Trimmed(n) && Trimmed(t)
    requires !(NoCleanColon(p, 1) && NoCleanColon(n, 0) && NoCleanColon(t, 0))
    ensures Identity(b) == "program:" + Joined(p, n, t) && Composed(b) && (Trim(b.programId) != p || Trim(b.name) != n)
  {
    hide Joined, CleanColon, Trimmed, NoCleanColon, Trim, Identity;
    var k := ThirdSeparator(p, n, t);
    var j := Joined(p, n, t);
    SeparatorsClean(p, n, t);
    JoinedTrimmed(p, n, t);
    var x, y := if k < |p| then k else |p|, if k < |p| then |p| else k;
    CleanCut(j, x, y);
    b := Triple(j[..x], j[x + 1..y], j[y + 1..]);
    TripleIdentity(j[..x], j[x + 1..y], j[y + 1..]);
  }

  /** Exactly the separable candidates are told apart from all others by a composed
      identity. */
  lemma SeparableExact(a: Candidate)
    requires Composed(a)
    ensures Separable(a) <==> forall b: Candidate :: Identity(a) == Identity(b) ==> Same(a, b)
  {
    hide Trim, NoCleanColon, Trimmed;
    if Separable(a) {
      forall b: Candidate | Identity(a) == Identity(b) ensures Same(a, b) {
        IdentityExact(a, b);
      }
    } else {
      TrimExact(a.programId);
      TrimExact(a.name);
      TrimExact(if a.accountType.Some? then a.accountType.value else "");
      var b := MovedSeparatorCollides(Trim(a.programId), Trim(a.name), TypeText(a));
      assert Identity(a) == Identity(b) && !Same(a, b);
    }
  }

  lemma CollisionExample()
    ensures Identity(Triple("p", "n:x", "")) == Identity(Triple("p:n", "x", ""))
    ensures !Same(Triple("p", "n:x", ""), Triple("p:n", "x", ""))
  {
    TripleIdentity("p", "n:x", "");
    TripleIdentity("p:n", "x", "");
    hide Trim, Identity;
    assert Joined("p", "n:x", "") == "p:n:x:" == Joined("p:n", "x", "");
  }

  /** A list without same candidates passes the session's hash-set filter unchanged when
      no field of its members holds a clean separator. */
  lemma {:induction false} SessionKeepsAll(cs: seq<Candidate>)
    requires forall k, l :: 0 <= k < l < |cs| ==> !Same(cs[k], cs[l])
    requires forall k :: 0 <= k < |cs| ==> Separable(cs[k])
    ensures SessionUnique(cs) == cs
  {
    hide Same, Identity, Separable;
    if cs != [] {
      var n := |cs| - 1;
      SessionKeepsAll(cs[..n]);
      if Identity(cs[n]) in Identities(cs[..n]) {
        var k := IdentitySeen(cs[..n], Identity(cs[n]));
        IdentityExact(cs[k], cs[n]);
      }
      assert cs == cs[..n] + [cs[n]];
    }
  }

  function Chosen(cs: seq<Candidate>, rows: seq<nat>): (r: seq<Candidate>)
    requires Indices(cs, rows)
    ensures |r| == |rows| && forall k :: 0 <= k < |r| ==> r[k] == cs[rows[k]]
  {
    if rows == [] then [] else Chosen(cs, rows[..|rows| - 1]) + [cs[rows[|rows| - 1]]]
  }

  /** The session's dedup leaves every plan as it is, when no field of an included candidate
      holds a clean separator. */
  lemma SessionLeavesPlan(cs: seq<Candidate>, wanted: Candidate -> bool, rank: Candidate -> nat)
    requires forall j :: 0 <= j < |cs| && wanted(cs[j]) ==> Separable(cs[j])
    ensures var plan := Chosen(cs, Plan(cs, wanted, rank)); SessionUnique(plan) == plan
  {
    hide Same, Separable, Plan, SessionUnique;
    PlanExact(cs, wanted, rank);
    SessionKeepsAll(Chosen(cs, Plan(cs, wanted, rank)));
  }

  /** No earlier candidate has the identity of this one. */
  predicate FirstSeen(cs: seq<Candidate>, i: nat) {
    i < |cs| && forall j :: 0 <= j < i ==> Identity(cs[j]) != Identity(cs[i])
  }

  predicate Increasing(rows: seq<nat>) {
    forall k, l :: 0 <= k < l < |rows| ==> rows[k] < rows[l]
  }

  function SessionRows(cs: seq<Candidate>): (r: seq<nat>)
    ensures Indices(cs, r)
  {
    if cs == [] then []
    else
      var n := |cs| - 1;
      SessionRows(cs[..n]) + if Identity(cs[n]) in Identities(cs[..n]) then [] else [n]
  }

  lemma FrontSeen(cs: seq<Candidate>, n: nat, i: nat)
    requires n <= |cs| && i < n
    ensures FirstSeen(cs[..n], i) <==> FirstSeen(cs, i)
  {
    hide Identity;
  }

  lemma {:induction false} SessionRowsAre(cs: seq<Candidate>, i: nat)
    ensures Increasing(SessionRows(cs))
    ensures i in SessionRows(cs) <==> FirstSeen(cs, i)
  {
    hide Identity, FirstSeen, Identities;
    if cs != [] {
      var n := |cs| - 1;
      SessionRowsAre(cs[..n], i);
      if i < n {
        FrontSeen(cs, n, i);
      } else {
        NotInFront(cs, n, i);
        LastSeen(cs);
      }
    } else {
      NoneSeen(i);
    }
  }

  lemma NoneSeen(i: nat)
    ensures !FirstSeen([], i)
  {
  }

  lemma NotInFront(cs: seq<Candidate>, n: nat, i: nat)
    requires n <= |cs| && i >= n
    ensures !FirstSeen(cs[..n], i) && (FirstSeen(cs, i) ==> i < |cs|)
  {
  }

  lemma LastSeen(cs: seq<Candidate>)
    requires cs != []
    ensures FirstSeen(cs, |cs| - 1) <==> Identity(cs[|cs| - 1]) !in Identities(cs[..|cs| - 1])
  {
    hide Identity;
    var n := |cs| - 1;
    SeenExactly(cs[..n], Identity(cs[n]));
    assert forall j :: 0 <= j < n ==> cs[..n][j] == cs[j];
  }

  /** The session keeps, in their order, exactly the candidates whose identity no earlier one
      has. */
  lemma {:induction false} SessionKeepsFirst(cs: seq<Candidate>)
    ensures var rows := SessionRows(cs);
            && SessionUnique(cs) == Chosen(cs, rows) && Increasing(rows)
            && forall i :: i in rows <==> FirstSeen(cs, i)
  {
    hide FirstSeen, Increasing;
    SessionChosen(cs);
    forall i: nat ensures Increasing(SessionRows(cs)) && (i in SessionRows(cs) <==> FirstSeen(cs, i)) {
      SessionRowsAre(cs, i);
    }
    SessionRowsAre(cs, 0);
  }

  lemma {:induction false} SessionChosen(cs: seq<Candidate>)
    ensures SessionUnique(cs) == Chosen(cs, SessionRows(cs))
  {
    hide Identity, Identities;
    if cs != [] {
      var n := |cs| - 1;
      SessionChosen(cs[..n]);
      var rows := SessionRows(cs[..n]);
      SameChoice(cs[..n], cs, rows);
      assert (rows + [n])[..|rows|] == rows;
      assert rows + [] == rows;
    }
  }

  lemma {:induction false} SameChoice(front: seq<Candidate>, cs: seq<Candidate>, rows: seq<nat>)
    requires front <= cs && Indices(front, rows)
    ensures Indices(cs, rows) && Chosen(front, rows) == Chosen(cs, rows)
  {
  }

  lemma {:induction false} SeenExactly(cs: seq<Candidate>, id: string)
    ensures id in Identities(cs) <==> exists j :: 0 <= j < |cs| && Identity(cs[j]) == id
  {
    hide Identity;
    if cs != [] {
      var n := |cs| - 1;
      SeenExactly(cs[..n], id);
      assert forall j :: 0 <= j < n ==> cs[..n][j] == cs[j];
    }
  }

  /** The order in which accounts try their candidates: cached and not shared, then not
      shared and of the account's owner, then cached, then shared, then the rest. */
  lemma AccountOrder(a: Candidate, b: Candidate)
    ensures a.cached && !a.shared && !(b.cached && !b.shared) ==> AccountRank(a) < AccountRank(b)
    ensures !a.shared && a.ownerMatched && !b.cached && !(!b.shared && b.ownerMatched) ==> AccountRank(a) < AccountRank(b)
    ensures !a.shared && a.ownerMatched && b.shared ==> AccountRank(a) < AccountRank(b)
    ensures a.cached && a.shared && !b.cached && !(!b.shared && b.ownerMatched) ==> AccountRank(a) < AccountRank(b)
    ensures a.shared && !b.shared && !b.cached && !b.ownerMatched ==> AccountRank(a) < AccountRank(b)
    ensures a.cached == b.cached && a.shared == b.shared && a.ownerMatched == b.ownerMatched ==> AccountRank(a) == AccountRank(b)
    ensures TransactionRank(a) < TransactionRank(b) <==> a.cached && !b.cached
  {
  }
}
