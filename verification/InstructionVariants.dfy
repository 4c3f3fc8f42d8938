/** The map between the rows of an IDL's instruction table and the variant indices on
    the wire. */
module InstructionVariants {
  import opened Totals

  const TWO32 := 0x1_0000_0000

  /** The `variant_index` of a row: absent, a 32-bit number, or something else. */
  datatype Declared = Absent | Index(value: nat) | BadIndex

  /** The `instruction_type` of the IDL. */
  datatype ExternalType = NoType | Blank | External(name: string)

  predicate WellFormed(declared: seq<Declared>) {
    forall i :: 0 <= i < |declared| ==> !declared[i].BadIndex? && (declared[i].Index? ==> declared[i].value < TWO32)
  }

  predicate AllAbsent(declared: seq<Declared>) {
    forall i :: 0 <= i < |declared| ==> declared[i].Absent?
  }

  function Identity(n: nat): (r: seq<nat>)
    ensures |r| == n && forall i :: 0 <= i < n ==> r[i] == i
  {
    if n == 0 then [] else Identity(n - 1) + [n - 1]
  }

  /** Positional rows may repeat their own position and nothing else. */
  predicate PositionalOk(declared: seq<Declared>) {
    |declared| <= TWO32 && forall i :: 0 <= i < |declared| ==> declared[i] == Absent || declared[i] == Index(i)
  }

  /** Rows of an external type must each declare a number in range, no two the same. */
  predicate ExternalOk(declared: seq<Declared>) {
    && |declared| < TWO32
    && (forall i :: 0 <= i < |declared| ==> declared[i].Index? && declared[i].value < |declared|)
    && (forall i, j :: 0 <= i < j < |declared| ==> declared[i] != declared[j])
  }

  function Values(declared: seq<Declared>): (r: seq<nat>)
    requires forall i :: 0 <= i < |declared| ==> declared[i].Index?
    ensures |r| == |declared| && forall i :: 0 <= i < |r| ==> r[i] == declared[i].value
  {
    if declared == [] then [] else [declared[0].value] + Values(declared[1..])
  }

  /** `InstructionVariantMap::from_idl`. */
  function VariantIndices(declared: seq<Declared>, external: ExternalType): Option<seq<nat>> {
    if external.Blank? || !WellFormed(declared) then None
    else if external.NoType? || AllAbsent(declared) then
      if PositionalOk(declared) && (external.External? ==> |declared| < TWO32) then Some(Identity(|declared|)) else None
    else if ExternalOk(declared) then Some(Values(declared))
    else None
  }

  /** `external_variant_indices`: the owner map and the index vector are filled row by row. */
  method ExternalVariantIndices(declared: seq<Declared>, externalType: string) returns (r: Option<seq<nat>>)
    ensures r == VariantIndices(declared, External(externalType))
  {
    r := None;
    if |declared| >= TWO32 {
      return;
    }
    var allAbsent := true;
    for i := 0 to |declared|
      invariant WellFormed(declared[..i])
      invariant allAbsent == AllAbsent(declared[..i])
    {
      assert declared[..i + 1] == declared[..i] + [declared[i]];
      if declared[i].BadIndex? || (declared[i].Index? && declared[i].value >= TWO32) {
        assert declared[..i + 1][i] == declared[i];
        return;
      }
      if !declared[i].Absent? {
        assert declared[..i + 1][i] == declared[i];
        allAbsent := false;
      }
    }
    assert declared[..|declared|] == declared;
    if allAbsent {
      r := Some(Identity(|declared|));
      return;
    }
    var owners: map<nat, nat> := map[];
    var indices := [];
    for i := 0 to |declared|
      invariant |indices| == i
      invariant forall k :: 0 <= k < i ==> declared[k].Index? && declared[k].value == indices[k] < |declared|
      invariant forall v :: v in owners <==> v in indices
      invariant forall j, k :: 0 <= j < k < i ==> indices[j] != indices[k]
    {
      if !declared[i].Index? || declared[i].value >= |declared| {
        return;
      }
      var v := declared[i].value;
      if v in owners {
        assert exists k :: 0 <= k < i && indices[k] == v;
        return;
      }
      owners := owners[v := i];
      indices := indices + [v];
    }
    assert indices == Values(declared);
    r := Some(indices);
  }

  // ------------------------------------------------------------- permutation

  predicate InRange(v: seq<nat>) {
    forall i :: 0 <= i < |v| ==> v[i] < |v|
  }

  predicate Injective(v: seq<nat>) {
    forall i, j :: 0 <= i < j < |v| ==> v[i] != v[j]
  }

  /** Whatever way the indices came about, they are in range and distinct. */
  lemma BuiltDistinct(declared: seq<Declared>, external: ExternalType)
    requires VariantIndices(declared, external).Some?
    ensures var v := VariantIndices(declared, external).value; |v| == |declared| && InRange(v) && Injective(v)
  {
  }

  function Elements(v: seq<nat>): set<nat> {
    set i | 0 <= i < |v| :: v[i]
  }

  lemma {:induction false} ElementCount(v: seq<nat>)
    requires Injective(v)
    ensures |Elements(v)| == |v|
  {
    if v != [] {
      var p := v[..|v| - 1];
      ElementCount(p);
      assert forall i :: 0 <= i < |p| ==> p[i] == v[i];
      assert Elements(v) == Elements(p) + {v[|v| - 1]};
    }
  }

  function Below(n: nat): (r: set<nat>)
    ensures forall w: nat :: w in r <==> w < n
    ensures |r| == n
  {
    if n == 0 then {} else Below(n - 1) + {n - 1}
  }

  /** Distinct numbers in range hit every number of the range. */
  lemma Surjective(v: seq<nat>, w: nat)
    requires InRange(v) && Injective(v) && w < |v|
    ensures w in v
  {
    ElementCount(v);
    var missing := Below(|v|) - Elements(v);
    assert Elements(v) <= Below(|v|);
    assert |missing| == |Below(|v|)| - |Elements(v)|;
    assert w in Below(|v|);
  }

  /** `instruction_for_variant`: the first row with this variant index. */
  function RowOf(v: seq<nat>, w: nat): (r: Option<nat>)
    ensures r.Some? ==> r.value < |v| && v[r.value] == w
  {
    if v == [] then None
    else if v[0] == w then Some(0)
    else match RowOf(v[1..], w) case None => None case Some(i) => Some(i + 1)
  }

  lemma {:induction false} RowOfNone(v: seq<nat>, w: nat)
    ensures RowOf(v, w).None? <==> w !in v
  {
    if v != [] {
      RowOfNone(v[1..], w);
      assert v == [v[0]] + v[1..];
    }
  }

  /** For every IDL whose map can be built: row to variant to row is the identity, and a
      first word resolves to a row, which is then the only one, exactly when it is below
      the number of rows. */
  lemma VariantsArePermutation(declared: seq<Declared>, external: ExternalType)
    requires VariantIndices(declared, external).Some?
    ensures var v := VariantIndices(declared, external).value;
            && |v| == |declared|
            && (forall row :: 0 <= row < |v| ==> v[row] < |v| && RowOf(v, v[row]) == Some(row))
            && (forall w: nat :: RowOf(v, w).Some? <==> w < |v|)
            && (forall w: nat, row :: w < |v| && 0 <= row < |v| && v[row] == w ==> RowOf(v, w) == Some(row))
  {
    BuiltDistinct(declared, external);
    var v := VariantIndices(declared, external).value;
    hide VariantIndices;
    forall row | 0 <= row < |v| ensures RowOf(v, v[row]) == Some(row) {
      RowOfNone(v, v[row]);
    }
    forall w: nat ensures RowOf(v, w).Some? <==> w < |v| {
      RowOfNone(v, w);
      if w < |v| {
        Surjective(v, w);
      }
    }
  }

  /** A row that declares an index has that one, and any other row its position. */
  lemma DeclaredIndexUsed(declared: seq<Declared>, external: ExternalType, row: nat)
    requires VariantIndices(declared, external).Some? && row < |declared|
    ensures VariantIndices(declared, external).value[row] == match declared[row] case Index(v) => v case _ => row
  {
  }

  /** Exactly when the map can be built: the instruction type is not blank, and either every
      row keeps its position, or the type is external and every row declares an index in
      range, all different. */
  lemma BuiltExactly(declared: seq<Declared>, external: ExternalType)
    ensures VariantIndices(declared, external).Some? <==>
              || (external.NoType? && |declared| <= TWO32 && forall i :: 0 <= i < |declared| ==> declared[i] in {Absent, Index(i)})
              || (external.External? && |declared| < TWO32 && forall i :: 0 <= i < |declared| ==> declared[i] == Absent)
              || (&& external.External? && |declared| < TWO32
                  && (forall i :: 0 <= i < |declared| ==> declared[i].Index? && declared[i].value < |declared|)
                  && (forall i, j :: 0 <= i < j < |declared| ==> declared[i].value != declared[j].value))
  {
    if external.External? && AllAbsent(declared) {
      assert WellFormed(declared);
    }
  }
}
