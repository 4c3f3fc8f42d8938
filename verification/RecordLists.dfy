/** Vectors of records with distinct identities, as the native code keeps them, and
    the maps they stand for. */
module RecordLists {
  import opened Totals

  datatype Rec<+V> = Rec(id: nat, value: V)

  ghost predicate Listed<V>(rs: seq<Rec<V>>, k: nat) {
    exists i :: 0 <= i < |rs| && rs[i].id == k
  }

  /** The vector `rs` lists exactly the entries of `m`. */
  ghost predicate Lists<V>(rs: seq<Rec<V>>, m: map<nat, V>) {
    && (forall i :: 0 <= i < |rs| ==> rs[i].id in m && m[rs[i].id] == rs[i].value)
    && (forall i, j :: 0 <= i < j < |rs| ==> rs[i].id != rs[j].id)
    && (forall k :: k in m ==> Listed(rs, k))
  }

  lemma ListsEmpty<V>()
    ensures Lists<V>([], map[])
  {
  }

  lemma ListsAppend<V>(rs: seq<Rec<V>>, m: map<nat, V>, id: nat, v: V)
    requires Lists(rs, m) && id !in m
    ensures Lists(rs + [Rec(id, v)], m[id := v])
  {
    var rs' := rs + [Rec(id, v)];
    forall k | k in m[id := v] ensures Listed(rs', k) {
      if k == id {
        assert rs'[|rs|].id == k;
      } else {
        assert Listed(rs, k);
        var i :| 0 <= i < |rs| && rs[i].id == k;
        assert rs'[i].id == k;
      }
    }
  }

  lemma ListsUpdate<V>(rs: seq<Rec<V>>, m: map<nat, V>, i: nat, v: V)
    requires Lists(rs, m) && i < |rs|
    ensures Lists(rs[i := Rec(rs[i].id, v)], m[rs[i].id := v])
  {
    var rs' := rs[i := Rec(rs[i].id, v)];
    forall k | k in m[rs[i].id := v] ensures Listed(rs', k) {
      assert Listed(rs, k);
      var j :| 0 <= j < |rs| && rs[j].id == k;
      assert rs'[j].id == k;
    }
  }

  lemma ListsRemove<V>(rs: seq<Rec<V>>, m: map<nat, V>, i: nat)
    requires Lists(rs, m) && i < |rs|
    ensures Lists(rs[..i] + rs[i + 1..], m - {rs[i].id})
  {
    var rs' := rs[..i] + rs[i + 1..];
    assert forall j :: 0 <= j < |rs'| ==> rs'[j] == rs[if j < i then j else j + 1];
    forall k | k in m - {rs[i].id} ensures Listed(rs', k) {
      assert Listed(rs, k);
      var j :| 0 <= j < |rs| && rs[j].id == k;
      assert rs'[if j < i then j else j - 1].id == k;
    }
    forall j | 0 <= j < |rs'| ensures rs'[j].id in m - {rs[i].id} && (m - {rs[i].id})[rs'[j].id] == rs'[j].value {
      assert rs'[j] == rs[if j < i then j else j + 1];
    }
    forall j, k | 0 <= j < k < |rs'| ensures rs'[j].id != rs'[k].id {
      assert rs'[j] == rs[if j < i then j else j + 1] && rs'[k] == rs[if k < i then k else k + 1];
    }
  }

  /** The vector is as long as the map is large. */
  lemma {:induction false} ListsLength<V>(rs: seq<Rec<V>>, m: map<nat, V>)
    requires Lists(rs, m)
    ensures |rs| == |m|
    decreases |rs|
  {
    if rs == [] {
      assert m.Keys == {};
      assert |m| == |m.Keys|;
    } else {
      var n := |rs| - 1;
      ListsRemove(rs, m, n);
      assert rs[..n] + rs[n + 1..] == rs[..n];
      ListsLength(rs[..n], m - {rs[n].id});
      assert m.Keys == (m - {rs[n].id}).Keys + {rs[n].id};
      assert |m| == |m.Keys| && |m - {rs[n].id}| == |(m - {rs[n].id}).Keys|;
    }
  }

  /** The running sum of a loop over the vector. */
  ghost function Sum<V>(rs: seq<Rec<V>>, w: V -> nat): nat {
    if rs == [] then 0 else Sum(rs[..|rs| - 1], w) + w(rs[|rs| - 1].value)
  }

  lemma {:induction false} SumTotal<V>(rs: seq<Rec<V>>, m: map<nat, V>, w: V -> nat)
    requires Lists(rs, m)
    ensures Sum(rs, w) == Total(m, w)
    decreases |rs|
  {
    if rs == [] {
      assert m == map[];
    } else {
      var n := |rs| - 1;
      ListsRemove(rs, m, n);
      assert rs[..n] + rs[n + 1..] == rs[..n];
      SumTotal(rs[..n], m - {rs[n].id}, w);
      TotalRemove(m, rs[n].id, w);
    }
  }
}
