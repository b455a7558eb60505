/**
 The partitioned ordered map of `safe_ptr.hpp`: keys are spread over ordered
 containers by upper bounds, yet the whole behaves like one ordered map.
 */
module PartitionedMap {

  ghost predicate Ascending(s: seq<int>) {
    forall i, j :: 0 <= i < j < |s| ==> s[i] < s[j]
  }

  /** Index of the first bound that is not below `k`. */
  function LowerBound(bounds: seq<int>, k: int): (i: nat)
    ensures i <= |bounds| && (forall j :: 0 <= j < i ==> bounds[j] < k) && (i < |bounds| ==> k <= bounds[i])
  {
    if bounds == [] || k <= bounds[0] then 0 else 1 + LowerBound(bounds[1..], k)
  }

  /** Index of the first bound above `k`. */
  function UpperBound(bounds: seq<int>, k: int): (i: nat)
    ensures i <= |bounds| && (forall j :: 0 <= j < i ==> bounds[j] <= k) && (i < |bounds| ==> k < bounds[i])
  {
    if bounds == [] || k < bounds[0] then 0 else 1 + UpperBound(bounds[1..], k)
  }

  /** `part_it`: the partition a key belongs to; beyond the last bound it is the last one. */
  function PartOf(bounds: seq<int>, k: int): (i: nat)
    requires bounds != []
    ensures i < |bounds| && (forall j :: 0 <= j < i ==> bounds[j] < k) && (k <= bounds[i] || i == |bounds| - 1)
  {
    var i := LowerBound(bounds, k);
    if i == |bounds| then i - 1 else i
  }

  /** Where a scan up to `up` stops. */
  function EndOf(bounds: seq<int>, up: int): (i: nat)
    ensures i <= |bounds|
  {
    var i := UpperBound(bounds, up);
    if i == |bounds| then i else i + 1
  }

  lemma PartMonotone(bounds: seq<int>, k: int, l: int)
    requires bounds != [] && Ascending(bounds) && k <= l
    ensures PartOf(bounds, k) <= PartOf(bounds, l)
    ensures PartOf(bounds, k) < EndOf(bounds, l)
  {
  }

  // ------------------------------------------------------------------ flat view

  /** All partitions merged. */
  function Merged<V>(parts: seq<map<int, V>>): map<int, V> {
    if parts == [] then map[] else Merged(parts[..|parts| - 1]) + parts[|parts| - 1]
  }

  /** Every key sits in the partition that `part_it` selects and nowhere else. */
  ghost predicate Home<V>(bounds: seq<int>, parts: seq<map<int, V>>) {
    && bounds != [] && Ascending(bounds) && |parts| == |bounds|
    && forall i, k {:trigger k in parts[i]} :: 0 <= i < |parts| && k in parts[i] ==> PartOf(bounds, k) == i
  }

  lemma {:induction false} MergedAbsent<V>(parts: seq<map<int, V>>, k: int)
    requires forall i :: 0 <= i < |parts| ==> k !in parts[i]
    ensures k !in Merged(parts)
  {
    if parts != [] { MergedAbsent(parts[..|parts| - 1], k); }
  }

  lemma {:induction false} MergedAt<V>(parts: seq<map<int, V>>, i: nat, k: int)
    requires i < |parts| && forall j :: 0 <= j < |parts| && k in parts[j] ==> j == i
    ensures k in Merged(parts) <==> k in parts[i]
    ensures k in parts[i] ==> Merged(parts)[k] == parts[i][k]
  {
    var init := parts[..|parts| - 1];
    if i < |init| { MergedAt(init, i, k); } else { MergedAbsent(init, k); }
  }

  /** Looking a key up in the flat map is looking it up in its partition. */
  lemma Lookup<V>(bounds: seq<int>, parts: seq<map<int, V>>)
    requires Home(bounds, parts)
    ensures forall k {:trigger k in Merged(parts)} :: k in Merged(parts) <==> k in parts[PartOf(bounds, k)]
    ensures forall k {:trigger Merged(parts)[k]} :: k in Merged(parts) ==> k in parts[PartOf(bounds, k)] && Merged(parts)[k] == parts[PartOf(bounds, k)][k]
  {
    forall k ensures (k in Merged(parts) <==> k in parts[PartOf(bounds, k)])
                     && (k in Merged(parts) ==> Merged(parts)[k] == parts[PartOf(bounds, k)][k])
    {
      MergedAt(parts, PartOf(bounds, k), k);
    }
  }

  /** Two partitionings with the same look-ups have the same flat map. */
  lemma SameFlat<V>(bounds: seq<int>, parts: seq<map<int, V>>, flat: map<int, V>)
    requires Home(bounds, parts)
    requires forall k {:trigger k in flat} :: k in flat <==> k in parts[PartOf(bounds, k)]
    requires forall k {:trigger flat[k]} :: k in flat ==> flat[k] == parts[PartOf(bounds, k)][k]
    ensures Merged(parts) == flat
  {
    Lookup(bounds, parts);
    assert Merged(parts).Keys == flat.Keys by {
      forall k ensures k in Merged(parts) <==> k in flat {}
    }
    forall k | k in flat ensures Merged(parts)[k] == flat[k] { assert k in Merged(parts); }
  }

  ghost predicate Disjoint<V>(parts: seq<map<int, V>>) {
    forall i, j, k :: 0 <= i < j < |parts| ==> !(k in parts[i] && k in parts[j])
  }

  function Total<V>(parts: seq<map<int, V>>): nat {
    if parts == [] then 0 else Total(parts[..|parts| - 1]) + |parts[|parts| - 1]|
  }

  lemma {:induction false} SizesAdd<V>(parts: seq<map<int, V>>)
    requires Disjoint(parts)
    ensures |Merged(parts)| == Total(parts)
  {
    if parts != [] {
      var init, l := parts[..|parts| - 1], parts[|parts| - 1];
      SizesAdd(init);
      forall k | k in l ensures k !in Merged(init) {
        forall i | 0 <= i < |init| ensures k !in init[i] { assert parts[|init|] == l; }
        MergedAbsent(init, k);
      }
      assert Merged(parts).Keys == Merged(init).Keys + l.Keys;
      assert |Merged(init).Keys + l.Keys| == |Merged(init).Keys| + |l.Keys| by { assert Merged(init).Keys !! l.Keys; }
    }
  }

  // ------------------------------------------------------------- ordered ranges

  type Entry<V> = (int, V)

  /** The entries from `low` to `up`, in ascending order: what lies between the two iterators of a container. */
  function Range<V>(m: map<int, V>, low: int, up: int): seq<Entry<V>>
    decreases up - low
  {
    if low > up then []
    else if low in m then [(low, m[low])] + Range(m, low + 1, up)
    else Range(m, low + 1, up)
  }

  /** Ascending, and holding exactly the entries of the map within the limits. */
  ghost predicate IsRange<V>(r: seq<Entry<V>>, m: map<int, V>, low: int, up: int) {
    && (forall i, j :: 0 <= i < j < |r| ==> r[i].0 < r[j].0)
    && (forall i :: 0 <= i < |r| ==> low <= r[i].0 <= up && r[i].0 in m && r[i].1 == m[r[i].0])
    && forall k :: low <= k <= up && k in m ==> Holds(r, k)
  }

  ghost predicate Holds<V>(r: seq<Entry<V>>, k: int) {
    exists i :: 0 <= i < |r| && r[i].0 == k
  }

  lemma {:induction false} RangeIs<V>(m: map<int, V>, low: int, up: int)
    ensures IsRange(Range(m, low, up), m, low, up)
    decreases up - low
  {
    if low <= up {
      var r, t := Range(m, low, up), Range(m, low + 1, up);
      RangeIs(m, low + 1, up);
      forall k | low <= k <= up && k in m ensures Holds(r, k) {
        if k == low {
          assert r[0].0 == k;
        } else {
          assert Holds(t, k);
          var i :| 0 <= i < |t| && t[i].0 == k;
          assert low in m ==> r[i + 1].0 == k;
        }
      }
    }
  }

  /** The part of a map within the limits. */
  ghost predicate Covered<V>(r: seq<Entry<V>>, bounds: seq<int>, parts: seq<map<int, V>>, low: int, up: int, from: nat, to: nat) {
    && (forall i, j :: 0 <= i < j < |r| ==> r[i].0 < r[j].0)
    && (forall i {:trigger r[i]} :: 0 <= i < |r| ==> InPart(r[i], bounds, parts, low, up, from, to))
    && forall k {:trigger Holds(r, k)} :: low <= k <= up && WithinParts(bounds, parts, k, from, to) ==> Holds(r, k)
  }

  ghost predicate InPart<V>(e: Entry<V>, bounds: seq<int>, parts: seq<map<int, V>>, low: int, up: int, from: nat, to: nat) {
    && low <= e.0 <= up && WithinParts(bounds, parts, e.0, from, to) && parts[PartOf(bounds, e.0)][e.0] == e.1
  }

  ghost predicate WithinParts<V>(bounds: seq<int>, parts: seq<map<int, V>>, k: int, from: nat, to: nat) {
    bounds != [] && |parts| == |bounds| && from <= PartOf(bounds, k) < to && k in parts[PartOf(bounds, k)]
  }

  /** The scan appends the next partition's range. */
  lemma ScanNext<V>(r: seq<Entry<V>>, bounds: seq<int>, parts: seq<map<int, V>>, low: int, up: int, from: nat, to: nat)
    requires Home(bounds, parts) && from <= to < |parts| && Covered(r, bounds, parts, low, up, from, to)
    ensures Covered(r + Range(parts[to], low, up), bounds, parts, low, up, from, to + 1)
  {
    var t := Range(parts[to], low, up);
    var all := r + t;
    RangeIs(parts[to], low, up);
    forall i | 0 <= i < |t| ensures InPart(t[i], bounds, parts, low, up, from, to + 1) { assert t[i].0 in parts[to]; }
    forall i, j | 0 <= i < |r| && 0 <= j < |t| ensures r[i].0 < t[j].0 {
      assert InPart(r[i], bounds, parts, low, up, from, to) && InPart(t[j], bounds, parts, low, up, from, to + 1);
      assert t[j].0 in parts[to];
      if t[j].0 <= r[i].0 { PartMonotone(bounds, t[j].0, r[i].0); }
    }
    forall i | 0 <= i < |all| ensures InPart(all[i], bounds, parts, low, up, from, to + 1) {
      if i < |r| { assert InPart(r[i], bounds, parts, low, up, from, to); } else { assert all[i] == t[i - |r|]; }
    }
    forall k | low <= k <= up && WithinParts(bounds, parts, k, from, to + 1) ensures Holds(all, k) {
      if PartOf(bounds, k) < to {
        assert Holds(r, k);
        var i :| 0 <= i < |r| && r[i].0 == k;
        assert all[i].0 == k;
      } else {
        assert Holds(t, k);
        var i :| 0 <= i < |t| && t[i].0 == k;
        assert all[|r| + i].0 == k;
      }
    }
  }

  /** From the partition of `low` to the end for `up`, nothing within the limits is missed. */
  lemma ScanComplete<V>(r: seq<Entry<V>>, bounds: seq<int>, parts: seq<map<int, V>>, low: int, up: int)
    requires Home(bounds, parts) && low <= up
    requires Covered(r, bounds, parts, low, up, PartOf(bounds, low), EndOf(bounds, up))
    ensures IsRange(r, Merged(parts), low, up)
  {
    Lookup(bounds, parts);
    forall i | 0 <= i < |r| ensures low <= r[i].0 <= up && r[i].0 in Merged(parts) && r[i].1 == Merged(parts)[r[i].0] {
      assert InPart(r[i], bounds, parts, low, up, PartOf(bounds, low), EndOf(bounds, up));
    }
    forall k | low <= k <= up && k in Merged(parts) ensures Holds(r, k) {
      PartMonotone(bounds, low, k);
      PartMonotone(bounds, k, up);
      assert WithinParts(bounds, parts, k, PartOf(bounds, low), EndOf(bounds, up));
    }
  }

  // ------------------------------------------------------------------ the class

  /** What `std::map` does on these calls. */
  function Emplaced<V>(m: map<int, V>, k: int, v: V): map<int, V> {
    if k in m then m else m[k := v]
  }

  function Without<V>(m: map<int, V>, low: int, up: int): map<int, V> {
    map k | k in m && !(low <= k <= up) :: m[k]
  }

  /** Key by key: an existing entry wins, and nothing else changes. */
  lemma EmplacedIs<V>(m: map<int, V>, k: int, v: V, l: int)
    ensures l in Emplaced(m, k, v) <==> l in m || l == k
    ensures l in m ==> Emplaced(m, k, v)[l] == m[l]
    ensures k !in m ==> Emplaced(m, k, v)[k] == v
  {
  }

  /** Key by key: exactly the keys from `low` to `up`, both included, are gone. */
  lemma WithoutIs<V>(m: map<int, V>, low: int, up: int, l: int)
    ensures l in Without(m, low, up) <==> l in m && (l < low || l > up)
    ensures l in Without(m, low, up) ==> Without(m, low, up)[l] == m[l]
  {
  }

  lemma PartChanged<V>(bounds: seq<int>, parts: seq<map<int, V>>, k: int, m: map<int, V>, flat: map<int, V>)
    requires Home(bounds, parts)
    requires var i := PartOf(bounds, k); m == parts[i] - {k} || (k in m && m - {k} == parts[i] - {k})
    requires flat.Keys - {k} == Merged(parts).Keys - {k} && (k in flat <==> k in m) && (k in m ==> flat[k] == m[k])
    requires forall l :: l in flat && l != k ==> l in Merged(parts) && flat[l] == Merged(parts)[l]
    ensures Home(bounds, parts[PartOf(bounds, k) := m]) && Merged(parts[PartOf(bounds, k) := m]) == flat
  {
    var i := PartOf(bounds, k);
    var parts' := parts[i := m];
    Lookup(bounds, parts);
    forall j, l | 0 <= j < |parts'| && l in parts'[j] ensures PartOf(bounds, l) == j {
      if j == i && l != k { assert l in m - {k}; assert l in parts[i]; }
    }
    forall l ensures (l in flat <==> l in parts'[PartOf(bounds, l)]) && (l in flat ==> flat[l] == parts'[PartOf(bounds, l)][l]) {
      if l != k {
        assert l in flat <==> l in Merged(parts) by { assert l in flat.Keys - {k} <==> l in Merged(parts).Keys - {k}; }
        assert l in m <==> l in parts[i] by { assert l in m - {k} <==> l in parts[i] - {k}; }
        if l in m { assert m[l] == (m - {k})[l] && parts[i][l] == (parts[i] - {k})[l]; }
      }
    }
    SameFlat(bounds, parts', flat);
  }

  lemma Added<V>(bounds: seq<int>, parts: seq<map<int, V>>, k: int, v: V)
    requires Home(bounds, parts) && k !in parts[PartOf(bounds, k)] && k !in Merged(parts)
    ensures var i := PartOf(bounds, k);
            Home(bounds, parts[i := parts[i][k := v]]) && Merged(parts[i := parts[i][k := v]]) == Merged(parts)[k := v]
  {
    PartChanged(bounds, parts, k, parts[PartOf(bounds, k)][k := v], Merged(parts)[k := v]);
  }

  /** Every partition from `from` to `to` has lost its keys within the limits. */
  ghost predicate Erased<V>(old_: seq<map<int, V>>, parts: seq<map<int, V>>, low: int, up: int, from: nat, to: nat) {
    |parts| == |old_| && forall i {:trigger parts[i]} {:trigger old_[i]} :: 0 <= i < |parts| ==> parts[i] == if from <= i < to then Without(old_[i], low, up) else old_[i]
  }

  lemma ErasedRange<V>(bounds: seq<int>, old_: seq<map<int, V>>, parts: seq<map<int, V>>, low: int, up: int)
    requires Home(bounds, old_) && low <= up && Erased(old_, parts, low, up, PartOf(bounds, low), EndOf(bounds, up))
    ensures Home(bounds, parts) && Merged(parts) == Without(Merged(old_), low, up)
  {
    var flat := Without(Merged(old_), low, up);
    Lookup(bounds, old_);
    forall i, k | 0 <= i < |parts| && k in parts[i] ensures PartOf(bounds, k) == i { assert k in old_[i]; }
    forall k ensures (k in flat <==> k in parts[PartOf(bounds, k)]) && (k in flat ==> flat[k] == parts[PartOf(bounds, k)][k]) {
      var i := PartOf(bounds, k);
      if low <= k <= up {
        PartMonotone(bounds, low, k);
        PartMonotone(bounds, k, up);
      }
      assert parts[i] == if PartOf(bounds, low) <= i < EndOf(bounds, up) then Without(old_[i], low, up) else old_[i];
    }
    SameFlat(bounds, parts, flat);
  }

  /** Entering a bound in the ordered container of partitions. */
  function WithBound(bounds: seq<int>, b: int): seq<int> {
    var i := LowerBound(bounds, b);
    if i < |bounds| && bounds[i] == b then bounds else bounds[..i] + [b] + bounds[i..]
  }

  lemma WithBoundAscends(bounds: seq<int>, b: int)
    requires Ascending(bounds)
    ensures Ascending(WithBound(bounds, b))
  {
    var i, r := LowerBound(bounds, b), WithBound(bounds, b);
    if r != bounds {
      forall x, y | 0 <= x < y < |r| ensures r[x] < r[y] {
        assert r[x] == (if x < i then bounds[x] else if x == i then b else bounds[x - 1]);
        assert r[y] == (if y < i then bounds[y] else if y == i then b else bounds[y - 1]);
        assert y > i ==> bounds[i] <= bounds[y - 1];
      }
    }
  }

  lemma WithBoundHolds(bounds: seq<int>, b: int)
    ensures forall x :: x in WithBound(bounds, b) <==> x in bounds || x == b
  {
    var i := LowerBound(bounds, b);
    assert bounds == bounds[..i] + bounds[i..];
  }

  /** The constructor's loop over the bounds. */
  method CollectBounds(il: seq<int>) returns (bounds: seq<int>)
    ensures Ascending(bounds) && forall b :: b in bounds <==> b in il
    ensures il != [] ==> bounds != []
  {
    bounds := [];
    for i := 0 to |il|
      invariant Ascending(bounds) && (i > 0 ==> bounds != [])
      invariant forall b :: b in bounds <==> b in il[..i]
    {
      WithBoundAscends(bounds, il[i]);
      WithBoundHolds(bounds, il[i]);
      assert il[..i + 1] == il[..i] + [il[i]];
      bounds := WithBound(bounds, il[i]);
    }
    assert il[..|il|] == il;
  }

  class SafeMapPartitioned<V(==)> {
    const bounds: seq<int>
    var parts: seq<map<int, V>>

    ghost predicate Valid()
      reads this
    {
      Home(bounds, parts)
    }

    /** The one ordered map this object stands for. */
    ghost function Flat(): map<int, V>
      reads this
    {
      Merged(parts)
    }

    /** Partitions with the given upper bounds, which may come in any order and repeatedly. */
    constructor (il: seq<int>)
      requires il != []
      ensures Valid() && Flat() == map[] && forall b :: b in bounds <==> b in il
    {
      var sorted := CollectBounds(il);
      bounds := sorted;
      parts := seq(|sorted|, i => map[]);
      new;
      SameFlat(bounds, parts, map[]);
    }

    method Emplace(k: int, v: V)
      requires Valid()
      modifies this
      ensures Valid() && Flat() == Emplaced(old(Flat()), k, v)
      ensures Flat() == if k in old(Flat()) then old(Flat()) else old(Flat())[k := v]
    {
      var i := PartOf(bounds, k);
      Lookup(bounds, parts);
      if k !in parts[i] {
        Added(bounds, parts, k, v);
        parts := parts[i := parts[i][k := v]];
      }
    }

    method Erase(k: int) returns (count: nat)
      requires Valid()
      modifies this
      ensures Valid() && Flat() == old(Flat()) - {k} && count == if k in old(Flat()) then 1 else 0
    {
      var i := PartOf(bounds, k);
      Lookup(bounds, parts);
      count := if k in parts[i] then 1 else 0;
      PartChanged(bounds, parts, k, parts[i] - {k}, Flat() - {k});
      parts := parts[i := parts[i] - {k}];
    }

    method EraseLowerUpper(low: int, up: int)
      requires Valid() && low <= up
      modifies this
      ensures Valid() && Flat() == Without(old(Flat()), low, up)
      ensures forall l :: l in Flat() <==> l in old(Flat()) && (l < low || l > up)
      ensures forall l :: l in Flat() ==> Flat()[l] == old(Flat())[l]
    {
      var from, to := PartOf(bounds, low), EndOf(bounds, up);
      PartMonotone(bounds, low, up);
      ghost var was := parts;
      for it := from to to
        invariant Erased(was, parts, low, up, from, it)
      {
        parts := parts[it := Without(parts[it], low, up)];
      }
      ErasedRange(bounds, was, parts, low, up);
    }

    method Clear()
      requires Valid()
      modifies this
      ensures Valid() && Flat() == map[]
    {
      for i := 0 to |bounds|
        invariant |parts| == |bounds| && Home(bounds, parts) && forall j :: 0 <= j < i ==> parts[j] == map[]
      {
        parts := parts[i := map[]];
      }
      SameFlat(bounds, parts, map[]);
    }

    method Size() returns (n: nat)
      requires Valid()
      ensures n == |Flat()|
    {
      n := 0;
      for i := 0 to |parts|
        invariant n == Total(parts[..i])
      {
        assert parts[..i + 1][..i] == parts[..i];
        n := n + |parts[i]|;
      }
      assert parts[..|parts|] == parts;
      SizesAdd(parts);
    }

    /** `get_range_lower_upper`. */
    method GetRange(low: int, up: int) returns (r: seq<Entry<V>>)
      requires Valid() && low <= up
      ensures IsRange(r, Flat(), low, up)
    {
      r := [];
      var from, to := PartOf(bounds, low), EndOf(bounds, up);
      PartMonotone(bounds, low, up);
      for it := from to to
        invariant Covered(r, bounds, parts, low, up, from, it)
      {
        ScanNext(r, bounds, parts, low, up, from, it);
        r := r + Range(parts[it], low, up);
      }
      ScanComplete(r, bounds, parts, low, up);
    }

    /** `get_range_equal`. */
    method GetEqual(k: int) returns (r: seq<Entry<V>>)
      requires Valid()
      ensures r == if k in Flat() then [(k, Flat()[k])] else []
    {
      Lookup(bounds, parts);
      var part := parts[PartOf(bounds, k)];
      r := Range(part, k, k);
      assert Range(part, k + 1, k) == [];
      assert k in Flat() <==> k in part;
      assert k in part ==> Flat()[k] == part[k];
    }
  }
}
