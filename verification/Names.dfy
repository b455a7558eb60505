/** Sorting of identifiers the way Python's `sorted` orders strings. */
module Names {

  /** Lexicographic order by character. */
  predicate Leq(a: string, b: string) {
    if a == [] then true
    else if b == [] then false
    else if a[0] != b[0] then a[0] < b[0]
    else Leq(a[1..], b[1..])
  }

  /** The strings agree up to `i`. */
  ghost predicate SameUpto(a: string, b: string, i: nat) {
    i <= |a| && i <= |b| && a[..i] == b[..i]
  }

  /** The first differing character decides, and a prefix comes first. */
  lemma {:induction false} LeqIsLexicographic(a: string, b: string, i: nat)
    requires SameUpto(a, b, i) && (i == |a| || i == |b| || a[i] != b[i])
    ensures Leq(a, b) <==> i == |a| || (i < |b| && a[i] < b[i])
    decreases i
  {
    if i > 0 {
      assert a[0] == a[..i][0] == b[..i][0] == b[0];
      assert a[1..][..i - 1] == a[..i][1..] && b[1..][..i - 1] == b[..i][1..];
      LeqIsLexicographic(a[1..], b[1..], i - 1);
    }
  }

  function Insert(x: string, s: seq<string>): (r: seq<string>)
    ensures |r| == |s| + 1
  {
    if s == [] then [x] else if Leq(x, s[0]) then [x] + s else [s[0]] + Insert(x, s[1..])
  }

  function Sorted(s: seq<string>): (r: seq<string>)
    ensures |r| == |s|
  {
    if s == [] then [] else Insert(s[0], Sorted(s[1..]))
  }

  function Prefixed(p: string, s: seq<string>): (r: seq<string>)
    ensures |r| == |s| && forall i :: 0 <= i < |s| ==> r[i] == p + s[i]
  {
    seq(|s|, i requires 0 <= i < |s| => p + s[i])
  }

  lemma {:induction false} InsertPermutes(x: string, s: seq<string>)
    ensures multiset(Insert(x, s)) == multiset(s) + multiset{x}
  {
    if s != [] && !Leq(x, s[0]) {
      InsertPermutes(x, s[1..]);
      assert s == [s[0]] + s[1..];
    }
  }

  /** Sorting keeps every name as often as it occurs. */
  lemma {:induction false} SortedPermutes(s: seq<string>)
    ensures multiset(Sorted(s)) == multiset(s)
  {
    if s != [] {
      SortedPermutes(s[1..]);
      InsertPermutes(s[0], Sorted(s[1..]));
      assert s == [s[0]] + s[1..];
    }
  }

  ghost predicate Ascending(s: seq<string>) {
    forall i :: 0 < i < |s| ==> Leq(s[i - 1], s[i])
  }

  lemma {:induction false} LeqTotal(a: string, b: string)
    ensures Leq(a, b) || Leq(b, a)
  {
    if a != [] && b != [] && a[0] == b[0] { LeqTotal(a[1..], b[1..]); }
  }

  lemma {:induction false} InsertAscends(x: string, s: seq<string>)
    requires Ascending(s)
    ensures Ascending(Insert(x, s))
    ensures s != [] ==> Insert(x, s)[0] == x || Insert(x, s)[0] == s[0]
  {
    if s != [] && !Leq(x, s[0]) {
      LeqTotal(x, s[0]);
      assert forall i :: 0 < i < |s[1..]| ==> s[1..][i - 1] == s[i] && s[1..][i] == s[i + 1];
      InsertAscends(x, s[1..]);
    }
  }

  lemma {:induction false} SortedAscends(s: seq<string>)
    ensures Ascending(Sorted(s))
  {
    if s != [] {
      SortedAscends(s[1..]);
      InsertAscends(s[0], Sorted(s[1..]));
    }
  }

  lemma {:induction false} LeqPrefix(p: string, a: string, b: string)
    ensures Leq(p + a, p + b) == Leq(a, b)
  {
    if p == [] {
      assert p + a == a && p + b == b;
    } else {
      assert (p + a)[1..] == p[1..] + a && (p + b)[1..] == p[1..] + b;
      LeqPrefix(p[1..], a, b);
    }
  }

  lemma {:induction false} InsertPrefix(p: string, x: string, s: seq<string>)
    ensures Insert(p + x, Prefixed(p, s)) == Prefixed(p, Insert(x, s))
  {
    if s == [] {
    } else {
      LeqPrefix(p, x, s[0]);
      assert Prefixed(p, s)[1..] == Prefixed(p, s[1..]);
      if Leq(x, s[0]) {
        assert Prefixed(p, [x] + s) == [p + x] + Prefixed(p, s);
      } else {
        InsertPrefix(p, x, s[1..]);
        assert Prefixed(p, [s[0]] + Insert(x, s[1..])) == [p + s[0]] + Prefixed(p, Insert(x, s[1..]));
      }
    }
  }

  /** A common prefix does not influence the order. */
  lemma {:induction false} SortedPrefix(p: string, s: seq<string>)
    ensures Sorted(Prefixed(p, s)) == Prefixed(p, Sorted(s))
  {
    if s != [] {
      assert Prefixed(p, s)[1..] == Prefixed(p, s[1..]);
      SortedPrefix(p, s[1..]);
      InsertPrefix(p, s[0], Sorted(s[1..]));
    }
  }

  lemma MultisetMembers(a: seq<string>, b: seq<string>)
    requires multiset(a) == multiset(b)
    ensures forall x :: x in a <==> x in b
  {
    forall x ensures x in a <==> x in b { assert x in multiset(a) <==> x in multiset(b); }
  }

  /** A list without repetitions has every name once. */
  lemma {:induction false} DistinctCounts(s: seq<string>)
    ensures (forall i, j :: 0 <= i < j < |s| ==> s[i] != s[j]) <==> (forall x :: multiset(s)[x] <= 1)
  {
    if s != [] {
      var t := s[..|s| - 1];
      var y := s[|s| - 1];
      assert s == t + [y];
      DistinctCounts(t);
      if (forall x :: multiset(s)[x] <= 1) {
        forall x ensures multiset(t)[x] <= 1 { assert multiset(s)[x] <= 1; }
        assert multiset(s)[y] == multiset(t)[y] + 1;
        assert y !in t by { assert y !in multiset(t); }
        forall i, j | 0 <= i < j < |s| ensures s[i] != s[j] {
          if j < |t| { assert t[i] != t[j]; } else { assert t[i] in t; }
        }
      }
      if (forall i, j :: 0 <= i < j < |s| ==> s[i] != s[j]) {
        forall i, j | 0 <= i < j < |t| ensures t[i] != t[j] { assert s[i] != s[j]; }
        assert y !in t;
        assert multiset(t)[y] == 0 by { assert y !in multiset(t); }
        forall x ensures multiset(s)[x] <= 1 { assert multiset(t)[x] <= 1; }
      }
    }
  }
}
