/** Splitting text at a delimiter, as `getline` does it. */
module Text {

  function IndexOf(s: string, c: char): (i: nat)
    ensures i <= |s| && (forall j :: 0 <= j < i ==> s[j] != c) && (i < |s| ==> s[i] == c)
  {
    if s == [] || s[0] == c then 0 else 1 + IndexOf(s[1..], c)
  }

  /** `getline` until the end: what follows the last delimiter counts only if it is not empty. */
  function Fields(s: string, c: char): seq<string>
    decreases |s|
  {
    if s == [] then []
    else
      var i := IndexOf(s, c);
      if i == |s| then [s] else [s[..i]] + Fields(s[i + 1..], c)
  }

  method Split(s: string, c: char) returns (elems: seq<string>)
    ensures elems == Fields(s, c)
  {
    elems := [];
    var rest := s;
    while rest != []
      invariant elems + Fields(rest, c) == Fields(s, c)
      decreases |rest|
    {
      var i := IndexOf(rest, c);
      if i == |rest| {
        elems := elems + [rest];
        rest := [];
      } else {
        elems := elems + [rest[..i]];
        rest := rest[i + 1..];
      }
    }
  }

  predicate Free(s: string, c: char) {
    forall i :: 0 <= i < |s| ==> s[i] != c
  }

  /** A field holds no delimiter, and no character the text does not hold. */
  lemma {:induction false} FieldsFree(s: string, c: char, d: char)
    requires Free(s, d)
    ensures forall k :: 0 <= k < |Fields(s, c)| ==> Free(Fields(s, c)[k], c) && Free(Fields(s, c)[k], d)
    decreases |s|
  {
    if s != [] {
      var i := IndexOf(s, c);
      if i < |s| { FieldsFree(s[i + 1..], c, d); }
    }
  }

  function Joined(fields: seq<string>, c: char): string {
    if fields == [] then [] else fields[0] + [c] + Joined(fields[1..], c)
  }

  /** Splitting loses nothing but, possibly, one trailing delimiter. */
  lemma {:induction false} FieldsJoin(s: string, c: char)
    ensures Joined(Fields(s, c), c) == if s == [] || s[|s| - 1] == c then s else s + [c]
    decreases |s|
  {
    if s != [] {
      var i := IndexOf(s, c);
      if i < |s| {
        FieldsJoin(s[i + 1..], c);
        assert s == s[..i] + [c] + s[i + 1..];
        assert Fields(s, c)[1..] == Fields(s[i + 1..], c);
      } else {
        assert Fields(s, c)[1..] == [];
      }
    }
  }

  /** The fields with a delimiter between them. */
  function Between(fields: seq<string>, c: char): string {
    if fields == [] then []
    else if |fields| == 1 then fields[0]
    else fields[0] + [c] + Between(fields[1..], c)
  }

  lemma IndexOfFirst(f: string, c: char, rest: string)
    requires Free(f, c)
    ensures IndexOf(f + [c] + rest, c) == |f|
  {
    var s := f + [c] + rest;
    var i := IndexOf(s, c);
    assert s[|f|] == c;
    assert forall j :: 0 <= j < |f| ==> s[j] == f[j];
  }

  lemma FieldsCons(f: string, c: char, rest: string)
    requires Free(f, c)
    ensures Fields(f + [c] + rest, c) == [f] + Fields(rest, c)
  {
    var s := f + [c] + rest;
    IndexOfFirst(f, c, rest);
    assert s[..|f|] == f && s[|f| + 1..] == rest;
  }

  lemma FieldsOne(f: string, c: char)
    requires Free(f, c)
    ensures Fields(f, c) == if f == [] then [] else [f]
  {
    assert IndexOf(f, c) == |f|;
  }

  ghost predicate AllFree(fields: seq<string>, c: char) {
    forall i {:trigger fields[i]} :: 0 <= i < |fields| ==> Free(fields[i], c)
  }

  /** The fields without an empty last one. */
  function Kept(fields: seq<string>): seq<string> {
    if fields != [] && fields[|fields| - 1] == [] then fields[..|fields| - 1] else fields
  }

  lemma KeptCons(f: string, rest: seq<string>)
    requires rest != []
    ensures Kept([f] + rest) == [f] + Kept(rest)
  {
    var all := [f] + rest;
    assert all[|all| - 1] == rest[|rest| - 1];
    assert all[..|all| - 1] == [f] + rest[..|rest| - 1];
  }

  lemma AllFreeTail(fields: seq<string>, c: char)
    requires AllFree(fields, c) && fields != []
    ensures Free(fields[0], c) && AllFree(fields[1..], c) && fields == [fields[0]] + fields[1..]
  {
    var t := fields[1..];
    forall i | 0 <= i < |t| ensures Free(t[i], c) { assert t[i] == fields[i + 1]; }
  }

  /** Splitting undoes joining, except that an empty last field is lost. */
  lemma {:induction false} FieldsBetween(fields: seq<string>, c: char)
    requires AllFree(fields, c)
    ensures Fields(Between(fields, c), c) == Kept(fields)
  {
    if fields != [] {
      AllFreeTail(fields, c);
      if |fields| == 1 {
        FieldsOne(fields[0], c);
      } else {
        FieldsBetween(fields[1..], c);
        FieldsCons(fields[0], c, Between(fields[1..], c));
        KeptCons(fields[0], fields[1..]);
      }
    }
  }

  lemma {:induction false} BetweenFree(fields: seq<string>, c: char, d: char)
    requires AllFree(fields, d) && c != d
    ensures Free(Between(fields, c), d)
  {
    if fields != [] {
      AllFreeTail(fields, d);
      if |fields| > 1 { BetweenFree(fields[1..], c, d); }
    }
  }
}
