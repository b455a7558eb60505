/**
 Function calls on the channel between scheduler and executor: the encoder in
 `scheduler_server.cpp`, the parser and argument layout in `executor_server.cpp`, and
 object names (`common.hpp`).
 */
module CallEncoding {

  import opened Text
  import opened Numbers

  const BAR: char := '|'

  // -------------------------------------------------------------------- messages

  datatype Call = Call(flag: nat, persist: nat, meta: string, session: string, func: string, args: seq<string>)

  /** Resource metadata longer than its length byte can say is replaced. */
  function Meta(meta: string): (r: string)
    ensures |r| <= 255
  {
    if |meta| > 255 then "0,0" else meta
  }

  function Header(c: Call): (r: string)
    requires c.flag < 255 && c.persist < 256
    ensures |r| == 4
  {
    [1 as char, (c.flag + 1) as char, c.persist as char, |Meta(c.meta)| as char]
  }

  function Encode(c: Call): string
    requires c.flag < 255 && c.persist < 256
  {
    Header(c) + Meta(c.meta) + Between([c.session, c.func] + c.args, BAR)
  }

  /** The encoder's loop over the arguments. */
  method EncodeCall(c: Call) returns (resp: string)
    requires c.flag < 255 && c.persist < 256
    ensures resp == Encode(c)
  {
    resp := [1 as char, (c.flag + 1) as char, c.persist as char];
    var meta := c.meta;
    if |meta| > 255 { meta := "0,0"; }
    resp := resp + [|meta| as char] + meta;
    var text := c.func;
    for i := 0 to |c.args|
      invariant text == Between([c.func] + c.args[..i], BAR)
    {
      BetweenSnoc([c.func] + c.args[..i], BAR, c.args[i]);
      assert [c.func] + c.args[..i + 1] == [c.func] + c.args[..i] + [c.args[i]];
      text := text + "|" + c.args[i];
    }
    assert c.args[..|c.args|] == c.args;
    assert ([c.session, c.func] + c.args)[1..] == [c.func] + c.args;
    resp := resp + (c.session + "|" + text);
  }

  lemma {:induction false} BetweenSnoc(fields: seq<string>, c: char, f: string)
    requires fields != []
    ensures Between(fields + [f], c) == Between(fields, c) + [c] + f
  {
    if |fields| > 1 {
      BetweenSnoc(fields[1..], c, f);
      assert (fields + [f])[1..] == fields[1..] + [f];
    } else {
      assert (fields + [f])[1..] == [f];
    }
  }

  /** A C string ends at its first NUL. */
  function CString(s: string): string { s[..IndexOf(s, '\0')] }

  datatype Option<T> = None | Some(value: T)

  /** The executor's parser: type byte 1, and at least two fields; anything else is no call. */
  function Decode(s: string): Option<Call> {
    if |s| < 4 || s[0] as nat != 1 || s[1] as nat < 1 || |s| < 4 + s[3] as nat then None
    else
      var len := s[3] as nat;
      var fields := Fields(CString(s[4 + len..]), BAR);
      if |fields| < 2 then None
      else Some(Call(s[1] as nat - 1, s[2] as nat, s[4..4 + len], fields[0], fields[1], fields[2..]))
  }

  /** No field holds a bar or a NUL. */
  ghost predicate Plain(fields: seq<string>) {
    AllFree(fields, BAR) && AllFree(fields, '\0')
  }

  lemma CStringFree(s: string)
    requires Free(s, '\0')
    ensures CString(s) == s
  {
  }

  lemma HeaderRead(c: Call, rest: string)
    requires c.flag < 255 && c.persist < 256
    ensures var s, m := Header(c) + Meta(c.meta) + rest, Meta(c.meta);
            && |s| >= 4 + |m| && s[0] as nat == 1 && s[1] as nat == c.flag + 1 && s[2] as nat == c.persist && s[3] as nat == |m|
            && s[4..4 + |m|] == m && s[4 + |m|..] == rest
  {
  }

  /** What the executor reads: the fields that `getline` keeps. */
  lemma DecodeIs(c: Call)
    requires c.flag < 255 && c.persist < 256 && Plain([c.session, c.func] + c.args)
    ensures var fields := Kept([c.session, c.func] + c.args);
            Decode(Encode(c)) == if |fields| < 2 then None else Some(Call(c.flag, c.persist, Meta(c.meta), fields[0], fields[1], fields[2..]))
  {
    var all := [c.session, c.func] + c.args;
    HeaderRead(c, Between(all, BAR));
    BetweenFree(all, BAR, '\0');
    CStringFree(Between(all, BAR));
    FieldsBetween(all, BAR);
  }

  /** The parser recovers the call exactly when its last field is not empty and its metadata fits. */
  lemma RoundTrip(c: Call)
    requires c.flag < 255 && c.persist < 256 && Plain([c.session, c.func] + c.args)
    ensures Decode(Encode(c)) == Some(c) <==> LastFilled(c) && Meta(c.meta) == c.meta
  {
    var all := [c.session, c.func] + c.args;
    DecodeIs(c);
    assert all[2..] == c.args;
    if !LastFilled(c) && |Kept(all)| >= 2 { assert |Kept(all)[2..]| != |c.args|; }
  }

  /** The last field of the call is not empty. */
  predicate LastFilled(c: Call) {
    if c.args == [] then c.func != [] else c.args[|c.args| - 1] != []
  }

  // --------------------------------------------------------------- key arguments

  /** A key argument: the object's bucket, its key with the session, and its size. */
  datatype Object = Object(bucket: string, key: string, size: nat)

  /** As the scheduler passes them: name and size. */
  function AsPairs(objs: seq<Object>): seq<string> {
    if objs == [] then []
    else
      var o := objs[|objs| - 1];
      AsPairs(objs[..|objs| - 1]) + [o.bucket + "|" + o.key] + [Decimal(o.size)]
  }

  /** As the executor sees them: bucket, key and size. */
  function AsTriples(objs: seq<Object>): (r: seq<string>)
    ensures |r| == 3 * |objs|
  {
    if objs == [] then []
    else
      var o := objs[|objs| - 1];
      AsTriples(objs[..|objs| - 1]) + [o.bucket] + [o.key] + [Decimal(o.size)]
  }

  /** A name that holds a bar reads as two fields. */
  lemma {:induction false} NamesSplit(pre: seq<string>, objs: seq<Object>)
    requires pre != []
    ensures Between(pre + AsPairs(objs), BAR) == Between(pre + AsTriples(objs), BAR)
  {
    if objs != [] {
      var init, o := objs[..|objs| - 1], objs[|objs| - 1];
      NamesSplit(pre, init);
      OneName(pre + AsPairs(init), pre + AsTriples(init), o.bucket, o.key, Decimal(o.size));
      assert pre + AsPairs(objs) == pre + AsPairs(init) + [o.bucket + "|" + o.key] + [Decimal(o.size)];
      assert pre + AsTriples(objs) == pre + AsTriples(init) + [o.bucket] + [o.key] + [Decimal(o.size)];
    }
  }

  lemma OneName(x: seq<string>, y: seq<string>, b: string, k: string, d: string)
    requires x != [] && y != [] && Between(x, BAR) == Between(y, BAR)
    ensures Between(x + [b + "|" + k] + [d], BAR) == Between(y + [b] + [k] + [d], BAR)
  {
    BetweenSnoc(x, BAR, b + "|" + k);
    BetweenSnoc(x + [b + "|" + k], BAR, d);
    BetweenSnoc(y, BAR, b);
    BetweenSnoc(y + [b], BAR, k);
    BetweenSnoc(y + [b] + [k], BAR, d);
    assert Between(x, BAR) + [BAR] + (b + "|" + k) == Between(y, BAR) + [BAR] + b + [BAR] + k;
  }

  lemma {:induction false} TriplesPlain(objs: seq<Object>, c: char)
    requires !('0' <= c <= '9') && forall i :: 0 <= i < |objs| ==> Free(objs[i].bucket, c) && Free(objs[i].key, c)
    ensures AllFree(AsTriples(objs), c)
  {
    if objs != [] { TriplesPlain(objs[..|objs| - 1], c); }
  }

  /** A call with key arguments reaches the executor with bucket, key and size of every object. */
  lemma KeyCallRoundTrip(c: Call, objs: seq<Object>)
    requires c.flag < 255 && c.persist < 256 && |c.meta| <= 255 && c.args == AsPairs(objs) && objs != []
    requires Plain([c.session, c.func]) && forall i :: 0 <= i < |objs| ==> Plain([objs[i].bucket, objs[i].key])
    ensures Decode(Encode(c)) == Some(c.(args := AsTriples(objs)))
  {
    NamesSplit([c.session, c.func], objs);
    ObjectsFree(objs, BAR);
    ObjectsFree(objs, '\0');
    AllFreeConcat([c.session, c.func], AsTriples(objs), BAR);
    AllFreeConcat([c.session, c.func], AsTriples(objs), '\0');
    TriplesRoundTrip(c, c.(args := AsTriples(objs)), objs);
  }

  lemma ObjectsFree(objs: seq<Object>, c: char)
    requires !('0' <= c <= '9') && forall i :: 0 <= i < |objs| ==> AllFree([objs[i].bucket, objs[i].key], c)
    ensures AllFree(AsTriples(objs), c)
  {
    forall i | 0 <= i < |objs| ensures Free(objs[i].bucket, c) && Free(objs[i].key, c) {
      var p := [objs[i].bucket, objs[i].key];
      assert Free(p[0], c) && Free(p[1], c);
    }
    TriplesPlain(objs, c);
  }

  /** Once the text is the same, the call with triples is the one that is read. */
  lemma TriplesRoundTrip(c: Call, d: Call, objs: seq<Object>)
    requires c.flag < 255 && c.persist < 256 && |c.meta| <= 255 && objs != []
    requires d == c.(args := AsTriples(objs)) && Plain([d.session, d.func] + d.args)
    requires Between([c.session, c.func] + c.args, BAR) == Between([d.session, d.func] + d.args, BAR)
    ensures Decode(Encode(c)) == Some(d)
  {
    assert d.args[|d.args| - 1] == Decimal(objs[|objs| - 1].size);
    RoundTrip(d);
  }

  lemma AllFreeConcat(a: seq<string>, b: seq<string>, c: char)
    requires AllFree(a, c) && AllFree(b, c)
    ensures AllFree(a + b, c)
  {
  }

  // -------------------------------------------------------------- argument slots

  /** One entry of the argument array handed to the user function. */
  datatype Slot = Unset | Value(text: string) | Name(text: string) | Shared(name: string, size: nat)

  /** `stoi` on what the scheduler writes. */
  function SizeOf(text: string): nat { if IsDigits(text) then Parse(text) else 0 }

  function SharedAt(args: seq<string>, j: nat): Slot
    requires 3 * j + 2 < |args|
  {
    Shared(args[3 * j] + "|" + args[3 * j + 1], SizeOf(args[3 * j + 2]))
  }

  /** The whole argument array: every slot is determined. */
  ghost predicate LaidOut(flag: nat, args: seq<string>, slots: seq<Slot>) {
    if flag == 0 then |slots| == |args| && forall i :: 0 <= i < |args| ==> slots[i] == Value(args[i])
    else if |args| % 3 != 0 then false
    else if flag == 1 then 3 * |slots| == |args| && forall j :: 0 <= j < |slots| ==> slots[j] == SharedAt(args, j)
    else
      slots == NamedUpto(args, |args| / 3)
  }

  /** For each of the first `n` triples the key and then the object. */
  function NamedUpto(args: seq<string>, n: nat): (r: seq<Slot>)
    requires 3 * n <= |args|
    ensures |r| == 2 * n
  {
    if n == 0 then [] else NamedUpto(args, n - 1) + [Name(args[3 * n - 2]), SharedAt(args, n - 1)]
  }

  lemma {:induction false} NamedEntry(args: seq<string>, n: nat, j: nat)
    requires j < n && 3 * n <= |args|
    ensures NamedUpto(args, n)[2 * j] == Name(args[3 * j + 1]) && NamedUpto(args, n)[2 * j + 1] == SharedAt(args, j)
  {
    if j < n - 1 { NamedEntry(args, n - 1, j); }
  }

  method PlainSlots(args: seq<string>) returns (slots: array<Slot>)
    ensures fresh(slots) && LaidOut(0, args, slots[..])
  {
    slots := new Slot[|args|](i => Unset);
    for i := 0 to |args|
      invariant forall j :: 0 <= j < i ==> slots[j] == Value(args[j])
      invariant forall j :: i <= j < |args| ==> slots[j] == Unset
    {
      slots[i] := Value(args[i]);
    }
  }

  method SharedSlots(args: seq<string>) returns (slots: array<Slot>)
    requires |args| % 3 == 0
    ensures fresh(slots) && LaidOut(1, args, slots[..])
  {
    var size := 1 + |args|;
    slots := new Slot[size / 3](i => Unset);
    var i := 1;
    ghost var n := 0;
    while i < size
      invariant i == 3 * n + 1 && 3 * n <= |args|
      invariant forall j :: 0 <= j < n ==> slots[j] == SharedAt(args, j)
      invariant forall j :: n <= j < slots.Length ==> slots[j] == Unset
      decreases size - i
    {
      slots[i / 3] := Shared(args[i - 1] + "|" + args[i], SizeOf(args[i + 1]));
      i, n := i + 3, n + 1;
    }
  }

  /** Two neighbouring slots, neither of which was set before. */
  method StorePair(slots: array<Slot>, index: nat, first: Slot, second: Slot)
    requires index + 1 < slots.Length && slots[index] == Unset && slots[index + 1] == Unset
    modifies slots
    ensures slots[..index + 2] == old(slots[..index]) + [first, second]
    ensures forall j :: index + 2 <= j < slots.Length ==> slots[j] == old(slots[j])
  {
    slots[index] := first;
    slots[index + 1] := second;
  }

  method NamedSlots(args: seq<string>) returns (slots: array<Slot>)
    requires |args| % 3 == 0
    ensures fresh(slots) && LaidOut(2, args, slots[..])
  {
    var size := 1 + |args|;
    slots := new Slot[2 * (size - 1) / 3](i => Unset);
    var i := 1;
    ghost var n := 0;
    while i < size
      invariant i == 3 * n + 1 && 3 * n <= |args|
      invariant slots[..2 * n] == NamedUpto(args, n)
      invariant forall j :: 2 * n <= j < slots.Length ==> slots[j] == Unset
      decreases size - i
    {
      StorePair(slots, 2 * (i - 1) / 3, Name(args[i]), Shared(args[i - 1] + "|" + args[i], SizeOf(args[i + 1])));
      i, n := i + 3, n + 1;
    }
    assert slots[..] == slots[..2 * n];
  }

  /** The executor's argument array; key arguments that do not come in threes are an error. */
  method LayOut(flag: nat, args: seq<string>) returns (ok: bool, slots: array<Slot>)
    requires flag <= 2
    ensures ok <==> flag == 0 || |args| % 3 == 0
    ensures ok ==> LaidOut(flag, args, slots[..])
  {
    ok := flag == 0 || |args| % 3 == 0;
    if flag == 0 {
      slots := PlainSlots(args);
    } else if !ok {
      slots := new Slot[0];
    } else if flag == 1 {
      slots := SharedSlots(args);
    } else {
      slots := NamedSlots(args);
    }
  }

  /** Together with the round trip: slot by slot, the objects the scheduler sent. */
  lemma {:induction false} SlotsAreObjects(objs: seq<Object>, j: nat)
    requires j < |objs|
    ensures SharedAt(AsTriples(objs), j) == Shared(objs[j].bucket + "|" + objs[j].key, objs[j].size)
    ensures AsTriples(objs)[3 * j + 1] == objs[j].key
  {
    var init, o := objs[..|objs| - 1], objs[|objs| - 1];
    if j < |init| {
      SlotsAreObjects(init, j);
      assert forall i :: 0 <= i < 3 * |init| ==> AsTriples(objs)[i] == AsTriples(init)[i];
    } else {
      ParseDecimal(o.size);
    }
  }

  /** Flag 1: slot `j` is object `j`. */
  lemma SharedLayout(objs: seq<Object>, slots: seq<Slot>, j: nat)
    requires LaidOut(1, AsTriples(objs), slots) && j < |objs|
    ensures |slots| == |objs| && slots[j] == Shared(objs[j].bucket + "|" + objs[j].key, objs[j].size)
  {
    SlotsAreObjects(objs, j);
  }

  lemma NamedPair(args: seq<string>, slots: seq<Slot>, j: nat)
    requires LaidOut(2, args, slots) && 3 * j + 2 < |args|
    ensures 2 * j + 1 < |slots| && slots[2 * j] == Name(args[3 * j + 1]) && slots[2 * j + 1] == SharedAt(args, j)
  {
    NamedEntry(args, |args| / 3, j);
  }

  /** Flag 2: slot `2j` is the key of object `j`, and slot `2j + 1` the object. */
  lemma NamedLayout(objs: seq<Object>, args: seq<string>, slots: seq<Slot>, j: nat)
    requires args == AsTriples(objs) && LaidOut(2, args, slots) && j < |objs|
    ensures |slots| == 2 * |objs| && slots[2 * j] == Name(objs[j].key)
    ensures slots[2 * j + 1] == Shared(objs[j].bucket + "|" + objs[j].key, objs[j].size)
  {
    NamedPair(args, slots, j);
    SlotsAreObjects(objs, j);
  }

  // ---------------------------------------------------------------- object names

  datatype BucketKey = BucketKey(bucket: string, key: string, session: string)

  const SESSION: nat := 16

  function ShmKeyName(b: BucketKey): string {
    b.bucket + "|" + (b.key + b.session)
  }

  /** The constructor from a key with its session attached. */
  function FromSessionKey(bucket: string, text: string): BucketKey {
    if |text| > SESSION then BucketKey(bucket, text[..|text| - SESSION], text[|text| - SESSION..])
    else BucketKey(bucket, [], [])
  }

  /** Without a bar, `find` gives `npos`, and adding one to it wraps to zero. */
  function FromName(name: string): BucketKey {
    var i := IndexOf(name, BAR);
    if i == |name| then FromSessionKey(name, name) else FromSessionKey(name[..i], name[i + 1..])
  }

  /** Printing and parsing a name gives the name back exactly under this condition. */
  lemma NameRoundTrip(b: BucketKey)
    ensures FromName(ShmKeyName(b)) == b <==>
              Free(b.bucket, BAR) && ((|b.session| == SESSION && b.key != []) || (b.session == [] && b.key == []))
  {
    var name, text := ShmKeyName(b), b.key + b.session;
    var i := IndexOf(name, BAR);
    assert name[|b.bucket|] == BAR;
    if Free(b.bucket, BAR) {
      assert name == b.bucket + [BAR] + text;
      IndexOfFirst(b.bucket, BAR, text);
      assert name[..i] == b.bucket && name[i + 1..] == text;
      SessionCut(b.bucket, b.key, b.session);
    } else {
      var j :| 0 <= j < |b.bucket| && b.bucket[j] == BAR;
      assert name[j] == BAR;
      assert i <= j;
      assert |FromName(name).bucket| == i;
    }
  }

  lemma SessionCut(bucket: string, key: string, session: string)
    ensures FromSessionKey(bucket, key + session) == BucketKey(bucket, key, session)
            <==> (|session| == SESSION && key != []) || (session == [] && key == [])
  {
    var text := key + session;
    if |session| == SESSION && key != [] {
      assert text[..|text| - SESSION] == key && text[|text| - SESSION..] == session;
    }
  }
}
