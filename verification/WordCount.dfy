/**
 Word count on the map/reduce templates: a mapper splits its text, counts words,
 partitions them over the reducers and writes text records; a reducer parses the
 records of all mappers with a character scanner and adds up.
 */
module WordCount {

  import opened Numbers
  import opened Text

  // ------------------------------------------------------------------- counting

  type Word = string

  function Words(text: string): seq<Word> { Fields(text, ' ') }

  function Count(text: string, w: Word): nat { multiset(Words(text))[w] }

  /** Occurrences of a word over all inputs. */
  function Total(texts: seq<string>, w: Word): nat {
    if texts == [] then 0 else Total(texts[..|texts| - 1], w) + Count(texts[|texts| - 1], w)
  }

  function Sum(v: seq<int>): int {
    if v == [] then 0 else Sum(v[..|v| - 1]) + v[|v| - 1]
  }

  /** `reduce_function`: the loop over the values of a key. */
  method ReduceFunction(values: seq<int>) returns (sum: int)
    ensures sum == Sum(values)
  {
    sum := 0;
    for i := 0 to |values|
      invariant sum == Sum(values[..i])
    {
      assert values[..i + 1][..i] == values[..i];
      sum := sum + values[i];
    }
    assert values[..|values|] == values;
  }

  lemma SumSnoc(v: seq<int>, x: int)
    ensures Sum(v + [x]) == Sum(v) + x
  {
    assert (v + [x])[..|v|] == v;
  }

  /** The counts of the first words, as the mapper collects them. */
  ghost predicate Collected(kv: map<Word, seq<int>>, words: multiset<Word>) {
    && (forall w :: w in kv <==> words[w] > 0)
    && forall w :: w in kv ==> Sum(kv[w]) == words[w]
  }

  /** `emit` in the map phase. */
  function Emit(kv: map<Word, seq<int>>, w: Word): map<Word, seq<int>> {
    kv[w := (if w in kv then kv[w] else []) + [1]]
  }

  lemma EmitCounts(kv: map<Word, seq<int>>, words: multiset<Word>, w: Word)
    requires Collected(kv, words)
    ensures Collected(Emit(kv, w), words + multiset{w})
  {
    SumSnoc(if w in kv then kv[w] else [], 1);
  }

  /** `map_function`: every word collects a 1 per occurrence. */
  method MapFunction(text: string) returns (kv: map<Word, seq<int>>)
    ensures Collected(kv, multiset(Words(text)))
  {
    kv := map[];
    var words := Split(text, ' ');
    for i := 0 to |words|
      invariant Collected(kv, multiset(words[..i]))
    {
      EmitCounts(kv, multiset(words[..i]), words[i]);
      kv := Emit(kv, words[i]);
      assert words[..i + 1] == words[..i] + [words[i]];
    }
    assert words[..|words|] == words;
  }

  // -------------------------------------------------------------------- records

  datatype Record = Record(key: Word, count: nat)

  function Line(r: Record): string {
    r.key + "," + Decimal(r.count) + ";"
  }

  function Serialise(recs: seq<Record>): string {
    if recs == [] then [] else Serialise(recs[..|recs| - 1]) + Line(recs[|recs| - 1])
  }

  type Input = map<Word, seq<int>>

  /** `stoi` on what a mapper writes. */
  function ValueOf(val: string): nat { if IsDigits(val) then Parse(val) else 0 }

  /** What the reducer does with one record. */
  function Put(input: Input, key: string, val: string): Input {
    if key == [] then input
    else if val == [] then input[key := []]
    else input[key := (if key in input then input[key] else []) + [ValueOf(val)]]
  }

  /** The scanner: the pending key, where key and value start, and what has been collected. */
  datatype Scanner = Scanner(key: string, keyStart: nat, valStart: nat, input: Input)

  predicate Within(st: Scanner, i: nat) {
    st.keyStart <= i && st.valStart <= i
  }

  function Advance(s: string, i: nat, st: Scanner): (r: Scanner)
    requires i < |s| && Within(st, i)
    ensures Within(r, i + 1)
  {
    if s[i] == ',' then st.(key := s[st.keyStart..i], valStart := i + 1)
    else if s[i] == ';' then
      Scanner([], i + 1, st.valStart, Put(st.input, st.key, s[st.valStart..i]))
    else st
  }

  function Scan(s: string, n: nat, input: Input): (r: Scanner)
    requires n <= |s|
    ensures Within(r, n)
  {
    if n == 0 then Scanner([], 0, 0, input) else Advance(s, n - 1, Scan(s, n - 1, input))
  }

  /** The record loop of the reducer, up to the end of the C string. */
  method ParseRecords(s: string, input: Input) returns (input': Input)
    ensures input' == Scan(s, IndexOf(s, '\0'), input).input
  {
    input' := input;
    var key: string, keyStart, valStart := [], 0, 0;
    var i := 0;
    while i < |s| && s[i] != '\0'
      invariant i <= IndexOf(s, '\0')
      invariant keyStart <= i && valStart <= i
      invariant Scanner(key, keyStart, valStart, input') == Scan(s, i, input)
    {
      if s[i] == ',' {
        key := s[keyStart..i];
        valStart := i + 1;
      } else if s[i] == ';' {
        var val := s[valStart..i];
        if key != [] {
          if val == [] {
            input' := input'[key := []];
          } else {
            input' := input'[key := (if key in input' then input'[key] else []) + [ValueOf(val)]];
          }
        }
        keyStart := i + 1;
        key := [];
      }
      i := i + 1;
    }
  }

  lemma SliceOfPrefix(s: string, t: string, a: nat, b: nat)
    requires a <= b <= |s|
    ensures (s + t)[a..b] == s[a..b]
  {
  }

  /** The scanner sees only what it has read. */
  lemma {:induction false} ScanPrefix(s: string, t: string, n: nat, input: Input)
    requires n <= |s|
    ensures Scan(s + t, n, input) == Scan(s, n, input)
  {
    if n > 0 {
      ScanPrefix(s, t, n - 1, input);
      var st := Scan(s, n - 1, input);
      SliceOfPrefix(s, t, st.keyStart, n - 1);
      SliceOfPrefix(s, t, st.valStart, n - 1);
      assert (s + t)[n - 1] == s[n - 1];
    }
  }

  /** Over a stretch without ';' nothing is collected and the key start stays. */
  lemma {:induction false} ScanKey(s: string, a: nat, n: nat, input: Input)
    requires a <= n <= |s| && forall i :: a <= i < n ==> s[i] != ';'
    ensures Scan(s, n, input).input == Scan(s, a, input).input && Scan(s, n, input).keyStart == Scan(s, a, input).keyStart
  {
    if a < n { ScanKey(s, a, n - 1, input); }
  }

  /** Over a stretch without ',' and ';' nothing changes. */
  lemma {:induction false} ScanValue(s: string, a: nat, n: nat, input: Input)
    requires a <= n <= |s| && forall i :: a <= i < n ==> s[i] != ';' && s[i] != ','
    ensures Scan(s, n, input) == Scan(s, a, input)
  {
    if a < n { ScanValue(s, a, n - 1, input); }
  }

  lemma ScanComma(t: string, a: nat, b: nat, input: Input)
    requires a <= b < |t| && t[b] == ',' && Scan(t, b, input).keyStart == a
    ensures Scan(t, b + 1, input) == Scanner(t[a..b], a, b + 1, Scan(t, b, input).input)
  {
  }

  lemma ScanSemicolon(t: string, c: nat, st: Scanner, input: Input)
    requires c < |t| && t[c] == ';' && st == Scan(t, c, input)
    ensures Scan(t, c + 1, input) == Scanner([], c + 1, st.valStart, Put(st.input, st.key, t[st.valStart..c]))
  {
  }

  /** A record is read back whole, even when its key holds commas. */
  lemma ScanRecord(t: string, a: nat, b: nat, c: nat, input: Input)
    requires a <= b < c < |t| && Scan(t, a, input).keyStart == a && t[b] == ',' && t[c] == ';'
    requires (forall i :: a <= i < b ==> t[i] != ';') && forall i :: b < i < c ==> t[i] != ';' && t[i] != ','
    ensures Scan(t, c + 1, input) == Scanner([], c + 1, b + 1, Put(Scan(t, a, input).input, t[a..b], t[b + 1..c]))
  {
    ScanKey(t, a, b, input);
    ScanComma(t, a, b, input);
    ScanValue(t, b + 1, c, input);
    ScanSemicolon(t, c, Scan(t, c, input), input);
  }

  /** The shape of a record: the key ends at `b`, the value at the closing ';'. */
  ghost predicate IsLine(line: string, b: nat) {
    && b + 1 < |line| && line[b] == ',' && line[|line| - 1] == ';'
    && (forall i :: 0 <= i < b ==> line[i] != ';') && forall i :: b < i < |line| - 1 ==> line[i] != ';' && line[i] != ','
  }

  lemma LineParts(key: string, val: string)
    requires Free(key, ';') && IsDigits(val)
    ensures var line := key + "," + val + ";";
            IsLine(line, |key|) && line[..|key|] == key && line[|key| + 1..|line| - 1] == val
  {
    var line := key + "," + val + ";";
    forall i | 0 <= i < |key| ensures line[i] != ';' { assert line[i] == key[i]; }
    forall i | |key| < i < |line| - 1 ensures line[i] != ';' && line[i] != ',' { assert line[i] == val[i - |key| - 1]; }
  }

  lemma SliceOfSuffix(s: string, t: string, a: nat, b: nat)
    requires a <= b <= |t|
    ensures (s + t)[|s| + a..|s| + b] == t[a..b]
  {
  }

  /** A line that follows `s`. */
  lemma LineAt(s: string, line: string, key: string, val: string)
    requires IsLine(line, |key|) && line[..|key|] == key && line[|key| + 1..|line| - 1] == val
    ensures var t, a, c := s + line, |s|, |s| + |line| - 1;
            var b := a + |key|;
            && |t| == c + 1 && t[b] == ',' && t[c] == ';' && t[a..b] == key && t[b + 1..c] == val
            && (forall i :: a <= i < b ==> t[i] != ';') && forall i :: b < i < c ==> t[i] != ';' && t[i] != ','
  {
    SliceOfSuffix(s, line, 0, |key|);
    SliceOfSuffix(s, line, |key| + 1, |line| - 1);
  }

  lemma ScanPart(t: string, a: nat, b: nat, c: nat, input: Input, key: string, val: string, before: Input)
    requires a <= b < c < |t| && t[b] == ',' && t[c] == ';' && t[a..b] == key && t[b + 1..c] == val
    requires (forall i :: a <= i < b ==> t[i] != ';') && forall i :: b < i < c ==> t[i] != ';' && t[i] != ','
    requires Scan(t, a, input).keyStart == a && Scan(t, a, input).input == before
    ensures Scan(t, c + 1, input) == Scanner([], c + 1, b + 1, Put(before, key, val))
  {
    ScanRecord(t, a, b, c, input);
  }

  function PutAll(input: Input, recs: seq<Record>): Input {
    if recs == [] then input
    else Put(PutAll(input, recs[..|recs| - 1]), recs[|recs| - 1].key, Decimal(recs[|recs| - 1].count))
  }

  ghost predicate Clean(recs: seq<Record>) {
    forall i :: 0 <= i < |recs| ==> Free(recs[i].key, ';')
  }

  lemma ScanNext(s: string, line: string, key: string, val: string, input: Input)
    requires IsLine(line, |key|) && line[..|key|] == key && line[|key| + 1..|line| - 1] == val
    requires Scan(s, |s|, input).keyStart == |s|
    ensures Scan(s + line, |s + line|, input).input == Put(Scan(s, |s|, input).input, key, val)
    ensures Scan(s + line, |s + line|, input).keyStart == |s + line|
  {
    ScanPrefix(s, line, |s|, input);
    LineAt(s, line, key, val);
    ScanPart(s + line, |s|, |s| + |key|, |s| + |line| - 1, input, key, val, Scan(s, |s|, input).input);
  }

  /** Parsing inverts serialisation for keys without ';'. */
  lemma {:induction false} ScanSerialised(recs: seq<Record>, input: Input)
    requires Clean(recs)
    ensures var s := Serialise(recs);
            Scan(s, |s|, input).input == PutAll(input, recs) && Scan(s, |s|, input).keyStart == |s|
  {
    if recs != [] {
      var r := recs[|recs| - 1];
      ScanSerialised(recs[..|recs| - 1], input);
      LineParts(r.key, Decimal(r.count));
      ScanNext(Serialise(recs[..|recs| - 1]), Line(r), r.key, Decimal(r.count), input);
    }
  }

  // ------------------------------------------------------------------ the mapper

  function CountIn(recs: seq<Record>, w: Word): nat {
    if recs == [] then 0
    else CountIn(recs[..|recs| - 1], w) + if recs[|recs| - 1].key == w then recs[|recs| - 1].count else 0
  }

  ghost predicate HasKey(recs: seq<Record>, w: Word) {
    exists i :: 0 <= i < |recs| && recs[i].key == w
  }

  ghost predicate Writable(recs: seq<Record>) {
    forall i :: 0 <= i < |recs| ==> Free(recs[i].key, ';') && Free(recs[i].key, '\0')
  }

  /** For each of the given words that belongs to reducer `r`, the records carry its count in the text. */
  ghost predicate Tells(text: string, words: set<Word>, part: Word -> int, r: int, recs: seq<Record>, w: Word) {
    && CountIn(recs, w) == (if w in words && part(w) == r then Count(text, w) else 0)
    && (HasKey(recs, w) <==> w in words && part(w) == r)
  }

  ghost predicate Describes(text: string, words: set<Word>, part: Word -> int, r: int, recs: seq<Record>) {
    Writable(recs) && forall w {:trigger HasKey(recs, w)} {:trigger CountIn(recs, w)} :: Tells(text, words, part, r, recs, w)
  }

  ghost function Of(recs: map<int, seq<Record>>, r: int): seq<Record> {
    if r in recs then recs[r] else []
  }

  lemma RecordAdded(recs: seq<Record>, x: Record, w: Word)
    ensures CountIn(recs + [x], w) == CountIn(recs, w) + if x.key == w then x.count else 0
    ensures HasKey(recs + [x], w) <==> HasKey(recs, w) || x.key == w
  {
    var all := recs + [x];
    assert all[..|recs|] == recs;
    if HasKey(recs, w) {
      var i :| 0 <= i < |recs| && recs[i].key == w;
      assert all[i].key == w;
    }
    if x.key == w { assert all[|recs|].key == w; }
    if HasKey(all, w) && x.key != w {
      var i :| 0 <= i < |all| && all[i].key == w;
      assert recs[i].key == w;
    }
  }

  /** Writing one more word. */
  lemma DescribesMore(text: string, words: set<Word>, part: Word -> int, r: int, recs: seq<Record>, w: Word)
    requires Describes(text, words, part, r, recs) && w !in words && Free(w, ';') && Free(w, '\0')
    ensures Describes(text, words + {w}, part, r, if part(w) == r then recs + [Record(w, Count(text, w))] else recs)
  {
    var recs' := if part(w) == r then recs + [Record(w, Count(text, w))] else recs;
    forall x ensures Tells(text, words + {w}, part, r, recs', x) {
      assert Tells(text, words, part, r, recs, x);
      RecordAdded(recs, Record(w, Count(text, w)), x);
    }
  }

  lemma WordsWritable(text: string, w: Word)
    requires Free(text, ';') && Free(text, '\0') && Count(text, w) > 0
    ensures Free(w, ';') && Free(w, '\0')
  {
    FieldsFree(text, ' ', ';');
    FieldsFree(text, ' ', '\0');
    assert w in multiset(Words(text));
    assert w in Words(text);
  }

  /** All reducers' objects describe the words written so far. */
  ghost predicate Written(text: string, words: set<Word>, part: Word -> int, objs: map<int, string>, recs: map<int, seq<Record>>) {
    && objs.Keys == recs.Keys
    && forall r {:trigger Of(recs, r)} ::
         Describes(text, words, part, r, Of(recs, r)) && (r in objs ==> objs[r] == Serialise(Of(recs, r)))
  }

  function ObjectAfter(objs: map<int, string>, r: int, x: Record): map<int, string> {
    objs[r := (if r in objs then objs[r] else []) + Line(x)]
  }

  lemma SerialiseSnoc(recs: seq<Record>, x: Record)
    ensures Serialise(recs + [x]) == Serialise(recs) + Line(x)
  {
    assert (recs + [x])[..|recs|] == recs;
  }

  lemma WrittenNothing(text: string, part: Word -> int)
    ensures Written(text, {}, part, map[], map[])
  {
    forall w ensures CountIn([], w) == 0 && !HasKey([], w) {}
    forall r ensures Describes(text, {}, part, r, []) {
      forall w ensures Tells(text, {}, part, r, [], w) {}
    }
  }

  /** Appends one record to the object of its reducer. */
  method Write(objs: map<int, string>, r: int, w: Word, sum: nat) returns (objs': map<int, string>)
    ensures objs' == ObjectAfter(objs, r, Record(w, sum))
  {
    objs' := if r in objs then objs else objs[r := []];
    objs' := objs'[r := objs'[r] + (w + "," + Decimal(sum) + ";")];
  }

  lemma WrittenMore(text: string, words: set<Word>, part: Word -> int, objs: map<int, string>, recs: map<int, seq<Record>>, w: Word)
    requires Written(text, words, part, objs, recs) && w !in words && Free(w, ';') && Free(w, '\0')
    ensures var x := Record(w, Count(text, w));
            Written(text, words + {w}, part, ObjectAfter(objs, part(w), x), recs[part(w) := Of(recs, part(w)) + [x]])
  {
    var x := Record(w, Count(text, w));
    var objs', recs' := ObjectAfter(objs, part(w), x), recs[part(w) := Of(recs, part(w)) + [x]];
    SerialiseSnoc(Of(recs, part(w)), x);
    forall r ensures r in objs' ==> objs'[r] == Serialise(Of(recs', r)) { assert Of(recs, r) == Of(recs, r); }
    forall r ensures Describes(text, words + {w}, part, r, Of(recs', r)) {
      DescribesMore(text, words, part, r, Of(recs, r), w);
    }
  }

  /** Exactly the reducers that get a word have an object, and it serialises records with the counts of their words. */
  ghost predicate Carries(text: string, part: Word -> int, objs: map<int, string>, r: int) {
    exists recs {:trigger Serialise(recs)} ::
      && (if r in objs then objs[r] == Serialise(recs) else recs == [])
      && Writable(recs) && Reports(text, part, r, recs)
  }

  ghost predicate Reports(text: string, part: Word -> int, r: int, recs: seq<Record>) {
    forall w {:trigger CountIn(recs, w)} {:trigger HasKey(recs, w)} ::
      && CountIn(recs, w) == (if part(w) == r then Count(text, w) else 0)
      && (HasKey(recs, w) <==> part(w) == r && Count(text, w) > 0)
  }

  /** The counts of a text, as the mapper collects them. */
  ghost predicate Counts(text: string, kv: map<Word, seq<int>>) {
    && (forall w :: w in kv <==> Count(text, w) > 0)
    && forall w :: w in kv ==> Sum(kv[w]) == Count(text, w)
  }

  lemma WrittenNext(text: string, kv: map<Word, seq<int>>, todo: set<Word>, part: Word -> int,
                    objs: map<int, string>, recs: map<int, seq<Record>>, w: Word)
    requires Counts(text, kv) && Free(text, ';') && Free(text, '\0')
    requires todo <= kv.Keys && w in todo && Written(text, kv.Keys - todo, part, objs, recs)
    ensures var x := Record(w, Count(text, w));
            Written(text, kv.Keys - (todo - {w}), part, ObjectAfter(objs, part(w), x), recs[part(w) := Of(recs, part(w)) + [x]])
  {
    WordsWritable(text, w);
    WrittenMore(text, kv.Keys - todo, part, objs, recs, w);
    assert kv.Keys - todo + {w} == kv.Keys - (todo - {w});
  }

  /** The combine loop, in whatever order the hash map lists its keys. */
  method Combine(text: string, kv: map<Word, seq<int>>, part: Word -> int) returns (objs: map<int, string>, ghost recs: map<int, seq<Record>>)
    requires Counts(text, kv) && Free(text, ';') && Free(text, '\0')
    ensures Written(text, kv.Keys, part, objs, recs)
  {
    objs, recs := map[], map[];
    var todo := kv.Keys;
    WrittenNothing(text, part);
    assert kv.Keys - todo == {};
    while todo != {}
      invariant todo <= kv.Keys && Written(text, kv.Keys - todo, part, objs, recs)
      decreases |todo|
    {
      var w :| w in todo;
      var sum := ReduceFunction(kv[w]);
      WrittenNext(text, kv, todo, part, objs, recs, w);
      objs := Write(objs, part(w), w, sum);
      recs := recs[part(w) := Of(recs, part(w)) + [Record(w, sum)]];
      todo := todo - {w};
    }
    assert kv.Keys - todo == kv.Keys;
  }

  /** The mapper: count, combine, partition and serialise. */
  method MapTask(text: string, part: Word -> int) returns (objs: map<int, string>)
    requires Free(text, ';') && Free(text, '\0')
    ensures forall r :: Carries(text, part, objs, r)
  {
    var kv := MapFunction(text);
    ghost var recs;
    objs, recs := Combine(text, kv, part);
    forall r ensures Carries(text, part, objs, r) { AllWritten(text, kv.Keys, part, objs, recs, r); }
  }

  lemma AllWritten(text: string, words: set<Word>, part: Word -> int, objs: map<int, string>, recs: map<int, seq<Record>>, r: int)
    requires Written(text, words, part, objs, recs) && forall w :: w in words <==> Count(text, w) > 0
    ensures Carries(text, part, objs, r)
  {
    var rs := Of(recs, r);
    forall w ensures CountIn(rs, w) == (if part(w) == r then Count(text, w) else 0)
                     && (HasKey(rs, w) <==> part(w) == r && Count(text, w) > 0)
    {
      assert Tells(text, words, part, r, rs, w);
    }
    assert Serialise(rs) == Serialise(rs);
  }

  // ----------------------------------------------------------------- the reducer

  function SumAt(input: Input, w: Word): int {
    if w in input then Sum(input[w]) else 0
  }

  lemma PutAt(input: Input, key: string, n: nat, w: Word)
    ensures var input' := Put(input, key, Decimal(n));
            && (w in input' <==> w in input || (w == key && w != []))
            && SumAt(input', w) == SumAt(input, w) + if w == key && w != [] then n else 0
  {
    ParseDecimal(n);
    if w == key && w != [] { SumSnoc(if key in input then input[key] else [], n); }
  }

  /** Records add up per key; the empty key is dropped. */
  lemma {:induction false} PutAllAt(input: Input, recs: seq<Record>, w: Word)
    ensures var input' := PutAll(input, recs);
            && (w in input' <==> w in input || (w != [] && HasKey(recs, w)))
            && SumAt(input', w) == SumAt(input, w) + if w != [] then CountIn(recs, w) else 0
  {
    if recs != [] {
      var init, r := recs[..|recs| - 1], recs[|recs| - 1];
      PutAllAt(input, init, w);
      PutAt(PutAll(input, init), r.key, r.count, w);
      RecordAdded(init, r, w);
      assert recs == init + [r];
    }
  }

  lemma LineFree(r: Record, c: char)
    requires Free(r.key, c) && c != ',' && c != ';' && !('0' <= c <= '9')
    ensures Free(Line(r), c)
  {
  }

  lemma {:induction false} SerialiseFree(recs: seq<Record>)
    requires Writable(recs)
    ensures Free(Serialise(recs), '\0')
  {
    if recs != [] {
      SerialiseFree(recs[..|recs| - 1]);
      LineFree(recs[|recs| - 1], '\0');
    }
  }

  /** What the reducer has collected from the first texts. */
  ghost predicate Holds(input: Input, texts: seq<string>, part: Word -> int, r: int) {
    forall w {:trigger w in input} {:trigger SumAt(input, w)} ::
      && (w in input <==> w != [] && part(w) == r && Total(texts, w) > 0)
      && SumAt(input, w) == if w != [] && part(w) == r then Total(texts, w) else 0
  }

  lemma TotalSnoc(texts: seq<string>, m: nat, w: Word)
    requires m < |texts|
    ensures Total(texts[..m + 1], w) == Total(texts[..m], w) + Count(texts[m], w)
  {
    assert texts[..m + 1][..m] == texts[..m];
  }

  lemma HoldsMore(input: Input, texts: seq<string>, m: nat, part: Word -> int, r: int, recs: seq<Record>)
    requires m < |texts| && Holds(input, texts[..m], part, r) && Reports(texts[m], part, r, recs)
    ensures Holds(PutAll(input, recs), texts[..m + 1], part, r)
  {
    var input' := PutAll(input, recs);
    forall w ensures (w in input' <==> w != [] && part(w) == r && Total(texts[..m + 1], w) > 0)
                     && SumAt(input', w) == if w != [] && part(w) == r then Total(texts[..m + 1], w) else 0
    {
      PutAllAt(input, recs, w);
      TotalSnoc(texts, m, w);
      assert SumAt(input, w) == if w != [] && part(w) == r then Total(texts[..m], w) else 0;
      assert CountIn(recs, w) == if part(w) == r then Count(texts[m], w) else 0;
    }
  }

  lemma ParsedIs(s: string, recs: seq<Record>, input: Input)
    requires s == Serialise(recs) && Writable(recs)
    ensures Scan(s, IndexOf(s, '\0'), input).input == PutAll(input, recs)
  {
    SerialiseFree(recs);
    ScanSerialised(recs, input);
  }

  /** Parses one mapper's object, if it sent one. */
  method Ingest(objs: map<int, string>, r: int, input: Input, ghost texts: seq<string>, ghost m: nat, ghost part: Word -> int)
    returns (input': Input)
    requires m < |texts| && Holds(input, texts[..m], part, r) && Carries(texts[m], part, objs, r)
    ensures Holds(input', texts[..m + 1], part, r)
  {
    ghost var recs :| (if r in objs then objs[r] == Serialise(recs) else recs == [])
                      && Writable(recs) && Reports(texts[m], part, r, recs);
    HoldsMore(input, texts, m, part, r, recs);
    if r in objs {
      ParsedIs(objs[r], recs, input);
      input' := ParseRecords(objs[r], input);
    } else {
      input' := input;
    }
  }

  /** The reducer: every word of its share with its total over all inputs, and nothing else. */
  method ReduceTask(maps: seq<map<int, string>>, r: int, ghost texts: seq<string>, ghost part: Word -> int)
    returns (out: map<Word, int>)
    requires |maps| == |texts| && forall m :: 0 <= m < |maps| ==> Carries(texts[m], part, maps[m], r)
    ensures forall w :: w in out <==> w != [] && part(w) == r && Total(texts, w) > 0
    ensures forall w :: w in out ==> out[w] == Total(texts, w)
  {
    var input: Input := map[];
    for m := 0 to |maps|
      invariant Holds(input, texts[..m], part, r)
    {
      input := Ingest(maps[m], r, input, texts, m, part);
    }
    assert texts[..|texts|] == texts;
    out := ReduceAll(input);
    forall w ensures (w in out <==> w != [] && part(w) == r && Total(texts, w) > 0) && (w in out ==> out[w] == Total(texts, w)) {
      assert w in input <==> w in out;
      assert SumAt(input, w) == if w != [] && part(w) == r then Total(texts, w) else 0;
    }
  }

  method ReduceAll(input: Input) returns (out: map<Word, int>)
    ensures out.Keys == input.Keys && forall w :: w in input ==> out[w] == SumAt(input, w)
  {
    out := map[];
    var todo := input.Keys;
    while todo != {}
      invariant todo <= input.Keys && out.Keys == input.Keys - todo
      invariant forall w :: w in out ==> out[w] == SumAt(input, w)
      decreases |todo|
    {
      var w :| w in todo;
      var sum := ReduceFunction(input[w]);
      out := out[w := sum];
      todo := todo - {w};
    }
  }

  /**
   The whole job.  Every non-empty word comes out of exactly the reducer its hash
   selects, with the number of its occurrences over all inputs.
   */
  method RunJob(texts: seq<string>, part: Word -> int, reducers: nat) returns (outs: seq<map<Word, int>>)
    requires forall m :: 0 <= m < |texts| ==> Free(texts[m], ';') && Free(texts[m], '\0')
    requires forall w :: 0 <= part(w) < reducers
    ensures |outs| == reducers
    ensures forall r, w :: 0 <= r < reducers ==> (w in outs[r] <==> w != [] && part(w) == r && Total(texts, w) > 0)
    ensures forall r, w :: 0 <= r < reducers && w in outs[r] ==> outs[r][w] == Total(texts, w)
  {
    var maps: seq<map<int, string>> := [];
    for m := 0 to |texts|
      invariant |maps| == m && forall l, r :: 0 <= l < m ==> Carries(texts[l], part, maps[l], r)
    {
      var objs := MapTask(texts[m], part);
      maps := maps + [objs];
    }
    outs := [];
    for r := 0 to reducers
      invariant |outs| == r
      invariant forall q, w :: 0 <= q < r ==> (w in outs[q] <==> w != [] && part(w) == q && Total(texts, w) > 0)
      invariant forall q, w :: 0 <= q < r && w in outs[q] ==> outs[q][w] == Total(texts, w)
    {
      var out := ReduceTask(maps, r, texts, part);
      outs := outs + [out];
    }
  }
}
