/** The key normaliser (src/normalizer.py): field names are cleaned into
    snake_case and then matched against an ordered registry of canonical
    names, which grows by appending the names that match nothing. */
module Normalizer {
  import opened Text
  import opened Json

  predicate IsAsciiUpper(c: char)
  {
    'A' <= c <= 'Z'
  }

  predicate IsAsciiLower(c: char)
  {
    'a' <= c <= 'z'
  }

  /** The class `[a-z0-9]` of the camelCase pattern. */
  predicate IsLowerOrDigit(c: char)
  {
    IsAsciiLower(c) || IsDigit(c)
  }

  /** Position `i` starts a new word: an upper-case letter right after a
      lower-case letter or a digit. */
  predicate Boundary(s: string, i: int)
  {
    0 < i < |s| && IsLowerOrDigit(s[i - 1]) && IsAsciiUpper(s[i])
  }

  /** `re.sub('([a-z0-9])([A-Z])', r'\1_\2', s)`. The matches of that
      pattern cannot overlap (the second character of a match is upper-case,
      the first one of a match is not), so scanning left to right and
      inserting `_` inside every adjacent pair that fits is the same thing. */
  function SplitCamel(s: string): string
  {
    if |s| < 2 then s
    else if IsLowerOrDigit(s[0]) && IsAsciiUpper(s[1]) then [s[0], '_'] + SplitCamel(s[1..])
    else [s[0]] + SplitCamel(s[1..])
  }

  /** How many positions of `s` start a new word. */
  function BoundaryCount(s: string): nat
  {
    if |s| < 2 then 0
    else (if Boundary(s, 1) then 1 else 0) + BoundaryCount(s[1..])
  }

  /** `s` with every `_` removed. */
  function WithoutUnderscores(s: string): string
  {
    if s == [] then []
    else (if s[0] == '_' then [] else [s[0]]) + WithoutUnderscores(s[1..])
  }

  /** Splitting adds exactly one character per word boundary, and every
      character it adds is an underscore. */
  lemma {:induction false} SplitCamelInsertsUnderscores(s: string)
    ensures |SplitCamel(s)| == |s| + BoundaryCount(s)
    ensures WithoutUnderscores(SplitCamel(s)) == WithoutUnderscores(s)
  {
    if |s| >= 2 {
      SplitCamelInsertsUnderscores(s[1..]);
      var t := SplitCamel(s[1..]);
      assert Boundary(s, 1) <==> IsLowerOrDigit(s[0]) && IsAsciiUpper(s[1]);
      if Boundary(s, 1) {
        assert ([s[0], '_'] + t)[1..] == ['_'] + t;
        assert (['_'] + t)[1..] == t;
      } else {
        assert ([s[0]] + t)[1..] == t;
      }
    }
  }

  /** Where the underscores go: splitting a concatenation splits each part,
      and puts one `_` at the junction exactly when the last character of the
      first part and the first of the second form a word boundary. */
  lemma {:induction false} SplitCamelJunction(a: string, b: string)
    ensures SplitCamel(a + b) == SplitCamel(a)
      + (if a != [] && b != [] && IsLowerOrDigit(a[|a| - 1]) && IsAsciiUpper(b[0]) then "_" else "")
      + SplitCamel(b)
  {
    if a == [] {
      assert a + b == b;
    } else if b == [] {
      assert a + b == a;
    } else if |a| == 1 {
      assert a + b == [a[0]] + b;
      SplitCamelCons(a[0], b);
    } else {
      var tail := a[1..];
      assert a == [a[0]] + tail;
      assert a + b == [a[0]] + (tail + b);
      assert (tail + b)[0] == tail[0];
      assert tail[|tail| - 1] == a[|a| - 1];
      var p := if IsLowerOrDigit(a[0]) && IsAsciiUpper(tail[0]) then [a[0], '_'] else [a[0]];
      var j := if IsLowerOrDigit(a[|a| - 1]) && IsAsciiUpper(b[0]) then "_" else "";
      SplitCamelCons(a[0], tail);
      SplitCamelCons(a[0], tail + b);
      SplitCamelJunction(tail, b);
      var x, y := SplitCamel(tail), SplitCamel(b);
      assert SplitCamel(a + b) == p + (x + j + y);
      assert p + (x + j + y) == (p + x) + j + y;
    }
  }

  /** Splitting changes a string exactly when it has a word boundary. */
  lemma {:induction false} SplitCamelIdentity(s: string)
    ensures SplitCamel(s) == s <==> BoundaryCount(s) == 0
  {
    SplitCamelInsertsUnderscores(s);
    if |s| >= 2 {
      SplitCamelIdentity(s[1..]);
      if BoundaryCount(s) == 0 {
        assert s == [s[0]] + s[1..];
      }
    }
  }

  /** `.lower()` on ASCII letters followed by `.replace(" ", "_")`. */
  function CleanChar(c: char): (d: char)
    ensures !IsAsciiUpper(d) && d != ' '
    ensures IsAsciiUpper(c) ==> d as int == c as int + 32
    ensures c == ' ' ==> d == '_'
    ensures !IsAsciiUpper(c) && c != ' ' ==> d == c
  {
    if c == ' ' then '_'
    else if IsAsciiUpper(c) then (c as int + 32) as char
    else c
  }

  /** The cleaning half of `normalize_key`: split camelCase and PascalCase
      words with `_`, lower-case, and turn spaces into `_`. */
  function CleanKey(key: string): (clean: string)
    ensures forall i :: 0 <= i < |clean| ==> !IsAsciiUpper(clean[i]) && clean[i] != ' '
  {
    var t := SplitCamel(key);
    seq(|t|, i requires 0 <= i < |t| => CleanChar(t[i]))
  }

  /** A string without upper-case letters has no word boundary. */
  lemma {:induction false} NoUpperNoBoundary(s: string)
    requires forall i :: 0 <= i < |s| ==> !IsAsciiUpper(s[i])
    ensures BoundaryCount(s) == 0
  {
    if |s| >= 2 {
      NoUpperNoBoundary(s[1..]);
    }
  }

  /** A key without upper-case letters and spaces is already clean. */
  lemma CleanKeyFixed(s: string)
    requires forall i :: 0 <= i < |s| ==> !IsAsciiUpper(s[i]) && s[i] != ' '
    ensures CleanKey(s) == s
  {
    NoUpperNoBoundary(s);
    SplitCamelIdentity(s);
  }

  /** Cleaning is idempotent: a cleaned key cleans to itself. */
  lemma CleanKeyIdempotent(key: string)
    ensures CleanKey(CleanKey(key)) == CleanKey(key)
  {
    CleanKeyFixed(CleanKey(key));
  }

  /** The similarity ratio of difflib's `SequenceMatcher(a, b).ratio()`,
      assumed only to lie in [0, 1] and to be 1 exactly for equal strings. */
  ghost predicate RatioLaws(ratio: (string, string) -> real)
  {
    forall a, b :: 0.0 <= ratio(a, b) <= 1.0 && (ratio(a, b) == 1.0 <==> a == b)
  }

  /** Candidate `a` ranks above candidate `b` when the tuple
      `(ratio(a, word), a)` is greater than `(ratio(b, word), b)`, the order
      in which `get_close_matches` picks its best candidates. */
  predicate Outranks(ratio: (string, string) -> real, word: string, a: string, b: string)
  {
    ratio(a, word) > ratio(b, word) || (ratio(a, word) == ratio(b, word) && StrLess(b, a))
  }

  lemma OutranksTransitive(ratio: (string, string) -> real, word: string, a: string, b: string, c: string)
    requires Outranks(ratio, word, a, b) && Outranks(ratio, word, b, c)
    ensures Outranks(ratio, word, a, c)
  {
    if ratio(a, word) == ratio(b, word) == ratio(c, word) {
      StrLessTransitive(c, b, a);
    }
  }

  lemma OutranksTotal(ratio: (string, string) -> real, word: string, a: string, b: string)
    ensures a == b || Outranks(ratio, word, a, b) || Outranks(ratio, word, b, a)
  {
    StrLessTotal(a, b);
  }

  lemma OutranksAsymmetric(ratio: (string, string) -> real, word: string, a: string, b: string)
    ensures Outranks(ratio, word, a, b) ==> !Outranks(ratio, word, b, a)
  {
    StrLessAsymmetric(a, b);
  }

  /** `get_close_matches(word, possibilities, n=1, cutoff)`: the best-ranked
      candidate whose ratio reaches the cutoff, or none. Candidates are
      scanned in order and a later one replaces the current best only when
      it ranks strictly higher. */
  function CloseMatch(ratio: (string, string) -> real, possibilities: seq<string>, word: string, cutoff: real): (r: Option<string>)
    ensures r.Some? ==> r.value in possibilities && ratio(r.value, word) >= cutoff
    ensures r.Some? ==> forall e :: e in possibilities && ratio(e, word) >= cutoff ==>
                          e == r.value || Outranks(ratio, word, r.value, e)
    ensures r.None? <==> forall e :: e in possibilities ==> ratio(e, word) < cutoff
  {
    if possibilities == [] then None
    else
      var init := possibilities[..|possibilities| - 1];
      var x := possibilities[|possibilities| - 1];
      assert possibilities == init + [x];
      var best := CloseMatch(ratio, init, word, cutoff);
      if ratio(x, word) < cutoff then best
      else if best.None? || Outranks(ratio, word, x, best.value) then
        assert forall e :: e in possibilities && ratio(e, word) >= cutoff ==>
                 e == x || Outranks(ratio, word, x, e) by {
          forall e | e in possibilities && ratio(e, word) >= cutoff
            ensures e == x || Outranks(ratio, word, x, e)
          {
            if e != x && best.Some? && e != best.value {
              OutranksTransitive(ratio, word, x, best.value, e);
            }
          }
        }
        Some(x)
      else
        assert x == best.value || Outranks(ratio, word, best.value, x) by {
          OutranksTotal(ratio, word, x, best.value);
        }
        best
  }

  /** An exact registry entry is always its own best match: its ratio is 1,
      and every other entry's is below 1. */
  lemma CloseMatchExact(ratio: (string, string) -> real, possibilities: seq<string>, word: string, cutoff: real)
    requires RatioLaws(ratio) && cutoff <= 1.0
    requires word in possibilities
    ensures CloseMatch(ratio, possibilities, word, cutoff) == Some(word)
  {
    assert ratio(word, word) == 1.0;
    forall e | e in possibilities && e != word ensures !Outranks(ratio, word, e, word) {
      assert ratio(e, word) < 1.0;
    }
  }

  /** The registry invariant: every entry is a cleaned key, and every entry
      scored below the cutoff against each entry that was there before it. */
  ghost predicate WellFormedRegistry(ratio: (string, string) -> real, cutoff: real, keys: seq<string>)
  {
    && (forall i :: 0 <= i < |keys| ==> CleanKey(keys[i]) == keys[i])
    && (forall i, j :: 0 <= i < j < |keys| ==> ratio(keys[i], keys[j]) < cutoff)
  }

  /** A well-formed registry holds no name twice. */
  lemma RegistryDistinct(ratio: (string, string) -> real, cutoff: real, keys: seq<string>)
    requires RatioLaws(ratio) && cutoff <= 1.0
    requires WellFormedRegistry(ratio, cutoff, keys)
    ensures Distinct(keys)
  {
    forall i, j | 0 <= i < j < |keys| ensures keys[i] != keys[j] {
      assert ratio(keys[i], keys[j]) < cutoff;
    }
  }

  /** Appending a cleaned key that matched nothing keeps the registry
      well-formed. */
  lemma AppendKeepsRegistry(ratio: (string, string) -> real, cutoff: real, keys: seq<string>, clean: string)
    requires WellFormedRegistry(ratio, cutoff, keys)
    requires CleanKey(clean) == clean
    requires CloseMatch(ratio, keys, clean, cutoff).None?
    ensures WellFormedRegistry(ratio, cutoff, keys + [clean])
  {
    var keys' := keys + [clean];
    forall i, j | 0 <= i < j < |keys'| ensures ratio(keys'[i], keys'[j]) < cutoff {
      if j == |keys| {
        assert keys'[i] in keys;
      }
    }
  }

  /** Every object key of `v`, at any depth, is in `keys`. */
  ghost predicate KeysIn(v: Value, keys: seq<string>)
    decreases v
  {
    match v
    case Array(items) => forall i :: 0 <= i < |items| ==> KeysIn(items[i], keys)
    case Object(fields) => forall i :: 0 <= i < |fields| ==> fields[i].0 in keys && KeysIn(fields[i].1, keys)
    case _ => true
  }

  lemma {:induction false} KeysInGrow(v: Value, keys: seq<string>, more: seq<string>)
    requires KeysIn(v, keys) && keys <= more
    ensures KeysIn(v, more)
    decreases v
  {
    match v
    case Array(items) =>
      forall i | 0 <= i < |items| ensures KeysIn(items[i], more) {
        KeysInGrow(items[i], keys, more);
      }
    case Object(fields) =>
      forall i | 0 <= i < |fields| ensures fields[i].0 in more && KeysIn(fields[i].1, more) {
        KeysInGrow(fields[i].1, keys, more);
      }
    case _ =>
  }

  /** `r` is `v` with object keys renamed: scalars are unchanged, a list keeps
      its length and order, and a dict becomes the dict built in order from
      one renamed (key, value) pair per entry, so that when two keys are
      renamed alike the later value wins. Each new key is a close match of
      the cleaned old key. Nothing is flattened. */
  ghost predicate Renamed(ratio: (string, string) -> real, cutoff: real, v: Value, r: Value)
    decreases v, 2
  {
    match v
    case Array(items) =>
      && r.Array? && |r.items| == |items|
      && forall i :: 0 <= i < |items| ==> Renamed(ratio, cutoff, items[i], r.items[i])
    case Object(fields) =>
      && r.Object?
      && exists ps: seq<(string, Value)> :: |ps| == |fields| && RenamedValues(ratio, cutoff, fields, ps) && r.fields == FromPairs(ps)
    case _ => r == v
  }

  class DynamicNormalizer {
    /** The registry of canonical names, in order of discovery. */
    var masterKeys: seq<string>
    const threshold: real
    const ratio: (string, string) -> real

    ghost predicate Valid()
      reads this
    {
      && RatioLaws(ratio)
      && 0.0 <= threshold <= 1.0
      && WellFormedRegistry(ratio, threshold, masterKeys)
    }

    /** `DynamicNormalizer(similarity_threshold)`; the source's default
        threshold is 0.85. difflib rejects a cutoff outside [0, 1] on the
        first lookup. */
    constructor (ratio: (string, string) -> real, similarityThreshold: real)
      requires RatioLaws(ratio)
      requires 0.0 <= similarityThreshold <= 1.0
      ensures Valid()
      ensures masterKeys == [] && threshold == similarityThreshold && this.ratio == ratio
    {
      this.masterKeys := [];
      this.threshold := similarityThreshold;
      this.ratio := ratio;
    }

    /** `normalize_key`: clean the key, then return its best match in the
        registry, or append the cleaned key and return it. */
    method NormalizeKey(key: string) returns (canonical: string)
      requires Valid()
      modifies this
      ensures Valid()
      ensures canonical in masterKeys
      ensures match CloseMatch(ratio, old(masterKeys), CleanKey(key), threshold)
              case Some(m) => canonical == m && masterKeys == old(masterKeys)
              case None => canonical == CleanKey(key) && masterKeys == old(masterKeys) + [CleanKey(key)]
      ensures key in old(masterKeys) ==> canonical == key && masterKeys == old(masterKeys)
      ensures ratio(canonical, CleanKey(key)) >= threshold
    {
      var clean := CleanKey(key);
      var matches := CloseMatch(ratio, masterKeys, clean, threshold);
      if key in masterKeys {
        CloseMatchExact(ratio, masterKeys, key, threshold);
      }
      if matches.Some? {
        canonical := matches.value;
      } else {
        CleanKeyIdempotent(key);
        AppendKeepsRegistry(ratio, threshold, masterKeys, clean);
        masterKeys := masterKeys + [clean];
        canonical := clean;
        assert ratio(clean, clean) == 1.0;
      }
    }

    /** `normalize_record`: rename every key of `v` at every depth, keys
        before their values and in order, threading the registry. */
    method NormalizeRecord(v: Value) returns (r: Value)
      requires Valid()
      modifies this
      ensures Valid()
      ensures old(masterKeys) <= masterKeys
      ensures Renamed(ratio, threshold, v, r)
      ensures KeysIn(r, masterKeys)
      decreases v, 1
    {
      match v
      case Array(items) =>
        var out := NormalizeItems(items);
        r := Array(out);
      case Object(fields) =>
        ghost var pairs;
        var d;
        d, pairs := NormalizeFields(fields);
        r := Object(d);
        assert |pairs| == |fields| && RenamedValues(ratio, threshold, fields, pairs) && r.fields == FromPairs(pairs);
        KeysInFromPairs(pairs, masterKeys);
      case _ =>
        r := v;
    }

    /** The list comprehension of `normalize_record`. */
    method NormalizeItems(items: seq<Value>) returns (out: seq<Value>)
      requires Valid()
      modifies this
      ensures Valid()
      ensures old(masterKeys) <= masterKeys
      ensures |out| == |items| && RenamedItems(ratio, threshold, items, out)
      ensures KeysIn(Array(out), masterKeys)
      decreases Array(items), 0
    {
      out := [];
      var i := 0;
      while i < |items|
        invariant Valid()
        invariant 0 <= i <= |items| && |out| == i
        invariant old(masterKeys) <= masterKeys
        invariant RenamedItems(ratio, threshold, items, out)
        invariant KeysIn(Array(out), masterKeys)
      {
        ghost var before := masterKeys;
        assert items[i] in items;
        var e := NormalizeRecord(items[i]);
        KeysInSnocItem(out, e, before, masterKeys);
        RenamedItemsSnoc(ratio, threshold, items, out, e);
        out := out + [e];
        i := i + 1;
      }
    }

    /** The dict comprehension of `normalize_record`: the dict `d` is built by
        assigning, in order, one renamed pair per entry (`pairs`). */
    method NormalizeFields(fields: Dict<Value>) returns (d: Dict<Value>, ghost pairs: seq<(string, Value)>)
      requires Valid()
      modifies this
      ensures Valid()
      ensures old(masterKeys) <= masterKeys
      ensures |pairs| == |fields| && d == FromPairs(pairs)
      ensures RenamedValues(ratio, threshold, fields, pairs)
      ensures KeysIn(Object(pairs), masterKeys)
      decreases Object(fields), 0
    {
      d := [];
      pairs := [];
      var i := 0;
      while i < |fields|
        invariant Valid()
        invariant 0 <= i <= |fields| && |pairs| == i
        invariant old(masterKeys) <= masterKeys
        invariant d == FromPairs(pairs)
        invariant RenamedValues(ratio, threshold, fields, pairs)
        invariant KeysIn(Object(pairs), masterKeys)
      {
        ghost var before := masterKeys;
        assert fields[i] in fields;
        var k, e := NormalizeEntry(fields[i].0, fields[i].1);
        KeysInSnocField(pairs, (k, e), before, masterKeys);
        RenamedValuesSnoc(ratio, threshold, fields, pairs, (k, e));
        d := Put(d, k, e);
        pairs := pairs + [(k, e)];
        i := i + 1;
      }
    }

    /** One step of the dict comprehension: the key is normalised before the
        value. */
    method NormalizeEntry(key: string, value: Value) returns (k: string, e: Value)
      requires Valid()
      modifies this
      ensures Valid()
      ensures old(masterKeys) <= masterKeys
      ensures k in masterKeys && Renamed(ratio, threshold, value, e) && KeysIn(e, masterKeys)
      ensures match CloseMatch(ratio, old(masterKeys), CleanKey(key), threshold)
              case Some(m) => k == m
              case None => k == CleanKey(key)
      ensures ratio(k, CleanKey(key)) >= threshold
      decreases value, 2
    {
      k := NormalizeKey(key);
      e := NormalizeRecord(value);
    }
  }

  /** Entry by entry, the pairs `ps` are renamed from the first `|ps|`
      entries of `fields`: each key is a close match of the cleaned old key
      and each value is renamed from the old value. */
  ghost predicate RenamedValues(ratio: (string, string) -> real, cutoff: real, fields: Dict<Value>, ps: seq<(string, Value)>)
    decreases Object(fields), 1
  {
    |ps| <= |fields| && forall j :: 0 <= j < |ps| ==> EntryRenamed(ratio, cutoff, fields, j, ps[j])
  }

  /** The pair `p` is renamed from entry `j` of `fields`. */
  ghost predicate EntryRenamed(ratio: (string, string) -> real, cutoff: real, fields: Dict<Value>, j: int, p: (string, Value))
    requires 0 <= j < |fields|
    decreases Object(fields), 0
  {
    assert fields[j] in fields;
    ratio(p.0, CleanKey(fields[j].0)) >= cutoff && Renamed(ratio, cutoff, fields[j].1, p.1)
  }

  lemma RenamedValuesSnoc(ratio: (string, string) -> real, cutoff: real, fields: Dict<Value>, ps: seq<(string, Value)>, p: (string, Value))
    requires RenamedValues(ratio, cutoff, fields, ps) && |ps| < |fields|
    requires EntryRenamed(ratio, cutoff, fields, |ps|, p)
    ensures RenamedValues(ratio, cutoff, fields, ps + [p])
  {
    assert forall j :: 0 <= j < |ps| ==> (ps + [p])[j] == ps[j];
  }

  /** Element by element, `out` is renamed from the first `|out|` items. */
  ghost predicate RenamedItems(ratio: (string, string) -> real, cutoff: real, items: seq<Value>, out: seq<Value>)
  {
    |out| <= |items| && forall j :: 0 <= j < |out| ==> Renamed(ratio, cutoff, items[j], out[j])
  }

  lemma RenamedItemsSnoc(ratio: (string, string) -> real, cutoff: real, items: seq<Value>, out: seq<Value>, e: Value)
    requires RenamedItems(ratio, cutoff, items, out) && |out| < |items| && Renamed(ratio, cutoff, items[|out|], e)
    ensures RenamedItems(ratio, cutoff, items, out + [e])
  {
    assert forall j :: 0 <= j < |out| ==> (out + [e])[j] == out[j];
  }

  lemma KeysInSnocItem(items: seq<Value>, e: Value, keys: seq<string>, more: seq<string>)
    requires KeysIn(Array(items), keys) && keys <= more && KeysIn(e, more)
    ensures KeysIn(Array(items + [e]), more)
  {
    var items' := items + [e];
    forall i | 0 <= i < |items'| ensures KeysIn(items'[i], more) {
      if i < |items| {
        assert items'[i] == items[i];
        KeysInGrow(items[i], keys, more);
      }
    }
  }

  lemma KeysInSnocField(ps: Dict<Value>, p: (string, Value), keys: seq<string>, more: seq<string>)
    requires KeysIn(Object(ps), keys) && keys <= more && p.0 in more && KeysIn(p.1, more)
    ensures KeysIn(Object(ps + [p]), more)
  {
    var ps' := ps + [p];
    forall i | 0 <= i < |ps'| ensures ps'[i].0 in more && KeysIn(ps'[i].1, more) {
      if i < |ps| {
        assert ps'[i] == ps[i];
        KeysInGrow(ps[i].1, keys, more);
      }
    }
  }

  /** Building a dict from pairs brings in no key or value it did not have. */
  lemma KeysInFromPairs(ps: Dict<Value>, keys: seq<string>)
    requires KeysIn(Object(ps), keys)
    ensures KeysIn(Object(FromPairs(ps)), keys)
  {
    var d := FromPairs(ps);
    forall i | 0 <= i < |d| ensures d[i].0 in keys && KeysIn(d[i].1, keys) {
      assert d[i] in d;
      var j :| 0 <= j < |ps| && ps[j] == d[i];
    }
  }

  /** Splitting looks at the first two characters, then moves on by one. */
  lemma SplitCamelCons(c: char, s: string)
    requires s != []
    ensures SplitCamel([c] + s) == (if IsLowerOrDigit(c) && IsAsciiUpper(s[0]) then [c, '_'] else [c]) + SplitCamel(s)
  {
    assert ([c] + s)[1..] == s;
  }

  predicate AllLower(s: string)
  {
    forall i :: 0 <= i < |s| ==> IsAsciiLower(s[i])
  }

  /** A capitalised word is not split. */
  lemma SplitCapitalised(c: char, b: string)
    requires IsAsciiUpper(c) && AllLower(b)
    ensures SplitCamel([c] + b) == [c] + b
  {
    if b != [] {
      SplitCamelCons(c, b);
      NoUpperNoBoundary(b);
      SplitCamelIdentity(b);
    }
  }

  /** A lower-case word followed by a capitalised one is split between the
      two. */
  lemma {:induction false} SplitBeforeWord(a: string, word: string)
    requires a != [] && AllLower(a)
    requires word != [] && IsAsciiUpper(word[0]) && SplitCamel(word) == word
    ensures SplitCamel(a + word) == a + (['_'] + word)
  {
    if |a| == 1 {
      SplitCamelCons(a[0], word);
      assert a + word == [a[0]] + word;
      assert a + (['_'] + word) == [a[0], '_'] + word;
    } else {
      var tail := a[1..];
      SplitBeforeWord(tail, word);
      SplitLowerCons(a[0], tail, word);
      assert a + word == [a[0]] + (tail + word);
      assert a + (['_'] + word) == [a[0]] + (tail + (['_'] + word));
    }
  }

  lemma SplitLowerCons(x: char, tail: string, rest: string)
    requires IsAsciiLower(x) && tail != [] && IsAsciiLower(tail[0])
    ensures SplitCamel([x] + (tail + rest)) == [x] + SplitCamel(tail + rest)
  {
    SplitCamelCons(x, tail + rest);
  }

  /** `lowerUpper` cleans to `lower_upper`. */
  lemma CleanTwoWords(a: string, c: char, b: string)
    requires a != [] && AllLower(a) && IsAsciiUpper(c) && AllLower(b)
    ensures CleanKey(a + [c] + b) == a + ['_', CleanChar(c)] + b
  {
    SplitCapitalised(c, b);
    SplitBeforeWord(a, [c] + b);
    assert a + [c] + b == a + ([c] + b);
    var t := a + ['_', c] + b;
    assert a + (['_'] + ([c] + b)) == t;
    var r := a + ['_', CleanChar(c)] + b;
    forall i | 0 <= i < |t| ensures CleanChar(t[i]) == r[i] {
      if i < |a| {
        assert t[i] == a[i] == r[i];
      } else if i >= |a| + 2 {
        assert t[i] == b[i - |a| - 2] == r[i];
      }
    }
  }

  /** A leading capital is lower-cased and starts no new word. */
  lemma CleanCapitalFirst(c: char, rest: string)
    requires IsAsciiUpper(c) && rest != []
    ensures CleanKey([c] + rest) == [CleanChar(c)] + CleanKey(rest)
  {
    SplitCamelCons(c, rest);
  }

  lemma CleanCamelCase()
    ensures CleanKey("userName") == "user_name"
  {
    CleanTwoWords("user", 'N', "ame");
    assert "userName" == "user" + ['N'] + "ame";
    assert CleanChar('N') == 'n';
    assert "user" + ['_', 'n'] + "ame" == "user_name";
  }

  lemma CleanSnakeCase()
    ensures CleanKey("user_name") == "user_name"
  {
    CleanKeyFixed("user_name");
  }

  lemma CleanSerName()
    ensures CleanKey("serName") == "ser_name"
  {
    CleanTwoWords("ser", 'N', "ame");
    assert "serName" == "ser" + ['N'] + "ame";
    assert CleanChar('N') == 'n';
    assert "ser" + ['_', 'n'] + "ame" == "ser_name";
  }

  lemma CleanPascalCase()
    ensures CleanKey("UserName") == "user_name"
  {
    assert ['u'] + "ser_name" == "user_name";
    assert ['U'] + "serName" == "UserName";
    assert CleanChar('U') == 'u';
    CleanCapitalFirst('U', "serName");
    CleanSerName();
  }

  /** `userName`, `user_name` and `UserName`, fed in that order to a fresh
      normaliser, all come out as `user_name`, the only registry entry. */
  method SpellingsConverge(ratio: (string, string) -> real) returns (a: string, b: string, c: string, registry: seq<string>)
    requires RatioLaws(ratio)
    ensures a == "user_name" && b == "user_name" && c == "user_name"
    ensures registry == ["user_name"]
  {
    CleanCamelCase();
    CleanSnakeCase();
    CleanPascalCase();
    var n := new DynamicNormalizer(ratio, 0.85);
    a := n.NormalizeKey("userName");
    b := n.NormalizeKey("user_name");
    CloseMatchExact(ratio, n.masterKeys, "user_name", 0.85);
    c := n.NormalizeKey("UserName");
    registry := n.masterKeys;
  }
}
