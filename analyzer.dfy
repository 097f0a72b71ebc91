/** The field profiler (src/analyzer.py): records are folded, field by
    field, into per-field counters, which are then summarised into
    frequency, dominant type, type stability and cardinality. */
module Analyzer {
  import opened Text
  import opened Json

  /** The type names `_get_type_name` gives to JSON values. */
  datatype TypeName = NullType | BooleanType | IntegerType | FloatType | StringType | ArrayType | ObjectType
  {
    function Name(): string
    {
      match this
      case NullType => "null"
      case BooleanType => "boolean"
      case IntegerType => "integer"
      case FloatType => "float"
      case StringType => "string"
      case ArrayType => "array"
      case ObjectType => "object"
    }
  }

  /** `_get_type_name`. A boolean is a `boolean`, never an `integer`: the
      source tests for `bool` before `int`. */
  function TypeOf(v: Value): (t: TypeName)
    ensures v.Bool? <==> t == BooleanType
    ensures v.Int? <==> t == IntegerType
  {
    match v
    case Null => NullType
    case Bool(_) => BooleanType
    case Int(_) => IntegerType
    case Float(_, _) => FloatType
    case Str(_) => StringType
    case Array(_) => ArrayType
    case Object(_) => ObjectType
  }

  /** Each value gets exactly one type name: distinct types have distinct
      names, and values of different kinds get different types. */
  lemma TypeNamesDistinct(a: Value, b: Value)
    ensures TypeOf(a).Name() == TypeOf(b).Name() <==> TypeOf(a) == TypeOf(b)
    ensures TypeOf(a) == TypeOf(b) <==>
      (a.Null? && b.Null?) || (a.Bool? && b.Bool?) || (a.Int? && b.Int?) || (a.Float? && b.Float?)
      || (a.Str? && b.Str?) || (a.Array? && b.Array?) || (a.Object? && b.Object?)
  {
  }

  predicate HasDigit(s: string)
  {
    exists i :: 0 <= i < |s| && IsDigit(s[i])
  }

  /** The class `[.\-_]`. */
  predicate IsSeparator(c: char)
  {
    c == '.' || c == '-' || c == '_'
  }

  predicate HasSeparator(s: string)
  {
    exists i :: 0 <= i < |s| && IsSeparator(s[i])
  }

  /** `re.sub(r'\d+', 'd', s)`, where `inRun` tells whether the character
      before `s` was a digit of the run being replaced. */
  function MaskFrom(s: string, inRun: bool): string
  {
    if s == [] then []
    else if IsDigit(s[0]) then (if inRun then [] else ['d']) + MaskFrom(s[1..], true)
    else [s[0]] + MaskFrom(s[1..], false)
  }

  /** Every maximal run of digits replaced by a single `d`. */
  function MaskDigits(s: string): string
  {
    MaskFrom(s, false)
  }

  /** `_detect_pattern` on a string: its digit mask when it holds both a
      digit and a separator, otherwise `"none"`. */
  function PatternOf(s: string): string
  {
    if HasDigit(s) && HasSeparator(s) then MaskDigits(s) else "none"
  }

  /** `_detect_pattern`: a value that is not a string has no pattern. */
  function DetectPattern(v: Value): string
  {
    if v.Str? then PatternOf(v.s) else "none"
  }

  /** The mask holds no digit, keeps every non-digit character of the input,
      and adds nothing but `d`. */
  lemma {:induction false} MaskShape(s: string, inRun: bool)
    ensures forall i :: 0 <= i < |MaskFrom(s, inRun)| ==> !IsDigit(MaskFrom(s, inRun)[i])
    ensures forall c :: c in s && !IsDigit(c) ==> c in MaskFrom(s, inRun)
    ensures forall c :: c in MaskFrom(s, inRun) ==> c == 'd' || c in s
  {
    if s != [] {
      MaskShape(s[1..], IsDigit(s[0]));
      assert s == [s[0]] + s[1..];
    }
  }

  /** A maximal run of digits, followed by a non-digit or by the end of the
      string, becomes one `d`. */
  lemma {:induction false} MaskRun(run: string, rest: string)
    requires |run| > 0 && forall i :: 0 <= i < |run| ==> IsDigit(run[i])
    requires rest == [] || !IsDigit(rest[0])
    ensures MaskDigits(run + rest) == ['d'] + MaskDigits(rest)
  {
    RunAbsorbed(run[1..], rest);
    assert (run + rest)[1..] == run[1..] + rest;
  }

  lemma {:induction false} RunAbsorbed(run: string, rest: string)
    requires forall i :: 0 <= i < |run| ==> IsDigit(run[i])
    requires rest == [] || !IsDigit(rest[0])
    ensures MaskFrom(run + rest, true) == MaskFrom(rest, false)
  {
    if run == [] {
      assert run + rest == rest;
    } else {
      RunAbsorbed(run[1..], rest);
      assert (run + rest)[1..] == run[1..] + rest;
    }
  }

  /** A string has a pattern exactly when it holds a digit and a separator;
      a pattern has no digit but keeps a separator, and so is never confused
      with `"none"` or with a type name. */
  lemma PatternShape(s: string)
    ensures PatternOf(s) != "none" <==> HasDigit(s) && HasSeparator(s)
    ensures PatternOf(s) != "none" ==> !HasDigit(PatternOf(s)) && HasSeparator(PatternOf(s))
  {
    if HasDigit(s) && HasSeparator(s) {
      MaskShape(s, false);
      var i :| 0 <= i < |s| && IsSeparator(s[i]);
      var m := MaskDigits(s);
      assert s[i] in m;
      var j :| 0 <= j < |m| && m[j] == s[i];
      assert IsSeparator(m[j]);
      assert s[i] !in "none";
    }
  }

  /** One bucket of a field's type histogram. */
  datatype TypeCount = TypeCount(t: TypeName, n: nat)

  function Total(h: seq<TypeCount>): nat
  {
    if h == [] then 0 else h[0].n + Total(h[1..])
  }

  /** The types of a histogram, in order. */
  function Types(h: seq<TypeCount>): (ts: seq<TypeName>)
    ensures |ts| == |h| && forall i :: 0 <= i < |h| ==> ts[i] == h[i].t
  {
    if h == [] then [] else [h[0].t] + Types(h[1..])
  }

  /** Every bucket of the histogram has been counted at least once. */
  predicate PositiveCounts(h: seq<TypeCount>)
  {
    forall i :: 0 <= i < |h| ==> h[i].n >= 1
  }

  /** A histogram as `defaultdict(int)` keeps it: each type once, in order of
      first sight, with a positive count. */
  predicate WellFormedHistogram(h: seq<TypeCount>)
  {
    PositiveCounts(h) && Distinct(Types(h))
  }

  /** `field_types[f][t] += 1`: the bucket of `t` grows by one, or a bucket
      for `t` is appended. */
  function Bump(h: seq<TypeCount>, t: TypeName): (r: seq<TypeCount>)
    ensures Total(r) == Total(h) + 1
    ensures PositiveCounts(h) ==> PositiveCounts(r)
  {
    if h == [] then [TypeCount(t, 1)]
    else if h[0].t == t then
      var r := [TypeCount(t, h[0].n + 1)] + h[1..];
      assert r[1..] == h[1..];
      r
    else
      var tail := Bump(h[1..], t);
      var r := [h[0]] + tail;
      assert r[1..] == tail;
      r
  }

  /** Counting a type already in the histogram keeps its buckets in order. */
  lemma {:induction false} BumpTypesPresent(h: seq<TypeCount>, t: TypeName)
    requires t in Types(h)
    ensures Types(Bump(h, t)) == Types(h)
  {
    if h[0].t != t {
      BumpTypesPresent(h[1..], t);
      assert Bump(h, t)[1..] == Bump(h[1..], t);
    } else {
      assert Bump(h, t)[1..] == h[1..];
    }
  }

  /** Counting a new type appends its bucket. */
  lemma {:induction false} BumpTypesAbsent(h: seq<TypeCount>, t: TypeName)
    requires t !in Types(h)
    ensures Types(Bump(h, t)) == Types(h) + [t]
  {
    if h != [] {
      assert t != h[0].t && t !in Types(h[1..]);
      BumpTypesAbsent(h[1..], t);
      assert Bump(h, t)[1..] == Bump(h[1..], t);
    }
  }

  /** Counting an observation keeps a histogram well formed. */
  lemma BumpWellFormed(h: seq<TypeCount>, t: TypeName)
    requires WellFormedHistogram(h)
    ensures WellFormedHistogram(Bump(h, t))
  {
    var ts := Types(h);
    if t in ts {
      BumpTypesPresent(h, t);
    } else {
      BumpTypesAbsent(h, t);
      assert forall i :: 0 <= i < |ts| ==> ts[i] != t;
    }
  }

  /** `value_count_limit`: the most distinct sample strings kept per field. */
  const ValueCountLimit: nat := 10000

  /** One `(field_name, value)` pair the analyzer has looked at. */
  type Observation = (string, Value)

  /** A field never observed has an empty histogram. */
  lemma EmptyHistogram(h: seq<TypeCount>)
    requires PositiveCounts(h) && Total(h) == 0
    ensures h == []
  {
  }

  /** `field_counts[f]` after the observations `obs`. */
  function Count(obs: seq<Observation>, f: string): (c: nat)
    ensures c <= |obs|
  {
    if obs == [] then 0
    else Count(obs[..|obs| - 1], f) + (if obs[|obs| - 1].0 == f then 1 else 0)
  }

  /** `field_types[f]` after the observations `obs`: its buckets are
      positive and add up to the field's count. */
  function Histogram(obs: seq<Observation>, f: string): (h: seq<TypeCount>)
    ensures PositiveCounts(h)
    ensures Total(h) == Count(obs, f)
  {
    if obs == [] then []
    else
      var init := obs[..|obs| - 1];
      var (g, v) := obs[|obs| - 1];
      var prev := Histogram(init, f);
      if g == f then Bump(prev, TypeOf(v)) else prev
  }

  /** A field's histogram names each type once. */
  lemma {:induction false} HistogramWellFormed(obs: seq<Observation>, f: string)
    ensures WellFormedHistogram(Histogram(obs, f))
  {
    if obs != [] {
      var init := obs[..|obs| - 1];
      HistogramWellFormed(init, f);
      if obs[|obs| - 1].0 == f {
        BumpWellFormed(Histogram(init, f), TypeOf(obs[|obs| - 1].1));
      }
    }
  }

  /** `field_values[f]` after the observations `obs`: the `str()` of scalar
      values, added while fewer than `ValueCountLimit` are held. It never
      exceeds the limit nor the field's count. */
  function Samples(obs: seq<Observation>, f: string): (r: set<string>)
    ensures |r| <= ValueCountLimit && |r| <= Count(obs, f)
  {
    if obs == [] then {}
    else
      var init := obs[..|obs| - 1];
      var (g, v) := obs[|obs| - 1];
      var prev := Samples(init, f);
      if g == f && IsScalar(v) && |prev| < ValueCountLimit then prev + {Stringify(v)} else prev
  }

  /** `nested_fields`: the fields that held a dict at least once. */
  function NestedSet(obs: seq<Observation>): set<string>
  {
    if obs == [] then {}
    else
      var init := obs[..|obs| - 1];
      var (g, v) := obs[|obs| - 1];
      NestedSet(init) + (if v.Object? then {g} else {})
  }

  /** `array_fields`: the fields that held a list at least once. */
  function ArraySet(obs: seq<Observation>): set<string>
  {
    if obs == [] then {}
    else
      var init := obs[..|obs| - 1];
      var (g, v) := obs[|obs| - 1];
      ArraySet(init) + (if v.Array? then {g} else {})
  }

  /** The items of the records, record after record, in each record's order. */
  function Flatten(records: seq<Dict<Value>>): (obs: seq<Observation>)
  {
    if records == [] then [] else Flatten(records[..|records| - 1]) + records[|records| - 1]
  }

  /** Every sample is the `str()` of a scalar value seen under its field. */
  lemma {:induction false} SamplesAreScalars(obs: seq<Observation>, f: string, x: string)
    requires x in Samples(obs, f)
    ensures exists i :: 0 <= i < |obs| && obs[i].0 == f && IsScalar(obs[i].1) && Stringify(obs[i].1) == x
  {
    var init := obs[..|obs| - 1];
    if x in Samples(init, f) {
      SamplesAreScalars(init, f, x);
      var i :| 0 <= i < |init| && init[i].0 == f && IsScalar(init[i].1) && Stringify(init[i].1) == x;
      assert obs[i] == init[i];
    }
  }

  /** A field is nested exactly when it held a dict at least once. */
  lemma {:induction false} NestedSetIff(obs: seq<Observation>, f: string)
    ensures f in NestedSet(obs) <==> exists i :: 0 <= i < |obs| && obs[i].0 == f && obs[i].1.Object?
  {
    if obs != [] {
      var init := obs[..|obs| - 1];
      NestedSetIff(init, f);
      if exists i :: 0 <= i < |init| && init[i].0 == f && init[i].1.Object? {
        var i :| 0 <= i < |init| && init[i].0 == f && init[i].1.Object?;
        assert obs[i] == init[i];
      }
      if exists i :: 0 <= i < |obs| && obs[i].0 == f && obs[i].1.Object? {
        var i :| 0 <= i < |obs| && obs[i].0 == f && obs[i].1.Object?;
        if i < |init| { assert init[i] == obs[i]; }
      }
    }
  }

  /** A field is an array field exactly when it held a list at least once. */
  lemma {:induction false} ArraySetIff(obs: seq<Observation>, f: string)
    ensures f in ArraySet(obs) <==> exists i :: 0 <= i < |obs| && obs[i].0 == f && obs[i].1.Array?
  {
    if obs != [] {
      var init := obs[..|obs| - 1];
      ArraySetIff(init, f);
      if exists i :: 0 <= i < |init| && init[i].0 == f && init[i].1.Array? {
        var i :| 0 <= i < |init| && init[i].0 == f && init[i].1.Array?;
        assert obs[i] == init[i];
      }
      if exists i :: 0 <= i < |obs| && obs[i].0 == f && obs[i].1.Array? {
        var i :| 0 <= i < |obs| && obs[i].0 == f && obs[i].1.Array?;
        if i < |init| { assert init[i] == obs[i]; }
      }
    }
  }

  lemma {:induction false} CountAppend(a: seq<Observation>, b: seq<Observation>, f: string)
    ensures Count(a + b, f) == Count(a, f) + Count(b, f)
  {
    if b != [] {
      var init := b[..|b| - 1];
      assert (a + b)[..|a + b| - 1] == a + init;
      CountAppend(a, init, f);
    } else {
      assert a + b == a;
    }
  }

  /** A dict holds a key at most once. */
  lemma {:induction false} CountInDict(d: Dict<Value>, f: string)
    requires IsDict(d)
    ensures Count(d, f) == if f in Keys(d) then 1 else 0
  {
    if d != [] {
      var init := d[..|d| - 1];
      assert d == init + [d[|d| - 1]];
      KeysAppend(init, d[|d| - 1]);
      assert Keys(init) == Keys(d)[..|d| - 1];
      CountInDict(init, f);
    }
  }

  /** A field occurs at most once per record, so its count never exceeds
      the number of records. */
  lemma {:induction false} CountAtMostRecords(records: seq<Dict<Value>>, f: string)
    requires forall k :: 0 <= k < |records| ==> IsDict(records[k])
    ensures Count(Flatten(records), f) <= |records|
  {
    if records != [] {
      var init := records[..|records| - 1];
      CountAtMostRecords(init, f);
      CountAppend(Flatten(init), records[|records| - 1], f);
      CountInDict(records[|records| - 1], f);
    }
  }

  /** `d[f]` on a `defaultdict(int)`. */
  function CountAt(m: map<string, nat>, f: string): nat
  {
    if f in m then m[f] else 0
  }

  /** `d[f]` on a `defaultdict(lambda: defaultdict(int))`. */
  function HistogramAt(m: map<string, seq<TypeCount>>, f: string): seq<TypeCount>
  {
    if f in m then m[f] else []
  }

  /** `d[f]` on a `defaultdict(set)`. */
  function SetAt(m: map<string, set<string>>, f: string): set<string>
  {
    if f in m then m[f] else {}
  }

  /** The counters of a `DataAnalyzer` as one value: the keys of
      `field_counts` in insertion order, `field_counts`, `field_types`,
      `field_values`, `nested_fields` and `array_fields`. */
  datatype Counters = Counters(
    order: seq<string>,
    counts: map<string, nat>,
    types: map<string, seq<TypeCount>>,
    values: map<string, set<string>>,
    nested: set<string>,
    arrays: set<string>)

  /** The counters of a fresh `DataAnalyzer`. */
  function Initial(): Counters
  {
    Counters([], map[], map[], map[], {}, {})
  }

  /** What `_analyze_value(f, v)` does to the counters. */
  function Observe(c: Counters, f: string, v: Value): Counters
  {
    var vs := SetAt(c.values, f);
    Counters(
      if f in c.counts then c.order else c.order + [f],
      c.counts[f := CountAt(c.counts, f) + 1],
      c.types[f := Bump(HistogramAt(c.types, f), TypeOf(v))],
      if IsScalar(v) then c.values[f := if |vs| < ValueCountLimit then vs + {Stringify(v)} else vs] else c.values,
      c.nested + (if v.Object? then {f} else {}),
      c.arrays + (if v.Array? then {f} else {}))
  }

  /** The counters after the observations `obs`, one `_analyze_value` each,
      starting from `c`. */
  function ObserveAll(c: Counters, obs: seq<Observation>): Counters
  {
    if obs == [] then c
    else Observe(ObserveAll(c, obs[..|obs| - 1]), obs[|obs| - 1].0, obs[|obs| - 1].1)
  }

  /** The counters a fresh analyzer holds after the observations `obs`. */
  function CountersOf(obs: seq<Observation>): Counters
  {
    ObserveAll(Initial(), obs)
  }

  /** Observing `a` and then `b` is observing `a + b`. */
  lemma {:induction false} ObserveAllAppend(c: Counters, a: seq<Observation>, b: seq<Observation>)
    ensures ObserveAll(c, a + b) == ObserveAll(ObserveAll(c, a), b)
  {
    if b == [] {
      assert a + b == a;
    } else {
      var init := b[..|b| - 1];
      assert (a + b)[..|a + b| - 1] == a + init;
      ObserveAllAppend(c, a, init);
    }
  }

  lemma ObservePrefix(c: Counters, obs: seq<Observation>, j: nat)
    requires j < |obs|
    ensures ObserveAll(c, obs[..j + 1]) == Observe(ObserveAll(c, obs[..j]), obs[j].0, obs[j].1)
  {
    assert obs[..j + 1][..j] == obs[..j];
  }

  /** `field_counts` holds exactly the fields observed, each with its count. */
  lemma {:induction false} CountsAreCounts(obs: seq<Observation>, f: string)
    ensures f in CountersOf(obs).counts <==> Count(obs, f) > 0
    ensures f in CountersOf(obs).counts <==> f in Keys(obs)
    ensures f in CountersOf(obs).counts ==> CountersOf(obs).counts[f] == Count(obs, f)
  {
    if obs != [] {
      var init := obs[..|obs| - 1];
      CountsAreCounts(init, f);
      assert obs == init + [obs[|obs| - 1]];
      KeysAppend(init, obs[|obs| - 1]);
    }
  }

  /** `field_types` has a histogram for exactly the fields observed, and it
      is the field's histogram. */
  lemma {:induction false} TypesAreHistograms(obs: seq<Observation>, f: string)
    ensures f in CountersOf(obs).types <==> f in CountersOf(obs).counts
    ensures f in CountersOf(obs).types ==> CountersOf(obs).types[f] == Histogram(obs, f)
  {
    if obs != [] {
      var init := obs[..|obs| - 1];
      TypesAreHistograms(init, f);
      CountsAreCounts(init, f);
      if obs[|obs| - 1].0 == f && f !in CountersOf(init).types {
        EmptyHistogram(Histogram(init, f));
      }
    }
  }

  /** `field_values[f]` is the field's samples; only observed fields have
      an entry. */
  lemma {:induction false} ValuesAreSamples(obs: seq<Observation>, f: string)
    ensures f in CountersOf(obs).values ==> f in CountersOf(obs).counts
    ensures SetAt(CountersOf(obs).values, f) == Samples(obs, f)
  {
    if obs != [] {
      var init := obs[..|obs| - 1];
      ValuesAreSamples(init, f);
    }
  }

  /** `nested_fields` and `array_fields` are the fields that held a dict,
      respectively a list, at least once. */
  lemma {:induction false} FlagsAreShapes(obs: seq<Observation>)
    ensures CountersOf(obs).nested == NestedSet(obs)
    ensures CountersOf(obs).arrays == ArraySet(obs)
  {
    if obs != [] {
      FlagsAreShapes(obs[..|obs| - 1]);
    }
  }

  /** The keys of `field_counts` come in order of first occurrence. */
  lemma {:induction false} OrderIsFirstOccurrences(obs: seq<Observation>)
    ensures CountersOf(obs).order == FirstOccurrences(Keys(obs))
  {
    if obs != [] {
      var init := obs[..|obs| - 1];
      var f := obs[|obs| - 1].0;
      OrderIsFirstOccurrences(init);
      assert obs == init + [obs[|obs| - 1]];
      KeysAppend(init, obs[|obs| - 1]);
      assert (Keys(init) + [f])[..|init|] == Keys(init);
      CountsAreCounts(init, f);
    }
  }

  /** The order lists each key of `field_counts` once, and nothing else. */
  lemma OrderIsKeys(obs: seq<Observation>)
    ensures Distinct(CountersOf(obs).order)
    ensures forall f :: f in CountersOf(obs).order <==> f in CountersOf(obs).counts
  {
    OrderIsFirstOccurrences(obs);
    forall f {
      CountsAreCounts(obs, f);
    }
  }

  lemma {:induction false} FlattenAppend(a: seq<Dict<Value>>, b: seq<Dict<Value>>)
    ensures Flatten(a + b) == Flatten(a) + Flatten(b)
  {
    if b == [] {
      assert a + b == a;
    } else {
      var init := b[..|b| - 1];
      assert (a + b)[..|a + b| - 1] == a + init;
      FlattenAppend(a, init);
    }
  }

  lemma FlattenPrefix(rs: seq<Dict<Value>>, i: nat)
    requires i < |rs|
    ensures Flatten(rs[..i + 1]) == Flatten(rs[..i]) + rs[i]
  {
    assert rs[..i + 1][..i] == rs[..i];
  }

  /** After analysing the records `rs`, every field's histogram adds up to
      its count, which is at most the number of records. */
  lemma CountsBounded(rs: seq<Dict<Value>>)
    requires forall k :: 0 <= k < |rs| ==> IsDict(rs[k])
    ensures var c := CountersOf(Flatten(rs));
      forall f :: f in c.counts ==> f in c.types && Total(c.types[f]) == c.counts[f] <= |rs|
  {
    var obs := Flatten(rs);
    forall f | f in CountersOf(obs).counts
      ensures f in CountersOf(obs).types && Total(CountersOf(obs).types[f]) == CountersOf(obs).counts[f] <= |rs|
    {
      CountsAreCounts(obs, f);
      TypesAreHistograms(obs, f);
      CountAtMostRecords(rs, f);
    }
  }

  /** The index of the first bucket with the largest count: Python's `max`
      over the histogram's items keeps the first maximal one. */
  function Dominant(h: seq<TypeCount>): (k: nat)
    requires h != []
    ensures k < |h|
    ensures forall i :: 0 <= i < |h| ==> h[i].n <= h[k].n
    ensures forall i :: 0 <= i < k ==> h[i].n < h[k].n
  {
    if |h| == 1 then 0
    else
      var k := Dominant(h[1..]) + 1;
      if h[0].n >= h[k].n then 0 else k
  }

  /** With positive buckets, the total exceeds any one bucket by at least
      one per other bucket. */
  lemma {:induction false} TotalAbove(h: seq<TypeCount>, k: nat)
    requires PositiveCounts(h) && k < |h|
    ensures Total(h) >= h[k].n + |h| - 1
  {
    if k > 0 {
      TotalAbove(h[1..], k - 1);
    } else if |h| > 1 {
      TotalAbove(h[1..], 0);
    }
  }

  /** One entry of `fields_summary`. */
  datatype FieldSummary = FieldSummary(
    fieldName: string,
    frequency: real,
    dominantType: string,
    typeStability: real,
    cardinality: real,
    isNested: bool,
    isArray: bool)

  /** The dict `save_analysis` returns. */
  datatype Summary = Summary(totalRecords: nat, fields: seq<FieldSummary>)

  /** The dict `save_analysis` writes for one entry, as `json.load` reads it
      back; `repr` is the text of a float, which the model does not compute. */
  function SummaryRecord(e: FieldSummary, repr: real -> string): Dict<Value>
  {
    [ ("field_name", Str(e.fieldName)),
      ("frequency", Float(e.frequency, repr(e.frequency))),
      ("dominant_type", Str(e.dominantType)),
      ("type_stability", Float(e.typeStability, repr(e.typeStability))),
      ("cardinality", Float(e.cardinality, repr(e.cardinality))),
      ("is_nested", Bool(e.isNested)),
      ("is_array", Bool(e.isArray)) ]
  }

  /** `dom_type` after the pattern override: the name of the first most
      frequent type, unless that is `string`, there are samples, and the
      chosen sample `pick` has a pattern, which then replaces it. */
  function DominantType(hist: seq<TypeCount>, samples: set<string>, pick: string): (name: string)
    requires hist != []
    ensures name == hist[Dominant(hist)].t.Name()
      || (hist[Dominant(hist)].t == StringType && samples != {} && name == PatternOf(pick) && name != "none")
  {
    var name := hist[Dominant(hist)].t.Name();
    if name == "string" && samples != {} && PatternOf(pick) != "none" then PatternOf(pick) else name
  }

  /** The override happens exactly for a `string` dominant type, a
      non-empty sample set and a chosen sample with a pattern. */
  lemma OverrideOnlyForStrings(hist: seq<TypeCount>, samples: set<string>, pick: string)
    requires hist != []
    ensures var t := hist[Dominant(hist)].t;
      DominantType(hist, samples, pick) != t.Name() <==>
        t == StringType && samples != {} && PatternOf(pick) != "none"
  {
    var t := hist[Dominant(hist)].t;
    if t == StringType && samples != {} && PatternOf(pick) != "none" {
      PatternShape(pick);
      assert !HasSeparator("string");
    }
  }

  /** `a / b` for `0 <= a <= b` and `b > 0` lies in [0, 1], is positive iff
      `a` is, and is 1 iff `a == b`. */
  lemma Fraction(a: nat, b: nat)
    requires 0 < b && a <= b
    ensures 0.0 <= a as real / b as real <= 1.0
    ensures a > 0 ==> a as real / b as real > 0.0
    ensures a as real / b as real == 1.0 <==> a == b
  {
    var q := a as real / b as real;
    assert q * b as real == a as real;
  }

  /** The summary of field `f`, seen `count` times in `total` records with
      type histogram `hist` and samples `samples`; `pick` is the sample that
      `next(iter(...))` happens to return when there is one. */
  function SummarizeField(f: string, count: nat, total: nat, hist: seq<TypeCount>, samples: set<string>,
                          pick: string, isNested: bool, isArray: bool): FieldSummary
    requires total > 0 && hist != [] && PositiveCounts(hist)
  {
    var k := Dominant(hist);
    TotalAbove(hist, k);
    FieldSummary(f, count as real / total as real, DominantType(hist, samples, pick),
                 hist[k].n as real / Total(hist) as real,
                 if count > 0 then |samples| as real / count as real else 0.0, isNested, isArray)
  }

  /** The ratios of a summary entry: frequency and stability in (0, 1],
      stability 1 exactly when one type was seen, cardinality in [0, 1]. */
  lemma SummaryRanges(f: string, count: nat, total: nat, hist: seq<TypeCount>, samples: set<string>,
                      pick: string, isNested: bool, isArray: bool)
    requires 0 < count <= total && PositiveCounts(hist) && Total(hist) == count && |samples| <= count
    ensures hist != []
    ensures var r := SummarizeField(f, count, total, hist, samples, pick, isNested, isArray);
      && 0.0 < r.frequency <= 1.0
      && 0.0 < r.typeStability <= 1.0
      && (r.typeStability == 1.0 <==> |hist| == 1)
      && 0.0 <= r.cardinality <= 1.0
  {
    var k := Dominant(hist);
    TotalAbove(hist, k);
    Fraction(count, total);
    Fraction(hist[k].n, Total(hist));
    Fraction(|samples|, count);
    if |hist| == 1 {
      assert hist[1..] == [];
    }
  }

  /** The first maximal bucket is unique. */
  lemma DominantUnique(h: seq<TypeCount>, k: nat)
    requires h != [] && k < |h|
    requires forall i :: 0 <= i < |h| ==> h[i].n <= h[k].n
    requires forall i :: 0 <= i < k ==> h[i].n < h[k].n
    ensures k == Dominant(h)
  {
  }

  /** What the counters of an analyzer hold for each field it has seen. */
  lemma FieldFacts(rs: seq<Dict<Value>>, f: string)
    requires forall k :: 0 <= k < |rs| ==> IsDict(rs[k])
    requires f in CountersOf(Flatten(rs)).counts
    ensures var c := CountersOf(Flatten(rs));
      && f in c.types && c.types[f] != [] && WellFormedHistogram(c.types[f])
      && Total(c.types[f]) == c.counts[f]
      && 0 < c.counts[f] <= |rs|
      && |SetAt(c.values, f)| <= c.counts[f]
  {
    var obs := Flatten(rs);
    CountsAreCounts(obs, f);
    TypesAreHistograms(obs, f);
    HistogramWellFormed(obs, f);
    ValuesAreSamples(obs, f);
    CountAtMostRecords(rs, f);
  }

  /** `e` is the `fields_summary` entry of field `f` for the counters `c`
      after `total` records, for some choice of the sample inspected. */
  ghost predicate Summarizes(e: FieldSummary, f: string, c: Counters, total: nat)
  {
    && total > 0 && f in c.counts && f in c.types && c.types[f] != [] && PositiveCounts(c.types[f])
    && exists pick :: (SetAt(c.values, f) != {} ==> pick in SetAt(c.values, f))
         && e == SummarizeField(f, c.counts[f], total, c.types[f], SetAt(c.values, f), pick, f in c.nested, f in c.arrays)
  }

  /** What `save_analysis` needs of the counters to run without error:
      the order lists the counted fields once each, and every counted field
      has a non-empty histogram of positive buckets and was seen in one of
      `total > 0` records. */
  ghost predicate Ready(c: Counters, total: nat)
  {
    && Distinct(c.order)
    && (forall f :: f in c.order <==> f in c.counts)
    && (forall f :: f in c.counts ==> total > 0 && f in c.types && c.types[f] != [] && PositiveCounts(c.types[f]))
  }

  /** The counters of an analyzer are always ready to be summarised. */
  lemma AlwaysReady(rs: seq<Dict<Value>>)
    requires forall k :: 0 <= k < |rs| ==> IsDict(rs[k])
    ensures Ready(CountersOf(Flatten(rs)), |rs|)
  {
    OrderIsKeys(Flatten(rs));
    forall f | f in CountersOf(Flatten(rs)).counts
      ensures var c := CountersOf(Flatten(rs));
        |rs| > 0 && f in c.types && c.types[f] != [] && PositiveCounts(c.types[f])
    {
      FieldFacts(rs, f);
    }
  }

  /** Every entry of an analyzer's summary has its ratios in range. */
  lemma EntryRanges(rs: seq<Dict<Value>>, e: FieldSummary, f: string)
    requires forall k :: 0 <= k < |rs| ==> IsDict(rs[k])
    requires Summarizes(e, f, CountersOf(Flatten(rs)), |rs|)
    ensures 0.0 < e.frequency <= 1.0
    ensures 0.0 < e.typeStability <= 1.0
    ensures e.typeStability == 1.0 <==> |CountersOf(Flatten(rs)).types[f]| == 1
    ensures 0.0 <= e.cardinality <= 1.0
  {
    var c := CountersOf(Flatten(rs));
    FieldFacts(rs, f);
    var pick :| (SetAt(c.values, f) != {} ==> pick in SetAt(c.values, f))
      && e == SummarizeField(f, c.counts[f], |rs|, c.types[f], SetAt(c.values, f), pick, f in c.nested, f in c.arrays);
    SummaryRanges(f, c.counts[f], |rs|, c.types[f], SetAt(c.values, f), pick, f in c.nested, f in c.arrays);
  }

  /** The field names of a list of summary entries. */
  function Names(fields: seq<FieldSummary>): (names: seq<string>)
    ensures |names| == |fields| && forall k :: 0 <= k < |fields| ==> names[k] == fields[k].fieldName
  {
    if fields == [] then [] else [fields[0].fieldName] + Names(fields[1..])
  }

  lemma NamesAre(fields: seq<FieldSummary>, names: seq<string>)
    requires |fields| == |names| && forall k :: 0 <= k < |fields| ==> fields[k].fieldName == names[k]
    ensures Names(fields) == names
  {
  }

  /** `DataAnalyzer`: the per-field counters, updated in place. The ghost
      `records` are the records analysed so far; `Valid` ties the counters
      to those a fresh analyzer holds after them. */
  class DataAnalyzer {
    var totalRecords: nat
    /** The keys of `field_counts`, in insertion order. */
    var fieldOrder: seq<string>
    var fieldCounts: map<string, nat>
    var fieldTypes: map<string, seq<TypeCount>>
    /** `field_values`, a `defaultdict(set)`: see `ValuesOf`. */
    var fieldValues: map<string, set<string>>
    var nestedFields: set<string>
    var arrayFields: set<string>
    ghost var records: seq<Dict<Value>>

    /** `field_values[f]`, the empty set for a field never given a scalar. */
    function ValuesOf(f: string): set<string>
      reads this
    {
      SetAt(fieldValues, f)
    }

    function Snapshot(): Counters
      reads this
    {
      Counters(fieldOrder, fieldCounts, fieldTypes, fieldValues, nestedFields, arrayFields)
    }

    ghost predicate Valid()
      reads this
    {
      && Snapshot() == CountersOf(Flatten(records))
      && totalRecords == |records|
      && (forall k :: 0 <= k < |records| ==> IsDict(records[k]))
    }

    constructor ()
      ensures Valid() && records == []
      ensures totalRecords == 0 && Snapshot() == Initial()
    {
      totalRecords := 0;
      fieldOrder := [];
      fieldCounts := map[];
      fieldTypes := map[];
      fieldValues := map[];
      nestedFields := {};
      arrayFields := {};
      records := [];
    }

    /** `_analyze_value`: counts one value under its field. */
    method AnalyzeValue(f: string, v: Value)
      modifies this`fieldOrder, this`fieldCounts, this`fieldTypes, this`fieldValues, this`nestedFields, this`arrayFields
      ensures Snapshot() == Observe(old(Snapshot()), f, v)
    {
      CountValue(f, v);
      RecordShape(f, v);
      KeepSample(f, v);
    }

    /** The counting half of `_analyze_value`: `field_counts` and `field_types`. */
    method CountValue(f: string, v: Value)
      modifies this`fieldOrder, this`fieldCounts, this`fieldTypes
      ensures fieldOrder == if f in old(fieldCounts) then old(fieldOrder) else old(fieldOrder) + [f]
      ensures fieldCounts == old(fieldCounts)[f := CountAt(old(fieldCounts), f) + 1]
      ensures fieldTypes == old(fieldTypes)[f := Bump(HistogramAt(old(fieldTypes), f), TypeOf(v))]
    {
      if f !in fieldCounts {
        fieldOrder := fieldOrder + [f];
      }
      fieldCounts := fieldCounts[f := CountAt(fieldCounts, f) + 1];
      fieldTypes := fieldTypes[f := Bump(HistogramAt(fieldTypes, f), TypeOf(v))];
    }

    /** The shape half of `_analyze_value`: objects and lists are flagged. */
    method RecordShape(f: string, v: Value)
      modifies this`nestedFields, this`arrayFields
      ensures nestedFields == old(nestedFields) + (if v.Object? then {f} else {})
      ensures arrayFields == old(arrayFields) + (if v.Array? then {f} else {})
    {
      if v.Object? {
        nestedFields := nestedFields + {f};
      } else if v.Array? {
        arrayFields := arrayFields + {f};
      }
    }

    /** The sampling half of `_analyze_value`: a scalar's text is kept while
        fewer than `ValueCountLimit` distinct texts are held. */
    method KeepSample(f: string, v: Value)
      modifies this`fieldValues
      ensures fieldValues == if IsScalar(v) then
        var vs := SetAt(old(fieldValues), f);
        old(fieldValues)[f := if |vs| < ValueCountLimit then vs + {Stringify(v)} else vs]
      else old(fieldValues)
    {
      if IsScalar(v) {
        var vs := ValuesOf(f);
        if |vs| < ValueCountLimit {
          vs := vs + {Stringify(v)};
        }
        fieldValues := fieldValues[f := vs];
      }
    }

    /** The inner loop of `analyze_records`: the items of one record are
        analysed in order. */
    method AnalyzeItems(record: Dict<Value>)
      modifies this`fieldOrder, this`fieldCounts, this`fieldTypes, this`fieldValues, this`nestedFields, this`arrayFields
      ensures Snapshot() == ObserveAll(old(Snapshot()), record)
      ensures records == old(records)
    {
      ghost var start := Snapshot();
      var j := 0;
      while j < |record|
        invariant 0 <= j <= |record|
        invariant Snapshot() == ObserveAll(start, record[..j])
      {
        ObservePrefix(start, record, j);
        AnalyzeValue(record[j].0, record[j].1);
        j := j + 1;
      }
      assert record[..j] == record;
    }

    /** `analyze_records`: `total_records` counts every record, and each of
        its items is analysed in order. Afterwards every field's histogram
        adds up to its count, which is at most the number of records. */
    method AnalyzeRecords(batch: seq<Dict<Value>>)
      requires Valid()
      requires forall k :: 0 <= k < |batch| ==> IsDict(batch[k])
      modifies this
      ensures Valid()
      ensures records == old(records) + batch
      ensures totalRecords == old(totalRecords) + |batch|
      ensures Snapshot() == ObserveAll(old(Snapshot()), Flatten(batch))
      ensures forall f :: f in fieldCounts ==> f in fieldTypes && Total(fieldTypes[f]) == fieldCounts[f] <= totalRecords
      ensures Ready(Snapshot(), totalRecords)
    {
      ghost var start := Snapshot();
      var i := 0;
      while i < |batch|
        invariant 0 <= i <= |batch|
        invariant totalRecords == old(totalRecords) + i
        invariant records == old(records)
        invariant Snapshot() == ObserveAll(start, Flatten(batch[..i]))
      {
        totalRecords := totalRecords + 1;
        ObserveAllAppend(start, Flatten(batch[..i]), batch[i]);
        FlattenPrefix(batch, i);
        AnalyzeItems(batch[i]);
        i := i + 1;
      }
      assert batch[..i] == batch;
      records := records + batch;
      FlattenAppend(old(records), batch);
      ObserveAllAppend(Initial(), Flatten(old(records)), Flatten(batch));
      CountsBounded(records);
      AlwaysReady(records);
    }
      /** The summary `save_analysis` builds, without the file write: one
        entry per key of `field_counts`, in sorted order of field name. */
    method SaveAnalysis() returns (s: Summary)
      requires Ready(Snapshot(), totalRecords)
      ensures s.totalRecords == totalRecords
      ensures StrictlySorted(Names(s.fields))
      ensures forall f :: f in Names(s.fields) <==> f in fieldCounts
      ensures forall k :: 0 <= k < |s.fields| ==> Summarizes(s.fields[k], s.fields[k].fieldName, Snapshot(), totalRecords)
      ensures totalRecords == 0 ==> s.fields == []
    {
      var names := SortStrings(fieldOrder);
      SortedNamesReady(Snapshot(), totalRecords, names);
      var fields := SummarizeAll(Snapshot(), totalRecords, names);
      s := Summary(totalRecords, fields);
    }
  }

  /** The sorted field names are the counted fields, each once, and each
      can be summarised. */
  lemma SortedNamesReady(c: Counters, total: nat, names: seq<string>)
    requires Ready(c, total) && names == SortStrings(c.order)
    ensures StrictlySorted(names)
    ensures forall f :: f in names <==> f in c.counts
    ensures forall k :: 0 <= k < |names| ==>
      total > 0 && names[k] in c.counts && names[k] in c.types && c.types[names[k]] != [] && PositiveCounts(c.types[names[k]])
    ensures total == 0 ==> names == []
  {
    SortDistinct(c.order);
    forall k | 0 <= k < |names|
      ensures names[k] in c.counts
    {
      assert names[k] in names;
    }
    if names != [] {
      assert names[0] in c.counts;
    }
  }

  /** `fields` summarise the first names of `names`, in order. */
  ghost predicate SummarizedPrefix(fields: seq<FieldSummary>, names: seq<string>, c: Counters, total: nat)
  {
    && |fields| <= |names|
    && forall k :: 0 <= k < |fields| ==> fields[k].fieldName == names[k] && Summarizes(fields[k], names[k], c, total)
  }

  lemma SummarizedPrefixSnoc(fields: seq<FieldSummary>, names: seq<string>, c: Counters, total: nat, e: FieldSummary)
    requires SummarizedPrefix(fields, names, c, total) && |fields| < |names|
    requires e.fieldName == names[|fields|] && Summarizes(e, names[|fields|], c, total)
    ensures SummarizedPrefix(fields + [e], names, c, total)
  {
    assert forall k :: 0 <= k < |fields| ==> (fields + [e])[k] == fields[k];
  }

  /** The loop of `save_analysis` over the sorted field names. */
  method SummarizeAll(c: Counters, total: nat, names: seq<string>) returns (fields: seq<FieldSummary>)
    requires forall k :: 0 <= k < |names| ==>
      total > 0 && names[k] in c.counts && names[k] in c.types && c.types[names[k]] != [] && PositiveCounts(c.types[names[k]])
    ensures Names(fields) == names
    ensures forall k :: 0 <= k < |fields| ==> Summarizes(fields[k], names[k], c, total)
  {
    fields := [];
    var i := 0;
    while i < |names|
      invariant 0 <= i <= |names| && |fields| == i
      invariant SummarizedPrefix(fields, names, c, total)
    {
      var f := names[i];
      var vs := SetAt(c.values, f);
      var pick := "";
      if vs != {} {
        pick :| pick in vs;
      }
      var e := SummarizeField(f, c.counts[f], total, c.types[f], vs, pick, f in c.nested, f in c.arrays);
      assert Summarizes(e, f, c, total);
      SummarizedPrefixSnoc(fields, names, c, total, e);
      fields := fields + [e];
      i := i + 1;
    }
    NamesAre(fields, names);
  }

  /** A JSON number, a boolean counting as 0 or 1 as in Python. */
  predicate IsNumber(v: Value)
  {
    v.Bool? || v.Int? || v.Float?
  }

  function NumberOf(v: Value): real
    requires IsNumber(v)
  {
    match v
    case Bool(b) => if b then 1.0 else 0.0
    case Int(i) => i as real
    case Float(x, _) => x
  }

  /** Python's `a > b` on JSON values: numbers compare by value and strings
      by code points; `None` stands for the `TypeError` any other pair
      raises. */
  function PyGreater(a: Value, b: Value): (r: Option<bool>)
    ensures IsNumber(a) && IsNumber(b) ==> r == Some(NumberOf(a) > NumberOf(b))
    ensures a.Str? && b.Str? ==> r == Some(StrLess(b.s, a.s))
    ensures r.Some? ==> (IsNumber(a) && IsNumber(b)) || (a.Str? && b.Str?)
  {
    if IsNumber(a) && IsNumber(b) then Some(NumberOf(a) > NumberOf(b))
    else if a.Str? && b.Str? then Some(StrLess(b.s, a.s))
    else None
  }

  /** `rec['timestamp']` when `'timestamp' in rec`. */
  function TimestampOf(rec: Dict<Value>): Option<Value>
  {
    Lookup(rec, "timestamp")
  }

  /** One turn of the latest-timestamp loop: `latest_ts` as it stands
      after looking at `rec`, or `None` once a comparison has raised. */
  function LatestStep(prev: Option<Value>, rec: Dict<Value>): Option<Value>
  {
    match prev
    case None => None
    case Some(latest) =>
      match TimestampOf(rec)
      case None => Some(latest)
      case Some(t) =>
        if latest == Str("unknown") then Some(t)
        else
          match PyGreater(t, latest)
          case None => None
          case Some(greater) => Some(if greater then t else latest)
  }

  /** The value of `latest_ts` after the records `data`. */
  function Latest(data: seq<Dict<Value>>): Option<Value>
  {
    if data == [] then Some(Str("unknown"))
    else LatestStep(Latest(data[..|data| - 1]), data[|data| - 1])
  }

  /** The latest-timestamp loop of `run_data_analysis`. */
  method LatestTimestamp(data: seq<Dict<Value>>) returns (r: Option<Value>)
    ensures r == Latest(data)
  {
    var latest := Str("unknown");
    var i := 0;
    while i < |data|
      invariant 0 <= i <= |data|
      invariant Latest(data[..i]) == Some(latest)
    {
      assert data[..i + 1][..i] == data[..i];
      var ts := TimestampOf(data[i]);
      if ts.Some? {
        if latest == Str("unknown") {
          latest := ts.value;
        } else {
          var greater := PyGreater(ts.value, latest);
          if greater.None? {
            LatestStaysNone(data, i + 1);
            return None;
          }
          if greater.value {
            latest := ts.value;
          }
        }
      }
      i := i + 1;
    }
    assert data[..i] == data;
    return Some(latest);
  }

  /** Once a comparison has raised, the loop stays failed. */
  lemma {:induction false} LatestStaysNone(data: seq<Dict<Value>>, i: nat)
    requires i <= |data| && Latest(data[..i]).None?
    ensures Latest(data).None?
    decreases |data| - i
  {
    if i < |data| {
      assert data[..i + 1][..i] == data[..i];
      LatestStaysNone(data, i + 1);
    } else {
      assert data[..i] == data;
    }
  }

  /** Without any `timestamp`, the result is `"unknown"`. */
  lemma {:induction false} LatestWithoutTimestamps(data: seq<Dict<Value>>)
    requires forall k :: 0 <= k < |data| ==> TimestampOf(data[k]).None?
    ensures Latest(data) == Some(Str("unknown"))
  {
    if data != [] {
      LatestWithoutTimestamps(data[..|data| - 1]);
    }
  }

  /** Every timestamp present is a string other than `"unknown"`. */
  predicate StringStamps(data: seq<Dict<Value>>)
  {
    forall k :: 0 <= k < |data| ==> StringStamp(data[k])
  }

  /** A record whose timestamp, if any, is a string other than `"unknown"`. */
  predicate StringStamp(rec: Dict<Value>)
  {
    TimestampOf(rec).Some? ==> TimestampOf(rec).value.Str? && TimestampOf(rec).value.s != "unknown"
  }

  /** With a string timestamp, one turn of the loop keeps a string: the one
      it had or the record's, no smaller than either, and `"unknown"` only
      if it was and the record has no timestamp. */
  lemma StepKeepsGreatest(l: string, rec: Dict<Value>)
    requires StringStamp(rec)
    ensures LatestStep(Some(Str(l)), rec).Some? && LatestStep(Some(Str(l)), rec).value.Str?
    ensures var m := LatestStep(Some(Str(l)), rec).value.s;
      && (m == l || Some(Str(m)) == TimestampOf(rec))
      && (l != "unknown" ==> StrLeq(l, m))
      && (TimestampOf(rec).Some? ==> StrLeq(TimestampOf(rec).value.s, m))
      && (m == "unknown" <==> l == "unknown" && TimestampOf(rec).None?)
  {
    StrLessIrreflexive(l);
    if TimestampOf(rec).Some? {
      var t := TimestampOf(rec).value.s;
      StrLessIrreflexive(t);
      StrLessTotal(t, l);
      if l != "unknown" && StrLess(t, l) {
        StrLessAsymmetric(t, l);
      }
    }
  }

  /** With string timestamps, the result is a string: `"unknown"` exactly
      when no record has a timestamp, and otherwise one of the timestamps. */
  lemma {:induction false} LatestIsStamp(data: seq<Dict<Value>>)
    requires StringStamps(data)
    ensures Latest(data).Some? && Latest(data).value.Str?
    ensures Latest(data) == Some(Str("unknown")) <==> forall k :: 0 <= k < |data| ==> TimestampOf(data[k]).None?
    ensures Latest(data) != Some(Str("unknown")) ==> exists k :: 0 <= k < |data| && TimestampOf(data[k]) == Latest(data)
  {
    if data != [] {
      var n := |data| - 1;
      var init := data[..n];
      assert forall k :: 0 <= k < n ==> init[k] == data[k];
      LatestIsStamp(init);
      StepKeepsGreatest(Latest(init).value.s, data[n]);
      if Latest(data) != Some(Str("unknown")) && Latest(data) == Latest(init) {
        var k :| 0 <= k < n && TimestampOf(init[k]) == Latest(init);
        assert TimestampOf(data[k]) == Latest(data);
      }
    }
  }

  /** With string timestamps, the result is the greatest of them in
      Python's string order. */
  lemma {:induction false} LatestIsGreatest(data: seq<Dict<Value>>)
    requires StringStamps(data)
    ensures Latest(data).Some? && Latest(data).value.Str?
    ensures forall k :: 0 <= k < |data| && TimestampOf(data[k]).Some? ==>
      StrLeq(TimestampOf(data[k]).value.s, Latest(data).value.s)
  {
    if data != [] {
      var n := |data| - 1;
      var init := data[..n];
      assert forall k :: 0 <= k < n ==> init[k] == data[k];
      LatestIsGreatest(init);
      LatestIsStamp(init);
      var l := Latest(init).value.s;
      StepKeepsGreatest(l, data[n]);
      var m := Latest(data).value.s;
      forall k | 0 <= k < n && TimestampOf(data[k]).Some?
        ensures StrLeq(TimestampOf(data[k]).value.s, m)
      {
        StrLeqTransitive(TimestampOf(data[k]).value.s, l, m);
      }
    }
  }

  /** The sentinel `"unknown"` is also a possible timestamp: a record stamped
      `"unknown"` that wins a comparison makes the next timestamp win
      unconditionally. The stamps `"b"`, `"unknown"`, `"a"` give `"a"`,
      below both others; the corrected loop gives the greatest, `"unknown"`. */
  lemma LatestSentinelCollision()
    ensures var data := [[("timestamp", Str("b"))], [("timestamp", Str("unknown"))], [("timestamp", Str("a"))]];
      && Latest(data) == Some(Str("a"))
      && StrLess("a", "b") && StrLess("a", "unknown")
      && LatestFixed(data) == Stamp(Str("unknown"))
  {
    var data := [[("timestamp", Str("b"))], [("timestamp", Str("unknown"))], [("timestamp", Str("a"))]];
    var d1 := data[..1];
    var d2 := data[..2];
    assert d2[..1] == d1;
    assert d1[..0] == [];
    assert TimestampOf(data[0]) == Some(Str("b"));
    assert TimestampOf(data[1]) == Some(Str("unknown"));
    assert TimestampOf(data[2]) == Some(Str("a"));
    assert StrLess("a", "b") by {
      assert "a"[0] < "b"[0];
    }
    assert StrLess("b", "unknown") by {
      assert "b"[0] < "unknown"[0];
    }
    assert StrLess("a", "unknown") by {
      assert "a"[0] < "unknown"[0];
    }
    StrLessAsymmetric("a", "unknown");
    assert Latest(d1) == Some(Str("b"));
    assert Latest(d2) == Some(Str("unknown"));
    assert LatestFixed(d1) == Stamp(Str("b"));
    assert LatestFixed(d2) == Stamp(Str("unknown"));
  }

  /** `latest_ts` as it is evidently meant to be read: no timestamp seen
      yet, the greatest one so far, or a comparison that raised. */
  datatype Running = NoStamp | Stamp(value: Value) | Raised

  /** `"unknown"` when no timestamp was seen, as the loop reports it. */
  function Shown(r: Running): (o: Option<Value>)
    ensures o.None? <==> r.Raised?
  {
    match r
    case NoStamp => Some(Str("unknown"))
    case Stamp(v) => Some(v)
    case Raised => None
  }

  /** One turn of the corrected loop: the first timestamp is taken whatever
      its value, later ones by `>`. */
  function LatestStepFixed(prev: Running, rec: Dict<Value>): Running
  {
    match prev
    case Raised => Raised
    case NoStamp =>
      (match TimestampOf(rec)
       case None => NoStamp
       case Some(t) => Stamp(t))
    case Stamp(latest) =>
      match TimestampOf(rec)
      case None => prev
      case Some(t) =>
        match PyGreater(t, latest)
        case None => Raised
        case Some(greater) => Stamp(if greater then t else latest)
  }

  /** The corrected latest-timestamp fold. */
  function LatestFixed(data: seq<Dict<Value>>): Running
  {
    if data == [] then NoStamp
    else LatestStepFixed(LatestFixed(data[..|data| - 1]), data[|data| - 1])
  }

  /** The two orders `>` is total on: numbers by value, strings by code
      points. */
  datatype Kind = Numbers | Strings

  predicate OfKind(k: Kind, v: Value)
  {
    match k
    case Numbers => IsNumber(v)
    case Strings => v.Str?
  }

  /** `a <= b` in Python, for two numbers or two strings. */
  predicate ValueLeq(a: Value, b: Value)
  {
    || (IsNumber(a) && IsNumber(b) && NumberOf(a) <= NumberOf(b))
    || (a.Str? && b.Str? && StrLeq(a.s, b.s))
  }

  /** Every timestamp present is of kind `k`. */
  predicate StampsOfKind(k: Kind, data: seq<Dict<Value>>)
  {
    forall j :: 0 <= j < |data| ==> TimestampOf(data[j]).Some? ==> OfKind(k, TimestampOf(data[j]).value)
  }

  /** On one kind, `>` never raises and decides `<=` both ways. */
  lemma GreaterDecidesLeq(k: Kind, t: Value, l: Value)
    requires OfKind(k, t) && OfKind(k, l)
    ensures PyGreater(t, l).Some?
    ensures PyGreater(t, l).value ==> ValueLeq(l, t)
    ensures !PyGreater(t, l).value ==> ValueLeq(t, l)
    ensures ValueLeq(t, t)
  {
    if k == Strings {
      StrLessIrreflexive(t.s);
      if StrLess(l.s, t.s) {
        StrLessAsymmetric(l.s, t.s);
      }
    }
  }

  lemma ValueLeqTransitive(k: Kind, a: Value, b: Value, c: Value)
    requires OfKind(k, a) && OfKind(k, b) && OfKind(k, c)
    requires ValueLeq(a, b) && ValueLeq(b, c)
    ensures ValueLeq(a, c)
  {
    if k == Strings {
      StrLeqTransitive(a.s, b.s, c.s);
    }
  }

  /** With timestamps of one kind, one turn of the corrected loop never
      raises and keeps the greater of what it had and the record's
      timestamp. */
  lemma StepFixedKeepsGreatest(k: Kind, prev: Running, rec: Dict<Value>)
    requires !prev.Raised? && (prev.Stamp? ==> OfKind(k, prev.value))
    requires TimestampOf(rec).Some? ==> OfKind(k, TimestampOf(rec).value)
    ensures var r := LatestStepFixed(prev, rec);
      && !r.Raised?
      && (r.NoStamp? <==> prev.NoStamp? && TimestampOf(rec).None?)
      && (r.Stamp? ==> OfKind(k, r.value) && (r == prev || Some(r.value) == TimestampOf(rec)))
      && (prev.Stamp? ==> r.Stamp? && ValueLeq(prev.value, r.value))
      && (TimestampOf(rec).Some? ==> r.Stamp? && ValueLeq(TimestampOf(rec).value, r.value))
  {
    if TimestampOf(rec).Some? {
      var t := TimestampOf(rec).value;
      GreaterDecidesLeq(k, t, t);
      if prev.Stamp? {
        GreaterDecidesLeq(k, t, prev.value);
        GreaterDecidesLeq(k, prev.value, prev.value);
      }
    } else if prev.Stamp? {
      GreaterDecidesLeq(k, prev.value, prev.value);
    }
  }

  /** With timestamps of one kind, the corrected loop never raises. It
      reports no timestamp exactly when no record has one, and otherwise
      one of the timestamps. */
  lemma {:induction false} LatestFixedIsStamp(k: Kind, data: seq<Dict<Value>>)
    requires StampsOfKind(k, data)
    ensures !LatestFixed(data).Raised?
    ensures LatestFixed(data).NoStamp? <==> forall j :: 0 <= j < |data| ==> TimestampOf(data[j]).None?
    ensures LatestFixed(data).Stamp? ==>
      && OfKind(k, LatestFixed(data).value)
      && exists j :: 0 <= j < |data| && TimestampOf(data[j]) == Some(LatestFixed(data).value)
  {
    if data != [] {
      var n := |data| - 1;
      var init := data[..n];
      assert forall j :: 0 <= j < n ==> init[j] == data[j];
      LatestFixedIsStamp(k, init);
      StepFixedKeepsGreatest(k, LatestFixed(init), data[n]);
      var r := LatestFixed(data);
      if r.Stamp? && r == LatestFixed(init) {
        var j :| 0 <= j < n && TimestampOf(init[j]) == Some(r.value);
        assert TimestampOf(data[j]) == Some(r.value);
      }
    }
  }

  /** With timestamps of one kind, what the corrected loop reports is at
      least as great as every timestamp. */
  lemma {:induction false} LatestFixedIsGreatest(k: Kind, data: seq<Dict<Value>>)
    requires StampsOfKind(k, data)
    ensures forall j :: 0 <= j < |data| && TimestampOf(data[j]).Some? ==>
      LatestFixed(data).Stamp? && ValueLeq(TimestampOf(data[j]).value, LatestFixed(data).value)
  {
    if data != [] {
      var n := |data| - 1;
      var init := data[..n];
      assert forall j :: 0 <= j < n ==> init[j] == data[j];
      LatestFixedIsGreatest(k, init);
      LatestFixedIsStamp(k, init);
      var prev := LatestFixed(init);
      StepFixedKeepsGreatest(k, prev, data[n]);
      var r := LatestFixed(data);
      forall j | 0 <= j < n && TimestampOf(data[j]).Some?
        ensures r.Stamp? && ValueLeq(TimestampOf(data[j]).value, r.value)
      {
        ValueLeqTransitive(k, TimestampOf(data[j]).value, prev.value, r.value);
      }
    }
  }

  /** Where no record is stamped `"unknown"`, the loop as written agrees
      with the corrected one. */
  lemma {:induction false} LatestAgrees(data: seq<Dict<Value>>)
    requires forall j :: 0 <= j < |data| ==> TimestampOf(data[j]) != Some(Str("unknown"))
    ensures Latest(data) == Shown(LatestFixed(data))
    ensures LatestFixed(data) != Stamp(Str("unknown"))
  {
    if data != [] {
      var n := |data| - 1;
      var init := data[..n];
      assert forall j :: 0 <= j < n ==> init[j] == data[j];
      LatestAgrees(init);
    }
  }

  /** With numeric timestamps, the loop as written gives `"unknown"` exactly
      when no record has a timestamp, and otherwise the greatest of them by
      value, which is one of them. */
  lemma LatestIsGreatestNumber(data: seq<Dict<Value>>)
    requires StampsOfKind(Numbers, data)
    ensures Latest(data).Some?
    ensures Latest(data) == Some(Str("unknown")) <==> forall j :: 0 <= j < |data| ==> TimestampOf(data[j]).None?
    ensures Latest(data) != Some(Str("unknown")) ==>
      && IsNumber(Latest(data).value)
      && (exists j :: 0 <= j < |data| && TimestampOf(data[j]) == Latest(data))
      && forall j :: 0 <= j < |data| && TimestampOf(data[j]).Some? ==>
           NumberOf(TimestampOf(data[j]).value) <= NumberOf(Latest(data).value)
  {
    assert forall j :: 0 <= j < |data| ==> TimestampOf(data[j]) != Some(Str("unknown"));
    LatestAgrees(data);
    LatestFixedIsStamp(Numbers, data);
    LatestFixedIsGreatest(Numbers, data);
  }
}
