/** The rule-based field classifier (src/classifier.py): each field summary
    of the analyzer is read back as `FieldStats` and sent to SQL, to MONGO,
    or to BOTH by a first-match cascade of a mandatory-name rule, a type
    stability gate and a weighted penalty score. */
module Classifier {
  import opened Json
  import opened Analyzer

  /** What a field is read as: the analyzer's summary entry plus a
      `dominantPattern`, which the classification never looks at. */
  datatype FieldStats = FieldStats(
    fieldName: string,
    frequency: real,
    dominantType: string,
    typeStability: real,
    cardinality: real,
    isNested: bool,
    isArray: bool,
    dominantPattern: string)

  datatype Decision = SQL | MONGO | BOTH

  function DecisionName(d: Decision): string
  {
    match d
    case SQL => "SQL"
    case MONGO => "MONGO"
    case BOTH => "BOTH"
  }

  datatype Flag = UnstableType | Sparsity | ComplexStructure | LowCardinality

  function FlagName(f: Flag): string
  {
    match f
    case UnstableType => "UNSTABLE_TYPE"
    case Sparsity => "SPARSITY"
    case ComplexStructure => "COMPLEX_STRUCTURE"
    case LowCardinality => "LOW_CARDINALITY"
  }

  /** The order in which the cascade can raise the flags. */
  function Rank(f: Flag): nat
  {
    match f
    case UnstableType => 0
    case Sparsity => 1
    case ComplexStructure => 2
    case LowCardinality => 3
  }

  /** The `WEIGHTS` dict: one weight per penalty. */
  datatype Weights = Weights(sparsity: real, nested: real, lowCardinality: real)

  /** The `THRESHOLDS` dict. */
  datatype Limits = Limits(densityLimit: real, stabilityLimit: real, cardinalityLimit: real)

  /** `SchemaClassifier(weights, limits, threshold)`; it never changes its
      fields, so it is a value. */
  datatype SchemaClassifier = SchemaClassifier(weights: Weights, limits: Limits, threshold: real)

  const DefaultWeights := Weights(1.5, 2.0, 1.0)
  const DefaultLimits := Limits(0.6, 0.99, 0.1)
  const MongoScoreThreshold: real := 0.3
  const MandatoryBoth: set<string> := {"username", "timestamp", "sys_ingested_time"}

  /** The classifier `runPipeline` builds. */
  const Default := SchemaClassifier(DefaultWeights, DefaultLimits, MongoScoreThreshold)

  /** The dict `classifyField` returns. `score` is the exact normalised
      score; the source rounds it to three decimals for display only. */
  datatype FieldResult = FieldResult(fieldName: string, decision: Decision, score: real, flags: seq<Flag>, reason: string)

  /** `sum(self.weights.values())`. */
  function MaxScore(w: Weights): real
  {
    w.sparsity + w.nested + w.lowCardinality
  }

  /** The weight a penalty flag adds to the score. */
  function Weight(w: Weights, f: Flag): real
    requires f != UnstableType
  {
    match f
    case Sparsity => w.sparsity
    case ComplexStructure => w.nested
    case LowCardinality => w.lowCardinality
  }

  function WeightSum(w: Weights, flags: seq<Flag>): real
    requires UnstableType !in flags
  {
    if flags == [] then 0.0 else Weight(w, flags[0]) + WeightSum(w, flags[1..])
  }

  /** The comparison behind each flag. A nested field whose dominant type is
      a scalar raises nothing. */
  predicate Fires(c: SchemaClassifier, s: FieldStats, f: Flag)
  {
    match f
    case UnstableType => s.typeStability < c.limits.stabilityLimit
    case Sparsity => s.frequency < c.limits.densityLimit
    case ComplexStructure => s.isArray || s.dominantType in ["object", "dict", "array"]
    case LowCardinality => s.cardinality < c.limits.cardinalityLimit
  }

  /** The field leaves the cascade before the score is computed. */
  predicate Gated(c: SchemaClassifier, s: FieldStats)
  {
    s.fieldName in MandatoryBoth || Fires(c, s, UnstableType)
  }

  /** The penalty part of `classifyField`: the accumulated `score` and the
      flags, checked in the order sparsity, structure, cardinality. */
  function Penalties(c: SchemaClassifier, s: FieldStats): (real, seq<Flag>)
  {
    var (s1, f1) := if Fires(c, s, Sparsity) then (c.weights.sparsity, [Sparsity]) else (0.0, []);
    var (s2, f2) := if Fires(c, s, ComplexStructure) then (s1 + c.weights.nested, f1 + [ComplexStructure]) else (s1, f1);
    if Fires(c, s, LowCardinality) then (s2 + c.weights.lowCardinality, f2 + [LowCardinality]) else (s2, f2)
  }

  /** `classifyField`. Python raises `ZeroDivisionError` when the weights add
      up to zero and the field gets past both early exits. */
  function ClassifyField(c: SchemaClassifier, s: FieldStats): (r: FieldResult)
    requires Gated(c, s) || MaxScore(c.weights) != 0.0
    ensures r.fieldName == s.fieldName
    ensures r.decision == BOTH <==> s.fieldName in MandatoryBoth
  {
    if s.fieldName in MandatoryBoth then
      FieldResult(s.fieldName, BOTH, 0.0, [], "Mandatory Field")
    else if s.typeStability < c.limits.stabilityLimit then
      FieldResult(s.fieldName, MONGO, 1.0, [UnstableType], "Hard Gate: Unstable Types")
    else
      var (score, flags) := Penalties(c, s);
      var normalized := score / MaxScore(c.weights);
      if normalized > c.threshold then FieldResult(s.fieldName, MONGO, normalized, flags, "Score Threshold Exceeded")
      else FieldResult(s.fieldName, SQL, normalized, flags, "Safe for SQL")
  }

  /** A mandatory field is BOTH with score 0 and no flags, whatever its
      statistics. */
  lemma MandatoryFields(c: SchemaClassifier, s: FieldStats, t: FieldStats)
    requires s.fieldName in MandatoryBoth && t.fieldName == s.fieldName
    ensures ClassifyField(c, s) == ClassifyField(c, t)
    ensures ClassifyField(c, s).decision == BOTH && ClassifyField(c, s).score == 0.0
    ensures ClassifyField(c, s).flags == []
  {
  }

  /** Otherwise an unstable type sends the field to MONGO with score 1 and
      the single flag `UNSTABLE_TYPE`, whatever the other statistics. */
  lemma UnstableGate(c: SchemaClassifier, s: FieldStats)
    requires s.fieldName !in MandatoryBoth && s.typeStability < c.limits.stabilityLimit
    ensures var r := ClassifyField(c, s);
      r.decision == MONGO && r.score == 1.0 && r.flags == [UnstableType]
  {
  }

  /** Past the gate, a flag is raised exactly when its comparison holds, and
      the flags come in cascade order, each at most once. */
  lemma PenaltyFlags(c: SchemaClassifier, s: FieldStats)
    requires !Gated(c, s) && MaxScore(c.weights) != 0.0
    ensures var flags := ClassifyField(c, s).flags;
      && (forall f :: f in flags <==> f != UnstableType && Fires(c, s, f))
      && (forall i, j :: 0 <= i < j < |flags| ==> Rank(flags[i]) < Rank(flags[j]))
  {
  }

  /** The penalty score is the sum of the weights of the flags raised. */
  lemma PenaltiesAreWeights(c: SchemaClassifier, s: FieldStats)
    ensures UnstableType !in Penalties(c, s).1
    ensures Penalties(c, s).0 == WeightSum(c.weights, Penalties(c, s).1)
  {
    var w := c.weights;
    var flags := Penalties(c, s).1;
    assert WeightSum(w, [LowCardinality]) == w.lowCardinality;
    assert WeightSum(w, [ComplexStructure]) == w.nested;
    if flags != [] && flags[0] != Sparsity {
      assert flags[1..] == [] || flags[1..] == [LowCardinality];
    } else if flags != [] {
      assert flags[1..] == [] || flags[1..] == [LowCardinality] || flags[1..] == [ComplexStructure]
        || flags[1..] == [ComplexStructure, LowCardinality];
      assert WeightSum(w, [ComplexStructure, LowCardinality]) == w.nested + w.lowCardinality;
    }
  }

  /** Past the gate, the score is the raised weights over all the weights. */
  lemma ScoreIsRatio(c: SchemaClassifier, s: FieldStats)
    requires !Gated(c, s) && MaxScore(c.weights) != 0.0
    ensures UnstableType !in ClassifyField(c, s).flags
    ensures ClassifyField(c, s).score == WeightSum(c.weights, ClassifyField(c, s).flags) / MaxScore(c.weights)
  {
    PenaltiesAreWeights(c, s);
  }

  /** Past the gate, the decision is MONGO exactly when the unrounded score
      is strictly above the threshold, and SQL otherwise. */
  lemma DecisionByThreshold(c: SchemaClassifier, s: FieldStats)
    requires !Gated(c, s) && MaxScore(c.weights) != 0.0
    ensures var r := ClassifyField(c, s);
      && (r.decision == MONGO <==> r.score > c.threshold)
      && (r.decision == SQL <==> r.score <= c.threshold)
  {
  }

  /** With non-negative weights adding up to more than zero, every score is
      in [0, 1]. */
  lemma ScoreInUnitInterval(c: SchemaClassifier, s: FieldStats)
    requires c.weights.sparsity >= 0.0 && c.weights.nested >= 0.0 && c.weights.lowCardinality >= 0.0
    requires MaxScore(c.weights) > 0.0
    ensures 0.0 <= ClassifyField(c, s).score <= 1.0
  {
    if !Gated(c, s) {
      PenaltiesAreWeights(c, s);
      var p := Penalties(c, s).0;
      assert 0.0 <= p <= MaxScore(c.weights);
      RatioInUnitInterval(p, MaxScore(c.weights));
    }
  }

  lemma RatioInUnitInterval(a: real, b: real)
    requires 0.0 <= a <= b && b > 0.0
    ensures 0.0 <= a / b <= 1.0
  {
    var q := a / b;
    assert q * b == a;
  }

  /** With the default tables a field past the gate goes to MONGO exactly
      when it is sparse or complex: the low-cardinality weight alone (1 of
      4.5) stays under the 0.3 threshold, and each of the other two is
      above it. */
  lemma DefaultDecision(s: FieldStats)
    requires !Gated(Default, s)
    ensures var r := ClassifyField(Default, s);
      r.decision == MONGO <==> Sparsity in r.flags || ComplexStructure in r.flags
  {
    var (p, flags) := Penalties(Default, s);
    PenaltiesAreWeights(Default, s);
    var q := p / 4.5;
    assert q * 4.5 == p;
    assert Sparsity in flags || ComplexStructure in flags <==> p >= 1.5;
  }

  /** `isNested` never changes the outcome. */
  lemma NestedIsIrrelevant(c: SchemaClassifier, s: FieldStats, nested: bool)
    requires Gated(c, s) || MaxScore(c.weights) != 0.0
    ensures ClassifyField(c, s.(isNested := nested)) == ClassifyField(c, s)
  {
    assert Penalties(c, s.(isNested := nested)) == Penalties(c, s);
  }

  /** Why a field record could not be read. */
  datatype LoadError = KeyError(key: string) | TypeError(key: string)

  datatype Result<T> = Ok(value: T) | Err(error: LoadError)
  {
    predicate IsFailure()
    {
      Err?
    }

    function PropagateFailure<U>(): Result<U>
      requires Err?
    {
      Err(error)
    }

    function Extract(): T
      requires Ok?
    {
      value
    }
  }

  /** `record[key]` used as a number. */
  function GetNumber(rec: Dict<Value>, key: string): (r: Result<real>)
    ensures r.Ok? ==> exists v :: (key, v) in rec && IsNumber(v) && r.value == NumberOf(v)
    ensures r == Err(KeyError(key)) <==> key !in Keys(rec)
  {
    match Lookup(rec, key)
    case None => Err(KeyError(key))
    case Some(v) => if IsNumber(v) then Ok(NumberOf(v)) else Err(TypeError(key))
  }

  /** `record[key]` used as a string. */
  function GetString(rec: Dict<Value>, key: string): (r: Result<string>)
    ensures r.Ok? ==> (key, Str(r.value)) in rec
    ensures r == Err(KeyError(key)) <==> key !in Keys(rec)
  {
    match Lookup(rec, key)
    case None => Err(KeyError(key))
    case Some(v) => if v.Str? then Ok(v.s) else Err(TypeError(key))
  }

  /** Python truthiness, as `if field.isArray` reads a flag. */
  predicate Truthy(v: Value)
  {
    match v
    case Null => false
    case Bool(b) => b
    case Int(i) => i != 0
    case Float(x, _) => x != 0.0
    case Str(s) => s != []
    case Array(items) => items != []
    case Object(fields) => fields != []
  }

  /** `record[key]` used as a flag. */
  function GetFlag(rec: Dict<Value>, key: string): (r: Result<bool>)
    ensures r.Ok? <==> key in Keys(rec)
  {
    match Lookup(rec, key)
    case None => Err(KeyError(key))
    case Some(v) => Ok(Truthy(v))
  }

  /** The `FieldStats(...)` construction of `runPipeline`, as written: the
      keyword arguments are read in order and the first missing key raises
      `KeyError`, including `dominant_pattern`. */
  function LoadFieldStats(rec: Dict<Value>): Result<FieldStats>
  {
    var name :- GetString(rec, "field_name");
    var frequency :- GetNumber(rec, "frequency");
    var dominantType :- GetString(rec, "dominant_type");
    var stability :- GetNumber(rec, "type_stability");
    var cardinality :- GetNumber(rec, "cardinality");
    var nested :- GetFlag(rec, "is_nested");
    var isArray :- GetFlag(rec, "is_array");
    var pattern :- GetString(rec, "dominant_pattern");
    Ok(FieldStats(name, frequency, dominantType, stability, cardinality, nested, isArray, pattern))
  }

  /** `dominantPattern` when absent: the analyzer's "no pattern". */
  const NoPattern := "none"

  /** The loader as it is evidently meant to be: `dominant_pattern` is
      optional, as `record.get('dominant_pattern', 'none')` would read it. */
  function LoadFieldStatsFixed(rec: Dict<Value>): Result<FieldStats>
  {
    var name :- GetString(rec, "field_name");
    var frequency :- GetNumber(rec, "frequency");
    var dominantType :- GetString(rec, "dominant_type");
    var stability :- GetNumber(rec, "type_stability");
    var cardinality :- GetNumber(rec, "cardinality");
    var nested :- GetFlag(rec, "is_nested");
    var isArray :- GetFlag(rec, "is_array");
    var pattern :- if "dominant_pattern" in Keys(rec) then GetString(rec, "dominant_pattern") else Ok(NoPattern);
    Ok(FieldStats(name, frequency, dominantType, stability, cardinality, nested, isArray, pattern))
  }

  /** `rec` holds, under the seven keys the analyzer writes, the values of
      `s`. */
  predicate Carries(rec: Dict<Value>, s: FieldStats)
  {
    && GetString(rec, "field_name") == Ok(s.fieldName)
    && GetNumber(rec, "frequency") == Ok(s.frequency)
    && GetString(rec, "dominant_type") == Ok(s.dominantType)
    && GetNumber(rec, "type_stability") == Ok(s.typeStability)
    && GetNumber(rec, "cardinality") == Ok(s.cardinality)
    && GetFlag(rec, "is_nested") == Ok(s.isNested)
    && GetFlag(rec, "is_array") == Ok(s.isArray)
  }

  /** Without `dominant_pattern`, the loader as written fails on it, however
      good the rest of the record. */
  lemma LoadWithoutPattern(rec: Dict<Value>, s: FieldStats)
    requires Carries(rec, s) && "dominant_pattern" !in Keys(rec)
    ensures LoadFieldStats(rec) == Err(KeyError("dominant_pattern"))
  {
  }

  /** The corrected loader reads back what the record carries. */
  lemma LoadCarried(rec: Dict<Value>, s: FieldStats)
    requires Carries(rec, s) && "dominant_pattern" !in Keys(rec) && s.dominantPattern == NoPattern
    ensures LoadFieldStatsFixed(rec) == Ok(s)
  {
  }

  /** The stats a summary entry stands for. */
  function StatsOf(e: FieldSummary): FieldStats
  {
    FieldStats(e.fieldName, e.frequency, e.dominantType, e.typeStability, e.cardinality, e.isNested, e.isArray, NoPattern)
  }

  /** What the loader finds in an entry the analyzer wrote. */
  lemma SummaryRecordFields(e: FieldSummary, repr: real -> string)
    ensures var rec := SummaryRecord(e, repr);
      && Lookup(rec, "field_name") == Some(Str(e.fieldName))
      && Lookup(rec, "frequency") == Some(Float(e.frequency, repr(e.frequency)))
      && Lookup(rec, "dominant_type") == Some(Str(e.dominantType))
      && Lookup(rec, "type_stability") == Some(Float(e.typeStability, repr(e.typeStability)))
      && Lookup(rec, "cardinality") == Some(Float(e.cardinality, repr(e.cardinality)))
      && Lookup(rec, "is_nested") == Some(Bool(e.isNested))
      && Lookup(rec, "is_array") == Some(Bool(e.isArray))
      && "dominant_pattern" !in Keys(rec)
  {
    var empty: Dict<Value> := [];
    var r6 := [("is_array", Bool(e.isArray))] + empty;
    var r5 := [("is_nested", Bool(e.isNested))] + r6;
    var r4 := [("cardinality", Float(e.cardinality, repr(e.cardinality)))] + r5;
    var r3 := [("type_stability", Float(e.typeStability, repr(e.typeStability)))] + r4;
    var r2 := [("dominant_type", Str(e.dominantType))] + r3;
    var r1 := [("frequency", Float(e.frequency, repr(e.frequency)))] + r2;
    var r0 := [("field_name", Str(e.fieldName))] + r1;
    assert SummaryRecord(e, repr) == r0;
    LookupCons("is_array", Bool(e.isArray), empty);
    LookupCons("is_nested", Bool(e.isNested), r6);
    LookupCons("cardinality", Float(e.cardinality, repr(e.cardinality)), r5);
    LookupCons("type_stability", Float(e.typeStability, repr(e.typeStability)), r4);
    LookupCons("dominant_type", Str(e.dominantType), r3);
    LookupCons("frequency", Float(e.frequency, repr(e.frequency)), r2);
    LookupCons("field_name", Str(e.fieldName), r1);
    assert Lookup(r6, "is_array") == Some(Bool(e.isArray));
    assert Lookup(r5, "is_nested") == Some(Bool(e.isNested));
    assert Lookup(r4, "cardinality") == Some(Float(e.cardinality, repr(e.cardinality)));
    assert Lookup(r3, "type_stability") == Some(Float(e.typeStability, repr(e.typeStability)));
    assert Lookup(r2, "dominant_type") == Some(Str(e.dominantType));
    assert Lookup(r1, "frequency") == Some(Float(e.frequency, repr(e.frequency)));
    assert Lookup(r0, "field_name") == Some(Str(e.fieldName));
    assert Lookup(r0, "dominant_pattern") == None;
  }

  lemma ReadString(rec: Dict<Value>, key: string, x: string)
    requires Lookup(rec, key) == Some(Str(x))
    ensures GetString(rec, key) == Ok(x)
  {
  }

  lemma ReadNumber(rec: Dict<Value>, key: string, x: real, text: string)
    requires Lookup(rec, key) == Some(Float(x, text))
    ensures GetNumber(rec, key) == Ok(x)
  {
  }

  lemma ReadFlag(rec: Dict<Value>, key: string, b: bool)
    requires Lookup(rec, key) == Some(Bool(b))
    ensures GetFlag(rec, key) == Ok(b)
  {
  }

  /** Lookups that find the values of `s` mean `rec` carries `s`. */
  lemma CarriesByLookups(rec: Dict<Value>, s: FieldStats, repr: real -> string)
    requires Lookup(rec, "field_name") == Some(Str(s.fieldName))
    requires Lookup(rec, "frequency") == Some(Float(s.frequency, repr(s.frequency)))
    requires Lookup(rec, "dominant_type") == Some(Str(s.dominantType))
    requires Lookup(rec, "type_stability") == Some(Float(s.typeStability, repr(s.typeStability)))
    requires Lookup(rec, "cardinality") == Some(Float(s.cardinality, repr(s.cardinality)))
    requires Lookup(rec, "is_nested") == Some(Bool(s.isNested))
    requires Lookup(rec, "is_array") == Some(Bool(s.isArray))
    ensures Carries(rec, s)
  {
    ReadString(rec, "field_name", s.fieldName);
    ReadNumber(rec, "frequency", s.frequency, repr(s.frequency));
    ReadString(rec, "dominant_type", s.dominantType);
    ReadNumber(rec, "type_stability", s.typeStability, repr(s.typeStability));
    ReadNumber(rec, "cardinality", s.cardinality, repr(s.cardinality));
    ReadFlag(rec, "is_nested", s.isNested);
    ReadFlag(rec, "is_array", s.isArray);
  }

  /** An entry the analyzer wrote carries its summary, and no pattern. */
  lemma SummaryRecordCarries(e: FieldSummary, repr: real -> string)
    ensures Carries(SummaryRecord(e, repr), StatsOf(e))
    ensures "dominant_pattern" !in Keys(SummaryRecord(e, repr))
  {
    SummaryRecordFields(e, repr);
    CarriesByLookups(SummaryRecord(e, repr), StatsOf(e), repr);
  }

  /** The analyzer writes no `dominant_pattern`, so every entry it writes
      fails to load. */
  lemma LoaderRejectsAnalyzerOutput(e: FieldSummary, repr: real -> string)
    ensures LoadFieldStats(SummaryRecord(e, repr)) == Err(KeyError("dominant_pattern"))
  {
    SummaryRecordCarries(e, repr);
    LoadWithoutPattern(SummaryRecord(e, repr), StatsOf(e));
  }

  /** Round trip: the corrected loader reads back exactly the entry the
      analyzer wrote. */
  lemma LoadSummaryRecord(e: FieldSummary, repr: real -> string)
    ensures LoadFieldStatsFixed(SummaryRecord(e, repr)) == Ok(StatsOf(e))
  {
    SummaryRecordCarries(e, repr);
    LoadCarried(SummaryRecord(e, repr), StatsOf(e));
  }

  /** One field of `runPipeline`: load it, then classify it. */
  function ClassifyRecord(rec: Dict<Value>): Result<FieldResult>
  {
    var stats :- LoadFieldStatsFixed(rec);
    Ok(ClassifyField(Default, stats))
  }

  /** `f` applied to each element in order, or the error of the first
      element it fails on. */
  function MapAll<T, U>(f: T -> Result<U>, xs: seq<T>): Result<seq<U>>
  {
    if xs == [] then Ok([])
    else
      var out :- MapAll(f, xs[..|xs| - 1]);
      var y :- f(xs[|xs| - 1]);
      Ok(out + [y])
  }

  /** Once an element fails, the whole map fails with its error. */
  lemma {:induction false} MapAllErrorStays<T, U>(f: T -> Result<U>, xs: seq<T>, i: nat, e: LoadError)
    requires i <= |xs| && MapAll(f, xs[..i]) == Err(e)
    ensures MapAll(f, xs) == Err(e)
    decreases |xs| - i
  {
    if i < |xs| {
      assert xs[..i + 1][..i] == xs[..i];
      MapAllErrorStays(f, xs, i + 1, e);
    } else {
      assert xs[..i] == xs;
    }
  }

  /** The map succeeds exactly when `f` succeeds on every element, and then
      holds one result per element, in order. */
  lemma {:induction false} MapAllResults<T, U>(f: T -> Result<U>, xs: seq<T>)
    ensures MapAll(f, xs).Ok? <==> forall i :: 0 <= i < |xs| ==> f(xs[i]).Ok?
    ensures MapAll(f, xs).Ok? ==>
      && |MapAll(f, xs).value| == |xs|
      && forall i :: 0 <= i < |xs| ==> MapAll(f, xs).value[i] == f(xs[i]).value
  {
    if xs != [] {
      var init := xs[..|xs| - 1];
      MapAllResults(f, init);
      assert forall i :: 0 <= i < |init| ==> init[i] == xs[i];
    }
  }

  /** `runPipeline` without its printing and file I/O: `records` is
      `data['fields']`; the results are `output_records`. */
  method RunPipeline(records: seq<Dict<Value>>) returns (r: Result<seq<FieldResult>>)
    ensures r == MapAll(ClassifyRecord, records)
  {
    var out: seq<FieldResult> := [];
    var i := 0;
    while i < |records|
      invariant 0 <= i <= |records|
      invariant MapAll(ClassifyRecord, records[..i]) == Ok(out)
    {
      assert records[..i + 1][..i] == records[..i];
      var res := ClassifyRecord(records[i]);
      if res.Err? {
        MapAllErrorStays(ClassifyRecord, records, i + 1, res.error);
        return Err(res.error);
      }
      out := out + [res.value];
      i := i + 1;
    }
    assert records[..i] == records;
    return Ok(out);
  }

  function SummaryRecords(fields: seq<FieldSummary>, repr: real -> string): (recs: seq<Dict<Value>>)
    ensures |recs| == |fields| && forall i :: 0 <= i < |fields| ==> recs[i] == SummaryRecord(fields[i], repr)
  {
    if fields == [] then [] else [SummaryRecord(fields[0], repr)] + SummaryRecords(fields[1..], repr)
  }

  /** On what the analyzer writes, the pipeline classifies every field, in
      the analyzer's order. */
  lemma PipelineOnSummary(s: Summary, repr: real -> string)
    ensures MapAll(ClassifyRecord, SummaryRecords(s.fields, repr)).Ok?
    ensures var out := MapAll(ClassifyRecord, SummaryRecords(s.fields, repr)).value;
      && |out| == |s.fields|
      && forall i :: 0 <= i < |out| ==> out[i] == ClassifyField(Default, StatsOf(s.fields[i]))
  {
    var recs := SummaryRecords(s.fields, repr);
    forall i | 0 <= i < |recs| ensures ClassifyRecord(recs[i]) == Ok(ClassifyField(Default, StatsOf(s.fields[i]))) {
      LoadSummaryRecord(s.fields[i], repr);
    }
    MapAllResults(ClassifyRecord, recs);
  }

  /** One field of `runPipeline` with the loader as written, which reads
      `dominant_pattern`. */
  function ClassifyRecordAsWritten(rec: Dict<Value>): Result<FieldResult>
  {
    var stats :- LoadFieldStats(rec);
    Ok(ClassifyField(Default, stats))
  }

  /** As written, the pipeline fed the analyzer's own summary stops at its
      first field with `KeyError: 'dominant_pattern'`. */
  lemma PipelineAsWrittenFails(s: Summary, repr: real -> string)
    requires s.fields != []
    ensures MapAll(ClassifyRecordAsWritten, SummaryRecords(s.fields, repr)) == Err(KeyError("dominant_pattern"))
  {
    var recs := SummaryRecords(s.fields, repr);
    LoaderRejectsAnalyzerOutput(s.fields[0], repr);
    assert recs[..1] == [recs[0]];
    assert recs[..1][..0] == [];
    MapAllErrorStays(ClassifyRecordAsWritten, recs, 1, KeyError("dominant_pattern"));
  }
}
