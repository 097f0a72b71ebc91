/** The record router (src/router_logger.py): every record of the event
    stream is stamped with its ingest time and split field by field into a
    SQL document and a Mongo document, as the classification manifest
    decides, while a log block per record is written. The HTTP stream, the
    JSON parser and the clock are parameters. */
module Router {
  import opened Text
  import opened Json

  /** One entry of the classification manifest: the two keys the router
      reads from it. */
  datatype ManifestEntry = ManifestEntry(fieldName: string, decision: string)

  /** `{item['fieldName']: item['decision'] for item in results}`. */
  function ClassificationMap(entries: seq<ManifestEntry>): (m: Dict<string>)
    ensures IsDict(m)
    ensures forall k :: k in Keys(m) <==> exists i :: 0 <= i < |entries| && entries[i].fieldName == k
  {
    var pairs := seq(|entries|, i requires 0 <= i < |entries| => (entries[i].fieldName, entries[i].decision));
    assert forall i :: 0 <= i < |entries| ==> Keys(pairs)[i] == entries[i].fieldName;
    FromPairs(pairs)
  }

  /** A field takes the decision of the last manifest entry that names it. */
  lemma ClassificationMapLast(entries: seq<ManifestEntry>, i: nat)
    requires i < |entries|
    requires forall j :: i < j < |entries| ==> entries[j].fieldName != entries[i].fieldName
    ensures Lookup(ClassificationMap(entries), entries[i].fieldName) == Some(entries[i].decision)
  {
    var pairs := seq(|entries|, i requires 0 <= i < |entries| => (entries[i].fieldName, entries[i].decision));
    FromPairsLookup(pairs, entries[i].fieldName);
    LastValueIsLast(pairs, entries[i].fieldName, i);
  }

  /** `schemaMap.get(field, "MONGO")`. */
  function DecisionOf(schema: Dict<string>, field: string): (d: string)
    ensures field !in Keys(schema) ==> d == "MONGO"
    ensures field in Keys(schema) ==> Some(d) == Lookup(schema, field)
  {
    match Lookup(schema, field)
    case None => "MONGO"
    case Some(d) => d
  }

  /** The two documents a record is split into. */
  datatype Side = SqlSide | MongoSide

  /** Whether a field with this decision is copied into the document. */
  predicate Goes(decision: string, side: Side)
  {
    match side
    case SqlSide => decision == "SQL" || decision == "BOTH"
    case MongoSide => decision == "MONGO" || decision == "BOTH"
  }

  /** The document built by `doc[field] = value` for every field whose
      decision sends it to `side`, in record order. */
  function Doc(schema: Dict<string>, fields: Dict<Value>, side: Side): Dict<Value>
  {
    if fields == [] then []
    else
      var init := Doc(schema, fields[..|fields| - 1], side);
      var (f, v) := fields[|fields| - 1];
      if Goes(DecisionOf(schema, f), side) then Put(init, f, v) else init
  }

  /** A document holds a field exactly when its decision sends it there,
      with the record's value for it. */
  lemma {:induction false} DocLookup(schema: Dict<string>, fields: Dict<Value>, side: Side, k: string)
    ensures Lookup(Doc(schema, fields, side), k)
      == if Goes(DecisionOf(schema, k), side) then LastValue(fields, k) else None
  {
    if fields != [] {
      var init := fields[..|fields| - 1];
      var (f, v) := fields[|fields| - 1];
      DocLookup(schema, init, side, k);
      if Goes(DecisionOf(schema, f), side) && f != k {
        PutOthers(Doc(schema, init, side), f, v, k);
      }
    }
  }

  /** The routing table of the router, field by field: an unknown field goes
      to Mongo only, SQL to the SQL document only, BOTH the same value to
      both, MONGO to the Mongo document only, any other decision nowhere. */
  lemma Routing(schema: Dict<string>, rec: Dict<Value>, k: string)
    requires IsDict(rec) && k in Keys(rec)
    ensures var sql := Lookup(Doc(schema, rec, SqlSide), k);
      var mongo := Lookup(Doc(schema, rec, MongoSide), k);
      var d := DecisionOf(schema, k);
      && (k !in Keys(schema) ==> sql == None && mongo == Lookup(rec, k))
      && (d == "SQL" ==> sql == Lookup(rec, k) && mongo == None)
      && (d == "BOTH" ==> sql == Lookup(rec, k) && mongo == Lookup(rec, k))
      && (d == "MONGO" ==> sql == None && mongo == Lookup(rec, k))
      && (d != "SQL" && d != "BOTH" && d != "MONGO" ==> sql == None && mongo == None)
      && Lookup(rec, k).Some?
  {
    DocLookup(schema, rec, SqlSide, k);
    DocLookup(schema, rec, MongoSide, k);
    LastValueOfDict(rec, k);
  }

  /** One `field : decision` line of a log block. */
  function FieldLine(field: string, decision: string): string
  {
    field + " : " + decision + "\n"
  }

  /** The field lines of a log block, in record order. */
  function FieldLines(schema: Dict<string>, fields: Dict<Value>): string
  {
    if fields == [] then ""
    else
      var f := fields[|fields| - 1].0;
      FieldLines(schema, fields[..|fields| - 1]) + FieldLine(f, DecisionOf(schema, f))
  }

  lemma AppendAssociative<T>(x: seq<T>, y: seq<T>, z: seq<T>)
    ensures (x + y) + z == x + (y + z)
  {
  }

  lemma FieldLinesLast(schema: Dict<string>, fields: Dict<Value>, init: Dict<Value>, f: string, v: Value)
    requires fields == init + [(f, v)]
    ensures FieldLines(schema, fields) == FieldLines(schema, init) + FieldLine(f, DecisionOf(schema, f))
  {
    assert fields[..|fields| - 1] == init;
  }

  /** The field lines of two runs of fields are the lines of each in turn. */
  lemma {:induction false} FieldLinesAppend(schema: Dict<string>, a: Dict<Value>, b: Dict<Value>)
    ensures FieldLines(schema, a + b) == FieldLines(schema, a) + FieldLines(schema, b)
  {
    if b == [] {
      assert a + b == a;
    } else {
      var init := b[..|b| - 1];
      var (f, v) := b[|b| - 1];
      assert b == init + [(f, v)];
      assert a + b == (a + init) + [(f, v)];
      FieldLinesLast(schema, a + b, a + init, f, v);
      FieldLinesLast(schema, b, init, f, v);
      FieldLinesAppend(schema, a, init);
      var x, y, z := FieldLines(schema, a), FieldLines(schema, init), FieldLine(f, DecisionOf(schema, f));
      AppendAssociative(x, y, z);
    }
  }

  /** The first header line: when the record arrived. */
  function HeaderArrival(t: string): string
  {
    "Record received at " + t
  }

  /** The second header line: how many fields the record has. */
  function HeaderCount(fieldCount: nat): string
  {
    NatToString(fieldCount) + " Fields"
  }

  /** The header of the log block of a record received at `t`. */
  function Header(t: string, fieldCount: nat): string
  {
    HeaderArrival(t) + "\n" + HeaderCount(fieldCount) + "\n"
  }

  /** The log block of one record: the header, the field count, one line per
      field and a blank line. */
  function LogBlock(t: string, schema: Dict<string>, rec: Dict<Value>): string
  {
    Header(t, |rec|) + FieldLines(schema, rec) + "\n"
  }

  /** Split at its line breaks, the field lines followed by `rest` give one
      `field : decision` line per field, in record order, and then the lines
      of `rest`. */
  lemma {:induction false} FieldLinesSplit(schema: Dict<string>, fields: Dict<Value>, rest: string)
    requires forall i :: 0 <= i < |fields| ==> '\n' !in fields[i].0 && '\n' !in DecisionOf(schema, fields[i].0)
    ensures var ls := Lines(FieldLines(schema, fields) + rest);
      && |ls| == |fields| + |Lines(rest)|
      && (forall i :: 0 <= i < |fields| ==> ls[i] == fields[i].0 + " : " + DecisionOf(schema, fields[i].0))
      && ls[|fields|..] == Lines(rest)
  {
    if fields == [] {
      assert FieldLines(schema, fields) + rest == rest;
    } else {
      var init := fields[..|fields| - 1];
      var (f, v) := fields[|fields| - 1];
      assert fields == init + [(f, v)];
      var d := DecisionOf(schema, f);
      var line := f + " : " + d;
      assert '\n' !in line;
      FieldLinesLast(schema, fields, init, f, v);
      var rest' := FieldLine(f, d) + rest;
      AppendAssociative(FieldLines(schema, init), FieldLine(f, d), rest);
      assert forall i :: 0 <= i < |init| ==> init[i] == fields[i];
      FieldLinesSplit(schema, init, rest');
      assert rest' == line + "\n" + rest;
      LinesAfter(line, rest);
      var ls := Lines(FieldLines(schema, fields) + rest);
      assert ls == Lines(FieldLines(schema, init) + rest');
      assert ls[|init|..] == [line] + Lines(rest);
      assert ls[|init|] == line;
      assert ls[|fields|..] == ls[|init|..][1..];
    }
  }

  /** Split at its line breaks, a log block is the arrival line, the field
      count (of the stamped record), one `field : decision` line per field in
      record order, the blank line, and the empty piece after the final
      break. Line breaks inside the time, a field name or a decision would
      split those lines further. */
  lemma IndexAfterPrefix<T>(head: seq<T>, tail: seq<T>, i: int)
    requires 0 <= i < |tail|
    ensures (head + tail)[|head| + i] == tail[i]
  {
  }

  /** The two header lines come first, the body after them. */
  lemma LogBlockHead(t: string, schema: Dict<string>, rec: Dict<Value>)
    requires '\n' !in t
    ensures Lines(LogBlock(t, schema, rec))
      == [HeaderArrival(t), HeaderCount(|rec|)] + Lines(FieldLines(schema, rec) + "\n")
  {
    var arrival := HeaderArrival(t);
    var count := HeaderCount(|rec|);
    var fl := FieldLines(schema, rec);
    var body := fl + "\n";
    assert '\n' !in arrival;
    assert '\n' !in count by {
      forall i | 0 <= i < |count| ensures count[i] != '\n' {
        if i < |NatToString(|rec|)| {
          assert IsDigit(NatToString(|rec|)[i]);
        }
      }
    }
    var header := Header(t, |rec|);
    assert header == arrival + "\n" + (count + "\n");
    assert LogBlock(t, schema, rec) == header + fl + "\n";
    AppendAssociative(header, fl, "\n");
    AppendAssociative(arrival + "\n", count + "\n", body);
    AppendAssociative(count, "\n", body);
    assert LogBlock(t, schema, rec) == arrival + "\n" + (count + "\n" + body);
    LinesAfter(arrival, count + "\n" + body);
    LinesAfter(count, body);
  }

  lemma LogBlockLines(t: string, schema: Dict<string>, rec: Dict<Value>)
    requires '\n' !in t
    requires forall i :: 0 <= i < |rec| ==> '\n' !in rec[i].0 && '\n' !in DecisionOf(schema, rec[i].0)
    ensures var ls := Lines(LogBlock(t, schema, rec));
      && |ls| == |rec| + 4
      && ls[0] == "Record received at " + t
      && ls[1] == NatToString(|rec|) + " Fields"
      && (forall i :: 0 <= i < |rec| ==> ls[i + 2] == rec[i].0 + " : " + DecisionOf(schema, rec[i].0))
      && ls[|rec| + 2] == ""
      && ls[|rec| + 3] == ""
  {
    LogBlockHead(t, schema, rec);
    FieldLinesSplit(schema, rec, "\n");
    LinesAfter("", "");
    assert Lines("\n") == ["", ""] by {
      assert "" + "\n" + "" == "\n";
    }
    var inner := Lines(FieldLines(schema, rec) + "\n");
    var head := [HeaderArrival(t), HeaderCount(|rec|)];
    var ls := Lines(LogBlock(t, schema, rec));
    assert ls == head + inner;
    assert inner[|rec|..] == ["", ""];
    forall i | 0 <= i < |rec| ensures ls[i + 2] == rec[i].0 + " : " + DecisionOf(schema, rec[i].0) {
      IndexAfterPrefix(head, inner, i);
    }
  }

  /** The key the router stamps every record with. */
  const IngestKey := "sys_ingested_time"

  /** The prefix of a server-sent event line that carries a record. */
  const DataPrefix := "data: "

  /** `recordJson['sys_ingested_time'] = ingestTime`. */
  function Stamp(rec: Dict<Value>, t: string): Dict<Value>
  {
    Put(rec, IngestKey, Str(t))
  }

  /** A stamped record carries its ingest time, and the field count of its
      header counts the stamp. */
  lemma StampAdds(rec: Dict<Value>, t: string)
    requires IsDict(rec)
    ensures IsDict(Stamp(rec, t))
    ensures Lookup(Stamp(rec, t), IngestKey) == Some(Str(t))
    ensures |Stamp(rec, t)| == if IngestKey in Keys(rec) then |rec| else |rec| + 1
  {
    PutIsDict(rec, IngestKey, Str(t));
    PutKeys(rec, IngestKey, Str(t));
  }

  /** What the router has produced so far: the two output lists, the log
      text and the number of records received. */
  datatype Outcome = Outcome(sqlRecords: seq<Dict<Value>>, mongoRecords: seq<Dict<Value>>, log: string, count: nat)

  /** Nothing received yet. */
  const Start := Outcome([], [], "", 0)

  /** Receiving one stamped record: its log block is written and each
      non-empty document is appended to its list. */
  function Receive(out: Outcome, schema: Dict<string>, rec: Dict<Value>, t: string): (r: Outcome)
    ensures r.count == out.count + 1
  {
    var sqlDoc := Doc(schema, rec, SqlSide);
    var mongoDoc := Doc(schema, rec, MongoSide);
    Outcome(
      if sqlDoc != [] then out.sqlRecords + [sqlDoc] else out.sqlRecords,
      if mongoDoc != [] then out.mongoRecords + [mongoDoc] else out.mongoRecords,
      out.log + LogBlock(t, schema, rec),
      out.count + 1)
  }

  /** `json.loads(line[6:])` gives a JSON object, which the stamp can be
      written into. */
  predicate HoldsRecord(parse: string -> Option<Value>, line: string)
    requires StartsWith(line, DataPrefix)
  {
    var p := parse(line[|DataPrefix|..]);
    p.Some? && p.value.Object?
  }

  /** The record a data line holds. */
  function Payload(parse: string -> Option<Value>, line: string): Dict<Value>
    requires StartsWith(line, DataPrefix) && HoldsRecord(parse, line)
  {
    parse(line[|DataPrefix|..]).value.fields
  }

  /** The stream loop from `out` on: lines without the data prefix are
      skipped; a payload that is not JSON, or not a JSON object, raises and
      ends the loop; `now(n)` is the clock reading for the record received
      after `n` others; the loop stops after the record that brings the
      count to `recordCount`. */
  function Run(schema: Dict<string>, lines: seq<string>, parse: string -> Option<Value>,
               now: nat -> string, recordCount: int, out: Outcome): Outcome
    decreases |lines|
  {
    if lines == [] then out
    else if !StartsWith(lines[0], DataPrefix) then Run(schema, lines[1..], parse, now, recordCount, out)
    else if !HoldsRecord(parse, lines[0]) then out
    else
      var t := now(out.count);
      var next := Receive(out, schema, Stamp(Payload(parse, lines[0]), t), t);
      if next.count >= recordCount then next
      else Run(schema, lines[1..], parse, now, recordCount, next)
  }

  /** The lines that carry a record. */
  function DataLines(lines: seq<string>): (r: seq<string>)
    ensures forall i :: 0 <= i < |r| ==> StartsWith(r[i], DataPrefix)
  {
    if lines == [] then []
    else if StartsWith(lines[0], DataPrefix) then [lines[0]] + DataLines(lines[1..])
    else DataLines(lines[1..])
  }

  /** Lines without the data prefix change nothing, not even the count. */
  lemma {:induction false} RunSkipsOtherLines(schema: Dict<string>, lines: seq<string>, parse: string -> Option<Value>,
                                               now: nat -> string, recordCount: int, out: Outcome)
    ensures Run(schema, lines, parse, now, recordCount, out)
         == Run(schema, DataLines(lines), parse, now, recordCount, out)
  {
    if lines != [] {
      if StartsWith(lines[0], DataPrefix) {
        var rest := DataLines(lines[1..]);
        assert ([lines[0]] + rest)[1..] == rest;
        if HoldsRecord(parse, lines[0]) {
          var t := now(out.count);
          var next := Receive(out, schema, Stamp(Payload(parse, lines[0]), t), t);
          RunSkipsOtherLines(schema, lines[1..], parse, now, recordCount, next);
        }
      } else {
        RunSkipsOtherLines(schema, lines[1..], parse, now, recordCount, out);
      }
    }
  }

  /** `r` extends `out` as the loop does: the output lists and the log only
      grow, each list by at most one document per record received, and
      never by an empty document. */
  ghost predicate Extends(out: Outcome, r: Outcome)
  {
    && out.count <= r.count
    && out.sqlRecords <= r.sqlRecords && |r.sqlRecords| - |out.sqlRecords| <= r.count - out.count
    && out.mongoRecords <= r.mongoRecords && |r.mongoRecords| - |out.mongoRecords| <= r.count - out.count
    && (forall i :: |out.sqlRecords| <= i < |r.sqlRecords| ==> r.sqlRecords[i] != [])
    && (forall i :: |out.mongoRecords| <= i < |r.mongoRecords| ==> r.mongoRecords[i] != [])
    && out.log <= r.log
  }

  lemma ExtendsTransitive(a: Outcome, b: Outcome, c: Outcome)
    requires Extends(a, b) && Extends(b, c)
    ensures Extends(a, c)
  {
    assert a.sqlRecords <= c.sqlRecords by {
      assert a.sqlRecords == b.sqlRecords[..|a.sqlRecords|] == c.sqlRecords[..|a.sqlRecords|];
    }
    assert a.mongoRecords <= c.mongoRecords by {
      assert a.mongoRecords == b.mongoRecords[..|a.mongoRecords|] == c.mongoRecords[..|a.mongoRecords|];
    }
    assert a.log <= c.log by {
      assert a.log == b.log[..|a.log|] == c.log[..|a.log|];
    }
  }

  /** Receiving a record extends the outcome by one record. */
  lemma ReceiveExtends(out: Outcome, schema: Dict<string>, rec: Dict<Value>, t: string)
    ensures Extends(out, Receive(out, schema, rec, t))
    ensures Receive(out, schema, rec, t).count == out.count + 1
  {
    var r := Receive(out, schema, rec, t);
    assert out.log <= r.log by {
      assert r.log[..|out.log|] == out.log;
    }
  }

  /** The loop only ever adds to what it has, and it receives no more than
      `recordCount` records in all, except that it always receives the record
      it gets when it has reached `recordCount` already. */
  lemma {:induction false} RunGrows(schema: Dict<string>, lines: seq<string>, parse: string -> Option<Value>,
                                    now: nat -> string, recordCount: int, out: Outcome)
    ensures var r := Run(schema, lines, parse, now, recordCount, out);
      Extends(out, r) && r.count <= Max(out.count + 1, recordCount)
  {
    if lines != [] {
      if !StartsWith(lines[0], DataPrefix) {
        RunGrows(schema, lines[1..], parse, now, recordCount, out);
      } else {
        if HoldsRecord(parse, lines[0]) {
          var rec := Stamp(Payload(parse, lines[0]), now(out.count));
          var next := Receive(out, schema, rec, now(out.count));
          ReceiveExtends(out, schema, rec, now(out.count));
          if next.count < recordCount {
            RunGrows(schema, lines[1..], parse, now, recordCount, next);
            ExtendsTransitive(out, next, Run(schema, lines[1..], parse, now, recordCount, next));
          }
        }
      }
    }
  }

  function Max(a: int, b: int): int
  {
    if a < b then b else a
  }

  function Min(a: int, b: int): int
  {
    if a < b then a else b
  }

  /** Every data line holds a JSON object. */
  predicate AllObjects(lines: seq<string>, parse: string -> Option<Value>)
  {
    forall i :: 0 <= i < |lines| && StartsWith(lines[i], DataPrefix) ==> HoldsRecord(parse, lines[i])
  }

  /** When every data line holds a record, the loop receives `recordCount`
      records, or all there are when fewer, but at least one when there is
      one: a `recordCount` of zero or below still receives a record. */
  lemma {:induction false} RunCount(schema: Dict<string>, lines: seq<string>, parse: string -> Option<Value>,
                                    now: nat -> string, recordCount: int, out: Outcome)
    requires AllObjects(lines, parse)
    ensures Run(schema, lines, parse, now, recordCount, out).count
         == Received(recordCount, out.count, |DataLines(lines)|)
  {
    if lines != [] {
      AllObjectsTail(lines, parse);
      var n := |DataLines(lines[1..])|;
      if !StartsWith(lines[0], DataPrefix) {
        RunSkips(schema, lines, parse, now, recordCount, out);
        RunCount(schema, lines[1..], parse, now, recordCount, out);
        assert |DataLines(lines)| == n;
      } else {
        assert HoldsRecord(parse, lines[0]);
        assert |DataLines(lines)| == n + 1;
        RunReceives(schema, lines, parse, now, recordCount, out);
        var t := now(out.count);
        var next := Receive(out, schema, Stamp(Payload(parse, lines[0]), t), t);
        CountStep(recordCount, out.count, n);
        if next.count < recordCount {
          RunCount(schema, lines[1..], parse, now, recordCount, next);
        }
      }
    }
  }

  /** The count after `n` more records are offered to a loop that has
      received `count` and stops at `recordCount`. */
  function Received(recordCount: int, count: nat, n: nat): int
  {
    if n == 0 then count else Min(Max(recordCount, count + 1), count + n)
  }

  /** The count formula of `RunCount` after one more record. */
  lemma CountStep(recordCount: int, count: nat, n: nat)
    ensures count + 1 >= recordCount ==> Received(recordCount, count, n + 1) == count + 1
    ensures count + 1 < recordCount ==> Received(recordCount, count + 1, n) == Received(recordCount, count, n + 1)
  {
  }

  lemma AllObjectsTail(lines: seq<string>, parse: string -> Option<Value>)
    requires lines != [] && AllObjects(lines, parse)
    ensures AllObjects(lines[1..], parse)
  {
    forall i | 0 <= i < |lines[1..]| && StartsWith(lines[1..][i], DataPrefix)
      ensures HoldsRecord(parse, lines[1..][i])
    {
      assert lines[1..][i] == lines[i + 1];
    }
  }

  /** One step of the loop at a line without the data prefix. */
  lemma RunSkips(schema: Dict<string>, lines: seq<string>, parse: string -> Option<Value>,
                 now: nat -> string, recordCount: int, out: Outcome)
    requires lines != [] && !StartsWith(lines[0], DataPrefix)
    ensures Run(schema, lines, parse, now, recordCount, out) == Run(schema, lines[1..], parse, now, recordCount, out)
  {
  }

  /** A payload that is not a JSON object ends the loop. */
  lemma RunFails(schema: Dict<string>, lines: seq<string>, parse: string -> Option<Value>,
                 now: nat -> string, recordCount: int, out: Outcome)
    requires lines != [] && StartsWith(lines[0], DataPrefix) && !HoldsRecord(parse, lines[0])
    ensures Run(schema, lines, parse, now, recordCount, out) == out
  {
  }

  /** One step of the loop at a record line. */
  lemma RunReceives(schema: Dict<string>, lines: seq<string>, parse: string -> Option<Value>,
                    now: nat -> string, recordCount: int, out: Outcome)
    requires lines != [] && StartsWith(lines[0], DataPrefix) && HoldsRecord(parse, lines[0])
    ensures var t := now(out.count);
      var next := Receive(out, schema, Stamp(Payload(parse, lines[0]), t), t);
      Run(schema, lines, parse, now, recordCount, out)
        == if next.count >= recordCount then next else Run(schema, lines[1..], parse, now, recordCount, next)
  {
  }

  /** `processAndSplit` from the manifest and the stream lines: the two
      output lists and the log it writes. */
  function Process(manifest: seq<ManifestEntry>, lines: seq<string>, parse: string -> Option<Value>,
                   now: nat -> string, recordCount: int): Outcome
  {
    Run(ClassificationMap(manifest), lines, parse, now, recordCount, Start)
  }

  /** What the router writes only grows by one record at a time, holds no
      empty document, and counts at most `recordCount` records, or one when
      `recordCount` is zero or below. */
  lemma ProcessBounds(manifest: seq<ManifestEntry>, lines: seq<string>, parse: string -> Option<Value>,
                      now: nat -> string, recordCount: int)
    ensures var r := Process(manifest, lines, parse, now, recordCount);
      && |r.sqlRecords| <= r.count && |r.mongoRecords| <= r.count
      && (forall i :: 0 <= i < |r.sqlRecords| ==> r.sqlRecords[i] != [])
      && (forall i :: 0 <= i < |r.mongoRecords| ==> r.mongoRecords[i] != [])
      && r.count <= Max(1, recordCount)
  {
    RunGrows(ClassificationMap(manifest), lines, parse, now, recordCount, Start);
  }

  /** With a `recordCount` of zero or below, the first record is still
      received, and no other. */
  lemma OneRecordAtLeast(manifest: seq<ManifestEntry>, lines: seq<string>, parse: string -> Option<Value>,
                         now: nat -> string, recordCount: int)
    requires recordCount <= 0
    requires DataLines(lines) != [] && HoldsRecord(parse, DataLines(lines)[0])
    ensures Process(manifest, lines, parse, now, recordCount).count == 1
  {
    var schema := ClassificationMap(manifest);
    RunSkipsOtherLines(schema, lines, parse, now, recordCount, Start);
    RunReceives(schema, DataLines(lines), parse, now, recordCount, Start);
  }

  /** The routing loop over one record's fields. */
  method RouteRecord(schema: Dict<string>, rec: Dict<Value>) returns (sqlDoc: Dict<Value>, mongoDoc: Dict<Value>, lines: string)
    ensures sqlDoc == Doc(schema, rec, SqlSide)
    ensures mongoDoc == Doc(schema, rec, MongoSide)
    ensures lines == FieldLines(schema, rec)
  {
    sqlDoc, mongoDoc, lines := [], [], "";
    var i := 0;
    while i < |rec|
      invariant 0 <= i <= |rec|
      invariant sqlDoc == Doc(schema, rec[..i], SqlSide)
      invariant mongoDoc == Doc(schema, rec[..i], MongoSide)
      invariant lines == FieldLines(schema, rec[..i])
    {
      var (field, value) := rec[i];
      var decision := DecisionOf(schema, field);
      lines := lines + FieldLine(field, decision);
      if decision == "SQL" {
        sqlDoc := Put(sqlDoc, field, value);
      } else if decision == "MONGO" {
        mongoDoc := Put(mongoDoc, field, value);
      } else if decision == "BOTH" {
        sqlDoc := Put(sqlDoc, field, value);
        mongoDoc := Put(mongoDoc, field, value);
      }
      assert rec[..i + 1][..i] == rec[..i];
      i := i + 1;
    }
    assert rec[..i] == rec;
  }

  /** The body of the stream loop for one stamped record: the log entry,
      the split and the two appends. */
  method ReceiveRecord(schemaMap: Dict<string>, sqlRecords: seq<Dict<Value>>, mongoRecords: seq<Dict<Value>>,
                       log: string, count: nat, recordJson: Dict<Value>, ingestTime: string)
    returns (sqlRecords': seq<Dict<Value>>, mongoRecords': seq<Dict<Value>>, log': string, count': nat)
    ensures Outcome(sqlRecords', mongoRecords', log', count')
         == Receive(Outcome(sqlRecords, mongoRecords, log, count), schemaMap, recordJson, ingestTime)
  {
    count' := count + 1;
    var logEntry := "Record received at " + ingestTime + "\n";
    logEntry := logEntry + NatToString(|recordJson|) + " Fields\n";
    assert logEntry == Header(ingestTime, |recordJson|);
    var sqlDoc, mongoDoc, fieldLines := RouteRecord(schemaMap, recordJson);
    logEntry := logEntry + fieldLines;
    logEntry := logEntry + "\n";
    log' := log + logEntry;
    sqlRecords', mongoRecords' := sqlRecords, mongoRecords;
    if sqlDoc != [] {
      sqlRecords' := sqlRecords' + [sqlDoc];
    }
    if mongoDoc != [] {
      mongoRecords' := mongoRecords' + [mongoDoc];
    }
  }

  /** `processAndSplit`: reads the stream line by line and returns what it
      writes to the two output files and to the log. */
  method ProcessAndSplit(manifest: seq<ManifestEntry>, lines: seq<string>, parse: string -> Option<Value>,
                         now: nat -> string, recordCount: int)
    returns (sqlRecords: seq<Dict<Value>>, mongoRecords: seq<Dict<Value>>, log: string)
    ensures var r := Process(manifest, lines, parse, now, recordCount);
      sqlRecords == r.sqlRecords && mongoRecords == r.mongoRecords && log == r.log
  {
    var schemaMap := ClassificationMap(manifest);
    sqlRecords, mongoRecords, log := [], [], "";
    var count: nat := 0;
    var i := 0;
    while i < |lines|
      invariant 0 <= i <= |lines|
      invariant Process(manifest, lines, parse, now, recordCount)
        == Run(schemaMap, lines[i..], parse, now, recordCount, Outcome(sqlRecords, mongoRecords, log, count))
    {
      var line := lines[i];
      ghost var out := Outcome(sqlRecords, mongoRecords, log, count);
      assert lines[i..][0] == line && lines[i..][1..] == lines[i + 1..];
      if !StartsWith(line, DataPrefix) {
        RunSkips(schemaMap, lines[i..], parse, now, recordCount, out);
        i := i + 1;
        continue;
      }
      var parsed := parse(line[|DataPrefix|..]);
      if !(parsed.Some? && parsed.value.Object?) {
        RunFails(schemaMap, lines[i..], parse, now, recordCount, out);
        return;
      }
      var ingestTime := now(count);
      var recordJson := Stamp(parsed.value.fields, ingestTime);
      RunReceives(schemaMap, lines[i..], parse, now, recordCount, out);
      sqlRecords, mongoRecords, log, count := ReceiveRecord(schemaMap, sqlRecords, mongoRecords, log, count, recordJson, ingestTime);
      if count >= recordCount {
        return;
      }
      i := i + 1;
    }
    assert lines[i..] == [];
  }
}
