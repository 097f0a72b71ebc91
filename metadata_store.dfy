/** The system metadata registry (src/metadata_store.py): the SQL column
    types and the mirrored fields of the current schema, taken from the
    analyzer's report after each pipeline run, and a history of the runs.
    The clock is a parameter; reading the report and saving the registry
    are not modelled. */
module MetadataLedger {
  import opened Json

  /** The `system_info` of a registry. */
  datatype SystemInfo = SystemInfo(version: string, project: string, createdAt: string)

  /** The `config` of a registry. */
  datatype Config = Config(sqlTable: string, mongoCollection: string)

  /** One entry of `run_history`. */
  datatype HistoryEntry = HistoryEntry(timestamp: string, recordCount: int, status: string, schemaSnapshot: Dict<string>)

  /** One entry of the report's `fields`: the two keys the sync reads. */
  datatype FieldEntry = FieldEntry(fieldName: string, dominantType: string)

  const Version := "1.0"
  const Project := "CS-432-Assignment-1"
  const SqlTable := "sensor_data"
  const MongoCollection := "extra_metrics"
  const Success := "success"

  /** `type_mapping`: `type_mapping[name] = dominant_type` for every report
      field, in order, whose name is one of the SQL fields. */
  function TypeMapping(fields: seq<FieldEntry>, sqlFields: seq<string>): (m: Dict<string>)
  {
    if fields == [] then []
    else
      var init := TypeMapping(fields[..|fields| - 1], sqlFields);
      var f := fields[|fields| - 1];
      if f.fieldName in sqlFields then Put(init, f.fieldName, f.dominantType) else init
  }

  /** The type of a name in the report: the last report field with it. */
  function LastType(fields: seq<FieldEntry>, name: string): Option<string>
  {
    if fields == [] then None
    else if fields[|fields| - 1].fieldName == name then Some(fields[|fields| - 1].dominantType)
    else LastType(fields[..|fields| - 1], name)
  }

  /** `type_mapping` maps exactly the SQL fields the report names, each to
      the type of its last report entry. */
  lemma {:induction false} TypeMappingLookup(fields: seq<FieldEntry>, sqlFields: seq<string>, name: string)
    ensures Lookup(TypeMapping(fields, sqlFields), name)
      == if name in sqlFields then LastType(fields, name) else None
  {
    if fields != [] {
      var init := fields[..|fields| - 1];
      var f := fields[|fields| - 1];
      TypeMappingLookup(init, sqlFields, name);
      if f.fieldName in sqlFields && f.fieldName != name {
        PutOthers(TypeMapping(init, sqlFields), f.fieldName, f.dominantType, name);
      }
    }
  }

  /** The report has a type for a name exactly when it names it. */
  lemma {:induction false} LastTypeFound(fields: seq<FieldEntry>, name: string)
    ensures LastType(fields, name).Some? <==> exists i :: 0 <= i < |fields| && fields[i].fieldName == name
  {
    if fields != [] {
      var init := fields[..|fields| - 1];
      LastTypeFound(init, name);
      if LastType(init, name).Some? {
        var i :| 0 <= i < |init| && init[i].fieldName == name;
        assert fields[i].fieldName == name;
      }
      if exists i :: 0 <= i < |fields| && fields[i].fieldName == name {
        var i :| 0 <= i < |fields| && fields[i].fieldName == name;
        if i < |init| {
          assert init[i].fieldName == name;
        }
      }
    }
  }

  /** The columns of `type_mapping` are the SQL fields the report names. */
  lemma TypeMappingKeys(fields: seq<FieldEntry>, sqlFields: seq<string>, name: string)
    ensures name in Keys(TypeMapping(fields, sqlFields))
      <==> name in sqlFields && exists i :: 0 <= i < |fields| && fields[i].fieldName == name
  {
    TypeMappingLookup(fields, sqlFields, name);
    LastTypeFound(fields, name);
  }

  /** `type_mapping` is a dictionary: no name in it twice. */
  lemma {:induction false} TypeMappingIsDict(fields: seq<FieldEntry>, sqlFields: seq<string>)
    ensures IsDict(TypeMapping(fields, sqlFields))
  {
    if fields != [] {
      var init := fields[..|fields| - 1];
      var f := fields[|fields| - 1];
      TypeMappingIsDict(init, sqlFields);
      if f.fieldName in sqlFields {
        PutIsDict(TypeMapping(init, sqlFields), f.fieldName, f.dominantType);
      }
    }
  }

  /** The `type_mapping` loop of `sync_from_pipeline`. */
  method BuildTypeMapping(fields: seq<FieldEntry>, sqlFields: seq<string>) returns (m: Dict<string>)
    ensures m == TypeMapping(fields, sqlFields)
  {
    m := [];
    var i := 0;
    while i < |fields|
      invariant 0 <= i <= |fields|
      invariant m == TypeMapping(fields[..i], sqlFields)
    {
      var field := fields[i];
      assert fields[..i + 1][..i] == fields[..i];
      if field.fieldName in sqlFields {
        m := Put(m, field.fieldName, field.dominantType);
      }
      i := i + 1;
    }
    assert fields[..i] == fields;
  }

  /** A registry as `MetadataStore` holds it in `self.registry`. */
  class MetadataStore {
    /** `system_info`. */
    var systemInfo: SystemInfo
    /** `config`. */
    var config: Config
    /** `current_schema.sql_columns`. */
    var sqlColumns: Dict<string>
    /** `current_schema.mirrored_fields`. */
    var mirroredFields: seq<string>
    /** `run_history`. */
    var runHistory: seq<HistoryEntry>

    /** A registry grown from the empty one: the SQL columns are a
        dictionary, every run succeeded, and the current columns are the
        snapshot of the latest run. */
    ghost predicate Valid()
      reads this
    {
      && IsDict(sqlColumns)
      && (forall i :: 0 <= i < |runHistory| ==> runHistory[i].status == Success)
      && (forall i :: 0 <= i < |runHistory| ==> IsDict(runHistory[i].schemaSnapshot))
      && (runHistory != [] ==> runHistory[|runHistory| - 1].schemaSnapshot == sqlColumns)
    }

    /** `_get_empty_state`, as the registry starts when no file exists. */
    constructor (createdAt: string)
      ensures Valid()
      ensures systemInfo == SystemInfo(Version, Project, createdAt)
      ensures config == Config(SqlTable, MongoCollection)
      ensures sqlColumns == [] && mirroredFields == [] && runHistory == []
    {
      systemInfo := SystemInfo(Version, Project, createdAt);
      config := Config(SqlTable, MongoCollection);
      sqlColumns := [];
      mirroredFields := [];
      runHistory := [];
    }

    /** `sync_from_pipeline`, given the report's `fields`, or None when the
        report file is missing, and the clock reading `runTime`. */
    method SyncFromPipeline(report: Option<seq<FieldEntry>>, sqlFields: seq<string>,
                            mirrored: seq<string>, totalProcessed: int, runTime: string)
      modifies this
      ensures report.None? ==>
        sqlColumns == old(sqlColumns) && mirroredFields == old(mirroredFields) && runHistory == old(runHistory)
      ensures report.Some? ==>
        && sqlColumns == TypeMapping(report.value, sqlFields)
        && mirroredFields == mirrored
        && runHistory == old(runHistory) + [HistoryEntry(runTime, totalProcessed, Success, sqlColumns)]
      ensures systemInfo == old(systemInfo) && config == old(config)
      ensures old(Valid()) ==> Valid()
    {
      if report.None? {
        return;
      }
      var typeMapping := BuildTypeMapping(report.value, sqlFields);
      TypeMappingIsDict(report.value, sqlFields);
      sqlColumns := typeMapping;
      mirroredFields := mirrored;
      var entry := HistoryEntry(runTime, totalProcessed, Success, typeMapping);
      runHistory := runHistory + [entry];
    }

    /** `reset_metadata`: back to the empty state, with a new creation time. */
    method ResetMetadata(createdAt: string)
      modifies this
      ensures Valid()
      ensures systemInfo == SystemInfo(Version, Project, createdAt)
      ensures config == Config(SqlTable, MongoCollection)
      ensures sqlColumns == [] && mirroredFields == [] && runHistory == []
    {
      systemInfo := SystemInfo(Version, Project, createdAt);
      config := Config(SqlTable, MongoCollection);
      sqlColumns := [];
      mirroredFields := [];
      runHistory := [];
    }

    /** `get_sql_schema`: the current SQL columns, which after a run are the
        snapshot that run recorded. */
    method GetSqlSchema() returns (columns: Dict<string>)
      ensures columns == sqlColumns
      ensures Valid() && runHistory != [] ==> columns == runHistory[|runHistory| - 1].schemaSnapshot
    {
      columns := sqlColumns;
    }
  }
}
