/**
 * handler: the action end to end. It checks the environment tokens, validates
 * the context, parses the nine arguments, fetches the annotations, writes the
 * CSV file, stages it in the volume and, when asked to, creates the
 * timestamped table, loads the staged file into it and removes the staged
 * file; it closes the connection last.
 *
 * The fetched annotations, the temporary directory and the timestamp are
 * parameters: they come from the annotation platform, the filesystem and the
 * clock.
 */
module Action {
  import opened Wrappers
  import opened Text
  import opened Arguments
  import opened Validation
  import opened Components
  import opened CsvFile
  import opened Warehouse

  const SA_TEAM_TOKEN := "SA_TEAM_TOKEN"
  const DB_ACCESS_TOKEN := "DB_ACCESS_TOKEN"

  /** The process environment. */
  type Environment = map<string, string>

  predicate HasTokens(env: Environment) {
    SA_TEAM_TOKEN in env && DB_ACCESS_TOKEN in env
  }

  /** {db_table}_{timestamp}: the name of the created table. */
  function TableName(dbTable: string, timestamp: string): (name: string)
    ensures |name| > |dbTable| && name[..|dbTable|] == dbTable
  {
    dbTable + "_" + timestamp
  }

  /** {db_table}_{timestamp}.csv: the name of the CSV file, locally and in the volume. */
  function CsvFileName(dbTable: string, timestamp: string): string {
    TableName(dbTable, timestamp) + ".csv"
  }

  /** {tempDir}/{db_table}_{timestamp}.csv */
  function LocalCsvPath(tempDir: string, dbTable: string, timestamp: string): string {
    tempDir + "/" + CsvFileName(dbTable, timestamp)
  }

  /** The volume path every statement of a run uses. */
  function StagedPath(args: Args, timestamp: string): string {
    VolumePath(args.catalog, args.schema, args.volume, CsvFileName(args.table, timestamp))
  }

  /** The table a run creates and loads. */
  function TargetTable(args: Args, timestamp: string): string {
    QualifiedTable(args.catalog, args.schema, TableName(args.table, timestamp))
  }

  /** The calls a completed run makes on its connection, in order. */
  function PlannedCalls(args: Args, tempDir: string, timestamp: string): seq<Call> {
    var staged := StagedPath(args, timestamp);
    [Put(LocalCsvPath(tempDir, args.table, timestamp), staged)]
    + (if args.createDeltaTable
       then [CreateTable(TargetTable(args, timestamp)), CopyInto(TargetTable(args, timestamp), staged), Remove(staged)]
       else [])
    + [Disconnect]
  }

  /** An externally visible step of a run. */
  datatype Effect =
    | FetchAnnotations(projectId: Value, items: Value)
    | WriteCsv(path: string, rows: seq<seq<string>>)
    | Connect(serverHostname: string, httpPath: string, accessToken: string, stagingAllowedLocalPath: string)
    | OnConnection(call: Call)

  /** Why a run raised. */
  datatype Failure =
    | MissingEnvironment
    | ArgumentError(error: ArgError)
    | FieldsNotInHeader(fields: set<string>)

  /** Completed: returned after the last step; InvalidInput: returned early on a bad context. */
  datatype Outcome = Completed | InvalidInput | Raised(failure: Failure)

  datatype Run = Run(effects: seq<Effect>, outcome: Outcome)

  /** The calls made on the connection, as effects of the run. */
  function AsEffects(calls: seq<Call>): seq<Effect> {
    seq(|calls|, k requires 0 <= k < |calls| => OnConnection(calls[k]))
  }

  /** What the handler needs of the fetched annotations in order not to raise while projecting them. */
  predicate AnnotationsFit(env: Environment, event: Event, context: Context, annotations: seq<Annotation>) {
    HasTokens(env) && ValidateContext(context).Ok? && ParseArguments(event).Ok? ==>
      Projectable(ParseArguments(event).value.columnNames, annotations, ParseArguments(event).value.componentIds)
  }

  /** The run of the handler, as a function of its inputs. */
  function HandlerRun(env: Environment, event: Event, context: Context, annotations: seq<Annotation>,
                      tempDir: string, timestamp: string): Run
    requires AnnotationsFit(env, event, context, annotations)
  {
    if !HasTokens(env) then Run([], Raised(MissingEnvironment))
    else match ValidateContext(context)
      case Err(_) => Run([], InvalidInput)
      case Ok(sa) =>
        match ParseArguments(event)
        case Err(e) => Run([], Raised(ArgumentError(e)))
        case Ok(args) => PipelineRun(sa, args, env[DB_ACCESS_TOKEN], annotations, tempDir, timestamp)
  }

  /** The part of a run after its inputs are validated: fetch, write, stage, optionally load, disconnect. */
  function PipelineRun(sa: SaData, args: Args, dbToken: string, annotations: seq<Annotation>,
                       tempDir: string, timestamp: string): Run
    requires Projectable(args.columnNames, annotations, args.componentIds)
  {
    var fetch := FetchAnnotations(sa.projectId, sa.items);
    var local := LocalCsvPath(tempDir, args.table, timestamp);
    var extra := ExtraFields(args.columnNames, args.componentIds);
    if |annotations| > 0 && extra != {} then
      Run([fetch, WriteCsv(local, [args.columnNames])], Raised(FieldsNotInHeader(extra)))
    else
      Run([fetch, WriteCsv(local, CsvTable(args.columnNames, annotations, args.componentIds)),
           Connect(args.serverHostname, args.httpPath, dbToken, tempDir)]
          + AsEffects(PlannedCalls(args, tempDir, timestamp)),
          Completed)
  }

  /** handler, step by step: the checks on its inputs, then the pipeline. */
  method Handler(env: Environment, event: Event, context: Context, annotations: seq<Annotation>,
                 tempDir: string, timestamp: string) returns (run: Run)
    requires AnnotationsFit(env, event, context, annotations)
    ensures run == HandlerRun(env, event, context, annotations, tempDir, timestamp)
  {
    if !(SA_TEAM_TOKEN in env && DB_ACCESS_TOKEN in env) {
      return Run([], Raised(MissingEnvironment));
    }
    var dbToken := env[DB_ACCESS_TOKEN];
    var saData := ValidateContext(context);
    if saData.Err? {
      return Run([], InvalidInput);
    }
    var parsed := ParseArguments(event);
    if parsed.Err? {
      return Run([], Raised(ArgumentError(parsed.error)));
    }
    run := RunPipeline(saData.value, parsed.value, dbToken, annotations, tempDir, timestamp);
  }

  /** The steps of handler after its inputs are validated, against a connection object. */
  method RunPipeline(sa: SaData, args: Args, dbToken: string, annotations: seq<Annotation>,
                     tempDir: string, timestamp: string) returns (run: Run)
    requires Projectable(args.columnNames, annotations, args.componentIds)
    ensures run == PipelineRun(sa, args, dbToken, annotations, tempDir, timestamp)
  {
    var effects := [FetchAnnotations(sa.projectId, sa.items)];
    var tableName := TableName(args.table, timestamp);
    var csvFileName := tableName + ".csv";
    var csvFullFileName := tempDir + "/" + csvFileName;
    var written, failure := WriteCsvFile(args.columnNames, annotations, args.componentIds);
    effects := effects + [WriteCsv(csvFullFileName, written)];
    if failure.Some? {
      return Run(effects, Raised(FieldsNotInHeader(failure.value)));
    }
    var connection := new Connection(args.serverHostname, args.httpPath, dbToken, tempDir);
    effects := effects + [Connect(args.serverHostname, args.httpPath, dbToken, tempDir)];
    UploadToVolume(csvFullFileName, csvFileName, args.catalog, args.schema, args.volume, connection);
    if args.createDeltaTable {
      CreateTableIfAbsent(args.catalog, args.schema, tableName, connection);
      VolumeToTable(csvFileName, tableName, args.catalog, args.schema, args.volume, connection);
      DeleteFromVolume(csvFileName, args.catalog, args.schema, args.volume, connection);
    }
    connection.Close();
    assert connection.calls == PlannedCalls(args, tempDir, timestamp);
    run := Run(effects + AsEffects(connection.calls), Completed);
  }

  /**
   * A run puts the file first and disconnects last; in between it creates,
   * loads and removes, in that order, exactly when create_delta_table is true.
   */
  lemma PlannedCallsOrder(args: Args, tempDir: string, timestamp: string)
    ensures var calls := PlannedCalls(args, tempDir, timestamp);
      && calls[0].Put? && calls[|calls| - 1] == Disconnect
      && (forall k :: 0 <= k < |calls| - 1 ==> !calls[k].Disconnect?)
      && (args.createDeltaTable ==> |calls| == 5 && calls[1].CreateTable? && calls[2].CopyInto? && calls[3].Remove?)
      && (!args.createDeltaTable ==> |calls| == 2)
  {
  }

  /**
   * Every statement of a run names the same staged path and the same
   * timestamped table, which is never db_table itself; the file put is the
   * local CSV file.
   */
  lemma PlannedCallsShareNames(args: Args, tempDir: string, timestamp: string)
    ensures var calls := PlannedCalls(args, tempDir, timestamp);
      forall k :: 0 <= k < |calls| ==>
        && (calls[k].Put? ==> calls[k].localFile == LocalCsvPath(tempDir, args.table, timestamp)
                              && calls[k].target == StagedPath(args, timestamp))
        && (calls[k].CopyInto? ==> calls[k].source == StagedPath(args, timestamp)
                                   && calls[k].table == TargetTable(args, timestamp))
        && (calls[k].Remove? ==> calls[k].target == StagedPath(args, timestamp))
        && (calls[k].CreateTable? ==> calls[k].table == TargetTable(args, timestamp))
    ensures TargetTable(args, timestamp) != QualifiedTable(args.catalog, args.schema, args.table)
  {
    var t := TableName(args.table, timestamp);
    assert |t| > |args.table|;
    assert |TargetTable(args, timestamp)| > |QualifiedTable(args.catalog, args.schema, args.table)|;
  }

  /** Nothing is fetched, written or issued unless the tokens, the context and all nine arguments are there. */
  lemma NothingBeforeValidInput(env: Environment, event: Event, context: Context, annotations: seq<Annotation>,
                                tempDir: string, timestamp: string)
    requires AnnotationsFit(env, event, context, annotations)
    ensures var run := HandlerRun(env, event, context, annotations, tempDir, timestamp);
      run.effects != [] <==> HasTokens(env) && ValidateContext(context).Ok?
                             && forall name :: name in ArgumentOrder ==> !Missing(event, name)
    ensures var run := HandlerRun(env, event, context, annotations, tempDir, timestamp);
      run.effects != [] ==> run.effects[0] == FetchAnnotations(ValidateContext(context).value.projectId,
                                                               ValidateContext(context).value.items)
  {
    ParseArgumentsOkIffAllPresent(event);
    var run := HandlerRun(env, event, context, annotations, tempDir, timestamp);
    if HasTokens(env) && ValidateContext(context).Ok? && ParseArguments(event).Ok? {
      var sa := ValidateContext(context).value;
      var args := ParseArguments(event).value;
      assert run == PipelineRun(sa, args, env[DB_ACCESS_TOKEN], annotations, tempDir, timestamp);
      assert run.effects[0] == FetchAnnotations(sa.projectId, sa.items);
    } else {
      assert run.effects == [];
    }
  }

  /** An invalid context ends the run quietly: no effect and no exception. */
  lemma InvalidContextReturnsQuietly(env: Environment, event: Event, context: Context, annotations: seq<Annotation>,
                                     tempDir: string, timestamp: string)
    requires AnnotationsFit(env, event, context, annotations)
    requires HasTokens(env) && ValidateContext(context).Err?
    ensures HandlerRun(env, event, context, annotations, tempDir, timestamp) == Run([], InvalidInput)
  {
  }

  /**
   * A run with valid inputs completes exactly when no projected id is missing
   * from the columns (or there is nothing to write); it then writes the CSV
   * table and connects with the DB token and the temporary directory as
   * staging root before its first statement, and it creates and loads
   * the table exactly when create_delta_table lowers to "true".
   */
  lemma CompletedRun(env: Environment, event: Event, context: Context, annotations: seq<Annotation>,
                     tempDir: string, timestamp: string)
    requires AnnotationsFit(env, event, context, annotations)
    requires HasTokens(env) && ValidateContext(context).Ok? && ParseArguments(event).Ok?
    ensures var run := HandlerRun(env, event, context, annotations, tempDir, timestamp);
            var args := ParseArguments(event).value;
      && (run.outcome == Completed <==> |annotations| == 0 || ExtraFields(args.columnNames, args.componentIds) == {})
      && (run.outcome == Completed ==>
            && run.effects[1] == WriteCsv(LocalCsvPath(tempDir, args.table, timestamp),
                                          CsvTable(args.columnNames, annotations, args.componentIds))
            && run.effects[2] == Connect(args.serverHostname, args.httpPath, env[DB_ACCESS_TOKEN], tempDir)
            && run.effects[3] == OnConnection(Put(LocalCsvPath(tempDir, args.table, timestamp), StagedPath(args, timestamp)))
            && run.effects[|run.effects| - 1] == OnConnection(Disconnect)
            && ((exists k :: 0 <= k < |run.effects| && run.effects[k] == OnConnection(CreateTable(TargetTable(args, timestamp))))
                <==> Lower(event[CREATE_DELTA_TABLE_ARG]) == "true"))
  {
    var run := HandlerRun(env, event, context, annotations, tempDir, timestamp);
    var args := ParseArguments(event).value;
    if run.outcome == Completed {
      var calls := PlannedCalls(args, tempDir, timestamp);
      assert run.effects == run.effects[..3] + AsEffects(calls);
      if args.createDeltaTable {
        assert run.effects[4] == OnConnection(CreateTable(TargetTable(args, timestamp)));
      } else {
        assert |run.effects| == 5;
        forall k | 0 <= k < |run.effects| ensures run.effects[k] != OnConnection(CreateTable(TargetTable(args, timestamp))) {
          if k >= 3 {
            assert run.effects[k] == OnConnection(calls[k - 3]);
          }
        }
      }
    }
  }
}
