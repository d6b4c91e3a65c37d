/**
 * The event arguments of the action: argument_parser, argument_str_to_list and
 * the nine parses the handler performs before it fetches any annotation.
 */
module Arguments {
  import opened Wrappers
  import opened Text

  const SA_COMPONENT_IDS_ARG := "sa_component_ids"
  const DB_COLUMN_NAMES_ARG := "databricks_columns"
  const DB_SERVER_HOSTNAME_ARG := "db_server_hostname"
  const DB_HTTP_PATH_ARG := "db_http_path"
  const DB_CATALOG_ARG := "db_catalog"
  const DB_SCHEMA_ARG := "db_schema"
  const DB_TABLE_ARG := "db_table"
  const DB_VOLUME_ARG := "db_volume"
  const CREATE_DELTA_TABLE_ARG := "create_delta_table"

  /** The order in which the handler parses its arguments. */
  const ArgumentOrder: seq<string> := [
    SA_COMPONENT_IDS_ARG, DB_COLUMN_NAMES_ARG, DB_SERVER_HOSTNAME_ARG, DB_HTTP_PATH_ARG,
    DB_CATALOG_ARG, DB_SCHEMA_ARG, DB_TABLE_ARG, DB_VOLUME_ARG, CREATE_DELTA_TABLE_ARG
  ]

  /** The separator of list-valued arguments. */
  const Comma: char := ','

  /** The event maps argument names to their string values. */
  type Event = map<string, string>

  datatype ArgError = MissingArgument(name: string)

  /** An argument counts as missing when it is absent or is the empty string (Python's `not arg`). */
  predicate Missing(event: Event, argument: string) {
    argument !in event || event[argument] == ""
  }

  /** argument_parser: the stored value unchanged, or an error naming the missing argument. */
  function ArgumentParser(event: Event, argument: string): (r: Result<string, ArgError>)
    ensures r.Err? <==> Missing(event, argument)
    ensures r.Err? ==> r.error == MissingArgument(argument)
    ensures r.Ok? ==> argument in event && r.value == event[argument] && r.value != ""
  {
    if argument in event && event[argument] != "" then Ok(event[argument])
    else Err(MissingArgument(argument))
  }

  /** argument_str_to_list: split on commas, strip each piece. */
  function ArgumentStrToList(s: string): (r: seq<string>)
    ensures |r| == Count(s, Comma) + 1
    ensures forall k :: 0 <= k < |r| ==> r[k] == Strip(Split(s, Comma)[k])
    ensures forall k :: 0 <= k < |r| ==> Comma !in r[k] && Trimmed(r[k])
  {
    var pieces := Split(s, Comma);
    var r := seq(|pieces|, k requires 0 <= k < |pieces| => Strip(pieces[k]));
    assert forall k :: 0 <= k < |r| ==> Comma !in r[k] && Trimmed(r[k]) by {
      forall k | 0 <= k < |r| ensures Comma !in r[k] && Trimmed(r[k]) {
        StripTrimmed(pieces[k]);
        StripShape(pieces[k]);
        var i := LeadingSpace(pieces[k]);
        assert forall c :: c in r[k] ==> c in pieces[k] by {
          assert pieces[k][i..i + |r[k]|] == r[k];
        }
      }
    }
    r
  }

  /** A comma-joined list of trimmed, comma-free names parses back to the same list. */
  lemma ArgumentListRoundTrip(names: seq<string>)
    requires |names| >= 1
    requires forall k :: 0 <= k < |names| ==> Comma !in names[k] && Trimmed(names[k])
    ensures ArgumentStrToList(Join(names, Comma)) == names
  {
    var joined := Join(names, Comma);
    SplitJoin(names, Comma);
    var r := ArgumentStrToList(joined);
    assert |r| == |Split(joined, Comma)| == |names|;
    forall k | 0 <= k < |names| ensures r[k] == names[k] {
      StripUnique([], names[k], []);
      assert [] + names[k] + [] == names[k];
    }
  }

  /** `create_delta_table.lower() == "true"` */
  function CreateFlag(s: string): (b: bool)
    ensures b <==> |s| == 4 && s[0] in "tT" && s[1] in "rR" && s[2] in "uU" && s[3] in "eE"
  {
    Lower(s) == "true"
  }

  /** The arguments after parsing. */
  datatype Args = Args(
    componentIds: seq<string>,
    columnNames: seq<string>,
    serverHostname: string,
    httpPath: string,
    catalog: string,
    schema: string,
    table: string,
    volume: string,
    createDeltaTable: bool)

  /**
   * The handler's nine calls of argument_parser, in order: the first missing
   * argument is reported, otherwise every value is taken as stored.
   */
  function ParseArguments(event: Event): (r: Result<Args, ArgError>)
    ensures r.Ok? <==> && !Missing(event, SA_COMPONENT_IDS_ARG) && !Missing(event, DB_COLUMN_NAMES_ARG)
                       && !Missing(event, DB_SERVER_HOSTNAME_ARG) && !Missing(event, DB_HTTP_PATH_ARG)
                       && !Missing(event, DB_CATALOG_ARG) && !Missing(event, DB_SCHEMA_ARG)
                       && !Missing(event, DB_TABLE_ARG) && !Missing(event, DB_VOLUME_ARG)
                       && !Missing(event, CREATE_DELTA_TABLE_ARG)
    ensures r.Err? ==> r.error.name in ArgumentOrder && Missing(event, r.error.name)
    ensures r.Ok? ==> r.value == Args(
      ArgumentStrToList(event[SA_COMPONENT_IDS_ARG]), ArgumentStrToList(event[DB_COLUMN_NAMES_ARG]),
      event[DB_SERVER_HOSTNAME_ARG], event[DB_HTTP_PATH_ARG], event[DB_CATALOG_ARG], event[DB_SCHEMA_ARG],
      event[DB_TABLE_ARG], event[DB_VOLUME_ARG], CreateFlag(event[CREATE_DELTA_TABLE_ARG]))
  {
    var ids :- ArgumentParser(event, SA_COMPONENT_IDS_ARG);
    var columns :- ArgumentParser(event, DB_COLUMN_NAMES_ARG);
    var hostname :- ArgumentParser(event, DB_SERVER_HOSTNAME_ARG);
    var httpPath :- ArgumentParser(event, DB_HTTP_PATH_ARG);
    var catalog :- ArgumentParser(event, DB_CATALOG_ARG);
    var schema :- ArgumentParser(event, DB_SCHEMA_ARG);
    var table :- ArgumentParser(event, DB_TABLE_ARG);
    var volume :- ArgumentParser(event, DB_VOLUME_ARG);
    var create :- ArgumentParser(event, CREATE_DELTA_TABLE_ARG);
    Ok(Args(ArgumentStrToList(ids), ArgumentStrToList(columns), hostname, httpPath,
            catalog, schema, table, volume, CreateFlag(create)))
  }

  /** Parsing succeeds exactly when no argument of the parsing order is missing. */
  lemma ParseArgumentsOkIffAllPresent(event: Event)
    ensures ParseArguments(event).Ok? <==> forall name :: name in ArgumentOrder ==> !Missing(event, name)
  {
    if ParseArguments(event).Ok? {
      forall name | name in ArgumentOrder ensures !Missing(event, name) {
        var i :| 0 <= i < |ArgumentOrder| && ArgumentOrder[i] == name;
      }
    } else {
      var name := ParseArguments(event).error.name;
      assert name in ArgumentOrder && Missing(event, name);
    }
  }

  /** The argument reported missing is the first missing one in parsing order. */
  lemma ParseArgumentsReportsFirstMissing(event: Event)
    requires ParseArguments(event).Err?
    ensures exists i :: 0 <= i < |ArgumentOrder| && ParseArguments(event).error.name == ArgumentOrder[i]
                        && forall j :: 0 <= j < i ==> !Missing(event, ArgumentOrder[j])
  {
    var names := ArgumentOrder;
    var reported := ParseArguments(event).error.name;
    var i := 0;
    while i < |names| && !Missing(event, names[i])
      invariant 0 <= i <= |names|
      invariant forall j :: 0 <= j < i ==> !Missing(event, names[j])
    {
      i := i + 1;
    }
    assert i < |names|;
    assert reported == names[i];
  }
}
