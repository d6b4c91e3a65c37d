/**
 * write_csv_file, without the file itself: the rows a csv.DictWriter writes,
 * a header equal to the column list, then one row per annotation.
 */
module CsvFile {
  import opened Wrappers
  import opened Components

  /** The keys of a projected row that are not column names; DictWriter raises on these. */
  function ExtraFields(columns: seq<string>, ids: seq<string>): set<string> {
    (set id | id in ids) - (set c | c in columns)
  }

  /** DictWriter's row for a dictionary: one cell per column, "" (restval) for a column it lacks. */
  function Row(columns: seq<string>, values: map<string, string>): seq<string> {
    seq(|columns|, j requires 0 <= j < |columns| => if columns[j] in values then values[columns[j]] else "")
  }

  /**
   * What the writer needs in order not to raise inside the projection: every
   * annotation that gets projected is well formed. When the rows carry a field
   * the header lacks, only the first annotation is projected before writerow raises.
   */
  predicate Projectable(columns: seq<string>, annotations: seq<Annotation>, ids: seq<string>) {
    forall k :: 0 <= k < |annotations| && (k == 0 || ExtraFields(columns, ids) == {}) ==> WellFormedFor(annotations[k], ids)
  }

  /** The header and the rows, when no row raises. */
  function CsvTable(columns: seq<string>, annotations: seq<Annotation>, ids: seq<string>): seq<seq<string>>
    requires forall k :: 0 <= k < |annotations| ==> WellFormedFor(annotations[k], ids)
  {
    [columns] + seq(|annotations|, k requires 0 <= k < |annotations| => Row(columns, Projection(annotations[k], ids)))
  }

  /**
   * The layout: one header row equal to the columns, then, in input order, one
   * row per annotation whose cell under column c is the value projected for c,
   * or "" when c is not a requested id.
   */
  lemma CsvTableLayout(columns: seq<string>, annotations: seq<Annotation>, ids: seq<string>)
    requires forall k :: 0 <= k < |annotations| ==> WellFormedFor(annotations[k], ids)
    ensures |CsvTable(columns, annotations, ids)| == |annotations| + 1
    ensures CsvTable(columns, annotations, ids)[0] == columns
    ensures forall k, j :: 0 <= k < |annotations| && 0 <= j < |columns| ==>
      |CsvTable(columns, annotations, ids)[k + 1]| == |columns| &&
      CsvTable(columns, annotations, ids)[k + 1][j] ==
        if columns[j] in ids then ComponentValue(annotations[k], columns[j]) else ""
  {
  }

  /** The loop of write_csv_file: the rows written, and the fields DictWriter rejected if it raised. */
  method WriteCsvFile(columns: seq<string>, annotations: seq<Annotation>, ids: seq<string>)
    returns (written: seq<seq<string>>, failure: Option<set<string>>)
    requires Projectable(columns, annotations, ids)
    ensures failure.Some? <==> |annotations| > 0 && ExtraFields(columns, ids) != {}
    ensures failure.Some? ==> failure.value == ExtraFields(columns, ids) && written == [columns]
    ensures failure.None? ==> written == CsvTable(columns, annotations, ids)
  {
    written := [columns];
    failure := None;
    for k := 0 to |annotations|
      invariant k > 0 ==> ExtraFields(columns, ids) == {}
      invariant written == CsvTable(columns, annotations[..k], ids)
    {
      var values := FindComponentValues(annotations[k], ids);
      var wrong := values.Keys - (set c | c in columns);
      if wrong != {} {
        failure := Some(wrong);
        return;
      }
      written := written + [Row(columns, values)];
    }
    assert annotations[..|annotations|] == annotations;
  }
}
