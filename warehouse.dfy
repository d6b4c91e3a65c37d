/**
 * The Databricks side of the action: the connection handle, the statements
 * issued on it, and the volume paths and table names the statements use.
 * Statements are recorded by what they name; their SQL text is not modelled.
 */
module Warehouse {

  /** /Volumes/{catalog}/{schema}/{volume}/superannotate/{fileName} */
  function VolumePath(catalog: string, schema: string, volume: string, fileName: string): (p: string)
    ensures |p| >= |"/Volumes/"| + |"/superannotate/" + fileName|
    ensures p[..|"/Volumes/"|] == "/Volumes/"
    ensures p[|p| - |"/superannotate/" + fileName|..] == "/superannotate/" + fileName
  {
    "/Volumes/" + catalog + "/" + schema + "/" + volume + "/superannotate/" + fileName
  }

  /** {catalog}.{schema}.{table} */
  function QualifiedTable(catalog: string, schema: string, table: string): (t: string)
    ensures |t| > |table| && t[|t| - |table|..] == table
  {
    catalog + "." + schema + "." + table
  }

  /** A call made on the connection: a statement it executes, or closing it. */
  datatype Call =
    | Put(localFile: string, target: string)       // PUT '<localFile>' INTO '<target>' OVERWRITE
    | CreateTable(table: string)                   // CREATE TABLE IF NOT EXISTS <table>;
    | CopyInto(table: string, source: string)      // COPY INTO <table> FROM '<source>' FILEFORMAT = CSV ...
    | Remove(target: string)                       // REMOVE '<target>'
    | Disconnect                                   // cursor.close(), then connection.close()

  /** The handle db_connect returns: a session and its cursor, with the calls made on them so far. */
  class Connection {
    const serverHostname: string
    const httpPath: string
    const accessToken: string
    const stagingAllowedLocalPath: string
    var calls: seq<Call>
    var open: bool

    constructor (serverHostname: string, httpPath: string, accessToken: string, stagingAllowedLocalPath: string)
      ensures this.serverHostname == serverHostname && this.httpPath == httpPath
      ensures this.accessToken == accessToken && this.stagingAllowedLocalPath == stagingAllowedLocalPath
      ensures open && calls == []
    {
      this.serverHostname := serverHostname;
      this.httpPath := httpPath;
      this.accessToken := accessToken;
      this.stagingAllowedLocalPath := stagingAllowedLocalPath;
      open := true;
      calls := [];
    }

    /** db_execute: run one statement on the cursor. */
    method Execute(statement: Call)
      requires open && !statement.Disconnect?
      modifies this
      ensures open && calls == old(calls) + [statement]
    {
      calls := calls + [statement];
    }

    /** db_disconnect: close the cursor and the session. */
    method Close()
      requires open
      modifies this
      ensures !open && calls == old(calls) + [Disconnect]
    {
      calls := calls + [Disconnect];
      open := false;
    }
  }

  /** db_upload_to_volume: stage the local file in the volume. */
  method UploadToVolume(localFile: string, fileName: string, catalog: string, schema: string, volume: string,
                        connection: Connection)
    requires connection.open
    modifies connection
    ensures connection.open
    ensures connection.calls == old(connection.calls) + [Put(localFile, VolumePath(catalog, schema, volume, fileName))]
  {
    connection.Execute(Put(localFile, VolumePath(catalog, schema, volume, fileName)));
  }

  /** db_create_table */
  method CreateTableIfAbsent(catalog: string, schema: string, table: string, connection: Connection)
    requires connection.open
    modifies connection
    ensures connection.open
    ensures connection.calls == old(connection.calls) + [CreateTable(QualifiedTable(catalog, schema, table))]
  {
    connection.Execute(CreateTable(QualifiedTable(catalog, schema, table)));
  }

  /** db_volume_to_table: bulk-load the staged file into the table. */
  method VolumeToTable(fileName: string, table: string, catalog: string, schema: string, volume: string,
                       connection: Connection)
    requires connection.open
    modifies connection
    ensures connection.open
    ensures connection.calls == old(connection.calls)
      + [CopyInto(QualifiedTable(catalog, schema, table), VolumePath(catalog, schema, volume, fileName))]
  {
    connection.Execute(CopyInto(QualifiedTable(catalog, schema, table), VolumePath(catalog, schema, volume, fileName)));
  }

  /** db_delete_from_volume: remove the staged file. */
  method DeleteFromVolume(fileName: string, catalog: string, schema: string, volume: string, connection: Connection)
    requires connection.open
    modifies connection
    ensures connection.open
    ensures connection.calls == old(connection.calls) + [Remove(VolumePath(catalog, schema, volume, fileName))]
  {
    connection.Execute(Remove(VolumePath(catalog, schema, volume, fileName)));
  }
}
