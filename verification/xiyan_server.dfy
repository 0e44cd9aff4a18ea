/** The glue of the text-to-SQL server around the repair loop: the `call_xiyan`
    tool entry point, the `read_resource` table dump, and the dialect default of
    `get_xiyan_config`. Database connections are oracles. */
module XiyanServer {
  import opened Results
  import opened Text
  import opened JsonModel
  import opened SqlRepair

  /** The prefix of the reply when the database cannot be set up ("database connection failed"). */
  const ConnectionFailed: string := "数据库连接失败"

  /** What `call_xiyan` returned, and the run of `sql_gen_and_execute` if it was called at all. */
  datatype ToolReply = ToolReply(text: string, run: Option<Trace>)

  /** `call_xiyan`. `connect` is the outcome of the guarded block that opens the
      engine and builds the `HITLSQLDatabase` source: `Failure(str(e))` when that
      raised. `toEnv` is `DataBaseEnv(db_source)`, which runs after the guard, so
      its `Failure(str(e))` escapes `call_xiyan` as `Failure` here rather than
      becoming a reply. */
  function CallXiyan<S>(connect: Result<S, string>, toEnv: S -> Result<DbEnv, string>, query: string, o: Oracles)
    : (r: Result<ToolReply, string>)
    ensures connect.Failure? ==> r == Success(ToolReply(ConnectionFailed + connect.error, None))
    ensures connect.Success? && toEnv(connect.value).Failure? ==> r == Failure(toEnv(connect.value).error)
    ensures connect.Success? && toEnv(connect.value).Success? ==>
              && r.Success? && r.value.run.Some? && |r.value.run.value.fixes| <= MaxRepairs
              && r.value.text == GenAndExecute(o, toEnv(connect.value).value, query).text
  {
    match connect
    case Failure(e) => Success(ToolReply(ConnectionFailed + e, None))
    case Success(source) =>
      match toEnv(source)
      case Failure(e) => Failure(e)
      case Success(env) =>
        var reply := GenAndExecute(o, env, query);
        Success(ToolReply(reply.text, Some(reply.trace)))
  }

  /** A failed connection is reported without any model call or query being made. */
  lemma SetupFailureShortCircuits<S>(connect: Result<S, string>, toEnv: S -> Result<DbEnv, string>, query: string, o: Oracles)
    requires connect.Failure?
    ensures CallXiyan(connect, toEnv, query, o).Success?
    ensures StartsWith(CallXiyan(connect, toEnv, query, o).value.text, ConnectionFailed)
    ensures CallXiyan(connect, toEnv, query, o).value.run.None?
  {
    var text := CallXiyan(connect, toEnv, query, o).value.text;
    assert text[..|ConnectionFailed|] == ConnectionFailed;
  }

  /** The three ways out of `call_xiyan`, each tied to its cause: a reply without a
      run exactly when connecting failed, an escaping exception exactly when
      building the environment failed, and otherwise a reply carrying the run. */
  lemma CallXiyanOutcomes<S>(connect: Result<S, string>, toEnv: S -> Result<DbEnv, string>, query: string, o: Oracles)
    ensures var r := CallXiyan(connect, toEnv, query, o);
            && (r.Success? && r.value.run.None? <==> connect.Failure?)
            && (r.Failure? <==> connect.Success? && toEnv(connect.value).Failure?)
            && (r.Success? && r.value.run.Some? <==> connect.Success? && toEnv(connect.value).Success?)
  {
  }

  // ---------------------------------------------------------------------------
  // read_resource
  // ---------------------------------------------------------------------------

  /** A cursor after `execute`: the column names of its description (absent when
      the statement produced no result set) and the fetched rows, each cell
      already passed through `str`. */
  datatype Cursor = Cursor(description: Option<seq<string>>, rows: seq<seq<string>>)

  /** The query `read_resource` runs: the table's first 100 rows. */
  function SelectAll(table: string): string
  {
    "SELECT * FROM " + table + " LIMIT 100"
  }

  function NoData(table: string): string
  {
    "No data found or query error for table " + table
  }

  /** The CSV-like lines of a result: the header, then one line per row. */
  function CsvLines(columns: seq<string>, rows: seq<seq<string>>): (lines: seq<string>)
    ensures |lines| == |rows| + 1
    ensures lines[0] == Join(columns, ',')
    ensures forall i :: 0 <= i < |rows| ==> lines[i + 1] == Join(rows[i], ',')
  {
    [Join(columns, ',')] + seq(|rows|, i requires 0 <= i < |rows| => Join(rows[i], ','))
  }

  /** `read_resource`: `execute(sql)` connects and runs the query, `Failure(str(e))`
      when the driver raises its `Error`, which is re-raised as a `RuntimeError`. */
  function ReadResource(table: string, execute: string -> Result<Cursor, string>): (r: Result<string, string>)
    ensures execute(SelectAll(table)).Failure? ==>
              r == Failure("Database error: " + execute(SelectAll(table)).error)
    ensures execute(SelectAll(table)).Success? && execute(SelectAll(table)).value.description.None? ==>
              r == Success(NoData(table))
  {
    match execute(SelectAll(table))
    case Failure(e) => Failure("Database error: " + e)
    case Success(cursor) =>
      match cursor.description
      case None => Success(NoData(table))
      case Some(columns) => Success(Join(CsvLines(columns, cursor.rows), '\n'))
  }

  /** When no column name or cell holds a line break, the output splits back into
      the header line followed by one line per row: rows + 1 lines. When no cell
      holds a comma either, each line splits back into its row's cells. */
  lemma ReadResourceLines(table: string, execute: string -> Result<Cursor, string>)
    requires execute(SelectAll(table)).Success?
    requires execute(SelectAll(table)).value.description.Some?
    requires var c := execute(SelectAll(table)).value;
             && (forall k :: 0 <= k < |c.description.value| ==> '\n' !in c.description.value[k])
             && (forall i, k :: 0 <= i < |c.rows| && 0 <= k < |c.rows[i]| ==> '\n' !in c.rows[i][k])
    ensures var c := execute(SelectAll(table)).value;
            var lines := Split(ReadResource(table, execute).value, '\n');
            && |lines| == |c.rows| + 1
            && lines[0] == Join(c.description.value, ',')
            && (forall i :: 0 <= i < |c.rows| ==> lines[i + 1] == Join(c.rows[i], ','))
            && (forall i :: 0 <= i < |c.rows| && |c.rows[i]| > 0
                  && (forall k :: 0 <= k < |c.rows[i]| ==> ',' !in c.rows[i][k])
                  ==> Split(lines[i + 1], ',') == c.rows[i])
  {
    var c := execute(SelectAll(table)).value;
    var lines := CsvLines(c.description.value, c.rows);
    forall i | 0 <= i < |lines|
      ensures '\n' !in lines[i]
    {
      if i == 0 {
        JoinAvoids(c.description.value, ',', '\n');
      } else {
        JoinAvoids(c.rows[i - 1], ',', '\n');
      }
    }
    SplitJoin(lines, '\n');
    forall i | 0 <= i < |c.rows| && |c.rows[i]| > 0 && (forall k :: 0 <= k < |c.rows[i]| ==> ',' !in c.rows[i][k])
      ensures Split(lines[i + 1], ',') == c.rows[i]
    {
      SplitJoin(c.rows[i], ',');
    }
  }

  // ---------------------------------------------------------------------------
  // get_xiyan_config
  // ---------------------------------------------------------------------------

  const DefaultDialect: string := "mysql"

  /** The connection settings built from the `database` section of the configuration. */
  datatype DbConfig = DbConfig(dialect: Json, dbName: Json, userName: Json, dbPwd: Json, dbHost: Json, port: Json)

  /** The keys read with `db_config[...]`; a missing one raises `KeyError`. */
  const RequiredKeys: set<string> := {"database", "user", "password", "host", "port"}

  /** `get_xiyan_config`: the dialect falls back to `mysql`; a missing required key
      raises `KeyError`, reported here as `Failure(key)` for the first key the
      constructor call reads that is absent. */
  function GetXiyanConfig(section: map<string, Json>): (r: Result<DbConfig, string>)
    ensures r.Success? <==> RequiredKeys <= section.Keys
    ensures r.Success? ==> r.value.dialect == (if "dialect" in section then section["dialect"] else JStr(DefaultDialect))
    ensures r.Success? ==> && r.value.dbName == section["database"] && r.value.userName == section["user"]
                           && r.value.dbPwd == section["password"] && r.value.dbHost == section["host"]
                           && r.value.port == section["port"]
    ensures r.Failure? ==> r.error in RequiredKeys && r.error !in section
  {
    var dialect := GetOr(section, "dialect", JStr(DefaultDialect));
    if "database" !in section then Failure("database")
    else if "user" !in section then Failure("user")
    else if "password" !in section then Failure("password")
    else if "host" !in section then Failure("host")
    else if "port" !in section then Failure("port")
    else Success(DbConfig(dialect, section["database"], section["user"], section["password"], section["host"], section["port"]))
  }

  /** Without a `dialect` setting the server speaks MySQL. */
  lemma DialectDefaultsToMysql(section: map<string, Json>)
    requires "dialect" !in section
    requires RequiredKeys <= section.Keys
    ensures GetXiyanConfig(section).Success?
    ensures GetXiyanConfig(section).value.dialect == JStr("mysql")
  {
  }
}
