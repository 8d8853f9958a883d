/**
 * The MySQL server and connection the sandbox talks to, reduced to what the
 * sandbox relies on: named schemas (databases) holding tables, the current
 * schema of the connection, the schema commands the sandbox issues itself,
 * and an uninterpreted engine for every other statement.
 */
module MySqlModel {
  import opened Common
  import opened RowSets

  type Table = seq<seq<Value>>
  type Schema = map<string, Table>

  /** Server contents plus the connection's current schema (`DATABASE()`). */
  datatype Session = Session(schemas: map<string, Schema>, current: Option<string>)

  /** What the server does with one statement: it raises a connector error
      with its text (`str(e)`), or it runs, yielding the cursor description
      (column names, `None` for statements without a result set), the rows,
      and the new session. */
  datatype Response =
    | Raised(message: string)
    | Ran(description: Option<seq<string>>, tuples: seq<seq<Value>>, after: Session)

  /** The server as configured by `get_mysql_db_config()`: whether it accepts
      connections (and the error text when it does not), the default database
      named in the configuration, and the engine. */
  datatype Config = Config(
    accepting: bool,
    refusal: string,
    home: Option<string>,
    engine: (Session, string) -> Response)

  /** Requests as they reach the server, in order. */
  datatype Request =
    | Connect
    | CreateSchema(name: string)
    | UseSchema(name: string)
    | Run(statement: string)
    | DropSchema(name: string)
    | Disconnect

  datatype World = World(session: Session, connected: bool, log: seq<Request>)

  /** The caller's view of one request. */
  datatype Outcome =
    | Failed(message: string)
    | Done(description: Option<seq<string>>, tuples: seq<seq<Value>>)

  function SchemaExistsMessage(name: string): string {
    "1007 (HY000): Can't create database '" + name + "'; database exists"
  }

  function UnknownDatabaseMessage(name: string): string {
    "1049 (42000): Unknown database '" + name + "'"
  }

  function ConnectStep(cfg: Config, w: World): (Outcome, World) {
    var log := w.log + [Connect];
    if cfg.accepting then
      (Done(None, []), World(w.session.(current := cfg.home), true, log))
    else
      (Failed(cfg.refusal), w.(log := log))
  }

  /** `CREATE SCHEMA name`: fails when a schema of that name exists. */
  function CreateStep(w: World, name: string): (Outcome, World) {
    var log := w.log + [CreateSchema(name)];
    if name in w.session.schemas then
      (Failed(SchemaExistsMessage(name)), w.(log := log))
    else
      (Done(None, []), w.(session := w.session.(schemas := w.session.schemas[name := map[]]), log := log))
  }

  /** `USE name`: fails when no schema of that name exists. */
  function UseStep(w: World, name: string): (Outcome, World) {
    var log := w.log + [UseSchema(name)];
    if name !in w.session.schemas then
      (Failed(UnknownDatabaseMessage(name)), w.(log := log))
    else
      (Done(None, []), w.(session := w.session.(current := Some(name)), log := log))
  }

  /** Any other statement goes to the engine; a raised error leaves the
      session as it was. */
  function ExecStep(cfg: Config, w: World, stmt: string): (Outcome, World) {
    var log := w.log + [Run(stmt)];
    match cfg.engine(w.session, stmt)
    case Raised(m) => (Failed(m), w.(log := log))
    case Ran(d, t, after) => (Done(d, t), w.(session := after, log := log))
  }

  /** `DROP SCHEMA IF EXISTS name`: never fails; dropping the current schema
      leaves the connection without one. */
  function DropStep(w: World, name: string): World {
    var current := if w.session.current == Some(name) then None else w.session.current;
    World(Session(w.session.schemas - {name}, current), w.connected, w.log + [DropSchema(name)])
  }

  function CloseStep(w: World): World {
    World(w.session, false, w.log + [Disconnect])
  }

  /** The connection and its cursor: each method performs one request and
      leaves the world exactly as the matching step function says. */
  class Server {
    const config: Config
    var session: Session
    var connected: bool
    var log: seq<Request>

    function State(): World
      reads this
    {
      World(session, connected, log)
    }

    constructor (config: Config, schemas: map<string, Schema>)
      ensures this.config == config
      ensures State() == World(Session(schemas, None), false, [])
    {
      this.config := config;
      session := Session(schemas, None);
      connected := false;
      log := [];
    }

    /** `mysql.connector.connect(**db_config)`; `conn.cursor()`. */
    method Connect() returns (o: Outcome)
      modifies this
      ensures (o, State()) == ConnectStep(config, old(State()))
    {
      log := log + [Request.Connect];
      if config.accepting {
        session := session.(current := config.home);
        connected := true;
        o := Done(None, []);
      } else {
        o := Failed(config.refusal);
      }
    }

    method CreateSchema(name: string) returns (o: Outcome)
      modifies this
      ensures (o, State()) == CreateStep(old(State()), name)
    {
      log := log + [Request.CreateSchema(name)];
      if name in session.schemas {
        o := Failed(SchemaExistsMessage(name));
      } else {
        session := session.(schemas := session.schemas[name := map[]]);
        o := Done(None, []);
      }
    }

    method Use(name: string) returns (o: Outcome)
      modifies this
      ensures (o, State()) == UseStep(old(State()), name)
    {
      log := log + [UseSchema(name)];
      if name !in session.schemas {
        o := Failed(UnknownDatabaseMessage(name));
      } else {
        session := session.(current := Some(name));
        o := Done(None, []);
      }
    }

    /** `cursor.execute(stmt)` followed, when a result set exists, by
        `cursor.description` and `cursor.fetchall()`. */
    method Execute(stmt: string) returns (o: Outcome)
      modifies this
      ensures (o, State()) == ExecStep(config, old(State()), stmt)
    {
      log := log + [Run(stmt)];
      var response := config.engine(session, stmt);
      match response
      case Raised(m) =>
        o := Failed(m);
      case Ran(d, t, after) =>
        session := after;
        o := Done(d, t);
    }

    method DropSchemaIfExists(name: string)
      modifies this
      ensures State() == DropStep(old(State()), name)
    {
      if session.current == Some(name) {
        session := session.(current := None);
      }
      session := session.(schemas := session.schemas - {name});
      log := log + [DropSchema(name)];
    }

    /** `cursor.close()`; `conn.close()`. */
    method Close()
      modifies this
      ensures State() == CloseStep(old(State()))
    {
      connected := false;
      log := log + [Disconnect];
    }
  }
}
