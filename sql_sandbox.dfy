/**
 * The answer checker: a keyword filter, then a throw-away schema in which
 * the problem's setup script, the learner's statements and the reference
 * solution are run, and a comparison of the learner's last result set with
 * the solution's.
 *
 * Each imperative step is a method on the `Server` connection, proved equal
 * to a specification function on `World` values; the properties of the
 * checker are lemmas about those functions.
 */
module SqlSandbox {
  import opened Common
  import opened Text
  import opened Json
  import opened ProblemLoader
  import opened RowSets
  import opened MySqlModel

  const ForbiddenKeywords: seq<string> := ["insert", "delete", "update", "drop", "alter"]

  const MsgForbidden := "Query contains forbidden SQL operation."
  const MsgNoStatement := "No valid SQL statement provided."
  const MsgNoSelect := "No SELECT result found from user query."
  const MsgMismatch := "Output does not match expected result."
  const QueryErrorPrefix := "Error in query execution: "
  const ExecutionErrorPrefix := "Execution error: "

  /** `TypeError` text of iterating over `cursor.description` when it is `None`. */
  const NoneTypeNotIterable := "'NoneType' object is not iterable"

  /** Leading text of the `TypeError` that `sorted` raises on keys `<`
      cannot order. */
  const SortTypeError := "'<' not supported between instances"

  // ---------------------------------------------------------------
  // Keyword filter and statement splitting
  // ---------------------------------------------------------------

  /** Some forbidden keyword occurs anywhere in the lower-cased query. */
  predicate IsForbidden(query: string) {
    exists k :: 0 <= k < |ForbiddenKeywords| && Contains(Lower(query), ForbiddenKeywords[k])
  }

  lemma LowerAppend(a: string, b: string)
    ensures Lower(a + b) == Lower(a) + Lower(b)
  {
  }

  lemma ContainsWithin(p: string, s: string, q: string, sub: string)
    requires Contains(s, sub)
    ensures Contains(p + s + q, sub)
  {
    var i :| 0 <= i <= |s| - |sub| && StartsWith(s[i..], sub);
    var t := p + s + q;
    assert t[|p| + i..][..|sub|] == s[i..][..|sub|];
  }

  /** Surrounding text never lifts a ban: a query containing a forbidden
      query is itself forbidden. */
  lemma ForbiddenInContext(p: string, q: string, r: string)
    requires IsForbidden(q)
    ensures IsForbidden(p + q + r)
  {
    var k :| 0 <= k < |ForbiddenKeywords| && Contains(Lower(q), ForbiddenKeywords[k]);
    LowerAppend(p, q);
    LowerAppend(p + q, r);
    ContainsWithin(Lower(p), Lower(q), Lower(r), ForbiddenKeywords[k]);
  }

  /** The filter ignores letter case. */
  lemma ForbiddenIgnoresCase(q: string)
    ensures IsForbidden(Lower(q)) <==> IsForbidden(q)
  {
    assert Lower(Lower(q)) == Lower(q);
  }

  /** A text lacking one of the letters of `w` does not contain `w`. */
  lemma AbsentLetter(s: string, w: string, c: char)
    requires c in w && c !in s
    ensures !Contains(s, w)
  {
    var j :| 0 <= j < |w| && w[j] == c;
    forall i | 0 <= i <= |s| - |w| ensures !StartsWith(s[i..], w) {
      assert s[i + j] in s;
      assert s[i..][..|w|][j] == s[i + j];
    }
  }

  lemma LowerUpdatedAt()
    ensures Contains(Lower("SELECT updated_at FROM t"), "update")
  {
    var l := Lower("SELECT updated_at FROM t");
    assert l[7..][..6] == "update";
  }

  lemma LowerSelectAll()
    ensures Lower("SELECT * FROM t") == "select * from t"
  {
  }

  lemma UpdatedAtForbidden()
    ensures IsForbidden("SELECT updated_at FROM t")
  {
    LowerUpdatedAt();
    assert ForbiddenKeywords[2] == "update";
  }

  lemma LettersAbsent()
    ensures 'i' !in "select * from t" && 'd' !in "select * from t"
    ensures 'u' !in "select * from t" && 'a' !in "select * from t"
  {
  }

  lemma SelectAllAllowed()
    ensures !IsForbidden("SELECT * FROM t")
  {
    LowerSelectAll();
    LettersAbsent();
    var ok := "select * from t";
    AbsentLetter(ok, "insert", 'i');
    AbsentLetter(ok, "delete", 'd');
    AbsentLetter(ok, "update", 'u');
    AbsentLetter(ok, "drop", 'd');
    AbsentLetter(ok, "alter", 'a');
    assert ForbiddenKeywords == ["insert", "delete", "update", "drop", "alter"];
  }

  /** The filter matches substrings, not words: a column named `updated_at`
      is enough to refuse a read-only query. */
  lemma FilterMatchesInsideWords()
    ensures IsForbidden("SELECT updated_at FROM t")
    ensures !IsForbidden("SELECT * FROM t")
  {
    UpdatedAtForbidden();
    SelectAllAllowed();
  }

  lemma StripSlice(s: string) returns (i: nat, j: nat)
    ensures i <= j <= |s| && Strip(s) == s[i..j]
    ensures i < j ==> !IsPySpace(s[i]) && !IsPySpace(s[j - 1])
  {
    StripBySlice(IsPySpace, s);
    i, j :| && 0 <= i <= j <= |s| && StripBy(IsPySpace, s) == s[i..j]
            && (forall k :: 0 <= k < i ==> IsPySpace(s[k]))
            && (forall k :: j <= k < |s| ==> IsPySpace(s[k]))
            && (i < j ==> !IsPySpace(s[i]) && !IsPySpace(s[j - 1]));
  }

  /** A stripped string has no surrounding whitespace left. */
  lemma StripIdempotent(s: string)
    ensures Strip(Strip(s)) == Strip(s)
  {
    var i, j := StripSlice(s);
    var r := Strip(s);
    assert LeadingCount(IsPySpace, r) == 0;
    assert r[0..] == r;
    assert TrailingStart(IsPySpace, r) == |r|;
  }

  /** A stripped piece of a semicolon-free string is semicolon-free. */
  lemma StripKeepsOut(s: string, c: char)
    ensures c !in s ==> c !in Strip(s)
  {
    var i, j := StripSlice(s);
  }

  /** The non-blank pieces, each stripped. */
  function Pieces(parts: seq<string>): (stmts: seq<string>)
    ensures |stmts| <= |parts|
    ensures forall i :: 0 <= i < |stmts| ==> stmts[i] != "" && Strip(stmts[i]) == stmts[i]
    ensures (forall i :: 0 <= i < |parts| ==> ';' !in parts[i]) ==> forall i :: 0 <= i < |stmts| ==> ';' !in stmts[i]
  {
    if parts == [] then []
    else
      var s := Strip(parts[0]);
      StripIdempotent(parts[0]);
      StripKeepsOut(parts[0], ';');
      if s == "" then Pieces(parts[1..]) else [s] + Pieces(parts[1..])
  }

  /** `[s.strip() for s in script.split(';') if s.strip()]`: every statement is
      non-empty, free of semicolons and without surrounding whitespace. */
  function Statements(script: string): (stmts: seq<string>)
    ensures forall i :: 0 <= i < |stmts| ==> stmts[i] != "" && ';' !in stmts[i] && Strip(stmts[i]) == stmts[i]
  {
    Pieces(Split(script, ';'))
  }

  /** The learner's statements; the whole query is stripped before splitting. */
  function LearnerStatements(query: string): seq<string> {
    Statements(Strip(query))
  }

  /** Statements whose result set is captured: those that start with
      `select` or `with` in any letter case. */
  predicate ProducesRows(stmt: string) {
    StartsWith(Lower(stmt), "select") || StartsWith(Lower(stmt), "with")
  }

  /** The sandbox schema, `sandbox_` followed by eight hex digits of a fresh
      UUID, which the model receives as `suffix`. */
  function SchemaName(suffix: string): string {
    "sandbox_" + suffix
  }

  // ---------------------------------------------------------------
  // Specification of each step
  // ---------------------------------------------------------------

  /** Runs the statements in order and stops at the first error. */
  function SetupSpec(cfg: Config, w: World, stmts: seq<string>): (Option<string>, World)
    decreases |stmts|
  {
    if stmts == [] then (None, w)
    else
      var (o, w1) := ExecStep(cfg, w, stmts[0]);
      if o.Failed? then (Some(o.message), w1) else SetupSpec(cfg, w1, stmts[1..])
  }

  /** `run_problem_setup`: a missing `problem.sql` is an error before any
      statement runs. */
  function ProblemSetupSpec(cfg: Config, w: World, stores: Stores, id: int,
                            decode: string -> Decoded): (Option<string>, World)
  {
    var loaded := LoadProblemFile(stores, id, "problem.sql", false, decode);
    if loaded.Failed? then (Some(loaded.error.message), w)
    else SetupSpec(cfg, w, Statements(loaded.content.text))
  }

  datatype OrderFlag = Flag(requiresOrder: bool) | FlagError(message: string)

  /** `requires_order` from `metadata.json`: false when the file is missing,
      an error when it does not decode or is not an object, otherwise the
      truth value of the key (absent means false). */
  function MetadataOrder(stores: Stores, id: int, decode: string -> Decoded): (f: OrderFlag)
    ensures var l := LoadProblemFile(stores, id, "metadata.json", true, decode);
            && (l.Failed? && l.error.FileNotFound? ==> f == Flag(false))
            && (l.Failed? && l.error.BadJson? ==> f == FlagError(l.error.message))
            && (l.Loaded? && l.content.value.JObject? && "requires_order" !in l.content.value.fields ==>
                  f == Flag(false))
            && (l.Loaded? && l.content.value.JObject? && "requires_order" in l.content.value.fields ==>
                  f == Flag(Truthy(l.content.value.fields["requires_order"])))
            && (l.Loaded? && !l.content.value.JObject? ==> f.FlagError?)
  {
    match LoadProblemFile(stores, id, "metadata.json", true, decode)
    case Failed(FileNotFound(_)) => Flag(false)
    case Failed(BadJson(m)) => FlagError(m)
    case Loaded(Parsed(JObject(fields))) => Flag(Truthy(Get(fields, "requires_order", JBool(false))))
    case Loaded(Parsed(v)) => FlagError("'" + TypeName(v) + "' object has no attribute 'get'")
    case Loaded(Text(_)) => FlagError("'str' object has no attribute 'get'")
  }

  datatype Capture = Aborted(message: string) | Captured(rows: Option<seq<Row>>)

  /** The learner's loop: each result of a row-producing statement replaces
      the captured rows; the first error ends the loop. */
  function LearnerSpec(cfg: Config, w: World, stmts: seq<string>, acc: Option<seq<Row>>): (Capture, World)
    decreases |stmts|
  {
    if stmts == [] then (Captured(acc), w)
    else
      var (o, w1) := ExecStep(cfg, w, stmts[0]);
      match o
      case Failed(m) => (Aborted(QueryErrorPrefix + m), w1)
      case Done(d, t) =>
        if !ProducesRows(stmts[0]) then LearnerSpec(cfg, w1, stmts[1..], acc)
        else if d.None? then (Aborted(QueryErrorPrefix + NoneTypeNotIterable), w1)
        else LearnerSpec(cfg, w1, stmts[1..], Some(MakeRows(d.value, t)))
  }

  datatype Fetched = Fetched(rows: seq<Row>) | FetchError(message: string)

  /** `get_solution_output`: the whole of `solution.sql` as one statement. */
  function SolutionSpec(cfg: Config, w: World, stores: Stores, id: int,
                        decode: string -> Decoded): (Fetched, World)
  {
    var loaded := LoadProblemFile(stores, id, "solution.sql", false, decode);
    if loaded.Failed? then (FetchError(loaded.error.message), w)
    else
      var (o, w1) := ExecStep(cfg, w, loaded.content.text);
      match o
      case Failed(m) => (FetchError(m), w1)
      case Done(d, t) =>
        if d.None? then (FetchError(NoneTypeNotIterable), w1)
        else (Fetched(MakeRows(d.value, t)), w1)
  }

  datatype Verdict = Verdict(correct: bool, message: string)

  /** How the body of the sandbox ends: by returning a verdict, or by an
      exception that the outer handler turns into a verdict. */
  datatype Body = Returned(verdict: Verdict) | Threw(message: string)

  /** The order policy and the comparison: the verdict on two captured
      result sets, or the sort's `TypeError` when they cannot be ordered. */
  function Judge(user: seq<Row>, solution: seq<Row>, requiresOrder: bool): (b: Body)
    ensures b == Returned(Verdict(true, "")) <==> CompareResults(user, solution, requiresOrder) == Equal
    ensures requiresOrder ==> (b == Returned(Verdict(true, "")) <==> ListEq(user, solution))
    ensures requiresOrder && !ListEq(user, solution) ==> b == Returned(Verdict(false, MsgMismatch))
    ensures b.Threw? <==> !requiresOrder && !(AllComparable(user) && AllComparable(solution))
    ensures b.Threw? ==> b.message == SortTypeError
    ensures b.Returned? ==> b.verdict == Verdict(true, "") || b.verdict == Verdict(false, MsgMismatch)
  {
    match CompareResults(user, solution, requiresOrder)
    case Unorderable => Threw(SortTypeError)
    case Equal => Returned(Verdict(true, ""))
    case Unequal => Returned(Verdict(false, MsgMismatch))
  }

  /** Everything after the setup and the metadata: the learner's statements,
      the solution and the comparison. */
  function AnswerSpec(cfg: Config, w: World, stores: Stores, id: int, decode: string -> Decoded,
                      stmts: seq<string>, requiresOrder: bool): (Body, World)
  {
    if stmts == [] then (Returned(Verdict(false, MsgNoStatement)), w)
    else
      var (cap, w1) := LearnerSpec(cfg, w, stmts, None);
      match cap
      case Aborted(m) => (Returned(Verdict(false, m)), w1)
      case Captured(None) => (Returned(Verdict(false, MsgNoSelect)), w1)
      case Captured(Some(user)) =>
        var (sol, w2) := SolutionSpec(cfg, w1, stores, id, decode);
        match sol
        case FetchError(m) => (Threw(m), w2)
        case Fetched(solution) => (Judge(user, solution, requiresOrder), w2)
  }

  /** The body of the `with sandbox_schema(...)` block. */
  function BodySpec(cfg: Config, w: World, stores: Stores, id: int, decode: string -> Decoded,
                    query: string): (Body, World)
  {
    var (setup, w1) := ProblemSetupSpec(cfg, w, stores, id, decode);
    if setup.Some? then (Threw(setup.value), w1)
    else match MetadataOrder(stores, id, decode)
      case FlagError(m) => (Threw(m), w1)
      case Flag(requiresOrder) => AnswerSpec(cfg, w1, stores, id, decode, LearnerStatements(query), requiresOrder)
  }

  /** `sandbox_schema`: create and enter the schema, run the body, and on
      every path drop the schema and close the connection. */
  function SandboxSpec(cfg: Config, w: World, stores: Stores, id: int, decode: string -> Decoded,
                       query: string, name: string): (Body, World)
  {
    var (c, w1) := CreateStep(w, name);
    var (b, w2) :=
      if c.Failed? then (Threw(c.message), w1)
      else
        var (u, w3) := UseStep(w1, name);
        if u.Failed? then (Threw(u.message), w3)
        else BodySpec(cfg, w3, stores, id, decode, query);
    (b, CloseStep(DropStep(w2, name)))
  }

  /** `check_user_query`. */
  function VerifySpec(cfg: Config, w: World, stores: Stores, id: int, decode: string -> Decoded,
                      query: string, suffix: string): (Verdict, World)
  {
    if IsForbidden(query) then (Verdict(false, MsgForbidden), w)
    else
      var (c, w1) := ConnectStep(cfg, w);
      if c.Failed? then (Verdict(false, ExecutionErrorPrefix + c.message), w1)
      else
        var (b, w2) := SandboxSpec(cfg, w1, stores, id, decode, query, SchemaName(suffix));
        match b
        case Returned(v) => (v, w2)
        case Threw(m) => (Verdict(false, ExecutionErrorPrefix + m), w2)
  }

  // ---------------------------------------------------------------
  // The checker as the program runs it
  // ---------------------------------------------------------------

  lemma PiecesCons(parts: seq<string>, i: nat)
    requires i < |parts|
    ensures Pieces(parts[i..]) ==
            (if Strip(parts[i]) == "" then [] else [Strip(parts[i])]) + Pieces(parts[i + 1..])
  {
    assert parts[i..][0] == parts[i];
    assert parts[i..][1..] == parts[i + 1..];
  }

  lemma SetupCons(cfg: Config, w: World, s: string, rest: seq<string>)
    ensures SetupSpec(cfg, w, [s] + rest) ==
            (var r := ExecStep(cfg, w, s);
             if r.0.Failed? then (Some(r.0.message), r.1) else SetupSpec(cfg, r.1, rest))
  {
    assert ([s] + rest)[0] == s && ([s] + rest)[1..] == rest;
  }

  /** The loop of `run_problem_setup` over `script.split(';')`. */
  method RunScript(server: Server, script: string) returns (err: Option<string>)
    modifies server
    ensures (err, server.State()) == SetupSpec(server.config, old(server.State()), Statements(script))
  {
    var parts := Split(script, ';');
    ghost var goal := SetupSpec(server.config, server.State(), Pieces(parts));
    var i := 0;
    while i < |parts|
      invariant 0 <= i <= |parts|
      invariant goal == SetupSpec(server.config, server.State(), Pieces(parts[i..]))
      decreases |parts| - i
    {
      PiecesCons(parts, i);
      var stmt := Strip(parts[i]);
      ghost var rest := Pieces(parts[i + 1..]);
      if stmt != "" {
        SetupCons(server.config, server.State(), stmt, rest);
        var o := server.Execute(stmt);
        if o.Failed? {
          return Some(o.message);
        }
      } else {
        assert [] + rest == rest;
      }
      i := i + 1;
    }
    err := None;
  }

  /** `run_problem_setup`: loads `problem.sql` and executes its non-blank
      pieces one by one. */
  method RunProblemSetup(server: Server, stores: Stores, id: int, decode: string -> Decoded)
    returns (err: Option<string>)
    modifies server
    ensures (err, server.State()) == ProblemSetupSpec(server.config, old(server.State()), stores, id, decode)
  {
    var loaded := LoadProblemFile(stores, id, "problem.sql", false, decode);
    if loaded.Failed? {
      return Some(loaded.error.message);
    }
    err := RunScript(server, loaded.content.text);
  }

  /** The learner's loop of `check_user_query`. */
  method RunLearnerStatements(server: Server, stmts: seq<string>) returns (cap: Capture)
    modifies server
    ensures (cap, server.State()) == LearnerSpec(server.config, old(server.State()), stmts, None)
  {
    ghost var goal := LearnerSpec(server.config, server.State(), stmts, None);
    var userResult: Option<seq<Row>> := None;
    var i := 0;
    while i < |stmts|
      invariant 0 <= i <= |stmts|
      invariant goal == LearnerSpec(server.config, server.State(), stmts[i..], userResult)
      decreases |stmts| - i
    {
      var stmt := stmts[i];
      assert stmts[i..][0] == stmt && stmts[i..][1..] == stmts[i + 1..];
      var o := server.Execute(stmt);
      if o.Failed? {
        return Aborted(QueryErrorPrefix + o.message);
      }
      if ProducesRows(stmt) {
        if o.description.None? {
          return Aborted(QueryErrorPrefix + NoneTypeNotIterable);
        }
        userResult := Some(MakeRows(o.description.value, o.tuples));
      }
      i := i + 1;
    }
    cap := Captured(userResult);
  }

  /** `get_solution_output`. */
  method GetSolutionOutput(server: Server, stores: Stores, id: int, decode: string -> Decoded)
    returns (sol: Fetched)
    modifies server
    ensures (sol, server.State()) == SolutionSpec(server.config, old(server.State()), stores, id, decode)
  {
    var loaded := LoadProblemFile(stores, id, "solution.sql", false, decode);
    if loaded.Failed? {
      return FetchError(loaded.error.message);
    }
    var o := server.Execute(loaded.content.text);
    if o.Failed? {
      return FetchError(o.message);
    }
    if o.description.None? {
      return FetchError(NoneTypeNotIterable);
    }
    sol := Fetched(MakeRows(o.description.value, o.tuples));
  }

  /** The statements inside the `with` block of `check_user_query`. */
  method RunInSandbox(server: Server, stores: Stores, id: int, decode: string -> Decoded, query: string)
    returns (body: Body)
    modifies server
    ensures (body, server.State()) == BodySpec(server.config, old(server.State()), stores, id, decode, query)
  {
    var setupError := RunProblemSetup(server, stores, id, decode);
    if setupError.Some? {
      return Threw(setupError.value);
    }
    var flag := MetadataOrder(stores, id, decode);
    if flag.FlagError? {
      return Threw(flag.message);
    }
    var stmts := LearnerStatements(query);
    if stmts == [] {
      return Returned(Verdict(false, MsgNoStatement));
    }
    var cap := RunLearnerStatements(server, stmts);
    if cap.Aborted? {
      return Returned(Verdict(false, cap.message));
    }
    if cap.rows.None? {
      return Returned(Verdict(false, MsgNoSelect));
    }
    var sol := GetSolutionOutput(server, stores, id, decode);
    if sol.FetchError? {
      return Threw(sol.message);
    }
    body := Judge(cap.rows.value, sol.rows, flag.requiresOrder);
  }

  /** `sandbox_schema` around the body: the drop and the close run on every
      path once the connection exists. */
  method SandboxSchema(server: Server, stores: Stores, id: int, decode: string -> Decoded,
                       query: string, name: string)
    returns (body: Body)
    modifies server
    ensures (body, server.State()) == SandboxSpec(server.config, old(server.State()), stores, id, decode, query, name)
  {
    var c := server.CreateSchema(name);
    if c.Failed? {
      body := Threw(c.message);
    } else {
      var u := server.Use(name);
      if u.Failed? {
        body := Threw(u.message);
      } else {
        body := RunInSandbox(server, stores, id, decode, query);
      }
    }
    server.DropSchemaIfExists(name);
    server.Close();
  }

  /** `check_user_query(problem_id, user_query)`. */
  method CheckUserQuery(server: Server, stores: Stores, decode: string -> Decoded,
                        problemId: int, userQuery: string, suffix: string)
    returns (correct: bool, message: string)
    modifies server
    ensures (Verdict(correct, message), server.State())
         == VerifySpec(server.config, old(server.State()), stores, problemId, decode, userQuery, suffix)
  {
    if IsForbidden(userQuery) {
      return false, MsgForbidden;
    }
    var c := server.Connect();
    if c.Failed? {
      return false, ExecutionErrorPrefix + c.message;
    }
    var body := SandboxSchema(server, stores, problemId, decode, userQuery, SchemaName(suffix));
    match body
    case Returned(v) =>
      correct, message := v.correct, v.message;
    case Threw(m) =>
      correct, message := false, ExecutionErrorPrefix + m;
  }

  // ---------------------------------------------------------------
  // Properties of the checker
  // ---------------------------------------------------------------

  /** A refused query is answered before any connection is opened. */
  lemma ForbiddenQueryNeverReachesServer(cfg: Config, w: World, stores: Stores, id: int,
                                         decode: string -> Decoded, query: string, suffix: string)
    requires IsForbidden(query)
    ensures VerifySpec(cfg, w, stores, id, decode, query, suffix) == (Verdict(false, MsgForbidden), w)
  {
  }

  /** A refused connection is reported with the connector's text, and nothing
      but the attempt reaches the server. */
  lemma RefusedConnection(cfg: Config, w: World, stores: Stores, id: int,
                          decode: string -> Decoded, query: string, suffix: string)
    requires !IsForbidden(query) && !cfg.accepting
    ensures VerifySpec(cfg, w, stores, id, decode, query, suffix)
         == (Verdict(false, ExecutionErrorPrefix + cfg.refusal), w.(log := w.log + [Connect]))
  {
  }

  /** The `Run` requests of a list of statements. */
  function Runs(stmts: seq<string>): (reqs: seq<Request>)
    ensures |reqs| == |stmts| && forall i :: 0 <= i < |stmts| ==> reqs[i] == Run(stmts[i])
  {
    seq(|stmts|, i requires 0 <= i < |stmts| => Run(stmts[i]))
  }

  /** `w2`'s log continues `w1`'s. */
  predicate LogExtends(w1: World, w2: World) {
    |w1.log| <= |w2.log| && w2.log[..|w1.log|] == w1.log
  }

  /** The setup runs its statements in order; with no error all of them ran,
      after an error the failing statement was the last to run. */
  lemma {:induction false} SetupRunsInOrder(cfg: Config, w: World, stmts: seq<string>)
    ensures var log := SetupSpec(cfg, w, stmts).1.log;
            && |w.log| <= |log| <= |w.log| + |stmts|
            && log == w.log + Runs(stmts[..|log| - |w.log|])
            && (SetupSpec(cfg, w, stmts).0.None? ==> |log| == |w.log| + |stmts|)
            && (SetupSpec(cfg, w, stmts).0.Some? ==> |log| > |w.log|)
    decreases |stmts|
  {
    if stmts != [] {
      var r := ExecStep(cfg, w, stmts[0]);
      assert r.1.log == w.log + [Run(stmts[0])];
      if r.0.Done? {
        assert SetupSpec(cfg, w, stmts) == SetupSpec(cfg, r.1, stmts[1..]);
        SetupRunsInOrder(cfg, r.1, stmts[1..]);
        RunsAfterFirst(w.log, stmts, SetupSpec(cfg, r.1, stmts[1..]).1.log);
      } else {
        assert SetupSpec(cfg, w, stmts).1 == r.1;
        RunsCons(stmts, 0);
      }
    }
  }

  lemma RunsCons(stmts: seq<string>, n: nat)
    requires n < |stmts|
    ensures Runs(stmts[..n + 1]) == [Run(stmts[0])] + Runs(stmts[1..][..n])
  {
  }

  /** A log that ran the first statement and then a prefix of the rest ran a
      prefix of all of them. */
  lemma RunsAfterFirst(log0: seq<Request>, stmts: seq<string>, log: seq<Request>)
    requires stmts != []
    requires |log0| + 1 <= |log| <= |log0| + |stmts|
    requires log == (log0 + [Run(stmts[0])]) + Runs(stmts[1..][..|log| - |log0| - 1])
    ensures log == log0 + Runs(stmts[..|log| - |log0|])
  {
    RunsCons(stmts, |log| - |log0| - 1);
  }

  /** The learner's statements run in order; when a result is captured every
      statement ran, after an error the failing statement was the last to
      run. */
  lemma {:induction false} LearnerRunsInOrder(cfg: Config, w: World, stmts: seq<string>, acc: Option<seq<Row>>)
    ensures var log := LearnerSpec(cfg, w, stmts, acc).1.log;
            && |w.log| <= |log| <= |w.log| + |stmts|
            && log == w.log + Runs(stmts[..|log| - |w.log|])
            && (LearnerSpec(cfg, w, stmts, acc).0.Captured? ==> |log| == |w.log| + |stmts|)
            && (LearnerSpec(cfg, w, stmts, acc).0.Aborted? ==> |log| > |w.log|)
    decreases |stmts|
  {
    if stmts != [] {
      var r := ExecStep(cfg, w, stmts[0]);
      assert r.1.log == w.log + [Run(stmts[0])];
      if r.0.Done? && !(ProducesRows(stmts[0]) && r.0.description.None?) {
        var acc' := if ProducesRows(stmts[0]) then Some(MakeRows(r.0.description.value, r.0.tuples)) else acc;
        assert LearnerSpec(cfg, w, stmts, acc) == LearnerSpec(cfg, r.1, stmts[1..], acc');
        LearnerRunsInOrder(cfg, r.1, stmts[1..], acc');
        RunsAfterFirst(w.log, stmts, LearnerSpec(cfg, r.1, stmts[1..], acc').1.log);
      } else {
        assert LearnerSpec(cfg, w, stmts, acc).1 == r.1;
        RunsCons(stmts, 0);
      }
    }
  }

  /** Every failure inside the learner's loop is reported as a query error. */
  lemma {:induction false} LearnerAbortMessage(cfg: Config, w: World, stmts: seq<string>, acc: Option<seq<Row>>)
    ensures LearnerSpec(cfg, w, stmts, acc).0.Aborted? ==>
              StartsWith(LearnerSpec(cfg, w, stmts, acc).0.message, QueryErrorPrefix)
    decreases |stmts|
  {
    if stmts != [] {
      var r := ExecStep(cfg, w, stmts[0]);
      if r.0.Done? && !(ProducesRows(stmts[0]) && r.0.description.None?) {
        var acc' := if ProducesRows(stmts[0]) then Some(MakeRows(r.0.description.value, r.0.tuples)) else acc;
        LearnerAbortMessage(cfg, r.1, stmts[1..], acc');
      }
    }
  }

  /** A `select` that returns no rows is still a result: the capture is the
      empty list, not the absence of a result. */
  lemma EmptyResultIsAResult(cfg: Config, w: World, stmt: string, columns: seq<string>, after: Session)
    requires ProducesRows(stmt) && cfg.engine(w.session, stmt) == Ran(Some(columns), [], after)
    ensures LearnerSpec(cfg, w, [stmt], None).0 == Captured(Some([]))
  {
    assert MakeRows(columns, []) == [];
  }

  /** The solution file is sent to the server whole, as one statement, and
      nothing else is sent. */
  lemma SolutionRunsWholeFile(cfg: Config, w: World, stores: Stores, id: int, decode: string -> Decoded)
    requires LoadProblemFile(stores, id, "solution.sql", false, decode).Loaded?
    ensures SolutionSpec(cfg, w, stores, id, decode).1.log
         == w.log + [Run(LoadProblemFile(stores, id, "solution.sql", false, decode).content.text)]
  {
  }

  /** Only the last row-producing statement counts: once one is ahead, what
      was captured before is irrelevant. */
  lemma {:induction false} LastResultWins(cfg: Config, w: World, stmts: seq<string>,
                                          acc1: Option<seq<Row>>, acc2: Option<seq<Row>>)
    requires exists i :: 0 <= i < |stmts| && ProducesRows(stmts[i])
    ensures LearnerSpec(cfg, w, stmts, acc1) == LearnerSpec(cfg, w, stmts, acc2)
    decreases |stmts|
  {
    var i :| 0 <= i < |stmts| && ProducesRows(stmts[i]);
    var r := ExecStep(cfg, w, stmts[0]);
    if r.0.Done? && !ProducesRows(stmts[0]) {
      assert i > 0 && stmts[1..][i - 1] == stmts[i];
      LastResultWins(cfg, r.1, stmts[1..], acc1, acc2);
    }
  }

  /** Without a row-producing statement nothing is captured beyond what was
      there before. */
  lemma {:induction false} NoResultKeepsCapture(cfg: Config, w: World, stmts: seq<string>, acc: Option<seq<Row>>)
    requires forall i :: 0 <= i < |stmts| ==> !ProducesRows(stmts[i])
    ensures LearnerSpec(cfg, w, stmts, acc).0.Captured? ==> LearnerSpec(cfg, w, stmts, acc).0.rows == acc
    decreases |stmts|
  {
    if stmts != [] {
      var r := ExecStep(cfg, w, stmts[0]);
      if r.0.Done? {
        assert forall i :: 0 <= i < |stmts[1..]| ==> stmts[1..][i] == stmts[i + 1];
        NoResultKeepsCapture(cfg, r.1, stmts[1..], acc);
      }
    }
  }

  /** A query without any `select`/`with` statement is never accepted: no
      statement at all gets the no-statement message; otherwise a failing
      statement gets its own query-error report, and when every statement
      runs the verdict is the no-result message. */
  lemma NoSelectNeverAccepted(cfg: Config, w: World, stores: Stores, id: int, decode: string -> Decoded,
                              stmts: seq<string>, requiresOrder: bool)
    requires forall i :: 0 <= i < |stmts| ==> !ProducesRows(stmts[i])
    ensures var b := AnswerSpec(cfg, w, stores, id, decode, stmts, requiresOrder).0;
            var cap := LearnerSpec(cfg, w, stmts, None).0;
            && b.Returned?
            && (stmts == [] ==> b.verdict == Verdict(false, MsgNoStatement))
            && (stmts != [] && cap.Captured? ==> b.verdict == Verdict(false, MsgNoSelect))
            && (stmts != [] && cap.Aborted? ==>
                  b.verdict == Verdict(false, cap.message) && StartsWith(cap.message, QueryErrorPrefix))
  {
    if stmts != [] {
      NoResultKeepsCapture(cfg, w, stmts, None);
      LearnerAbortMessage(cfg, w, stmts, None);
    }
  }

  /** A failing setup script or unreadable metadata ends the body with that
      error, before any learner statement runs. */
  lemma SetupOrMetadataFailureThrows(cfg: Config, w: World, stores: Stores, id: int,
                                     decode: string -> Decoded, query: string)
    ensures var (setup, w1) := ProblemSetupSpec(cfg, w, stores, id, decode);
            && (setup.Some? ==> BodySpec(cfg, w, stores, id, decode, query) == (Threw(setup.value), w1))
            && (setup.None? && MetadataOrder(stores, id, decode).FlagError? ==>
                  BodySpec(cfg, w, stores, id, decode, query) == (Threw(MetadataOrder(stores, id, decode).message), w1))
  {
  }

  /** Once the learner's rows are captured, a missing or failing solution
      ends the body with the solution's error. */
  lemma SolutionFailureThrows(cfg: Config, w: World, stores: Stores, id: int, decode: string -> Decoded,
                              stmts: seq<string>, requiresOrder: bool)
    ensures var (cap, w1) := LearnerSpec(cfg, w, stmts, None);
            var (sol, w2) := SolutionSpec(cfg, w1, stores, id, decode);
            stmts != [] && cap.Captured? && cap.rows.Some? && sol.FetchError? ==>
              AnswerSpec(cfg, w, stores, id, decode, stmts, requiresOrder) == (Threw(sol.message), w2)
  {
  }

  /** Whatever the body throws, the learner sees it as an execution error:
      not correct, with the message after `Execution error: `. */
  lemma ThrownIsExecutionError(cfg: Config, w: World, stores: Stores, id: int,
                               decode: string -> Decoded, query: string, suffix: string)
    requires !IsForbidden(query) && cfg.accepting
    ensures var b := SandboxSpec(cfg, ConnectStep(cfg, w).1, stores, id, decode, query, SchemaName(suffix)).0;
            b.Threw? ==> VerifySpec(cfg, w, stores, id, decode, query, suffix).0 == Verdict(false, ExecutionErrorPrefix + b.message)
  {
  }

  /** After the setup, a returned verdict is positive exactly when its
      message is empty. */
  lemma AnswerVerdictSilentIffCorrect(cfg: Config, w: World, stores: Stores, id: int,
                                      decode: string -> Decoded, stmts: seq<string>, requiresOrder: bool)
    ensures var b := AnswerSpec(cfg, w, stores, id, decode, stmts, requiresOrder).0;
            b.Returned? ==> (b.verdict.correct <==> b.verdict.message == "")
  {
    if stmts != [] {
      var (cap, w1) := LearnerSpec(cfg, w, stmts, None);
      if cap.Aborted? {
        LearnerAbortMessage(cfg, w, stmts, None);
        assert |cap.message| >= |QueryErrorPrefix| > 0;
      }
    }
  }

  /** Inside the sandbox, a returned verdict is positive exactly when its
      message is empty. */
  lemma BodyVerdictSilentIffCorrect(cfg: Config, w: World, stores: Stores, id: int,
                                    decode: string -> Decoded, query: string)
    ensures var b := BodySpec(cfg, w, stores, id, decode, query).0;
            b.Returned? ==> (b.verdict.correct <==> b.verdict.message == "")
  {
    var (setup, w1) := ProblemSetupSpec(cfg, w, stores, id, decode);
    var order := MetadataOrder(stores, id, decode);
    if setup.None? && order.Flag? {
      AnswerVerdictSilentIffCorrect(cfg, w1, stores, id, decode, LearnerStatements(query), order.requiresOrder);
    }
  }

  /** The verdict is positive exactly when its message is empty; every
      refusal and every failure carries a message. */
  lemma VerdictCorrectIffSilent(cfg: Config, w: World, stores: Stores, id: int,
                                decode: string -> Decoded, query: string, suffix: string)
    ensures var v := VerifySpec(cfg, w, stores, id, decode, query, suffix).0;
            v.correct <==> v.message == ""
  {
    if !IsForbidden(query) && cfg.accepting {
      var w1 := ConnectStep(cfg, w).1;
      var name := SchemaName(suffix);
      var (c, w2) := CreateStep(w1, name);
      if c.Done? {
        var (u, w3) := UseStep(w2, name);
        if u.Done? {
          BodyVerdictSilentIffCorrect(cfg, w3, stores, id, decode, query);
        }
      }
    }
  }

  /** A positive verdict needs an admitted query with at least one statement
      and a reachable server. */
  lemma CorrectNeedsStatements(cfg: Config, w: World, stores: Stores, id: int,
                               decode: string -> Decoded, query: string, suffix: string)
    requires VerifySpec(cfg, w, stores, id, decode, query, suffix).0.correct
    ensures !IsForbidden(query) && cfg.accepting && LearnerStatements(query) != []
  {
    if !IsForbidden(query) && cfg.accepting {
      SandboxCorrectNeedsStatements(cfg, ConnectStep(cfg, w).1, stores, id, decode, query, SchemaName(suffix));
    }
  }

  lemma SandboxCorrectNeedsStatements(cfg: Config, w: World, stores: Stores, id: int,
                                      decode: string -> Decoded, query: string, name: string)
    ensures var b := SandboxSpec(cfg, w, stores, id, decode, query, name).0;
            b.Returned? && b.verdict.correct ==> LearnerStatements(query) != []
  {
    var (c, w1) := CreateStep(w, name);
    if c.Done? {
      BodyCorrectNeedsStatements(cfg, UseStep(w1, name).1, stores, id, decode, query);
    }
  }

  lemma BodyCorrectNeedsStatements(cfg: Config, w: World, stores: Stores, id: int,
                                   decode: string -> Decoded, query: string)
    ensures var b := BodySpec(cfg, w, stores, id, decode, query).0;
            b.Returned? && b.verdict.correct ==> LearnerStatements(query) != []
  {
  }

  lemma LogExtendsTrans(w1: World, w2: World, w3: World)
    requires LogExtends(w1, w2) && LogExtends(w2, w3)
    ensures LogExtends(w1, w3)
  {
    assert w3.log[..|w1.log|] == w3.log[..|w2.log|][..|w1.log|];
  }

  lemma ProblemSetupExtendsLog(cfg: Config, w: World, stores: Stores, id: int, decode: string -> Decoded)
    ensures LogExtends(w, ProblemSetupSpec(cfg, w, stores, id, decode).1)
  {
    var loaded := LoadProblemFile(stores, id, "problem.sql", false, decode);
    if loaded.Loaded? {
      SetupRunsInOrder(cfg, w, Statements(loaded.content.text));
    }
  }

  lemma SolutionExtendsLog(cfg: Config, w: World, stores: Stores, id: int, decode: string -> Decoded)
    ensures LogExtends(w, SolutionSpec(cfg, w, stores, id, decode).1)
  {
  }

  lemma AnswerExtendsLog(cfg: Config, w: World, stores: Stores, id: int, decode: string -> Decoded,
                         stmts: seq<string>, requiresOrder: bool)
    ensures LogExtends(w, AnswerSpec(cfg, w, stores, id, decode, stmts, requiresOrder).1)
  {
    if stmts != [] {
      LearnerRunsInOrder(cfg, w, stmts, None);
      var w1 := LearnerSpec(cfg, w, stmts, None).1;
      SolutionExtendsLog(cfg, w1, stores, id, decode);
      LogExtendsTrans(w, w1, SolutionSpec(cfg, w1, stores, id, decode).1);
    }
  }

  lemma BodyExtendsLog(cfg: Config, w: World, stores: Stores, id: int, decode: string -> Decoded, query: string)
    ensures LogExtends(w, BodySpec(cfg, w, stores, id, decode, query).1)
  {
    ProblemSetupExtendsLog(cfg, w, stores, id, decode);
    var w1 := ProblemSetupSpec(cfg, w, stores, id, decode).1;
    var flag := MetadataOrder(stores, id, decode);
    if flag.Flag? {
      AnswerExtendsLog(cfg, w1, stores, id, decode, LearnerStatements(query), flag.requiresOrder);
      LogExtendsTrans(w, w1, AnswerSpec(cfg, w1, stores, id, decode, LearnerStatements(query), flag.requiresOrder).1);
    }
  }

  lemma SandboxShape(cfg: Config, w: World, stores: Stores, id: int,
                     decode: string -> Decoded, query: string, name: string)
    ensures var w' := SandboxSpec(cfg, w, stores, id, decode, query, name).1;
            && !w'.connected
            && name !in w'.session.schemas
            && |w'.log| >= |w.log| + 3
            && w'.log[..|w.log| + 1] == w.log + [CreateSchema(name)]
            && w'.log[|w'.log| - 2..] == [DropSchema(name), Disconnect]
  {
    var end := SandboxSpec(cfg, w, stores, id, decode, query, name).1;
    var (c, w1) := CreateStep(w, name);
    if c.Failed? {
      assert end == CloseStep(DropStep(w1, name));
      CleanupShape(w, w1, name);
    } else {
      // the schema was just created, so `USE` succeeds
      var w2 := UseStep(w1, name).1;
      BodyExtendsLog(cfg, w2, stores, id, decode, query);
      var w3 := BodySpec(cfg, w2, stores, id, decode, query).1;
      assert end == CloseStep(DropStep(w3, name));
      assert w3.log[..|w.log| + 1] == w3.log[..|w2.log|][..|w.log| + 1];
      CleanupShape(w, w3, name);
    }
  }

  /** The drop and the close after a run that began with `CREATE SCHEMA`. */
  lemma CleanupShape(w: World, w2: World, name: string)
    requires |w2.log| >= |w.log| + 1 && w2.log[..|w.log| + 1] == w.log + [CreateSchema(name)]
    ensures var w' := CloseStep(DropStep(w2, name));
            && !w'.connected
            && name !in w'.session.schemas
            && |w'.log| >= |w.log| + 3
            && w'.log[..|w.log| + 1] == w.log + [CreateSchema(name)]
            && w'.log[|w'.log| - 2..] == [DropSchema(name), Disconnect]
  {
    var w' := CloseStep(DropStep(w2, name));
    assert w'.log == w2.log + [DropSchema(name), Disconnect];
    assert w'.log[..|w.log| + 1] == w2.log[..|w.log| + 1];
  }

  /** With a name not yet taken, the schema is created empty and entered
      with `USE` before the body runs, and the body's world is the one the
      drop and the close then clean up. */
  lemma SandboxRunsBodyInFreshSchema(cfg: Config, w: World, stores: Stores, id: int,
                                     decode: string -> Decoded, query: string, name: string)
    requires name !in w.session.schemas
    ensures var inside := World(Session(w.session.schemas[name := map[]], Some(name)), w.connected,
                                w.log + [CreateSchema(name), UseSchema(name)]);
            var (b, w2) := BodySpec(cfg, inside, stores, id, decode, query);
            SandboxSpec(cfg, w, stores, id, decode, query, name) == (b, CloseStep(DropStep(w2, name)))
  {
    var (c, w1) := CreateStep(w, name);
    var (u, w3) := UseStep(w1, name);
    assert c.Done? && u.Done?;
    assert w3 == World(Session(w.session.schemas[name := map[]], Some(name)), w.connected,
                       w.log + [CreateSchema(name), UseSchema(name)]);
  }

  /** Once connected, every run begins by creating the sandbox schema and
      ends by dropping it and closing the connection, whatever happened in
      between; the schema is gone afterwards. */
  lemma SandboxAlwaysDropped(cfg: Config, w: World, stores: Stores, id: int,
                             decode: string -> Decoded, query: string, suffix: string)
    requires !IsForbidden(query) && cfg.accepting
    ensures var w' := VerifySpec(cfg, w, stores, id, decode, query, suffix).1;
            var name := SchemaName(suffix);
            && !w'.connected
            && name !in w'.session.schemas
            && |w'.log| >= |w.log| + 4
            && w'.log[..|w.log| + 2] == w.log + [Connect, CreateSchema(name)]
            && w'.log[|w'.log| - 2..] == [DropSchema(name), Disconnect]
  {
    var w1 := ConnectStep(cfg, w).1;
    SandboxShape(cfg, w1, stores, id, decode, query, SchemaName(suffix));
    var w2 := SandboxSpec(cfg, w1, stores, id, decode, query, SchemaName(suffix)).1;
    assert w2 == VerifySpec(cfg, w, stores, id, decode, query, suffix).1;
    assert w2.log[..|w.log| + 2] == w2.log[..|w1.log| + 1];
  }

  /** The engine only ever touches the connection's current schema and never
      switches to another one. */
  ghost predicate Confined(engine: (Session, string) -> Response) {
    forall s: Session, stmt: string :: engine(s, stmt).Ran? ==> StaysIn(s, engine(s, stmt).after)
  }

  predicate StaysIn(s: Session, t: Session) {
    && t.current == s.current
    && (s.current.Some? ==> t.schemas - {s.current.value} == s.schemas - {s.current.value})
    && (s.current.None? ==> t.schemas == s.schemas)
  }

  /** Inside schema `name`, with every other schema as in `base`. */
  predicate InSandbox(w: World, name: string, base: map<string, Schema>) {
    w.session.current == Some(name) && w.session.schemas - {name} == base - {name}
  }

  lemma ExecStaysInSandbox(cfg: Config, w: World, stmt: string, name: string, base: map<string, Schema>)
    requires Confined(cfg.engine) && InSandbox(w, name, base)
    ensures InSandbox(ExecStep(cfg, w, stmt).1, name, base)
  {
    var resp := cfg.engine(w.session, stmt);
    if resp.Ran? {
      assert StaysIn(w.session, resp.after);
    }
  }

  lemma {:induction false} SetupStaysInSandbox(cfg: Config, w: World, stmts: seq<string>, name: string, base: map<string, Schema>)
    requires Confined(cfg.engine) && InSandbox(w, name, base)
    ensures InSandbox(SetupSpec(cfg, w, stmts).1, name, base)
    decreases |stmts|
  {
    if stmts != [] {
      ExecStaysInSandbox(cfg, w, stmts[0], name, base);
      SetupStaysInSandbox(cfg, ExecStep(cfg, w, stmts[0]).1, stmts[1..], name, base);
    }
  }

  lemma {:induction false} LearnerStaysInSandbox(cfg: Config, w: World, stmts: seq<string>, acc: Option<seq<Row>>,
                                                 name: string, base: map<string, Schema>)
    requires Confined(cfg.engine) && InSandbox(w, name, base)
    ensures InSandbox(LearnerSpec(cfg, w, stmts, acc).1, name, base)
    decreases |stmts|
  {
    if stmts != [] {
      var r := ExecStep(cfg, w, stmts[0]);
      ExecStaysInSandbox(cfg, w, stmts[0], name, base);
      if r.0.Done? && !(ProducesRows(stmts[0]) && r.0.description.None?) {
        var acc' := if ProducesRows(stmts[0]) then Some(MakeRows(r.0.description.value, r.0.tuples)) else acc;
        LearnerStaysInSandbox(cfg, r.1, stmts[1..], acc', name, base);
      }
    }
  }

  lemma SolutionStaysInSandbox(cfg: Config, w: World, stores: Stores, id: int, decode: string -> Decoded,
                               name: string, base: map<string, Schema>)
    requires Confined(cfg.engine) && InSandbox(w, name, base)
    ensures InSandbox(SolutionSpec(cfg, w, stores, id, decode).1, name, base)
  {
    var sol := LoadProblemFile(stores, id, "solution.sql", false, decode);
    if sol.Loaded? {
      ExecStaysInSandbox(cfg, w, sol.content.text, name, base);
    }
  }

  lemma AnswerStaysInSandbox(cfg: Config, w: World, stores: Stores, id: int, decode: string -> Decoded,
                             stmts: seq<string>, requiresOrder: bool, name: string, base: map<string, Schema>)
    requires Confined(cfg.engine) && InSandbox(w, name, base)
    ensures InSandbox(AnswerSpec(cfg, w, stores, id, decode, stmts, requiresOrder).1, name, base)
  {
    if stmts != [] {
      LearnerStaysInSandbox(cfg, w, stmts, None, name, base);
      SolutionStaysInSandbox(cfg, LearnerSpec(cfg, w, stmts, None).1, stores, id, decode, name, base);
    }
  }

  lemma BodyStaysInSandbox(cfg: Config, w: World, stores: Stores, id: int, decode: string -> Decoded,
                           query: string, name: string, base: map<string, Schema>)
    requires Confined(cfg.engine) && InSandbox(w, name, base)
    ensures InSandbox(BodySpec(cfg, w, stores, id, decode, query).1, name, base)
  {
    var loaded := LoadProblemFile(stores, id, "problem.sql", false, decode);
    if loaded.Loaded? {
      SetupStaysInSandbox(cfg, w, Statements(loaded.content.text), name, base);
    }
    var w1 := ProblemSetupSpec(cfg, w, stores, id, decode).1;
    var flag := MetadataOrder(stores, id, decode);
    if flag.Flag? {
      AnswerStaysInSandbox(cfg, w1, stores, id, decode, LearnerStatements(query), flag.requiresOrder, name, base);
    }
  }

  /** With an engine confined to the current schema, a run leaves every
      schema but the sandbox's as it found it; a schema that already had the
      sandbox's name is dropped too. */
  lemma ConfinedRunRemovesOnlySandbox(cfg: Config, w: World, stores: Stores, id: int,
                                      decode: string -> Decoded, query: string, suffix: string)
    requires Confined(cfg.engine) && !IsForbidden(query) && cfg.accepting
    ensures VerifySpec(cfg, w, stores, id, decode, query, suffix).1.session.schemas
         == w.session.schemas - {SchemaName(suffix)}
  {
    var name := SchemaName(suffix);
    var base := w.session.schemas;
    var w1 := ConnectStep(cfg, w).1;
    var (c, w2) := CreateStep(w1, name);
    if c.Done? {
      var (u, w3) := UseStep(w2, name);
      assert InSandbox(w3, name, base);
      BodyStaysInSandbox(cfg, w3, stores, id, decode, query, name, base);
    }
  }

  /** A fresh-name collision: when a schema of the sandbox's name exists, the
      run fails on `CREATE SCHEMA` and the cleanup drops that schema. */
  lemma NameCollisionDropsExisting(cfg: Config, w: World, stores: Stores, id: int,
                                   decode: string -> Decoded, query: string, suffix: string)
    requires !IsForbidden(query) && cfg.accepting && SchemaName(suffix) in w.session.schemas
    ensures var (v, w') := VerifySpec(cfg, w, stores, id, decode, query, suffix);
            && v == Verdict(false, ExecutionErrorPrefix + SchemaExistsMessage(SchemaName(suffix)))
            && w'.session.schemas == w.session.schemas - {SchemaName(suffix)}
  {
  }

  /** Without the order requirement, the order of the learner's rows never
      affects the verdict. */
  lemma JudgeIgnoresRowOrder(user: seq<Row>, permuted: seq<Row>, solution: seq<Row>)
    requires multiset(user) == multiset(permuted) && KeyDetermines(user)
    ensures Judge(permuted, solution, false) == Judge(user, solution, false)
  {
    OrderInsensitiveComparison(user, permuted, solution);
  }
}
