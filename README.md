# interactive-sql-tutor: a verified model of the answer checker and its validators

This project models the core of *interactive-sql-tutor*, a web tutor in which
learners write SQL against practice problems. Each problem is a fixture of
three files: `problem.sql` (schema and data), `solution.sql` (the reference
query) and `metadata.json`.

The model covers:

- **The answer checker** (`SqlSandbox`). The checker:
  - refuses queries that contain a forbidden keyword;
  - opens a throw-away MySQL schema;
  - replays the problem's setup script;
  - runs the learner's statements and keeps the rows of the last `select`/`with`;
  - runs the reference solution and compares the two result sets, in order or
    after sorting, as the problem's metadata says.

  The MySQL server is a `Server` class (`MySqlModel`) over named schemas.
  Every statement other than the checker's own schema commands goes to an
  uninterpreted engine `(Session, string) -> Response`. Each imperative step
  is a method proved equal to a specification function on `World` values, and
  the checker's guarantees are lemmas about those functions.
- **Result sets** (`RowSets`). Python dicts built by `dict(zip(columns, row))`,
  list equality, and `sorted(rows, key=lambda x: tuple(x.values()))`. The sort
  is modelled as a stable insertion sort with Python's tuple `<`, which raises
  on values it cannot order.
- **Fixture lookup and id allocation** (`ProblemLoader`). Zero-padded folder
  keys, local-first lookup with a bucket fallback, and the next free problem
  id. Both stores are finite maps.
- **Saving a problem to the database** (`SaveSqlProblem`). A class holding the
  `SQLProblem` and `Hint` tables, updated in place: upsert, delete the hints,
  re-insert them numbered from 1.
- **The REST serializers** (`Serializers`):
  - the metadata field/type table;
  - the `.sql` name checks and the case-insensitive `DROP TABLE` /
    `DROP DATABASE` patterns;
  - the files handed on after validation;
  - the score and status of an attempt;
  - the `requires_order` field of the problem page;
  - the acceptance rate.
- **Client-side helpers** (`Helpers`). Text truncation, the sign-up form
  check, and the hint request that ends the prompt sent to the language model.
- **Message permissions** (`Messages`). Who may write to whom.

Python and JavaScript semantics the code relies on are written out:

- `str.split`, and `str.strip` with Python's white-space set;
- `str.lower`;
- `str.zfill`;
- `isinstance`, where `bool` is a subclass of `int`;
- truthiness;
- the `in` operator on dicts, lists and strings;
- JavaScript's `trim` white-space set and `===`.

Lower-casing is modelled on ASCII letters only. The result is the same for
every use here, because each lower-cased text is only searched for ASCII
keywords (`insert`…`alter`, `select`, `with`). Two non-ASCII characters
lower-case to ASCII letters:

- the Kelvin sign K (U+212A) becomes `k`, and no keyword contains `k`;
- the capital I with dot above `İ` (U+0130) becomes `i` followed by the
  combining dot U+0307. That `i` can only end a keyword match, and no keyword
  ends in `i`.

## Model

| member | source | states |
|---|---|---|
| Text.Split | interactive-sql-tutor/backend/utils/sql_sandbox.py:84 | `split(';')` yields at least one piece, no piece contains the separator, the pieces joined back give the script, and there is one piece exactly when the separator is absent |
| Text.SplitJoin | interactive-sql-tutor/backend/utils/sql_sandbox.py:84 | splitting a join of separator-free pieces gives the pieces back |
| Text.StripBySlice | interactive-sql-tutor/backend/utils/sql_sandbox.py:85 | `strip()` returns the slice between an all-blank prefix and an all-blank suffix, and that slice neither starts nor ends with a blank |
| Text.Lower | interactive-sql-tutor/backend/utils/sql_sandbox.py:159 | lower-casing keeps the length and maps each character independently |
| Text.ParseDecimal | interactive-sql-tutor/backend/utils/problem_loader.py:6 | `int(str(n)) == n` |
| Text.ParseLeadingZeros | interactive-sql-tutor/backend/utils/problem_loader.py:6 | leading zeros do not change the value `int()` reads |
| ProblemLoader.FolderKeyRoundTrip | interactive-sql-tutor/backend/utils/problem_loader.py:6 | the folder key of an id is a digit string of length at least 3 that `int()` reads back as the id |
| ProblemLoader.FolderKeyInjective | interactive-sql-tutor/backend/utils/problem_loader.py:6 | distinct ids never share a folder |
| ProblemLoader.FolderKeyPadding | interactive-sql-tutor/backend/utils/problem_loader.py:6 | ids of three or more digits are used as they are; smaller ids get one or two leading zeros |
| ProblemLoader.FolderKey | interactive-sql-tutor/backend/utils/problem_loader.py:6 | `str(problem_id).zfill(3)`: the decimal digits of the id, left-padded with zeros to three characters (its properties are the three lemmas above) |
| ProblemLoader.LoadProblemFile | interactive-sql-tutor/backend/utils/problem_loader.py:5-25 | not-found exactly when neither store has the path, with the message naming file and problem. Without `parse_json` the local text comes back when the local file exists, otherwise the remote text, and nothing else can fail. With it the result is parsed JSON |
| ProblemLoader.LocalFirst | interactive-sql-tutor/backend/utils/problem_loader.py:10-12 | with the file present locally, the remote store never matters and the local text is returned |
| ProblemLoader.RemoteFallback | interactive-sql-tutor/backend/utils/problem_loader.py:13-20 | without a local file: the remote blob's text when it exists, otherwise the not-found error naming file and problem; the local store then plays no part |
| ProblemLoader.ParsedIsDecoded | interactive-sql-tutor/backend/utils/problem_loader.py:9-24 | for the text found, local first and then remote: without `parse_json` that text; with it the decoder's value, or the decoder's error when the text does not decode |
| ProblemLoader.MaxOf | interactive-sql-tutor/backend/utils/problem_loader.py:35 | `max(s, default=0)`: 0 for the empty set, otherwise a member bounding every member |
| ProblemLoader.CollectRemoteIds | interactive-sql-tutor/backend/utils/problem_loader.py:42-46 | the loop collects exactly the ids carried by all-digit second segments of the listed blob names |
| ProblemLoader.GetNextProblemId | interactive-sql-tutor/backend/utils/problem_loader.py:27-50 | the next id is at least 1 and above every local and remote id; it is 1 or one more than an existing id |
| ProblemLoader.NextIdBounds | interactive-sql-tutor/backend/utils/problem_loader.py:50 | one more than the larger maximum bounds both sets and is one past a member, or 1 |
| RowSets.PutKeys | interactive-sql-tutor/backend/utils/sql_sandbox.py:187 | the keys after `d[k] = v` do not depend on `v` |
| RowSets.ZipFromKeys | interactive-sql-tutor/backend/utils/sql_sandbox.py:187 | `dict(zip(cols, vals))` has the same keys for every tuple of one width |
| RowSets.MakeRowsKeyDetermines | interactive-sql-tutor/backend/utils/sql_sandbox.py:119-120 | in one result set, rows with equal sort keys are equal dicts |
| RowSets.StrLtTotal | interactive-sql-tutor/backend/utils/sql_sandbox.py:199 | string `<` is a strict total order |
| RowSets.StrLtTrans | interactive-sql-tutor/backend/utils/sql_sandbox.py:199 | string `<` is transitive |
| RowSets.TupleLtTotal | interactive-sql-tutor/backend/utils/sql_sandbox.py:199 | on comparable keys, exactly one of `x < y`, `x == y`, `y < x` holds |
| RowSets.TupleLtIrreflexive | interactive-sql-tutor/backend/utils/sql_sandbox.py:199 | no key is below itself |
| RowSets.TupleLtTrans | interactive-sql-tutor/backend/utils/sql_sandbox.py:199 | tuple `<` is transitive on comparable keys |
| RowSets.Insert | interactive-sql-tutor/backend/utils/sql_sandbox.py:199 | insertion adds exactly the one row |
| RowSets.InsertSorted | interactive-sql-tutor/backend/utils/sql_sandbox.py:199 | inserting into a sorted list of comparable keys keeps it sorted |
| RowSets.SortRows | interactive-sql-tutor/backend/utils/sql_sandbox.py:199-200 | `sorted` returns a permutation of its input |
| RowSets.SortRowsSorted | interactive-sql-tutor/backend/utils/sql_sandbox.py:199-200 | on comparable keys the output is sorted |
| RowSets.SortedHeads | interactive-sql-tutor/backend/utils/sql_sandbox.py:199-200 | two sorted arrangements of the same rows start with the same row |
| RowSets.SortedUnique | interactive-sql-tutor/backend/utils/sql_sandbox.py:199-200 | two sorted arrangements of the same rows are identical when the key determines the row |
| RowSets.SortPermutationInvariant | interactive-sql-tutor/backend/utils/sql_sandbox.py:199-200 | permuting the input does not change the sorted output |
| RowSets.CompareResults | interactive-sql-tutor/backend/utils/sql_sandbox.py:198-205 | with `requires_order` the lists match exactly when positionally equal and the sort never runs; without it the comparison fails with a sort error exactly when some keys cannot be ordered |
| RowSets.OrderInsensitiveComparison | interactive-sql-tutor/backend/utils/sql_sandbox.py:198-202 | without the order requirement, any permutation of the learner's rows gets the same comparison |
| RowSets.PermutationOfSolutionMatches | interactive-sql-tutor/backend/utils/sql_sandbox.py:198-203 | without the order requirement, any permutation of the expected rows is accepted |
| RowSets.DifferentLengthsNeverMatch | interactive-sql-tutor/backend/utils/sql_sandbox.py:202-205 | lists of different lengths never match, under either policy |
| RowSets.MatchMeansSameDicts | interactive-sql-tutor/backend/utils/sql_sandbox.py:197-203 | a match, under either policy, means both results hold the same dicts, each as often |
| RowSets.ColumnOrderDefeatsUnorderedMatch | interactive-sql-tutor/backend/utils/sql_sandbox.py:198-202 | rows `{a:1,b:2}`, `{a:2,b:1}` against the same dicts built from columns `b, a` match under `requires_order` and fail without it, though both results hold the same dicts |
| RowSets.NullBesideNumberUnorderable | interactive-sql-tutor/backend/utils/sql_sandbox.py:198-200 | two rows holding `NULL` and `1` in one column match themselves under `requires_order`, and make the sort raise without it |
| RowSets.CompareAsBags | interactive-sql-tutor/backend/utils/sql_sandbox.py:197-205 | the comparison the order-free policy evidently intends: it never raises, and under `requires_order` it is positional equality |
| RowSets.CompareAsBagsProperties | interactive-sql-tutor/backend/utils/sql_sandbox.py:197-205 | under the intended comparison, a match means the same dicts each as often and the converse; a positional match is accepted without the order requirement; rearranging the learner's rows never changes the result |
| MySqlModel.Server.Connect | interactive-sql-tutor/backend/utils/sql_sandbox.py:47-48 | opening the connection sets the configured default schema, or fails with the connector's text, and is logged |
| MySqlModel.Server.CreateSchema | interactive-sql-tutor/backend/utils/sql_sandbox.py:51 | `CREATE SCHEMA` adds an empty schema, or fails with error 1007 when the name exists |
| MySqlModel.Server.Use | interactive-sql-tutor/backend/utils/sql_sandbox.py:52 | `USE` makes the schema current, or fails with error 1049 when it does not exist |
| MySqlModel.Server.Execute | interactive-sql-tutor/backend/utils/sql_sandbox.py:84-87 | `cursor.execute` applies the engine's response; a raised error leaves the data unchanged |
| MySqlModel.Server.DropSchemaIfExists | interactive-sql-tutor/backend/utils/sql_sandbox.py:55 | `DROP SCHEMA IF EXISTS` removes the schema, never fails, and clears the current schema when it was that one |
| MySqlModel.Server.Close | interactive-sql-tutor/backend/utils/sql_sandbox.py:56-57 | closing leaves the data as it is and the connection closed |
| SqlSandbox.ForbiddenInContext | interactive-sql-tutor/backend/utils/sql_sandbox.py:156-161 | a query containing a forbidden query is itself forbidden |
| SqlSandbox.ForbiddenIgnoresCase | interactive-sql-tutor/backend/utils/sql_sandbox.py:159-160 | the keyword filter ignores letter case |
| SqlSandbox.IsForbidden | interactive-sql-tutor/backend/utils/sql_sandbox.py:156-160 | defines the filter: some keyword of `insert`, `delete`, `update`, `drop`, `alter` occurs anywhere in the lower-cased query (properties in the two lemmas above and the next one) |
| SqlSandbox.FilterMatchesInsideWords | interactive-sql-tutor/backend/utils/sql_sandbox.py:160 | the filter matches substrings: a read-only query naming `updated_at` is refused, while `SELECT * FROM t` is not |
| SqlSandbox.StripIdempotent | interactive-sql-tutor/backend/utils/sql_sandbox.py:85 | a stripped piece has no surrounding white space left |
| SqlSandbox.Pieces | interactive-sql-tutor/backend/utils/sql_sandbox.py:84-86 | the kept pieces are non-empty and stripped, never more than the parts, and free of `;` when the parts are |
| SqlSandbox.Statements | interactive-sql-tutor/backend/utils/sql_sandbox.py:177 | every statement is non-empty, contains no `;`, and has no surrounding white space |
| SqlSandbox.MetadataOrder | interactive-sql-tutor/backend/utils/sql_sandbox.py:169-174 | a missing `metadata.json` means no order requirement; undecodable JSON is an error with the decoder's text; an object without `requires_order` means no requirement, and with it the key's truth value decides; any other JSON value is an error (it has no `get`) |
| SqlSandbox.Judge | interactive-sql-tutor/backend/utils/sql_sandbox.py:197-205 | `(True, "")` exactly when the comparison finds the lists equal; positional equality decides under `requires_order`; under either policy every other returned verdict is `(False, <mismatch message>)`; a sort error, with the sort's `TypeError` text, is raised exactly when keys cannot be ordered without `requires_order` |
| SqlSandbox.RunScript | interactive-sql-tutor/backend/utils/sql_sandbox.py:84-87 | the loop executes the stripped non-empty pieces in order, stopping at the first error, as `SetupSpec` says |
| SqlSandbox.SetupSpec | interactive-sql-tutor/backend/utils/sql_sandbox.py:84-87 | defines the setup run: the statements in order, stopping with the first error's text |
| SqlSandbox.RunProblemSetup | interactive-sql-tutor/backend/utils/sql_sandbox.py:59-87 | a missing `problem.sql` fails before any statement; otherwise the script runs as `RunScript` |
| SqlSandbox.RunLearnerStatements | interactive-sql-tutor/backend/utils/sql_sandbox.py:181-189 | the learner's loop: each row-producing statement replaces the capture, and the first error aborts with the query-error text |
| SqlSandbox.LearnerSpec | interactive-sql-tutor/backend/utils/sql_sandbox.py:181-189 | defines the learner's loop: a row-producing statement replaces the capture, any other keeps it, and the first error aborts with the query-error text |
| SqlSandbox.GetSolutionOutput | interactive-sql-tutor/backend/utils/sql_sandbox.py:89-120 | the solution file runs as one statement and its rows are zipped with the column names |
| SqlSandbox.RunInSandbox | interactive-sql-tutor/backend/utils/sql_sandbox.py:165-205 | the body of the `with` block: setup, metadata, statements, solution and comparison, as `BodySpec` says |
| SqlSandbox.BodySpec | interactive-sql-tutor/backend/utils/sql_sandbox.py:166-205 | defines the body: setup, then metadata, then the learner's statements, the solution and the comparison; a setup or metadata error is thrown |
| SqlSandbox.SandboxSchema | interactive-sql-tutor/backend/utils/sql_sandbox.py:46-57 | create and enter the schema, run the body, then drop the schema and close on every path |
| SqlSandbox.SandboxSpec | interactive-sql-tutor/backend/utils/sql_sandbox.py:46-57 | defines the context manager: `CREATE SCHEMA` and `USE`, each of which may throw, then the body; the drop and the close follow on every path |
| SqlSandbox.CheckUserQuery | interactive-sql-tutor/backend/utils/sql_sandbox.py:122-208 | the verdict and the server's new state are those of `VerifySpec`, which the lemmas below characterise |
| SqlSandbox.VerifySpec | interactive-sql-tutor/backend/utils/sql_sandbox.py:156-208 | defines `check_user_query`: the keyword filter, the connection, the sandbox, and a thrown error turned into an execution-error verdict |
| SqlSandbox.ForbiddenQueryNeverReachesServer | interactive-sql-tutor/backend/utils/sql_sandbox.py:156-165 | a forbidden query gets the forbidden-operation message, and the server sees nothing, not even a connection |
| SqlSandbox.RefusedConnection | interactive-sql-tutor/backend/utils/sql_sandbox.py:207-208 | a refused connection is reported as an execution error with the connector's text, and only the attempt reaches the server |
| SqlSandbox.SetupRunsInOrder | interactive-sql-tutor/backend/utils/sql_sandbox.py:84-87 | the setup sends a prefix of its statements in order: all of them without an error, the failing one last after an error |
| SqlSandbox.LearnerRunsInOrder | interactive-sql-tutor/backend/utils/sql_sandbox.py:182-189 | the learner's statements are sent in order: all of them when a result is captured, none after the first failing one |
| SqlSandbox.LearnerAbortMessage | interactive-sql-tutor/backend/utils/sql_sandbox.py:188-189 | every failure inside the learner's loop is reported with the `Error in query execution: ` prefix |
| SqlSandbox.LastResultWins | interactive-sql-tutor/backend/utils/sql_sandbox.py:181-187 | once a row-producing statement lies ahead, what was captured before does not matter |
| SqlSandbox.NoResultKeepsCapture | interactive-sql-tutor/backend/utils/sql_sandbox.py:185-187 | statements that produce no rows never change the capture |
| SqlSandbox.EmptyResultIsAResult | interactive-sql-tutor/backend/utils/sql_sandbox.py:185-187 | a `select` returning no rows captures the empty list, which is not the absence of a result |
| SqlSandbox.SolutionRunsWholeFile | interactive-sql-tutor/backend/utils/sql_sandbox.py:116-118 | the solution file goes to the server whole, as one statement, and nothing else does |
| SqlSandbox.NoSelectNeverAccepted | interactive-sql-tutor/backend/utils/sql_sandbox.py:177-192 | without a `select`/`with` statement the answer is refused: no statement gets the no-statement message; a failing statement gets its own report, which starts with `Error in query execution: `; otherwise the no-result message |
| SqlSandbox.SetupOrMetadataFailureThrows | interactive-sql-tutor/backend/utils/sql_sandbox.py:166-174 | a failing setup script ends the body with the setup's error; after a clean setup, unreadable metadata ends it with the metadata error; no learner statement runs in either case |
| SqlSandbox.SolutionFailureThrows | interactive-sql-tutor/backend/utils/sql_sandbox.py:194-195 | once the learner's rows are captured, a missing or failing solution ends the body with the solution's error |
| SqlSandbox.ThrownIsExecutionError | interactive-sql-tutor/backend/utils/sql_sandbox.py:207-208 | on an admitted query and a reachable server, whatever the sandbox body throws reaches the learner as `(False, "Execution error: " + message)` |
| SqlSandbox.BodyVerdictSilentIffCorrect | interactive-sql-tutor/backend/utils/sql_sandbox.py:178-205 | inside the sandbox, a returned verdict is positive exactly when its message is empty |
| SqlSandbox.VerdictCorrectIffSilent | interactive-sql-tutor/backend/utils/sql_sandbox.py:145-148 | the checker answers `True` exactly when its message is empty; every refusal and failure carries a message |
| SqlSandbox.CorrectNeedsStatements | interactive-sql-tutor/backend/utils/sql_sandbox.py:156-203 | a positive verdict needs an admitted query with a statement and a reachable server |
| SqlSandbox.SandboxShape | interactive-sql-tutor/backend/utils/sql_sandbox.py:50-57 | the sandbox begins with `CREATE SCHEMA` and ends with the drop and the close, whatever the body did; the schema is gone and the connection closed |
| SqlSandbox.SandboxRunsBodyInFreshSchema | interactive-sql-tutor/backend/utils/sql_sandbox.py:51-53 | with an unused name, the body runs in a new empty schema entered with `USE`, and its world is then cleaned up |
| SqlSandbox.SandboxAlwaysDropped | interactive-sql-tutor/backend/utils/sql_sandbox.py:54-57 | every admitted query on a reachable server connects, creates the sandbox, and finally drops it and closes; the sandbox name is gone afterwards |
| SqlSandbox.ConfinedRunRemovesOnlySandbox | interactive-sql-tutor/backend/utils/sql_sandbox.py:16-25 | with an engine that touches only the current schema, a run leaves every schema but the sandbox's name as it was |
| SqlSandbox.NameCollisionDropsExisting | interactive-sql-tutor/backend/utils/sql_sandbox.py:46-55 | if a schema with the sandbox's name exists, `CREATE SCHEMA` fails, the run reports an execution error, and the cleanup drops that existing schema |
| SqlSandbox.JudgeIgnoresRowOrder | interactive-sql-tutor/backend/utils/sql_sandbox.py:198-200 | without the order requirement, the order of the learner's rows never changes the verdict |
| Messages.PerformCreate | interactive-sql-tutor/backend/messages/views.py:24-49 | a message is saved exactly when the permission matrix over the view's role literals allows it, always with the requesting user as sender; otherwise one of the three refusal texts |
| Messages.RejectionMessages | interactive-sql-tutor/backend/messages/views.py:34-49 | each refusal names the case: an instructor writing to another role, a student writing to a non-instructor, any other role |
| Messages.SuperuserMaySendAnywhere | interactive-sql-tutor/backend/messages/views.py:29-31 | a superuser may write to anyone |
| Messages.CapitalisedRolesCannotSend | interactive-sql-tutor/backend/messages/views.py:42-49 | a non-superuser whose role is stored as `Student`, `Instructor` or `Admin` can send no message at all |
| Messages.PerformCreateStored | interactive-sql-tutor/backend/messages/views.py:24-49 | the same decision over the stored role spellings: saved exactly when the matrix allows it |
| Messages.StoredDecisionIsWrittenDecisionLowered | interactive-sql-tutor/backend/messages/views.py:29-47 | on stored roles, the corrected decision gives the written decision's outcome and refusal text for the lower-cased roles |
| Messages.StoredStudentWritesToInstructor | interactive-sql-tutor/backend/messages/views.py:42-47 | with stored spellings, a student may write to an instructor but not to a student |
| Helpers.Trim | interactive-sql-tutor/frontend/src/utils/helpers.js:3-6 | short text is kept; longer text becomes its first `limit` characters followed by `...`, with length `limit + 3` |
| Helpers.TrimDefault | interactive-sql-tutor/frontend/src/utils/helpers.js:3 | with the default limit, text over 100 characters becomes its first 100 plus `...` |
| Helpers.TrimIdempotent | interactive-sql-tutor/frontend/src/utils/helpers.js:3-6 | trimming a trimmed text changes nothing more |
| Helpers.BlankIffAllSpace | interactive-sql-tutor/frontend/src/utils/helpers.js:23 | `!s.trim()` holds exactly when every character is JavaScript white space |
| Helpers.FirstFailure | interactive-sql-tutor/frontend/src/utils/helpers.js:23-32 | accepted exactly when all conditions hold; otherwise the message of a failing condition |
| Helpers.ValidateUser | interactive-sql-tutor/frontend/src/utils/helpers.js:21-33 | `ok: true` exactly when: the name is non-blank and matches the letters-and-spaces pattern; the e-mail is non-blank and valid; the password is non-blank and at least 8 characters; the password equals the confirmation |
| Helpers.IsValidEmail | interactive-sql-tutor/frontend/src/utils/helpers.js:8-11 | defines the e-mail pattern: dotted words, `@`, dotted words, a dot and a final label of two or three word characters |
| Helpers.AbsorbLabel | interactive-sql-tutor/frontend/src/utils/helpers.js:9 | dotted words, a dot and a final label together are again dotted words |
| Helpers.DomainIsDotted | interactive-sql-tutor/frontend/src/utils/helpers.js:9 | a valid domain is itself one run of dotted words |
| Helpers.RepeatedLabels | interactive-sql-tutor/frontend/src/utils/helpers.js:9 | `(\.\w{2,3})+`: one more final label keeps a domain valid, so the model's single final label accepts repeated ones |
| Helpers.DottedAddressValid | interactive-sql-tutor/frontend/src/utils/helpers.js:9 | `a.b@c.de` is accepted |
| Helpers.BareDomainInvalid | interactive-sql-tutor/frontend/src/utils/helpers.js:9 | `a@b`, without a final label, is refused |
| Helpers.DoubleDotRefused | interactive-sql-tutor/frontend/src/utils/helpers.js:9 | two dots in a row before the first `@` make an address invalid |
| Helpers.DoubleDotInvalid | interactive-sql-tutor/frontend/src/utils/helpers.js:9 | `a..b@c.de` is refused |
| Helpers.ValidateUserReportsFirstFailure | interactive-sql-tutor/frontend/src/utils/helpers.js:23-31 | the early returns report exactly the first failing condition, in the order checked |
| Helpers.MissingNameReportedFirst | interactive-sql-tutor/frontend/src/utils/helpers.js:23 | a blank name is reported whatever else is wrong |
| Helpers.ValidNameWithLetterIsNotBlank | interactive-sql-tutor/frontend/src/utils/helpers.js:22-24 | a name that passes the pattern and holds a letter is not blank |
| Helpers.TrimKeepsTail | interactive-sql-tutor/frontend/src/utils/helpers.js:66 | trimming a text that ends in a non-blank tail cuts only from the front |
| Helpers.PromptEndsWithRequest | interactive-sql-tutor/frontend/src/utils/helpers.js:58-66 | the trimmed prompt is a suffix of the problem text followed by the request for the hint step |
| Helpers.PromptFromProblem | interactive-sql-tutor/frontend/src/utils/helpers.js:58-66 | defines the prompt: the problem text followed by the request for the hint step (a first hint for `0`, a next hint for `1`, the full solution for any other value), trimmed at both ends |
| SaveSqlProblem.KeepOthers | interactive-sql-tutor/backend/utils/save_sql_problem_to_db.py:57-59 | the delete keeps exactly the other problems' hints, in table order, and only rows that were there |
| SaveSqlProblem.OthersIdempotent | interactive-sql-tutor/backend/utils/save_sql_problem_to_db.py:57-59 | deleting twice is deleting once, and nothing of the problem is left |
| SaveSqlProblem.OthersKeepsOtherProblem | interactive-sql-tutor/backend/utils/save_sql_problem_to_db.py:58-59 | the delete leaves every other problem's hints as they were |
| SaveSqlProblem.SaveGivesExactlyTheHints | interactive-sql-tutor/backend/utils/save_sql_problem_to_db.py:40-71 | afterwards the problem row holds the metadata's columns and its hints are exactly the metadata's, in order, numbered 1..n; none without a `hints` key |
| SaveSqlProblem.SaveKeepsOtherProblems | interactive-sql-tutor/backend/utils/save_sql_problem_to_db.py:40-59 | the row and the hints of every other problem are unchanged |
| SaveSqlProblem.SaveSpec | interactive-sql-tutor/backend/utils/save_sql_problem_to_db.py:40-71 | defines the tables after a save: the problem row replaced under its id, the problem's old hints removed and its new ones appended, numbered from 1 |
| SaveSqlProblem.SaveIdempotent | interactive-sql-tutor/backend/utils/save_sql_problem_to_db.py:40-71 | saving the same metadata twice leaves the tables as saving it once |
| SaveSqlProblem.ProblemDatabase.UpsertProblem | interactive-sql-tutor/backend/utils/save_sql_problem_to_db.py:40-55 | the problem row is inserted or replaced under its id, and nothing else changes |
| SaveSqlProblem.ProblemDatabase.DeleteHints | interactive-sql-tutor/backend/utils/save_sql_problem_to_db.py:57-59 | the problem's hints are removed, the rest kept as `KeepOthers` says, and the hint ids stay valid |
| SaveSqlProblem.ProblemDatabase.InsertHint | interactive-sql-tutor/backend/utils/save_sql_problem_to_db.py:62-71 | one hint row is appended with the next auto-increment id |
| SaveSqlProblem.ProblemDatabase.SaveSqlProblemToDb | interactive-sql-tutor/backend/utils/save_sql_problem_to_db.py:39-71 | the three statements and the insert loop leave exactly the tables `SaveSpec` describes, and the hint ids stay valid |
| Serializers.FieldsFromMeaning | interactive-sql-tutor/backend/sql_app/serializers.py:375-381 | metadata passes exactly when every required field is present with its type. Otherwise the first offending field in declaration order is reported: as missing when absent, as mistyped only when present. A crash happens only for metadata that is not an object |
| Serializers.CheckRequiredFields | interactive-sql-tutor/backend/sql_app/serializers.py:375-381 | the loop with its early raises returns the verdict `FieldsFromMeaning` characterises |
| Serializers.BooleanTopicIdAccepted | interactive-sql-tutor/backend/sql_app/serializers.py:318 | a boolean `topic_id` passes the `int` check, while an integer is not a `bool` |
| Serializers.NonObjectMetadataMissesTitle | interactive-sql-tutor/backend/sql_app/serializers.py:376-377 | a list or string that does not contain `title` is reported as missing `title` |
| Serializers.FirstForbidden | interactive-sql-tutor/backend/sql_app/serializers.py:395-397 | the loop finds no pattern exactly when none matches, and otherwise the first matching one |
| Serializers.SolutionAtLeastAsStrict | interactive-sql-tutor/backend/sql_app/serializers.py:328-329 | whatever the problem file may not contain, the solution file may not contain either |
| Serializers.DropTableOnlyInProblem | interactive-sql-tutor/backend/sql_app/serializers.py:328-329 | `drop`, a newline and a tab, then `Table` is refused in a solution and allowed in a problem file |
| Serializers.WordBoundaryRequired | interactive-sql-tutor/backend/sql_app/serializers.py:328 | `backdrop table` does not match, because `\b` needs a non-word character before `DROP` |
| Serializers.FieldsFrom | interactive-sql-tutor/backend/sql_app/serializers.py:375-381 | defines the field loop's report from field `k` on: all present, the first missing or mistyped field, or a crash when `in` fails on a non-container (its meaning is `FieldsFromMeaning`) |
| Serializers.Rejects | interactive-sql-tutor/backend/sql_app/serializers.py:395-397 | defines a refused upload: some pattern of the list matches the content (the loop that finds it is `FirstForbidden`) |
| Serializers.MetadataFileCheck | interactive-sql-tutor/backend/sql_app/serializers.py:366-386 | undecodable metadata gets the invalid-JSON message; the upload passes exactly when it decodes to an object with every required field well typed; anything but a validation error is raised exactly when the field loop crashes, with its message |
| Serializers.ProblemFileCheck | interactive-sql-tutor/backend/sql_app/serializers.py:388-400 | a non-`.sql` name gets the extension message; with a `.sql` name, content that is not UTF-8 raises the decoding error, and nothing else raises; the file passes exactly when the name ends in `.sql`, the content decodes and no pattern matches; a `DROP DATABASE` match gets the message naming that pattern |
| Serializers.SolutionFileCheck | interactive-sql-tutor/backend/sql_app/serializers.py:402-414 | as for the problem file, including the decoding error, with both patterns; a `DROP TABLE` match is reported before a `DROP DATABASE` match |
| Serializers.ProblemUploadSerializer.ValidateMetadataFile | interactive-sql-tutor/backend/sql_app/serializers.py:366-386 | the verdict is `MetadataFileCheck`'s; on success, and only then, the parsed object and the raw text are stored; the stored metadata always has every field well typed |
| Serializers.ProblemUploadSerializer.ValidateProblemFile | interactive-sql-tutor/backend/sql_app/serializers.py:388-400 | the verdict is `ProblemFileCheck`'s, the decoding error included; on success, and only then, the decoded text is stored |
| Serializers.ProblemUploadSerializer.ValidateSolutionFile | interactive-sql-tutor/backend/sql_app/serializers.py:402-414 | the verdict is `SolutionFileCheck`'s, the decoding error included; on success, and only then, the decoded text is stored |
| Serializers.ProblemUploadSerializer.IsValid | interactive-sql-tutor/backend/sql_app/serializers.py:362-414 | the outcome is `UploadSpec`'s, with the validators run in field order and the first exception ending the request; each stored field holds its file exactly when that file's validator ran and accepted it, and keeps its old value otherwise; on a clean upload the metadata is acceptable and the decoded object and all three texts are stored |
| Serializers.UploadSpecMeaning | interactive-sql-tutor/backend/sql_app/serializers.py:362-414 | an exception escapes exactly when the field loop crashes on decoded non-object metadata or a `.sql`-named upload is not UTF-8, and it is the first of these in field order. Otherwise errors are keyed only by the three field names, each present exactly when that file is refused, and undecodable metadata gets the invalid-JSON message. The upload is clean exactly when all three files are acceptable |
| Serializers.EntriesMeaning | interactive-sql-tutor/backend/sql_app/serializers.py:362-364 | the collected errors have an entry exactly for each refused field, holding its message, and none for the others |
| Serializers.ProblemUploadSerializer.GetValidatedMetadata | interactive-sql-tutor/backend/sql_app/serializers.py:416-417 | the metadata is there exactly when its text was stored, and then every required field is present with its declared type |
| Serializers.ProblemUploadSerializer.GetCleanedFiles | interactive-sql-tutor/backend/sql_app/serializers.py:419-424 | once all three texts are stored, exactly the keys `metadata.json`, `problem.sql` and `solution.sql`, each mapped to its text |
| Serializers.GradeOf | interactive-sql-tutor/backend/sql_app/serializers.py:275-276 | score 100.0 and status `Completed` exactly for a correct answer, otherwise 0.0 and `Failed` |
| Serializers.AttemptSerializer.Create | interactive-sql-tutor/backend/sql_app/serializers.py:265-290 | the checker runs on the query. The stored attempt carries its grade, `hints_used` (0 when absent) and `time_taken`, but not the query. The checker's message goes to the context, and the attempt is `Completed` exactly when that message is empty |
| Serializers.GetRequiresOrder | interactive-sql-tutor/backend/sql_app/serializers.py:180-186 | `False` when the metadata cannot be loaded or decoded, when it is not an object, or when it lacks `requires_order`; otherwise the stored value of that key, unconverted |
| Serializers.RequiresOrderAgreesWithChecker | interactive-sql-tutor/backend/sql_app/serializers.py:180-186 | the problem page and the checker agree on the order policy wherever the checker can read it; where the checker fails on the metadata, the page shows `False` |
| Serializers.CompletedAtMostAll | interactive-sql-tutor/backend/sql_app/serializers.py:198-199 | completed attempts never outnumber all attempts |
| Serializers.Acceptance | interactive-sql-tutor/backend/sql_app/serializers.py:196-202 | 0.0 without attempts, and always between 0 and 100 |

## Left out

- The MySQL server itself. Statements other than the checker's `CREATE SCHEMA`, `USE` and `DROP SCHEMA IF EXISTS` go to an uninterpreted engine. That the engine touches only the current schema is a hypothesis (`Confined`) of the lemmas that need it, not a fact about MySQL.
- `DROP SCHEMA IF EXISTS` and the closes never fail in the model; an error raised in the `finally` block is not modelled.
- `uuid4().hex[:8]` is the parameter `suffix`; the model does not assume that the name is unused, and `NameCollisionDropsExisting` states what happens when it is.
- `get_mysql_db_config()`, the environment and Django settings are folded into `Config`.
- Reading files, UTF-8 decoding, `file.seek(0)` and `json.loads` are parameters: stores are maps from path to text, and the decoder is a function `string -> Decoded`. In the upload serializer the metadata's decoding sits inside its `try` and is folded into that decoder; each `.sql` upload arrives as the result of its UTF-8 decoding (`Utf8Upload`), text or the decoding error, whose message is a parameter. The bucket client is the `remote` map and its listing is the set of its keys.
- SqlSandbox.Judge: the sort is an insertion sort that raises exactly when some pair of keys cannot be ordered. CPython's sort compares only some pairs, so on mixed or `None` values it may or may not raise. The `TypeError` text is kept only up to `'<' not supported between instances`; Python goes on with `of 'X' and 'Y'`, naming the types of the first pair its sort happens to compare, which depends on that sort's order of comparisons.
- Text.Lower: only ASCII letters are lower-cased. Python also lower-cases other letters, and `İ` becomes two characters, so the model differs on non-ASCII text. Every use compares the result with ASCII keywords only, where the outcome is the same (see above).
- ProblemLoader.CollectRemoteIds: only ASCII digits count as digits. Python's `isdigit` also accepts other digits: `'²'` passes and then `int()` raises `ValueError`, and `'٣'` passes and is read as 3. Blob names with such characters are not modelled.
- ProblemLoader.GetNextProblemId: the local folder names are filtered with ASCII digits only, for the same reason as `CollectRemoteIds`; a folder named with other Unicode digits would be read, or would crash, in Python.
- Python's sort keys are modelled for integers, strings and `None` only. Floating point, decimals and dates from the connector are left out.
- Serializers.Acceptance: `round(..., 2)` and float division are not modelled; the result is the exact ratio.
- Serializers.IsReWord: `\w` is modelled on ASCII only, so a non-ASCII letter directly before `DROP` or after `TABLE`/`DATABASE`, which Python counts as a word character, is treated as a boundary. Case folding covers ASCII letters and the long s `ſ`.
- Serializers.ProblemUploadSerializer.IsValid: DRF's own `FileField` checks (missing file, empty file, missing name) and the object-level `validate` are not modelled.
- Serializers.AttemptSerializer.Create: `submission_date` (the clock) and the foreign-key checks on `user` and `problem` are not modelled.
- Helpers: JavaScript strings are sequences of UTF-16 code units; the model uses code points, so lengths differ for characters outside the Basic Multilingual Plane. `\w` is ASCII as in JavaScript without the `u` flag.
- Helpers.PromptFromProblem: the problem text before the request (`JSON.stringify` of the tables and hints) is an opaque parameter.
- SaveSqlProblem.SaveIdempotent: idempotence holds for the table contents without hint ids; each save allocates new auto-increment ids.
- SaveSqlProblem: the metadata is typed, so a missing key (`KeyError`) and the foreign key on `topic_id` are not modelled.
- Timeouts, query cancellation and concurrent checks: the code has none.
- `get_tables`, `get_input_data`, `get_expected_output` and `get_hints` of the problem page, and `import_problems.py`, which repeats `save_sql_problem_to_db`, are not part of this model.
- Language-model views, authentication, the remaining Django views, models and URLs, and the React pages are not part of this model.

## Findings

| source | as written | input that shows it | evidently intended | confidence | as-written member | corrected member |
|---|---|---|---|---|---|---|
| interactive-sql-tutor/backend/messages/views.py:29-47 | roles compared with `'admin'`, `'instructor'`, `'student'` | a non-superuser student, stored with role `Student`, writing to an instructor is refused with "You are not allowed to send messages." | compare with the stored spellings `Admin`, `Instructor`, `Student`, as the user model's choices and `sql_app/permissions.py` use | high; not executed | Messages.CapitalisedRolesCannotSend | Messages.PerformCreateStored |
| interactive-sql-tutor/backend/utils/sql_sandbox.py:198-202 | without `requires_order`, both results are sorted by `tuple(x.values())`, which follows each query's column order, and then compared position by position | learner rows `{a:1,b:2}`, `{a:2,b:1}` from `SELECT a, b`; solution rows with the same dicts from `SELECT b, a`: accepted with `requires_order`, refused without it | accept exactly when both results hold the same dicts, each as often, whatever the row order | medium; not executed | RowSets.ColumnOrderDefeatsUnorderedMatch | RowSets.CompareAsBags |
| interactive-sql-tutor/backend/utils/sql_sandbox.py:198-200 | the order-free comparison sorts the rows, so a column holding `NULL` beside a number raises `TypeError` | rows `{a: NULL}`, `{a: 1}` in both results: reported as an execution error instead of a match | a comparison that never raises | high; not executed | RowSets.NullBesideNumberUnorderable | RowSets.CompareAsBags |

The checker's model (`SqlSandbox.Judge` and everything built on it) keeps
the comparison as written, since it describes what the code does;
`RowSets.CompareAsBags` is the corrected comparison, with its intended
properties in `RowSets.CompareAsBagsProperties`.
