/**
 * The REST serializers around the checker: validation of an uploaded
 * problem (metadata fields and types, `.sql` names, forbidden `DROP`
 * patterns), the files handed on after validation, the scoring of an
 * attempt from the checker's verdict, and the problem-detail fields that
 * read `metadata.json`.
 */
module Serializers {
  import opened Common
  import opened Text
  import opened Json
  import opened ProblemLoader
  import opened MySqlModel
  import opened SqlSandbox

  // ---------------------------------------------------------------
  // REQUIRED_METADATA_FIELDS
  // ---------------------------------------------------------------

  /** The required metadata keys with their Python types, in declaration
      order. */
  const RequiredFields: seq<(string, PyType)> := [
    ("title", StrType),
    ("description", StrType),
    ("difficulty_level", StrType),
    ("topic_id", IntType),
    ("requires_order", BoolType),
    ("tables", ListType),
    ("input_data", DictType),
    ("hints", ListType),
    ("expected_output", ListType)
  ]

  const MsgInvalidJson := "Invalid JSON format in metadata_file."

  function MissingMessage(field: string): string {
    "Missing required field: " + field
  }

  function TypeMessage(field: string, t: PyType): string {
    "Field '" + field + "' must be of type " + PyTypeName(t) + "."
  }

  /** `key in v` on a decoded JSON value: dict keys, list elements, or
      substrings; any other value raises `TypeError`. */
  datatype Membership = Member(present: bool) | NotIterable(message: string)

  function MemberOf(v: Json, key: string): Membership {
    match v
    case JObject(fields) => Member(key in fields)
    case JArray(items) => Member(JStr(key) in items)
    case JStr(s) => Member(Contains(s, key))
    case _ => NotIterable("argument of type '" + TypeName(v) + "' is not iterable")
  }

  /** `v[key]` once `key in v` held: only a dict can be indexed by a string. */
  datatype Lookup = Found(value: Json) | NotIndexable(message: string)

  function LookupIn(v: Json, key: string): Lookup {
    match v
    case JObject(fields) => if key in fields then Found(fields[key]) else NotIndexable("KeyError")
    case JArray(_) => NotIndexable("list indices must be integers or slices, not str")
    case _ => NotIndexable("string indices must be integers, not 'str'")
  }

  /** The outcome of the loop over `REQUIRED_METADATA_FIELDS`: all passed,
      the index of the first missing or mistyped field, or a `TypeError`
      from a metadata document that is not an object. */
  datatype FieldCheck = AllPresent | Missing(index: nat) | WrongType(index: nat) | Crashed(message: string)

  /** Field `k` of the table is present in an object and has its declared
      type. */
  predicate FieldOk(v: Json, table: seq<(string, PyType)>, k: nat)
    requires k < |table|
  {
    v.JObject? && table[k].0 in v.fields && IsInstance(v.fields[table[k].0], table[k].1)
  }

  /** The loop over a table of required fields, from field `k` on. */
  function FieldsFrom(v: Json, table: seq<(string, PyType)>, k: nat): FieldCheck
    decreases |table| - k
  {
    if k >= |table| then AllPresent
    else
      var (name, t) := table[k];
      match MemberOf(v, name)
      case NotIterable(m) => Crashed(m)
      case Member(false) => Missing(k)
      case Member(true) =>
        match LookupIn(v, name)
        case NotIndexable(m) => Crashed(m)
        case Found(x) => if !IsInstance(x, t) then WrongType(k) else FieldsFrom(v, table, k + 1)
  }

  /** What the loop reports from field `start` on: acceptance exactly when
      every remaining field is present and well typed; otherwise the first
      offending field, reported as missing when it is absent and as mistyped
      only when it is present; a crash only for a non-object. */
  lemma {:induction false} FieldsFromMeaning(v: Json, table: seq<(string, PyType)>, start: nat)
    requires start <= |table|
    ensures FieldsFrom(v, table, start).AllPresent? <==> forall k :: start <= k < |table| ==> FieldOk(v, table, k)
    ensures FieldsFrom(v, table, start).Missing? ==>
              var k := FieldsFrom(v, table, start).index;
              && start <= k < |table|
              && (forall j :: start <= j < k ==> FieldOk(v, table, j))
              && MemberOf(v, table[k].0) == Member(false)
    ensures FieldsFrom(v, table, start).WrongType? ==>
              var k := FieldsFrom(v, table, start).index;
              && start <= k < |table|
              && (forall j :: start <= j < k ==> FieldOk(v, table, j))
              && v.JObject? && table[k].0 in v.fields
              && !IsInstance(v.fields[table[k].0], table[k].1)
    ensures FieldsFrom(v, table, start).Crashed? ==> !v.JObject?
    decreases |table| - start
  {
    if start < |table| {
      FieldsFromStep(v, table, start);
      if FieldOk(v, table, start) {
        FieldsFromMeaning(v, table, start + 1);
      }
    }
  }

  /** One round of the loop: a good field moves on to the next, a bad one
      ends the loop with the report for that field. */
  lemma FieldsFromStep(v: Json, table: seq<(string, PyType)>, k: nat)
    requires k < |table|
    ensures FieldOk(v, table, k) ==> FieldsFrom(v, table, k) == FieldsFrom(v, table, k + 1)
    ensures !FieldOk(v, table, k) ==>
              || (FieldsFrom(v, table, k) == Missing(k) && MemberOf(v, table[k].0) == Member(false))
              || (&& FieldsFrom(v, table, k) == WrongType(k)
                  && v.JObject? && table[k].0 in v.fields
                  && !IsInstance(v.fields[table[k].0], table[k].1))
              || (FieldsFrom(v, table, k).Crashed? && !v.JObject?)
  {
  }

  /** The loop of `validate_metadata_file` over the required fields, with
      its early raises. */
  method CheckRequiredFields(metadata: Json) returns (r: FieldCheck)
    ensures r == FieldsFrom(metadata, RequiredFields, 0)
  {
    var i := 0;
    while i < |RequiredFields|
      invariant 0 <= i <= |RequiredFields|
      invariant FieldsFrom(metadata, RequiredFields, 0) == FieldsFrom(metadata, RequiredFields, i)
      decreases |RequiredFields| - i
    {
      var (name, t) := RequiredFields[i];
      var member := MemberOf(metadata, name);
      if member.NotIterable? {
        return Crashed(member.message);
      }
      if !member.present {
        return Missing(i);
      }
      var found := LookupIn(metadata, name);
      if found.NotIndexable? {
        return Crashed(found.message);
      }
      if !IsInstance(found.value, t) {
        return WrongType(i);
      }
      i := i + 1;
    }
    return AllPresent;
  }

  /** Python's `isinstance(True, int)` holds, so a boolean `topic_id` is
      accepted as an integer, while an integer is no boolean. */
  lemma BooleanTopicIdAccepted(fields: map<string, Json>, b: bool)
    requires "topic_id" in fields && fields["topic_id"] == JBool(b)
    ensures FieldOk(JObject(fields), RequiredFields, 3)
    ensures RequiredFields[3].0 == "topic_id"
    ensures !IsInstance(JInt(1), RequiredFields[4].1)
  {
  }

  /** A list or a string that does not mention `title` is reported as
      missing the title, not as malformed. */
  lemma NonObjectMetadataMissesTitle(v: Json)
    requires (v.JArray? && JStr("title") !in v.items) || (v.JStr? && !Contains(v.s, "title"))
    ensures FieldsFrom(v, RequiredFields, 0) == Missing(0)
  {
  }

  // ---------------------------------------------------------------
  // FORBIDDEN_IN_SOLUTION / FORBIDDEN_IN_PROBLEM
  // ---------------------------------------------------------------

  /** `\w` of a Python `str` pattern, on ASCII characters. */
  predicate IsReWord(c: char) {
    ('a' <= c <= 'z') || ('A' <= c <= 'Z') || ('0' <= c <= '9') || c == '_'
  }

  /** `c` matches the lower-case ASCII letter `l` under `re.IGNORECASE`:
      `l` itself, its capital, and the long s `\u017f` for `s`. */
  predicate FoldsTo(c: char, l: char) {
    c == l || c as int == l as int - 32 || (l == 's' && c == '\U{17f}')
  }

  /** The lower-case word `w` matches at position `i` of `s`. */
  predicate WordAt(s: string, i: nat, w: string) {
    i + |w| <= |s| && forall j :: 0 <= j < |w| ==> FoldsTo(s[i + j], w[j])
  }

  /** `\bDROP\s+<obj>\b` matches starting at position `i`. The run of
      white space is the longest one, since `obj` does not start with
      white space. */
  predicate DropMatchAt(s: string, i: nat, obj: string)
    requires i <= |s|
  {
    && (i == 0 || !IsReWord(s[i - 1]))
    && WordAt(s, i, "drop")
    && var k := LeadingCount(IsPySpace, s[i + 4..]);
       var e := i + 4 + k + |obj|;
       && k >= 1
       && WordAt(s, i + 4 + k, obj)
       && (e == |s| || !IsReWord(s[e]))
  }

  /** `re.search(r"\bDROP\s+<OBJ>\b", s, flags=re.IGNORECASE)` finds a match. */
  predicate SearchDrop(s: string, obj: string) {
    exists i :: 0 <= i < |s| && DropMatchAt(s, i, obj)
  }

  /** A forbidden pattern: its source text and the word after `DROP`. */
  datatype Pattern = Pattern(source: string, obj: string)

  const DropTable := Pattern("\\bDROP\\s+TABLE\\b", "table")
  const DropDatabase := Pattern("\\bDROP\\s+DATABASE\\b", "database")

  const ForbiddenInSolution: seq<Pattern> := [DropTable, DropDatabase]
  const ForbiddenInProblem: seq<Pattern> := [DropDatabase]

  /** Some pattern of the list matches the content. */
  predicate Rejects(patterns: seq<Pattern>, content: string) {
    exists k :: 0 <= k < |patterns| && SearchDrop(content, patterns[k].obj)
  }

  /** The loop `for pattern in FORBIDDEN_*`: the index of the first pattern
      that matches, if any. */
  method FirstForbidden(patterns: seq<Pattern>, content: string) returns (hit: Option<nat>)
    ensures hit.None? <==> !Rejects(patterns, content)
    ensures hit.Some? ==> && hit.value < |patterns|
                          && SearchDrop(content, patterns[hit.value].obj)
                          && forall j :: 0 <= j < hit.value ==> !SearchDrop(content, patterns[j].obj)
  {
    var k := 0;
    while k < |patterns|
      invariant 0 <= k <= |patterns|
      invariant forall j :: 0 <= j < k ==> !SearchDrop(content, patterns[j].obj)
      decreases |patterns| - k
    {
      if SearchDrop(content, patterns[k].obj) {
        return Some(k);
      }
      k := k + 1;
    }
    return None;
  }

  /** Everything the problem file may not contain, the solution file may not
      contain either. */
  lemma SolutionAtLeastAsStrict(content: string)
    ensures Rejects(ForbiddenInProblem, content) ==> Rejects(ForbiddenInSolution, content)
  {
    if Rejects(ForbiddenInProblem, content) {
      assert SearchDrop(content, ForbiddenInSolution[1].obj);
    }
  }

  /** Position `i + j` of `s` cannot match letter `j` of `w`, so `w` does
      not match at `i`. */
  lemma NoWordAt(s: string, i: nat, w: string, j: nat)
    requires j < |w| && i + j < |s| && !FoldsTo(s[i + j], w[j])
    ensures !WordAt(s, i, w)
  {
  }

  /** In `drop\n\tTable t` the white space after `drop` is two characters. */
  lemma GapAfterDrop()
    ensures LeadingCount(IsPySpace, "drop\n\tTable t"[4..]) == 2
  {
    var s := "drop\n\tTable t";
    assert IsPySpace(s[4..][0]) && IsPySpace(s[4..][1]) && !IsPySpace(s[4..][2]);
  }

  lemma DropTableAtStart()
    ensures DropMatchAt("drop\n\tTable t", 0, "table")
  {
    var s := "drop\n\tTable t";
    GapAfterDrop();
    assert WordAt(s, 0, "drop");
    assert WordAt(s, 6, "table");
    assert !IsReWord(s[11]);
  }

  lemma NoDropDatabaseAt(i: nat)
    requires i < |"drop\n\tTable t"|
    ensures !DropMatchAt("drop\n\tTable t", i, "database")
  {
    if i == 0 {
      GapAfterDrop();
      NoWordAt("drop\n\tTable t", 6, "database", 0);
    } else {
      NoWordAt("drop\n\tTable t", i, "drop", 0);
    }
  }

  /** `DROP TABLE` is refused in a solution and allowed in a problem
      script, in any letter case and with any white space between the
      words. */
  lemma DropTableOnlyInProblem()
    ensures Rejects(ForbiddenInSolution, "drop\n\tTable t")
    ensures !Rejects(ForbiddenInProblem, "drop\n\tTable t")
  {
    DropTableAtStart();
    assert SearchDrop("drop\n\tTable t", ForbiddenInSolution[0].obj);
    forall i | 0 <= i < |"drop\n\tTable t"| ensures !DropMatchAt("drop\n\tTable t", i, "database") {
      NoDropDatabaseAt(i);
    }
    assert ForbiddenInProblem[0].obj == "database";
  }

  lemma NoDropTableInBackdrop(i: nat)
    requires i < |"backdrop table"|
    ensures !DropMatchAt("backdrop table", i, "table")
  {
    var s := "backdrop table";
    if i == 4 {
      assert IsReWord(s[3]);
    } else if i + 4 <= |s| {
      NoWordAt(s, i, "drop", 0);
    }
  }

  /** A word that merely ends in `drop` does not trigger the pattern: `\b`
      needs a non-word character before `DROP`. */
  lemma WordBoundaryRequired()
    ensures !SearchDrop("backdrop table", "table")
  {
    forall i | 0 <= i < |"backdrop table"| ensures !DropMatchAt("backdrop table", i, "table") {
      NoDropTableInBackdrop(i);
    }
  }

  // ---------------------------------------------------------------
  // ProblemUploadSerializer
  // ---------------------------------------------------------------

  /** How one `validate_<field>` ends: it returns, raises a validation
      error, or raises anything else, which aborts the request. */
  datatype Checked = Valid | Invalid(message: string) | Crash(message: string)

  /** `file.read().decode("utf-8")` of an uploaded `.sql` file: its text,
      or the `UnicodeDecodeError` raised on bytes that are not UTF-8. */
  datatype Utf8Upload = Utf8Text(text: string) | Utf8Error(message: string)

  function ExtensionMessage(field: string): string {
    field + " must be a .sql file."
  }

  function ForbiddenMessage(field: string, p: Pattern): string {
    "Forbidden SQL found in " + field + ": " + p.source
  }

  predicate EndsWith(s: string, suffix: string) {
    |suffix| <= |s| && s[|s| - |suffix|..] == suffix
  }

  /** The form a message of the metadata check takes. */
  function FieldMessage(c: FieldCheck): Checked {
    match c
    case AllPresent => Valid
    case Missing(k) => if k < |RequiredFields| then Invalid(MissingMessage(RequiredFields[k].0)) else Valid
    case WrongType(k) =>
      if k < |RequiredFields| then Invalid(TypeMessage(RequiredFields[k].0, RequiredFields[k].1)) else Valid
    case Crashed(m) => Crash(m)
  }

  /** The metadata upload decodes to an object with every required field,
      well typed. */
  predicate MetadataAcceptable(d: Decoded) {
    d.Decoded? && d.value.JObject? && forall k :: 0 <= k < |RequiredFields| ==> FieldOk(d.value, RequiredFields, k)
  }

  /** What `validate_metadata_file` decides about an upload: the
      invalid-JSON message, otherwise the report of the field loop. It
      passes exactly on an acceptable object, and it raises something other
      than a validation error exactly when the loop crashed on a non-object. */
  function MetadataFileCheck(raw: string, decode: string -> Decoded): (r: Checked)
    ensures decode(raw).Malformed? ==> r == Invalid(MsgInvalidJson)
    ensures r.Valid? <==> MetadataAcceptable(decode(raw))
    ensures r.Crash? <==> decode(raw).Decoded? && FieldsFrom(decode(raw).value, RequiredFields, 0).Crashed?
    ensures r.Crash? ==> r.message == FieldsFrom(decode(raw).value, RequiredFields, 0).message
  {
    match decode(raw)
    case Malformed(_) => Invalid(MsgInvalidJson)
    case Decoded(v) =>
      FieldsFromMeaning(v, RequiredFields, 0);
      if FieldsFrom(v, RequiredFields, 0).AllPresent? then
        assert FieldOk(v, RequiredFields, 0);
        Valid
      else FieldMessage(FieldsFrom(v, RequiredFields, 0))
  }

  /** A problem file that `validate_problem_file` accepts: a `.sql` name,
      UTF-8 content and no forbidden pattern. */
  predicate ProblemAcceptable(name: string, content: Utf8Upload) {
    EndsWith(name, ".sql") && content.Utf8Text? && !Rejects(ForbiddenInProblem, content.text)
  }

  predicate SolutionAcceptable(name: string, content: Utf8Upload) {
    EndsWith(name, ".sql") && content.Utf8Text? && !Rejects(ForbiddenInSolution, content.text)
  }

  /** What `validate_problem_file` decides: the extension first, then the
      decoding, whose error escapes as it is, then the one forbidden
      pattern. */
  function ProblemFileCheck(name: string, content: Utf8Upload): (r: Checked)
    ensures !EndsWith(name, ".sql") ==> r == Invalid(ExtensionMessage("problem_file"))
    ensures r.Crash? <==> EndsWith(name, ".sql") && content.Utf8Error?
    ensures r.Crash? ==> r.message == content.message
    ensures r.Valid? <==> ProblemAcceptable(name, content)
    ensures EndsWith(name, ".sql") && content.Utf8Text? && Rejects(ForbiddenInProblem, content.text) ==>
              r == Invalid(ForbiddenMessage("problem_file", DropDatabase))
  {
    if !EndsWith(name, ".sql") then Invalid(ExtensionMessage("problem_file"))
    else if content.Utf8Error? then Crash(content.message)
    else if SearchDrop(content.text, "database") then
      assert SearchDrop(content.text, ForbiddenInProblem[0].obj);
      Invalid(ForbiddenMessage("problem_file", DropDatabase))
    else Valid
  }

  /** What `validate_solution_file` decides: the extension first, then the
      decoding, then the first of the two patterns that matches, `DROP
      TABLE` before `DROP DATABASE`. */
  function SolutionFileCheck(name: string, content: Utf8Upload): (r: Checked)
    ensures !EndsWith(name, ".sql") ==> r == Invalid(ExtensionMessage("solution_file"))
    ensures r.Crash? <==> EndsWith(name, ".sql") && content.Utf8Error?
    ensures r.Crash? ==> r.message == content.message
    ensures r.Valid? <==> SolutionAcceptable(name, content)
    ensures EndsWith(name, ".sql") && content.Utf8Text? && SearchDrop(content.text, "table") ==>
              r == Invalid(ForbiddenMessage("solution_file", DropTable))
    ensures EndsWith(name, ".sql") && content.Utf8Text? && !SearchDrop(content.text, "table")
            && SearchDrop(content.text, "database") ==>
              r == Invalid(ForbiddenMessage("solution_file", DropDatabase))
  {
    if !EndsWith(name, ".sql") then Invalid(ExtensionMessage("solution_file"))
    else if content.Utf8Error? then Crash(content.message)
    else if SearchDrop(content.text, "table") then
      assert SearchDrop(content.text, ForbiddenInSolution[0].obj);
      Invalid(ForbiddenMessage("solution_file", DropTable))
    else if SearchDrop(content.text, "database") then
      assert SearchDrop(content.text, ForbiddenInSolution[1].obj);
      Invalid(ForbiddenMessage("solution_file", DropDatabase))
    else
      assert !SearchDrop(content.text, ForbiddenInSolution[0].obj) && !SearchDrop(content.text, ForbiddenInSolution[1].obj);
      Valid
  }

  /** Errors of `is_valid()`, by field name, or an exception that escaped a
      validator. */
  datatype UploadOutcome = Errors(errors: map<string, string>) | ServerError(message: string)

  /** The error entry `is_valid()` records for one field. */
  function ErrorEntry(field: string, c: Checked): map<string, string> {
    if c.Invalid? then map[field := c.message] else map[]
  }

  /** What `is_valid()` reports on an upload: the validators run in field
      order, and the first exception other than a validation error ends the
      request; otherwise the validation errors of the three fields. */
  function UploadSpec(metadataRaw: string, decode: string -> Decoded, problemName: string, problemText: Utf8Upload,
                      solutionName: string, solutionText: Utf8Upload): UploadOutcome
  {
    var m := MetadataFileCheck(metadataRaw, decode);
    var p := ProblemFileCheck(problemName, problemText);
    var s := SolutionFileCheck(solutionName, solutionText);
    if m.Crash? then ServerError(m.message)
    else if p.Crash? then ServerError(p.message)
    else if s.Crash? then ServerError(s.message)
    else Errors(ErrorEntry("metadata_file", m) + ErrorEntry("problem_file", p) + ErrorEntry("solution_file", s))
  }

  lemma AddEntry(e: map<string, string>, field: string, c: Checked)
    ensures e + ErrorEntry(field, c) == if c.Invalid? then e[field := c.message] else e
  {
  }

  /** The error map of three verdicts has an entry exactly for each
      refused field, holding that field's message. */
  lemma EntriesMeaning(m: Checked, p: Checked, s: Checked)
    ensures var e := ErrorEntry("metadata_file", m) + ErrorEntry("problem_file", p) + ErrorEntry("solution_file", s);
            && e.Keys <= {"metadata_file", "problem_file", "solution_file"}
            && ("metadata_file" in e <==> m.Invalid?)
            && ("problem_file" in e <==> p.Invalid?)
            && ("solution_file" in e <==> s.Invalid?)
            && (m.Invalid? ==> e["metadata_file"] == m.message)
            && (e == map[] <==> !m.Invalid? && !p.Invalid? && !s.Invalid?)
  {
    var e1, e2, e3 := ErrorEntry("metadata_file", m), ErrorEntry("problem_file", p), ErrorEntry("solution_file", s);
    assert e1.Keys == (if m.Invalid? then {"metadata_file"} else {});
    assert e2.Keys == (if p.Invalid? then {"problem_file"} else {});
    assert e3.Keys == (if s.Invalid? then {"solution_file"} else {});
    assert (e1 + e2 + e3).Keys == e1.Keys + e2.Keys + e3.Keys;
    assert e1 + e2 + e3 == map[] <==> (e1 + e2 + e3).Keys == {};
  }

  /** An exception escapes exactly when the field loop crashes on decoded
      metadata or a `.sql` file with a `.sql` name is not UTF-8, and it is
      the first of these in field order; otherwise each field has an error
      exactly when its file is refused, undecodable metadata is reported as
      such, and the upload is clean exactly when all three files are
      acceptable. */
  lemma UploadSpecMeaning(metadataRaw: string, decode: string -> Decoded, problemName: string, problemText: Utf8Upload,
                          solutionName: string, solutionText: Utf8Upload)
    ensures var o := UploadSpec(metadataRaw, decode, problemName, problemText, solutionName, solutionText);
            var metadataCrash := decode(metadataRaw).Decoded? && FieldsFrom(decode(metadataRaw).value, RequiredFields, 0).Crashed?;
            var problemCrash := EndsWith(problemName, ".sql") && problemText.Utf8Error?;
            var solutionCrash := EndsWith(solutionName, ".sql") && solutionText.Utf8Error?;
            && (o.ServerError? <==> metadataCrash || problemCrash || solutionCrash)
            && (metadataCrash ==> o.message == FieldsFrom(decode(metadataRaw).value, RequiredFields, 0).message)
            && (!metadataCrash && problemCrash ==> o.message == problemText.message)
            && (!metadataCrash && !problemCrash && solutionCrash ==> o.message == solutionText.message)
            && (o.Errors? ==> o.errors.Keys <= {"metadata_file", "problem_file", "solution_file"})
            && (o.Errors? ==> ("metadata_file" in o.errors <==> !MetadataAcceptable(decode(metadataRaw))))
            && (o.Errors? && decode(metadataRaw).Malformed? ==> o.errors["metadata_file"] == MsgInvalidJson)
            && (o.Errors? ==> ("problem_file" in o.errors <==> !ProblemAcceptable(problemName, problemText)))
            && (o.Errors? ==> ("solution_file" in o.errors <==> !SolutionAcceptable(solutionName, solutionText)))
            && (o == Errors(map[]) <==>
                  && MetadataAcceptable(decode(metadataRaw))
                  && ProblemAcceptable(problemName, problemText)
                  && SolutionAcceptable(solutionName, solutionText))
  {
    var m := MetadataFileCheck(metadataRaw, decode);
    EntriesMeaning(m, ProblemFileCheck(problemName, problemText), SolutionFileCheck(solutionName, solutionText));
  }

  class ProblemUploadSerializer {
    /** `self._validated_metadata` and the three `self._*_content` texts;
        `None` while the attribute has not been set. */
    var validatedMetadata: Option<map<string, Json>>
    var metadataContent: Option<string>
    var problemContent: Option<string>
    var solutionContent: Option<string>

    /** The metadata is stored together with its text, and only once every
        required field is present with its declared type. */
    ghost predicate Consistent()
      reads this
    {
      && (validatedMetadata.Some? <==> metadataContent.Some?)
      && (validatedMetadata.Some? ==>
            forall k :: 0 <= k < |RequiredFields| ==> FieldOk(JObject(validatedMetadata.value), RequiredFields, k))
    }

    constructor ()
      ensures Consistent()
      ensures validatedMetadata == None && metadataContent == None
      ensures problemContent == None && solutionContent == None
    {
      validatedMetadata := None;
      metadataContent := None;
      problemContent := None;
      solutionContent := None;
    }

    /** `validate_metadata_file`, on the decoded text of the upload. */
    method ValidateMetadataFile(raw: string, decode: string -> Decoded) returns (r: Checked)
      requires Consistent()
      modifies this
      ensures Consistent()
      ensures r == MetadataFileCheck(raw, decode)
      ensures r.Valid? ==> validatedMetadata == Some(decode(raw).value.fields) && metadataContent == Some(raw)
      ensures !r.Valid? ==> validatedMetadata == old(validatedMetadata) && metadataContent == old(metadataContent)
      ensures problemContent == old(problemContent) && solutionContent == old(solutionContent)
    {
      var decoded := decode(raw);
      if decoded.Malformed? {
        return Invalid(MsgInvalidJson);
      }
      var metadata := decoded.value;
      var check := CheckRequiredFields(metadata);
      FieldsFromMeaning(metadata, RequiredFields, 0);
      r := FieldMessage(check);
      if r.Valid? {
        assert FieldOk(metadata, RequiredFields, 0);
        validatedMetadata := Some(metadata.fields);
        metadataContent := Some(raw);
      }
    }

    /** `validate_problem_file`. */
    method ValidateProblemFile(name: string, content: Utf8Upload) returns (r: Checked)
      requires Consistent()
      modifies this
      ensures Consistent()
      ensures r == ProblemFileCheck(name, content)
      ensures r.Valid? ==> problemContent == Some(content.text)
      ensures !r.Valid? ==> problemContent == old(problemContent)
      ensures validatedMetadata == old(validatedMetadata) && metadataContent == old(metadataContent)
      ensures solutionContent == old(solutionContent)
    {
      if !EndsWith(name, ".sql") {
        return Invalid(ExtensionMessage("problem_file"));
      }
      if content.Utf8Error? {
        return Crash(content.message);
      }
      var hit := FirstForbidden(ForbiddenInProblem, content.text);
      if hit.Some? {
        return Invalid(ForbiddenMessage("problem_file", ForbiddenInProblem[hit.value]));
      }
      problemContent := Some(content.text);
      r := Valid;
    }

    /** `validate_solution_file`: the first matching pattern is named. */
    method ValidateSolutionFile(name: string, content: Utf8Upload) returns (r: Checked)
      requires Consistent()
      modifies this
      ensures Consistent()
      ensures r == SolutionFileCheck(name, content)
      ensures r.Valid? ==> solutionContent == Some(content.text)
      ensures !r.Valid? ==> solutionContent == old(solutionContent)
      ensures validatedMetadata == old(validatedMetadata) && metadataContent == old(metadataContent)
      ensures problemContent == old(problemContent)
    {
      if !EndsWith(name, ".sql") {
        return Invalid(ExtensionMessage("solution_file"));
      }
      if content.Utf8Error? {
        return Crash(content.message);
      }
      var hit := FirstForbidden(ForbiddenInSolution, content.text);
      assert ForbiddenInSolution[0] == DropTable && ForbiddenInSolution[1] == DropDatabase;
      if hit.Some? {
        return Invalid(ForbiddenMessage("solution_file", ForbiddenInSolution[hit.value]));
      }
      solutionContent := Some(content.text);
      r := Valid;
    }

    /** `is_valid()`: the validators run in field order; validation errors
        are collected by field, any other exception ends the request. */
    method IsValid(metadataRaw: string, decode: string -> Decoded, problemName: string, problemText: Utf8Upload,
                   solutionName: string, solutionText: Utf8Upload)
      returns (o: UploadOutcome)
      requires Consistent()
      modifies this
      ensures Consistent()
      ensures o == UploadSpec(metadataRaw, decode, problemName, problemText, solutionName, solutionText)
      ensures MetadataFileCheck(metadataRaw, decode).Valid? ==>
                && MetadataAcceptable(decode(metadataRaw))
                && validatedMetadata == Some(decode(metadataRaw).value.fields)
                && metadataContent == Some(metadataRaw)
      ensures !MetadataFileCheck(metadataRaw, decode).Valid? ==>
                validatedMetadata == old(validatedMetadata) && metadataContent == old(metadataContent)
      ensures problemContent ==
                if !MetadataFileCheck(metadataRaw, decode).Crash? && ProblemFileCheck(problemName, problemText).Valid?
                then Some(problemText.text) else old(problemContent)
      ensures solutionContent ==
                if && !MetadataFileCheck(metadataRaw, decode).Crash?
                   && !ProblemFileCheck(problemName, problemText).Crash?
                   && SolutionFileCheck(solutionName, solutionText).Valid?
                then Some(solutionText.text) else old(solutionContent)
      ensures o == Errors(map[]) ==>
                && MetadataAcceptable(decode(metadataRaw))
                && validatedMetadata == Some(decode(metadataRaw).value.fields)
                && metadataContent == Some(metadataRaw)
                && problemText.Utf8Text? && problemContent == Some(problemText.text)
                && solutionText.Utf8Text? && solutionContent == Some(solutionText.text)
    {
      var errors: map<string, string> := map[];
      var m := ValidateMetadataFile(metadataRaw, decode);
      if m.Crash? {
        return ServerError(m.message);
      }
      AddEntry(errors, "metadata_file", m);
      if m.Invalid? {
        errors := errors["metadata_file" := m.message];
      }
      var p := ValidateProblemFile(problemName, problemText);
      if p.Crash? {
        return ServerError(p.message);
      }
      AddEntry(errors, "problem_file", p);
      if p.Invalid? {
        errors := errors["problem_file" := p.message];
      }
      var s := ValidateSolutionFile(solutionName, solutionText);
      if s.Crash? {
        return ServerError(s.message);
      }
      AddEntry(errors, "solution_file", s);
      if s.Invalid? {
        errors := errors["solution_file" := s.message];
      }
      EntriesMeaning(m, p, s);
      o := Errors(errors);
    }

    /** `get_validated_metadata()`; reading the attribute before it is set
        raises `AttributeError`, modelled as `None`. What it hands on is an
        object with every required field, well typed, and is there exactly
        when the metadata text is. */
    method GetValidatedMetadata() returns (m: Option<map<string, Json>>)
      requires Consistent()
      ensures m.Some? <==> metadataContent.Some?
      ensures m.Some? ==> forall k :: 0 <= k < |RequiredFields| ==> FieldOk(JObject(m.value), RequiredFields, k)
      ensures m == validatedMetadata
    {
      m := validatedMetadata;
    }

    /** `get_cleaned_files()`: the three texts under their fixture names. */
    method GetCleanedFiles() returns (files: Option<map<string, string>>)
      ensures files.Some? <==> metadataContent.Some? && problemContent.Some? && solutionContent.Some?
      ensures files.Some? ==> && files.value.Keys == {"metadata.json", "problem.sql", "solution.sql"}
                              && files.value["metadata.json"] == metadataContent.value
                              && files.value["problem.sql"] == problemContent.value
                              && files.value["solution.sql"] == solutionContent.value
    {
      if metadataContent.None? || problemContent.None? || solutionContent.None? {
        return None;
      }
      files := Some(map["metadata.json" := metadataContent.value,
                        "problem.sql" := problemContent.value,
                        "solution.sql" := solutionContent.value]);
    }
  }

  // ---------------------------------------------------------------
  // AttemptSerializer
  // ---------------------------------------------------------------

  /** The validated request of an attempt: `hints_used` and `time_taken`
      may be absent. */
  datatype AttemptData = AttemptData(
    user: nat,
    problem: int,
    userQuery: string,
    hintsUsed: Option<int>,
    timeTaken: Option<int>)

  /** A row of the `Attempt` table; there is no column for the query. */
  datatype Attempt = Attempt(
    attemptId: nat,
    user: nat,
    problem: int,
    score: real,
    status: string,
    hintsUsed: int,
    timeTaken: Option<int>)

  datatype Grade = Grade(score: real, status: string)

  /** Score and status of a checked attempt. */
  function GradeOf(correct: bool): (g: Grade)
    ensures g.score == 100.0 <==> correct
    ensures g.status == "Completed" <==> correct
    ensures !correct ==> g == Grade(0.0, "Failed")
  {
    if correct then Grade(100.0, "Completed") else Grade(0.0, "Failed")
  }

  class AttemptSerializer {
    /** The `Attempt` table, the auto-increment counter of its key, and
        `self.context['check_result']`. */
    var attempts: seq<Attempt>
    var nextAttemptId: nat
    var checkResult: Option<string>

    constructor (attempts: seq<Attempt>, nextAttemptId: nat)
      ensures this.attempts == attempts && this.nextAttemptId == nextAttemptId && checkResult == None
    {
      this.attempts := attempts;
      this.nextAttemptId := nextAttemptId;
      checkResult := None;
    }

    /** `create(validated_data)`: the query is checked, the attempt is
        stored without it, and the checker's message is kept in the
        context. */
    method Create(server: Server, stores: Stores, decode: string -> Decoded, suffix: string, data: AttemptData)
      returns (a: Attempt)
      modifies this, server
      ensures var (v, w) := VerifySpec(server.config, old(server.State()), stores, data.problem, decode,
                                       data.userQuery, suffix);
              && server.State() == w
              && a == Attempt(old(nextAttemptId), data.user, data.problem, GradeOf(v.correct).score,
                              GradeOf(v.correct).status, if data.hintsUsed.Some? then data.hintsUsed.value else 0,
                              data.timeTaken)
              && checkResult == Some(v.message)
      ensures a.status == "Completed" <==> checkResult == Some("")
      ensures attempts == old(attempts) + [a] && nextAttemptId == old(nextAttemptId) + 1
    {
      ghost var before := server.State();
      var correct, message := CheckUserQuery(server, stores, decode, data.problem, data.userQuery, suffix);
      VerdictCorrectIffSilent(server.config, before, stores, data.problem, decode, data.userQuery, suffix);
      var g := GradeOf(correct);
      var hintsUsed := if data.hintsUsed.Some? then data.hintsUsed.value else 0;
      a := Attempt(nextAttemptId, data.user, data.problem, g.score, g.status, hintsUsed, data.timeTaken);
      attempts := attempts + [a];
      nextAttemptId := nextAttemptId + 1;
      checkResult := Some(message);
    }
  }

  // ---------------------------------------------------------------
  // SQLProblemDetailSerializer
  // ---------------------------------------------------------------

  /** `get_requires_order`: the raw `requires_order` value of the metadata,
      and `False` on any error or a missing key. */
  function GetRequiresOrder(stores: Stores, id: int, decode: string -> Decoded): (r: Json)
    ensures var l := LoadProblemFile(stores, id, "metadata.json", true, decode);
            && (l.Failed? ==> r == JBool(false))
            && (l.Loaded? && !l.content.value.JObject? ==> r == JBool(false))
            && (l.Loaded? && l.content.value.JObject? && "requires_order" !in l.content.value.fields ==>
                  r == JBool(false))
            && (l.Loaded? && l.content.value.JObject? && "requires_order" in l.content.value.fields ==>
                  r == l.content.value.fields["requires_order"])
  {
    match LoadProblemFile(stores, id, "metadata.json", true, decode)
    case Loaded(Parsed(JObject(fields))) => Get(fields, "requires_order", JBool(false))
    case _ => JBool(false)
  }

  /** The detail page and the checker agree on the order policy whenever the
      checker can read it; where the checker fails on the metadata, the
      detail page shows `False`. */
  lemma RequiresOrderAgreesWithChecker(stores: Stores, id: int, decode: string -> Decoded)
    ensures MetadataOrder(stores, id, decode).Flag? ==>
              Truthy(GetRequiresOrder(stores, id, decode)) == MetadataOrder(stores, id, decode).requiresOrder
    ensures MetadataOrder(stores, id, decode).FlagError? ==> GetRequiresOrder(stores, id, decode) == JBool(false)
  {
  }

  function CountFor(attempts: seq<Attempt>, problem: int): (n: nat)
    ensures n <= |attempts|
  {
    if attempts == [] then 0
    else (if attempts[0].problem == problem then 1 else 0) + CountFor(attempts[1..], problem)
  }

  function CompletedFor(attempts: seq<Attempt>, problem: int): nat {
    if attempts == [] then 0
    else (if attempts[0].problem == problem && attempts[0].status == "Completed" then 1 else 0)
         + CompletedFor(attempts[1..], problem)
  }

  lemma {:induction false} CompletedAtMostAll(attempts: seq<Attempt>, problem: int)
    ensures CompletedFor(attempts, problem) <= CountFor(attempts, problem)
    ensures CountFor(attempts, problem) == 0 ==> CompletedFor(attempts, problem) == 0
  {
    if attempts != [] {
      CompletedAtMostAll(attempts[1..], problem);
    }
  }

  /** A part of a positive whole is between none and all of it. */
  lemma ShareAtMostWhole(part: nat, whole: nat)
    requires part <= whole && whole > 0
    ensures 0.0 <= part as real / whole as real <= 1.0
  {
    var q := part as real / whole as real;
    assert (1.0 - q) * whole as real == (whole - part) as real;
  }

  /** `get_acceptance`: the share of completed attempts in percent, and 0.0
      when the problem has no attempts. */
  function Acceptance(attempts: seq<Attempt>, problem: int): (r: real)
    ensures CountFor(attempts, problem) == 0 ==> r == 0.0
    ensures 0.0 <= r <= 100.0
  {
    var total := CountFor(attempts, problem);
    var correct := CompletedFor(attempts, problem);
    CompletedAtMostAll(attempts, problem);
    if total == 0 then 0.0
    else
      ShareAtMostWhole(correct, total);
      correct as real / total as real * 100.0
  }
}
