/**
 * Client-side helpers of the web front end: truncation of long texts, the
 * sign-up form check, and the closing instruction of the hint prompt.
 *
 * JavaScript strings are modelled as sequences of characters; `length`,
 * `substring` and `trim` are read on characters.
 */
module Helpers {
  import opened Text

  // ---------------------------------------------------------------
  // trim(string, limit = 100)
  // ---------------------------------------------------------------

  const DefaultLimit := 100
  const Ellipsis := "..."

  /** `string.substring(0, limit)`: a negative end counts as zero. */
  function Head(s: string, limit: int): (r: string)
    requires limit < |s|
    ensures limit >= 0 ==> r == s[..limit]
    ensures limit < 0 ==> r == ""
  {
    s[..if limit < 0 then 0 else limit]
  }

  /** `trim(string, limit)`: short texts are kept, longer ones are cut to
      `limit` characters and marked with an ellipsis. */
  function Trim(s: string, limit: int): (r: string)
    ensures |s| <= limit ==> r == s
    ensures |s| > limit >= 0 ==> |r| == limit + 3 && r[..limit] == s[..limit] && r[limit..] == Ellipsis
    ensures |s| > limit ==> exists k :: 0 <= k <= |s| && r == s[..k] + Ellipsis
  {
    if |s| <= limit then s
    else
      var h := Head(s, limit);
      assert h == s[..|h|] && |h| <= |s|;
      assert h + Ellipsis == s[..|h|] + Ellipsis;
      h + Ellipsis
  }

  /** `trim(string)` with the default limit. */
  function TrimDefault(s: string): (r: string)
    ensures |s| <= 100 ==> r == s
    ensures |s| > 100 ==> |r| == 103 && r == s[..100] + "..."
  {
    Trim(s, DefaultLimit)
  }

  /** Trimming a trimmed text changes nothing more. */
  lemma TrimIdempotent(s: string, limit: int)
    ensures Trim(Trim(s, limit), limit) == Trim(s, limit)
  {
    if |s| > limit {
      var r := Trim(s, limit);
      var k := if limit < 0 then 0 else limit;
      assert r == s[..k] + Ellipsis;
      assert r[..k] == s[..k];
      if limit < 0 {
        assert Head(r, limit) == "";
      }
    }
  }

  // ---------------------------------------------------------------
  // String tests of the sign-up form
  // ---------------------------------------------------------------

  /** JavaScript white space and line terminators, which `String.prototype.trim`
      removes. */
  predicate IsJsSpace(c: char) {
    || ('\t' <= c <= '\r')
    || c == ' ' || c == '\U{a0}' || c == '\U{1680}'
    || ('\U{2000}' <= c <= '\U{200a}')
    || c == '\U{2028}' || c == '\U{2029}' || c == '\U{202f}' || c == '\U{205f}'
    || c == '\U{3000}' || c == '\U{feff}'
  }

  /** `s.trim()`. */
  function JsTrim(s: string): string {
    StripBy(IsJsSpace, s)
  }

  /** `!s.trim()`: nothing is left once the white space is removed. */
  predicate Blank(s: string) {
    JsTrim(s) == ""
  }

  /** A string is blank exactly when it consists of white space only. */
  lemma BlankIffAllSpace(s: string)
    ensures Blank(s) <==> forall i :: 0 <= i < |s| ==> IsJsSpace(s[i])
  {
    StripBySlice(IsJsSpace, s);
    var i, j :| && 0 <= i <= j <= |s| && StripBy(IsJsSpace, s) == s[i..j]
                && (forall k :: 0 <= k < i ==> IsJsSpace(s[k]))
                && (forall k :: j <= k < |s| ==> IsJsSpace(s[k]))
                && (i < j ==> !IsJsSpace(s[i]) && !IsJsSpace(s[j - 1]));
    if i == j {
      forall k | 0 <= k < |s| ensures IsJsSpace(s[k]) {
        if k >= i {
          assert k >= j;
        }
      }
    }
  }

  /** `\w` of a JavaScript regular expression without the `u` flag. */
  predicate IsWordChar(c: char) {
    ('a' <= c <= 'z') || ('A' <= c <= 'Z') || ('0' <= c <= '9') || c == '_'
  }

  /** `/^[a-z A-Z]+$/`: letters and spaces, at least one character. */
  predicate IsValidName(name: string) {
    |name| > 0 && forall i :: 0 <= i < |name| ==> ('a' <= name[i] <= 'z') || ('A' <= name[i] <= 'Z') || name[i] == ' '
  }

  /** `\w+([.-]?\w+)*`: word characters, with single dots or hyphens allowed
      between them, starting and ending with a word character. */
  predicate IsDottedWords(s: string) {
    && |s| > 0
    && IsWordChar(s[0]) && IsWordChar(s[|s| - 1])
    && (forall i :: 0 <= i < |s| ==> IsWordChar(s[i]) || s[i] == '.' || s[i] == '-')
    && (forall i :: 0 <= i < |s| - 1 ==> IsWordChar(s[i]) || IsWordChar(s[i + 1]))
  }

  /** The domain part `\w+([.-]?\w+)*(\.\w{2,3})+`: dotted words followed by
      a dot and a final label of two or three word characters. (Repeated
      final labels are absorbed by the dotted words before them.) */
  predicate IsValidDomain(d: string) {
    exists k :: 0 < k < |d| && d[k] == '.' && IsDottedWords(d[..k]) && IsTopLabel(d[k + 1..])
  }

  predicate IsTopLabel(t: string) {
    2 <= |t| <= 3 && forall i :: 0 <= i < |t| ==> IsWordChar(t[i])
  }

  /** `isValidEmail(email)`: a local part and a domain around the one `@`. */
  predicate IsValidEmail(email: string) {
    exists k :: 0 <= k < |email| && email[k] == '@' && IsDottedWords(email[..k]) && IsValidDomain(email[k + 1..])
  }

  /** A final label joined to dotted words by a dot is itself part of a
      longer run of dotted words. */
  lemma AbsorbLabel(d: string, t: string)
    requires IsDottedWords(d) && IsTopLabel(t)
    ensures IsDottedWords(d + "." + t)
  {
    var s := d + "." + t;
    forall i | 0 <= i < |s| - 1 ensures IsWordChar(s[i]) || IsWordChar(s[i + 1]) {
      if i < |d| - 1 {
        assert s[i] == d[i] && s[i + 1] == d[i + 1];
      } else if i == |d| - 1 {
        assert s[i] == d[|d| - 1];
      } else {
        assert s[i + 1] == t[i - |d|];
      }
    }
    forall i | 0 <= i < |s| ensures IsWordChar(s[i]) || s[i] == '.' || s[i] == '-' {
      if i < |d| {
        assert s[i] == d[i];
      } else if i > |d| {
        assert s[i] == t[i - |d| - 1];
      }
    }
    assert s[|s| - 1] == t[|t| - 1] && s[0] == d[0];
  }

  /** A valid domain is one run of dotted words. */
  lemma DomainIsDotted(d: string)
    requires IsValidDomain(d)
    ensures IsDottedWords(d)
  {
    var k :| 0 < k < |d| && d[k] == '.' && IsDottedWords(d[..k]) && IsTopLabel(d[k + 1..]);
    AbsorbLabel(d[..k], d[k + 1..]);
    assert d == d[..k] + "." + d[k + 1..];
  }

  /** The `(\.\w{2,3})+` of the domain: one more final label keeps a domain
      valid, so a domain with several final labels is accepted. */
  lemma RepeatedLabels(d: string, t: string)
    requires IsValidDomain(d) && IsTopLabel(t)
    ensures IsValidDomain(d + "." + t)
  {
    DomainIsDotted(d);
    var s := d + "." + t;
    assert s[..|d|] == d && s[|d| + 1..] == t && s[|d|] == '.';
  }

  /** An address with a dotted local part and a two-letter final label. */
  lemma DottedAddressValid()
    ensures IsValidEmail("a.b@c.de")
  {
    var e := "a.b@c.de";
    var dom := e[4..];
    assert dom == "c.de" && dom[..1] == "c" && dom[2..] == "de";
    assert IsValidDomain(dom);
    assert e[..3] == "a.b";
  }

  /** A domain without a final label is refused. */
  lemma BareDomainInvalid()
    ensures !IsValidEmail("a@b")
  {
    var e := "a@b";
    forall k | 0 <= k < |e| && e[k] == '@' ensures !IsValidDomain(e[k + 1..]) {
      assert k == 1 && |e[k + 1..]| == 1;
    }
  }

  /** Two dots in a row are never part of dotted words. */
  lemma AdjacentDotsRefused(s: string, i: nat)
    requires i + 1 < |s| && s[i] == '.' && s[i + 1] == '.'
    ensures !IsDottedWords(s)
  {
  }

  /** Two dots in a row before the first `@` make an address invalid. */
  lemma DoubleDotRefused(e: string, i: nat)
    requires i + 1 < |e| && e[i] == '.' && e[i + 1] == '.'
    requires forall j :: 0 <= j < i + 2 ==> e[j] != '@'
    ensures !IsValidEmail(e)
  {
    forall k | 0 <= k < |e| && e[k] == '@' ensures !IsDottedWords(e[..k]) {
      AdjacentDotsRefused(e[..k], i);
    }
  }

  lemma DoubleDotInvalid()
    ensures !IsValidEmail("a..b@c.de")
  {
    var e := "a..b@c.de";
    assert e[..4] == "a..b";
    DoubleDotRefused(e, 1);
  }

  // ---------------------------------------------------------------
  // validateUser(name, email, password, confirmedPassword)
  // ---------------------------------------------------------------

  datatype UserCheck = Accepted | Refused(error: string)

  const MsgNameMissing := "Name is missing!"
  const MsgInvalidName := "Invalid name!"
  const MsgEmailMissing := "Email is missing!"
  const MsgInvalidEmail := "Invalid email!"
  const MsgPasswordMissing := "Password is missing!"
  const MsgPasswordShort := "Password must be at least 8 characters!"
  const MsgPasswordsDiffer := "Passwords don't match!"

  /** The form's conditions in the order they are checked, each with the
      message shown when it fails. */
  function Conditions(name: string, email: string, password: string, confirmed: string): seq<(bool, string)> {
    [ (!Blank(name), MsgNameMissing),
      (IsValidName(name), MsgInvalidName),
      (!Blank(email), MsgEmailMissing),
      (IsValidEmail(email), MsgInvalidEmail),
      (!Blank(password), MsgPasswordMissing),
      (|password| >= 8, MsgPasswordShort),
      (password == confirmed, MsgPasswordsDiffer) ]
  }

  /** The message of the first condition that fails, or acceptance when all
      hold. */
  function FirstFailure(conds: seq<(bool, string)>): (r: UserCheck)
    ensures r.Accepted? <==> forall i :: 0 <= i < |conds| ==> conds[i].0
    ensures r.Refused? ==> exists i :: 0 <= i < |conds| && !conds[i].0 && conds[i].1 == r.error
                                       && forall j :: 0 <= j < i ==> conds[j].0
  {
    if conds == [] then Accepted
    else if !conds[0].0 then Refused(conds[0].1)
    else
      var r := FirstFailure(conds[1..]);
      assert r.Refused? ==> exists i :: 0 <= i < |conds| && !conds[i].0 && conds[i].1 == r.error
                                        && forall j :: 0 <= j < i ==> conds[j].0 by {
        if r.Refused? {
          var i :| 0 <= i < |conds[1..]| && !conds[1..][i].0 && conds[1..][i].1 == r.error
                   && forall j :: 0 <= j < i ==> conds[1..][j].0;
          assert !conds[i + 1].0 && forall j :: 0 <= j < i + 1 ==> conds[j].0;
        }
      }
      r
  }

  /** `validateUser`: the early returns of the form check. */
  function ValidateUser(name: string, email: string, password: string, confirmed: string): (r: UserCheck)
    ensures r.Accepted? <==>
              && !Blank(name) && IsValidName(name)
              && !Blank(email) && IsValidEmail(email)
              && !Blank(password) && |password| >= 8
              && password == confirmed
  {
    if Blank(name) then Refused(MsgNameMissing)
    else if !IsValidName(name) then Refused(MsgInvalidName)
    else if Blank(email) then Refused(MsgEmailMissing)
    else if !IsValidEmail(email) then Refused(MsgInvalidEmail)
    else if Blank(password) then Refused(MsgPasswordMissing)
    else if |password| < 8 then Refused(MsgPasswordShort)
    else if password != confirmed then Refused(MsgPasswordsDiffer)
    else Accepted
  }

  /** The early returns report exactly the first failing condition of the
      list, in the list's order. */
  lemma ValidateUserReportsFirstFailure(name: string, email: string, password: string, confirmed: string)
    ensures ValidateUser(name, email, password, confirmed) == FirstFailure(Conditions(name, email, password, confirmed))
  {
    FirstOfSeven(Conditions(name, email, password, confirmed));
  }

  /** `FirstFailure` on seven conditions, written out as a chain of early
      returns. */
  lemma FirstOfSeven(c: seq<(bool, string)>)
    requires |c| == 7
    ensures FirstFailure(c) ==
              if !c[0].0 then Refused(c[0].1)
              else if !c[1].0 then Refused(c[1].1)
              else if !c[2].0 then Refused(c[2].1)
              else if !c[3].0 then Refused(c[3].1)
              else if !c[4].0 then Refused(c[4].1)
              else if !c[5].0 then Refused(c[5].1)
              else if !c[6].0 then Refused(c[6].1)
              else Accepted
  {
    assert c == c[0..];
    FirstFailureStep(c, 0);
    FirstFailureStep(c, 1);
    FirstFailureStep(c, 2);
    FirstFailureStep(c, 3);
    FirstFailureStep(c, 4);
    FirstFailureStep(c, 5);
    FirstFailureStep(c, 6);
    assert c[7..] == [];
  }

  lemma FirstFailureStep(conds: seq<(bool, string)>, i: nat)
    requires i < |conds|
    ensures FirstFailure(conds[i..]) == if !conds[i].0 then Refused(conds[i].1) else FirstFailure(conds[i + 1..])
  {
    assert conds[i..][0] == conds[i] && conds[i..][1..] == conds[i + 1..];
  }

  /** A missing name is reported even when the e-mail address is also bad. */
  lemma MissingNameReportedFirst(name: string, email: string, password: string, confirmed: string)
    requires forall i :: 0 <= i < |name| ==> IsJsSpace(name[i])
    ensures ValidateUser(name, email, password, confirmed) == Refused(MsgNameMissing)
  {
    BlankIffAllSpace(name);
  }

  /** A name that passes the letters-and-spaces pattern and holds a letter
      is not reported as missing. */
  lemma ValidNameWithLetterIsNotBlank(name: string, k: nat)
    requires IsValidName(name) && k < |name| && name[k] != ' '
    ensures !Blank(name)
  {
    BlankIffAllSpace(name);
  }

  // ---------------------------------------------------------------
  // generatePromptFromProblem(problem, hintResponses, hintStep)
  // ---------------------------------------------------------------

  /** The value passed as `hintStep`; only numbers can be `=== 0` or `=== 1`. */
  datatype HintStep = Number(n: real) | NotANumber

  const FirstHintRequest := "Now give your first hint. "
    + "Focus on which SQL clauses (e.g., SELECT, JOIN, GROUP BY) the user should consider. "
    + "Limit your answer to 30 words."
  const NextHintRequest := "Now give your next hint. " + "Do not repeat earlier hints. " + "Build upon them. "
    + "Limit your answer to 30 words."
  const SolutionRequest := "Now provide the complete MySQL solution. " + "Only reply with the SQL code."

  /** The request appended after the problem description. */
  function HintRequest(step: HintStep): (r: string)
    ensures step == Number(0.0) ==> r == FirstHintRequest
    ensures step == Number(1.0) ==> r == NextHintRequest
    ensures step != Number(0.0) && step != Number(1.0) ==> r == SolutionRequest
  {
    if step == Number(0.0) then FirstHintRequest
    else if step == Number(1.0) then NextHintRequest
    else SolutionRequest
  }

  /** `generatePromptFromProblem`: the problem text `header` (built from the
      problem's fields with `JSON.stringify`, which this model does not
      interpret) followed by the request, trimmed. */
  function PromptFromProblem(header: string, step: HintStep): string {
    JsTrim(header + HintRequest(step))
  }

  /** Trimming cuts only white space off the front when the text ends in a
      non-space and some non-space starts `tail`. */
  lemma TrimKeepsTail(head: string, tail: string)
    requires |tail| > 0 && !IsJsSpace(tail[0]) && !IsJsSpace(tail[|tail| - 1])
    ensures exists k :: 0 <= k <= |head| && JsTrim(head + tail) == head[k..] + tail
  {
    var s := head + tail;
    var a := LeadingCount(IsJsSpace, s);
    assert !IsJsSpace(s[|head|]);
    assert a <= |head|;
    var rest := s[a..];
    assert rest == head[a..] + tail;
    var b := TrimmingEnd(rest);
    assert JsTrim(s) == rest[..b];
    assert rest[..|rest|] == rest;
  }

  lemma TrimmingEnd(rest: string) returns (b: nat)
    requires |rest| > 0 && !IsJsSpace(rest[|rest| - 1])
    ensures b == TrailingStart(IsJsSpace, rest) && b == |rest|
  {
    b := TrailingStart(IsJsSpace, rest);
  }

  /** The prompt always ends with the request chosen by the hint step, and
      everything before it is part of the problem text. */
  lemma PromptEndsWithRequest(header: string, step: HintStep)
    ensures exists k :: 0 <= k <= |header| && PromptFromProblem(header, step) == header[k..] + HintRequest(step)
  {
    var r := HintRequest(step);
    assert FirstHintRequest[0] == 'N' && FirstHintRequest[|FirstHintRequest| - 1] == '.';
    assert NextHintRequest[0] == 'N' && NextHintRequest[|NextHintRequest| - 1] == '.';
    assert SolutionRequest[0] == 'N' && SolutionRequest[|SolutionRequest| - 1] == '.';
    TrimKeepsTail(header, r);
  }
}
