/**
 * Writing a problem's metadata into the `SQLProblem` and `Hint` tables:
 * the problem row is inserted or updated by its id, the problem's hints
 * are deleted, and the hints of the metadata are inserted again, numbered
 * from 1.
 *
 * The tables live in a `ProblemDatabase` object whose methods are the
 * three statements; the `Hint` table keeps its rows in insertion order and
 * draws `hint_id` from an auto-increment counter.
 */
module SaveSqlProblem {
  import opened Common

  /** The columns of `SQLProblem` the upsert writes, keyed by `problem_id`. */
  datatype ProblemRow = ProblemRow(title: string, description: string, difficultyLevel: string, topicId: int)

  datatype HintRow = HintRow(hintId: nat, problemId: int, hintText: string, hintOrder: int)

  /** A `Hint` row without its generated id. */
  datatype HintEntry = HintEntry(problemId: int, hintText: string, hintOrder: int)

  /** The keys of `metadata.json` the function reads; `hints` may be absent. */
  datatype ProblemMetadata = ProblemMetadata(
    problemId: int,
    title: string,
    description: string,
    difficultyLevel: string,
    topicId: int,
    hints: Option<seq<string>>)

  /** `metadata.get("hints", [])`. */
  function HintTexts(meta: ProblemMetadata): seq<string> {
    if meta.hints.Some? then meta.hints.value else []
  }

  function RowOf(meta: ProblemMetadata): ProblemRow {
    ProblemRow(meta.title, meta.description, meta.difficultyLevel, meta.topicId)
  }

  function Entry(h: HintRow): HintEntry {
    HintEntry(h.problemId, h.hintText, h.hintOrder)
  }

  function Entries(hs: seq<HintRow>): (es: seq<HintEntry>)
    ensures |es| == |hs| && forall i :: 0 <= i < |hs| ==> es[i] == Entry(hs[i])
  {
    seq(|hs|, i requires 0 <= i < |hs| => Entry(hs[i]))
  }

  /** The hints of problem `pid`, in table order. */
  function HintsOf(es: seq<HintEntry>, pid: int): seq<HintEntry> {
    if es == [] then []
    else (if es[0].problemId == pid then [es[0]] else []) + HintsOf(es[1..], pid)
  }

  /** The hints of every other problem, in table order. */
  function Others(es: seq<HintEntry>, pid: int): seq<HintEntry> {
    if es == [] then []
    else (if es[0].problemId != pid then [es[0]] else []) + Others(es[1..], pid)
  }

  /** `DELETE FROM Hint WHERE problem_id = pid` on the rows themselves. */
  function KeepOthers(hs: seq<HintRow>, pid: int): (r: seq<HintRow>)
    ensures Entries(r) == Others(Entries(hs), pid)
    ensures forall h :: h in r ==> h in hs
  {
    if hs == [] then []
    else
      var r := (if hs[0].problemId != pid then [hs[0]] else []) + KeepOthers(hs[1..], pid);
      assert Entries(hs)[1..] == Entries(hs[1..]);
      r
  }

  /** The hint texts of problem `pid`, numbered from `start`. */
  function NumberedFrom(pid: int, texts: seq<string>, start: int): (es: seq<HintEntry>)
    ensures |es| == |texts|
    ensures forall i :: 0 <= i < |texts| ==> es[i] == HintEntry(pid, texts[i], start + i)
  {
    seq(|texts|, i requires 0 <= i < |texts| => HintEntry(pid, texts[i], start + i))
  }

  /** `enumerate(hints, start=1)` as rows of problem `pid`. */
  function Numbered(pid: int, texts: seq<string>): seq<HintEntry> {
    NumberedFrom(pid, texts, 1)
  }

  /** The two tables, hint ids left aside. */
  datatype Tables = Tables(problems: map<int, ProblemRow>, hints: seq<HintEntry>)

  /** What the three statements leave behind: the problem row replaced or
      added, the other problems' hints in place, and the new hints after
      them. */
  function SaveSpec(t: Tables, meta: ProblemMetadata): Tables {
    Tables(t.problems[meta.problemId := RowOf(meta)],
           Others(t.hints, meta.problemId) + Numbered(meta.problemId, HintTexts(meta)))
  }

  lemma FiltersCons(e: HintEntry, rest: seq<HintEntry>, pid: int)
    ensures HintsOf([e] + rest, pid) == (if e.problemId == pid then [e] else []) + HintsOf(rest, pid)
    ensures Others([e] + rest, pid) == (if e.problemId != pid then [e] else []) + Others(rest, pid)
  {
    assert ([e] + rest)[0] == e && ([e] + rest)[1..] == rest;
  }

  lemma {:induction false} HintsOfConcat(a: seq<HintEntry>, b: seq<HintEntry>, pid: int)
    ensures HintsOf(a + b, pid) == HintsOf(a, pid) + HintsOf(b, pid)
    decreases |a|
  {
    if a == [] {
      assert a + b == b;
    } else {
      HintsOfConcat(a[1..], b, pid);
      assert a == [a[0]] + a[1..] && a + b == [a[0]] + (a[1..] + b);
      FiltersCons(a[0], a[1..], pid);
      FiltersCons(a[0], a[1..] + b, pid);
    }
  }

  lemma {:induction false} OthersConcat(a: seq<HintEntry>, b: seq<HintEntry>, pid: int)
    ensures Others(a + b, pid) == Others(a, pid) + Others(b, pid)
    decreases |a|
  {
    if a == [] {
      assert a + b == b;
    } else {
      OthersConcat(a[1..], b, pid);
      assert a == [a[0]] + a[1..] && a + b == [a[0]] + (a[1..] + b);
      FiltersCons(a[0], a[1..], pid);
      FiltersCons(a[0], a[1..] + b, pid);
    }
  }

  /** Both filters distribute over concatenation. */
  lemma HintsOfAppend(a: seq<HintEntry>, b: seq<HintEntry>, pid: int)
    ensures HintsOf(a + b, pid) == HintsOf(a, pid) + HintsOf(b, pid)
    ensures Others(a + b, pid) == Others(a, pid) + Others(b, pid)
  {
    HintsOfConcat(a, b, pid);
    OthersConcat(a, b, pid);
  }

  lemma {:induction false} OthersIdempotent(es: seq<HintEntry>, pid: int)
    ensures Others(Others(es, pid), pid) == Others(es, pid)
    ensures HintsOf(Others(es, pid), pid) == []
    decreases |es|
  {
    if es != [] {
      var head := if es[0].problemId != pid then [es[0]] else [];
      OthersIdempotent(es[1..], pid);
      HintsOfAppend(head, Others(es[1..], pid), pid);
      if head != [] {
        assert head[1..] == [];
      }
    }
  }

  /** Rows all of one problem: filtering keeps or drops all of them. */
  lemma {:induction false} SingleProblem(es: seq<HintEntry>, pid: int, q: int)
    requires forall i :: 0 <= i < |es| ==> es[i].problemId == pid
    ensures HintsOf(es, pid) == es
    ensures q != pid ==> HintsOf(es, q) == []
    ensures Others(es, pid) == []
    ensures q != pid ==> Others(es, q) == es
    decreases |es|
  {
    if es != [] {
      SingleProblem(es[1..], pid, q);
    }
  }

  /** Other problems keep their hints: the rows of a problem other than
      `pid` are the same before and after `Others`. */
  lemma {:induction false} OthersKeepsOtherProblem(es: seq<HintEntry>, pid: int, q: int)
    requires q != pid
    ensures HintsOf(Others(es, pid), q) == HintsOf(es, q)
    decreases |es|
  {
    if es != [] {
      var head := if es[0].problemId != pid then [es[0]] else [];
      OthersKeepsOtherProblem(es[1..], pid, q);
      HintsOfAppend(head, Others(es[1..], pid), q);
      if head != [] {
        assert head[1..] == [];
      }
    }
  }

  /** After saving, the problem's hints are exactly those of the metadata,
      in list order and numbered 1..n; with no `hints` key it has none. */
  lemma SaveGivesExactlyTheHints(t: Tables, meta: ProblemMetadata)
    ensures var t' := SaveSpec(t, meta);
            && t'.problems[meta.problemId] == RowOf(meta)
            && HintsOf(t'.hints, meta.problemId) == Numbered(meta.problemId, HintTexts(meta))
            && (meta.hints.None? ==> HintsOf(t'.hints, meta.problemId) == [])
  {
    var pid := meta.problemId;
    var added := Numbered(pid, HintTexts(meta));
    HintsOfAppend(Others(t.hints, pid), added, pid);
    OthersIdempotent(t.hints, pid);
    SingleProblem(added, pid, pid);
  }

  /** Saving one problem changes neither the row nor the hints of any other
      problem. */
  lemma SaveKeepsOtherProblems(t: Tables, meta: ProblemMetadata, q: int)
    requires q != meta.problemId
    ensures var t' := SaveSpec(t, meta);
            && (q in t'.problems <==> q in t.problems)
            && (q in t.problems ==> t'.problems[q] == t.problems[q])
            && HintsOf(t'.hints, q) == HintsOf(t.hints, q)
  {
    var pid := meta.problemId;
    var added := Numbered(pid, HintTexts(meta));
    HintsOfAppend(Others(t.hints, pid), added, q);
    OthersKeepsOtherProblem(t.hints, pid, q);
    SingleProblem(added, pid, q);
  }

  /** Saving the same metadata twice leaves the tables as saving it once. */
  lemma SaveIdempotent(t: Tables, meta: ProblemMetadata)
    ensures SaveSpec(SaveSpec(t, meta), meta) == SaveSpec(t, meta)
  {
    var pid := meta.problemId;
    var added := Numbered(pid, HintTexts(meta));
    HintsOfAppend(Others(t.hints, pid), added, pid);
    OthersIdempotent(t.hints, pid);
    SingleProblem(added, pid, pid);
    assert Others(added, pid) == [];
    assert Others(t.hints, pid) + [] == Others(t.hints, pid);
  }

  class ProblemDatabase {
    var problems: map<int, ProblemRow>
    var hints: seq<HintRow>
    var nextHintId: nat

    /** Hint ids increase along the table and stay below the counter. */
    ghost predicate Valid()
      reads this
    {
      IdsBelow(hints, nextHintId) && IdsIncreasing(hints)
    }

    function Contents(): Tables
      reads this
    {
      Tables(problems, Entries(hints))
    }

    constructor ()
      ensures Valid() && Contents() == Tables(map[], [])
    {
      problems := map[];
      hints := [];
      nextHintId := 1;
    }

    /** `INSERT INTO SQLProblem ... ON DUPLICATE KEY UPDATE ...`. */
    method UpsertProblem(pid: int, row: ProblemRow)
      modifies this
      ensures problems == old(problems)[pid := row]
      ensures hints == old(hints) && nextHintId == old(nextHintId)
    {
      problems := problems[pid := row];
    }

    /** `DELETE FROM Hint WHERE problem_id = pid`. */
    method DeleteHints(pid: int)
      requires Valid()
      modifies this
      ensures Valid()
      ensures hints == KeepOthers(old(hints), pid)
      ensures problems == old(problems) && nextHintId == old(nextHintId)
    {
      KeepOthersValid(hints, pid, nextHintId);
      hints := KeepOthers(hints, pid);
    }

    /** `INSERT INTO Hint (problem_id, hint_text, hint_order)`: the row gets
        the next auto-increment id. */
    method InsertHint(pid: int, text: string, order: int)
      requires Valid()
      modifies this
      ensures Valid()
      ensures hints == old(hints) + [HintRow(old(nextHintId), pid, text, order)]
      ensures nextHintId == old(nextHintId) + 1 && problems == old(problems)
    {
      var row := HintRow(nextHintId, pid, text, order);
      AppendKeepsIds(hints, row, nextHintId);
      hints := hints + [row];
      nextHintId := nextHintId + 1;
    }

    /** `save_sql_problem_to_db(cursor, metadata)`. */
    method SaveSqlProblemToDb(meta: ProblemMetadata)
      requires Valid()
      modifies this
      ensures Valid()
      ensures Contents() == SaveSpec(old(Contents()), meta)
    {
      ghost var start := Contents();
      var pid := meta.problemId;
      UpsertProblem(pid, RowOf(meta));
      DeleteHints(pid);
      ghost var kept := Others(start.hints, pid);
      assert Entries(hints) == kept;
      var texts := HintTexts(meta);
      var i := 0;
      while i < |texts|
        invariant 0 <= i <= |texts|
        invariant Valid()
        invariant problems == start.problems[pid := RowOf(meta)]
        invariant Entries(hints) == kept + Numbered(pid, texts[..i])
      {
        ghost var before := hints;
        ghost var id := nextHintId;
        InsertHint(pid, texts[i], i + 1);
        EntriesSnoc(before, HintRow(id, pid, texts[i], i + 1));
        NumberedSnoc(pid, texts, i);
        i := i + 1;
      }
      assert texts[..i] == texts;
    }
  }

  lemma EntriesSnoc(hs: seq<HintRow>, row: HintRow)
    ensures Entries(hs + [row]) == Entries(hs) + [Entry(row)]
  {
    var l, r := Entries(hs + [row]), Entries(hs) + [Entry(row)];
    forall k | 0 <= k < |l| ensures l[k] == r[k] {
      if k < |hs| {
        assert (hs + [row])[k] == hs[k];
      }
    }
  }

  lemma NumberedSnoc(pid: int, texts: seq<string>, i: nat)
    requires i < |texts|
    ensures Numbered(pid, texts[..i + 1]) == Numbered(pid, texts[..i]) + [HintEntry(pid, texts[i], i + 1)]
  {
    var l, r := Numbered(pid, texts[..i + 1]), Numbered(pid, texts[..i]) + [HintEntry(pid, texts[i], i + 1)];
    forall k | 0 <= k < |l| ensures l[k] == r[k] {
      assert texts[..i + 1][k] == texts[k];
      if k < i {
        assert texts[..i][k] == texts[k];
      }
    }
  }

  predicate IdsBelow(hs: seq<HintRow>, next: nat) {
    forall i :: 0 <= i < |hs| ==> hs[i].hintId < next
  }

  predicate IdsIncreasing(hs: seq<HintRow>) {
    forall i, j :: 0 <= i < j < |hs| ==> hs[i].hintId < hs[j].hintId
  }

  /** A row with the counter's id goes after every existing row. */
  lemma AppendKeepsIds(hs: seq<HintRow>, row: HintRow, next: nat)
    requires IdsBelow(hs, next) && IdsIncreasing(hs) && row.hintId == next
    ensures IdsBelow(hs + [row], next + 1) && IdsIncreasing(hs + [row])
  {
    var r := hs + [row];
    forall i, j | 0 <= i < j < |r| ensures r[i].hintId < r[j].hintId {
      assert r[i] == hs[i];
      if j < |hs| {
        assert r[j] == hs[j];
      }
    }
  }

  /** Deleting rows keeps the remaining ids increasing and below the counter. */
  lemma KeepOthersValid(hs: seq<HintRow>, pid: int, next: nat)
    requires IdsBelow(hs, next) && IdsIncreasing(hs)
    ensures IdsBelow(KeepOthers(hs, pid), next) && IdsIncreasing(KeepOthers(hs, pid))
  {
    var r := KeepOthers(hs, pid);
    forall i | 0 <= i < |r| ensures r[i].hintId < next {
      assert r[i] in hs;
    }
    KeepOthersIncreasing(hs, pid);
  }

  /** Past its first row, an increasing table stays increasing and every
      later id is above the first one. */
  lemma IncreasingTail(hs: seq<HintRow>)
    requires hs != [] && IdsIncreasing(hs)
    ensures IdsIncreasing(hs[1..])
    ensures forall h :: h in hs[1..] ==> hs[0].hintId < h.hintId
  {
    var tail := hs[1..];
    forall i, j | 0 <= i < j < |tail| ensures tail[i].hintId < tail[j].hintId {
      assert tail[i] == hs[i + 1] && tail[j] == hs[j + 1];
    }
    forall h | h in tail ensures hs[0].hintId < h.hintId {
      var k :| 0 <= k < |tail| && tail[k] == h;
      assert hs[k + 1] == h;
    }
  }

  /** A row below every id of an increasing table can go in front of it. */
  lemma IncreasingCons(row: HintRow, rest: seq<HintRow>)
    requires IdsIncreasing(rest)
    requires forall h :: h in rest ==> row.hintId < h.hintId
    ensures IdsIncreasing([row] + rest)
  {
    var r := [row] + rest;
    forall i, j | 0 <= i < j < |r| ensures r[i].hintId < r[j].hintId {
      assert r[j] == rest[j - 1];
      if i > 0 {
        assert r[i] == rest[i - 1];
      }
    }
  }

  lemma {:induction false} KeepOthersIncreasing(hs: seq<HintRow>, pid: int)
    requires IdsIncreasing(hs)
    ensures IdsIncreasing(KeepOthers(hs, pid))
    decreases |hs|
  {
    if hs != [] {
      IncreasingTail(hs);
      KeepOthersIncreasing(hs[1..], pid);
      var rest := KeepOthers(hs[1..], pid);
      if hs[0].problemId != pid {
        IncreasingCons(hs[0], rest);
      }
    }
  }
}
