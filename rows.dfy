/**
 * Result sets as the sandbox sees them: each row is the Python dict
 * `dict(zip(columns, row))`, rows are compared with `==` on lists of dicts,
 * and the order-insensitive policy sorts both lists with
 * `sorted(rows, key=lambda x: tuple(x.values()))`.
 */
module RowSets {

  /** A scalar the connector hands back. */
  datatype Value = Null | Num(n: int) | Str(s: string)

  /** A Python dict: its (key, value) entries in insertion order. */
  type Row = seq<(string, Value)>

  function Keys(r: Row): (ks: seq<string>)
    ensures |ks| == |r| && forall i :: 0 <= i < |r| ==> ks[i] == r[i].0
  {
    seq(|r|, i requires 0 <= i < |r| => r[i].0)
  }

  /** `tuple(d.values())`, the sort key. */
  function Values(r: Row): (vs: seq<Value>)
    ensures |vs| == |r| && forall i :: 0 <= i < |r| ==> vs[i] == r[i].1
  {
    seq(|r|, i requires 0 <= i < |r| => r[i].1)
  }

  /** Two dicts with the same keys in the same order and the same values are
      the same dict. */
  lemma RowExt(a: Row, b: Row)
    requires Keys(a) == Keys(b) && Values(a) == Values(b)
    ensures a == b
  {
    assert |a| == |Keys(a)| == |b|;
    forall i | 0 <= i < |a| ensures a[i] == b[i] {
      assert a[i].0 == Keys(a)[i] && a[i].1 == Values(a)[i];
    }
  }

  /** `d[k] = v`: an existing key keeps its place and takes the new value,
      a new key is appended. */
  function Put(d: Row, k: string, v: Value): Row {
    if d == [] then [(k, v)]
    else if d[0].0 == k then [(k, v)] + d[1..]
    else [d[0]] + Put(d[1..], k, v)
  }

  lemma KeysCons(x: (string, Value), r: Row)
    ensures Keys([x] + r) == [x.0] + Keys(r)
  {
    var a, b := Keys([x] + r), [x.0] + Keys(r);
    forall i | 0 <= i < |a| ensures a[i] == b[i] {
      if i > 0 {
        assert ([x] + r)[i] == r[i - 1];
      }
    }
  }

  lemma KeysTail(r: Row)
    requires r != []
    ensures Keys(r[1..]) == Keys(r)[1..] && Keys(r)[0] == r[0].0
  {
  }

  /** The keys after `d[k] = v` do not depend on `v`. */
  lemma {:induction false} PutKeys(d1: Row, d2: Row, k: string, v1: Value, v2: Value)
    requires Keys(d1) == Keys(d2)
    ensures Keys(Put(d1, k, v1)) == Keys(Put(d2, k, v2))
    decreases |d1|
  {
    if d1 != [] {
      KeysTail(d1);
      KeysTail(d2);
      if d1[0].0 != k {
        PutKeys(d1[1..], d2[1..], k, v1, v2);
        KeysCons(d1[0], Put(d1[1..], k, v1));
        KeysCons(d2[0], Put(d2[1..], k, v2));
      } else {
        KeysCons((k, v1), d1[1..]);
        KeysCons((k, v2), d2[1..]);
      }
    }
  }

  function ZipFrom(acc: Row, cols: seq<string>, vals: seq<Value>): Row
    decreases |cols|
  {
    if |cols| == 0 || |vals| == 0 then acc
    else ZipFrom(Put(acc, cols[0], vals[0]), cols[1..], vals[1..])
  }

  /** `dict(zip(cols, vals))`. */
  function Zip(cols: seq<string>, vals: seq<Value>): Row {
    ZipFrom([], cols, vals)
  }

  lemma {:induction false} ZipFromKeys(acc1: Row, acc2: Row, cols: seq<string>, vals1: seq<Value>, vals2: seq<Value>)
    requires Keys(acc1) == Keys(acc2) && |vals1| == |vals2|
    ensures Keys(ZipFrom(acc1, cols, vals1)) == Keys(ZipFrom(acc2, cols, vals2))
    decreases |cols|
  {
    if |cols| != 0 && |vals1| != 0 {
      PutKeys(acc1, acc2, cols[0], vals1[0], vals2[0]);
      ZipFromKeys(Put(acc1, cols[0], vals1[0]), Put(acc2, cols[0], vals2[0]), cols[1..], vals1[1..], vals2[1..]);
    }
  }

  /** Rows of one result set, `[dict(zip(columns, row)) for row in rows]`. */
  function MakeRows(cols: seq<string>, tuples: seq<seq<Value>>): (rows: seq<Row>)
    ensures |rows| == |tuples|
  {
    seq(|tuples|, i requires 0 <= i < |tuples| => Zip(cols, tuples[i]))
  }

  /** Within one result set rows with equal sort keys are equal dicts. */
  predicate KeyDetermines(rows: seq<Row>) {
    forall a, b :: a in rows && b in rows && Values(a) == Values(b) ==> a == b
  }

  predicate SameWidth(tuples: seq<seq<Value>>) {
    forall i, j :: 0 <= i < |tuples| && 0 <= j < |tuples| ==> |tuples[i]| == |tuples[j]|
  }

  /** The connector returns tuples as wide as the column list, so all dicts
      of one result share their keys and the sort key determines the row. */
  lemma MakeRowsKeyDetermines(cols: seq<string>, tuples: seq<seq<Value>>)
    requires SameWidth(tuples)
    ensures KeyDetermines(MakeRows(cols, tuples))
  {
    var rows := MakeRows(cols, tuples);
    forall a, b | a in rows && b in rows && Values(a) == Values(b) ensures a == b {
      var i :| 0 <= i < |rows| && rows[i] == a;
      var j :| 0 <= j < |rows| && rows[j] == b;
      ZipFromKeys([], [], cols, tuples[i], tuples[j]);
      RowExt(a, b);
    }
  }

  /** A dict as a map, for `==` between dicts (entry order is irrelevant). */
  function AsMap(r: Row): map<string, Value>
    decreases |r|
  {
    if r == [] then map[] else AsMap(r[1..])[r[0].0 := r[0].1]
  }

  /** `xs == ys` on two lists of dicts. */
  predicate ListEq(xs: seq<Row>, ys: seq<Row>) {
    |xs| == |ys| && forall i :: 0 <= i < |xs| ==> AsMap(xs[i]) == AsMap(ys[i])
  }

  // ---------------------------------------------------------------
  // Python's `<` on the sort keys
  // ---------------------------------------------------------------

  /** `a < b` on two Python strings: code point by code point. */
  predicate StrLt(a: string, b: string) {
    if a == [] then b != []
    else if b == [] then false
    else if a[0] != b[0] then a[0] < b[0]
    else StrLt(a[1..], b[1..])
  }

  /** `a < b` is defined (does not raise `TypeError`) for numbers against
      numbers and strings against strings. */
  predicate Orderable(a: Value, b: Value) {
    (a.Num? && b.Num?) || (a.Str? && b.Str?)
  }

  predicate ValueLt(a: Value, b: Value) {
    (a.Num? && b.Num? && a.n < b.n) || (a.Str? && b.Str? && StrLt(a.s, b.s))
  }

  /** Tuple `<` compares the first pair of elements that differ; it raises
      unless that pair is orderable. */
  predicate Comparable(x: seq<Value>, y: seq<Value>) {
    if x == [] || y == [] then true
    else if x[0] == y[0] then Comparable(x[1..], y[1..])
    else Orderable(x[0], y[0])
  }

  /** Tuple `x < y`: lexicographic, a proper prefix is smaller. */
  predicate TupleLt(x: seq<Value>, y: seq<Value>) {
    if x == [] then y != []
    else if y == [] then false
    else if x[0] != y[0] then ValueLt(x[0], y[0])
    else TupleLt(x[1..], y[1..])
  }

  lemma {:induction false} StrLtTotal(a: string, b: string)
    ensures StrLt(a, b) || a == b || StrLt(b, a)
    ensures !(StrLt(a, b) && StrLt(b, a))
    ensures !StrLt(a, a)
    decreases |a|
  {
    if a != [] && b != [] {
      StrLtTotal(a[1..], b[1..]);
      if a[0] == b[0] && a[1..] == b[1..] {
        assert a == [a[0]] + a[1..] && b == [b[0]] + b[1..];
      }
    }
    if a != [] {
      StrLtTotal(a[1..], a[1..]);
    }
  }

  lemma {:induction false} StrLtTrans(a: string, b: string, c: string)
    requires StrLt(a, b) && StrLt(b, c)
    ensures StrLt(a, c)
    decreases |a|
  {
    if a != [] && a[0] == b[0] && b[0] == c[0] {
      StrLtTrans(a[1..], b[1..], c[1..]);
    }
  }

  lemma ComparableSymmetric(x: seq<Value>, y: seq<Value>)
    requires Comparable(x, y)
    ensures Comparable(y, x)
  {
  }

  /** On comparable keys `<` is a strict total order: exactly one of
      `x < y`, `x == y`, `y < x` holds. */
  lemma {:induction false} TupleLtTotal(x: seq<Value>, y: seq<Value>)
    requires Comparable(x, y)
    ensures TupleLt(x, y) || x == y || TupleLt(y, x)
    ensures !(TupleLt(x, y) && TupleLt(y, x))
    decreases |x|
  {
    if x != [] && y != [] {
      if x[0] == y[0] {
        TupleLtTotal(x[1..], y[1..]);
        if x[1..] == y[1..] {
          assert x == [x[0]] + x[1..] && y == [y[0]] + y[1..];
        }
      } else if x[0].Str? {
        StrLtTotal(x[0].s, y[0].s);
      }
    }
  }

  lemma {:induction false} TupleLtIrreflexive(x: seq<Value>)
    ensures !TupleLt(x, x)
    decreases |x|
  {
    if x != [] {
      TupleLtIrreflexive(x[1..]);
    }
  }

  lemma {:induction false} TupleLtTrans(x: seq<Value>, y: seq<Value>, z: seq<Value>)
    requires Comparable(x, y) && Comparable(y, z)
    requires TupleLt(x, y) && TupleLt(y, z)
    ensures TupleLt(x, z)
    decreases |x|
  {
    if x != [] {
      assert y != [] && z != [];
      if x[0] == y[0] && y[0] == z[0] {
        TupleLtTrans(x[1..], y[1..], z[1..]);
      } else if x[0] != y[0] && y[0] != z[0] {
        if x[0].Str? {
          StrLtTrans(x[0].s, y[0].s, z[0].s);
          StrLtTotal(x[0].s, z[0].s);
        }
      }
    }
  }

  // ---------------------------------------------------------------
  // sorted(rows, key=lambda x: tuple(x.values()))
  // ---------------------------------------------------------------

  /** Every two sort keys of `rows` can be compared without `TypeError`. */
  predicate AllComparable(rows: seq<Row>) {
    forall a, b :: a in rows && b in rows ==> Comparable(Values(a), Values(b))
  }

  /** No later row has a smaller key than an earlier one. */
  predicate Sorted(rows: seq<Row>) {
    forall i, j :: 0 <= i < j < |rows| ==> !TupleLt(Values(rows[j]), Values(rows[i]))
  }

  /** Stable insertion of `x` after every row whose key is not greater. */
  function Insert(sorted: seq<Row>, x: Row): (r: seq<Row>)
    ensures multiset(r) == multiset(sorted) + multiset{x}
    ensures |r| == |sorted| + 1
  {
    if sorted == [] then [x]
    else
      var last := sorted[|sorted| - 1];
      var init := sorted[..|sorted| - 1];
      assert sorted == init + [last];
      if TupleLt(Values(x), Values(last)) then Insert(init, x) + [last]
      else sorted + [x]
  }

  /** A row no smaller than every row of a sorted list can follow it. */
  lemma SortedSnoc(r: seq<Row>, y: Row)
    requires Sorted(r)
    requires forall i :: 0 <= i < |r| ==> !TupleLt(Values(y), Values(r[i]))
    ensures Sorted(r + [y])
  {
    var s := r + [y];
    forall i, j | 0 <= i < j < |s| ensures !TupleLt(Values(s[j]), Values(s[i])) {
      assert s[i] == r[i];
      if j < |r| {
        assert s[j] == r[j];
      }
    }
  }

  /** The row that `x` goes before stays no smaller than everything the
      insertion into the rest produces. */
  lemma LastAboveInsert(init: seq<Row>, last: Row, x: Row)
    requires forall k :: 0 <= k < |init| ==> !TupleLt(Values(last), Values(init[k]))
    requires TupleLt(Values(x), Values(last)) && Comparable(Values(x), Values(last))
    ensures forall i :: 0 <= i < |Insert(init, x)| ==> !TupleLt(Values(last), Values(Insert(init, x)[i]))
  {
    var r := Insert(init, x);
    forall i | 0 <= i < |r| ensures !TupleLt(Values(last), Values(r[i])) {
      assert r[i] in multiset(r);
      assert r[i] in init || r[i] == x;
      if r[i] == x {
        TupleLtTotal(Values(x), Values(last));
      } else {
        var k :| 0 <= k < |init| && init[k] == r[i];
      }
    }
  }

  /** A row not below the last of a sorted list is below none of it. */
  lemma AboveLastAboveAll(sorted: seq<Row>, x: Row)
    requires sorted != [] && Sorted(sorted) && AllComparable(sorted + [x])
    requires !TupleLt(Values(x), Values(sorted[|sorted| - 1]))
    ensures forall i :: 0 <= i < |sorted| ==> !TupleLt(Values(x), Values(sorted[i]))
  {
    var last := sorted[|sorted| - 1];
    forall i | 0 <= i < |sorted| - 1 ensures !TupleLt(Values(x), Values(sorted[i])) {
      var y := sorted[i];
      assert y in sorted + [x] && last in sorted + [x];
      assert !TupleLt(Values(last), Values(y));
      TupleLtTotal(Values(y), Values(last));
      if TupleLt(Values(x), Values(y)) && TupleLt(Values(y), Values(last)) {
        TupleLtTrans(Values(x), Values(y), Values(last));
      }
    }
  }

  lemma {:induction false} InsertSorted(sorted: seq<Row>, x: Row)
    requires Sorted(sorted)
    requires AllComparable(sorted + [x])
    ensures Sorted(Insert(sorted, x))
    decreases |sorted|
  {
    if sorted != [] {
      var last := sorted[|sorted| - 1];
      var init := sorted[..|sorted| - 1];
      assert sorted == init + [last];
      if TupleLt(Values(x), Values(last)) {
        assert AllComparable(init + [x]) by {
          forall a | a in init + [x] ensures a in sorted + [x] {
          }
        }
        assert last in sorted + [x] && x in sorted + [x];
        InsertSorted(init, x);
        LastAboveInsert(init, last, x);
        SortedSnoc(Insert(init, x), last);
      } else {
        AboveLastAboveAll(sorted, x);
        SortedSnoc(sorted, x);
      }
    }
  }

  /** The model of `sorted`: insertion sort, stable like CPython's. */
  function SortRows(rows: seq<Row>): (r: seq<Row>)
    ensures multiset(r) == multiset(rows)
    ensures |r| == |rows|
  {
    if rows == [] then []
    else
      var init := rows[..|rows| - 1];
      assert rows == init + [rows[|rows| - 1]];
      Insert(SortRows(init), rows[|rows| - 1])
  }

  lemma {:induction false} SortRowsSorted(rows: seq<Row>)
    requires AllComparable(rows)
    ensures Sorted(SortRows(rows))
    decreases |rows|
  {
    if rows != [] {
      var init := rows[..|rows| - 1];
      var x := rows[|rows| - 1];
      assert rows == init + [x];
      assert AllComparable(init) by {
        forall a | a in init ensures a in rows {
        }
      }
      SortRowsSorted(init);
      var s := SortRows(init);
      assert AllComparable(s + [x]) by {
        forall a | a in s + [x] ensures a in rows {
          if a != x {
            assert a in multiset(s);
          }
        }
      }
      InsertSorted(s, x);
    }
  }

  /** The first rows of two sorted arrangements of the same rows agree. */
  lemma SortedHeads(s: seq<Row>, t: seq<Row>)
    requires s != [] && multiset(s) == multiset(t)
    requires Sorted(s) && Sorted(t)
    requires AllComparable(s) && KeyDetermines(s)
    ensures t != [] && s[0] == t[0]
  {
    assert s[0] in multiset(t) && t[0] in multiset(s);
    var k :| 0 <= k < |t| && t[k] == s[0];
    var m :| 0 <= m < |s| && s[m] == t[0];
    if k > 0 {
      assert !TupleLt(Values(t[k]), Values(t[0]));
    }
    if m > 0 {
      assert !TupleLt(Values(s[m]), Values(s[0]));
    }
    TupleLtIrreflexive(Values(s[0]));
    TupleLtTotal(Values(s[0]), Values(t[0]));
  }

  lemma MultisetTail(s: seq<Row>)
    requires s != []
    ensures multiset(s[1..]) == multiset(s) - multiset{s[0]}
  {
    assert s == [s[0]] + s[1..];
  }

  /** Two sorted arrangements of the same rows are identical when the sort
      key determines the row. */
  lemma {:induction false} SortedUnique(s: seq<Row>, t: seq<Row>)
    requires multiset(s) == multiset(t)
    requires Sorted(s) && Sorted(t)
    requires AllComparable(s) && KeyDetermines(s)
    ensures s == t
    decreases |s|
  {
    assert |s| == |multiset(s)| == |t|;
    if s != [] {
      SortedHeads(s, t);
      MultisetTail(s);
      MultisetTail(t);
      TailKeeps(s);
      TailKeeps(t);
      SortedUnique(s[1..], t[1..]);
      SameHeadSameTail(s, t);
    }
  }

  lemma SameHeadSameTail(s: seq<Row>, t: seq<Row>)
    requires s != [] && t != [] && s[0] == t[0] && s[1..] == t[1..]
    ensures s == t
  {
    assert s == [s[0]] + s[1..] && t == [t[0]] + t[1..];
  }

  /** Dropping the first row keeps a result sorted, comparable and keyed. */
  lemma TailKeeps(s: seq<Row>)
    requires s != []
    ensures Sorted(s) ==> Sorted(s[1..])
    ensures AllComparable(s) ==> AllComparable(s[1..])
    ensures KeyDetermines(s) ==> KeyDetermines(s[1..])
  {
    forall a | a in s[1..] ensures a in s {
    }
  }

  /** Sorting forgets the order it was given: permuting the input rows does
      not change the sorted output. */
  lemma SortPermutationInvariant(a: seq<Row>, b: seq<Row>)
    requires multiset(a) == multiset(b)
    requires AllComparable(a) && KeyDetermines(a)
    ensures AllComparable(b) && KeyDetermines(b)
    ensures SortRows(a) == SortRows(b)
  {
    assert forall x :: x in b <==> x in a by {
      forall x ensures x in b <==> x in a {
        assert x in b <==> x in multiset(b);
        assert x in a <==> x in multiset(a);
      }
    }
    SortRowsSorted(a);
    SortRowsSorted(b);
    var sa := SortRows(a);
    assert AllComparable(sa) && KeyDetermines(sa) by {
      forall x | x in sa ensures x in a {
        assert x in multiset(sa);
      }
    }
    SortedUnique(sa, SortRows(b));
  }

  // ---------------------------------------------------------------
  // The comparison step of the checker
  // ---------------------------------------------------------------

  datatype Compared = Equal | Unequal | Unorderable

  /** The order policy and the comparison of the checker: with
      `requiresOrder` the lists are compared as they are; otherwise both are
      sorted first, and a `TypeError` from the sort is reported as
      `Unorderable`. */
  function CompareResults(user: seq<Row>, solution: seq<Row>, requiresOrder: bool): (c: Compared)
    ensures requiresOrder ==> (c == Equal <==> ListEq(user, solution))
    ensures requiresOrder ==> c != Unorderable
    ensures c == Unorderable <==> !requiresOrder && !(AllComparable(user) && AllComparable(solution))
  {
    if requiresOrder then
      if ListEq(user, solution) then Equal else Unequal
    else if !AllComparable(user) || !AllComparable(solution) then Unorderable
    else if ListEq(SortRows(user), SortRows(solution)) then Equal else Unequal
  }

  /** Without the order requirement, any permutation of the learner's rows
      gets the same verdict. */
  lemma OrderInsensitiveComparison(user: seq<Row>, permuted: seq<Row>, solution: seq<Row>)
    requires multiset(user) == multiset(permuted)
    requires KeyDetermines(user)
    ensures CompareResults(permuted, solution, false) == CompareResults(user, solution, false)
  {
    assert forall x :: x in permuted <==> x in user by {
      forall x ensures x in permuted <==> x in user {
        assert x in permuted <==> x in multiset(permuted);
        assert x in user <==> x in multiset(user);
      }
    }
    if AllComparable(user) {
      SortPermutationInvariant(user, permuted);
    }
  }

  lemma ListEqReflexive(xs: seq<Row>)
    ensures ListEq(xs, xs)
  {
  }

  /** A permutation of the expected rows is accepted when order does not
      matter, provided the keys can be compared. */
  lemma PermutationOfSolutionMatches(user: seq<Row>, solution: seq<Row>)
    requires multiset(user) == multiset(solution)
    requires KeyDetermines(solution) && AllComparable(solution)
    ensures CompareResults(user, solution, false) == Equal
  {
    SortPermutationInvariant(solution, user);
    ListEqReflexive(SortRows(solution));
  }

  /** Lists of different lengths never match, under either policy. */
  lemma DifferentLengthsNeverMatch(user: seq<Row>, solution: seq<Row>, requiresOrder: bool)
    requires |user| != |solution|
    ensures CompareResults(user, solution, requiresOrder) != Equal
  {
  }

  // ---------------------------------------------------------------
  // What a match means, and the comparison the policy intends
  // ---------------------------------------------------------------

  /** The dicts of a result, each as often as it occurs, with row order and
      entry order forgotten. */
  function DictBag(rows: seq<Row>): multiset<map<string, Value>>
    decreases |rows|
  {
    if rows == [] then multiset{} else multiset{AsMap(rows[0])} + DictBag(rows[1..])
  }

  lemma {:induction false} DictBagAppend(a: seq<Row>, b: seq<Row>)
    ensures DictBag(a + b) == DictBag(a) + DictBag(b)
    decreases |a|
  {
    if a == [] {
      assert a + b == b;
    } else {
      assert (a + b)[0] == a[0] && (a + b)[1..] == a[1..] + b;
      DictBagAppend(a[1..], b);
    }
  }

  /** Taking row `k` out of a result takes its dict out of the bag. */
  lemma DictBagRemove(b: seq<Row>, k: nat)
    requires k < |b|
    ensures DictBag(b) == multiset{AsMap(b[k])} + DictBag(b[..k] + b[k + 1..])
  {
    var before, rest, after := b[..k], b[k..], b[k + 1..];
    assert b == before + rest;
    DictBagAppend(before, rest);
    assert rest[0] == b[k] && rest[1..] == after;
    DictBagAppend(before, after);
  }

  lemma MultisetRemove(b: seq<Row>, k: nat)
    requires k < |b|
    ensures multiset(b[..k] + b[k + 1..]) == multiset(b) - multiset{b[k]}
  {
    assert b == b[..k] + [b[k]] + b[k + 1..];
  }

  /** Rearranging the rows does not change their dicts. */
  lemma {:induction false} DictBagPermutation(a: seq<Row>, b: seq<Row>)
    requires multiset(a) == multiset(b)
    ensures DictBag(a) == DictBag(b)
    decreases |a|
  {
    if a != [] {
      assert a[0] in multiset(b);
      var k :| 0 <= k < |b| && b[k] == a[0];
      MultisetTail(a);
      MultisetRemove(b, k);
      DictBagPermutation(a[1..], b[..k] + b[k + 1..]);
      DictBagRemove(b, k);
    }
  }

  lemma {:induction false} ListEqSameBag(xs: seq<Row>, ys: seq<Row>)
    requires ListEq(xs, ys)
    ensures DictBag(xs) == DictBag(ys)
    decreases |xs|
  {
    if xs != [] {
      assert ListEq(xs[1..], ys[1..]) by {
        forall i | 0 <= i < |xs[1..]| ensures AsMap(xs[1..][i]) == AsMap(ys[1..][i]) {
          assert xs[1..][i] == xs[i + 1] && ys[1..][i] == ys[i + 1];
        }
      }
      ListEqSameBag(xs[1..], ys[1..]);
    }
  }

  /** A match, under either policy, means the two results hold the same
      dicts, each as often. */
  lemma MatchMeansSameDicts(user: seq<Row>, solution: seq<Row>, requiresOrder: bool)
    requires CompareResults(user, solution, requiresOrder) == Equal
    ensures DictBag(user) == DictBag(solution)
  {
    if requiresOrder {
      ListEqSameBag(user, solution);
    } else {
      ListEqSameBag(SortRows(user), SortRows(solution));
      DictBagPermutation(SortRows(user), user);
      DictBagPermutation(SortRows(solution), solution);
    }
  }

  /** A learner's `SELECT a, b` and a solution's `SELECT b, a` over the
      same two rows, in the same row order. */
  const LearnerAB: seq<Row> := [[("a", Num(1)), ("b", Num(2))], [("a", Num(2)), ("b", Num(1))]]
  const SolutionBA: seq<Row> := [[("b", Num(2)), ("a", Num(1))], [("b", Num(1)), ("a", Num(2))]]

  lemma AsMapTwo(r: Row)
    requires |r| == 2
    ensures AsMap(r) == map[r[1].0 := r[1].1][r[0].0 := r[0].1]
  {
    var tail := r[1..];
    assert tail[0] == r[1] && tail[1..] == [];
    assert AsMap(tail) == AsMap(tail[1..])[r[1].0 := r[1].1];
  }

  /** Both results hold the dicts `{a: 1, b: 2}` and `{a: 2, b: 1}`, in
      that order. */
  lemma SwappedColumnsSameDicts()
    ensures AsMap(LearnerAB[0]) == AsMap(SolutionBA[0]) == map["a" := Num(1), "b" := Num(2)]
    ensures AsMap(LearnerAB[1]) == AsMap(SolutionBA[1]) == map["a" := Num(2), "b" := Num(1)]
  {
    AsMapTwo(LearnerAB[0]);
    AsMapTwo(LearnerAB[1]);
    AsMapTwo(SolutionBA[0]);
    AsMapTwo(SolutionBA[1]);
  }

  lemma {:induction false} NumbersComparable(x: seq<Value>, y: seq<Value>)
    requires forall i :: 0 <= i < |x| ==> x[i].Num?
    requires forall i :: 0 <= i < |y| ==> y[i].Num?
    ensures Comparable(x, y)
    decreases |x|
  {
    if x != [] && y != [] && x[0] == y[0] {
      NumbersComparable(x[1..], y[1..]);
    }
  }

  /** Two rows of numbers can always be compared. */
  lemma NumberPairComparable(a: Row, b: Row)
    requires forall i :: 0 <= i < |a| ==> a[i].1.Num?
    requires forall i :: 0 <= i < |b| ==> b[i].1.Num?
    ensures AllComparable([a, b])
  {
    forall x, y | x in [a, b] && y in [a, b] ensures Comparable(Values(x), Values(y)) {
      NumbersComparable(Values(x), Values(y));
    }
  }

  /** Sorting keeps the learner's rows in place and swaps the solution's. */
  lemma LearnerABSort()
    ensures SortRows(LearnerAB) == LearnerAB
  {
    SortedPair(LearnerAB[0], LearnerAB[1]);
    assert Values(LearnerAB[0]) == [Num(1), Num(2)] && Values(LearnerAB[1]) == [Num(2), Num(1)];
    assert LearnerAB == [LearnerAB[0], LearnerAB[1]];
  }

  lemma SolutionBASort()
    ensures SortRows(SolutionBA) == [SolutionBA[1], SolutionBA[0]]
  {
    SortedPair(SolutionBA[0], SolutionBA[1]);
    assert Values(SolutionBA[0]) == [Num(2), Num(1)] && Values(SolutionBA[1]) == [Num(1), Num(2)];
    assert SolutionBA == [SolutionBA[0], SolutionBA[1]];
  }

  lemma SwappedColumnsMatchInOrder()
    ensures CompareResults(LearnerAB, SolutionBA, true) == Equal
  {
    SwappedColumnsSameDicts();
  }

  lemma SwappedColumnsMissUnordered()
    ensures CompareResults(LearnerAB, SolutionBA, false) == Unequal
  {
    SwappedColumnsSameDicts();
    var m0, m1 := map["a" := Num(1), "b" := Num(2)], map["a" := Num(2), "b" := Num(1)];
    assert m0 != m1 by {
      assert m0["a"] != m1["a"];
    }
    assert LearnerAB == [LearnerAB[0], LearnerAB[1]] && SolutionBA == [SolutionBA[0], SolutionBA[1]];
    NumberPairComparable(LearnerAB[0], LearnerAB[1]);
    NumberPairComparable(SolutionBA[0], SolutionBA[1]);
    LearnerABSort();
    SolutionBASort();
    assert AsMap(SortRows(LearnerAB)[0]) != AsMap(SortRows(SolutionBA)[0]);
  }

  lemma SwappedColumnsSameBag()
    ensures DictBag(LearnerAB) == DictBag(SolutionBA)
  {
    SwappedColumnsSameDicts();
    assert LearnerAB[1..][1..] == [] && SolutionBA[1..][1..] == [];
    assert LearnerAB[1..][0] == LearnerAB[1] && SolutionBA[1..][0] == SolutionBA[1];
  }

  /** With the order requirement the swapped columns are accepted, because
      dicts ignore entry order; without it they are rejected, because the
      sort keys `tuple(x.values())` follow the column order. Both results
      hold the same dicts. */
  lemma ColumnOrderDefeatsUnorderedMatch()
    ensures CompareResults(LearnerAB, SolutionBA, true) == Equal
    ensures CompareResults(LearnerAB, SolutionBA, false) == Unequal
    ensures DictBag(LearnerAB) == DictBag(SolutionBA)
  {
    SwappedColumnsMatchInOrder();
    SwappedColumnsMissUnordered();
    SwappedColumnsSameBag();
  }

  /** The sort of two rows: their order stays unless the second key is
      smaller. */
  lemma SortedPair(x: Row, y: Row)
    ensures SortRows([x, y]) == if TupleLt(Values(y), Values(x)) then [y, x] else [x, y]
  {
    assert [x, y][..1] == [x];
    assert [x][..0] == [];
  }

  /** A column holding `NULL` in one row and a number in the next. */
  const NullThenOne: seq<Row> := [[("a", Null)], [("a", Num(1))]]

  lemma NullThenOneNotComparable()
    ensures !AllComparable(NullThenOne)
  {
    var r0, r1 := NullThenOne[0], NullThenOne[1];
    assert Values(r0) == [Null] && Values(r1) == [Num(1)];
    assert !Comparable(Values(r0), Values(r1));
  }

  /** A column holding `NULL` beside a number makes the sort raise, even
      when the learner's rows are exactly the solution's. */
  lemma NullBesideNumberUnorderable()
    ensures CompareResults(NullThenOne, NullThenOne, true) == Equal
    ensures CompareResults(NullThenOne, NullThenOne, false) == Unorderable
  {
    NullThenOneNotComparable();
  }

  /** The comparison the order-insensitive policy evidently intends: the
      two results hold the same dicts, each as often; with the order
      requirement, the positional comparison as before. It never raises. */
  function CompareAsBags(user: seq<Row>, solution: seq<Row>, requiresOrder: bool): (c: Compared)
    ensures c != Unorderable
    ensures requiresOrder ==> (c == Equal <==> ListEq(user, solution))
  {
    if requiresOrder then
      if ListEq(user, solution) then Equal else Unequal
    else if DictBag(user) == DictBag(solution) then Equal else Unequal
  }

  /** Under the intended comparison, an answer accepted in order is
      accepted in any order, a match means the same dicts, and rearranging
      the learner's rows never changes the verdict. */
  lemma CompareAsBagsProperties(user: seq<Row>, permuted: seq<Row>, solution: seq<Row>)
    requires multiset(user) == multiset(permuted)
    ensures ListEq(user, solution) ==> CompareAsBags(user, solution, false) == Equal
    ensures CompareAsBags(user, solution, false) == Equal <==> DictBag(user) == DictBag(solution)
    ensures CompareAsBags(permuted, solution, false) == CompareAsBags(user, solution, false)
  {
    if ListEq(user, solution) {
      ListEqSameBag(user, solution);
    }
    DictBagPermutation(user, permuted);
  }
}
