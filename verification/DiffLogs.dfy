/**
 Signed-delta logs: rows ordered by (receiptAt, cause), listed a page at a time
 with a cursor naming the last row of the page, and summed over stretches of
 time. Instants are nanoseconds since Go's zero time.
 */
module DiffLogs {
  import opened Ordering
  import opened Sequences

  datatype Option<+T> = None | Some(value: T)

  datatype Row = Row(at: int, cause: string, delta: int)

  /** What a listing resumes after: an instant, or the key a cursor carries. */
  datatype Bound = Since(after: int) | Past(at: int, cause: string)

  datatype PageOf = PageOf(results: seq<Row>, cursor: Option<Bound>)

  predicate KeyLess(at: int, cause: string, at': int, cause': string) {
    at < at' || (at == at' && LexLess(cause, cause'))
  }

  predicate RowLess(a: Row, b: Row) {
    KeyLess(a.at, a.cause, b.at, b.cause)
  }

  predicate SameKey(a: Row, b: Row) {
    a.at == b.at && a.cause == b.cause
  }

  predicate Beyond(b: Bound, r: Row) {
    match b
    case Since(after) => r.at > after
    case Past(at, cause) => KeyLess(at, cause, r.at, r.cause)
  }

  ghost predicate Sorted(rows: seq<Row>) {
    forall i, j :: 0 <= i < j < |rows| ==> !RowLess(rows[j], rows[i])
  }

  /** Sorted, with no key twice. */
  ghost predicate StrictlySorted(rows: seq<Row>) {
    forall i, j :: 0 <= i < j < |rows| ==> RowLess(rows[i], rows[j])
  }

  predicate HasKey(rows: seq<Row>, at: int, cause: string) {
    exists i :: 0 <= i < |rows| && rows[i].at == at && rows[i].cause == cause
  }

  /** The log after one more row is appended and the log sorted again. */
  function Insert(rows: seq<Row>, row: Row): (r: seq<Row>)
    ensures |r| == |rows| + 1
  {
    if rows == [] || !RowLess(row, rows[|rows| - 1]) then rows + [row]
    else Insert(rows[..|rows| - 1], row) + [rows[|rows| - 1]]
  }

  /** The rows a bound leaves to list. */
  function Rest(rows: seq<Row>, b: Bound): (r: seq<Row>)
    ensures |r| <= |rows|
  {
    if rows == [] then []
    else
      Rest(rows[..|rows| - 1], b) + if Beyond(b, rows[|rows| - 1]) then [rows[|rows| - 1]] else []
  }

  function KeyOf(r: Row): Bound {
    Past(r.at, r.cause)
  }

  /** One listing: at most limit rows, and a cursor exactly when some are left. */
  function Page(rows: seq<Row>, b: Bound, limit: nat): PageOf
    requires limit > 0
  {
    var rest := Rest(rows, b);
    if |rest| > limit then PageOf(rest[..limit], Some(KeyOf(rest[limit - 1])))
    else PageOf(rest, None)
  }

  /** The sum of a weight over rows. */
  function SumOf(rows: seq<Row>, w: Row -> int): int {
    if rows == [] then 0 else SumOf(rows[..|rows| - 1], w) + w(rows[|rows| - 1])
  }

  /** The deltas of rows recorded at or after an instant. */
  function AtOrAfter(t: int): Row -> int {
    (r: Row) => if r.at >= t then r.delta else 0
  }

  /** The deltas of rows recorded before an instant. */
  function Before(t: int): Row -> int {
    (r: Row) => if r.at < t then r.delta else 0
  }

  /** The increases recorded in [lo, hi). */
  function Gained(lo: int, hi: int): Row -> int {
    (r: Row) => if lo <= r.at < hi && r.delta > 0 then r.delta else 0
  }

  function Delta(): Row -> int {
    (r: Row) => r.delta
  }

  /** The rows that move a sum. */
  function Core(rows: seq<Row>): seq<Row> {
    if rows == [] then []
    else
      Core(rows[..|rows| - 1]) + if rows[|rows| - 1].delta != 0 then [rows[|rows| - 1]] else []
  }

  /** A weight that cannot see rows of delta zero, nor rows a bound leaves out. */
  ghost predicate Blind(w: Row -> int, b: Bound) {
    forall r: Row :: r.delta == 0 || !Beyond(b, r) ==> w(r) == 0
  }

  // ----- key order

  lemma {:induction false} KeyOrder(a: Row, b: Row, c: Row)
    ensures !RowLess(a, a)
    ensures RowLess(a, b) && RowLess(b, c) ==> RowLess(a, c)
    ensures RowLess(a, b) || RowLess(b, a) || SameKey(a, b)
    ensures RowLess(a, b) ==> !RowLess(b, a) && !SameKey(a, b)
  {
    LexIrreflexive(a.cause);
    LexTotal(a.cause, b.cause);
    if LexLess(a.cause, b.cause) {
      if LexLess(b.cause, c.cause) { LexTransitive(a.cause, b.cause, c.cause); }
      if LexLess(b.cause, a.cause) { LexTransitive(a.cause, b.cause, a.cause); }
    }
  }

  /** A bound is crossed once: what sorts after a row beyond it is beyond it too. */
  lemma {:induction false} BeyondUpward(b: Bound, r: Row, s: Row)
    requires Beyond(b, r) && RowLess(r, s)
    ensures Beyond(b, s)
  {
    if b.Past? { KeyOrder(Row(b.at, b.cause, 0), r, s); }
  }

  // ----- inserting

  lemma {:induction false} InsertSplits(rows: seq<Row>, row: Row) returns (k: nat)
    requires StrictlySorted(rows)
    ensures k <= |rows| && Insert(rows, row) == rows[..k] + [row] + rows[k..]
    ensures forall i :: 0 <= i < k ==> !RowLess(row, rows[i])
    ensures forall i :: k <= i < |rows| ==> RowLess(row, rows[i])
  {
    if rows == [] {
      k := 0;
    } else {
      var last := rows[|rows| - 1];
      if RowLess(row, last) {
        k := InsertSplits(rows[..|rows| - 1], row);
        assert rows[k..] == rows[..|rows| - 1][k..] + [last];
        assert rows[..|rows| - 1][..k] == rows[..k];
      } else {
        k := |rows|;
        assert rows[k..] == [];
        forall i | 0 <= i < k ensures !RowLess(row, rows[i]) {
          if RowLess(row, rows[i]) { KeyOrder(row, rows[i], last); }
        }
      }
    }
  }

  /** Inserting a fresh key keeps the log strictly sorted and adds just that row. */
  lemma {:induction false} InsertFresh(rows: seq<Row>, row: Row)
    requires StrictlySorted(rows) && !HasKey(rows, row.at, row.cause)
    ensures StrictlySorted(Insert(rows, row))
  {
    var k := InsertSplits(rows, row);
    forall i | 0 <= i < k ensures RowLess(rows[i], row) { KeyOrder(rows[i], row, row); }
  }

  lemma {:induction false} InsertMember(rows: seq<Row>, row: Row)
    ensures forall x :: x in Insert(rows, row) <==> x in rows || x == row
  {
    if rows != [] && RowLess(row, rows[|rows| - 1]) {
      InsertMember(rows[..|rows| - 1], row);
      assert rows == rows[..|rows| - 1] + [rows[|rows| - 1]];
    }
  }

  lemma {:induction false} InsertSum(rows: seq<Row>, row: Row, w: Row -> int)
    ensures SumOf(Insert(rows, row), w) == SumOf(rows, w) + w(row)
  {
    if rows == [] || !RowLess(row, rows[|rows| - 1]) {
      assert (rows + [row])[..|rows|] == rows;
    } else {
      InsertSum(rows[..|rows| - 1], row, w);
      var head := Insert(rows[..|rows| - 1], row);
      assert (head + [rows[|rows| - 1]])[..|head|] == head;
    }
  }

  lemma {:induction false} InsertZero(rows: seq<Row>, row: Row)
    requires row.delta == 0
    ensures Core(Insert(rows, row)) == Core(rows)
  {
    if rows == [] || !RowLess(row, rows[|rows| - 1]) {
      assert (rows + [row])[..|rows|] == rows;
    } else {
      InsertZero(rows[..|rows| - 1], row);
      var head := Insert(rows[..|rows| - 1], row);
      assert (head + [rows[|rows| - 1]])[..|head|] == head;
    }
  }

  // ----- sums

  lemma {:induction false} SumAppend(a: seq<Row>, b: seq<Row>, w: Row -> int)
    ensures SumOf(a + b, w) == SumOf(a, w) + SumOf(b, w)
  {
    if b == [] {
      assert a + b == a;
    } else {
      SumAppend(a, b[..|b| - 1], w);
      assert (a + b)[..|a + b| - 1] == a + b[..|b| - 1];
    }
  }

  /** Weights that add up row by row add up over the log. */
  lemma {:induction false} SumAdds(rows: seq<Row>, u: Row -> int, v: Row -> int, w: Row -> int)
    requires forall r :: r in rows ==> u(r) + v(r) == w(r)
    ensures SumOf(rows, u) + SumOf(rows, v) == SumOf(rows, w)
  {
    if rows != [] { SumAdds(rows[..|rows| - 1], u, v, w); }
  }

  lemma {:induction false} SumVanishes(rows: seq<Row>, w: Row -> int)
    requires forall r :: r in rows ==> w(r) == 0
    ensures SumOf(rows, w) == 0
  {
    if rows != [] { SumVanishes(rows[..|rows| - 1], w); }
  }

  lemma {:induction false} SumSnoc(rows: seq<Row>, x: Row, w: Row -> int)
    ensures SumOf(rows + [x], w) == SumOf(rows, w) + w(x)
  {
    assert (rows + [x])[..|rows|] == rows;
  }

  lemma {:induction false} RestSnoc(rows: seq<Row>, x: Row, b: Bound)
    ensures Rest(rows + [x], b) == if Beyond(b, x) then Rest(rows, b) + [x] else Rest(rows, b)
  {
    assert (rows + [x])[..|rows|] == rows;
  }

  lemma {:induction false} CoreSnoc(rows: seq<Row>, x: Row)
    ensures Core(rows + [x]) == if x.delta != 0 then Core(rows) + [x] else Core(rows)
  {
    assert (rows + [x])[..|rows|] == rows;
  }

  /** A blind weight sees only the moving rows beyond the bound. */
  lemma {:induction false} SumBlind(rows: seq<Row>, w: Row -> int, b: Bound)
    requires Blind(w, b)
    ensures SumOf(rows, w) == SumOf(Core(rows), w)
    ensures SumOf(rows, w) == SumOf(Rest(rows, b), w)
  {
    if rows != [] {
      var init, last := rows[..|rows| - 1], rows[|rows| - 1];
      SumBlind(init, w, b);
      hide SumOf, Core, Rest;
      assert rows == init + [last];
      CoreSnoc(init, last);
      RestSnoc(init, last, b);
      SumSnoc(init, last, w);
      SumSnoc(Core(init), last, w);
      SumSnoc(Rest(init, b), last, w);
    }
  }

  // ----- paging

  lemma {:induction false} Associates(x: seq<Row>, y: seq<Row>, z: seq<Row>)
    ensures x + (y + z) == x + y + z
  {
  }

  lemma {:induction false} RestAppend(a: seq<Row>, c: seq<Row>, b: Bound)
    ensures Rest(a + c, b) == Rest(a, b) + Rest(c, b)
  {
    if c == [] {
      assert a + c == a;
    } else {
      var init, x := c[..|c| - 1], c[|c| - 1];
      RestAppend(a, init, b);
      hide Rest;
      assert c == init + [x];
      Associates(a, init, [x]);
      RestSnoc(a + init, x, b);
      RestSnoc(init, x, b);
      Associates(Rest(a, b), Rest(init, b), [x]);
    }
  }

  lemma {:induction false} CoreAppend(a: seq<Row>, c: seq<Row>)
    ensures Core(a + c) == Core(a) + Core(c)
  {
    if c == [] {
      assert a + c == a;
    } else {
      var init, x := c[..|c| - 1], c[|c| - 1];
      CoreAppend(a, init);
      hide Core;
      assert c == init + [x];
      Associates(a, init, [x]);
      CoreSnoc(a + init, x);
      CoreSnoc(init, x);
      Associates(Core(a), Core(init), [x]);
    }
  }

  lemma {:induction false} RestCore(rows: seq<Row>, b: Bound)
    ensures Core(Rest(rows, b)) == Rest(Core(rows), b)
  {
    if rows != [] {
      var init, x := rows[..|rows| - 1], rows[|rows| - 1];
      RestCore(init, b);
      hide Core, Rest;
      assert rows == init + [x];
      CoreSnoc(init, x);
      RestSnoc(init, x, b);
      CoreSnoc(Rest(init, b), x);
      RestSnoc(Core(init), x, b);
    }
  }

  lemma {:induction false} RestAll(rows: seq<Row>, b: Bound)
    ensures (forall r :: r in rows ==> Beyond(b, r)) ==> Rest(rows, b) == rows
    ensures (forall r :: r in rows ==> !Beyond(b, r)) ==> Rest(rows, b) == []
  {
    if rows != [] {
      RestAll(rows[..|rows| - 1], b);
      assert rows == rows[..|rows| - 1] + [rows[|rows| - 1]];
    }
  }

  lemma {:induction false} RestMember(rows: seq<Row>, b: Bound)
    ensures forall r :: r in Rest(rows, b) <==> r in rows && Beyond(b, r)
  {
    if rows != [] {
      RestMember(rows[..|rows| - 1], b);
      assert rows == rows[..|rows| - 1] + [rows[|rows| - 1]];
    }
  }

  lemma {:induction false} TailSnoc<T>(init: seq<T>, last: T, k: nat)
    requires k <= |init|
    ensures (init + [last])[k..] == init[k..] + [last]
  {
  }

  lemma {:induction false} NoneBeyond(rows: seq<Row>, b: Bound)
    requires StrictlySorted(rows) && rows != [] && !Beyond(b, rows[|rows| - 1])
    ensures Rest(rows, b) == []
  {
    forall r | r in rows ensures !Beyond(b, r) {
      if Beyond(b, r) && r != rows[|rows| - 1] { BeyondUpward(b, r, rows[|rows| - 1]); }
    }
    RestAll(rows, b);
  }

  /** In a sorted log the rows beyond a bound are its tail. */
  lemma {:induction false} RestIsTail(rows: seq<Row>, b: Bound)
    requires StrictlySorted(rows)
    ensures Rest(rows, b) == rows[|rows| - |Rest(rows, b)|..]
  {
    if rows != [] {
      var init, last := rows[..|rows| - 1], rows[|rows| - 1];
      if Beyond(b, last) {
        RestIsTail(init, b);
        hide Rest;
        assert rows == init + [last];
        RestSnoc(init, last, b);
        TailSnoc(init, last, |init| - |Rest(init, b)|);
      } else {
        NoneBeyond(rows, b);
      }
    }
  }

  lemma {:induction false} HeadNotBeyondKey(rows: seq<Row>, j: nat, r: Row)
    requires StrictlySorted(rows) && j < |rows| && r in rows[..j + 1]
    ensures !Beyond(KeyOf(rows[j]), r)
  {
    var i :| 0 <= i <= j && rows[i] == r;
    KeyOrder(r, rows[j], r);
    KeyOrder(rows[j], r, r);
  }

  lemma {:induction false} TailBeyondKey(rows: seq<Row>, j: nat)
    requires StrictlySorted(rows) && j < |rows|
    ensures Rest(rows, KeyOf(rows[j])) == rows[j + 1..]
  {
    hide Rest;
    var key, head, tail := KeyOf(rows[j]), rows[..j + 1], rows[j + 1..];
    forall r | r in head ensures !Beyond(key, r) { HeadNotBeyondKey(rows, j, r); }
    RestAll(head, key);
    forall r | r in tail ensures Beyond(key, r) {
      var i :| j < i < |rows| && rows[i] == r;
      assert RowLess(rows[j], rows[i]);
    }
    RestAll(tail, key);
    assert rows == head + tail;
    RestAppend(head, tail, key);
  }

  /** Resuming past a listed row drops the listing up to that row and nothing else. */
  lemma {:induction false} PageResumes(rows: seq<Row>, b: Bound, n: nat)
    requires StrictlySorted(rows) && 0 < n <= |Rest(rows, b)|
    ensures Rest(rows, KeyOf(Rest(rows, b)[n - 1])) == Rest(rows, b)[n..]
  {
    RestIsTail(rows, b);
    TailBeyondKey(rows, |rows| - |Rest(rows, b)| + n - 1);
  }

  lemma {:induction false} RestNarrows(rows: seq<Row>, b: Bound, b': Bound, w: Row)
    requires forall r :: Beyond(b', r) ==> Beyond(b, r)
    ensures |Rest(rows, b')| <= |Rest(rows, b)|
    ensures w in rows && Beyond(b, w) && !Beyond(b', w) ==> |Rest(rows, b')| < |Rest(rows, b)|
  {
    if rows != [] {
      RestNarrows(rows[..|rows| - 1], b, b', w);
      assert rows == rows[..|rows| - 1] + [rows[|rows| - 1]];
    }
  }

  /** Resuming after a listed row always leaves less to list. */
  lemma {:induction false} CursorProgresses(rows: seq<Row>, b: Bound, limit: nat)
    requires 0 < limit <= |Rest(rows, b)|
    ensures |Rest(rows, KeyOf(Rest(rows, b)[limit - 1]))| < |Rest(rows, b)|
  {
    var last := Rest(rows, b)[limit - 1];
    assert last in Rest(rows, b);
    RestMember(rows, b);
    KeyOrder(last, last, last);
    forall r | Beyond(KeyOf(last), r) ensures Beyond(b, r) { BeyondUpward(b, last, r); }
    RestNarrows(rows, b, KeyOf(last), last);
  }

  /** The rows a bound leaves are those later than its instant, or than its key, in their order. */
  lemma {:induction false} RestAre(rows: seq<Row>, b: Bound) returns (idx: seq<nat>)
    ensures PlacesOf(idx, |rows|) && |idx| == |Rest(rows, b)|
    ensures forall a :: 0 <= a < |idx| ==> Rest(rows, b)[a] == rows[idx[a]]
    ensures b.Since? ==> forall i :: 0 <= i < |rows| ==> (i in idx <==> rows[i].at > b.after)
    ensures b.Past? ==>
              forall i :: 0 <= i < |rows| ==>
                (i in idx <==> rows[i].at > b.at || (rows[i].at == b.at && LexLess(b.cause, rows[i].cause)))
  {
    idx := [];
    if rows != [] {
      var n := |rows| - 1;
      idx := RestAre(rows[..n], b);
      PlacesSnoc(idx, n);
      hide LexLess;
      if Beyond(b, rows[n]) { idx := idx + [n]; }
    }
  }

  /** A page is the front of what is left, up to the limit, and its cursor the key of its last row if some are left. */
  lemma {:induction false} PageIs(rows: seq<Row>, b: Bound, limit: nat)
    requires limit > 0
    ensures Page(rows, b, limit).results <= Rest(rows, b)
    ensures |Page(rows, b, limit).results| == if |Rest(rows, b)| > limit then limit else |Rest(rows, b)|
    ensures Page(rows, b, limit).cursor.Some? <==> |Rest(rows, b)| > limit
    ensures Page(rows, b, limit).cursor.Some? ==>
              var last := Rest(rows, b)[limit - 1];
              Page(rows, b, limit).cursor.value == Past(last.at, last.cause)
  {
  }

  /** Every row a cursor loop collects over a fixed log. */
  function Pages(rows: seq<Row>, b: Bound, limit: nat): seq<Row>
    requires limit > 0
    decreases |Rest(rows, b)|
  {
    var page := Page(rows, b, limit);
    if page.cursor.None? then page.results
    else
      CursorProgresses(rows, b, limit);
      page.results + Pages(rows, page.cursor.value, limit)
  }

  /** Listing past a further bound lists from what a nearer one leaves. */
  lemma {:induction false} RestNested(rows: seq<Row>, b: Bound, b': Bound)
    requires forall r :: Beyond(b', r) ==> Beyond(b, r)
    ensures Rest(rows, b') == Rest(Rest(rows, b), b')
  {
    if rows != [] {
      var init, x := rows[..|rows| - 1], rows[|rows| - 1];
      RestNested(init, b, b');
      hide Rest;
      assert rows == init + [x];
      RestSnoc(init, x, b);
      RestSnoc(init, x, b');
      RestSnoc(Rest(init, b), x, b');
    }
  }

  /** What resuming past the listed row at j leaves is found among what was left. */
  lemma {:induction false} ResumesWithin(rows: seq<Row>, b: Bound, j: nat)
    requires j < |Rest(rows, b)|
    ensures Rest(rows, KeyOf(Rest(rows, b)[j])) == Rest(Rest(rows, b), KeyOf(Rest(rows, b)[j]))
  {
    var x := Rest(rows, b)[j];
    assert x in Rest(rows, b);
    RestMember(rows, b);
    forall r | Beyond(KeyOf(x), r) ensures Beyond(b, r) { BeyondUpward(b, x, r); }
    RestNested(rows, b, KeyOf(x));
  }

  /** Where the rows to list have distinct keys, the cursor loop collects each once, in order. */
  lemma {:induction false} PagesExact(rows: seq<Row>, b: Bound, limit: nat)
    requires StrictlySorted(Rest(rows, b)) && limit > 0
    ensures Pages(rows, b, limit) == Rest(rows, b)
    decreases |Rest(rows, b)|
  {
    var rest := Rest(rows, b);
    if |rest| > limit {
      ResumesWithin(rows, b, limit - 1);
      TailBeyondKey(rest, limit - 1);
      PagesExact(rows, KeyOf(rest[limit - 1]), limit);
      assert rest == rest[..limit] + rest[limit..];
    }
  }

  /** Rows up to some place that are not beyond a bound leave at most the others. */
  lemma {:induction false} RestLength(rows: seq<Row>, b: Bound, n: nat)
    requires n <= |rows|
    ensures (forall i :: 0 <= i < n ==> !Beyond(b, rows[i])) ==> |Rest(rows, b)| <= |rows| - n
  {
    if forall i :: 0 <= i < n ==> !Beyond(b, rows[i]) {
      assert rows == rows[..n] + rows[n..];
      RestAppend(rows[..n], rows[n..], b);
      RestAll(rows[..n], b);
    }
  }

  lemma {:induction false} RestSorted(rows: seq<Row>, b: Bound)
    requires Sorted(rows)
    ensures Sorted(Rest(rows, b))
  {
    if rows != [] {
      var init, x := rows[..|rows| - 1], rows[|rows| - 1];
      RestSorted(init, b);
      RestMember(init, b);
      forall i | 0 <= i < |Rest(init, b)| ensures !RowLess(x, Rest(init, b)[i]) {
        assert Rest(init, b)[i] in Rest(init, b);
        var j :| 0 <= j < |init| && init[j] == Rest(init, b)[i];
        assert rows[j] == init[j];
      }
    }
  }

  /** A listing resumed past its n-th row leaves at most the rows after it. */
  lemma {:induction false} ResumesAfter(rows: seq<Row>, b: Bound, n: nat)
    requires Sorted(rows) && 0 < n <= |Rest(rows, b)|
    ensures |Rest(rows, KeyOf(Rest(rows, b)[n - 1]))| <= |Rest(rows, b)| - n
    ensures n < |Rest(rows, b)| && SameKey(Rest(rows, b)[n - 1], Rest(rows, b)[n]) ==>
              |Rest(rows, KeyOf(Rest(rows, b)[n - 1]))| < |Rest(rows, b)| - n
  {
    var rest := Rest(rows, b);
    RestSorted(rows, b);
    ResumesWithin(rows, b, n - 1);
    var key := KeyOf(rest[n - 1]);
    KeyOrder(rest[n - 1], rest[n - 1], rest[n - 1]);
    RestLength(rest, key, n);
    if n < |rest| && SameKey(rest[n - 1], rest[n]) { RestLength(rest, key, n + 1); }
  }

  lemma {:induction false} PagesAtMost(rows: seq<Row>, b: Bound, limit: nat)
    requires Sorted(rows) && limit > 0
    ensures |Pages(rows, b, limit)| <= |Rest(rows, b)|
    decreases |Rest(rows, b)|
  {
    if |Rest(rows, b)| > limit {
      CursorProgresses(rows, b, limit);
      PagesAtMost(rows, KeyOf(Rest(rows, b)[limit - 1]), limit);
      ResumesAfter(rows, b, limit);
    }
  }

  /** Two neighbours of one key lose a row to the page boundary between them. */
  lemma {:induction false} TwinsLost(rows: seq<Row>, b: Bound, n: nat)
    requires Sorted(rows) && 0 < n < |Rest(rows, b)| && SameKey(Rest(rows, b)[n - 1], Rest(rows, b)[n])
    ensures |Pages(rows, b, n)| < |Rest(rows, b)|
  {
    CursorProgresses(rows, b, n);
    ResumesAfter(rows, b, n);
    PagesAtMost(rows, KeyOf(Rest(rows, b)[n - 1]), n);
  }

  lemma {:induction false} NeighboursSuffice(rows: seq<Row>)
    requires Sorted(rows) && forall n :: 0 < n < |rows| ==> !SameKey(rows[n - 1], rows[n])
    ensures StrictlySorted(rows)
  {
    if rows != [] {
      var init, x := rows[..|rows| - 1], rows[|rows| - 1];
      forall n | 0 < n < |init| ensures !SameKey(init[n - 1], init[n]) { assert !SameKey(rows[n - 1], rows[n]); }
      NeighboursSuffice(init);
      forall i | 0 <= i < |init| ensures RowLess(rows[i], x) {
        var y := rows[|rows| - 2];
        KeyOrder(y, x, x);
        KeyOrder(rows[i], y, x);
        assert i < |init| - 1 ==> RowLess(init[i], init[|init| - 1]);
      }
    }
  }

  ghost predicate PagesAnyWay(rows: seq<Row>, b: Bound) {
    forall limit: nat :: limit > 0 ==> Pages(rows, b, limit) == Rest(rows, b)
  }

  /**
   Over a fixed sorted log the cursor loop collects exactly the rows beyond the bound,
   whatever the page size, if and only if no two of them share a key.
   */
  lemma {:induction false} PagingExact(rows: seq<Row>, b: Bound)
    requires Sorted(rows)
    ensures PagesAnyWay(rows, b) <==> StrictlySorted(Rest(rows, b))
  {
    RestSorted(rows, b);
    if StrictlySorted(Rest(rows, b)) {
      forall limit: nat | limit > 0 ensures Pages(rows, b, limit) == Rest(rows, b) { PagesExact(rows, b, limit); }
    } else if n :| 0 < n < |Rest(rows, b)| && SameKey(Rest(rows, b)[n - 1], Rest(rows, b)[n]) {
      TwinsLost(rows, b, n);
    } else {
      NeighboursSuffice(Rest(rows, b));
    }
  }
}
