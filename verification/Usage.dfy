/**
 Usage series: a space's logs unwound from what it holds now into one sample a
 window. Instants and windows are nanoseconds; word arithmetic wraps as the
 program's does, and the sums it stands for are stated over integers.
 */
module Usage {
  import opened Words
  import opened DiffLogs
  import opened Accounting
  import opened Postgres
  import opened Reader

  const MAX_SAMPLES := 2048
  const MAX_WINDOW := 366 * 24 * 3600 * SECOND

  /** Seconds from Go's zero time to the Unix epoch. */
  const UNIX_EPOCH := 62135596800

  /** The days of the years 1 to 1969. */
  const DAYS_TO_1970 := 1969 * 365 + 1969 / 4 - 1969 / 100 + 1969 / 400

  /** Where a unix timestamp lies: so many whole days after the zero time, and its own seconds. */
  function AtUnix(s: int): int {
    (DAYS_TO_1970 * 24 * 3600 + s) * 1_000_000_000
  }

  datatype Sample = Sample(end: int, bytesStored: Word, bytesIngested: Word, uploadCount: Word)

  datatype Series = Series(from: int, to: int, window: int, samples: seq<Sample>)

  datatype Failure = InvalidRange | InvalidWindow | TooManySamples(n: int) | Busy | UsageUnstable | CountersInconsistent

  datatype Response<+T> = Ok(value: T) | Err(error: Failure)

  datatype Query = Query(from: int, to: int, window: int)

  /** Validates a query given as unix timestamps and a number of seconds. */
  function ParseRange(from: int, to: int, window: int): (r: Response<Query>)
    ensures r.Ok? <==> 0 < from < to && 0 < window <= 366 * 24 * 3600
    ensures r.Ok? ==> r.value == Query(AtUnix(from), AtUnix(to), window * 1_000_000_000)
    ensures r.Ok? ==> 0 < r.value.from < r.value.to && 0 < r.value.window <= MAX_WINDOW
    ensures r.Err? ==> r.error == if 0 < from < to then InvalidWindow else InvalidRange
  {
    if from <= 0 || to <= 0 || to <= from then Err(InvalidRange)
    else if window <= 0 || window > MAX_WINDOW / SECOND then Err(InvalidWindow)
    else Ok(Query((UNIX_EPOCH + from) * SECOND, (UNIX_EPOCH + to) * SECOND, window * SECOND))
  }

  /** The time between two instants, as far as a duration can express it. */
  function Sub(t: int, u: int): int {
    if t - u > MAX_INT64 then MAX_INT64 else if t - u < MIN_INT64 then MIN_INT64 else t - u
  }

  // ----- buckets

  /** A range cut into windows. */
  datatype Grid = Grid(from: int, to: int, window: int) {
    ghost predicate Valid() {
      window > 0 && from < to
    }

    /** How many windows cover the range. */
    function Buckets(): int
      requires window > 0
    {
      (to - from) / window + if (to - from) % window != 0 then 1 else 0
    }

    /** Where bucket k opens and bucket k - 1 closes, reached a window at a time. */
    function Edge(k: nat): int {
      if k == 0 then from else Min(Edge(k - 1) + window, to)
    }
  }

  lemma {:induction false} DivAtLeast(x: int, w: int, k: int)
    requires w > 0
    ensures x / w >= k <==> x >= k * w
  {
    assert x == w * (x / w) + x % w;
    assert x / w >= k ==> w * (x / w) >= w * k;
    assert x / w <= k - 1 ==> w * (x / w) <= w * (k - 1);
  }

  /** The last window may be short; every other is whole. */
  lemma {:induction false} WindowsCover(g: Grid)
    requires g.Valid()
    ensures var n := g.Buckets(); n > 0 && (n - 1) * g.window < g.to - g.from <= n * g.window
  {
    var span, w, n := g.to - g.from, g.window, g.Buckets();
    assert span == w * (span / w) + span % w;
    DivAtLeast(span, w, 0);
    DivAtLeast(span, w, n);
    DivAtLeast(span, w, n - 1);
    assert (n - 1) * w + w == n * w;
    assert (span / w) * w == w * (span / w);
    assert n <= 0 ==> n * w <= 0;
  }

  /** Edges accumulated are edges multiplied out. */
  lemma {:induction false} EdgeClosed(g: Grid, k: nat)
    requires g.Valid()
    ensures g.Edge(k) == Min(g.from + k * g.window, g.to)
  {
    if k > 0 {
      EdgeClosed(g, k - 1);
      assert k * g.window == (k - 1) * g.window + g.window;
    }
  }

  lemma {:induction false} EdgesAscend(g: Grid, j: nat, k: nat)
    requires g.Valid() && j <= k
    ensures g.from <= g.Edge(j) <= g.Edge(k) <= g.to
    decreases k
  {
    if j < k { EdgesAscend(g, j, k - 1); } else if k > 0 { EdgesAscend(g, k - 1, k - 1); }
  }

  /**
   A series is dense: its buckets are a window long, except that the last may be
   shorter, none is empty, and together they cover the range.
   */
  lemma {:induction false} Dense(g: Grid, k: nat)
    requires g.Valid() && k < g.Buckets()
    ensures g.Edge(k) < g.Edge(k + 1)
    ensures k + 1 < g.Buckets() ==> g.Edge(k + 1) == g.Edge(k) + g.window
    ensures k + 1 == g.Buckets() ==> g.Edge(k + 1) == g.to
  {
    var n := g.Buckets();
    WindowsCover(g);
    EdgeClosed(g, k);
    EdgeClosed(g, k + 1);
    Scaled(k, n - 1, g.window);
    Scaled(k + 1, n - 1, g.window);
    assert (k + 1) * g.window == k * g.window + g.window;
  }

  lemma {:induction false} Scaled(i: int, j: int, w: int)
    requires w > 0
    ensures i <= j ==> i * w <= j * w
  {
    assert i <= j ==> 0 <= (j - i) * w == j * w - i * w;
  }

  /** Every instant of the range indexes the bucket whose edges hold it. */
  lemma {:induction false} BucketOf(g: Grid, at: int)
    requires g.Valid() && g.from <= at < g.to
    ensures var k := (at - g.from) / g.window; k >= 0 && g.Edge(k) <= at < g.Edge(k + 1)
  {
    var w, k := g.window, (at - g.from) / g.window;
    DivAtLeast(at - g.from, w, 0);
    DivAtLeast(at - g.from, w, k);
    DivAtLeast(at - g.from, w, k + 1);
    EdgeClosed(g, k);
    EdgeClosed(g, k + 1);
  }

  /** The deltas of rows recorded in [lo, hi). */
  function Between(lo: int, hi: int): Row -> int {
    (r: Row) => if lo <= r.at < hi then r.delta else 0
  }

  /** What a bucket changed and what follows it make up what follows its start. */
  lemma {:induction false} BucketSplits(rows: seq<Row>, lo: int, hi: int)
    requires lo <= hi
    ensures SumOf(rows, Between(lo, hi)) + SumOf(rows, AtOrAfter(hi)) == SumOf(rows, AtOrAfter(lo))
  {
    SumAdds(rows, Between(lo, hi), AtOrAfter(hi), AtOrAfter(lo));
  }

  // ----- replaying a reading

  function Floor(x: int): Word
    requires x <= MAX_INT64
  {
    if x < 0 then 0 else x
  }

  /** What was held at an instant: what is held less everything recorded at or after it. */
  function HeldAt(total: int, rows: seq<Row>, t: int): int {
    Int64(total - SumOf(rows, AtOrAfter(t)))
  }

  function SampleAt(r: Reading, g: Grid, k: nat): Sample
    requires r.Reading?
  {
    Sample(g.Edge(k + 1),
           Floor(HeldAt(r.storedBytes, r.byteRows, g.Edge(k + 1))),
           UInt64(SumOf(r.byteRows, Gained(g.Edge(k), g.Edge(k + 1)))),
           Floor(HeldAt(r.uploads, r.uploadRows, g.Edge(k + 1))))
  }

  /** The samples a reading stands for. */
  function SamplesOf(r: Reading, g: Grid, n: nat): seq<Sample>
    requires r.Reading?
  {
    seq(n, k requires k >= 0 => SampleAt(r, g, k))
  }

  /** What some rows change in bucket k, and how much of it is increase. */
  ghost predicate InBucket(rows: seq<Row>, g: Grid, k: nat, delta: int, gained: int) {
    && delta == Int64(SumOf(rows, Between(g.Edge(k), g.Edge(k + 1))))
    && gained == UInt64(SumOf(rows, Gained(g.Edge(k), g.Edge(k + 1))))
  }

  /** Some rows tallied bucket by bucket, and those at or after the range apart. */
  ghost predicate Tallied(rows: seq<Row>, g: Grid, deltas: seq<int>, gained: seq<Word>, tail: int) {
    && |deltas| == |gained|
    && (forall k :: 0 <= k < |deltas| ==> InBucket(rows, g, k, deltas[k], gained[k]))
    && tail == Int64(SumOf(rows, AtOrAfter(g.to)))
  }

  lemma {:induction false} WrappedSum(rows: seq<Row>, r: Row, w: Row -> int)
    ensures Int64(SumOf(rows + [r], w)) == Int64(Int64(SumOf(rows, w)) + w(r))
    ensures UInt64(SumOf(rows + [r], w)) == UInt64(UInt64(SumOf(rows, w)) + w(r))
    ensures w(r) == 0 ==> SumOf(rows + [r], w) == SumOf(rows, w)
  {
    SumSnoc(rows, r, w);
    Int64Absorbs(SumOf(rows, w), w(r));
    UInt64Absorbs(SumOf(rows, w), w(r));
  }

  /** A row moves the bucket whose edges hold it. */
  lemma {:induction false} FallsIn(rows: seq<Row>, r: Row, g: Grid, k: nat, delta: int, gained: Word)
    requires InBucket(rows, g, k, delta, gained) && g.Edge(k) <= r.at < g.Edge(k + 1)
    ensures InBucket(rows + [r], g, k, Int64(delta + r.delta), if r.delta > 0 then UInt64(gained + r.delta) else gained)
  {
    hide SumOf, Int64, UInt64, Grid.Edge;
    WrappedSum(rows, r, Between(g.Edge(k), g.Edge(k + 1)));
    WrappedSum(rows, r, Gained(g.Edge(k), g.Edge(k + 1)));
  }

  /** A row leaves every other bucket alone. */
  lemma {:induction false} FallsOutside(rows: seq<Row>, r: Row, g: Grid, k: nat, delta: int, gained: Word)
    requires InBucket(rows, g, k, delta, gained) && !(g.Edge(k) <= r.at < g.Edge(k + 1))
    ensures InBucket(rows + [r], g, k, delta, gained)
  {
    hide SumOf, Int64, UInt64, Grid.Edge;
    WrappedSum(rows, r, Between(g.Edge(k), g.Edge(k + 1)));
    WrappedSum(rows, r, Gained(g.Edge(k), g.Edge(k + 1)));
  }

  /** A row outside the range moves no bucket. */
  lemma {:induction false} OutsideTally(rows: seq<Row>, r: Row, g: Grid, deltas: seq<int>, gained: seq<Word>, tail: int)
    requires g.Valid() && !(g.from <= r.at < g.to) && Tallied(rows, g, deltas, gained, tail)
    ensures Tallied(rows + [r], g, deltas, gained, if r.at < g.from then tail else Int64(tail + r.delta))
  {
    forall k | 0 <= k < |deltas| ensures InBucket(rows + [r], g, k, deltas[k], gained[k]) {
      EdgesAscend(g, k, k + 1);
      FallsOutside(rows, r, g, k, deltas[k], gained[k]);
    }
    WrappedSum(rows, r, AtOrAfter(g.to));
  }

  lemma {:induction false} OneBucket(g: Grid, at: int, j: nat, k: nat)
    requires g.Valid() && g.Edge(j) <= at < g.Edge(j + 1) && k != j
    ensures !(g.Edge(k) <= at < g.Edge(k + 1))
  {
    if k < j { EdgesAscend(g, k + 1, j); } else { EdgesAscend(g, j + 1, k); }
  }

  /** A row of the range moves its own bucket and no other. */
  lemma {:induction false} InsideTally(rows: seq<Row>, r: Row, g: Grid, j: nat, deltas: seq<int>, gained: seq<Word>,
          tail: int, deltas': seq<int>, gained': seq<Word>)
    requires g.Valid() && r.at < g.to && g.Edge(j) <= r.at < g.Edge(j + 1) && j < |deltas| == |deltas'| == |gained'|
    requires Tallied(rows, g, deltas, gained, tail)
    requires forall k :: 0 <= k < |deltas| && k != j ==> deltas'[k] == deltas[k] && gained'[k] == gained[k]
    requires deltas'[j] == Int64(deltas[j] + r.delta)
    requires gained'[j] == if r.delta > 0 then UInt64(gained[j] + r.delta) else gained[j]
    ensures Tallied(rows + [r], g, deltas', gained', tail)
  {
    hide SumOf, Int64, UInt64, Grid.Edge, InBucket;
    FallsIn(rows, r, g, j, deltas[j], gained[j]);
    forall k | 0 <= k < |deltas| && k != j ensures InBucket(rows + [r], g, k, deltas[k], gained[k]) {
      OneBucket(g, r.at, j, k);
      FallsOutside(rows, r, g, k, deltas[k], gained[k]);
    }
    WrappedSum(rows, r, AtOrAfter(g.to));
  }

  /** Where a row of the range is tallied. */
  method Bucket(g: Grid, at: int, ghost n: nat) returns (k: nat)
    requires g.Valid() && g.from <= at < g.to && g.to - g.from < MAX_INT64 && g.Edge(n) == g.to
    ensures k < n && g.Edge(k) <= at < g.Edge(k + 1)
  {
    BucketOf(g, at);
    k := Sub(at, g.from) / g.window;
    if k >= n { EdgesAscend(g, n, k); }
  }

  /**
   One pass over a log's rows. Rows before the range are already part of every
   reading in it. (The increases of the upload log are not looked at.)
   */
  method Tally(rows: seq<Row>, g: Grid, n: nat) returns (deltas: seq<int>, gained: seq<Word>, tail: int)
    requires g.Valid() && g.to - g.from < MAX_INT64 && g.Edge(n) == g.to
    ensures |deltas| == n && Tallied(rows, g, deltas, gained, tail)
  {
    var changed, ingested := new int[n](_ => 0), new Word[n](_ => 0);
    tail := 0;
    for i := 0 to |rows|
      invariant Tallied(rows[..i], g, changed[..], ingested[..], tail)
    {
      var r := rows[i];
      assert rows[..i + 1] == rows[..i] + [r];
      if r.at < g.from {
        OutsideTally(rows[..i], r, g, changed[..], ingested[..], tail);
      } else if r.at >= g.to {
        OutsideTally(rows[..i], r, g, changed[..], ingested[..], tail);
        tail := Int64(tail + r.delta);
      } else {
        var k := Bucket(g, r.at, n);
        ghost var was, got := changed[..], ingested[..];
        changed[k] := Int64(changed[k] + r.delta);
        if r.delta > 0 { ingested[k] := UInt64(ingested[k] + r.delta); }
        InsideTally(rows[..i], r, g, k, was, got, tail, changed[..], ingested[..]);
      }
    }
    assert rows[..|rows|] == rows;
    return changed[..], ingested[..], tail;
  }

  lemma {:induction false} UnwindStep(x: int, d: int)
    ensures Int64(Int64(x) - Int64(d)) == Int64(x - d)
  {
    Int64Absorbs(x, Int64(d));
    Int64Absorbs(d, x);
  }

  /** Walking back over a bucket sheds what it changed. */
  lemma {:induction false} StepBack(total: int, rows: seq<Row>, g: Grid, k: nat, held: int, delta: int, gained: int)
    requires g.Valid() && held == HeldAt(total, rows, g.Edge(k + 1)) && InBucket(rows, g, k, delta, gained)
    ensures Int64(held - delta) == HeldAt(total, rows, g.Edge(k))
  {
    EdgesAscend(g, k, k + 1);
    BucketSplits(rows, g.Edge(k), g.Edge(k + 1));
    UnwindStep(total - SumOf(rows, AtOrAfter(g.Edge(k + 1))), SumOf(rows, Between(g.Edge(k), g.Edge(k + 1))));
  }

  /** Bucket ends, accumulated a window at a time. */
  method Ends(g: Grid, n: nat) returns (ends: seq<int>)
    requires g.Valid()
    ensures |ends| == n && forall k :: 0 <= k < n ==> ends[k] == g.Edge(k + 1)
  {
    var out := new int[n];
    var end := g.from;
    for k := 0 to n
      invariant end == g.Edge(k)
      invariant forall j :: 0 <= j < k ==> out[j] == g.Edge(j + 1)
    {
      end := end + g.window;
      if end > g.to { end := g.to; }
      out[k] := end;
    }
    return out[..];
  }

  /** What is held where the range ends. */
  lemma {:induction false} Anchor(total: int, rows: seq<Row>, t: int, tail: int)
    requires tail == Int64(SumOf(rows, AtOrAfter(t)))
    ensures Int64(total - tail) == HeldAt(total, rows, t)
  {
    Int64Absorbs(SumOf(rows, AtOrAfter(t)), total);
  }

  /** What is held at a bucket's end, and what its rows add, make its sample. */
  lemma {:induction false} MakesSample(r: Reading, g: Grid, k: nat, end: int, cur: int, uploads: int, delta: int,
          gained: Word)
    requires r.Reading? && g.Valid() && end == g.Edge(k + 1) && InBucket(r.byteRows, g, k, delta, gained)
    requires cur == HeldAt(r.storedBytes, r.byteRows, g.Edge(k + 1))
             && uploads == HeldAt(r.uploads, r.uploadRows, g.Edge(k + 1))
    ensures cur <= MAX_INT64 && uploads <= MAX_INT64
    ensures Sample(end, Floor(cur), gained, Floor(uploads)) == SampleAt(r, g, k)
  {
    hide SumOf, Int64, UInt64, Grid.Edge;
  }

  /** Walks back from what is held where the range ends, shedding a bucket at a time. */
  method Unwind(r: Reading, g: Grid, n: nat, ends: seq<int>, deltas: seq<int>, ingested: seq<Word>,
                uploadDeltas: seq<int>, ghost uploaded: seq<Word>, stored: int, count: int)
      returns (samples: seq<Sample>)
    requires r.Reading? && g.Valid() && |ends| == |deltas| == |ingested| == |uploadDeltas| == |uploaded| == n
    requires forall k :: 0 <= k < n ==> ends[k] == g.Edge(k + 1)
    requires forall k :: 0 <= k < n ==> InBucket(r.byteRows, g, k, deltas[k], ingested[k])
    requires forall k :: 0 <= k < n ==> InBucket(r.uploadRows, g, k, uploadDeltas[k], uploaded[k])
    requires stored == HeldAt(r.storedBytes, r.byteRows, g.Edge(n))
             && count == HeldAt(r.uploads, r.uploadRows, g.Edge(n))
    ensures |samples| == n && forall k :: 0 <= k < n ==> samples[k] == SampleAt(r, g, k)
  {
    hide SumOf, Int64, UInt64, Grid.Edge, HeldAt, InBucket, SampleAt;
    var out := new Sample[n](_ => Sample(0, 0, 0, 0));
    var cur, uploads := stored, count;
    for k := n downto 0
      invariant cur == HeldAt(r.storedBytes, r.byteRows, g.Edge(k))
      invariant uploads == HeldAt(r.uploads, r.uploadRows, g.Edge(k))
      invariant forall j :: k <= j < n ==> out[j] == SampleAt(r, g, j)
    {
      assert InBucket(r.byteRows, g, k, deltas[k], ingested[k])
            && InBucket(r.uploadRows, g, k, uploadDeltas[k], uploaded[k]);
      MakesSample(r, g, k, ends[k], cur, uploads, deltas[k], ingested[k]);
      out[k] := Sample(ends[k], Floor(cur), ingested[k], Floor(uploads));
      StepBack(r.storedBytes, r.byteRows, g, k, cur, deltas[k], ingested[k]);
      StepBack(r.uploads, r.uploadRows, g, k, uploads, uploadDeltas[k], uploaded[k]);
      cur := Int64(cur - deltas[k]);
      uploads := Int64(uploads - uploadDeltas[k]);
    }
    return out[..];
  }

  /**
   Replays a reading into its samples, walking back from the totals: sample k is
   the totals less everything recorded at or after the bucket's end.
   */
  method Replay(r: Reading, g: Grid, n: nat) returns (samples: seq<Sample>)
    requires r.Reading? && g.Valid() && g.to - g.from < MAX_INT64 && g.Edge(n) == g.to
    ensures samples == SamplesOf(r, g, n)
  {
    var deltas, ingested, tail := Tally(r.byteRows, g, n);
    var uploadDeltas, uploaded, uploadTail := Tally(r.uploadRows, g, n);
    var ends := Ends(g, n);
    Anchor(r.storedBytes, r.byteRows, g.to, tail);
    Anchor(r.uploads, r.uploadRows, g.to, uploadTail);
    samples := Unwind(r, g, n, ends, deltas, ingested, uploadDeltas, uploaded,
                      Int64(r.storedBytes - tail), Int64(r.uploads - uploadTail));
  }

  // ----- a query

  /** The end of a range, no later than the present and no earlier than its start. */
  function Clamp(from: int, to: int, now: int): int {
    if to <= now then to else if now < from then from else now
  }

  /** How a reading that is none fails. */
  function FailureOf(r: Reading): Failure
    requires !r.Reading?
  {
    match r
    case TooBusy => Busy
    case Unstable => UsageUnstable
    case Inconsistent => CountersInconsistent
  }

  /** An account read whole. */
  function Whole(a: Account): Reading {
    Reading(a.totals.blobAddSize - a.totals.blobRemoveSize, a.totals.uploadAdd - a.totals.uploadRemove, a.bytes,
            a.objects)
  }

  /** Sums over a range cannot tell a reading from the whole of one committed state. */
  lemma {:induction false} SumsAgree(r: Reading, a: Account, from: int, lo: int, hi: int)
    requires r.Reading? && Snapshot(r, a, from) && from <= lo <= hi
    ensures HeldAt(r.storedBytes, r.byteRows, hi) == HeldAt(Whole(a).storedBytes, a.bytes, hi)
    ensures HeldAt(r.uploads, r.uploadRows, hi) == HeldAt(Whole(a).uploads, a.objects, hi)
    ensures SumOf(r.byteRows, Gained(lo, hi)) == SumOf(a.bytes, Gained(lo, hi))
  {
    assert Blind(AtOrAfter(hi), Since(from - SECOND)) && Blind(Gained(lo, hi), Since(from - SECOND));
  }

  /** The part of the logs a reading holds yields the series of the whole logs. */
  lemma {:induction false} PartIsWhole(r: Reading, a: Account, g: Grid, n: nat)
    requires g.Valid() && r.Reading? && Snapshot(r, a, g.from)
    ensures SamplesOf(r, g, n) == SamplesOf(Whole(a), g, n)
  {
    forall k | 0 <= k < n ensures SampleAt(r, g, k) == SampleAt(Whole(a), g, k) {
      EdgesAscend(g, k, k + 1);
      SumsAgree(r, a, g.from, g.Edge(k), g.Edge(k + 1));
    }
  }

  /** What becomes of a query: refused, empty, or n buckets to fill. */
  datatype Plan = Refused(error: Failure) | Nothing(to: int) | Fill(grid: Grid, n: nat)

  lemma {:induction false} Counted(g: Grid)
    requires g.Valid()
    ensures g.Buckets() > 0 && g.Edge(g.Buckets()) == g.to
    ensures g.Buckets() > MAX_SAMPLES <==> g.to - g.from > MAX_SAMPLES * g.window
  {
    var n, w := g.Buckets(), g.window;
    WindowsCover(g);
    Dense(g, n - 1);
    Scaled(n, MAX_SAMPLES, w);
    Scaled(MAX_SAMPLES, n - 1, w);
  }

  /**
   Checks a query. It is answered with as few windows as cover its range, at most
   2048, whenever that range and window are acceptable.
   */
  function PlanFor(from: int, to: int, window: int, now: int): (p: Plan)
    ensures p.Fill? <==> && from != 0 && from < Clamp(from, to, now) && 0 < window <= MAX_WINDOW
                         && Clamp(from, to, now) - from < MAX_INT64
                            && Clamp(from, to, now) - from <= MAX_SAMPLES * window
    ensures p.Nothing? <==> from != 0 && now <= from < to && 0 < window <= MAX_WINDOW
    ensures p == Refused(InvalidWindow) <==> from != 0 && from < to && !(0 < window <= MAX_WINDOW)
    ensures p == Refused(InvalidRange)
            <==> from == 0 || to <= from || (0 < window <= MAX_WINDOW && Clamp(from, to, now) - from >= MAX_INT64)
    ensures p.Refused? ==> p.error in {InvalidRange, InvalidWindow} || p.error.TooManySamples?
    ensures p.Refused? && p.error.TooManySamples? ==>
              (p.error.n - 1) * window < Clamp(from, to, now) - from <= p.error.n * window && p.error.n > MAX_SAMPLES
    ensures p.Fill? ==>
              p.grid == Grid(from, Clamp(from, to, now), window) && 0 < p.n <= MAX_SAMPLES
              && p.grid.Edge(p.n) == p.grid.to
    ensures p.Fill? ==> (p.n - 1) * window < p.grid.to - from <= p.n * window
  {
    if from == 0 || to <= from then Refused(InvalidRange)
    else if window <= 0 || window > MAX_WINDOW then Refused(InvalidWindow)
    else
      var end := Clamp(from, to, now);
      if end <= from then Nothing(end)
      else if Sub(end, from) == MAX_INT64 then Refused(InvalidRange)
      else
        var g := Grid(from, end, window);
        Counted(g);
        WindowsCover(g);
        if g.Buckets() > MAX_SAMPLES then Refused(TooManySamples(g.Buckets())) else Fill(g, g.Buckets())
  }

  /** The series of some samples, or the failure in place of a reading. */
  function SeriesFrom(r: Reading, g: Grid, n: nat): Response<Series> {
    if r.Reading? then Ok(Series(g.from, g.to, g.window, SamplesOf(r, g, n))) else Err(FailureOf(r))
  }

  /**
   What a failure to read means: more than 500,000 rows to list, counters seen to
   move three times since the call, or counters that account for no amount.
   */
  ghost predicate Explains(e: Failure, ks: seq<Commit>, lo: nat, s: Space, from: int) {
    match e
    case Busy => exists log :: |Goal(ks, s, log, from)| > 500_000
    case UsageUnstable => exists marks :: KeptMoving(ks, marks, s) && |marks| == 4 && lo <= marks[0]
    case CountersInconsistent => exists k :: lo <= k <= |ks| && Unaccounted(AccountAt(ks, k, s).totals)
    case _ => false
  }

  /** Reads a space and replays the reading into n buckets. */
  method Rebuild(db: Backend, s: Space, g: Grid, n: nat) returns (r: Response<Series>)
    requires db.Valid() && g.Valid() && g.to - g.from < MAX_INT64 && g.Edge(n) == g.to
    modifies db
    ensures db.Valid() && old(db.commits) <= db.commits
    ensures r.Ok? ==>
              exists k ::
                |old(db.commits)| <= k <= |db.commits| && r == SeriesFrom(Whole(AccountAt(db.commits, k, s)), g, n)
    ensures r.Err? ==> Explains(r.error, db.commits, |old(db.commits)|, s, g.from)
    ensures db.commits == old(db.commits) ==>
              r == SeriesFrom(QuietReading(AccountOf(PgRun(db.commits), s), g.from), g, n)
  {
    var reading, marks := Read(db, s, g.from);
    if !reading.Reading? { return Err(FailureOf(reading)); }
    ghost var k :| |old(db.commits)| <= k <= |db.commits| && Snapshot(reading, AccountAt(db.commits, k, s), g.from);
    PartIsWhole(reading, AccountAt(db.commits, k, s), g, n);
    var samples := Replay(reading, g, n);
    r := Ok(Series(g.from, g.to, g.window, samples));
    assert r == SeriesFrom(Whole(AccountAt(db.commits, k, s)), g, n);
  }

  /**
   The usage series of a space over [from, to), ending no later than the present.
   A series it answers with is that of the whole log of one committed state,
   whatever other callers commit while it reads.
   */
  method SampleUsage(db: Backend, s: Space, from: int, to: int, window: int, now: int)
      returns (r: Response<Series>, ghost p: Plan)
    requires db.Valid()
    modifies db
    ensures db.Valid() && old(db.commits) <= db.commits && p == PlanFor(from, to, window, now)
    ensures p.Refused? ==> r == Err(p.error)
    ensures p.Nothing? ==> r == Ok(Series(from, from, window, []))
    ensures p.Fill? && r.Ok? ==>
              exists k ::
                  |old(db.commits)| <= k <= |db.commits|
                  && r == SeriesFrom(Whole(AccountAt(db.commits, k, s)), p.grid, p.n)
    ensures p.Fill? && r.Err? ==> Explains(r.error, db.commits, |old(db.commits)|, s, from)
    ensures p.Fill? && db.commits == old(db.commits) ==>
              r == SeriesFrom(QuietReading(AccountOf(PgRun(db.commits), s), from), p.grid, p.n)
  {
    var plan := PlanFor(from, to, window, now);
    p := plan;
    match plan
    case Refused(error) => r := Err(error);
    case Nothing(end) => r := Ok(Series(from, end, window, []));
    case Fill(g, n) => r := Rebuild(db, s, g, n);
  }
}
