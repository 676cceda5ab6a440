/**
 From store calls to a usage series: when the clock never goes back, changes can
 be told apart and sizes fit in 63 bits, every sample reports what the changes
 recorded before its bucket's end left in the space.
 */
module EndToEnd {
  import opened Words
  import opened DiffLogs
  import opened Accounting
  import opened History
  import opened Postgres
  import opened TwoStep
  import opened Reader
  import opened Usage

  /** The increases recorded before an instant. */
  function GainedBefore(t: int): Row -> int {
    (r: Row) => if r.at < t && r.delta > 0 then r.delta else 0
  }

  function AllGained(): Row -> int {
    (r: Row) => if r.delta > 0 then r.delta else 0
  }

  // ----- walking back and summing forward

  /** Where totals are the sum of the whole log, walking back to an instant is summing up to it. */
  lemma {:induction false} BackwardIsForward(total: int, rows: seq<Row>, t: int)
    requires total == SumOf(rows, Delta())
    ensures HeldAt(total, rows, t) == Int64(SumOf(rows, Before(t)))
  {
    SumAdds(rows, Before(t), AtOrAfter(t), Delta());
  }

  lemma {:induction false} GainedSplits(rows: seq<Row>, lo: int, hi: int)
    requires lo <= hi
    ensures SumOf(rows, GainedBefore(lo)) + SumOf(rows, Gained(lo, hi)) == SumOf(rows, GainedBefore(hi))
  {
    SumAdds(rows, GainedBefore(lo), Gained(lo, hi), GainedBefore(hi));
  }

  // ----- bytes added

  ghost predicate AddedExact(a: Account) {
    SumOf(a.bytes, AllGained()) == a.totals.blobAddSize
  }

  lemma {:induction false} ActAdded(a: Account, sizes: nat, c: Change)
    requires BytesExact(a, sizes) && AddedExact(a) && (c.Register? ==> sizes + c.size < TWO_63)
    ensures AddedExact(Act(a, c))
  {
    hide SumOf, Insert, Without, BytesHeld, Position, IndexOf, HasKey;
    match c
    case Register(_, digest, size, cause, at) =>
      InsertSum(a.bytes, Row(at, cause, Int64(size)), AllGained());
    case Deregister(_, digest, cause, at) =>
      if Find(a.blobs, digest).Some? {
        var size := Find(a.blobs, digest).value.size;
        HeldAtMost(a.blobs, digest);
        InsertSum(a.bytes, Row(at, cause, Int64(-Int64(size))), AllGained());
      }
    case Upsert(_, _, _, _, _) =>
    case Remove(_, _, _, _) =>
  }

  lemma {:induction false} HeldAtMost(recs: seq<Record>, d: Digest)
    requires Find(recs, d).Some?
    ensures Find(recs, d).value.size <= BytesHeld(recs)
  {
    FoundIsHeld(recs, Position(recs, d));
  }

  /** The counter of bytes added is the sum of the byte log's increases. */
  lemma {:induction false} RunAdded(cs: seq<Change>, s: Space)
    requires Fits(cs) && Fresh(cs)
    ensures AddedExact(AccountOf(Run(cs), s))
  {
    if cs != [] {
      var init, c := cs[..|cs| - 1], cs[|cs| - 1];
      assert cs == init + [c];
      PrefixFits(init, c);
      RunAdded(init, s);
      RunExact(init, s);
      SizesSnoc(init, c);
      hide AddedExact, BytesExact, ObjectsExact, LogsSourced, Fresh, Sizes;
      if s == c.space { ActAdded(AccountOf(Run(init), s), Sizes(init), c); }
    }
  }

  /** Rows all before an instant are all seen by a sum up to it. */
  lemma {:induction false} AllGainedBefore(rows: seq<Row>, cs: seq<Change>, s: Space, t: int)
    requires Sourced(rows, cs, s, true)
    requires forall i :: 0 <= i < |cs| && OnBlobs(cs[i]) ==> RecordedAt(cs[i]) < t
    ensures SumOf(rows, GainedBefore(t)) == SumOf(rows, AllGained())
  {
    forall r | r in rows ensures GainedBefore(t)(r) == AllGained()(r) {
      var i :| 0 <= i < |cs| && Wrote(cs[i], r, s, true);
    }
    SumSame(rows, GainedBefore(t), AllGained());
  }

  lemma {:induction false} SumSame(rows: seq<Row>, u: Row -> int, w: Row -> int)
    requires forall r :: r in rows ==> u(r) == w(r)
    ensures SumOf(rows, u) == SumOf(rows, w)
  {
    if rows != [] { SumSame(rows[..|rows| - 1], u, w); }
  }

  lemma {:induction false} AddedLater(a: Account, c: Change, t: int)
    requires c.at >= t
    ensures SumOf(Act(a, c).bytes, GainedBefore(t)) == SumOf(a.bytes, GainedBefore(t))
  {
    hide SumOf, Insert, IndexOf, HasKey, Without, Position;
    match c
    case Register(_, digest, size, cause, at) => InsertSum(a.bytes, Row(at, cause, Int64(size)), GainedBefore(t));
    case Deregister(_, digest, cause, at) =>
      if Find(a.blobs, digest).Some? {
        InsertSum(a.bytes, Row(at, cause, Int64(-Int64(Find(a.blobs, digest).value.size))), GainedBefore(t));
      }
    case Upsert(_, _, _, _, _) =>
    case Remove(_, _, _, _) =>
  }

  /** The byte log's increases up to an instant are the bytes added by the changes before it. */
  lemma {:induction false} AddedAsOf(cs: seq<Change>, s: Space, t: int)
    requires Clocked(cs) && Fits(cs) && Fresh(cs)
    ensures SumOf(AccountOf(Run(cs), s).bytes, GainedBefore(t)) == AccountOf(Run(Until(cs, t)), s).totals.blobAddSize
  {
    if cs != [] {
      RunAccount(cs, s);
      hide SumOf, Fresh, Sizes, Sourced, StrictlySorted, Run, Act;
      if cs[|cs| - 1].at < t {
        RunAdded(cs, s);
        RunExact(cs, s);
        AllGainedBefore(AccountOf(Run(cs), s).bytes, cs, s, t);
      } else {
        ClockedPrefix(cs);
        AddedAsOf(cs[..|cs| - 1], s, t);
        AddedLater(AccountOf(Run(cs[..|cs| - 1]), s), cs[|cs| - 1], t);
      }
    }
  }

  // ----- samples

  /**
   A sample tells the truth about [lo, hi): it reports the bytes registered and the
   uploads held by the changes recorded before hi, and the bytes those recorded
   within added.
   */
  ghost predicate Tells(x: Sample, cs: seq<Change>, s: Space, lo: int, hi: int) {
    && x.end == hi
    && x.bytesStored == BytesHeld(AccountOf(Run(Until(cs, hi)), s).blobs)
    && x.bytesIngested
       == AccountOf(Run(Until(cs, hi)), s).totals.blobAddSize - AccountOf(Run(Until(cs, lo)), s).totals.blobAddSize
    && x.uploadCount == |AccountOf(Run(UntilInstant(cs, hi)), s).uploads|
  }

  lemma {:induction false} UntilLawful(cs: seq<Change>, t: int)
    requires Clocked(cs) && Fits(cs) && Fresh(cs)
    ensures Fits(Until(cs, t)) && Fresh(Until(cs, t)) && Fits(UntilInstant(cs, t)) && Fresh(UntilInstant(cs, t))
  {
    if cs != [] {
      ClockedPrefix(cs);
      UntilLawful(cs[..|cs| - 1], t);
    }
  }

  lemma {:induction false} StoredTells(cs: seq<Change>, s: Space, t: int)
    requires Clocked(cs) && Fits(cs) && Fresh(cs)
    ensures HeldAt(Whole(AccountOf(Run(cs), s)).storedBytes, AccountOf(Run(cs), s).bytes, t)
         == BytesHeld(AccountOf(Run(Until(cs, t)), s).blobs)
  {
    hide SumOf, Run, Until, UntilInstant, Fits, Fresh;
    hide Clocked, LogsSourced, ObjectsExact, Int64, BytesHeld, UniqueDigests, Sizes;
    RunExact(cs, s);
    BytesAsOf(cs, s, t);
    UntilLawful(cs, t);
    RunExact(Until(cs, t), s);
    BackwardIsForward(Whole(AccountOf(Run(cs), s)).storedBytes, AccountOf(Run(cs), s).bytes, t);
  }

  lemma {:induction false} CountTells(cs: seq<Change>, s: Space, t: int)
    requires Clocked(cs) && Fits(cs) && Fresh(cs)
    ensures HeldAt(Whole(AccountOf(Run(cs), s)).uploads, AccountOf(Run(cs), s).objects, t)
         == |AccountOf(Run(UntilInstant(cs, t)), s).uploads|
  {
    hide SumOf, Run, Until, UntilInstant, Fits, Fresh, Clocked, LogsSourced, BytesExact, Int64, UniqueRoots, Sizes;
    RunExact(cs, s);
    UploadsAsOf(cs, s, t);
    UntilLawful(cs, t);
    RunExact(UntilInstant(cs, t), s);
    BackwardIsForward(Whole(AccountOf(Run(cs), s)).uploads, AccountOf(Run(cs), s).objects, t);
  }

  lemma {:induction false} IngestTells(cs: seq<Change>, s: Space, lo: int, hi: int)
    requires Clocked(cs) && Fits(cs) && Fresh(cs) && lo <= hi
    ensures UInt64(SumOf(AccountOf(Run(cs), s).bytes, Gained(lo, hi)))
         == AccountOf(Run(Until(cs, hi)), s).totals.blobAddSize - AccountOf(Run(Until(cs, lo)), s).totals.blobAddSize
  {
    AddedAsOf(cs, s, lo);
    AddedAsOf(cs, s, hi);
    hide Run, Until;
    GainedSplits(AccountOf(Run(cs), s).bytes, lo, hi);
    GainedPositive(AccountOf(Run(cs), s).bytes, lo, hi);
  }

  lemma {:induction false} GainedPositive(rows: seq<Row>, lo: int, hi: int)
    ensures SumOf(rows, Gained(lo, hi)) >= 0
  {
    if rows != [] { GainedPositive(rows[..|rows| - 1], lo, hi); }
  }

  lemma {:induction false} Assembles(a: Account, g: Grid, k: nat)
    requires HeldAt(Whole(a).storedBytes, a.bytes, g.Edge(k + 1)) >= 0
             && HeldAt(Whole(a).uploads, a.objects, g.Edge(k + 1)) >= 0
    ensures var x := SampleAt(Whole(a), g, k);
            && x.end == g.Edge(k + 1)
            && x.bytesStored == HeldAt(Whole(a).storedBytes, a.bytes, g.Edge(k + 1))
            && x.bytesIngested == UInt64(SumOf(a.bytes, Gained(g.Edge(k), g.Edge(k + 1))))
            && x.uploadCount == HeldAt(Whole(a).uploads, a.objects, g.Edge(k + 1))
  {
    hide HeldAt, SumOf, UInt64;
  }

  /** Every sample of a run's account tells the truth, and never had to be floored. */
  lemma {:induction false} SampleTells(cs: seq<Change>, s: Space, g: Grid, k: nat)
    requires Clocked(cs) && Fits(cs) && Fresh(cs) && g.Valid()
    ensures Tells(SampleAt(Whole(AccountOf(Run(cs), s)), g, k), cs, s, g.Edge(k), g.Edge(k + 1))
    ensures HeldAt(Whole(AccountOf(Run(cs), s)).storedBytes, AccountOf(Run(cs), s).bytes, g.Edge(k + 1)) >= 0
    ensures HeldAt(Whole(AccountOf(Run(cs), s)).uploads, AccountOf(Run(cs), s).objects, g.Edge(k + 1)) >= 0
  {
    EdgesAscend(g, k, k + 1);
    hide *;
    StoredTells(cs, s, g.Edge(k + 1));
    CountTells(cs, s, g.Edge(k + 1));
    IngestTells(cs, s, g.Edge(k), g.Edge(k + 1));
    Assembles(AccountOf(Run(cs), s), g, k);
    TellsWhen(SampleAt(Whole(AccountOf(Run(cs), s)), g, k), cs, s, g.Edge(k), g.Edge(k + 1));
  }

  lemma {:induction false} TellsWhen(x: Sample, cs: seq<Change>, s: Space, lo: int, hi: int)
    requires x.end == hi
    requires x.bytesStored == BytesHeld(AccountOf(Run(Until(cs, hi)), s).blobs)
    requires x.bytesIngested
             == AccountOf(Run(Until(cs, hi)), s).totals.blobAddSize - AccountOf(Run(Until(cs, lo)),
               s).totals.blobAddSize
    requires x.uploadCount == |AccountOf(Run(UntilInstant(cs, hi)), s).uploads|
    ensures Tells(x, cs, s, lo, hi)
  {
  }

  /**
   The series a query answers with, when the commits its snapshot is taken from
   keep the clock, tell changes apart, fit in 63 bits, look sizes up before
   removing them and give a digest one size: every bucket tells the truth about
   the commits before that snapshot.
   */
  lemma {:induction false} SeriesTells(ks: seq<Commit>, k: nat, s: Space, g: Grid, n: nat, r: Response<Series>)
    requires Lawful(ks) && k <= |ks| && g.Valid() && r == SeriesFrom(Whole(AccountAt(ks, k, s)), g, n)
    ensures r.Ok? && r.value.from == g.from && r.value.to == g.to && r.value.window == g.window
            && |r.value.samples| == n
    ensures forall i :: 0 <= i < n ==> Tells(r.value.samples[i], Changes(ks[..k]), s, g.Edge(i), g.Edge(i + 1))
  {
    LawfulPrefix(ks, k);
    LawfulIsMemory(ks[..k]);
    hide Tells, Run, PgRun, SampleAt;
    forall i | 0 <= i < n ensures Tells(r.value.samples[i], Changes(ks[..k]), s, g.Edge(i), g.Edge(i + 1)) {
      SampleTells(Changes(ks[..k]), s, g, i);
    }
  }

  /** By a clock that never goes back, the changes recorded before a whole instant are the commits made before it. */
  lemma {:induction false} CommitsBefore(ks: seq<Commit>, t: int)
    requires Clocked(Changes(ks)) && OnTick(t)
    ensures |Until(Changes(ks), t)| <= |ks|
    ensures forall i :: 0 <= i < |ks| ==> (i < |Until(Changes(ks), t)| <==> ks[i].change.at < t)
  {
    UntilSplits(Changes(ks), t);
    forall i | 0 <= i < |ks| ensures Changes(ks)[i].at < t <==> ks[i].change.at < t {
      assert Changes(ks)[i] == Stamped(ks[i]).change;
      TickSplits(ks[i].change.at, t);
    }
  }

  lemma {:induction false} TickSplits(at: int, t: int)
    requires OnTick(t)
    ensures Instant(at) < t <==> at < t
  {
  }

  /** Every sample of a series tells the truth about the commits of one state. */
  ghost predicate AllTell(series: Series, g: Grid, n: nat, ks: seq<Commit>, s: Space) {
    && |series.samples| == n && series.from == g.from && series.to == g.to && series.window == g.window
    && forall i :: 0 <= i < n ==> Tells(series.samples[i], Changes(ks), s, g.Edge(i), g.Edge(i + 1))
  }

  /** A sample and a series as a query is answered with them: instants and the window in whole seconds. */
  datatype SampleItem = SampleItem(timestamp: int, bytesStored: Word, bytesIngested: Word, uploadCount: Word)

  datatype SampleOK = SampleOK(from: int, to: int, window: int, samples: seq<SampleItem>)

  /** The unix timestamp of an instant, what is below a second dropped. */
  function UnixOf(t: int): int {
    (t - AtUnix(0)) / SECOND
  }

  /** The series a query asks for: from its start, to its end or the present, in as few windows as cover that. */
  ghost predicate Asked(series: Series, from: int, to: int, window: int, now: int) {
    var n, span := |series.samples|, series.to - series.from;
    && series.from == AtUnix(from) && series.window == window * 1_000_000_000
    && series.to == (if AtUnix(to) <= now then AtUnix(to) else if AtUnix(from) <= now then now else AtUnix(from))
    && if span == 0 then n == 0 else 0 < n <= 2048 && (n - 1) * series.window < span <= n * series.window
  }

  /** A series with its instants and its window in seconds. */
  ghost predicate InSeconds(a: SampleOK, series: Series) {
    && a.from == UnixOf(series.from) && a.to == UnixOf(series.to) && a.window == series.window / 1_000_000_000
    && |a.samples| == |series.samples|
    && forall i :: 0 <= i < |series.samples| ==> Itemised(a.samples[i], series.samples[i])
  }

  ghost predicate Itemised(item: SampleItem, x: Sample) {
    && item.timestamp == UnixOf(x.end) && item.bytesStored == x.bytesStored
    && item.bytesIngested == x.bytesIngested && item.uploadCount == x.uploadCount
  }

  /** How a query whose arguments do not do is refused. */
  ghost predicate Refuses(e: Failure, from: int, to: int, window: int, now: int) {
    var span := (if AtUnix(to) <= now then AtUnix(to) else now) - AtUnix(from);
    match e
    case InvalidRange => !(0 < from < to) || (0 < window <= 366 * 24 * 3600 && span >= MAX_INT64)
    case InvalidWindow => 0 < from < to && !(0 < window <= 366 * 24 * 3600)
    case TooManySamples(n) =>
      && 0 < from < to && 0 < window <= 366 * 24 * 3600 && span < MAX_INT64 && n > 2048
      && (n - 1) * (window * 1_000_000_000) < span <= n * (window * 1_000_000_000)
    case Busy => false
    case UsageUnstable => false
    case CountersInconsistent => false
  }

  /** Puts a series in seconds. */
  method Convert(series: Series) returns (a: SampleOK)
    ensures InSeconds(a, series)
  {
    var items: seq<SampleItem> := [];
    for i := 0 to |series.samples|
      invariant |items| == i && forall j :: 0 <= j < i ==> Itemised(items[j], series.samples[j])
    {
      var x := series.samples[i];
      items := items + [SampleItem(UnixOf(x.end), x.bytesStored, x.bytesIngested, x.uploadCount)];
    }
    a := SampleOK(UnixOf(series.from), UnixOf(series.to), series.window / SECOND, items);
  }

  /** A query's arguments come back as they were given. */
  lemma {:induction false} ComesBack(a: SampleOK, series: Series, from: int, to: int, window: int, now: int)
    requires InSeconds(a, series) && Asked(series, from, to, window, now)
    ensures a.from == from && a.window == window && (AtUnix(to) <= now ==> a.to == to)
  {
  }

  /**
   Answers a usage query given as unix timestamps and seconds. Whatever other callers
   commit while it reads, a series it answers with tells the truth, bucket by bucket,
   about the commits up to one state of the read, provided those keep the clock, tell
   changes apart, fit in 63 bits, look sizes up before removing them and give a digest
   one size.
   */
  method MetricsSample(db: Backend, s: Space, from: int, to: int, window: int, now: int)
      returns (r: Response<SampleOK>, ghost series: Series)
    requires db.Valid()
    modifies db
    ensures db.Valid() && old(db.commits) <= db.commits
    ensures r.Ok? ==> 0 < from < to && 0 < window <= 366 * 24 * 3600
    ensures r.Ok? ==> InSeconds(r.value, series) && Asked(series, from, to, window, now)
    ensures r.Ok? ==> r.value.from == from && r.value.window == window && (AtUnix(to) <= now ==> r.value.to == to)
    ensures r.Ok? && Lawful(db.commits) ==>
              exists k :: |old(db.commits)| <= k <= |db.commits|
                          && AllTell(series, Grid(series.from, series.to, series.window), |series.samples|,
                                     db.commits[..k], s)
    ensures r.Err? ==>
              || Refuses(r.error, from, to, window, now)
              || Explains(r.error, db.commits, |old(db.commits)|, s, AtUnix(from))
    ensures (exists e :: Refuses(e, from, to, window, now)) ==> r.Err? && Refuses(r.error, from, to, window, now)
    ensures db.commits == old(db.commits) && Lawful(db.commits) && r.Err? ==>
              || Refuses(r.error, from, to, window, now)
              || (r.error == Busy && QuietReading(AccountOf(PgRun(db.commits), s), AtUnix(from)).TooBusy?)
  {
    var query := ParseRange(from, to, window);
    if query.Err? {
      return Err(query.error), Series(0, 0, 0, []);
    }
    hide Tells, Run, PgRun, SampleAt, Lawful, QuietReading, Asked, Refuses, AllTell, AccountAt, Grid.Edge, Explains;
    var q := query.value;
    var sampled, p := SampleUsage(db, s, q.from, q.to, q.window, now);
    Planned(from, to, window, now, p);
    if sampled.Err? {
      if p.Fill? && db.commits == old(db.commits) && Lawful(db.commits) {
        QuietIsConsistent(db.commits, s, p.grid, p.n);
      }
      return Err(sampled.error), Series(0, 0, 0, []);
    }
    var a := Convert(sampled.value);
    series := sampled.value;
    ComesBack(a, series, from, to, window, now);
    if Lawful(db.commits) {
      if p.Fill? {
        ghost var k :| |old(db.commits)| <= k <= |db.commits|
              && sampled == SeriesFrom(Whole(AccountAt(db.commits, k, s)), p.grid, p.n);
        SeriesTells(db.commits, k, s, p.grid, p.n, sampled);
        AllTellWhen(series, p.grid, p.n, db.commits[..k], s);
      } else {
        AllTellWhen(series, Grid(series.from, series.to, series.window), 0, db.commits[..|db.commits|], s);
      }
    }
    r := Ok(a);
  }

  lemma {:induction false} AllTellWhen(series: Series, g: Grid, n: nat, ks: seq<Commit>, s: Space)
    requires |series.samples| == n && series.from == g.from && series.to == g.to && series.window == g.window
    requires forall i :: 0 <= i < n ==> Tells(series.samples[i], Changes(ks), s, g.Edge(i), g.Edge(i + 1))
    ensures g == Grid(series.from, series.to, series.window) && AllTell(series, g, n, ks, s)
  {
  }

  lemma {:induction false} TooFew(n: int, m: int, w: int, span: int)
    requires 0 < w && (n - 1) * w < span <= m * w
    ensures n <= m
  {
    if n > m { Scaled(m, n - 1, w); }
  }

  lemma {:induction false} FewWindows(n: int, w: int, span: int)
    requires 0 < w && n > 2048 && span <= 2048 * w
    ensures !((n - 1) * w < span)
  {
    if (n - 1) * w < span { TooFew(n, 2048, w, span); }
  }

  lemma {:induction false} AcceptedQuery(from: int, to: int, window: int, now: int, p: Plan, e: Failure)
    requires 0 < from < to && 0 < window <= 366 * 24 * 3600
    requires p == PlanFor(AtUnix(from), AtUnix(to), window * 1_000_000_000, now) && !p.Refused?
    ensures !Refuses(e, from, to, window, now)
  {
    hide PlanFor;
    var span := (if AtUnix(to) <= now then AtUnix(to) else now) - AtUnix(from);
    assert p.Fill? ==> span < MAX_INT64 && span <= MAX_SAMPLES * (window * 1_000_000_000);
    assert p.Nothing? ==> span <= 0;
    if e.TooManySamples? && e.n > 2048 { FewWindows(e.n, window * 1_000_000_000, span); }
  }

  lemma {:induction false} AskedFor(from: int, to: int, window: int, now: int, p: Plan, xs: seq<Sample>)
    requires 0 < from < to && 0 < window <= 366 * 24 * 3600
    requires p == PlanFor(AtUnix(from), AtUnix(to), window * 1_000_000_000, now) && p.Fill? && |xs| == p.n
    ensures Asked(Series(p.grid.from, p.grid.to, p.grid.window, xs), from, to, window, now)
  {
    hide PlanFor;
  }

  /** What is planned for a query is what it asks for, or how it is refused. */
  lemma {:induction false} Planned(from: int, to: int, window: int, now: int, p: Plan)
    requires 0 < from < to && 0 < window <= 366 * 24 * 3600
    requires p == PlanFor(AtUnix(from), AtUnix(to), window * 1_000_000_000, now)
    ensures p.Refused? ==> Refuses(p.error, from, to, window, now)
    ensures !p.Refused? ==> forall e :: !Refuses(e, from, to, window, now)
    ensures p.Nothing? ==>
              Asked(Series(AtUnix(from), AtUnix(from), window * 1_000_000_000, []), from, to, window, now)
    ensures p.Fill? ==>
              forall xs: seq<Sample> :: |xs| == p.n ==>
                Asked(Series(p.grid.from, p.grid.to, p.grid.window, xs), from, to, window, now)
  {
    hide PlanFor;
    if !p.Refused? {
      forall e ensures !Refuses(e, from, to, window, now) { AcceptedQuery(from, to, window, now, p, e); }
    }
    if p.Fill? {
      forall xs: seq<Sample> | |xs| == p.n
        ensures Asked(Series(p.grid.from, p.grid.to, p.grid.window, xs), from, to, window, now)
      {
        AskedFor(from, to, window, now, p, xs);
      }
    }
  }

  /** Where nobody writes, lawful commits leave counters a reading can be made of. */
  lemma {:induction false} QuietIsConsistent(ks: seq<Commit>, s: Space, g: Grid, n: nat)
    requires Lawful(ks)
    ensures var quiet := QuietReading(AccountOf(PgRun(ks), s), g.from);
            quiet.TooBusy? || (quiet.Reading? && SeriesFrom(quiet, g, n).Ok?)
  {
    hide Run, PgRun, Rest, SumOf, BytesHeld, UniqueDigests, UniqueRoots;
    hide LogsSourced, Fits, Fresh, Clocked, Honest, OneSize, Changes, SamplesOf;
    LawfulIsMemory(ks);
    RunExact(Changes(ks), s);
  }
}
