/**
 The optimistic read behind a usage series: two paged log scans between two
 readings of the counters, retried while a counter moves. Other callers commit
 between any two of its queries.
 */
module Reader {
  import opened Words
  import opened DiffLogs
  import opened Accounting
  import opened Consistency
  import opened Ordering
  import opened Postgres

  const SECOND := 1_000_000_000
  const MAX_SCAN_ROWS := 500_000
  const PAGE_SIZE := 1000
  const TOTALS_ATTEMPTS := 3

  datatype DiffLog = Bytes | Objects

  function RowsOf(a: Account, log: DiffLog): seq<Row> {
    if log == Bytes then a.bytes else a.objects
  }

  datatype Scanned = Rows(rows: seq<Row>) | RangeTooBusy

  datatype Reading =
    | Reading(storedBytes: int, uploads: int, byteRows: seq<Row>, uploadRows: seq<Row>)
    | TooBusy
    | Unstable
    | Inconsistent

  /** Whether every counter a series is built from held still. */
  predicate Settled(before: Totals, after: Totals) {
    && before.blobAddSize == after.blobAddSize
    && before.blobRemoveSize == after.blobRemoveSize
    && before.uploadAdd == after.uploadAdd
    && before.uploadRemove == after.uploadRemove
  }

  /** What an add and a remove counter leave, when that is a possible number of bytes or uploads. */
  function Stored(added: Word, removed: Word): Option<int> {
    if removed > added || added - removed > MAX_INT64 then None else Some(added - removed)
  }

  /** Counters that no number of bytes or uploads explains: more removed than added, or too many left for an int64. */
  predicate Unaccounted(t: Totals) {
    || t.blobRemoveSize > t.blobAddSize || t.blobAddSize - t.blobRemoveSize > MAX_INT64
    || t.uploadRemove > t.uploadAdd || t.uploadAdd - t.uploadRemove > MAX_INT64
  }

  /** A state after some more commits. */
  function Landed(b: Books, ks: seq<Commit>): Books {
    if ks == [] then b else PgApply(Landed(b, ks[..|ks| - 1]), ks[|ks| - 1])
  }

  lemma {:induction false} LandsAfter(ks: seq<Commit>, batch: seq<Commit>)
    ensures PgRun(ks + batch) == Landed(PgRun(ks), batch)
    ensures AllStorable(ks) && AllStorable(batch) ==> AllStorable(ks + batch)
  {
    hide PgApply, Storable;
    if batch == [] {
      assert ks + batch == ks;
    } else {
      LandsAfter(ks, batch[..|batch| - 1]);
      assert (ks + batch)[..|ks + batch| - 1] == ks + batch[..|batch| - 1];
    }
  }

  /** The database, with what other callers will commit before each coming query. */
  class Backend {
    var books: Books
    var pending: seq<seq<Commit>>
    ghost var commits: seq<Commit>

    ghost predicate Valid()
      reads this
    {
      && books == PgRun(commits)
      && AllStorable(commits)
      && forall i :: 0 <= i < |pending| ==> AllStorable(pending[i])
    }

    /** Any database with any schedule of other callers' work ahead of it. */
    constructor (before: seq<Commit>, schedule: seq<seq<Commit>>)
      requires AllStorable(before) && forall i :: 0 <= i < |schedule| ==> AllStorable(schedule[i])
      ensures Valid() && commits == before && pending == schedule
    {
      books := PgRun(before);
      pending := schedule;
      commits := before;
    }

    method Interfere()
      requires Valid()
      modifies this
      ensures Valid()
      ensures pending == if old(pending) == [] then [] else old(pending)[1..]
      ensures commits == if old(pending) == [] then old(commits) else old(commits) + old(pending)[0]
    {
      if pending == [] { return; }
      var batch := pending[0];
      LandsAfter(commits, batch);
      books := Landed(books, batch);
      commits := commits + batch;
      pending := pending[1..];
    }

    method GetTotals(s: Space) returns (t: Totals)
      requires Valid()
      modifies this
      ensures Valid() && old(commits) <= commits
      ensures t == AccountOf(PgRun(commits), s).totals
    {
      Interfere();
      t := AccountOf(books, s).totals;
    }

    method List(log: DiffLog, s: Space, b: Bound) returns (page: PageOf)
      requires Valid()
      modifies this
      ensures Valid() && old(commits) <= commits
      ensures page == Page(RowsOf(AccountOf(PgRun(commits), s), log), b, 1000)
    {
      Interfere();
      page := Page(RowsOf(AccountOf(books, s), log), b, PAGE_SIZE);
    }
  }

  // ----- what a space looked like after each commit

  ghost function AccountAt(ks: seq<Commit>, i: nat, s: Space): Account
    requires i <= |ks|
  {
    AccountOf(PgRun(ks[..i]), s)
  }

  /** All rows, or only those that move a sum. */
  function Sift(rows: seq<Row>, all: bool): seq<Row> {
    if all then rows else Core(rows)
  }

  /** The log, so sifted, stayed as it was from the lo-th commit to the last. */
  ghost predicate Steady(ks: seq<Commit>, lo: nat, s: Space, log: DiffLog, all: bool)
    requires lo <= |ks|
  {
    forall i ::
        lo <= i <= |ks| ==> Sift(RowsOf(AccountAt(ks, i, s), log), all) == Sift(RowsOf(AccountAt(ks, lo, s), log), all)
  }

  lemma {:induction false} SameAccount(ks: seq<Commit>, ks': seq<Commit>, i: nat, s: Space)
    requires ks <= ks' && i <= |ks|
    ensures AccountAt(ks', i, s) == AccountAt(ks, i, s)
  {
    assert ks'[..i] == ks[..i];
  }

  lemma {:induction false} SteadyShrinks(ks: seq<Commit>, ks': seq<Commit>, lo: nat, s: Space, log: DiffLog, all: bool)
    requires ks <= ks' && lo <= |ks| && Steady(ks', lo, s, log, all)
    ensures Steady(ks, lo, s, log, all)
  {
    hide PgRun, Core;
    SameAccount(ks, ks', lo, s);
    forall i | lo <= i <= |ks|
      ensures Sift(RowsOf(AccountAt(ks, i, s), log), all) == Sift(RowsOf(AccountAt(ks, lo, s), log), all)
    {
      SameAccount(ks, ks', i, s);
    }
  }

  lemma {:induction false} StepGrows(ks: seq<Commit>, i: nat, s: Space)
    requires AllStorable(ks)
    requires i < |ks|
    ensures Grows(AccountAt(ks, i, s), AccountAt(ks, i + 1, s))
  {
    hide PgApply, Grows, StrictlySorted, SumOf, UniqueDigests, Contained, Storable;
    assert ks[..i + 1][..i] == ks[..i];
    PgRunBooked(ks[..i], s);
    assert Storable(ks[i]);
    PgApplyGrows(PgRun(ks[..i]), ks[i], s);
  }

  lemma {:induction false} CounterStep(ks: seq<Commit>, i: nat, s: Space, m: Metric)
    requires AllStorable(ks)
    requires i < |ks|
    ensures AccountAt(ks, i, s).totals.Get(m) <= AccountAt(ks, i + 1, s).totals.Get(m)
  {
    StepGrows(ks, i, s);
  }

  lemma {:induction false} CountersGrow(ks: seq<Commit>, i: nat, j: nat, s: Space, m: Metric)
    requires AllStorable(ks)
    requires i <= j <= |ks|
    ensures AccountAt(ks, i, s).totals.Get(m) <= AccountAt(ks, j, s).totals.Get(m)
    decreases j
  {
    hide PgRun;
    if i < j {
      CountersGrow(ks, i, j - 1, s, m);
      CounterStep(ks, j - 1, s, m);
    }
  }

  lemma {:induction false} CounterBetween(ks: seq<Commit>, lo: nat, i: nat, s: Space, m: Metric)
    requires AllStorable(ks)
    requires lo <= i <= |ks| && AccountAt(ks, lo, s).totals.Get(m) == AccountAt(ks, |ks|, s).totals.Get(m)
    ensures AccountAt(ks, i, s).totals.Get(m) == AccountAt(ks, lo, s).totals.Get(m)
  {
    hide PgRun;
    CountersGrow(ks, lo, i, s, m);
    CountersGrow(ks, i, |ks|, s, m);
  }

  /** Counters that read the same at both ends never moved between. */
  lemma {:induction false} SettledBetween(ks: seq<Commit>, lo: nat, i: nat, s: Space)
    requires AllStorable(ks)
    requires lo <= i <= |ks| && Settled(AccountAt(ks, lo, s).totals, AccountAt(ks, |ks|, s).totals)
    ensures Settled(AccountAt(ks, lo, s).totals, AccountAt(ks, i, s).totals)
  {
    hide PgRun;
    CounterBetween(ks, lo, i, s, BlobAddSize);
    CounterBetween(ks, lo, i, s, BlobRemoveSize);
    CounterBetween(ks, lo, i, s, UploadAdd);
    CounterBetween(ks, lo, i, s, UploadRemove);
  }

  lemma {:induction false} CoreSteadyTo(ks: seq<Commit>, lo: nat, i: nat, s: Space, log: DiffLog)
    requires AllStorable(ks)
    requires lo <= i <= |ks| && Settled(AccountAt(ks, lo, s).totals, AccountAt(ks, |ks|, s).totals)
    ensures Core(RowsOf(AccountAt(ks, i, s), log)) == Core(RowsOf(AccountAt(ks, lo, s), log))
    decreases i
  {
    hide PgRun, Core;
    if lo < i {
      CoreSteadyTo(ks, lo, i - 1, s, log);
      CoreStep(ks, lo, i - 1, s, log);
    }
  }

  lemma {:induction false} CoreStep(ks: seq<Commit>, lo: nat, i: nat, s: Space, log: DiffLog)
    requires AllStorable(ks)
    requires lo <= i < |ks| && Settled(AccountAt(ks, lo, s).totals, AccountAt(ks, |ks|, s).totals)
    ensures Core(RowsOf(AccountAt(ks, i + 1, s), log)) == Core(RowsOf(AccountAt(ks, i, s), log))
  {
    hide PgRun, Core, Grows;
    SettledBetween(ks, lo, i, s);
    SettledBetween(ks, lo, i + 1, s);
    StepGrows(ks, i, s);
    GrowsSettled(AccountAt(ks, i, s), AccountAt(ks, i + 1, s), log);
  }

  lemma {:induction false} GrowsSettled(a: Account, a': Account, log: DiffLog)
    requires Grows(a, a') && Settled(a.totals, a'.totals)
    ensures Core(RowsOf(a', log)) == Core(RowsOf(a, log))
  {
  }

  /** While the four counters stand still, so do the rows of both logs that move a sum. */
  lemma {:induction false} SettledIsSteady(ks: seq<Commit>, lo: nat, s: Space, log: DiffLog)
    requires AllStorable(ks)
    requires lo <= |ks| && Settled(AccountAt(ks, lo, s).totals, AccountAt(ks, |ks|, s).totals)
    ensures Steady(ks, lo, s, log, false)
  {
    hide PgRun, Core;
    forall i | lo <= i <= |ks|
      ensures Sift(RowsOf(AccountAt(ks, i, s), log), false) == Sift(RowsOf(AccountAt(ks, lo, s), log), false)
    {
      CoreSteadyTo(ks, lo, i, s, log);
    }
  }

  // ----- what unmoved counters leave open

  /** A commit that would move none of the four counters, by the branch it takes. */
  predicate Still(a: Account, k: Commit) {
    match k.change
    case Register(_, digest, size, _, _) => Find(a.blobs, digest).Some? || size == 0
    case Deregister(_, digest, _, _) => Find(a.blobs, digest).None? || k.looked == 0
    case Upsert(_, root, _, cause, at) =>
      IndexOf(a.uploads, root) < |a.uploads| || HasKey(a.objects, Instant(at), cause)
    case Remove(_, root, cause, at) =>
      IndexOf(a.uploads, root) == |a.uploads| || HasKey(a.objects, Instant(at), cause)
  }

  /** A commit that would log a change of no bytes. */
  predicate Weightless(a: Account, k: Commit) {
    match k.change
    case Register(_, digest, size, _, _) => Find(a.blobs, digest).None? && size == 0
    case Deregister(_, digest, _, _) => Find(a.blobs, digest).Some? && k.looked == 0
    case Upsert(_, _, _, _, _) => false
    case Remove(_, _, _, _) => false
  }

  lemma {:induction false} CounterMoves(a: Account, k: Commit, m: Metric)
    ensures PgAct(a, k).totals.Get(m) == a.totals.Get(m) <==> PgMoved(a, k).Get(m) == 0
  {
    hide PgWritten, PgMoved, UInt64, Totals.Plus;
    PlusGet(a.totals, PgMoved(a, k), m);
    WordStays(a.totals.Get(m), PgMoved(a, k).Get(m));
  }

  /**
   A commit that goes through leaves the four counters alone exactly when it is a
   registration that is repeated or of no bytes, a removal that finds nothing or
   looked up no bytes, an upsert of a known root, a removal of an absent one, or a
   change the upload log holds already.
   */
  lemma {:induction false} SettledExactly(a: Account, k: Commit)
    ensures Settled(a.totals, PgAct(a, k).totals) <==> Still(a, k)
  {
    CounterMoves(a, k, BlobAddSize);
    CounterMoves(a, k, BlobRemoveSize);
    CounterMoves(a, k, UploadAdd);
    CounterMoves(a, k, UploadRemove);
    hide PgAct, HasKey, IndexOf, Position;
  }

  /** Such a commit never adds to the upload log, and to the byte log only a change of no bytes. */
  lemma {:induction false} StillRows(a: Account, k: Commit)
    requires Still(a, k)
    ensures PgAct(a, k).objects == a.objects
    ensures PgAct(a, k).bytes == a.bytes <==> !Weightless(a, k)
  {
    hide HasKey, IndexOf, Position, Without, Int64, Totals.Plus;
  }

  /** Whether the i-th commit is of the space and goes through. */
  ghost predicate Goes(ks: seq<Commit>, i: nat, s: Space)
    requires i < |ks|
  {
    ks[i].change.space == s && !RolledBack(PgRun(ks[..i]), Stamped(ks[i]))
  }

  lemma {:induction false} StepTo(ks: seq<Commit>, i: nat, s: Space)
    requires i < |ks|
    ensures AccountAt(ks, i + 1, s)
         == if Goes(ks, i, s) then PgAct(AccountAt(ks, i, s), Stamped(ks[i])) else AccountAt(ks, i, s)
  {
    hide PgApply, PgAct, RolledBack, Stamped;
    assert ks[..i + 1][..i] == ks[..i];
    PgApplyAccount(PgRun(ks[..i]), ks[i], s);
  }

  lemma {:induction false} StepSettled(ks: seq<Commit>, i: nat, s: Space)
    requires i < |ks|
    ensures Settled(AccountAt(ks, i, s).totals, AccountAt(ks, i + 1, s).totals)
            <==> (Goes(ks, i, s) ==> Still(AccountAt(ks, i, s), Stamped(ks[i])))
  {
    hide PgRun, PgAct, Still, PgMoved, Stamped;
    StepTo(ks, i, s);
    if Goes(ks, i, s) {
      SettledExactly(AccountAt(ks, i, s), Stamped(ks[i]));
    }
  }

  /** Every commit of the space from the lo-th on that goes through leaves the counters alone. */
  ghost predicate AllStill(ks: seq<Commit>, lo: nat, s: Space) {
    forall i :: lo <= i < |ks| && Goes(ks, i, s) ==> Still(AccountAt(ks, i, s), Stamped(ks[i]))
  }

  /** No commit of the space from the lo-th on that goes through logs a change of no bytes. */
  ghost predicate NoneWeightless(ks: seq<Commit>, lo: nat, s: Space) {
    forall i :: lo <= i < |ks| && Goes(ks, i, s) ==> !Weightless(AccountAt(ks, i, s), Stamped(ks[i]))
  }

  lemma {:induction false} SettledTo(ks: seq<Commit>, lo: nat, j: nat, s: Space)
    requires lo <= j <= |ks| && AllStill(ks, lo, s)
    ensures Settled(AccountAt(ks, lo, s).totals, AccountAt(ks, j, s).totals)
    decreases j
  {
    hide PgRun, Still, Goes, Stamped;
    if lo < j {
      SettledTo(ks, lo, j - 1, s);
      StepSettled(ks, j - 1, s);
    }
  }

  lemma {:induction false} SettledStep(ks: seq<Commit>, lo: nat, i: nat, s: Space)
    requires AllStorable(ks)
    requires lo <= i < |ks| && Settled(AccountAt(ks, lo, s).totals, AccountAt(ks, |ks|, s).totals)
    ensures Settled(AccountAt(ks, i, s).totals, AccountAt(ks, i + 1, s).totals)
  {
    hide PgRun;
    SettledBetween(ks, lo, i, s);
    SettledBetween(ks, lo, i + 1, s);
  }

  /** The four counters read the same exactly when every commit between left them alone. */
  lemma {:induction false} StoodStill(ks: seq<Commit>, lo: nat, s: Space)
    requires AllStorable(ks)
    requires lo <= |ks|
    ensures Settled(AccountAt(ks, lo, s).totals, AccountAt(ks, |ks|, s).totals) <==> AllStill(ks, lo, s)
  {
    hide PgRun, Still, Goes, Stamped, Settled;
    if AllStill(ks, lo, s) { SettledTo(ks, lo, |ks|, s); }
    if Settled(AccountAt(ks, lo, s).totals, AccountAt(ks, |ks|, s).totals) {
      forall i | lo <= i < |ks| && Goes(ks, i, s) ensures Still(AccountAt(ks, i, s), Stamped(ks[i])) {
        SettledStep(ks, lo, i, s);
        StepSettled(ks, i, s);
      }
    }
  }

  lemma {:induction false} StepRows(ks: seq<Commit>, lo: nat, i: nat, s: Space)
    requires AllStorable(ks)
    requires lo <= i < |ks| && Settled(AccountAt(ks, lo, s).totals, AccountAt(ks, |ks|, s).totals)
    ensures AccountAt(ks, i + 1, s).objects == AccountAt(ks, i, s).objects
    ensures AccountAt(ks, i + 1, s).bytes == AccountAt(ks, i, s).bytes
            <==> (Goes(ks, i, s) ==> !Weightless(AccountAt(ks, i, s), Stamped(ks[i])))
  {
    hide PgRun, PgAct, Still, Weightless, Stamped, Goes, Settled;
    StepTo(ks, i, s);
    SettledStep(ks, lo, i, s);
    StepSettled(ks, i, s);
    if Goes(ks, i, s) { StillRows(AccountAt(ks, i, s), Stamped(ks[i])); }
  }

  lemma {:induction false} RowsTo(ks: seq<Commit>, lo: nat, j: nat, s: Space)
    requires AllStorable(ks)
    requires lo <= j <= |ks| && Settled(AccountAt(ks, lo, s).totals, AccountAt(ks, |ks|, s).totals)
    ensures AccountAt(ks, j, s).objects == AccountAt(ks, lo, s).objects
    ensures NoneWeightless(ks, lo, s) ==> AccountAt(ks, j, s).bytes == AccountAt(ks, lo, s).bytes
    decreases j
  {
    hide PgRun, Weightless, Stamped, Goes, Settled;
    if lo < j {
      RowsTo(ks, lo, j - 1, s);
      StepRows(ks, lo, j - 1, s);
    }
  }

  /**
   While the four counters stand still the upload log stands still whole, and the
   byte log does exactly when no change of no bytes was logged.
   */
  lemma {:induction false} ListsStill(ks: seq<Commit>, lo: nat, s: Space)
    requires AllStorable(ks)
    requires lo <= |ks| && Settled(AccountAt(ks, lo, s).totals, AccountAt(ks, |ks|, s).totals)
    ensures Steady(ks, lo, s, Objects, true)
    ensures Steady(ks, lo, s, Bytes, true) <==> NoneWeightless(ks, lo, s)
  {
    hide PgRun, Weightless, Stamped, Goes, Settled;
    forall j | lo <= j <= |ks|
      ensures AccountAt(ks, j, s).objects == AccountAt(ks, lo, s).objects
      ensures NoneWeightless(ks, lo, s) ==> AccountAt(ks, j, s).bytes == AccountAt(ks, lo, s).bytes
    {
      RowsTo(ks, lo, j, s);
    }
    if Steady(ks, lo, s, Bytes, true) {
      forall i | lo <= i < |ks| && Goes(ks, i, s) ensures !Weightless(AccountAt(ks, i, s), Stamped(ks[i])) {
        BytesAlike(ks, lo, i, s);
        StepRows(ks, lo, i, s);
      }
    }
  }

  lemma {:induction false} BytesAlike(ks: seq<Commit>, lo: nat, i: nat, s: Space)
    requires lo <= i < |ks| && Steady(ks, lo, s, Bytes, true)
    ensures AccountAt(ks, i + 1, s).bytes == AccountAt(ks, i, s).bytes
  {
    hide PgRun;
    var first := Sift(RowsOf(AccountAt(ks, lo, s), Bytes), true);
    assert Sift(RowsOf(AccountAt(ks, i, s), Bytes), true) == first;
    assert Sift(RowsOf(AccountAt(ks, i + 1, s), Bytes), true) == first;
  }

  /** A new space takes a blob of no bytes. */
  lemma {:induction false} TakesEmpty(k: Commit)
    requires k.change.Register? && k.change.size == 0 && OnTick(k.change.at)
    ensures Stamped(k) == k && !RolledBack(NEW_BOOKS, k) && Still(NEW_ACCOUNT, k)
    ensures PgAct(NEW_ACCOUNT, k).blobs == [Record(k.change.digest, 0, k.change.cause)]
    ensures PgAct(NEW_ACCOUNT, k).bytes == [Row(k.change.at, k.change.cause, 0)]
  {
    hide Totals.Plus;
    assert PgMoved(NEW_ACCOUNT, k) == ZERO.(blobAdd := 1);
  }

  /** A blob of no bytes is registered and logged, and the four counters do not move. */
  lemma {:induction false} UnseenCommit(s: Space, d: Digest) returns (ks: seq<Commit>)
    ensures |ks| == 1 && Goes(ks, 0, s)
    ensures Settled(AccountAt(ks, 0, s).totals, AccountAt(ks, 1, s).totals)
    ensures AccountAt(ks, 0, s) == NEW_ACCOUNT
    ensures AccountAt(ks, 1, s).blobs == [Record(d, 0, "c")] && AccountAt(ks, 1, s).bytes == [Row(0, "c", 0)]
  {
    var k := Commit(Register(s, d, 0, "c", 0), 0);
    ks := [k];
    assert ks[..0] == [];
    assert AccountAt(ks, 0, s) == NEW_ACCOUNT;
    hide PgAct, RolledBack, Still, Stamped, PgApply, PgRun;
    TakesEmpty(k);
    StepTo(ks, 0, s);
    StepSettled(ks, 0, s);
  }

  lemma {:induction false} LogsSorted(ks: seq<Commit>, s: Space, log: DiffLog)
    ensures StrictlySorted(RowsOf(AccountOf(PgRun(ks), s), log))
  {
    hide PgRun, StrictlySorted, UniqueDigests, Congruent;
    PgRunTidy(ks, s);
  }

  // ----- scanning

  lemma {:induction false} SiftRest(rows: seq<Row>, b: Bound, all: bool)
    ensures Sift(Rest(rows, b), all) == Rest(Sift(rows, all), b)
  {
    RestCore(rows, b);
  }

  /** What a cursor, or its absence, leaves to list. */
  function Left(rows: seq<Row>, cursor: Option<Bound>): seq<Row> {
    if cursor.None? then [] else Rest(rows, cursor.value)
  }

  /** A page takes the front of what is left, and its cursor resumes with the remainder. */
  lemma {:induction false} PageTakes(rows: seq<Row>, b: Bound, all: bool)
    requires StrictlySorted(rows)
    ensures Rest(Sift(rows, all), b)
         == Sift(Page(rows, b, PAGE_SIZE).results, all) + Left(Sift(rows, all), Page(rows, b, PAGE_SIZE).cursor)
  {
    var page, rest := Page(rows, b, PAGE_SIZE), Rest(rows, b);
    SiftRest(rows, b, all);
    if page.cursor.Some? {
      PageResumes(rows, b, PAGE_SIZE);
      assert rest == page.results + rest[PAGE_SIZE..];
      CoreAppend(page.results, rest[PAGE_SIZE..]);
      SiftRest(rows, page.cursor.value, all);
    }
  }

  /** While the log is steady, the rows a scan has and those it has still to list make up its goal. */
  ghost predicate OnCourse(ks: seq<Commit>, lo: nat, s: Space, log: DiffLog, all: bool, goal: Bound, rows: seq<Row>,
          cursor: Option<Bound>)
    requires lo <= |ks|
  {
    var first := Sift(RowsOf(AccountAt(ks, lo, s), log), all);
    Steady(ks, lo, s, log, all) ==> Sift(rows, all) + Left(first, cursor) == Rest(first, goal)
  }

  lemma {:induction false} PageExtends(current: seq<Row>, first: seq<Row>, b: Bound, rows: seq<Row>, goal: seq<Row>,
          all: bool)
    requires StrictlySorted(current) && Sift(current, all) == first && Sift(rows, all) + Rest(first, b) == goal
    ensures Sift(rows + Page(current, b, PAGE_SIZE).results, all) + Left(first, Page(current, b, PAGE_SIZE).cursor)
            == goal
  {
    var page := Page(current, b, PAGE_SIZE);
    PageTakes(current, b, all);
    assert Sift(rows + page.results, all) == Sift(rows, all) + Sift(page.results, all) by {
      CoreAppend(rows, page.results);
    }
    Associates(Sift(rows, all), Sift(page.results, all), Left(first, page.cursor));
  }

  lemma {:induction false} LastAccount(ks: seq<Commit>, s: Space)
    ensures AccountAt(ks, |ks|, s) == AccountOf(PgRun(ks), s)
  {
    assert ks[..|ks|] == ks;
  }

  /** One more page, listed after some more commits, keeps a scan on course. */
  lemma {:induction false} StaysOnCourse(ks: seq<Commit>, ks': seq<Commit>, lo: nat, s: Space, log: DiffLog, all: bool,
          goal: Bound, rows: seq<Row>, b: Bound)
    requires lo <= |ks| && ks <= ks' && AllStorable(ks')
    requires OnCourse(ks, lo, s, log, all, goal, rows, Some(b))
    ensures var page := Page(RowsOf(AccountOf(PgRun(ks'), s), log), b, PAGE_SIZE);
            OnCourse(ks', lo, s, log, all, goal, rows + page.results, page.cursor)
  {
    hide PgRun, Core, Rest, StrictlySorted;
    if Steady(ks', lo, s, log, all) {
      var first := Sift(RowsOf(AccountAt(ks', lo, s), log), all);
      SteadyShrinks(ks, ks', lo, s, log, all);
      SameAccount(ks, ks', lo, s);
      LastAccount(ks', s);
      LogsSorted(ks', s, log);
      PageExtends(RowsOf(AccountOf(PgRun(ks'), s), log), first, b, rows, Rest(first, goal), all);
    }
  }

  /** The rows a scan sets out to list. */
  ghost function Goal(ks: seq<Commit>, s: Space, log: DiffLog, from: int): seq<Row> {
    Rest(RowsOf(AccountOf(PgRun(ks), s), log), Since(from - SECOND))
  }

  /** What a scan of an unchanging log answers. */
  function QuietScan(goal: seq<Row>): Scanned {
    if |goal| > MAX_SCAN_ROWS then RangeTooBusy else Rows(goal)
  }

  // ----- what a scan holds while others write

  lemma {:induction false} PgActKeeps(a: Account, k: Commit)
    ensures forall r :: r in a.bytes ==> r in PgAct(a, k).bytes
    ensures forall r :: r in a.objects ==> r in PgAct(a, k).objects
  {
    hide Insert, HasKey, Position, IndexOf, Without, Int64, Totals.Plus;
    forall row ensures forall r :: r in a.bytes ==> r in Insert(a.bytes, row) { InsertMember(a.bytes, row); }
    forall row ensures forall r :: r in a.objects ==> r in Insert(a.objects, row) { InsertMember(a.objects, row); }
  }

  /** A row once logged stays. */
  lemma {:induction false} RowsStay(ks: seq<Commit>, ks': seq<Commit>, s: Space, log: DiffLog)
    requires ks <= ks'
    ensures forall r :: r in RowsOf(AccountOf(PgRun(ks), s), log) ==> r in RowsOf(AccountOf(PgRun(ks'), s), log)
    decreases |ks'|
  {
    if |ks| == |ks'| {
      assert ks == ks';
    } else {
      var init, k := ks'[..|ks'| - 1], ks'[|ks'| - 1];
      RowsStay(ks, init, s, log);
      assert PgRun(ks') == PgApply(PgRun(init), k);
      hide PgRun, PgApply, PgAct, RolledBack, Stamped;
      PgApplyAccount(PgRun(init), k, s);
      PgActKeeps(AccountOf(PgRun(init), s), Stamped(k));
    }
  }

  /** Rows of a log beyond a bound, each once and in order. */
  ghost predicate Gathered(rows: seq<Row>, log: seq<Row>, goal: Bound) {
    StrictlySorted(rows) && forall r :: r in rows ==> r in log && Beyond(goal, r)
  }

  /** Where a scan that holds some rows resumes: after the last of them. */
  function Resume(rows: seq<Row>, goal: Bound): Bound {
    if rows == [] then goal else KeyOf(rows[|rows| - 1])
  }

  lemma {:induction false} BeyondLast(rows: seq<Row>, r: Row)
    requires StrictlySorted(rows) && rows != [] && Beyond(KeyOf(rows[|rows| - 1]), r)
    ensures forall i :: 0 <= i < |rows| ==> RowLess(rows[i], r)
  {
    var last := rows[|rows| - 1];
    forall i | 0 <= i < |rows| ensures RowLess(rows[i], r) {
      KeyOrder(rows[i], last, r);
      KeyOrder(last, r, r);
    }
  }

  lemma {:induction false} LaterSorted(rows: seq<Row>, more: seq<Row>)
    requires StrictlySorted(rows) && StrictlySorted(more)
    requires rows != [] ==> forall r :: r in more ==> Beyond(KeyOf(rows[|rows| - 1]), r)
    ensures StrictlySorted(rows + more)
  {
    forall i, j | 0 <= i < j < |rows + more| ensures RowLess((rows + more)[i], (rows + more)[j]) {
      if i < |rows| <= j {
        assert (rows + more)[j] in more;
        BeyondLast(rows, (rows + more)[j]);
      }
    }
  }

  lemma {:induction false} LaterBeyond(rows: seq<Row>, goal: Bound, r: Row)
    requires StrictlySorted(rows) && (rows != [] ==> Beyond(goal, rows[0])) && Beyond(Resume(rows, goal), r)
    ensures Beyond(goal, r)
  {
    if rows != [] {
      BeyondLast(rows, r);
      BeyondUpward(goal, rows[0], r);
    }
  }

  /** A page lists rows of the log, in order and all beyond the bound. */
  lemma {:induction false} PageRows(log: seq<Row>, b: Bound)
    requires StrictlySorted(log)
    ensures var page := Page(log, b, PAGE_SIZE);
            && StrictlySorted(page.results) && (forall r :: r in page.results ==> r in log && Beyond(b, r))
            && (page.cursor.Some? ==> page.results != [])
            && (page.cursor.Some? ==> page.cursor.value == KeyOf(page.results[|page.results| - 1]))
  {
    RestMember(log, b);
    RestIsTail(log, b);
    hide Rest;
    var rest, page := Rest(log, b), Page(log, b, PAGE_SIZE);
    forall r | r in page.results ensures r in rest {
      var j :| 0 <= j < |page.results| && page.results[j] == r;
      assert rest[j] == r;
    }
  }

  /** One more page adds later rows and no row twice, whatever was logged meanwhile. */
  lemma {:induction false} GathersMore(rows: seq<Row>, log: seq<Row>, goal: Bound)
    requires Gathered(rows, log, goal) && StrictlySorted(log)
    ensures var page := Page(log, Resume(rows, goal), PAGE_SIZE);
            && Gathered(rows + page.results, log, goal)
            && (page.cursor.Some? ==> page.cursor.value == Resume(rows + page.results, goal))
  {
    var page := Page(log, Resume(rows, goal), PAGE_SIZE);
    PageRows(log, Resume(rows, goal));
    hide Page, RowLess, Beyond;
    assert rows != [] ==> rows[0] in rows;
    LaterSorted(rows, page.results);
    forall r | r in page.results ensures Beyond(goal, r) { LaterBeyond(rows, goal, r); }
  }

  lemma {:induction false} DistinctCount(rows: seq<Row>)
    requires StrictlySorted(rows)
    ensures |set r | r in rows| == |rows|
  {
    if rows != [] {
      var init, last := rows[..|rows| - 1], rows[|rows| - 1];
      DistinctCount(init);
      assert (set r | r in rows) == (set r | r in init) + {last};
      if last in init {
        var i :| 0 <= i < |init| && init[i] == last;
        KeyOrder(rows[i], last, last);
      }
    }
  }

  lemma {:induction false} CountAtMost(rows: seq<Row>)
    ensures |set r | r in rows| <= |rows|
  {
    if rows != [] {
      var init, last := rows[..|rows| - 1], rows[|rows| - 1];
      CountAtMost(init);
      assert (set r | r in rows) == (set r | r in init) + {last};
    }
  }

  lemma {:induction false} Smaller<T>(a: set<T>, b: set<T>)
    requires a <= b
    ensures |a| <= |b|
  {
    if a != {} {
      var x :| x in a;
      Smaller(a - {x}, b - {x});
    }
  }

  /** A scan never holds more rows than the log has beyond the bound. */
  lemma {:induction false} GatheredFew(rows: seq<Row>, log: seq<Row>, goal: Bound)
    requires Gathered(rows, log, goal)
    ensures |rows| <= |Rest(log, goal)|
  {
    RestMember(log, goal);
    DistinctCount(rows);
    CountAtMost(Rest(log, goal));
    Smaller(set r | r in rows, set r | r in Rest(log, goal));
  }

  lemma {:induction false} GatheredStays(rows: seq<Row>, ks: seq<Commit>, ks': seq<Commit>, s: Space, log: DiffLog,
          goal: Bound)
    requires ks <= ks' && Gathered(rows, RowsOf(AccountOf(PgRun(ks), s), log), goal)
    ensures Gathered(rows, RowsOf(AccountOf(PgRun(ks'), s), log), goal)
  {
    hide PgRun, StrictlySorted;
    RowsStay(ks, ks', s, log);
  }

  /** One more page of a log as it stands after some more commits. */
  lemma {:induction false} Gathers(rows: seq<Row>, ks: seq<Commit>, ks': seq<Commit>, s: Space, log: DiffLog,
          goal: Bound)
    requires ks <= ks' && Gathered(rows, RowsOf(AccountOf(PgRun(ks), s), log), goal)
    ensures var now := RowsOf(AccountOf(PgRun(ks'), s), log);
            var page := Page(now, Resume(rows, goal), PAGE_SIZE);
            && Gathered(rows + page.results, now, goal) && |rows + page.results| <= |Rest(now, goal)|
            && (page.cursor.Some? ==> page.cursor.value == Resume(rows + page.results, goal))
  {
    hide PgRun, Page, Rest, Gathered, Resume, StrictlySorted, RowsOf;
    var now := RowsOf(AccountOf(PgRun(ks'), s), log);
    GatheredStays(rows, ks, ks', s, log, goal);
    LogsSorted(ks', s, log);
    GathersMore(rows, now, goal);
    GatheredFew(rows + Page(now, Resume(rows, goal), PAGE_SIZE).results, now, goal);
  }

  /** What being on course means for the rows so far. */
  lemma {:induction false} Concludes(ks: seq<Commit>, start: seq<Commit>, s: Space, log: DiffLog, from: int,
          rows: seq<Row>, cursor: Option<Bound>)
    requires start <= ks
    requires OnCourse(ks, |start|, s, log, true, Since(from - SECOND), rows, cursor)
    requires OnCourse(ks, |start|, s, log, false, Since(from - SECOND), rows, cursor)
    ensures Steady(ks, |start|, s, log, true) ==> rows <= Goal(start, s, log, from)
    ensures Steady(ks, |start|, s, log, true) && cursor.None? ==> rows == Goal(start, s, log, from)
    ensures Steady(ks, |start|, s, log, false) && cursor.None? ==> Core(rows) == Core(Goal(start, s, log, from))
  {
    assert ks[..|start|] == start;
    SiftRest(RowsOf(AccountOf(PgRun(start), s), log), Since(from - SECOND), false);
  }

  /** A scan under way: on course for either purpose, and holding rows each once and in order. */
  ghost predicate Scanning(ks: seq<Commit>, start: seq<Commit>, s: Space, log: DiffLog, from: int, rows: seq<Row>,
          cursor: Option<Bound>)
  {
    var goal := Since(from - SECOND);
    && start <= ks
    && OnCourse(ks, |start|, s, log, true, goal, rows, cursor)
    && OnCourse(ks, |start|, s, log, false, goal, rows, cursor)
    && Gathered(rows, RowsOf(AccountOf(PgRun(ks), s), log), goal)
    && |rows| <= |Goal(ks, s, log, from)|
    && (cursor.Some? ==> cursor.value == Resume(rows, goal))
  }

  lemma {:induction false} ScanStarts(ks: seq<Commit>, s: Space, log: DiffLog, from: int)
    ensures Scanning(ks, ks, s, log, from, [], Some(Since(from - SECOND)))
  {
    hide PgRun, Rest;
  }

  /** One more page, of the log as it stands after some more commits. */
  lemma {:induction false} ScanSteps(ks: seq<Commit>, ks': seq<Commit>, start: seq<Commit>, s: Space, log: DiffLog,
          from: int, rows: seq<Row>, b: Bound)
    requires Scanning(ks, start, s, log, from, rows, Some(b)) && ks <= ks' && AllStorable(ks')
    ensures var page := Page(RowsOf(AccountOf(PgRun(ks'), s), log), b, PAGE_SIZE);
            && Scanning(ks', start, s, log, from, rows + page.results, page.cursor)
            && (page.cursor.Some? ==> page.results != [])
  {
    hide PgRun, OnCourse, Gathered, Resume, RowsOf, Rest;
    StaysOnCourse(ks, ks', |start|, s, log, true, Since(from - SECOND), rows, b);
    StaysOnCourse(ks, ks', |start|, s, log, false, Since(from - SECOND), rows, b);
    Gathers(rows, ks, ks', s, log, Since(from - SECOND));
  }

  /** What a scan stops with: too many rows, or no cursor left. */
  lemma {:induction false} ScanStops(ks: seq<Commit>, start: seq<Commit>, s: Space, log: DiffLog, from: int,
          rows: seq<Row>, cursor: Option<Bound>)
    requires Scanning(ks, start, s, log, from, rows, cursor) && (|rows| > MAX_SCAN_ROWS || cursor.None?)
    ensures Steady(ks, |start|, s, log, true) ==> QuietScan(rows) == QuietScan(Goal(start, s, log, from))
    ensures cursor.None? && Steady(ks, |start|, s, log, false) ==> Core(rows) == Core(Goal(start, s, log, from))
    ensures Gathered(rows, RowsOf(AccountOf(PgRun(ks), s), log), Since(from - SECOND))
    ensures |rows| <= |Goal(ks, s, log, from)|
  {
    hide PgRun, OnCourse, Gathered, Resume, RowsOf, Rest, Goal, Steady, Core;
    Concludes(ks, start, s, log, from, rows, cursor);
  }

  /**
   Lists a log page by page from a second before the range. While other callers
   leave the log alone it returns every later row once, in order, or refuses
   exactly when there are more than it may hold; while they only add rows of no
   weight it still returns every row that moves a sum. Whatever they add, it returns
   no row twice and refuses only when the log has more than 500,000 rows to list.
   */
  method Scan(db: Backend, s: Space, from: int, log: DiffLog) returns (r: Scanned)
    requires db.Valid()
    modifies db
    ensures db.Valid() && old(db.commits) <= db.commits
    ensures r.Rows? && Steady(db.commits, |old(db.commits)|, s, log, false) ==>
              Core(r.rows) == Core(Goal(old(db.commits), s, log, from))
    ensures Steady(db.commits, |old(db.commits)|, s, log, true) ==> r == QuietScan(Goal(old(db.commits), s, log, from))
    ensures r.Rows? ==> Gathered(r.rows, RowsOf(AccountOf(PgRun(db.commits), s), log), Since(from - SECOND))
    ensures r.RangeTooBusy? ==> |Goal(db.commits, s, log, from)| > 500_000
  {
    hide PgRun, Scanning, Page, Steady, Core, Gathered, Goal, Rest, RowsOf;
    var rows: seq<Row> := [];
    var bound := Since(from - SECOND);
    ghost var start := db.commits;
    ScanStarts(start, s, log, from);
    while true
      invariant db.Valid() && start <= db.commits
      invariant |rows| <= MAX_SCAN_ROWS
      invariant Scanning(db.commits, start, s, log, from, rows, Some(bound))
      decreases MAX_SCAN_ROWS - |rows|
    {
      ghost var before := db.commits;
      var page := db.List(log, s, bound);
      ScanSteps(before, db.commits, start, s, log, from, rows, bound);
      rows := rows + page.results;
      if |rows| > MAX_SCAN_ROWS || page.cursor.None? {
        ScanStops(db.commits, start, s, log, from, rows, page.cursor);
      }
      if |rows| > MAX_SCAN_ROWS { return RangeTooBusy; }
      if page.cursor.None? || |page.results| == 0 { return Rows(rows); }
      bound := page.cursor.value;
    }
  }

  // ----- the read

  /** A reading that cannot be told from one committed state by any sum over time. */
  ghost predicate Snapshot(r: Reading, a: Account, from: int)
    requires r.Reading?
  {
    && Stored(a.totals.blobAddSize, a.totals.blobRemoveSize) == Some(r.storedBytes)
    && Stored(a.totals.uploadAdd, a.totals.uploadRemove) == Some(r.uploads)
    && forall w: Row -> int :: Blind(w, Since(from - SECOND)) ==>
         SumOf(r.byteRows, w) == SumOf(a.bytes, w) && SumOf(r.uploadRows, w) == SumOf(a.objects, w)
  }

  /** The reading of a space nobody writes to. */
  function QuietReading(a: Account, from: int): Reading {
    Answer(a.totals, QuietScan(Rest(a.bytes, Since(from - SECOND))), QuietScan(Rest(a.objects, Since(from - SECOND))))
  }

  /** What two scans and a settled reading of the counters make. */
  function Answer(t: Totals, bytes: Scanned, uploads: Scanned): Reading {
    var storedBytes, count := Stored(t.blobAddSize, t.blobRemoveSize), Stored(t.uploadAdd, t.uploadRemove);
    if bytes.RangeTooBusy? || uploads.RangeTooBusy? then TooBusy
    else if storedBytes.None? || count.None? then Inconsistent
    else Reading(storedBytes.value, count.value, bytes.rows, uploads.rows)
  }

  /**
   With nobody writing, a space with more than 500,000 rows to list in either log is too
   busy; of any other, the counters either account for no amount or leave the bytes and
   the uploads stored, beside every row to list.
   */
  lemma {:induction false} QuietReadingIs(a: Account, from: int)
    ensures var bytes, uploads := Rest(a.bytes, Since(from - SECOND)), Rest(a.objects, Since(from - SECOND));
            var r, t := QuietReading(a, from), a.totals;
            && (r == TooBusy <==> |bytes| > 500_000 || |uploads| > 500_000)
            && (r == Inconsistent <==> |bytes| <= 500_000 && |uploads| <= 500_000 && Unaccounted(t))
            && (r.Reading? ==> r.byteRows == bytes && r.uploadRows == uploads)
            && (r.Reading? ==> r.storedBytes == t.blobAddSize - t.blobRemoveSize)
            && (r.Reading? ==> r.uploads == t.uploadAdd - t.uploadRemove)
            && r != Unstable
  {
    hide Rest;
  }

  /** Rows that agree where sums can tell agree in every such sum. */
  lemma {:induction false} SameSums(rows: seq<Row>, log: seq<Row>, b: Bound, w: Row -> int)
    requires Blind(w, b) && Core(rows) == Core(Rest(log, b))
    ensures SumOf(rows, w) == SumOf(log, w)
  {
    SumBlind(rows, w, b);
    SumBlind(log, w, b);
    SumBlind(Rest(log, b), w, b);
  }

  /** Between two equal readings of the counters, both scans saw the state at the second scan's start. */
  lemma {:induction false} EnvelopeIsSnapshot(ks: seq<Commit>, lo: nat, mid: nat, s: Space, from: int, r: Reading)
    requires AllStorable(ks)
    requires lo <= mid <= |ks| && Settled(AccountAt(ks, lo, s).totals, AccountAt(ks, |ks|, s).totals) && r.Reading?
    requires Stored(AccountAt(ks, lo, s).totals.blobAddSize, AccountAt(ks, lo, s).totals.blobRemoveSize)
             == Some(r.storedBytes)
    requires Stored(AccountAt(ks, lo, s).totals.uploadAdd, AccountAt(ks, lo, s).totals.uploadRemove) == Some(r.uploads)
    requires Core(r.byteRows) == Core(Rest(AccountAt(ks, lo, s).bytes, Since(from - SECOND)))
    requires Core(r.uploadRows) == Core(Rest(AccountAt(ks, mid, s).objects, Since(from - SECOND)))
    ensures Snapshot(r, AccountAt(ks, lo, s), from)
  {
    CoreSteadyTo(ks, lo, mid, s, Objects);
    RestCore(AccountAt(ks, mid, s).objects, Since(from - SECOND));
    RestCore(AccountAt(ks, lo, s).objects, Since(from - SECOND));
    forall w: Row -> int | Blind(w, Since(from - SECOND))
      ensures SumOf(r.byteRows, w) == SumOf(AccountAt(ks, lo, s).bytes, w)
      ensures SumOf(r.uploadRows, w) == SumOf(AccountAt(ks, lo, s).objects, w)
    {
      SameSums(r.byteRows, AccountAt(ks, lo, s).bytes, Since(from - SECOND), w);
      SameSums(r.uploadRows, AccountAt(ks, lo, s).objects, Since(from - SECOND), w);
    }
  }

  /**
   A reading's upload rows are those of one state, and so are its byte rows unless a
   change of no bytes was logged while it read.
   */
  ghost predicate ListsExact(r: Reading, ks: seq<Commit>, k: nat, s: Space, from: int)
    requires r.Reading? && k <= |ks|
  {
    && r.uploadRows == Rest(AccountAt(ks, k, s).objects, Since(from - SECOND))
    && (NoneWeightless(ks, k, s) ==> r.byteRows == Rest(AccountAt(ks, k, s).bytes, Since(from - SECOND)))
  }

  /** Counters that moved between each reading and the next. */
  ghost predicate KeptMoving(ks: seq<Commit>, marks: seq<nat>, s: Space) {
    && (forall i :: 0 <= i < |marks| ==> marks[i] <= |ks|)
    && (forall i :: 0 <= i < |marks| - 1 ==>
          marks[i] <= marks[i + 1]
            && !Settled(AccountAt(ks, marks[i], s).totals, AccountAt(ks, marks[i + 1], s).totals))
  }

  lemma {:induction false} MarksGrow(ks: seq<Commit>, ks': seq<Commit>, marks: seq<nat>, s: Space)
    requires ks <= ks' && KeptMoving(ks, marks, s)
    ensures KeptMoving(ks', marks, s)
  {
    forall i | 0 <= i < |marks| ensures AccountAt(ks', marks[i], s) == AccountAt(ks, marks[i], s) {
      SameAccount(ks, ks', marks[i], s);
    }
  }

  lemma {:induction false} StillSettled(ks: seq<Commit>, lo: nat, mid: nat, s: Space)
    requires AllStorable(ks)
    requires lo <= mid <= |ks| && Settled(AccountAt(ks, lo, s).totals, AccountAt(ks, |ks|, s).totals)
    ensures Settled(AccountAt(ks, mid, s).totals, AccountAt(ks, |ks|, s).totals)
  {
    SettledBetween(ks, lo, mid, s);
  }

  /** A scan inside a settled envelope kept every row that moves a sum. */
  lemma {:induction false} ScannedCore(ks0: seq<Commit>, ks1: seq<Commit>, ks: seq<Commit>, s: Space, log: DiffLog)
    requires AllStorable(ks)
    requires ks0 <= ks1 <= ks && Settled(AccountAt(ks, |ks0|, s).totals, AccountAt(ks, |ks|, s).totals)
    ensures Steady(ks1, |ks0|, s, log, false)
    ensures AccountOf(PgRun(ks0), s) == AccountAt(ks, |ks0|, s)
  {
    SettledIsSteady(ks, |ks0|, s, log);
    SteadyShrinks(ks1, ks, |ks0|, s, log, false);
    SameAccount(ks0, ks, |ks0|, s);
    LastAccount(ks0, s);
  }

  lemma {:induction false} QuietSteady(ks: seq<Commit>, s: Space, log: DiffLog)
    ensures Steady(ks, |ks|, s, log, true)
  {
  }

  lemma {:induction false} QuietScanned(ks: seq<Commit>, ks': seq<Commit>, s: Space, from: int, log: DiffLog,
          r: Scanned)
    requires ks <= ks' && (Steady(ks', |ks|, s, log, true) ==> r == QuietScan(Goal(ks, s, log, from)))
    ensures ks' == ks ==> r == QuietScan(Rest(RowsOf(AccountOf(PgRun(ks), s), log), Since(from - SECOND)))
  {
    QuietSteady(ks, s, log);
  }

  lemma {:induction false} QuietChain(x: seq<Commit>, y: seq<Commit>, z: seq<Commit>)
    requires x <= y <= z
    ensures x <= z && (z == x ==> y == x)
  {
  }

  /** An envelope whose two readings of the counters agree yields a snapshot. */
  lemma {:induction false} Envelope(ks0: seq<Commit>, ks1: seq<Commit>, ks2: seq<Commit>, ks: seq<Commit>, s: Space,
          from: int, r: Reading)
    requires AllStorable(ks)
    requires ks0 <= ks1 <= ks2 <= ks && r.Reading?
    requires Settled(AccountAt(ks, |ks0|, s).totals, AccountAt(ks, |ks|, s).totals)
    requires Stored(AccountAt(ks, |ks0|, s).totals.blobAddSize, AccountAt(ks, |ks0|, s).totals.blobRemoveSize)
             == Some(r.storedBytes)
    requires Stored(AccountAt(ks, |ks0|, s).totals.uploadAdd, AccountAt(ks, |ks0|, s).totals.uploadRemove)
             == Some(r.uploads)
    requires Steady(ks1, |ks0|, s, Bytes, false) ==> Core(r.byteRows) == Core(Goal(ks0, s, Bytes, from))
    requires Steady(ks2, |ks1|, s, Objects, false) ==> Core(r.uploadRows) == Core(Goal(ks1, s, Objects, from))
    ensures Snapshot(r, AccountAt(ks, |ks0|, s), from)
  {
    ScannedCore(ks0, ks1, ks, s, Bytes);
    StillSettled(ks, |ks0|, |ks1|, s);
    ScannedCore(ks1, ks2, ks, s, Objects);
    EnvelopeIsSnapshot(ks, |ks0|, |ks1|, s, from, r);
  }

  lemma {:induction false} SteadyLater(ks: seq<Commit>, lo: nat, mid: nat, s: Space, log: DiffLog, all: bool)
    requires lo <= mid <= |ks| && Steady(ks, lo, s, log, all)
    ensures Steady(ks, mid, s, log, all)
  {
    hide PgRun, Core;
  }

  /** A scan of a log that stood still whole lists it as it stood. */
  lemma {:induction false} ScannedWhole(ks0: seq<Commit>, ks1: seq<Commit>, ks: seq<Commit>, lo: nat, s: Space,
          from: int, log: DiffLog, rows: seq<Row>)
    requires lo <= |ks0| && ks0 <= ks1 <= ks && Steady(ks, lo, s, log, true)
    requires Steady(ks1, |ks0|, s, log, true) ==> Rows(rows) == QuietScan(Goal(ks0, s, log, from))
    ensures rows == Rest(RowsOf(AccountAt(ks, lo, s), log), Since(from - SECOND))
  {
    hide PgRun, Rest;
    SteadyLater(ks, lo, |ks0|, s, log, true);
    SteadyShrinks(ks1, ks, |ks0|, s, log, true);
    SameAccount(ks0, ks, |ks0|, s);
    LastAccount(ks0, s);
    assert Sift(RowsOf(AccountAt(ks, |ks0|, s), log), true) == Sift(RowsOf(AccountAt(ks, lo, s), log), true);
  }

  /** An envelope whose two readings of the counters agree holds both logs' rows. */
  lemma {:induction false} EnvelopeLists(ks0: seq<Commit>, ks1: seq<Commit>, ks2: seq<Commit>, ks: seq<Commit>,
          s: Space, from: int, r: Reading)
    requires AllStorable(ks)
    requires ks0 <= ks1 <= ks2 <= ks && r.Reading?
    requires Settled(AccountAt(ks, |ks0|, s).totals, AccountAt(ks, |ks|, s).totals)
    requires Steady(ks1, |ks0|, s, Bytes, true) ==> Rows(r.byteRows) == QuietScan(Goal(ks0, s, Bytes, from))
    requires Steady(ks2, |ks1|, s, Objects, true) ==> Rows(r.uploadRows) == QuietScan(Goal(ks1, s, Objects, from))
    ensures ListsExact(r, ks, |ks0|, s, from)
  {
    hide PgRun, Rest, Steady, Settled, NoneWeightless, QuietScan, Goal;
    ListsStill(ks, |ks0|, s);
    ScannedWhole(ks1, ks2, ks, |ks0|, s, from, Objects, r.uploadRows);
    if NoneWeightless(ks, |ks0|, s) { ScannedWhole(ks0, ks1, ks, |ks0|, s, from, Bytes, r.byteRows); }
  }

  /**
   One attempt: both scans, then the counters again. Answers nothing when a
   counter moved; what else it answers with is final.
   */
  method Attempt(db: Backend, s: Space, from: int, totals: Totals) returns (r: Option<Reading>, after: Totals)
    requires db.Valid() && totals == AccountOf(PgRun(db.commits), s).totals
    modifies db
    ensures db.Valid() && old(db.commits) <= db.commits
    ensures r.Some? && r.value.Reading? ==> Snapshot(r.value, AccountAt(db.commits, |old(db.commits)|, s), from)
    ensures r.Some? && r.value.Reading? ==> ListsExact(r.value, db.commits, |old(db.commits)|, s, from)
    ensures r.Some? ==> !r.value.Unstable?
    ensures r == Some(TooBusy) ==> exists log :: |Goal(db.commits, s, log, from)| > 500_000
    ensures r == Some(Inconsistent) ==> Unaccounted(totals)
    ensures r.None? ==> after == AccountOf(PgRun(db.commits), s).totals && !Settled(totals, after)
    ensures db.commits == old(db.commits) ==> r == Some(QuietReading(AccountOf(PgRun(db.commits), s), from))
  {
    hide PgRun, Core, Rest, Snapshot, ListsExact, AccountAt, Steady;
    ghost var ks0 := db.commits;
    after := totals;
    var bytes := Scan(db, s, from, Bytes);
    ghost var ks1 := db.commits;
    QuietScanned(ks0, ks1, s, from, Bytes, bytes);
    if bytes.RangeTooBusy? { return Some(TooBusy), after; }
    var uploads := Scan(db, s, from, Objects);
    ghost var ks2 := db.commits;
    QuietScanned(ks1, ks2, s, from, Objects, uploads);
    QuietChain(ks0, ks1, ks2);
    if uploads.RangeTooBusy? { return Some(TooBusy), after; }
    after := db.GetTotals(s);
    QuietChain(ks0, ks2, db.commits);
    if !Settled(totals, after) { return None, after; }
    var storedBytes := Stored(totals.blobAddSize, totals.blobRemoveSize);
    var count := Stored(totals.uploadAdd, totals.uploadRemove);
    if storedBytes.None? || count.None? { return Some(Inconsistent), after; }
    var reading := Reading(storedBytes.value, count.value, bytes.rows, uploads.rows);
    LastAccount(db.commits, s);
    LastAccount(ks0, s);
    SameAccount(ks0, db.commits, |ks0|, s);
    Envelope(ks0, ks1, ks2, db.commits, s, from, reading);
    EnvelopeLists(ks0, ks1, ks2, db.commits, s, from, reading);
    return Some(reading), after;
  }

  /**
   Reads a space's totals and logs as of one instant. Whatever other callers
   commit meanwhile, a reading it returns is that of one committed state; it
   gives up after three attempts, each of which saw a counter move; and when
   nobody commits the first attempt answers.
   */
  method Read(db: Backend, s: Space, from: int) returns (r: Reading, ghost marks: seq<nat>)
    requires db.Valid()
    modifies db
    ensures db.Valid() && old(db.commits) <= db.commits
    ensures r.Reading? ==>
              exists k :: |old(db.commits)| <= k <= |db.commits| && Snapshot(r, AccountAt(db.commits, k, s), from)
                          && ListsExact(r, db.commits, k, s, from)
    ensures r.Reading? ==> 0 <= r.storedBytes <= MAX_INT64 && 0 <= r.uploads <= MAX_INT64
    ensures r.TooBusy? ==> exists log :: |Goal(db.commits, s, log, from)| > 500_000
    ensures r.Inconsistent? ==>
              exists k :: |old(db.commits)| <= k <= |db.commits| && Unaccounted(AccountAt(db.commits, k, s).totals)
    ensures 1 <= |marks| <= TOTALS_ATTEMPTS + 1 && KeptMoving(db.commits, marks, s) && |old(db.commits)| <= marks[0]
    ensures r.Unstable? ==> |marks| == TOTALS_ATTEMPTS + 1
    ensures db.commits == old(db.commits) ==> r == QuietReading(AccountOf(PgRun(db.commits), s), from)
  {
    hide PgRun;
    ghost var start := db.commits;
    var totals := db.GetTotals(s);
    marks := [|db.commits|];
    var attempt := 1;
    while true
      invariant db.Valid() && start <= db.commits && 1 <= attempt <= TOTALS_ATTEMPTS
      invariant |marks| == attempt && KeptMoving(db.commits, marks, s) && |start| <= marks[0]
      invariant marks[attempt - 1] == |db.commits| && totals == AccountOf(PgRun(db.commits), s).totals
      invariant db.commits == start ==> attempt == 1
      decreases TOTALS_ATTEMPTS - attempt
    {
      ghost var before := db.commits;
      var answer, after := Attempt(db, s, from, totals);
      MarksGrow(before, db.commits, marks, s);
      LastAccount(before, s);
      SameAccount(before, db.commits, |before|, s);
      if answer.Some? { return answer.value, marks; }
      LastAccount(db.commits, s);
      marks := marks + [|db.commits|];
      if attempt >= TOTALS_ATTEMPTS { return Unstable, marks; }
      totals := after;
      attempt := attempt + 1;
    }
  }
}
