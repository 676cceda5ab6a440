/**
 The in-memory stores: counters, the two diff logs, the blob registry and the
 upload store, as objects that update their maps in place.
 */
module Stores {
  import opened Words
  import opened Ordering
  import opened DiffLogs
  import opened Accounting

  function Listed<T>(m: map<Space, seq<T>>, s: Space): seq<T> {
    if s in m then m[s] else []
  }

  lemma {:induction false} ListedUpdate<T>(m: map<Space, seq<T>>, m': map<Space, seq<T>>, k: Space, v: seq<T>)
    requires m' == m[k := v]
    ensures forall s :: Listed(m', s) == if s == k then v else Listed(m, s)
  {
  }

  // ----- counters

  function Count(m: map<Metric, Word>, k: Metric): Word {
    if k in m then m[k] else 0
  }

  /** What a map of counters says of each metric; one it lacks reads as zero. */
  function Counters(m: map<Metric, Word>): Totals {
    Totals(Count(m, BlobAdd), Count(m, BlobAddSize), Count(m, BlobRemove),
           Count(m, BlobRemoveSize), Count(m, UploadAdd), Count(m, UploadRemove))
  }

  function Summed(counters: map<Metric, Word>, inc: map<Metric, Word>, k: Metric): Word {
    UInt64(Count(counters, k) + Count(inc, k))
  }

  lemma {:induction false} AllSummed(counters: map<Metric, Word>, inc: map<Metric, Word>, r: map<Metric, Word>)
    requires forall k: Metric :: Count(r, k) == Summed(counters, inc, k)
    ensures Counters(r) == Counters(counters).Plus(Counters(inc))
  {
    hide UInt64, Count;
  }

  /** Adds increments into counters, in any order. */
  method AddAll(counters: map<Metric, Word>, inc: map<Metric, Word>) returns (r: map<Metric, Word>)
    ensures Counters(r) == Counters(counters).Plus(Counters(inc))
  {
    hide UInt64, Counters;
    r := counters;
    var left := inc.Keys;
    while left != {}
      invariant left <= inc.Keys
      invariant forall k: Metric :: Count(r, k) == if k in left then Count(counters, k) else Summed(counters, inc, k)
      decreases left
    {
      var k :| k in left;
      r := r[k := UInt64(Count(r, k) + inc[k])];
      left := left - {k};
    }
    AllSummed(counters, inc, r);
  }

  class Metrics {
    var metrics: map<Metric, Word>

    constructor ()
      ensures Counters(metrics) == ZERO
    {
      metrics := map[];
    }

    method IncrementTotals(inc: map<Metric, Word>)
      modifies this
      ensures Counters(metrics) == Counters(old(metrics)).Plus(Counters(inc))
    {
      metrics := AddAll(metrics, inc);
    }
  }

  class SpaceMetrics {
    var metrics: map<Space, map<Metric, Word>>

    constructor ()
      ensures forall s :: Of(s) == ZERO
    {
      metrics := map[];
    }

    function Of(s: Space): Totals
      reads this
    {
      if s in metrics then Counters(metrics[s]) else ZERO
    }

    method IncrementTotals(space: Space, inc: map<Metric, Word>)
      modifies this
      ensures Of(space) == old(Of(space)).Plus(Counters(inc))
      ensures forall s :: s != space ==> Of(s) == old(Of(s))
    {
      var counters := if space in metrics then metrics[space] else map[];
      var r := AddAll(counters, inc);
      metrics := metrics[space := r];
    }
  }

  // ----- diff logs

  /** Rows in (receiptAt, cause) order, rows of equal keys in the order given. */
  function SortRows(rows: seq<Row>): seq<Row> {
    if rows == [] then [] else Insert(SortRows(rows[..|rows| - 1]), rows[|rows| - 1])
  }

  lemma {:induction false} InsertSorted(rows: seq<Row>, row: Row)
    requires Sorted(rows)
    ensures Sorted(Insert(rows, row))
  {
    if rows != [] && RowLess(row, rows[|rows| - 1]) {
      var init, last := rows[..|rows| - 1], rows[|rows| - 1];
      InsertSorted(init, row);
      InsertMember(init, row);
      var head := Insert(init, row);
      forall i | 0 <= i < |head| ensures !RowLess(last, head[i]) {
        assert head[i] in head;
        if head[i] == row {
          KeyOrder(row, last, row);
        } else {
          var j :| 0 <= j < |init| && init[j] == head[i];
          assert rows[j] == head[i];
        }
      }
    } else {
      forall i | 0 <= i < |rows| ensures !RowLess(row, rows[i]) {
        if RowLess(row, rows[i]) { KeyOrder(row, rows[i], rows[|rows| - 1]); KeyOrder(rows[|rows| - 1], row, rows[i]); }
      }
    }
  }

  /** Sorting leaves a sorted log alone, so appending and sorting is inserting. */
  lemma {:induction false} SortSorted(rows: seq<Row>)
    requires Sorted(rows)
    ensures SortRows(rows) == rows
  {
    if rows != [] { SortSorted(rows[..|rows| - 1]); }
  }

  lemma {:induction false} AppendAndSort(rows: seq<Row>, row: Row)
    requires Sorted(rows)
    ensures SortRows(rows + [row]) == Insert(rows, row)
  {
    SortSorted(rows);
    assert (rows + [row])[..|rows|] == rows;
  }

  /** What a listing answers, or that it indexed outside a slice. */
  datatype Listing = Listing(page: PageOf) | Panicked

  class SpaceDiffs {
    var diffs: map<Space, seq<Row>>

    ghost predicate Valid()
      reads this
    {
      forall s :: Sorted(Listed(diffs, s))
    }

    constructor ()
      ensures Valid() && diffs == map[]
    {
      diffs := map[];
    }

    method Put(space: Space, cause: Cause, delta: int, receiptAt: int)
      requires Valid()
      modifies this
      ensures Valid() && diffs == old(diffs)[space := Insert(old(Listed(diffs, space)), Row(receiptAt, cause, delta))]
    {
      hide Sorted, Insert;
      var rows := Listed(diffs, space);
      AppendAndSort(rows, Row(receiptAt, cause, delta));
      InsertSorted(rows, Row(receiptAt, cause, delta));
      diffs := diffs[space := SortRows(rows + [Row(receiptAt, cause, delta)])];
      ListedUpdate(old(diffs), diffs, space, SortRows(rows + [Row(receiptAt, cause, delta)]));
    }

    /**
     Lists a page. The limit is the caller's as it stands: a positive one pages,
     and any other fails unless it is zero and nothing is left to list.
     */
    method List(space: Space, b: Bound, limit: int) returns (r: Listing)
      ensures r.Panicked? <==> limit < 0 || (limit == 0 && Rest(Listed(diffs, space), b) != [])
      ensures limit > 0 ==> r == Listing(Page(Listed(diffs, space), b, limit))
      ensures limit == 0 && !r.Panicked? ==> r == Listing(PageOf([], None))
    {
      var rows := Listed(diffs, space);
      var page: seq<Row> := [];
      var i := 0;
      hide Rest;
      RestAll(rows[..0], b);
      while i < |rows|
        invariant 0 <= i <= |rows| && page == Rest(rows[..i], b)
        invariant |page| <= limit || page == []
      {
        assert rows[..i + 1] == rows[..i] + [rows[i]];
        RestSnoc(rows[..i], rows[i], b);
        if Beyond(b, rows[i]) {
          page := page + [rows[i]];
          if |page| > limit {
            i := i + 1;
            break;
          }
        }
        i := i + 1;
      }
      assert rows == rows[..i] + rows[i..];
      RestAppend(rows[..i], rows[i..], b);
      if |page| > limit {
        if limit <= 0 { return Panicked; }
        return Listing(PageOf(page[..limit], Some(KeyOf(page[limit - 1]))));
      }
      assert i == |rows| ==> rows[i..] == [];
      return Listing(PageOf(page, None));
    }
  }

  class UploadDiffs {
    var diffs: map<Space, seq<Row>>

    ghost predicate Valid()
      reads this
    {
      forall s :: Sorted(Listed(diffs, s))
    }

    constructor ()
      ensures Valid() && diffs == map[]
    {
      diffs := map[];
    }

    /** Records a change unless the log holds its instant and cause already, and says which. */
    method Put(space: Space, cause: Cause, delta: int, receiptAt: int) returns (recorded: bool)
      requires Valid()
      modifies this
      ensures Valid() && recorded == !HasKey(old(Listed(diffs, space)), Instant(receiptAt), cause)
      ensures recorded ==>
                diffs == old(diffs)[space := Insert(old(Listed(diffs, space)), Row(Instant(receiptAt), cause, delta))]
      ensures !recorded ==> diffs == old(diffs)
    {
      var at := Instant(receiptAt);
      var rows := Listed(diffs, space);
      for i := 0 to |rows|
        invariant forall j :: 0 <= j < i ==> !(rows[j].at == at && rows[j].cause == cause)
      {
        if rows[i].cause == cause && rows[i].at == at { return false; }
      }
      hide Sorted, Insert;
      AppendAndSort(rows, Row(at, cause, delta));
      InsertSorted(rows, Row(at, cause, delta));
      diffs := diffs[space := SortRows(rows + [Row(at, cause, delta)])];
      ListedUpdate(old(diffs), diffs, space, SortRows(rows + [Row(at, cause, delta)]));
      return true;
    }

    /** Lists a page; a limit that is not positive means the default. */
    method List(space: Space, b: Bound, limit: int) returns (r: PageOf)
      ensures r == Page(Listed(diffs, space), b, if limit > 0 then limit else 1000)
    {
      var size := if limit > 0 then limit else 1000;
      var rows := Listed(diffs, space);
      var page: seq<Row> := [];
      hide Rest;
      RestAll(rows[..0], b);
      for i := 0 to |rows|
        invariant page == Rest(rows[..i], b)
      {
        assert rows[..i + 1] == rows[..i] + [rows[i]];
        RestSnoc(rows[..i], rows[i], b);
        if Beyond(b, rows[i]) { page := page + [rows[i]]; }
      }
      assert rows[..|rows|] == rows;
      if |page| > size { return PageOf(page[..size], Some(KeyOf(page[size - 1]))); }
      return PageOf(page, None);
    }
  }

  // ----- registry

  /** How far one removal moves the counters. */
  function Removal(size: Word): Totals {
    ZERO.(blobRemove := 1, blobRemoveSize := size)
  }

  /** An account with a removal logged and counted. */
  function Charged(a: Account, size: Word, cause: Cause, at: int): Account {
    a.(bytes := Insert(a.bytes, Row(at, cause, Int64(-Int64(size)))), totals := a.totals.Plus(Removal(size)))
  }

  /** The blob registry, with the log and the counters it writes to. */
  class Registry {
    var blobs: map<Space, seq<Record>>
    const diffs: SpaceDiffs
    const spaceMetrics: SpaceMetrics
    const adminMetrics: Metrics

    ghost predicate Valid()
      reads this, diffs
    {
      diffs.Valid() && forall s :: UniqueDigests(Listed(blobs, s))
    }

    constructor (diffs: SpaceDiffs, spaceMetrics: SpaceMetrics, adminMetrics: Metrics)
      requires diffs.Valid()
      ensures Valid() && blobs == map[]
      ensures this.diffs == diffs && this.spaceMetrics == spaceMetrics && this.adminMetrics == adminMetrics
    {
      blobs := map[];
      this.diffs, this.spaceMetrics, this.adminMetrics := diffs, spaceMetrics, adminMetrics;
    }

    /** What the registry, its log and its counters hold for a space. */
    function Of(s: Space): Account
      reads this, diffs, spaceMetrics
    {
      Account(Listed(blobs, s), [], Listed(diffs.diffs, s), [], spaceMetrics.Of(s))
    }

    method Get(space: Space, digest: Digest) returns (r: Option<Record>)
      ensures r == Find(Listed(blobs, space), digest)
    {
      var recs := Listed(blobs, space);
      for i := 0 to |recs|
        invariant forall j :: 0 <= j < i ==> recs[j].digest != digest
      {
        if recs[i].digest == digest {
          PositionIs(recs, digest, i);
          return Some(recs[i]);
        }
      }
      PositionIs(recs, digest, |recs|);
      return None;
    }

    /** One change is one diff row and one movement of each set of counters. */
    method Count(space: Space, cause: Cause, delta: int, inc: map<Metric, Word>, now: int)
      requires Valid()
      modifies diffs, spaceMetrics, adminMetrics
      ensures Valid()
      ensures Of(space) == old(Of(space)).(
                             bytes := Insert(old(Of(space)).bytes, Row(now, cause, delta)),
                             totals := old(Of(space)).totals.Plus(Counters(inc)))
      ensures forall s :: s != space ==> Of(s) == old(Of(s))
      ensures Counters(adminMetrics.metrics) == old(Counters(adminMetrics.metrics)).Plus(Counters(inc))
    {
      hide Sorted, Insert, Counters, UInt64;
      diffs.Put(space, cause, delta, now);
      spaceMetrics.IncrementTotals(space, inc);
      adminMetrics.IncrementTotals(inc);
    }

    method Register(space: Space, digest: Digest, size: Word, cause: Cause, now: int) returns (r: Outcome)
      requires Valid()
      modifies this, diffs, spaceMetrics, adminMetrics
      ensures Valid()
      ensures Told(Change.Register(space, digest, size, cause, now), old(Of(space)), Of(space), r)
      ensures r == Result(old(Of(space)), Change.Register(space, digest, size, cause, now))
      ensures Of(space) == Act(old(Of(space)), Change.Register(space, digest, size, cause, now))
      ensures forall s :: s != space ==> Of(s) == old(Of(s))
      ensures Counters(adminMetrics.metrics)
           == old(Counters(adminMetrics.metrics)).Plus(Moved(old(Of(space)),
                Change.Register(space, digest, size, cause, now)))
    {
      hide Sorted, Insert, UInt64, Without, Position, Totals.Plus, Told;
      ActTells(Of(space), Change.Register(space, digest, size, cause, now));
      var recs := Listed(blobs, space);
      PlusZero(spaceMetrics.Of(space));
      PlusZero(Counters(adminMetrics.metrics));
      for i := 0 to |recs|
        invariant forall j :: 0 <= j < i ==> recs[j].digest != digest
      {
        if recs[i].digest == digest {
          PositionIs(recs, digest, i);
          return EntryExists;
        }
      }
      PositionIs(recs, digest, |recs|);
      var inc := map[BlobAdd := 1, BlobAddSize := size];
      Count(space, cause, Int64(size), inc, now);
      blobs := blobs[space := recs + [Record(digest, size, cause)]];
      ListedUpdate(old(blobs), blobs, space, recs + [Record(digest, size, cause)]);
      return Done;
    }

    /** Keeps the records of other digests, and charges the removal of one of this digest. */
    method DropRows(space: Space, digest: Digest, cause: Cause, now: int) returns (kept: seq<Record>)
      requires Valid()
      modifies diffs, spaceMetrics, adminMetrics
      ensures Valid() && kept == Without(Listed(blobs, space), digest)
      ensures var found := Find(Listed(blobs, space), digest);
              var was, adminWas := old(Of(space)), old(Counters(adminMetrics.metrics));
              && Of(space) == (if found.None? then was else Charged(was, found.value.size, cause, now))
              && Counters(adminMetrics.metrics)
              == (if found.None? then adminWas else adminWas.Plus(Removal(found.value.size)))
      ensures forall s :: s != space ==> Of(s) == old(Of(s))
    {
      hide Sorted, Insert, UInt64, Position, Totals.Plus, Without, Counters;
      var recs := Listed(blobs, space);
      ghost var was, adminWas := Of(space), Counters(adminMetrics.metrics);
      ghost var p := Position(recs, digest);
      WithoutAbsent(recs[..0], digest);
      kept := [];
      for i := 0 to |recs|
        invariant Valid() && blobs == old(blobs)
        invariant kept == Without(recs[..i], digest)
        invariant Of(space) == if i <= p then was else Charged(was, recs[p].size, cause, now)
        invariant Counters(adminMetrics.metrics) == if i <= p then adminWas else adminWas.Plus(Removal(recs[p].size))
        invariant forall s :: s != space ==> Of(s) == old(Of(s))
      {
        assert recs[..i + 1] == recs[..i] + [recs[i]];
        WithoutSnoc(recs[..i], recs[i], digest);
        if recs[i].digest == digest {
          assert i == p;
          var inc := map[BlobRemove := 1, BlobRemoveSize := recs[i].size];
          RemovalCounts(recs[i].size);
          Count(space, cause, Int64(-Int64(recs[i].size)), inc, now);
        } else {
          kept := kept + [recs[i]];
        }
      }
      assert recs[..|recs|] == recs;
    }

    method Deregister(space: Space, digest: Digest, cause: Cause, now: int) returns (r: Outcome)
      requires Valid()
      modifies this, diffs, spaceMetrics, adminMetrics
      ensures Valid()
      ensures Told(Change.Deregister(space, digest, cause, now), old(Of(space)), Of(space), r)
      ensures r == Result(old(Of(space)), Change.Deregister(space, digest, cause, now))
      ensures Of(space) == Act(old(Of(space)), Change.Deregister(space, digest, cause, now))
      ensures forall s :: s != space ==> Of(s) == old(Of(s))
      ensures Counters(adminMetrics.metrics)
           == old(Counters(adminMetrics.metrics)).Plus(Moved(old(Of(space)),
                Change.Deregister(space, digest, cause, now)))
    {
      hide Sorted, Insert, UInt64, Position, Totals.Plus, Without, Counters, Told;
      ActTells(Of(space), Change.Deregister(space, digest, cause, now));
      var recs := Listed(blobs, space);
      PlusZero(spaceMetrics.Of(space));
      PlusZero(Counters(adminMetrics.metrics));
      var kept := DropRows(space, digest, cause, now);
      if Position(recs, digest) == |recs| { WithoutAbsent(recs, digest); } else { DropsOne(recs, digest); }
      if |kept| == |recs| { return EntryNotFound; }
      blobs := blobs[space := kept];
      ListedUpdate(old(blobs), blobs, space, kept);
      return Done;
    }
  }

  lemma {:induction false} RemovalCounts(size: Word)
    ensures Counters(map[BlobRemove := 1, BlobRemoveSize := size]) == Removal(size)
  {
  }

  // ----- shards

  type Shards = map<Space, map<Root, seq<string>>>

  function ShardsIn(shards: Shards, space: Space, root: Root): seq<string> {
    if space in shards && root in shards[space] then shards[space][root] else []
  }

  /** Shards with those of some more that are not among them. */
  function Merged(had: seq<string>, more: seq<string>): seq<string> {
    if more == [] then had
    else
      var init, last := Merged(had, more[..|more| - 1]), more[|more| - 1];
      if last in init then init else init + [last]
  }

  /** Files the shards an upsert names: the first of a space as they are given, any later ones merged. */
  function Filed(shards: Shards, space: Space, root: Root, given: seq<string>): Shards {
    if space !in shards then shards[space := map[root := SortNames(given)]]
    else shards[space := shards[space][root := SortNames(Merged(ShardsIn(shards, space, root), given))]]
  }

  function Unfiled(shards: Shards, space: Space, root: Root): Shards {
    if space in shards then shards[space := shards[space] - {root}] else shards
  }

  /** Removing an upload drops its shards and no other's. */
  lemma {:induction false} UnfiledKeeps(shards: Shards, space: Space, root: Root)
    ensures forall s, q ::
              ShardsIn(Unfiled(shards, space, root), s, q)
              == if s == space && q == root then [] else ShardsIn(shards, s, q)
  {
  }

  lemma {:induction false} MergedKeeps(had: seq<string>, more: seq<string>)
    ensures forall x :: x in Merged(had, more) <==> x in had || x in more
    ensures Distinct(Merged(had, more)) <==> Distinct(had)
    ensures had <= Merged(had, more)
  {
    if more != [] {
      MergedKeeps(had, more[..|more| - 1]);
      assert more == more[..|more| - 1] + [more[|more| - 1]];
      DistinctSnoc(Merged(had, more[..|more| - 1]), more[|more| - 1]);
      hide Distinct;
    }
  }

  /**
   After an upsert an upload has the shards it had and those given, in order, and no
   other upload's shards change. They hold a shard twice exactly when they did before,
   or when the upsert is the first of its space and is given one twice.
   */
  lemma {:induction false} FiledKeeps(shards: Shards, space: Space, root: Root, given: seq<string>)
    ensures var now := ShardsIn(Filed(shards, space, root, given), space, root);
            && (forall x :: x in now <==> x in ShardsIn(shards, space, root) || x in given) && InOrder(now)
            && (Distinct(now) <==> Distinct(if space in shards then ShardsIn(shards, space, root) else given))
    ensures forall s, r ::
              s != space || r != root ==> ShardsIn(Filed(shards, space, root, given), s, r) == ShardsIn(shards, s, r)
  {
    MergedKeeps(ShardsIn(shards, space, root), given);
    SortNamesKeeps(given);
    SortNamesKeeps(Merged(ShardsIn(shards, space, root), given));
    hide Distinct, InOrder, SortNames, Merged;
  }

  // ----- uploads

  /** The upload store, with the log and the counters it writes to. */
  class Uploads {
    var uploads: map<Space, seq<Upload>>
    var shards: Shards
    const diffs: UploadDiffs
    const spaceMetrics: SpaceMetrics
    const adminMetrics: Metrics

    ghost predicate Valid()
      reads this, diffs
    {
      diffs.Valid() && forall s :: UniqueRoots(Listed(uploads, s))
    }

    constructor (diffs: UploadDiffs, spaceMetrics: SpaceMetrics, adminMetrics: Metrics)
      requires diffs.Valid()
      ensures Valid() && uploads == map[] && shards == map[]
      ensures this.diffs == diffs && this.spaceMetrics == spaceMetrics && this.adminMetrics == adminMetrics
    {
      uploads, shards := map[], map[];
      this.diffs, this.spaceMetrics, this.adminMetrics := diffs, spaceMetrics, adminMetrics;
    }

    /** What the upload store, its log and its counters hold for a space. */
    function Of(s: Space): Account
      reads this, diffs, spaceMetrics
    {
      Account([], Listed(uploads, s), [], Listed(diffs.diffs, s), spaceMetrics.Of(s))
    }

    /** One change in the number of uploads; one the log already holds moves no counter. */
    method RecordDelta(space: Space, cause: Cause, delta: int, metric: Metric, now: int)
      requires Valid()
      modifies diffs, spaceMetrics, adminMetrics
      ensures Valid()
      ensures Of(space) == old(Of(space)).(
                             objects := Logged(old(Of(space)).objects, now, cause, delta),
                             totals := old(Of(space)).totals.Plus(Recording(old(Of(space)).objects, now, cause,
                                 metric)))
      ensures forall s :: s != space ==> Of(s) == old(Of(s))
      ensures Counters(adminMetrics.metrics)
           == old(Counters(adminMetrics.metrics)).Plus(Recording(old(Of(space)).objects, now, cause, metric))
    {
      hide Sorted, Insert, UInt64, Totals.Plus, HasKey, Counters;
      PlusZero(spaceMetrics.Of(space));
      PlusZero(Counters(adminMetrics.metrics));
      var recorded := diffs.Put(space, cause, delta, now);
      if !recorded { return; }
      var inc := map[metric := 1];
      spaceMetrics.IncrementTotals(space, inc);
      adminMetrics.IncrementTotals(inc);
    }

    /** Files the shards of an upload, each once unless they are the first of their space. */
    method FileShards(space: Space, root: Root, given: seq<string>)
      modifies this`shards
      ensures shards == Filed(old(shards), space, root, given)
      ensures forall s :: Of(s) == old(Of(s))
    {
      if space !in shards {
        shards := shards[space := map[root := SortNames(given)]];
        return;
      }
      var merged := ShardsIn(shards, space, root);
      for i := 0 to |given|
        invariant merged == Merged(ShardsIn(shards, space, root), given[..i])
      {
        assert given[..i + 1][..i] == given[..i];
        if given[i] !in merged { merged := merged + [given[i]]; }
      }
      assert given[..|given|] == given;
      shards := shards[space := shards[space][root := SortNames(merged)]];
    }

    /** Replaces the record of a root, or adds one, and counts it if it is new. */
    method PutUpload(space: Space, root: Root, index: Option<string>, cause: Cause, now: int)
      requires Valid()
      modifies this`uploads, diffs, spaceMetrics, adminMetrics
      ensures Valid()
      ensures Of(space) == Act(old(Of(space)), Change.Upsert(space, root, index, cause, now))
      ensures forall s :: s != space ==> Of(s) == old(Of(s))
      ensures Counters(adminMetrics.metrics)
           == old(Counters(adminMetrics.metrics)).Plus(Moved(old(Of(space)),
                Change.Upsert(space, root, index, cause, now)))
    {
      hide Sorted, Insert, UInt64, Totals.Plus, HasKey, IndexOf;
      PlusZero(spaceMetrics.Of(space));
      PlusZero(Counters(adminMetrics.metrics));
      var ups := Listed(uploads, space);
      var i := IndexOf(ups, root);
      if i == |ups| {
        RecordDelta(space, cause, 1, UploadAdd, now);
        uploads := uploads[space := ups + [Upload(root, index, cause)]];
        ListedUpdate(old(uploads), uploads, space, ups + [Upload(root, index, cause)]);
      } else {
        uploads := uploads[space := ups[i := Upload(root, index, cause)]];
        ListedUpdate(old(uploads), uploads, space, ups[i := Upload(root, index, cause)]);
      }
    }

    method Upsert(space: Space, root: Root, index: Option<string>, given: seq<string>, cause: Cause, now: int)
      requires Valid()
      modifies this, diffs, spaceMetrics, adminMetrics
      ensures Valid() && shards == Filed(old(shards), space, root, given)
      ensures Told(Change.Upsert(space, root, index, cause, now), old(Of(space)), Of(space), Done)
      ensures Of(space) == Act(old(Of(space)), Change.Upsert(space, root, index, cause, now))
      ensures forall s :: s != space ==> Of(s) == old(Of(s))
      ensures Counters(adminMetrics.metrics)
           == old(Counters(adminMetrics.metrics)).Plus(Moved(old(Of(space)),
                Change.Upsert(space, root, index, cause, now)))
    {
      hide Filed, Told;
      ActTells(Of(space), Change.Upsert(space, root, index, cause, now));
      hide Act, Moved, Counters, Totals.Plus, Sorted;
      hide Listed, UniqueRoots;
      FileShards(space, root, given);
      PutUpload(space, root, index, cause, now);
    }

    method Remove(space: Space, root: Root, cause: Cause, now: int) returns (r: Outcome)
      requires Valid()
      modifies this, diffs, spaceMetrics, adminMetrics
      ensures Valid()
      ensures r == Result(old(Of(space)), Change.Remove(space, root, cause, now))
      ensures Told(Change.Remove(space, root, cause, now), old(Of(space)), Of(space), r)
      ensures shards == if r == Done then Unfiled(old(shards), space, root) else old(shards)
      ensures forall s, q :: ShardsIn(shards, s, q)
                             == if r == Done && s == space && q == root then [] else old(ShardsIn(shards, s, q))
      ensures Of(space) == Act(old(Of(space)), Change.Remove(space, root, cause, now))
      ensures forall s :: s != space ==> Of(s) == old(Of(s))
      ensures Counters(adminMetrics.metrics)
           == old(Counters(adminMetrics.metrics)).Plus(Moved(old(Of(space)), Change.Remove(space, root, cause, now)))
    {
      hide Sorted, Insert, UInt64, Totals.Plus, HasKey, IndexOf;
      PlusZero(spaceMetrics.Of(space));
      PlusZero(Counters(adminMetrics.metrics));
      var ups := Listed(uploads, space);
      var i := IndexOf(ups, root);
      hide Told, ShardsIn;
      ActTells(Of(space), Change.Remove(space, root, cause, now));
      UnfiledKeeps(shards, space, root);
      if i == |ups| { return UploadNotFound; }
      if space in shards { shards := shards[space := shards[space] - {root}]; }
      assert forall s :: Of(s) == old(Of(s));
      RecordDelta(space, cause, -1, UploadRemove, now);
      uploads := uploads[space := ups[..i] + ups[i + 1..]];
      ListedUpdate(old(uploads), uploads, space, ups[..i] + ups[i + 1..]);
      return Done;
    }
  }

  /** What a call that answers r, given some shards, leaves of the shards filed. */
  function Refiled(shards: Shards, c: Change, given: seq<string>, r: Outcome): Shards {
    match c
    case Register(_, _, _, _, _) => shards
    case Deregister(_, _, _, _) => shards
    case Upsert(space, root, _, _, _) => Filed(shards, space, root, given)
    case Remove(space, root, _, _) => if r == Done then Unfiled(shards, space, root) else shards
  }

  /** How far a recorded change moves its counter. */
  function Recording(objects: seq<Row>, at: int, cause: Cause, metric: Metric): Totals {
    if HasKey(objects, Instant(at), cause) then ZERO else Counters(map[metric := 1])
  }

  // ----- the stores together

  /** The registry and the upload store as the server wires them, over shared counters. */
  class MemoryStores {
    const registry: Registry
    const uploads: Uploads
    ghost var run: seq<Change>

    /** What every store together holds for a space. */
    ghost function Of(s: Space): Account
      reads registry, registry.diffs, registry.spaceMetrics, uploads, uploads.diffs
    {
      Joined(registry.Of(s), Listed(uploads.uploads, s), Listed(uploads.diffs.diffs, s))
    }

    /** The stores hold what the specification says a run of calls leaves. */
    ghost predicate Valid()
      reads this, registry, registry.diffs, registry.spaceMetrics, registry.adminMetrics, uploads, uploads.diffs
    {
      && registry.Valid() && uploads.Valid()
      && registry.spaceMetrics == uploads.spaceMetrics && registry.adminMetrics == uploads.adminMetrics
      && (forall s :: Of(s) == AccountOf(Run(run), s))
      && Counters(registry.adminMetrics.metrics) == Run(run).admin
    }

    constructor ()
      ensures Valid() && run == []
    {
      var spaceDiffs := new SpaceDiffs();
      var uploadDiffs := new UploadDiffs();
      var spaceMetrics := new SpaceMetrics();
      var adminMetrics := new Metrics();
      registry := new Registry(spaceDiffs, spaceMetrics, adminMetrics);
      uploads := new Uploads(uploadDiffs, spaceMetrics, adminMetrics);
      run := [];
    }

    /** Any store call leaves what the specification of the call says, and answers as it does. */
    method Call(c: Change, given: seq<string>) returns (r: Outcome)
      requires Valid()
      modifies this, registry, registry.diffs, registry.spaceMetrics, registry.adminMetrics, uploads, uploads.diffs
      ensures Valid() && run == old(run) + [c]
      ensures r == Result(AccountOf(Run(old(run)), c.space), c)
      ensures uploads.shards == Refiled(old(uploads.shards), c, given, r)
    {
      RunSnoc(run, c);
      ApplyTouches(Run(run), c);
      hide Run, Act, Moved, Apply, AccountOf, Find, IndexOf, Sorted, UniqueDigests, UniqueRoots, Totals.Plus, Counters;
      hide Listed, Told, ShardsIn;
      assert Of(c.space) == AccountOf(Run(run), c.space);
      if c.Register? || c.Deregister? {
        BlobsAct(registry.Of(c.space), Listed(uploads.uploads, c.space), Listed(uploads.diffs.diffs, c.space), c);
      } else {
        UploadsAct(uploads.Of(c.space), Listed(registry.blobs, c.space), Listed(registry.diffs.diffs, c.space), c);
      }
      match c {
        case Register(space, digest, size, cause, at) => r := registry.Register(space, digest, size, cause, at);
        case Deregister(space, digest, cause, at) => r := registry.Deregister(space, digest, cause, at);
        case Upsert(space, root, index, cause, at) =>
          uploads.Upsert(space, root, index, given, cause, at);
          r := Done;
        case Remove(space, root, cause, at) => r := uploads.Remove(space, root, cause, at);
      }
      run := run + [c];
      assert Of(c.space) == Act(old(Of(c.space)), c);
      forall s | s != c.space ensures Of(s) == AccountOf(Run(run), s) {
        assert old(Of(s)) == AccountOf(Run(old(run)), s);
        if c.Register? || c.Deregister? {
          assert registry.Of(s) == old(registry.Of(s));
        } else {
          assert uploads.Of(s) == old(uploads.Of(s));
        }
      }
    }
  }

  lemma {:induction false} RunSnoc(cs: seq<Change>, c: Change)
    ensures Run(cs + [c]) == Apply(Run(cs), c)
  {
    assert (cs + [c])[..|cs|] == cs;
  }

  lemma {:induction false} ApplyTouches(b: Books, c: Change)
    ensures forall s :: AccountOf(Apply(b, c), s) == if s == c.space then Act(AccountOf(b, s), c) else AccountOf(b, s)
    ensures Apply(b, c).admin == b.admin.Plus(Moved(AccountOf(b, c.space), c))
  {
  }

  /** Blob calls look at no upload and change none. */
  lemma {:induction false} BlobsAct(a: Account, ups: seq<Upload>, objects: seq<Row>, c: Change)
    requires c.Register? || c.Deregister?
    ensures Act(Joined(a, ups, objects), c) == Joined(Act(a, c), ups, objects)
    ensures Moved(Joined(a, ups, objects), c) == Moved(a, c) && Result(Joined(a, ups, objects), c) == Result(a, c)
  {
  }

  /** Upload calls look at no blob and change none. */
  lemma {:induction false} UploadsAct(a: Account, blobs: seq<Record>, bytes: seq<Row>, c: Change)
    requires c.Upsert? || c.Remove?
    ensures Act(a.(blobs := blobs, bytes := bytes), c) == Act(a, c).(blobs := blobs, bytes := bytes)
    ensures Moved(a.(blobs := blobs, bytes := bytes), c) == Moved(a, c)
    ensures Result(a.(blobs := blobs, bytes := bytes), c) == Result(a, c)
  {
  }

  function Joined(a: Account, ups: seq<Upload>, objects: seq<Row>): Account {
    a.(uploads := ups, objects := objects)
  }

  lemma {:induction false} WithoutSnoc(recs: seq<Record>, rec: Record, digest: Digest)
    ensures Without(recs + [rec], digest)
            == if rec.digest == digest then Without(recs, digest) else Without(recs, digest) + [rec]
  {
    assert (recs + [rec])[..|recs|] == recs;
  }

  lemma {:induction false} PlusZero(t: Totals)
    ensures t.Plus(ZERO) == t
  {
  }
}
