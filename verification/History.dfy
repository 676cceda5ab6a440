/**
 What a space held at any past instant, rebuilt from its logs. The hypotheses
 are the ones the accounting needs: a clock that never goes back, changes that
 can be told apart by instant and cause, and sizes that fit in 63 bits.
 */
module History {
  import opened Words
  import opened DiffLogs
  import opened Accounting

  predicate OnBlobs(c: Change) {
    c.Register? || c.Deregister?
  }

  /** The instant the log of this kind of change keeps. */
  function RecordedAt(c: Change): int {
    if OnBlobs(c) then c.at else Instant(c.at)
  }

  /** Two changes one log could not tell apart. */
  predicate SameRow(c: Change, d: Change) {
    c.space == d.space && OnBlobs(c) == OnBlobs(d) && RecordedAt(c) == RecordedAt(d) && c.cause == d.cause
  }

  ghost predicate Fresh(cs: seq<Change>) {
    forall i, j :: 0 <= i < j < |cs| ==> !SameRow(cs[i], cs[j])
  }

  ghost predicate Clocked(cs: seq<Change>) {
    forall i, j :: 0 <= i < j < |cs| ==> cs[i].at <= cs[j].at
  }

  function Sizes(cs: seq<Change>): nat {
    if cs == [] then 0
    else Sizes(cs[..|cs| - 1]) + if cs[|cs| - 1].Register? then cs[|cs| - 1].size else 0
  }

  predicate Fits(cs: seq<Change>) {
    Sizes(cs) < TWO_63 && |cs| < TWO_63
  }

  predicate Wrote(c: Change, r: Row, s: Space, blobs: bool) {
    c.space == s && OnBlobs(c) == blobs && RecordedAt(c) == r.at && c.cause == r.cause
  }

  /** Every row of a log was written by a change of the run. */
  ghost predicate Sourced(rows: seq<Row>, cs: seq<Change>, s: Space, blobs: bool) {
    forall r :: r in rows ==> exists i :: 0 <= i < |cs| && Wrote(cs[i], r, s, blobs)
  }

  /** Registered bytes, byte log and byte counters all say the same. */
  ghost predicate BytesExact(a: Account, sizes: nat) {
    && UniqueDigests(a.blobs)
    && SumOf(a.bytes, Delta()) == BytesHeld(a.blobs)
    && a.totals.blobAddSize - a.totals.blobRemoveSize == BytesHeld(a.blobs)
    && a.totals.blobAddSize <= sizes < TWO_63
  }

  /** Uploads, upload log and upload counters all say the same. */
  ghost predicate ObjectsExact(a: Account, n: nat) {
    && UniqueRoots(a.uploads)
    && SumOf(a.objects, Delta()) == |a.uploads|
    && a.totals.uploadAdd - a.totals.uploadRemove == |a.uploads|
    && a.totals.uploadAdd <= n < TWO_63
  }

  ghost predicate LogsSourced(a: Account, cs: seq<Change>, s: Space) {
    && StrictlySorted(a.bytes) && Sourced(a.bytes, cs, s, true)
    && StrictlySorted(a.objects) && Sourced(a.objects, cs, s, false)
  }

  lemma {:induction false} SourcedGrows(rows: seq<Row>, cs: seq<Change>, c: Change, s: Space, blobs: bool)
    requires Sourced(rows, cs, s, blobs)
    ensures Sourced(rows, cs + [c], s, blobs)
  {
    forall r | r in rows ensures exists i :: 0 <= i < |cs + [c]| && Wrote((cs + [c])[i], r, s, blobs) {
      var i :| 0 <= i < |cs| && Wrote(cs[i], r, s, blobs);
      assert (cs + [c])[i] == cs[i];
    }
  }

  /** A fresh change writes a key the log does not hold yet. */
  lemma {:induction false} FreshKey(rows: seq<Row>, cs: seq<Change>, c: Change)
    requires Sourced(rows, cs, c.space, OnBlobs(c)) && Fresh(cs + [c])
    ensures !HasKey(rows, RecordedAt(c), c.cause)
  {
    var cs' := cs + [c];
    forall k | 0 <= k < |rows| ensures !(rows[k].at == RecordedAt(c) && rows[k].cause == c.cause) {
      assert rows[k] in rows;
      var i :| 0 <= i < |cs| && Wrote(cs[i], rows[k], c.space, OnBlobs(c));
      assert cs'[i] == cs[i] && !SameRow(cs'[i], cs'[|cs|]);
    }
  }

  lemma {:induction false} RowSourced(rows: seq<Row>, cs: seq<Change>, c: Change, delta: int)
    requires Sourced(rows, cs, c.space, OnBlobs(c)) && Fresh(cs + [c]) && StrictlySorted(rows)
    ensures StrictlySorted(Insert(rows, Row(RecordedAt(c), c.cause, delta)))
    ensures Sourced(Insert(rows, Row(RecordedAt(c), c.cause, delta)), cs + [c], c.space, OnBlobs(c))
  {
    var row, cs' := Row(RecordedAt(c), c.cause, delta), cs + [c];
    FreshKey(rows, cs, c);
    InsertFresh(rows, row);
    SourcedGrows(rows, cs, c, c.space, OnBlobs(c));
    InsertMember(rows, row);
    assert Wrote(cs'[|cs|], row, c.space, OnBlobs(c));
  }

  lemma {:induction false} ActSourced(a: Account, cs: seq<Change>, c: Change)
    requires LogsSourced(a, cs, c.space) && Fresh(cs + [c])
    ensures LogsSourced(Act(a, c), cs + [c], c.space)
  {
    SourcedGrows(a.bytes, cs, c, c.space, true);
    SourcedGrows(a.objects, cs, c, c.space, false);
    match c
    case Register(_, digest, size, cause, at) =>
      RowSourced(a.bytes, cs, c, Int64(size));
    case Deregister(_, digest, cause, at) =>
      if Find(a.blobs, digest).Some? {
        RowSourced(a.bytes, cs, c, Int64(-Int64(Find(a.blobs, digest).value.size)));
      }
    case Upsert(_, _, _, _, _) =>
      RowSourced(a.objects, cs, c, 1);
    case Remove(_, _, _, _) =>
      RowSourced(a.objects, cs, c, -1);
  }

  lemma {:induction false} RegisterExact(a: Account, sizes: nat, c: Change)
    requires c.Register? && BytesExact(a, sizes) && sizes + c.size < TWO_63
    ensures BytesExact(Act(a, c), sizes + c.size)
  {
    if Find(a.blobs, c.digest).None? {
      InsertSum(a.bytes, Row(c.at, c.cause, c.size), Delta());
      assert (a.blobs + [Record(c.digest, c.size, c.cause)])[..|a.blobs|] == a.blobs;
    }
  }

  lemma {:induction false} FoundIsHeld(recs: seq<Record>, i: nat)
    requires i < |recs|
    ensures recs[i].size <= BytesHeld(recs)
  {
    HeldSplit(recs, i);
  }

  lemma {:induction false} DeregisterExact(a: Account, sizes: nat, c: Change)
    requires c.Deregister? && BytesExact(a, sizes)
    ensures BytesExact(Act(a, c), sizes)
  {
    hide SumOf, Insert, Without, BytesHeld, Position;
    var found := Find(a.blobs, c.digest);
    if found.Some? {
      DropsOne(a.blobs, c.digest);
      FoundIsHeld(a.blobs, Position(a.blobs, c.digest));
      InsertSum(a.bytes, Row(c.at, c.cause, -(found.value.size as int)), Delta());
    }
  }

  lemma {:induction false} UploadExact(a: Account, cs: seq<Change>, c: Change)
    requires !OnBlobs(c) && ObjectsExact(a, |cs|) && |cs| + 1 < TWO_63
    requires Sourced(a.objects, cs, c.space, false) && Fresh(cs + [c])
    ensures ObjectsExact(Act(a, c), |cs| + 1)
  {
    hide SumOf, Insert, HasKey, IndexOf, Sourced, Fresh;
    FreshKey(a.objects, cs, c);
    InsertSum(a.objects, Row(Instant(c.at), c.cause, 1), Delta());
    InsertSum(a.objects, Row(Instant(c.at), c.cause, -1), Delta());
  }

  lemma {:induction false} SizesSnoc(cs: seq<Change>, c: Change)
    ensures Sizes(cs + [c]) == Sizes(cs) + if c.Register? then c.size else 0
  {
    assert (cs + [c])[..|cs|] == cs;
  }

  lemma {:induction false} PrefixFits(cs: seq<Change>, c: Change)
    requires Fits(cs + [c]) && Fresh(cs + [c])
    ensures Fits(cs) && Fresh(cs)
  {
    SizesSnoc(cs, c);
    forall i, j | 0 <= i < j < |cs| ensures !SameRow(cs[i], cs[j]) {
      assert (cs + [c])[i] == cs[i] && (cs + [c])[j] == cs[j];
    }
  }

  lemma {:induction false} ActExact(a: Account, cs: seq<Change>, c: Change)
    requires BytesExact(a, Sizes(cs)) && ObjectsExact(a, |cs|) && LogsSourced(a, cs, c.space)
    requires Fits(cs + [c]) && Fresh(cs + [c])
    ensures BytesExact(Act(a, c), Sizes(cs + [c])) && ObjectsExact(Act(a, c), |cs| + 1)
  {
    hide SumOf, Insert, BytesHeld, Sourced, Fresh, StrictlySorted, Sizes, Position, IndexOf, HasKey, Without;
    SizesSnoc(cs, c);
    match c
    case Register(_, _, _, _, _) => RegisterExact(a, Sizes(cs), c);
    case Deregister(_, _, _, _) => DeregisterExact(a, Sizes(cs), c);
    case Upsert(_, _, _, _, _) => UploadExact(a, cs, c);
    case Remove(_, _, _, _) => UploadExact(a, cs, c);
  }

  /**
   After every run of distinguishable changes that fits in 63 bits, a space's
   counters, its logs, its registered bytes and its uploads all say the same.
   */
  lemma {:induction false} RunExact(cs: seq<Change>, s: Space)
    requires Fits(cs) && Fresh(cs)
    ensures BytesExact(AccountOf(Run(cs), s), Sizes(cs))
    ensures ObjectsExact(AccountOf(Run(cs), s), |cs|)
    ensures LogsSourced(AccountOf(Run(cs), s), cs, s)
  {
    if cs != [] {
      var init, c := cs[..|cs| - 1], cs[|cs| - 1];
      assert cs == init + [c];
      PrefixFits(init, c);
      RunExact(init, s);
      var a := AccountOf(Run(init), s);
      if s == c.space {
        ActSourced(a, init, c);
        ActExact(a, init, c);
      } else {
        SizesSnoc(init, c);
        SourcedGrows(a.bytes, init, c, s, true);
        SourcedGrows(a.objects, init, c, s, false);
      }
    }
  }

  // ----- the past

  /** The changes recorded before an instant, by the byte log's clock. */
  function Until(cs: seq<Change>, t: int): seq<Change> {
    if cs == [] || cs[|cs| - 1].at < t then cs else Until(cs[..|cs| - 1], t)
  }

  /** The changes recorded before an instant, by the upload log's clock. */
  function UntilInstant(cs: seq<Change>, t: int): seq<Change> {
    if cs == [] || Instant(cs[|cs| - 1].at) < t then cs else UntilInstant(cs[..|cs| - 1], t)
  }

  /** By a clock that never goes back, these are exactly the changes made before the instant. */
  lemma {:induction false} UntilSplits(cs: seq<Change>, t: int)
    requires Clocked(cs)
    ensures Until(cs, t) <= cs
    ensures forall i :: 0 <= i < |cs| ==> (i < |Until(cs, t)| <==> cs[i].at < t)
  {
    if cs != [] && cs[|cs| - 1].at >= t { UntilSplits(cs[..|cs| - 1], t); }
  }

  /** When every row of a log precedes an instant, the sum before it is the whole sum. */
  lemma {:induction false} AllBefore(rows: seq<Row>, cs: seq<Change>, s: Space, blobs: bool, t: int)
    requires Sourced(rows, cs, s, blobs)
    requires forall i :: 0 <= i < |cs| && OnBlobs(cs[i]) == blobs ==> RecordedAt(cs[i]) < t
    ensures SumOf(rows, Before(t)) == SumOf(rows, Delta())
  {
    forall r | r in rows ensures Before(t)(r) + AtOrAfter(t)(r) == Delta()(r) && AtOrAfter(t)(r) == 0 {
      var i :| 0 <= i < |cs| && Wrote(cs[i], r, s, blobs);
    }
    SumAdds(rows, Before(t), AtOrAfter(t), Delta());
    SumVanishes(rows, AtOrAfter(t));
  }

  /** A row not before an instant leaves the sum before it alone. */
  lemma {:induction false} InsertLater(rows: seq<Row>, row: Row, t: int)
    requires row.at >= t
    ensures SumOf(Insert(rows, row), Before(t)) == SumOf(rows, Before(t))
  {
    InsertSum(rows, row, Before(t));
  }

  lemma {:induction false} BytesLater(a: Account, c: Change, t: int)
    requires c.at >= t
    ensures SumOf(Act(a, c).bytes, Before(t)) == SumOf(a.bytes, Before(t))
  {
    match c
    case Register(_, digest, size, cause, at) => InsertLater(a.bytes, Row(at, cause, Int64(size)), t);
    case Deregister(_, digest, cause, at) =>
      if Find(a.blobs, digest).Some? {
        InsertLater(a.bytes, Row(at, cause, Int64(-Int64(Find(a.blobs, digest).value.size))), t);
      }
    case Upsert(_, _, _, _, _) =>
    case Remove(_, _, _, _) =>
  }

  lemma {:induction false} ObjectsLater(a: Account, c: Change, t: int)
    requires Instant(c.at) >= t
    ensures SumOf(Act(a, c).objects, Before(t)) == SumOf(a.objects, Before(t))
  {
    InsertLater(a.objects, Row(Instant(c.at), c.cause, 1), t);
    InsertLater(a.objects, Row(Instant(c.at), c.cause, -1), t);
  }

  lemma {:induction false} InstantMonotone(x: int, y: int)
    requires x <= y
    ensures Instant(x) <= Instant(y)
  {
  }

  lemma {:induction false} ClockedPrefix(cs: seq<Change>)
    requires cs != [] && Clocked(cs) && Fits(cs) && Fresh(cs)
    ensures Clocked(cs[..|cs| - 1]) && Fits(cs[..|cs| - 1]) && Fresh(cs[..|cs| - 1])
  {
    assert cs == cs[..|cs| - 1] + [cs[|cs| - 1]];
    PrefixFits(cs[..|cs| - 1], cs[|cs| - 1]);
  }

  /** The byte log, read up to an instant, sums to the bytes registered by the changes before it. */
  lemma {:induction false} BytesAsOf(cs: seq<Change>, s: Space, t: int)
    requires Clocked(cs) && Fits(cs) && Fresh(cs)
    ensures SumOf(AccountOf(Run(cs), s).bytes, Before(t)) == BytesHeld(AccountOf(Run(Until(cs, t)), s).blobs)
  {
    if cs != [] {
      RunAccount(cs, s);
      hide SumOf, BytesHeld, Fresh, Sizes, Sourced, StrictlySorted, Run, Act;
      if cs[|cs| - 1].at < t {
        RunExact(cs, s);
        AllBefore(AccountOf(Run(cs), s).bytes, cs, s, true, t);
      } else {
        ClockedPrefix(cs);
        BytesAsOf(cs[..|cs| - 1], s, t);
        BytesLater(AccountOf(Run(cs[..|cs| - 1]), s), cs[|cs| - 1], t);
      }
    }
  }

  /** The upload log, read up to an instant, sums to the uploads held by the changes before it. */
  lemma {:induction false} UploadsAsOf(cs: seq<Change>, s: Space, t: int)
    requires Clocked(cs) && Fits(cs) && Fresh(cs)
    ensures SumOf(AccountOf(Run(cs), s).objects, Before(t)) == |AccountOf(Run(UntilInstant(cs, t)), s).uploads|
  {
    if cs != [] {
      RunAccount(cs, s);
      hide SumOf, Fresh, Sizes, Sourced, StrictlySorted, Run, Act;
      if Instant(cs[|cs| - 1].at) < t {
        RunExact(cs, s);
        forall i | 0 <= i < |cs| ensures Instant(cs[i].at) < t { InstantMonotone(cs[i].at, cs[|cs| - 1].at); }
        AllBefore(AccountOf(Run(cs), s).objects, cs, s, false, t);
      } else {
        ClockedPrefix(cs);
        UploadsAsOf(cs[..|cs| - 1], s, t);
        ObjectsLater(AccountOf(Run(cs[..|cs| - 1]), s), cs[|cs| - 1], t);
      }
    }
  }
}
