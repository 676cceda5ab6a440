/**
 The same store calls as Postgres runs them: one atomic commit each, rolled back
 whole when it would repeat a byte-log key or overflow a BIGINT counter. A
 Deregister looks the size up first and deletes in a later transaction, so the
 size it records may be out of date.
 */
module Postgres {
  import opened Words
  import opened DiffLogs
  import opened Accounting
  import opened Consistency
  import opened History

  /** A call, and for a Deregister the size its lookup saw. */
  datatype Commit = Commit(change: Change, looked: Word)

  function PgMoved(a: Account, k: Commit): Totals {
    if k.change.Deregister? && Find(a.blobs, k.change.digest).Some?
    then ZERO.(blobRemove := 1, blobRemoveSize := k.looked)
    else Moved(a, k.change)
  }

  function PgWritten(a: Account, k: Commit): Account {
    if k.change.Deregister? && Find(a.blobs, k.change.digest).Some?
    then Drop(a, k.change.digest, k.looked, k.change.cause, k.change.at)
    else Written(a, k.change)
  }

  /**
   Whether a sum overflows a BIGINT column. Columns are signed: a counter or a size of
   2^63 and more is held as the negative number of the same 64 bits.
   */
  predicate Overflows(t: Totals, inc: Totals) {
    exists m: Metric :: !(MIN_INT64 <= Int64(t.Get(m)) + Int64(inc.Get(m)) <= MAX_INT64)
  }

  /** Whether the transaction is rolled back with an error. */
  predicate RolledBack(b: Books, k: Commit) {
    var a := AccountOf(b, k.change.space);
    || (PgWritten(a, k).bytes != a.bytes && HasKey(a.bytes, k.change.at, k.change.cause))
    || Overflows(a.totals, PgMoved(a, k))
    || Overflows(b.admin, PgMoved(a, k))
  }

  function PgAct(a: Account, k: Commit): Account {
    PgWritten(a, k).(totals := a.totals.Plus(PgMoved(a, k)))
  }

  /** A commit, or the rollback it comes to. */
  function PgLand(b: Books, k: Commit): Books {
    if RolledBack(b, k) then b
    else
      var a := AccountOf(b, k.change.space);
      Books(b.accounts[k.change.space := PgAct(a, k)], b.admin.Plus(PgMoved(a, k)))
  }

  /** A commit as its columns hold it: a TIMESTAMPTZ keeps an instant to the microsecond. */
  function Stamped(k: Commit): Commit {
    k.(change := k.change.(at := Instant(k.change.at)))
  }

  function PgApply(b: Books, k: Commit): Books {
    PgLand(b, Stamped(k))
  }

  /** A commit does what it does to its own space, and nothing to any other. */
  lemma {:induction false} PgApplyAccount(b: Books, k: Commit, s: Space)
    ensures AccountOf(PgApply(b, k), s)
         == if !RolledBack(b, Stamped(k)) && s == k.change.space
            then PgAct(AccountOf(b, s), Stamped(k))
            else AccountOf(b, s)
  {
    hide PgAct, RolledBack, PgMoved;
  }

  function PgRun(ks: seq<Commit>): Books {
    if ks == [] then NEW_BOOKS else PgApply(PgRun(ks[..|ks| - 1]), ks[|ks| - 1])
  }

  lemma {:induction false} PgRunSnoc(ks: seq<Commit>, k: Commit)
    ensures PgRun(ks + [k]) == PgApply(PgRun(ks), k)
  {
    assert (ks + [k])[..|ks|] == ks;
  }

  /** The changes of some commits, at the instants their rows keep. */
  function Changes(ks: seq<Commit>): seq<Change> {
    seq(|ks|, i requires 0 <= i < |ks| => Stamped(ks[i]).change)
  }

  /** Sizes a BIGINT column holds as they are. */
  predicate Storable(k: Commit) {
    k.looked < TWO_63 && (k.change.Register? ==> k.change.size < TWO_63)
  }

  ghost predicate AllStorable(ks: seq<Commit>) {
    forall i :: 0 <= i < |ks| ==> Storable(ks[i])
  }

  // ----- counters and logs

  /** Counters only grow, and while none moves the rows that move a sum stay as they are. */
  ghost predicate Grows(a: Account, a': Account) {
    && (forall m: Metric :: a.totals.Get(m) <= a'.totals.Get(m))
    && (a.totals.blobAddSize == a'.totals.blobAddSize && a.totals.blobRemoveSize == a'.totals.blobRemoveSize
        ==> Core(a.bytes) == Core(a'.bytes))
    && (a.totals.uploadAdd == a'.totals.uploadAdd && a.totals.uploadRemove == a'.totals.uploadRemove
        ==> Core(a.objects) == Core(a'.objects))
  }

  /** Counters a BIGINT column holds as they are. */
  ghost predicate Contained(t: Totals) {
    forall m: Metric :: t.Get(m) <= MAX_INT64
  }

  lemma {:induction false} PlusExact(t: Totals, inc: Totals, m: Metric)
    requires !Overflows(t, inc) && t.Get(m) <= MAX_INT64 && inc.Get(m) <= MAX_INT64
    ensures t.Plus(inc).Get(m) == t.Get(m) + inc.Get(m) <= MAX_INT64
  {
    hide Int64, UInt64, Totals.Plus;
    PlusGet(t, inc, m);
    assert MIN_INT64 <= Int64(t.Get(m)) + Int64(inc.Get(m)) <= MAX_INT64;
  }

  lemma {:induction false} MovedContained(a: Account, k: Commit)
    requires Storable(k)
    ensures forall m: Metric :: PgMoved(a, k).Get(m) <= MAX_INT64
  {
    hide Position, IndexOf, HasKey;
  }

  lemma {:induction false} PgActGrows(a: Account, k: Commit)
    requires Contained(a.totals) && Storable(k) && !Overflows(a.totals, PgMoved(a, k))
    ensures Grows(a, PgAct(a, k))
  {
    hide Insert, UInt64, Position, IndexOf, HasKey, Without, Overflows;
    MovedContained(a, k);
    forall m: Metric ensures PgAct(a, k).totals.Get(m) == a.totals.Get(m) + PgMoved(a, k).Get(m) {
      PlusExact(a.totals, PgMoved(a, k), m);
    }
    assert PgMoved(a, k).Get(BlobAddSize) == PgAct(a, k).totals.Get(BlobAddSize) - a.totals.Get(BlobAddSize);
    assert PgMoved(a, k).Get(BlobRemoveSize) == PgAct(a, k).totals.Get(BlobRemoveSize) - a.totals.Get(BlobRemoveSize);
    assert PgMoved(a, k).Get(UploadAdd) == PgAct(a, k).totals.Get(UploadAdd) - a.totals.Get(UploadAdd);
    assert PgMoved(a, k).Get(UploadRemove) == PgAct(a, k).totals.Get(UploadRemove) - a.totals.Get(UploadRemove);
    match k.change
    case Register(_, digest, size, cause, at) =>
      if size == 0 { InsertZero(a.bytes, Row(at, cause, Int64(size))); }
    case Deregister(_, digest, cause, at) =>
      if k.looked == 0 { InsertZero(a.bytes, Row(at, cause, Int64(-Int64(k.looked)))); }
    case Upsert(_, _, _, _, _) =>
    case Remove(_, _, _, _) =>
  }

  lemma {:induction false} GrowsNot(a: Account)
    ensures Grows(a, a)
  {
  }

  lemma {:induction false} PgApplyGrows(b: Books, k: Commit, s: Space)
    requires Contained(AccountOf(b, s).totals) && Storable(k)
    ensures Grows(AccountOf(b, s), AccountOf(PgApply(b, k), s))
  {
    hide Grows, PgAct, PgApply, PgMoved, Overflows, Contained;
    PgApplyAccount(b, k, s);
    if !RolledBack(b, Stamped(k)) && s == k.change.space {
      PgActGrows(AccountOf(b, s), Stamped(k));
    } else {
      GrowsNot(AccountOf(b, s));
    }
  }

  /** What a space's byte counters, byte log and registry keep under every interleaving. */
  ghost predicate Booked(a: Account) {
    && UniqueDigests(a.blobs) && Contained(a.totals)
    && StrictlySorted(a.bytes) && StrictlySorted(a.objects)
    && a.totals.blobAddSize - a.totals.blobRemoveSize == SumOf(a.bytes, Delta())
    && a.totals.blobAdd - a.totals.blobRemove == |a.blobs|
  }

  lemma {:induction false} PgActBooked(a: Account, k: Commit)
    requires Booked(a) && Storable(k) && !Overflows(a.totals, PgMoved(a, k))
    requires PgWritten(a, k).bytes != a.bytes ==> !HasKey(a.bytes, k.change.at, k.change.cause)
    ensures Booked(PgAct(a, k))
  {
    hide UInt64, Position, SumOf, BytesHeld, Without, Overflows;
    MovedContained(a, k);
    forall m: Metric ensures PgAct(a, k).totals.Get(m) == a.totals.Get(m) + PgMoved(a, k).Get(m) <= MAX_INT64 {
      PlusExact(a.totals, PgMoved(a, k), m);
    }
    assert PgAct(a, k).totals.Get(BlobAddSize) == PgAct(a, k).totals.blobAddSize;
    assert PgAct(a, k).totals.Get(BlobRemoveSize) == PgAct(a, k).totals.blobRemoveSize;
    assert PgAct(a, k).totals.Get(BlobAdd) == PgAct(a, k).totals.blobAdd;
    assert PgAct(a, k).totals.Get(BlobRemove) == PgAct(a, k).totals.blobRemove;
    match k.change
    case Register(_, digest, size, cause, at) =>
      if Find(a.blobs, digest).None? {
        var row := Row(at, cause, size);
        assert |Insert(a.bytes, row)| != |a.bytes|;
        InsertFresh(a.bytes, row);
        InsertSum(a.bytes, row, Delta());
      }
    case Deregister(_, digest, cause, at) =>
      if Find(a.blobs, digest).Some? {
        var row := Row(at, cause, -(k.looked as int));
        assert Int64(-Int64(k.looked)) == row.delta;
        assert |Insert(a.bytes, row)| != |a.bytes|;
        InsertFresh(a.bytes, row);
        InsertSum(a.bytes, row, Delta());
        DropsOne(a.blobs, digest);
      }
    case Upsert(_, _, _, cause, at) =>
      if !HasKey(a.objects, Instant(at), cause) { InsertFresh(a.objects, Row(Instant(at), cause, 1)); }
    case Remove(_, _, cause, at) =>
      if !HasKey(a.objects, Instant(at), cause) { InsertFresh(a.objects, Row(Instant(at), cause, -1)); }
  }

  /** Bytes logged, bytes counted and bytes registered are the same. */
  ghost predicate HeldExact(a: Account) {
    SumOf(a.bytes, Delta()) == BytesHeld(a.blobs)
  }

  lemma {:induction false} PgApplyBooked(b: Books, k: Commit, s: Space)
    requires Booked(AccountOf(b, s)) && Storable(k)
    ensures Booked(AccountOf(PgApply(b, k), s))
  {
    hide Booked, PgAct, PgApply, PgMoved, PgWritten, Overflows, HasKey;
    PgApplyAccount(b, k, s);
    if !RolledBack(b, Stamped(k)) && s == k.change.space { PgActBooked(AccountOf(b, s), Stamped(k)); }
  }

  lemma {:induction false} NewBooked(s: Space)
    ensures Booked(AccountOf(NEW_BOOKS, s)) && HeldExact(AccountOf(NEW_BOOKS, s))
  {
  }

  /**
   Under every interleaving of registrations and two-step removals the byte
   counters equal the sum of the byte log, and each registration is removed at
   most once: registrations less removals is what the registry holds.
   */
  lemma {:induction false} PgRunBooked(ks: seq<Commit>, s: Space)
    requires AllStorable(ks)
    ensures Booked(AccountOf(PgRun(ks), s))
  {
    hide Booked, PgApply, Storable;
    NewBooked(s);
    if ks != [] {
      var init, k := ks[..|ks| - 1], ks[|ks| - 1];
      PgRunBooked(init, s);
      PgApplyBooked(PgRun(init), k, s);
    }
  }

  // ----- whatever the sizes

  /** What a commit adds to each log is, modulo 2^64, what it moves the log's counters by. */
  lemma {:induction false} PgActMoves(a: Account, k: Commit) returns (bytes: int, objects: int)
    ensures SumOf(PgAct(a, k).bytes, Delta()) == SumOf(a.bytes, Delta()) + bytes
    ensures Congruent(bytes, PgMoved(a, k).blobAddSize - PgMoved(a, k).blobRemoveSize)
    ensures SumOf(PgAct(a, k).objects, Delta()) == SumOf(a.objects, Delta()) + objects
    ensures Congruent(objects, PgMoved(a, k).uploadAdd - PgMoved(a, k).uploadRemove)
  {
    hide Int64, UInt64, SumOf, Insert, HasKey, IndexOf, Position, Without;
    if k.change.Deregister? && Find(a.blobs, k.change.digest).Some? {
      bytes, objects := Int64(-Int64(k.looked)), 0;
      CongruentConversions(k.looked);
      CongruentConversions(-Int64(k.looked));
      CongruentSums(0, 0, Int64(k.looked), k.looked);
      InsertSum(a.bytes, Row(k.change.at, k.change.cause, bytes), Delta());
    } else {
      bytes, objects := ActMoves(a, k.change);
    }
  }

  lemma {:induction false} PgActAgrees(a: Account, k: Commit)
    requires BytesAgree(a) && ObjectsAgree(a)
    ensures BytesAgree(PgAct(a, k)) && ObjectsAgree(PgAct(a, k))
  {
    var bytes, objects := PgActMoves(a, k);
    hide UInt64, SumOf, PgMoved, PgWritten;
    BytesStep(a, PgAct(a, k), PgMoved(a, k), bytes);
    ObjectsStep(a, PgAct(a, k), PgMoved(a, k), objects);
  }

  lemma {:induction false} PgAdminMoves(b: Books, k: Commit, m: Metric)
    requires AdminAgrees(b, m)
    ensures AdminAgrees(PgApply(b, k), m)
  {
    hide PgMoved, PgWritten, UInt64, Across, RolledBack;
    var a, k' := AccountOf(b, k.change.space), Stamped(k);
    if !RolledBack(b, k') {
      AcrossUpdate(b, m, k.change.space, PgAct(a, k'));
      PlusGet(a.totals, PgMoved(a, k'), m);
      PlusGet(b.admin, PgMoved(a, k'), m);
      AdminStep(Across(b.accounts, m), a.totals.Get(m), PgMoved(a, k').Get(m));
    }
  }

  /**
   Under every interleaving, whatever the sizes and whatever removals looked up, each
   space's counters equal the sums of its logs and each global counter the sum of that
   counter over the spaces.
   */
  lemma {:induction false} PgRunAgrees(ks: seq<Commit>)
    ensures Agrees(PgRun(ks))
  {
    if ks != [] {
      var b, k := PgRun(ks[..|ks| - 1]), ks[|ks| - 1];
      PgRunAgrees(ks[..|ks| - 1]);
      hide PgApply, PgAct, RolledBack, BytesAgree, ObjectsAgree, AdminAgrees, Stamped;
      forall s ensures BytesAgree(AccountOf(PgApply(b, k), s)) && ObjectsAgree(AccountOf(PgApply(b, k), s)) {
        assert BytesAgree(AccountOf(b, s)) && ObjectsAgree(AccountOf(b, s));
        PgApplyAccount(b, k, s);
        PgActAgrees(AccountOf(b, s), Stamped(k));
      }
      forall m ensures AdminAgrees(PgApply(b, k), m) {
        assert AdminAgrees(b, m);
        PgAdminMoves(b, k, m);
      }
    } else {
      NewAgrees();
    }
  }

  lemma {:induction false} NewAgrees()
    ensures Agrees(NEW_BOOKS)
  {
  }

  /**
   The registry and the logs of a space: no digest twice, no key twice, and as many
   blobs as were added and not removed.
   */
  ghost predicate Tidy(a: Account) {
    && UniqueDigests(a.blobs) && StrictlySorted(a.bytes) && StrictlySorted(a.objects)
    && Congruent(a.totals.blobAdd - a.totals.blobRemove, |a.blobs|)
  }

  lemma {:induction false} PgActTidy(a: Account, k: Commit)
    requires Tidy(a) && (PgWritten(a, k).bytes != a.bytes ==> !HasKey(a.bytes, k.change.at, k.change.cause))
    ensures Tidy(PgAct(a, k))
  {
    hide Int64, UInt64, Position, SumOf, BytesHeld, Without, IndexOf, HasKey;
    AgreeStep(a.totals.blobAdd, a.totals.blobRemove, PgMoved(a, k).blobAdd, PgMoved(a, k).blobRemove, |a.blobs|,
              PgMoved(a, k).blobAdd - PgMoved(a, k).blobRemove);
    match k.change
    case Register(_, digest, size, cause, at) =>
      if Find(a.blobs, digest).None? {
        assert |Insert(a.bytes, Row(at, cause, Int64(size)))| != |a.bytes|;
        InsertFresh(a.bytes, Row(at, cause, Int64(size)));
      }
    case Deregister(_, digest, cause, at) =>
      if Find(a.blobs, digest).Some? {
        assert |Insert(a.bytes, Row(at, cause, Int64(-Int64(k.looked))))| != |a.bytes|;
        InsertFresh(a.bytes, Row(at, cause, Int64(-Int64(k.looked))));
        DropsOne(a.blobs, digest);
      }
    case Upsert(_, _, _, cause, at) =>
      if !HasKey(a.objects, Instant(at), cause) { InsertFresh(a.objects, Row(Instant(at), cause, 1)); }
    case Remove(_, _, cause, at) =>
      if !HasKey(a.objects, Instant(at), cause) { InsertFresh(a.objects, Row(Instant(at), cause, -1)); }
  }

  lemma {:induction false} PgApplyTidy(b: Books, k: Commit, s: Space)
    requires Tidy(AccountOf(b, s))
    ensures Tidy(AccountOf(PgApply(b, k), s))
  {
    hide Tidy, PgAct, PgApply, PgMoved, PgWritten, Overflows, HasKey;
    PgApplyAccount(b, k, s);
    if !RolledBack(b, Stamped(k)) && s == k.change.space { PgActTidy(AccountOf(b, s), Stamped(k)); }
  }

  /** Under every interleaving, whatever the sizes, a registration is removed at most once and no log repeats a key. */
  lemma {:induction false} PgRunTidy(ks: seq<Commit>, s: Space)
    ensures Tidy(AccountOf(PgRun(ks), s))
  {
    hide PgApply, PgAct;
    if ks != [] {
      PgRunTidy(ks[..|ks| - 1], s);
      hide Tidy;
      PgApplyTidy(PgRun(ks[..|ks| - 1]), ks[|ks| - 1], s);
    }
  }

  // ----- the size a removal records

  /** The size a lookup of a digest sees in a committed state. */
  function Seen(b: Books, s: Space, d: Digest): Option<Word> {
    match Find(AccountOf(b, s).blobs, d)
    case None => None
    case Some(rec) => Some(rec.size)
  }

  /**
   A removal that deletes a row keeps the byte log equal to the registered bytes
   exactly when the size its lookup saw is the size of the row it deletes.
   */
  lemma {:induction false} RemovalKeepsBytes(a: Account, k: Commit)
    requires Booked(a) && Storable(k) && !Overflows(a.totals, PgMoved(a, k))
             && !HasKey(a.bytes, k.change.at, k.change.cause)
    requires k.change.Deregister? && Find(a.blobs, k.change.digest).Some?
    requires SumOf(a.bytes, Delta()) == BytesHeld(a.blobs)
    ensures SumOf(PgAct(a, k).bytes, Delta()) == BytesHeld(PgAct(a, k).blobs)
            <==> k.looked == Find(a.blobs, k.change.digest).value.size
  {
    hide Insert, UInt64, Position, SumOf, BytesHeld, Without;
    var row := Row(k.change.at, k.change.cause, -(k.looked as int));
    assert Int64(-Int64(k.looked)) == row.delta;
    InsertSum(a.bytes, row, Delta());
    DropsOne(a.blobs, k.change.digest);
  }

  /** Each removal's lookup ran on some state committed before its delete. */
  ghost predicate Honest(ks: seq<Commit>) {
    forall i :: 0 <= i < |ks| && ks[i].change.Deregister? ==> LookedUp(ks, i)
  }

  ghost predicate LookedUp(ks: seq<Commit>, i: nat)
    requires i < |ks| && ks[i].change.Deregister?
  {
    exists j :: 0 <= j <= i && Seen(PgRun(ks[..j]), ks[i].change.space, ks[i].change.digest) == Some(ks[i].looked)
  }

  /** No digest is registered in a space under two sizes. */
  ghost predicate OneSize(ks: seq<Commit>) {
    forall i, j :: 0 <= i < |ks| && 0 <= j < |ks| && SameBlob(ks[i].change, ks[j].change)
                   ==> ks[i].change.size == ks[j].change.size
  }

  predicate SameBlob(c: Change, d: Change) {
    c.Register? && d.Register? && c.space == d.space && c.digest == d.digest
  }

  lemma {:induction false} WithoutSubset(recs: seq<Record>, d: Digest, r: Record)
    requires r in Without(recs, d)
    ensures r in recs
  {
    if recs != [] && recs[|recs| - 1] != r { WithoutSubset(recs[..|recs| - 1], d, r); }
  }

  /** Every record was put there by a registration of the run. */
  lemma {:induction false} RecordsSourced(ks: seq<Commit>, s: Space, r: Record) returns (i: nat)
    requires r in AccountOf(PgRun(ks), s).blobs
    ensures i < |ks| && ks[i].change.Register? && ks[i].change.space == s
    ensures ks[i].change.digest == r.digest && ks[i].change.size == r.size
  {
    var init, k := ks[..|ks| - 1], ks[|ks| - 1];
    var a := AccountOf(PgRun(init), s);
    if r in a.blobs {
      i := RecordsSourced(init, s, r);
    } else {
      i := |ks| - 1;
      if k.change.Deregister? && r in Without(a.blobs, k.change.digest) {
        WithoutSubset(a.blobs, k.change.digest, r);
      }
    }
  }

  /** When each digest has one size, a removal's lookup is never out of date. */
  lemma {:induction false} LookupCurrent(ks: seq<Commit>, i: nat)
    requires i < |ks| && ks[i].change.Deregister? && LookedUp(ks, i) && OneSize(ks)
    ensures Seen(PgRun(ks[..i]), ks[i].change.space, ks[i].change.digest) in {None, Some(ks[i].looked)}
  {
    var s, d := ks[i].change.space, ks[i].change.digest;
    var j :| 0 <= j <= i && Seen(PgRun(ks[..j]), s, d) == Some(ks[i].looked);
    var now := AccountOf(PgRun(ks[..i]), s).blobs;
    if Find(now, d).Some? {
      var before := AccountOf(PgRun(ks[..j]), s).blobs;
      var p := RecordsSourced(ks[..j], s, before[Position(before, d)]);
      var q := RecordsSourced(ks[..i], s, now[Position(now, d)]);
      assert ks[..j][p] == ks[p] && ks[..i][q] == ks[q] && SameBlob(ks[p].change, ks[q].change);
    }
  }

  lemma {:induction false} PgActHeld(a: Account, k: Commit)
    requires Booked(a) && HeldExact(a) && Storable(k) && !Overflows(a.totals, PgMoved(a, k))
    requires PgWritten(a, k).bytes != a.bytes ==> !HasKey(a.bytes, k.change.at, k.change.cause)
    requires k.change.Deregister? && Find(a.blobs, k.change.digest).Some? ==>
               k.looked == Find(a.blobs, k.change.digest).value.size
    ensures HeldExact(PgAct(a, k))
  {
    match k.change
    case Register(_, digest, size, cause, at) =>
      if Find(a.blobs, digest).None? {
        InsertSum(a.bytes, Row(at, cause, size), Delta());
        assert (a.blobs + [Record(digest, size, cause)])[..|a.blobs|] == a.blobs;
      }
    case Deregister(_, digest, cause, at) =>
      if Find(a.blobs, digest).Some? {
        assert |Insert(a.bytes, Row(at, cause, Int64(-Int64(k.looked))))| != |a.bytes|;
        RemovalKeepsBytes(a, k);
      }
    case Upsert(_, _, _, _, _) =>
    case Remove(_, _, _, _) =>
  }

  lemma {:induction false} HonestInit(ks: seq<Commit>)
    requires ks != [] && Honest(ks) && OneSize(ks)
    ensures Honest(ks[..|ks| - 1]) && OneSize(ks[..|ks| - 1])
  {
    hide PgRun, Seen, SameBlob;
    var init := ks[..|ks| - 1];
    forall i | 0 <= i < |init| && init[i].change.Deregister? ensures LookedUp(init, i) {
      assert init[i] == ks[i] && LookedUp(ks, i);
      var j :| 0 <= j <= i && Seen(PgRun(ks[..j]), ks[i].change.space, ks[i].change.digest) == Some(ks[i].looked);
      assert init[..j] == ks[..j];
    }
  }

  lemma {:induction false} PgApplyHeld(b: Books, k: Commit, s: Space)
    requires Booked(AccountOf(b, s)) && HeldExact(AccountOf(b, s)) && Storable(k)
    requires k.change.Deregister? ==> Seen(b, k.change.space, k.change.digest) in {None, Some(k.looked)}
    ensures HeldExact(AccountOf(PgApply(b, k), s))
  {
    hide Booked, HeldExact, PgAct, PgApply, PgMoved, PgWritten, Overflows, HasKey, Position;
    PgApplyAccount(b, k, s);
    if !RolledBack(b, Stamped(k)) && s == k.change.space { PgActHeld(AccountOf(b, s), Stamped(k)); }
  }

  /** When each digest has one size, every interleaving keeps the logs equal to the registered bytes. */
  lemma {:induction false} PgRunHeld(ks: seq<Commit>, s: Space)
    requires AllStorable(ks) && Honest(ks) && OneSize(ks)
    ensures HeldExact(AccountOf(PgRun(ks), s))
  {
    hide Booked, HeldExact, PgApply, Storable, OneSize, Honest, LookedUp, Seen;
    NewBooked(s);
    if ks != [] {
      var init, k := ks[..|ks| - 1], ks[|ks| - 1];
      HonestInit(ks);
      PgRunHeld(init, s);
      PgRunBooked(init, s);
      if k.change.Deregister? {
        HonestAt(ks, |init|);
        LookupCurrent(ks, |init|);
      }
      PgApplyHeld(PgRun(init), k, s);
    }
  }

  lemma {:induction false} HonestAt(ks: seq<Commit>, i: nat)
    requires Honest(ks) && i < |ks| && ks[i].change.Deregister?
    ensures LookedUp(ks, i)
  {
  }

  // ----- the registered bytes, whatever the sizes

  /** Bytes logged and bytes registered are the same, modulo 2^64. */
  ghost predicate HeldModulo(a: Account) {
    Congruent(SumOf(a.bytes, Delta()), BytesHeld(a.blobs))
  }

  lemma {:induction false} PgActHeldModulo(a: Account, k: Commit)
    requires Tidy(a) && HeldModulo(a)
    requires k.change.Deregister? && Find(a.blobs, k.change.digest).Some? ==>
               k.looked == Find(a.blobs, k.change.digest).value.size
    ensures HeldModulo(PgAct(a, k))
  {
    hide Int64, UInt64, SumOf, Insert, HasKey, IndexOf, Position, Without, BytesHeld, Totals.Plus;
    match k.change
    case Register(_, digest, size, cause, at) =>
      if Find(a.blobs, digest).None? {
        CongruentConversions(size);
        InsertSum(a.bytes, Row(at, cause, Int64(size)), Delta());
        HeldSnoc(a.blobs, Record(digest, size, cause));
        CongruentSums(SumOf(a.bytes, Delta()), BytesHeld(a.blobs), Int64(size), size);
      }
    case Deregister(_, digest, cause, at) =>
      if Find(a.blobs, digest).Some? {
        CongruentConversions(k.looked);
        CongruentConversions(-Int64(k.looked));
        CongruentSums(0, 0, Int64(k.looked), k.looked);
        InsertSum(a.bytes, Row(at, cause, Int64(-Int64(k.looked))), Delta());
        DropsOne(a.blobs, digest);
        CongruentSums(SumOf(a.bytes, Delta()), BytesHeld(a.blobs), Int64(-Int64(k.looked)), -(k.looked as int));
      }
    case Upsert(_, _, _, _, _) =>
    case Remove(_, _, _, _) =>
  }

  lemma {:induction false} HeldSnoc(recs: seq<Record>, rec: Record)
    ensures BytesHeld(recs + [rec]) == BytesHeld(recs) + rec.size
  {
    assert (recs + [rec])[..|recs|] == recs;
  }

  lemma {:induction false} PgApplyHeldModulo(b: Books, k: Commit, s: Space)
    requires Tidy(AccountOf(b, s)) && HeldModulo(AccountOf(b, s))
    requires k.change.Deregister? ==> Seen(b, k.change.space, k.change.digest) in {None, Some(k.looked)}
    ensures HeldModulo(AccountOf(PgApply(b, k), s))
  {
    hide Tidy, HeldModulo, PgAct, PgApply, PgMoved, PgWritten, RolledBack, Position;
    PgApplyAccount(b, k, s);
    if !RolledBack(b, Stamped(k)) && s == k.change.space { PgActHeldModulo(AccountOf(b, s), Stamped(k)); }
  }

  /**
   When each digest has one size, whatever that is, every interleaving keeps the byte
   log equal to the registered bytes, modulo 2^64.
   */
  lemma {:induction false} PgRunHeldModulo(ks: seq<Commit>, s: Space)
    requires Honest(ks) && OneSize(ks)
    ensures HeldModulo(AccountOf(PgRun(ks), s))
  {
    hide Tidy, PgApply, OneSize, Honest, LookedUp, Seen;
    if ks != [] {
      var init, k := ks[..|ks| - 1], ks[|ks| - 1];
      HonestInit(ks);
      PgRunHeldModulo(init, s);
      PgRunTidy(init, s);
      if k.change.Deregister? {
        HonestAt(ks, |init|);
        LookupCurrent(ks, |init|);
      }
      hide HeldModulo;
      PgApplyHeldModulo(PgRun(init), k, s);
    }
  }

  // ----- what a commit does, row by row

  /** Whether a commit would add a row to the byte log. */
  ghost predicate AddsBytes(a: Account, c: Change) {
    (c.Register? && !HasDigest(a.blobs, c.digest)) || (c.Deregister? && HasDigest(a.blobs, c.digest))
  }

  /** Whether a commit would move the upload counters. */
  ghost predicate AddsUpload(a: Account, c: Change) {
    || (c.Upsert? && !HasRoot(a.uploads, c.root) && !Repeated(a.objects, Instant(c.at), c.cause))
    || (c.Remove? && HasRoot(a.uploads, c.root) && !Repeated(a.objects, Instant(c.at), c.cause))
  }

  /** A 64-bit number as a signed column holds it. */
  function Signed(n: Word): int {
    if n < TWO_63 then n else n - TWO_64
  }

  /** A counter too full to take so many more. */
  predicate Full(n: Word, more: Word) {
    !(MIN_INT64 <= Signed(n) + Signed(more) <= MAX_INT64)
  }

  /** A row of counters too full for what a commit adds to it. */
  ghost predicate CountersFull(t: Totals, a: Account, k: Commit) {
    match k.change
    case Register(_, _, size, _, _) =>
      AddsBytes(a, k.change) && (t.blobAdd == MAX_INT64 || Full(t.blobAddSize, size))
    case Deregister(_, _, _, _) =>
      AddsBytes(a, k.change) && (t.blobRemove == MAX_INT64 || Full(t.blobRemoveSize, k.looked))
    case Upsert(_, _, _, _, _) => AddsUpload(a, k.change) && t.uploadAdd == MAX_INT64
    case Remove(_, _, _, _) => AddsUpload(a, k.change) && t.uploadRemove == MAX_INT64
  }

  lemma {:induction false} SignedIs(n: Word)
    ensures Int64(n) == Signed(n)
  {
  }

  /** A sum of counters overflows when one of the six does. */
  lemma {:induction false} OverflowsIs(t: Totals, inc: Totals)
    ensures Overflows(t, inc) <==>
              || Full(t.blobAdd, inc.blobAdd) || Full(t.blobAddSize, inc.blobAddSize)
              || Full(t.blobRemove, inc.blobRemove) || Full(t.blobRemoveSize, inc.blobRemoveSize)
              || Full(t.uploadAdd, inc.uploadAdd) || Full(t.uploadRemove, inc.uploadRemove)
  {
    hide Int64;
    forall m: Metric
      ensures Full(t.Get(m), inc.Get(m)) <==> !(MIN_INT64 <= Int64(t.Get(m)) + Int64(inc.Get(m)) <= MAX_INT64)
    {
      SignedIs(t.Get(m));
      SignedIs(inc.Get(m));
    }
    hide Full;
    assert Full(t.Get(BlobAdd), inc.Get(BlobAdd)) <==> Full(t.blobAdd, inc.blobAdd);
    assert Full(t.Get(BlobAddSize), inc.Get(BlobAddSize)) <==> Full(t.blobAddSize, inc.blobAddSize);
    assert Full(t.Get(BlobRemove), inc.Get(BlobRemove)) <==> Full(t.blobRemove, inc.blobRemove);
    assert Full(t.Get(BlobRemoveSize), inc.Get(BlobRemoveSize)) <==> Full(t.blobRemoveSize, inc.blobRemoveSize);
    assert Full(t.Get(UploadAdd), inc.Get(UploadAdd)) <==> Full(t.uploadAdd, inc.uploadAdd);
    assert Full(t.Get(UploadRemove), inc.Get(UploadRemove)) <==> Full(t.uploadRemove, inc.uploadRemove);
  }

  lemma {:induction false} OverflowsExactly(t: Totals, a: Account, k: Commit)
    ensures Overflows(t, PgMoved(a, k)) <==> CountersFull(t, a, k)
  {
    OverflowsIs(t, PgMoved(a, k));
    hide Overflows, Position, IndexOf;
  }

  /**
   A transaction is rolled back exactly when it would repeat the instant and cause of a
   row in the byte log, or take a counter of its space or of the whole service past
   2^63 - 1.
   */
  lemma {:induction false} RolledBackExactly(b: Books, k: Commit)
    ensures var a := AccountOf(b, k.change.space);
            RolledBack(b, k) <==>
              || (AddsBytes(a, k.change) && Repeated(a.bytes, k.change.at, k.change.cause))
              || CountersFull(a.totals, a, k) || CountersFull(b.admin, a, k)
  {
    var a := AccountOf(b, k.change.space);
    OverflowsExactly(a.totals, a, k);
    OverflowsExactly(b.admin, a, k);
    hide Overflows, PgMoved, CountersFull, Int64, UInt64;
    assert PgWritten(a, k).bytes != a.bytes <==> AddsBytes(a, k.change) by {
      if AddsBytes(a, k.change) { assert |PgWritten(a, k).bytes| == |a.bytes| + 1; }
    }
  }

  /** What a transaction that goes through leaves, logs and counts: a removal logs the size its lookup saw. */
  lemma {:induction false} PgActTells(a: Account, k: Commit)
    requires UniqueDigests(a.blobs) && UniqueRoots(a.uploads)
    ensures Told(k.change, a, PgAct(a, k), Result(a, k.change)) && Counted(k.change, a, PgAct(a, k), k.looked)
  {
    hide Without, Totals.Plus, RowAdded, Told, Counted, UniqueDigests, UniqueRoots;
    ActTells(a, k.change);
    if k.change.Deregister? {
      DropTells(a, k);
    } else {
      ActCounts(a, k.change, k.looked);
      assert PgAct(a, k) == Act(a, k.change);
    }
  }

  lemma {:induction false} DropTells(a: Account, k: Commit)
    requires k.change.Deregister? && Told(k.change, a, Act(a, k.change), Result(a, k.change))
    ensures Told(k.change, a, PgAct(a, k), Result(a, k.change)) && Counted(k.change, a, PgAct(a, k), k.looked)
  {
    PlusIs(a.totals, PgMoved(a, k));
    InsertAdds(a.bytes, Row(k.change.at, k.change.cause, Int64(-Int64(k.looked))));
    assert Int64(-Int64(k.looked)) == Lost(k.looked);
    hide Without, Totals.Plus, RowAdded;
  }

  /** Every row a log keeps is at a whole microsecond. */
  ghost predicate RowsOnTick(a: Account) {
    (forall r :: r in a.bytes ==> OnTick(r.at)) && (forall r :: r in a.objects ==> OnTick(r.at))
  }

  lemma {:induction false} PgActOnTick(a: Account, k: Commit)
    requires RowsOnTick(a) && OnTick(k.change.at)
    ensures RowsOnTick(PgAct(a, k))
  {
    hide Insert, OnTick, Without, Position, IndexOf, HasKey, Totals.Plus, Int64;
    forall row ensures forall r :: r in Insert(a.bytes, row) <==> r in a.bytes || r == row {
      InsertMember(a.bytes, row);
    }
    forall row ensures forall r :: r in Insert(a.objects, row) <==> r in a.objects || r == row {
      InsertMember(a.objects, row);
    }
  }

  lemma {:induction false} PgRunOnTick(ks: seq<Commit>, s: Space)
    ensures RowsOnTick(AccountOf(PgRun(ks), s))
  {
    if ks != [] {
      var init, k := ks[..|ks| - 1], ks[|ks| - 1];
      PgRunOnTick(init, s);
      hide PgRun, PgApply, PgAct, RolledBack, RowsOnTick;
      PgApplyAccount(PgRun(init), k, s);
      if s == k.change.space && !RolledBack(PgRun(init), Stamped(k)) {
        PgActOnTick(AccountOf(PgRun(init), s), Stamped(k));
      }
    }
  }
}
