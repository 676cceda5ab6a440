/**
 Concurrent callers of the Postgres registry: each Deregister is a lookup and a
 later delete, with any other committed work between the two. Every such
 execution is a list of commits whose lookups are honest, and a list of commits
 that also keeps one size per digest behaves as the in-memory stores do.
 */
module TwoStep {
  import opened Words
  import opened DiffLogs
  import opened Accounting
  import opened Consistency
  import opened History
  import opened Postgres

  /** A committed call, or one half of a Deregister by caller `who`. */
  datatype Move =
    | Call(change: Change)
    | Look(who: nat, space: Space, digest: Digest)
    | Delete(who: nat, cause: Cause, at: int)

  datatype Looking = Looking(space: Space, digest: Digest, size: Word)

  datatype Desk = Desk(books: Books, open: map<nat, Looking>, commits: seq<Commit>)

  const NEW_DESK := Desk(NEW_BOOKS, map[], [])

  function Commits(d: Desk, k: Commit): Desk {
    d.(books := PgApply(d.books, k), commits := d.commits + [k])
  }

  function MakeMove(d: Desk, step: Move): Desk {
    match step
    case Call(c) => if c.Deregister? then d else Commits(d, Commit(c, 0))
    case Look(who, s, digest) =>
      (match Seen(d.books, s, digest)
       case None => d
       case Some(size) => d.(open := d.open[who := Looking(s, digest, size)]))
    case Delete(who, cause, at) =>
      if who !in d.open then d
      else
        var l := d.open[who];
        Commits(d, Commit(Deregister(l.space, l.digest, cause, at), l.size)).(open := d.open - {who})
  }

  function Interleaved(steps: seq<Move>): Desk {
    if steps == [] then NEW_DESK else MakeMove(Interleaved(steps[..|steps| - 1]), steps[|steps| - 1])
  }

  ghost predicate SeenBefore(ks: seq<Commit>, l: Looking) {
    exists j :: 0 <= j <= |ks| && Seen(PgRun(ks[..j]), l.space, l.digest) == Some(l.size)
  }

  ghost predicate Coherent(d: Desk) {
    && d.books == PgRun(d.commits)
    && Honest(d.commits)
    && forall who :: who in d.open ==> SeenBefore(d.commits, d.open[who])
  }

  lemma {:induction false} StillSeen(ks: seq<Commit>, k: Commit, l: Looking)
    requires SeenBefore(ks, l)
    ensures SeenBefore(ks + [k], l)
  {
    var j :| 0 <= j <= |ks| && Seen(PgRun(ks[..j]), l.space, l.digest) == Some(l.size);
    assert (ks + [k])[..j] == ks[..j];
  }

  lemma {:induction false} CommitsCoherent(d: Desk, k: Commit)
    requires Coherent(d)
    requires k.change.Deregister? ==> SeenBefore(d.commits, Looking(k.change.space, k.change.digest, k.looked))
    ensures Coherent(Commits(d, k))
  {
    PgRunSnoc(d.commits, k);
    hide PgRun, Seen;
    var ks, ks' := d.commits, d.commits + [k];
    assert ks'[..|ks|] == ks;
    forall i | 0 <= i < |ks'| && ks'[i].change.Deregister? ensures LookedUp(ks', i) {
      if i < |ks| {
        assert ks'[i] == ks[i] && LookedUp(ks, i);
        var j :| 0 <= j <= i && Seen(PgRun(ks[..j]), ks[i].change.space, ks[i].change.digest) == Some(ks[i].looked);
        assert ks'[..j] == ks[..j];
      } else {
        var j :| 0 <= j <= |ks| && Seen(PgRun(ks[..j]), k.change.space, k.change.digest) == Some(k.looked);
        assert ks'[..j] == ks[..j];
      }
    }
    forall who | who in d.open ensures SeenBefore(ks', d.open[who]) { StillSeen(ks, k, d.open[who]); }
  }

  /** Whatever the interleaving, the commits it leaves are honest and reach its state. */
  lemma {:induction false} InterleavedCoherent(steps: seq<Move>)
    ensures Coherent(Interleaved(steps))
  {
    if steps != [] {
      hide PgRun, PgApply, Honest;
      var d, step := Interleaved(steps[..|steps| - 1]), steps[|steps| - 1];
      InterleavedCoherent(steps[..|steps| - 1]);
      match step
      case Call(c) =>
        if !c.Deregister? { CommitsCoherent(d, Commit(c, 0)); }
      case Look(who, s, digest) =>
        if Seen(d.books, s, digest).Some? {
          assert d.commits[..|d.commits|] == d.commits;
          assert SeenBefore(d.commits, Looking(s, digest, Seen(d.books, s, digest).value));
        }
      case Delete(who, cause, at) =>
        if who in d.open {
          var l := d.open[who];
          CommitsCoherent(d, Commit(Deregister(l.space, l.digest, cause, at), l.size));
        }
    }
  }

  /** Sizes a BIGINT column can hold are looked up as they were registered. */
  ghost predicate SmallSizes(d: Desk) {
    AllStorable(d.commits) && forall who :: who in d.open ==> d.open[who].size < TWO_63
  }

  lemma {:induction false} SeenSmall(d: Desk, s: Space, digest: Digest)
    requires Coherent(d) && SmallSizes(d) && Seen(d.books, s, digest).Some?
    ensures Seen(d.books, s, digest).value < TWO_63
  {
    var recs := AccountOf(PgRun(d.commits), s).blobs;
    var i := RecordsSourced(d.commits, s, recs[Position(recs, digest)]);
    assert Storable(d.commits[i]);
  }

  lemma {:induction false} MoveSmall(d: Desk, step: Move)
    requires Coherent(d) && SmallSizes(d)
    requires step.Call? && step.change.Register? ==> step.change.size < TWO_63
    ensures SmallSizes(MakeMove(d, step))
  {
    hide PgApply, PgRun, Coherent, Honest, Seen;
    match step
    case Call(c) =>
    case Look(who, s, digest) => if Seen(d.books, s, digest).Some? { SeenSmall(d, s, digest); }
    case Delete(who, cause, at) =>
  }

  lemma {:induction false} InterleavedSmall(steps: seq<Move>)
    requires forall i ::
               0 <= i < |steps| && steps[i].Call? && steps[i].change.Register? ==> steps[i].change.size < TWO_63
    ensures SmallSizes(Interleaved(steps))
  {
    if steps != [] {
      InterleavedSmall(steps[..|steps| - 1]);
      InterleavedCoherent(steps[..|steps| - 1]);
      MoveSmall(Interleaved(steps[..|steps| - 1]), steps[|steps| - 1]);
    }
  }

  /**
   Under every interleaving of registrations, lookups and deletes, whatever the sizes,
   each space's counters equal the sums of its logs, each registration is removed at most
   once, and when no digest is registered in two sizes the byte log equals the bytes
   registered, all modulo 2^64.
   */
  lemma {:induction false} InterleavingsAgree(steps: seq<Move>, s: Space)
    ensures Agrees(Interleaved(steps).books) && Tidy(AccountOf(Interleaved(steps).books, s))
    ensures OneSize(Interleaved(steps).commits) ==> HeldModulo(AccountOf(Interleaved(steps).books, s))
  {
    hide Interleaved, Agrees, Tidy, HeldModulo, OneSize, Honest, PgRun;
    InterleavedCoherent(steps);
    PgRunAgrees(Interleaved(steps).commits);
    PgRunTidy(Interleaved(steps).commits, s);
    if OneSize(Interleaved(steps).commits) { PgRunHeldModulo(Interleaved(steps).commits, s); }
  }

  /**
   Under every interleaving of registrations, lookups and deletes the byte counters
   equal the sum of the byte log and each registration is removed at most once; and
   when no digest is registered in two sizes, both equal the bytes registered.
   */
  lemma {:induction false} InterleavingsExact(steps: seq<Move>, s: Space)
    requires forall i ::
               0 <= i < |steps| && steps[i].Call? && steps[i].change.Register? ==> steps[i].change.size < TWO_63
    ensures Booked(AccountOf(Interleaved(steps).books, s))
    ensures OneSize(Interleaved(steps).commits) ==> HeldExact(AccountOf(Interleaved(steps).books, s))
  {
    InterleavedSmall(steps);
    InterleavedCoherent(steps);
    PgRunBooked(Interleaved(steps).commits, s);
    if OneSize(Interleaved(steps).commits) { PgRunHeld(Interleaved(steps).commits, s); }
  }

  // ----- commits that behave as the in-memory stores do

  /** The hypotheses of exact accounting, on commits. */
  ghost predicate Lawful(ks: seq<Commit>) {
    Clocked(Changes(ks)) && Fits(Changes(ks)) && Fresh(Changes(ks)) && Honest(ks) && OneSize(ks)
  }

  lemma {:induction false} LawfulPrefix(ks: seq<Commit>, n: nat)
    requires Lawful(ks) && n <= |ks|
    ensures Lawful(ks[..n])
    decreases |ks| - n
  {
    if n < |ks| {
      LawfulPrefix(ks, n + 1);
      LawfulInit(ks[..n + 1]);
      assert ks[..n + 1][..n] == ks[..n];
    } else {
      assert ks[..n] == ks;
    }
  }

  lemma {:induction false} LawfulInit(ks: seq<Commit>)
    requires Lawful(ks) && ks != []
    ensures Lawful(ks[..|ks| - 1])
    ensures Changes(ks) == Changes(ks[..|ks| - 1]) + [Stamped(ks[|ks| - 1]).change]
  {
    hide Clocked, Fits, Fresh, Honest, OneSize, Stamped;
    var init := ks[..|ks| - 1];
    assert Changes(ks) == Changes(init) + [Stamped(ks[|ks| - 1]).change];
    assert Changes(ks)[..|ks| - 1] == Changes(init);
    ClockedPrefix(Changes(ks));
    HonestInit(ks);
  }

  lemma {:induction false} AcrossMonotone(t: map<Space, Account>, m: Metric, n: Metric)
    requires forall s :: s in t ==> t[s].totals.Get(m) <= t[s].totals.Get(n)
    ensures Across(t, m) <= Across(t, n)
    decreases |t|
  {
    if t != map[] {
      var s :| s in t;
      AcrossSplit(t, m, s);
      AcrossSplit(t, n, s);
      AcrossMonotone(t - {s}, m, n);
    }
  }

  function Cap(cs: seq<Change>, m: Metric): nat {
    if m == BlobAddSize || m == BlobRemoveSize then Sizes(cs) else |cs|
  }

  lemma {:induction false} CapGrows(cs: seq<Change>, a: Account, c: Change, m: Metric)
    requires m != BlobRemoveSize
    ensures Cap(cs, m) + Moved(a, c).Get(m) <= Cap(cs + [c], m)
  {
    hide Position, IndexOf, HasKey, Sizes;
    SizesSnoc(cs, c);
  }

  lemma {:induction false} AcrossStep(b: Books, c: Change, m: Metric)
    ensures Across(Apply(b, c).accounts, m) <= Across(b.accounts, m) + Moved(AccountOf(b, c.space), c).Get(m)
  {
    var a := AccountOf(b, c.space);
    AcrossUpdate(b, m, c.space, Act(a, c));
    PlusGet(a.totals, Moved(a, c), m);
  }

  /** No counter, summed over every space, outgrows what was ever asked of it. */
  lemma {:induction false} AcrossCapped(cs: seq<Change>, m: Metric)
    requires Fits(cs) && Fresh(cs)
    ensures Across(Run(cs).accounts, m) <= Cap(cs, m)
    decreases |cs|, if m == BlobRemoveSize then 1 else 0
  {
    if m == BlobRemoveSize {
      AcrossCapped(cs, BlobAddSize);
      forall s | s in Run(cs).accounts
        ensures Run(cs).accounts[s].totals.Get(BlobRemoveSize) <= Run(cs).accounts[s].totals.Get(BlobAddSize)
      {
        RunExact(cs, s);
      }
      AcrossMonotone(Run(cs).accounts, BlobRemoveSize, BlobAddSize);
    } else if cs != [] {
      var init, c := cs[..|cs| - 1], cs[|cs| - 1];
      assert cs == init + [c];
      PrefixFits(init, c);
      AcrossCapped(init, m);
      AcrossStep(Run(init), c, m);
      CapGrows(init, AccountOf(Run(init), c.space), c, m);
    }
  }

  lemma {:induction false} AcrossBounds(b: Books, s: Space, m: Metric)
    ensures AccountOf(b, s).totals.Get(m) <= Across(b.accounts, m)
  {
    if s in b.accounts { AcrossSplit(b.accounts, m, s); }
  }

  lemma {:induction false} MovedFits(cs: seq<Change>, c: Change, m: Metric)
    requires Fits(cs + [c]) && Fresh(cs + [c])
    ensures Moved(AccountOf(Run(cs), c.space), c).Get(m) < TWO_63
  {
    hide Run, Sizes, Position, IndexOf, HasKey, UInt64;
    PrefixFits(cs, c);
    SizesSnoc(cs, c);
    RunExact(cs, c.space);
    var a := AccountOf(Run(cs), c.space);
    if c.Deregister? && Find(a.blobs, c.digest).Some? { FoundIsHeld(a.blobs, Position(a.blobs, c.digest)); }
  }

  lemma {:induction false} NoOverflow(cs: seq<Change>, c: Change, m: Metric)
    requires Fits(cs + [c]) && Fresh(cs + [c])
    ensures AccountOf(Run(cs), c.space).totals.Get(m) + Moved(AccountOf(Run(cs), c.space), c).Get(m) <= MAX_INT64
    ensures Run(cs).admin.Get(m) + Moved(AccountOf(Run(cs), c.space), c).Get(m) <= MAX_INT64
  {
    hide Moved, Written, UInt64, Sizes, Fresh, Across, Totals.Plus, Totals.Get;
    var b, a := Run(cs), AccountOf(Run(cs), c.space);
    PrefixFits(cs, c);
    MovedFits(cs, c, m);
    AcrossCapped(cs, m);
    AcrossCapped(cs + [c], m);
    AcrossBounds(b, c.space, m);
    LogsAndCountersAgree(cs);
    assert AdminAgrees(b, m);
    assert (cs + [c])[..|cs|] == cs;
    AcrossUpdate(b, m, c.space, Act(a, c));
    PlusGet(a.totals, Moved(a, c), m);
  }

  /** A removal that records the size of the row it deletes moves and writes what the in-memory call does. */
  lemma {:induction false} CurrentMoves(a: Account, k: Commit)
    requires k.change.Deregister? && Find(a.blobs, k.change.digest).Some? ==>
               k.looked == Find(a.blobs, k.change.digest).value.size
    ensures PgMoved(a, k) == Moved(a, k.change) && PgWritten(a, k) == Written(a, k.change)
  {
    hide UInt64, Insert, Without, HasKey, IndexOf, Position;
  }

  lemma {:induction false} GoesThrough(b: Books, a: Account, k: Commit)
    requires a == AccountOf(b, k.change.space) && PgMoved(a, k) == Moved(a, k.change)
             && PgWritten(a, k) == Written(a, k.change)
    requires Written(a, k.change).bytes != a.bytes ==> !HasKey(a.bytes, k.change.at, k.change.cause)
    requires forall m: Metric :: a.totals.Get(m) + Moved(a, k.change).Get(m) <= MAX_INT64
    requires forall m: Metric :: b.admin.Get(m) + Moved(a, k.change).Get(m) <= MAX_INT64
    ensures PgLand(b, k) == Apply(b, k.change)
  {
    hide HasKey, Moved, Written, PgMoved, PgWritten, Totals.Plus;
  }

  /** A commit whose lookup is current does what the in-memory call does. */
  lemma {:induction false} CommitIsCall(cs: seq<Change>, k: Commit)
    requires Fits(cs + [k.change]) && Fresh(cs + [k.change])
    requires k.change.Deregister? ==> Seen(Run(cs), k.change.space, k.change.digest) in {None, Some(k.looked)}
    ensures PgLand(Run(cs), k) == Apply(Run(cs), k.change)
  {
    var b, c := Run(cs), k.change;
    var a := AccountOf(b, c.space);
    hide Run, Fits, Fresh, BytesExact, ObjectsExact, LogsSourced, HasKey;
    hide Moved, Written, PgMoved, PgWritten, PgLand, Apply, Totals.Plus, Position;
    PrefixFits(cs, c);
    RunExact(cs, c.space);
    FreshKeyOf(a, cs, c);
    CurrentMoves(a, k);
    forall m: Metric ensures a.totals.Get(m) + Moved(a, c).Get(m) <= MAX_INT64 { NoOverflow(cs, c, m); }
    forall m: Metric ensures b.admin.Get(m) + Moved(a, c).Get(m) <= MAX_INT64 { NoOverflow(cs, c, m); }
    GoesThrough(b, a, k);
  }

  /** Lawful commits are never rolled back, and leave what the in-memory stores would. */
  lemma {:induction false} LawfulIsMemory(ks: seq<Commit>)
    requires Lawful(ks)
    ensures PgRun(ks) == Run(Changes(ks))
  {
    if ks != [] {
      var init, k := ks[..|ks| - 1], ks[|ks| - 1];
      LawfulInit(ks);
      LawfulIsMemory(init);
      assert Changes(ks)[..|init|] == Changes(init);
      if k.change.Deregister? {
        assert LookedUp(ks, |init|);
        LookupCurrent(ks, |init|);
      }
      CommitIsCall(Changes(init), Stamped(k));
    }
  }

  lemma {:induction false} FreshKeyOf(a: Account, cs: seq<Change>, c: Change)
    requires LogsSourced(a, cs, c.space) && Fresh(cs + [c])
    ensures Written(a, c).bytes != a.bytes ==> !HasKey(a.bytes, c.at, c.cause)
  {
    if OnBlobs(c) { FreshKey(a.bytes, cs, c); }
  }

  // ----- a lookup out of date

  lemma {:induction false} InterleavedSnoc(steps: seq<Move>, step: Move)
    ensures Interleaved(steps + [step]) == MakeMove(Interleaved(steps), step)
  {
    assert (steps + [step])[..|steps|] == steps;
  }

  /** A state small enough, and early enough, for a commit at `t` to go through. */
  ghost predicate Roomy(b: Books, s: Space, t: int, n: nat) {
    && (forall m: Metric :: AccountOf(b, s).totals.Get(m) <= n && b.admin.Get(m) <= n)
    && (forall r :: r in AccountOf(b, s).bytes ==> r.at < t)
  }

  /** The blobs of a space, and the bytes it has added and removed. */
  ghost predicate Keeps(b: Books, s: Space, blobs: seq<Record>, added: nat, removed: nat) {
    var a := AccountOf(b, s);
    a.blobs == blobs && a.totals.blobAddSize == added && a.totals.blobRemoveSize == removed
  }

  lemma {:induction false} RoomyRows(a: Account, k: Commit)
    requires OnBlobs(k.change) && forall r :: r in a.bytes ==> r.at < k.change.at
    ensures forall r :: r in PgWritten(a, k).bytes ==> r.at < k.change.at + MICROSECOND
  {
    hide Insert, Int64, Without, Position;
    InsertMember(a.bytes,
                 Row(k.change.at, k.change.cause,
                     if k.change.Register? then Int64(k.change.size) else Int64(-Int64(k.looked))));
  }

  lemma {:induction false} RoomyGoesThrough(b: Books, k: Commit, n: nat)
    requires Roomy(b, k.change.space, k.change.at, n) && 0 < n < 0x1000_0000 && OnTick(k.change.at)
    requires forall m: Metric :: PgMoved(AccountOf(b, k.change.space), k).Get(m) <= n
    ensures PgApply(b, k) == PgLand(b, k) && !RolledBack(b, k)
  {
    hide PgWritten, PgMoved, PgLand, Totals.Get;
    assert Stamped(k) == k;
  }

  lemma {:induction false} RoomySum(t: Totals, inc: Totals, n: nat)
    requires 0 < n < 0x1000_0000 && forall m: Metric :: t.Get(m) <= n && inc.Get(m) <= n
    ensures forall m: Metric :: t.Plus(inc).Get(m) <= 2 * n
  {
    hide Totals.Plus, UInt64;
    forall m: Metric ensures t.Plus(inc).Get(m) <= 2 * n {
      assert t.Get(m) <= n;
      PlusGet(t, inc, m);
    }
  }

  lemma {:induction false} RoomyCommit(b: Books, k: Commit, n: nat)
    requires OnBlobs(k.change) && Roomy(b, k.change.space, k.change.at, n) && 0 < n < 0x1000_0000 && OnTick(k.change.at)
    requires forall m: Metric :: PgMoved(AccountOf(b, k.change.space), k).Get(m) <= n
    ensures PgApply(b, k).admin == b.admin.Plus(PgMoved(AccountOf(b, k.change.space), k))
    ensures AccountOf(PgApply(b, k), k.change.space) == PgAct(AccountOf(b, k.change.space), k)
    ensures Roomy(PgApply(b, k), k.change.space, k.change.at + MICROSECOND, 2 * n)
  {
    var a := AccountOf(b, k.change.space);
    RoomyGoesThrough(b, k, n);
    RoomyRows(a, k);
    RoomySum(a.totals, PgMoved(a, k), n);
    RoomySum(b.admin, PgMoved(a, k), n);
    hide PgWritten, PgMoved, RolledBack, Totals.Plus, Totals.Get, Stamped;
  }

  lemma {:induction false} ActAdds(a: Account, k: Commit)
    requires k.change.Register? && a.blobs == [] && a.totals.blobAddSize + k.change.size < TWO_64
    ensures PgAct(a, k).blobs == [Record(k.change.digest, k.change.size, k.change.cause)]
    ensures PgAct(a, k).totals.blobAddSize == a.totals.blobAddSize + k.change.size
    ensures PgAct(a, k).totals.blobRemoveSize == a.totals.blobRemoveSize
    ensures forall m: Metric :: PgMoved(a, k).Get(m) <= 1 + k.change.size
  {
    hide Insert, UInt64, Int64;
  }

  lemma {:induction false} ActDrops(a: Account, k: Commit, rec: Record)
    requires k.change.Deregister? && a.blobs == [rec] && rec.digest == k.change.digest
    requires a.totals.blobRemoveSize + k.looked < TWO_64
    ensures PgAct(a, k).blobs == []
    ensures PgAct(a, k).totals.blobAddSize == a.totals.blobAddSize
    ensures PgAct(a, k).totals.blobRemoveSize == a.totals.blobRemoveSize + k.looked
    ensures forall m: Metric :: PgMoved(a, k).Get(m) <= 1 + k.looked
  {
    hide Insert, UInt64, Int64;
    assert [rec][..0] == [];
    assert Without([rec], rec.digest) == [];
  }

  lemma {:induction false} AddHeld(b: Books, s: Space, k: Commit, n: nat, added: nat, removed: nat)
    requires k.change.Register? && k.change.space == s && OnTick(k.change.at) && k.change.size < n < 0x1000_0000
    requires Roomy(b, s, k.change.at, n) && Keeps(b, s, [], added, removed)
    ensures Keeps(PgApply(b, k), s, [Record(k.change.digest, k.change.size, k.change.cause)], added + k.change.size,
                  removed)
    ensures Roomy(PgApply(b, k), s, k.change.at + MICROSECOND, 2 * n)
  {
    hide PgApply, PgAct, PgMoved;
    assert AccountOf(b, s).totals.Get(BlobAddSize) <= n;
    ActAdds(AccountOf(b, s), k);
    RoomyCommit(b, k, n);
  }

  lemma {:induction false} DropHeld(b: Books, s: Space, k: Commit, rec: Record, n: nat, added: nat, removed: nat)
    requires k.change.Deregister? && k.change.space == s && OnTick(k.change.at) && k.looked < n < 0x1000_0000
    requires rec.digest == k.change.digest && Roomy(b, s, k.change.at, n) && Keeps(b, s, [rec], added, removed)
    ensures Keeps(PgApply(b, k), s, [], added, removed + k.looked)
    ensures Roomy(PgApply(b, k), s, k.change.at + MICROSECOND, 2 * n)
  {
    hide PgApply, PgAct, PgMoved;
    assert AccountOf(b, s).totals.Get(BlobRemoveSize) <= n;
    ActDrops(AccountOf(b, s), k, rec);
    RoomyCommit(b, k, n);
  }

  /** Ten bytes registered, and both callers have looked them up. */
  lemma {:induction false} BothLooked(s: Space, d: Digest, steps: seq<Move>)
    requires steps == [Call(Register(s, d, 10, "a", 1000)), Look(0, s, d), Look(1, s, d)]
    ensures Keeps(Interleaved(steps).books, s, [Record(d, 10, "a")], 10, 0)
            && Roomy(Interleaved(steps).books, s, 2000, 22)
    ensures Interleaved(steps).open == map[0 := Looking(s, d, 10), 1 := Looking(s, d, 10)]
  {
    var one, two, l := [steps[0]], [steps[0], steps[1]], Looking(s, d, 10);
    assert [] + one == one && one + [steps[1]] == two && two + [steps[2]] == steps;
    InterleavedSnoc([], steps[0]);
    assert Interleaved([]) == NEW_DESK;
    InterleavedSnoc(one, steps[1]);
    InterleavedSnoc(two, steps[2]);
    NewRoomy(s);
    hide PgApply, Interleaved, Keeps, Roomy, Seen;
    AddHeld(NEW_BOOKS, s, Commit(steps[0].change, 0), 11, 0, 0);
    LookSees(Interleaved(one), 0, s, Record(d, 10, "a"), 10, 0);
    LookSees(Interleaved(two), 1, s, Record(d, 10, "a"), 10, 0);
  }

  lemma {:induction false} NewRoomy(s: Space)
    ensures Roomy(NEW_BOOKS, s, 1000, 11) && Keeps(NEW_BOOKS, s, [], 0, 0)
  {
  }

  lemma {:induction false} LookSees(k: Desk, who: nat, s: Space, rec: Record, added: nat, removed: nat)
    requires Keeps(k.books, s, [rec], added, removed)
    ensures MakeMove(k, Look(who, s, rec.digest)) == k.(open := k.open[who := Looking(s, rec.digest, rec.size)])
  {
  }

  /** The first caller deletes, and the digest is registered again with one byte. */
  lemma {:induction false} Replaced(s: Space, d: Digest, steps: seq<Move>)
    requires Keeps(Interleaved(steps).books, s, [Record(d, 10, "a")], 10, 0)
             && Roomy(Interleaved(steps).books, s, 2000, 22)
    requires Interleaved(steps).open == map[0 := Looking(s, d, 10), 1 := Looking(s, d, 10)]
    ensures var after := Interleaved(steps + [Delete(0, "b", 2000)] + [Call(Register(s, d, 1, "c", 3000))]);
            && Keeps(after.books, s, [Record(d, 1, "c")], 11, 10) && Roomy(after.books, s, 4000, 88)
            && after.open == map[1 := Looking(s, d, 10)]
  {
    hide PgApply, Interleaved, Roomy;
    InterleavedSnoc(steps, Delete(0, "b", 2000));
    DropHeld(Interleaved(steps).books, s, Commit(Deregister(s, d, "b", 2000), 10), Record(d, 10, "a"), 22, 10, 0);
    var more := steps + [Delete(0, "b", 2000)];
    InterleavedSnoc(more, Call(Register(s, d, 1, "c", 3000)));
    AddHeld(Interleaved(more).books, s, Commit(Register(s, d, 1, "c", 3000), 0), 44, 10, 10);
  }

  /**
   Two callers look up a digest of 10 bytes. One deletes it, it is registered
   again with 1 byte, and the other deletes that one as 10: the space has added
   11 bytes, removed 20, and holds nothing.
   */
  lemma {:induction false} StaleLookup(s: Space, d: Digest) returns (steps: seq<Move>)
    ensures Keeps(Interleaved(steps).books, s, [], 11, 20)
  {
    var looked := [Call(Register(s, d, 10, "a", 1000)), Look(0, s, d), Look(1, s, d)];
    BothLooked(s, d, looked);
    Replaced(s, d, looked);
    hide PgApply, Interleaved, Roomy;
    var more := looked + [Delete(0, "b", 2000)] + [Call(Register(s, d, 1, "c", 3000))];
    steps := more + [Delete(1, "e", 4000)];
    InterleavedSnoc(more, Delete(1, "e", 4000));
    DropHeld(Interleaved(more).books, s, Commit(Deregister(s, d, "e", 4000), 10), Record(d, 1, "c"), 88, 11, 10);
  }

  // ----- every honest list of commits is an interleaving

  /** A call that is no removal looks nothing up. */
  ghost predicate LooksOnly(ks: seq<Commit>) {
    forall i :: 0 <= i < |ks| && !ks[i].change.Deregister? ==> ks[i].looked == 0
  }

  /** A time at which the lookup of the i-th commit, if it is a removal, saw what it recorded. */
  ghost predicate LooksAt(ks: seq<Commit>, js: seq<nat>) {
    && |js| == |ks|
    && forall i :: 0 <= i < |ks| && ks[i].change.Deregister? ==>
         js[i] <= i && Seen(PgRun(ks[..js[i]]), ks[i].change.space, ks[i].change.digest) == Some(ks[i].looked)
  }

  lemma {:induction false} PickLooks(ks: seq<Commit>, n: nat) returns (js: seq<nat>)
    requires Honest(ks) && n <= |ks|
    ensures |js| == n
    ensures forall i :: 0 <= i < n && ks[i].change.Deregister? ==>
              js[i] <= i && Seen(PgRun(ks[..js[i]]), ks[i].change.space, ks[i].change.digest) == Some(ks[i].looked)
  {
    hide PgRun, Seen;
    if n == 0 {
      js := [];
    } else {
      js := PickLooks(ks, n - 1);
      var j: nat := 0;
      if ks[n - 1].change.Deregister? {
        HonestAt(ks, n - 1);
        j :| j <= n - 1
             && Seen(PgRun(ks[..j]), ks[n - 1].change.space, ks[n - 1].change.digest) == Some(ks[n - 1].looked);
      }
      js := js + [j];
    }
  }

  /** The removals still to come whose lookups are done: those timed before n, and of those timed at n the first m. */
  ghost function Opened(ks: seq<Commit>, js: seq<nat>, n: nat, m: nat): map<nat, Looking>
    requires |js| == |ks|
  {
    map i: nat | n <= i < |ks| && ks[i].change.Deregister? && (js[i] < n || (js[i] == n && i < m))
      :: i := Looking(ks[i].change.space, ks[i].change.digest, ks[i].looked)
  }

  /** A desk after the first n commits, each removal under its own place as its caller. */
  ghost predicate DeskAt(d: Desk, ks: seq<Commit>, js: seq<nat>, n: nat, m: nat)
    requires |js| == |ks| && n <= |ks|
  {
    d == Desk(PgRun(ks[..n]), Opened(ks, js, n, m), ks[..n])
  }

  /** The lookups timed at n, up to the m-th commit's. */
  lemma {:induction false} LookAll(ks: seq<Commit>, js: seq<nat>, n: nat, m: nat, steps: seq<Move>)
      returns (more: seq<Move>)
    requires LooksAt(ks, js) && n <= m <= |ks| && DeskAt(Interleaved(steps), ks, js, n, n)
    ensures DeskAt(Interleaved(more), ks, js, n, m)
  {
    hide PgRun, PgApply, Seen;
    if m == n {
      more := steps;
    } else {
      var i := m - 1;
      more := LookAll(ks, js, n, i, steps);
      var c := ks[i].change;
      if c.Deregister? && js[i] == n {
        var step := Look(i, c.space, c.digest);
        InterleavedSnoc(more, step);
        hide Interleaved;
        more := more + [step];
        assert Opened(ks, js, n, m) == Opened(ks, js, n, i)[i := Looking(c.space, c.digest, ks[i].looked)];
      } else {
        assert Opened(ks, js, n, m) == Opened(ks, js, n, i);
      }
    }
  }

  lemma {:induction false} OpenedNext(ks: seq<Commit>, js: seq<nat>, n: nat)
    requires LooksAt(ks, js) && n < |ks|
    ensures Opened(ks, js, n + 1, n + 1) == Opened(ks, js, n, |ks|) - {n}
    ensures var k := ks[n];
            if k.change.Deregister?
            then n in Opened(ks, js, n, |ks|)
              && Opened(ks, js, n, |ks|)[n] == Looking(k.change.space, k.change.digest, k.looked)
            else n !in Opened(ks, js, n, |ks|)
  {
    hide PgRun, Seen;
  }

  /** The move that makes the n-th commit. */
  function Committing(ks: seq<Commit>, n: nat): Move
    requires n < |ks|
  {
    var c := ks[n].change;
    if c.Deregister? then Delete(n, c.cause, c.at) else Call(c)
  }

  /** Whether the n-th commit is a removal whose lookup is open, or another call, which looked nothing up. */
  ghost predicate Ready(d: Desk, ks: seq<Commit>, n: nat)
    requires n < |ks|
  {
    && d.commits == ks[..n]
    && if ks[n].change.Deregister?
       then n in d.open && d.open[n] == Looking(ks[n].change.space, ks[n].change.digest, ks[n].looked)
       else n !in d.open && ks[n].looked == 0
  }

  lemma {:induction false} MakesCommit(d: Desk, ks: seq<Commit>, n: nat)
    requires n < |ks| && Ready(d, ks, n)
    ensures MakeMove(d, Committing(ks, n)) == Desk(PgApply(d.books, ks[n]), d.open - {n}, ks[..n + 1])
  {
    hide PgApply;
    var k := ks[n];
    assert ks[..n + 1] == ks[..n] + [k];
    if k.change.Deregister? {
      assert k == Commit(Deregister(k.change.space, k.change.digest, k.change.cause, k.change.at), k.looked);
    } else {
      assert k == Commit(k.change, 0) && d.open - {n} == d.open;
    }
  }

  lemma {:induction false} DeskReady(d: Desk, ks: seq<Commit>, js: seq<nat>, n: nat)
    requires LooksAt(ks, js) && LooksOnly(ks) && n < |ks| && DeskAt(d, ks, js, n, |ks|)
    ensures Ready(d, ks, n)
  {
    assert ks[n].change.Deregister? || ks[n].looked == 0;
    hide PgRun, Opened, Seen, LooksAt, LooksOnly;
    OpenedNext(ks, js, n);
  }

  lemma {:induction false} DeskNext(d: Desk, ks: seq<Commit>, js: seq<nat>, n: nat)
    requires LooksAt(ks, js) && n < |ks| && DeskAt(d, ks, js, n, |ks|)
    ensures DeskAt(Desk(PgApply(d.books, ks[n]), d.open - {n}, ks[..n + 1]), ks, js, n + 1, n + 1)
  {
    hide PgApply, PgRun, Opened, Seen, LooksAt;
    OpenedNext(ks, js, n);
    assert ks[..n + 1] == ks[..n] + [ks[n]];
    PgRunSnoc(ks[..n], ks[n]);
  }

  /** The n-th commit, once the lookups timed at n are done. */
  lemma {:induction false} CommitNext(ks: seq<Commit>, js: seq<nat>, n: nat, steps: seq<Move>) returns (more: seq<Move>)
    requires LooksAt(ks, js) && LooksOnly(ks) && n < |ks| && DeskAt(Interleaved(steps), ks, js, n, |ks|)
    ensures DeskAt(Interleaved(more), ks, js, n + 1, n + 1)
  {
    hide *;
    DeskReady(Interleaved(steps), ks, js, n);
    MakesCommit(Interleaved(steps), ks, n);
    DeskNext(Interleaved(steps), ks, js, n);
    InterleavedSnoc(steps, Committing(ks, n));
    more := steps + [Committing(ks, n)];
  }

  lemma {:induction false} NoMoves(ks: seq<Commit>, js: seq<nat>)
    requires LooksAt(ks, js)
    ensures DeskAt(Interleaved([]), ks, js, 0, 0)
  {
    hide Seen;
    assert ks[..0] == [];
    assert forall i :: i !in Opened(ks, js, 0, 0);
  }

  lemma {:induction false} CommitsTo(ks: seq<Commit>, js: seq<nat>, n: nat) returns (steps: seq<Move>)
    requires LooksAt(ks, js) && LooksOnly(ks) && n <= |ks|
    ensures DeskAt(Interleaved(steps), ks, js, n, n)
  {
    hide *;
    if n == 0 {
      NoMoves(ks, js);
      steps := [];
    } else {
      var before := CommitsTo(ks, js, n - 1);
      var looked := LookAll(ks, js, n - 1, |ks|, before);
      steps := CommitNext(ks, js, n - 1, looked);
    }
  }

  lemma {:induction false} LookedNothing(steps: seq<Move>)
    ensures LooksOnly(Interleaved(steps).commits)
  {
    if steps != [] {
      LookedNothing(steps[..|steps| - 1]);
      hide PgApply, Seen;
    }
  }

  /**
   The interleavings of lookups, deletes and other calls commit exactly the lists of
   calls in which each removal records a size its digest had in some state committed
   before it.
   */
  lemma {:induction false} InterleavingsAre(ks: seq<Commit>)
    ensures (exists steps :: Interleaved(steps).commits == ks) <==> Honest(ks) && LooksOnly(ks)
  {
    if Honest(ks) && LooksOnly(ks) {
      var js := PickLooks(ks, |ks|);
      assert LooksAt(ks, js);
      hide Honest, LooksAt, LooksOnly;
      var steps := CommitsTo(ks, js, |ks|);
      hide Interleaved;
      assert ks[..|ks|] == ks;
    }
    if steps :| Interleaved(steps).commits == ks {
      InterleavedCoherent(steps);
      LookedNothing(steps);
    }
  }
}
