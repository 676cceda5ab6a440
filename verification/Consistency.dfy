/**
 What every run of store calls keeps, whatever the sizes, causes and instants:
 logs and counters describe the same changes, and global counters are the sum
 of the spaces' counters. Counters are 64-bit words, so agreement is modulo
 2^64.
 */
module Consistency {
  import opened Words
  import opened DiffLogs
  import opened Accounting

  /** A metric summed over every space. */
  ghost function Across(t: map<Space, Account>, m: Metric): nat
    decreases |t|
  {
    if t == map[] then 0
    else
      var s :| s in t;
      t[s].totals.Get(m) + Across(t - {s}, m)
  }

  lemma {:induction false} AcrossSplit(t: map<Space, Account>, m: Metric, s: Space)
    requires s in t
    ensures Across(t, m) == t[s].totals.Get(m) + Across(t - {s}, m)
    decreases |t|
  {
    var p :| p in t && Across(t, m) == t[p].totals.Get(m) + Across(t - {p}, m);
    if p != s {
      AcrossSplit(t - {p}, m, s);
      AcrossSplit(t - {s}, m, p);
      assert t - {p} - {s} == t - {s} - {p};
    }
  }

  lemma {:induction false} AcrossUpdate(b: Books, m: Metric, s: Space, a: Account)
    ensures Across(b.accounts[s := a], m) == Across(b.accounts, m) - AccountOf(b, s).totals.Get(m) + a.totals.Get(m)
  {
    var t := b.accounts;
    AcrossSplit(t[s := a], m, s);
    assert t[s := a] - {s} == t - {s};
    if s in t { AcrossSplit(t, m, s); } else { assert t - {s} == t; }
  }

  ghost predicate BytesAgree(a: Account) {
    Congruent(a.totals.blobAddSize - a.totals.blobRemoveSize, SumOf(a.bytes, Delta()))
  }

  ghost predicate ObjectsAgree(a: Account) {
    Congruent(a.totals.uploadAdd - a.totals.uploadRemove, SumOf(a.objects, Delta()))
  }

  ghost predicate AdminAgrees(b: Books, m: Metric) {
    b.admin.Get(m) == UInt64(Across(b.accounts, m))
  }

  ghost predicate Agrees(b: Books) {
    && (forall s :: BytesAgree(AccountOf(b, s)) && ObjectsAgree(AccountOf(b, s)))
    && (forall m :: AdminAgrees(b, m))
  }

  /** Two counters and a log move together. */
  lemma {:induction false} AgreeStep(added: int, removed: int, u: int, v: int, log: int, d: int)
    requires Congruent(added - removed, log) && Congruent(d, u - v)
    ensures Congruent(UInt64(added + u) - UInt64(removed + v), log + d)
  {
    hide UInt64;
    CongruentConversions(added + u);
    CongruentConversions(removed + v);
    CongruentSums(UInt64(added + u), added + u, UInt64(removed + v), removed + v);
    CongruentSums(added - removed, log, u - v, d);
  }

  lemma {:induction false} LogMoves(objects: seq<Row>, at: int, cause: Cause, delta: int)
    ensures SumOf(Logged(objects, at, cause, delta), Delta())
         == SumOf(objects, Delta()) + if HasKey(objects, Instant(at), cause) then 0 else delta
  {
    InsertSum(objects, Row(Instant(at), cause, delta), Delta());
  }

  /** What a call adds to each log is, modulo 2^64, what it moves the log's counters by. */
  lemma {:induction false} ActMoves(a: Account, c: Change) returns (bytes: int, objects: int)
    ensures SumOf(Act(a, c).bytes, Delta()) == SumOf(a.bytes, Delta()) + bytes
    ensures Congruent(bytes, Moved(a, c).blobAddSize - Moved(a, c).blobRemoveSize)
    ensures SumOf(Act(a, c).objects, Delta()) == SumOf(a.objects, Delta()) + objects
    ensures Congruent(objects, Moved(a, c).uploadAdd - Moved(a, c).uploadRemove)
  {
    hide Int64, UInt64, SumOf, Insert, HasKey, IndexOf, Position, Without;
    bytes, objects := 0, 0;
    match c
    case Register(_, digest, size, cause, at) =>
      if Find(a.blobs, digest).None? {
        bytes := Int64(size);
        CongruentConversions(size);
        InsertSum(a.bytes, Row(at, cause, bytes), Delta());
      }
    case Deregister(_, digest, cause, at) =>
      var found := Find(a.blobs, digest);
      if found.Some? {
        var size := found.value.size;
        bytes := Int64(-Int64(size));
        CongruentConversions(size);
        CongruentConversions(-Int64(size));
        CongruentSums(0, 0, Int64(size), size);
        InsertSum(a.bytes, Row(at, cause, bytes), Delta());
      }
    case Upsert(_, root, index, cause, at) =>
      LogMoves(a.objects, at, cause, 1);
      objects := Moved(a, c).uploadAdd;
    case Remove(_, root, cause, at) =>
      LogMoves(a.objects, at, cause, -1);
      objects := 0 - Moved(a, c).uploadRemove;
  }

  lemma {:induction false} BytesStep(a: Account, a': Account, inc: Totals, d: int)
    requires BytesAgree(a) && a'.totals == a.totals.Plus(inc)
    requires SumOf(a'.bytes, Delta()) == SumOf(a.bytes, Delta()) + d
             && Congruent(d, inc.blobAddSize - inc.blobRemoveSize)
    ensures BytesAgree(a')
  {
    hide UInt64, SumOf;
    AgreeStep(a.totals.blobAddSize, a.totals.blobRemoveSize, inc.blobAddSize, inc.blobRemoveSize,
              SumOf(a.bytes, Delta()), d);
  }

  lemma {:induction false} ObjectsStep(a: Account, a': Account, inc: Totals, d: int)
    requires ObjectsAgree(a) && a'.totals == a.totals.Plus(inc)
    requires SumOf(a'.objects, Delta()) == SumOf(a.objects, Delta()) + d
             && Congruent(d, inc.uploadAdd - inc.uploadRemove)
    ensures ObjectsAgree(a')
  {
    hide UInt64, SumOf;
    AgreeStep(a.totals.uploadAdd, a.totals.uploadRemove, inc.uploadAdd, inc.uploadRemove, SumOf(a.objects, Delta()), d);
  }

  lemma {:induction false} ActAgrees(a: Account, c: Change)
    requires BytesAgree(a) && ObjectsAgree(a)
    ensures BytesAgree(Act(a, c)) && ObjectsAgree(Act(a, c))
  {
    var bytes, objects := ActMoves(a, c);
    BytesStep(a, Act(a, c), Moved(a, c), bytes);
    ObjectsStep(a, Act(a, c), Moved(a, c), objects);
  }

  lemma {:induction false} PlusGet(t: Totals, inc: Totals, m: Metric)
    ensures t.Plus(inc).Get(m) == UInt64(t.Get(m) + inc.Get(m))
  {
  }

  lemma {:induction false} AdminStep(sum: int, was: int, v: int)
    ensures UInt64(sum - was + UInt64(was + v)) == UInt64(UInt64(sum) + v)
  {
    UInt64Absorbs(sum, v);
    CongruentConversions(was + v);
    CongruentSums(sum - was, sum - was, UInt64(was + v), was + v);
  }

  lemma {:induction false} AdminMoves(b: Books, c: Change, m: Metric)
    requires AdminAgrees(b, m)
    ensures AdminAgrees(Apply(b, c), m)
  {
    hide Moved, Written, UInt64, Across;
    var a := AccountOf(b, c.space);
    var inc := Moved(a, c);
    AcrossUpdate(b, m, c.space, Act(a, c));
    PlusGet(a.totals, inc, m);
    PlusGet(b.admin, inc, m);
    AdminStep(Across(b.accounts, m), a.totals.Get(m), inc.Get(m));
  }

  /**
   After every run, suppressed replays and failed calls included, each space's
   counters equal the sums of its logs and each global counter equals the sum
   of that counter over the spaces.
   */
  lemma {:induction false} LogsAndCountersAgree(cs: seq<Change>)
    ensures Agrees(Run(cs))
  {
    if cs != [] {
      var b, c := Run(cs[..|cs| - 1]), cs[|cs| - 1];
      LogsAndCountersAgree(cs[..|cs| - 1]);
      forall s ensures BytesAgree(AccountOf(Apply(b, c), s)) && ObjectsAgree(AccountOf(Apply(b, c), s)) {
        assert BytesAgree(AccountOf(b, s)) && ObjectsAgree(AccountOf(b, s));
        if s == c.space { ActAgrees(AccountOf(b, s), c); }
      }
      forall m ensures AdminAgrees(Apply(b, c), m) {
        assert AdminAgrees(b, m);
        AdminMoves(b, c, m);
      }
    }
  }

  // ----- what every call tells

  lemma {:induction false} ActUnique(a: Account, c: Change)
    requires UniqueDigests(a.blobs) && UniqueRoots(a.uploads)
    ensures UniqueDigests(Act(a, c).blobs) && UniqueRoots(Act(a, c).uploads)
  {
    hide Totals.Plus, Insert, Moved;
    match c
    case Register(_, digest, size, cause, _) =>
    case Deregister(_, digest, _, _) => if Find(a.blobs, digest).Some? { DropsOne(a.blobs, digest); }
    case Upsert(_, root, index, cause, _) =>
    case Remove(_, root, _, _) =>
  }

  lemma {:induction false} RunUnique(cs: seq<Change>, s: Space)
    ensures UniqueDigests(AccountOf(Run(cs), s).blobs) && UniqueRoots(AccountOf(Run(cs), s).uploads)
  {
    if cs != [] {
      RunUnique(cs[..|cs| - 1], s);
      RunAccount(cs, s);
      hide Run, Act, UniqueDigests, UniqueRoots;
      ActUnique(AccountOf(Run(cs[..|cs| - 1]), s), cs[|cs| - 1]);
    }
  }

  /**
   After every run, one more call tells its caller, leaves of the tables, logs and counts
   what its kind says; a removal logs the size of the record it takes out.
   */
  lemma {:induction false} RunTells(cs: seq<Change>, c: Change, looked: Word)
    ensures var a := AccountOf(Run(cs), c.space);
            Told(c, a, AccountOf(Run(cs + [c]), c.space), Result(a, c))
    ensures Looked(c, AccountOf(Run(cs), c.space), looked) ==>
              Counted(c, AccountOf(Run(cs), c.space), AccountOf(Run(cs + [c]), c.space), looked)
  {
    hide Told, Counted, Looked, Act, Run, Result, UniqueDigests, UniqueRoots;
    RunUnique(cs, c.space);
    ActTells(AccountOf(Run(cs), c.space), c);
    if Looked(c, AccountOf(Run(cs), c.space), looked) { ActCounts(AccountOf(Run(cs), c.space), c, looked); }
    assert (cs + [c])[..|cs|] == cs;
    RunAccount(cs + [c], c.space);
  }
}
