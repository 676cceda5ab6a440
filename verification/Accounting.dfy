/**
 What the accounting stores hold for a space: its blob registry, its uploads,
 its two diff logs and its counters, and how each store operation moves them.
 The operations are those of the in-memory stores; Postgres adds its own
 failures to them (module Postgres).
 */
module Accounting {
  import opened Words
  import opened DiffLogs

  type Space = string
  type Digest = string
  type Root = string
  type Cause = string

  datatype Metric = BlobAdd | BlobAddSize | BlobRemove | BlobRemoveSize | UploadAdd | UploadRemove

  /** The counters of a space, or the global ones. A counter never moved reads as zero. */
  datatype Totals = Totals(
    blobAdd: Word, blobAddSize: Word, blobRemove: Word, blobRemoveSize: Word, uploadAdd: Word, uploadRemove: Word)
  {
    function Get(m: Metric): Word {
      match m
      case BlobAdd => blobAdd
      case BlobAddSize => blobAddSize
      case BlobRemove => blobRemove
      case BlobRemoveSize => blobRemoveSize
      case UploadAdd => uploadAdd
      case UploadRemove => uploadRemove
    }

    function Plus(inc: Totals): Totals {
      Totals(UInt64(blobAdd + inc.blobAdd), UInt64(blobAddSize + inc.blobAddSize),
             UInt64(blobRemove + inc.blobRemove), UInt64(blobRemoveSize + inc.blobRemoveSize),
             UInt64(uploadAdd + inc.uploadAdd), UInt64(uploadRemove + inc.uploadRemove))
    }
  }

  const ZERO := Totals(0, 0, 0, 0, 0, 0)

  datatype Record = Record(digest: Digest, size: Word, cause: Cause)

  datatype Upload = Upload(root: Root, index: Option<string>, cause: Cause)

  datatype Account = Account(
    blobs: seq<Record>, uploads: seq<Upload>, bytes: seq<Row>, objects: seq<Row>, totals: Totals)

  const NEW_ACCOUNT := Account([], [], [], [], ZERO)

  datatype Books = Books(accounts: map<Space, Account>, admin: Totals)

  const NEW_BOOKS := Books(map[], ZERO)

  /** One store call, with the instant the store reads from its clock. */
  datatype Change =
    | Register(space: Space, digest: Digest, size: Word, cause: Cause, at: int)
    | Deregister(space: Space, digest: Digest, cause: Cause, at: int)
    | Upsert(space: Space, root: Root, index: Option<string>, cause: Cause, at: int)
    | Remove(space: Space, root: Root, cause: Cause, at: int)

  datatype Outcome = Done | EntryExists | EntryNotFound | UploadNotFound

  const MICROSECOND := 1000

  /** The precision the upload log keeps an instant at. */
  function Instant(at: int): (r: int)
    ensures OnTick(r) && r <= at < r + MICROSECOND
  {
    at - at % MICROSECOND
  }

  /** Whether an instant is kept as it is. */
  predicate OnTick(at: int) {
    at % MICROSECOND == 0
  }

  function AccountOf(b: Books, s: Space): Account {
    if s in b.accounts then b.accounts[s] else NEW_ACCOUNT
  }

  // ----- registry and uploads

  /** The place of a digest among a space's records, or their number when absent. */
  function Position(recs: seq<Record>, digest: Digest): (i: nat)
    ensures i <= |recs|
    ensures i < |recs| ==> recs[i].digest == digest
    ensures forall j :: 0 <= j < i ==> recs[j].digest != digest
  {
    if recs == [] then 0
    else if recs[0].digest == digest then 0
    else 1 + Position(recs[1..], digest)
  }

  function Find(recs: seq<Record>, digest: Digest): Option<Record> {
    var i := Position(recs, digest);
    if i < |recs| then Some(recs[i]) else None
  }

  function Without(recs: seq<Record>, digest: Digest): seq<Record> {
    if recs == [] then []
    else
      Without(recs[..|recs| - 1], digest)
      + if recs[|recs| - 1].digest == digest then [] else [recs[|recs| - 1]]
  }

  function BytesHeld(recs: seq<Record>): nat {
    if recs == [] then 0 else BytesHeld(recs[..|recs| - 1]) + recs[|recs| - 1].size
  }

  /** The place of a root among a space's uploads, or their number when absent. */
  function IndexOf(ups: seq<Upload>, root: Root): (i: nat)
    ensures i <= |ups|
    ensures i < |ups| ==> ups[i].root == root
    ensures forall j :: 0 <= j < i ==> ups[j].root != root
  {
    if ups == [] then 0
    else if ups[0].root == root then 0
    else 1 + IndexOf(ups[1..], root)
  }

  // ----- recording

  /** How far a call moves the counters; suppressed and failed calls not at all. */
  function Moved(a: Account, c: Change): Totals {
    match c
    case Register(_, digest, size, _, _) =>
      if Find(a.blobs, digest).Some? then ZERO else ZERO.(blobAdd := 1, blobAddSize := size)
    case Deregister(_, digest, _, _) =>
      (match Find(a.blobs, digest)
       case None => ZERO
       case Some(rec) => ZERO.(blobRemove := 1, blobRemoveSize := rec.size))
    case Upsert(_, root, _, cause, at) =>
      if IndexOf(a.uploads, root) < |a.uploads| || HasKey(a.objects, Instant(at), cause) then ZERO
      else ZERO.(uploadAdd := 1)
    case Remove(_, root, cause, at) =>
      if IndexOf(a.uploads, root) == |a.uploads| || HasKey(a.objects, Instant(at), cause) then ZERO
      else ZERO.(uploadRemove := 1)
  }

  /** A change the upload log already holds is not recorded again. */
  function Logged(objects: seq<Row>, at: int, cause: Cause, delta: int): seq<Row> {
    if HasKey(objects, Instant(at), cause) then objects
    else Insert(objects, Row(Instant(at), cause, delta))
  }

  /** Drops a digest, and records `size` bytes as removed for it. */
  function Drop(a: Account, digest: Digest, size: Word, cause: Cause, at: int): Account {
    a.(blobs := Without(a.blobs, digest), bytes := Insert(a.bytes, Row(at, cause, Int64(-Int64(size)))))
  }

  /** What a call does to the tables and logs of its space. */
  function Written(a: Account, c: Change): Account {
    match c
    case Register(_, digest, size, cause, at) =>
      if Find(a.blobs, digest).Some? then a
      else
        a.(blobs := a.blobs + [Record(digest, size, cause)], bytes := Insert(a.bytes, Row(at, cause, Int64(size))))
    case Deregister(_, digest, cause, at) =>
      (match Find(a.blobs, digest)
       case None => a
       case Some(rec) => Drop(a, digest, rec.size, cause, at))
    case Upsert(_, root, index, cause, at) =>
      var i := IndexOf(a.uploads, root);
      if i < |a.uploads| then a.(uploads := a.uploads[i := Upload(root, index, cause)])
      else
        a.(uploads := a.uploads + [Upload(root, index, cause)], objects := Logged(a.objects, at, cause, 1))
    case Remove(_, root, cause, at) =>
      var i := IndexOf(a.uploads, root);
      if i == |a.uploads| then a
      else
        a.(uploads := a.uploads[..i] + a.uploads[i + 1..], objects := Logged(a.objects, at, cause, -1))
  }

  function Act(a: Account, c: Change): Account {
    Written(a, c).(totals := a.totals.Plus(Moved(a, c)))
  }

  function Result(a: Account, c: Change): Outcome {
    match c
    case Register(_, digest, _, _, _) => if Find(a.blobs, digest).Some? then EntryExists else Done
    case Deregister(_, digest, _, _) => if Find(a.blobs, digest).None? then EntryNotFound else Done
    case Upsert(_, _, _, _, _) => Done
    case Remove(_, root, _, _) => if IndexOf(a.uploads, root) == |a.uploads| then UploadNotFound else Done
  }

  function Apply(b: Books, c: Change): Books {
    var a := AccountOf(b, c.space);
    Books(b.accounts[c.space := Act(a, c)], b.admin.Plus(Moved(a, c)))
  }

  /** The state after a run of store calls, in order. */
  function Run(cs: seq<Change>): Books {
    if cs == [] then NEW_BOOKS else Apply(Run(cs[..|cs| - 1]), cs[|cs| - 1])
  }

  /** A call does what it does to its own space, and nothing to any other. */
  lemma {:induction false} RunAccount(cs: seq<Change>, s: Space)
    requires cs != []
    ensures var init, c := cs[..|cs| - 1], cs[|cs| - 1];
            AccountOf(Run(cs), s) == if s == c.space then Act(AccountOf(Run(init), s), c) else AccountOf(Run(init), s)
  {
    hide Act, Moved;
  }

  // ----- what a call answers and leaves of the tables

  ghost predicate HasDigest(recs: seq<Record>, digest: Digest) {
    exists i :: 0 <= i < |recs| && recs[i].digest == digest
  }

  ghost predicate HasRoot(ups: seq<Upload>, root: Root) {
    exists i :: 0 <= i < |ups| && ups[i].root == root
  }

  /**
   What a call tells its caller and leaves of the tables. A registration adds its record
   last, unless its digest is registered. An upsert replaces the record of its root where
   it stands, or adds one last. A removal takes the record it names out. Every other
   record stays as it was, in order.
   */
  ghost predicate Told(c: Change, a: Account, a': Account, r: Outcome) {
    match c
    case Register(_, digest, size, cause, _) =>
      && a'.uploads == a.uploads && a'.objects == a.objects
      && (if HasDigest(a.blobs, digest) then r == EntryExists && a'.blobs == a.blobs
          else r == Done && a'.blobs == a.blobs + [Record(digest, size, cause)])
    case Deregister(_, digest, _, _) =>
      && a'.uploads == a.uploads && a'.objects == a.objects
      && (!HasDigest(a.blobs, digest) ==> r == EntryNotFound && a'.blobs == a.blobs)
      && forall i :: 0 <= i < |a.blobs| && a.blobs[i].digest == digest ==>
           r == Done && a'.blobs == a.blobs[..i] + a.blobs[i + 1..]
    case Upsert(_, root, index, cause, _) =>
      && a'.blobs == a.blobs && a'.bytes == a.bytes && r == Done
      && (!HasRoot(a.uploads, root) ==> a'.uploads == a.uploads + [Upload(root, index, cause)])
      && forall i :: 0 <= i < |a.uploads| && a.uploads[i].root == root ==>
           a'.uploads == a.uploads[i := Upload(root, index, cause)]
    case Remove(_, root, _, _) =>
      && a'.blobs == a.blobs && a'.bytes == a.bytes
      && (!HasRoot(a.uploads, root) ==> r == UploadNotFound && a'.uploads == a.uploads)
      && forall i :: 0 <= i < |a.uploads| && a.uploads[i].root == root ==>
           r == Done && a'.uploads == a.uploads[..i] + a.uploads[i + 1..]
  }

  lemma {:induction false} ActTells(a: Account, c: Change)
    requires UniqueDigests(a.blobs) && UniqueRoots(a.uploads)
    ensures Told(c, a, Act(a, c), Result(a, c))
  {
    match c
    case Register(_, digest, size, cause, _) =>
    case Deregister(_, digest, _, _) =>
      forall i | 0 <= i < |a.blobs| && a.blobs[i].digest == digest
        ensures Without(a.blobs, digest) == a.blobs[..i] + a.blobs[i + 1..]
      {
        WithoutOne(a.blobs, i);
      }
    case Upsert(_, root, index, cause, _) =>
    case Remove(_, root, _, _) =>
  }

  /** A removal leaves exactly the uploads of other roots, each record as it was. */
  lemma {:induction false} RemovalSpares(c: Change, a: Account, a': Account, r: Outcome)
    requires c.Remove? && UniqueRoots(a.uploads) && Told(c, a, a', r)
    ensures r == if HasRoot(a.uploads, c.root) then Done else UploadNotFound
    ensures forall u :: u in a'.uploads <==> u in a.uploads && u.root != c.root
    ensures UniqueRoots(a'.uploads) && !HasRoot(a'.uploads, c.root)
  {
    if i :| 0 <= i < |a.uploads| && a.uploads[i].root == c.root {
      CutSpares(a.uploads, i);
      hide UniqueRoots;
    }
  }

  lemma {:induction false} CutSpares(ups: seq<Upload>, i: nat)
    requires UniqueRoots(ups) && i < |ups|
    ensures var cut := ups[..i] + ups[i + 1..];
            && UniqueRoots(cut) && !HasRoot(cut, ups[i].root)
            && forall u :: u in cut <==> u in ups && u.root != ups[i].root
  {
    var cut := ups[..i] + ups[i + 1..];
    forall j | 0 <= j < |cut| ensures cut[j] in ups && cut[j].root != ups[i].root {
      assert cut[j] == if j < i then ups[j] else ups[j + 1];
    }
    forall u | u in ups && u.root != ups[i].root ensures u in cut {
      var j :| 0 <= j < |ups| && ups[j] == u;
      assert u == cut[if j < i then j else j - 1];
    }
  }

  // ----- what a call logs and counts

  /** A row added to a log that may hold any number of others. */
  ghost predicate RowAdded(rows: seq<Row>, rows': seq<Row>, row: Row) {
    |rows'| == |rows| + 1 && forall r :: r in rows' <==> r in rows || r == row
  }

  ghost predicate Repeated(rows: seq<Row>, at: int, cause: Cause) {
    exists i :: 0 <= i < |rows| && rows[i].at == at && rows[i].cause == cause
  }

  /** The delta a removal of so many bytes is logged with. */
  function Lost(size: Word): int {
    if size <= TWO_63 then -(size as int) else TWO_64 - size
  }

  /** A 64-bit counter moved on. */
  function Next(n: Word, more: Word): Word {
    if n + more < TWO_64 then n + more else n + more - TWO_64
  }

  /**
   What a call logs and counts. A registration that adds a record, and a removal that
   takes one out, log their size and move two counters by it and by one. An upload added
   or removed is logged, at the instant's microsecond, and counted once, unless the log
   has that instant and cause already. Any other call logs and counts nothing.
   */
  ghost predicate Counted(c: Change, a: Account, a': Account, looked: Word) {
    var t := a.totals;
    match c
    case Register(_, digest, size, cause, at) =>
      && a'.objects == a.objects
      && if HasDigest(a.blobs, digest) then a'.bytes == a.bytes && a'.totals == t
         else
           && RowAdded(a.bytes, a'.bytes, Row(at, cause, if size < TWO_63 then size else size - TWO_64))
           && a'.totals == t.(blobAdd := Next(t.blobAdd, 1), blobAddSize := Next(t.blobAddSize, size))
    case Deregister(_, digest, cause, at) =>
      && a'.objects == a.objects
      && if !HasDigest(a.blobs, digest) then a'.bytes == a.bytes && a'.totals == t
         else
           && RowAdded(a.bytes, a'.bytes, Row(at, cause, Lost(looked)))
           && a'.totals == t.(blobRemove := Next(t.blobRemove, 1), blobRemoveSize := Next(t.blobRemoveSize, looked))
    case Upsert(_, root, _, cause, at) =>
      && a'.bytes == a.bytes
      && if HasRoot(a.uploads, root) || Repeated(a.objects, Instant(at), cause)
         then a'.objects == a.objects && a'.totals == t
         else
           && RowAdded(a.objects, a'.objects, Row(Instant(at), cause, 1))
           && a'.totals == t.(uploadAdd := Next(t.uploadAdd, 1))
    case Remove(_, root, cause, at) =>
      && a'.bytes == a.bytes
      && if !HasRoot(a.uploads, root) || Repeated(a.objects, Instant(at), cause)
         then a'.objects == a.objects && a'.totals == t
         else
           && RowAdded(a.objects, a'.objects, Row(Instant(at), cause, -1))
           && a'.totals == t.(uploadRemove := Next(t.uploadRemove, 1))
  }

  lemma {:induction false} InsertAdds(rows: seq<Row>, row: Row)
    ensures RowAdded(rows, Insert(rows, row), row)
  {
    InsertMember(rows, row);
  }

  lemma {:induction false} PlusIs(t: Totals, inc: Totals)
    ensures t.Plus(inc)
         == Totals(Next(t.blobAdd, inc.blobAdd), Next(t.blobAddSize, inc.blobAddSize),
                   Next(t.blobRemove, inc.blobRemove), Next(t.blobRemoveSize, inc.blobRemoveSize),
                   Next(t.uploadAdd, inc.uploadAdd), Next(t.uploadRemove, inc.uploadRemove))
  {
  }

  /** The size a removal in memory records is that of the record it takes out. */
  ghost predicate Looked(c: Change, a: Account, looked: Word) {
    c.Deregister? ==> forall i :: 0 <= i < |a.blobs| && a.blobs[i].digest == c.digest ==> a.blobs[i].size == looked
  }

  lemma {:induction false} ActCounts(a: Account, c: Change, looked: Word)
    requires Looked(c, a, looked)
    ensures Counted(c, a, Act(a, c), looked)
  {
    PlusIs(a.totals, Moved(a, c));
    hide Totals.Plus, RowAdded, Without;
    match c
    case Register(_, _, size, cause, at) => InsertAdds(a.bytes, Row(at, cause, Int64(size)));
    case Deregister(_, digest, cause, at) =>
      InsertAdds(a.bytes, Row(at, cause, Int64(-Int64(looked))));
      assert Int64(-Int64(looked)) == Lost(looked);
    case Upsert(_, _, _, cause, at) => InsertAdds(a.objects, Row(Instant(at), cause, 1));
    case Remove(_, _, cause, at) => InsertAdds(a.objects, Row(Instant(at), cause, -1));
  }

  // ----- facts about the registry and the uploads

  ghost predicate UniqueDigests(recs: seq<Record>) {
    forall i, j :: 0 <= i < j < |recs| ==> recs[i].digest != recs[j].digest
  }

  ghost predicate UniqueRoots(ups: seq<Upload>) {
    forall i, j :: 0 <= i < j < |ups| ==> ups[i].root != ups[j].root
  }

  lemma {:induction false} WithoutAbsent(recs: seq<Record>, digest: Digest)
    requires forall i :: 0 <= i < |recs| ==> recs[i].digest != digest
    ensures Without(recs, digest) == recs
  {
    if recs != [] { WithoutAbsent(recs[..|recs| - 1], digest); }
  }

  /** Removing a registered digest takes out exactly its record. */
  lemma {:induction false} WithoutOne(recs: seq<Record>, i: nat)
    requires UniqueDigests(recs) && i < |recs|
    ensures Without(recs, recs[i].digest) == recs[..i] + recs[i + 1..]
  {
    var init, last := recs[..|recs| - 1], recs[|recs| - 1];
    if i == |recs| - 1 {
      WithoutAbsent(init, last.digest);
    } else {
      WithoutOne(init, i);
      assert init[i + 1..] + [last] == recs[i + 1..];
    }
  }

  lemma {:induction false} HeldSplit(recs: seq<Record>, i: nat)
    requires i < |recs|
    ensures BytesHeld(recs) == BytesHeld(recs[..i] + recs[i + 1..]) + recs[i].size
  {
    var init, last := recs[..|recs| - 1], recs[|recs| - 1];
    if i == |recs| - 1 {
      assert recs[..i] + recs[i + 1..] == init;
    } else {
      HeldSplit(init, i);
      var cut, kept := recs[..i] + recs[i + 1..], init[..i] + init[i + 1..];
      assert recs[..i] == init[..i] && recs[i + 1..] == init[i + 1..] + [last];
      assert cut == kept + [last];
      assert cut[..|kept|] == kept;
    }
  }

  /** Dropping a registered digest removes one record, of the size the lookup reports. */
  lemma {:induction false} DropsOne(recs: seq<Record>, digest: Digest)
    requires UniqueDigests(recs) && Find(recs, digest).Some?
    ensures BytesHeld(Without(recs, digest)) == BytesHeld(recs) - Find(recs, digest).value.size
    ensures |Without(recs, digest)| == |recs| - 1 && UniqueDigests(Without(recs, digest))
    ensures Find(Without(recs, digest), digest).None?
  {
    var i := Position(recs, digest);
    WithoutOne(recs, i);
    HeldSplit(recs, i);
    var cut := recs[..i] + recs[i + 1..];
    forall j | 0 <= j < |cut| ensures cut[j].digest != digest {
      assert cut[j] == if j < i then recs[j] else recs[j + 1];
    }
  }

  lemma {:induction false} PositionIs(recs: seq<Record>, d: Digest, i: nat)
    requires i <= |recs| && (i < |recs| ==> recs[i].digest == d)
    requires forall j :: 0 <= j < i ==> recs[j].digest != d
    ensures Position(recs, d) == i
  {
  }
}
