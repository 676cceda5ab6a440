/**
 Row locks of concurrent Postgres transactions. A transaction takes the rows of a
 registration, a removal or an upload one at a time and lets all of them go when
 it ends. Metric rows are taken in sorted key order so that no cycle of waiting
 can form.
 */
module Locking {
  import opened Words
  import opened Ordering
  import opened DiffLogs
  import opened Accounting

  datatype Scope = OneSpace(space: Space) | AllSpaces

  datatype Lock =
    | BlobRow(space: Space, digest: Digest)
    | UploadRow(space: Space, root: Root)
    | ShardRow(space: Space, root: Root, shard: string)
    | ByteRow(space: Space, at: int, cause: Cause)
    | ObjectRow(space: Space, at: int, cause: Cause)
    | CounterRow(scope: Scope, name: string)

  /** What a transaction works on. Metric keys come in whatever order the map yields them. */
  datatype Work =
    | BlobWork(space: Space, digest: Digest, at: int, cause: Cause, keys: seq<string>)
    | UpsertWork(space: Space, root: Root, shards: seq<string>, at: int, cause: Cause, keys: seq<string>)
    | RemoveWork(space: Space, root: Root, shards: seq<string>, at: int, cause: Cause, keys: seq<string>)

  // ----- what a transaction locks, in order

  function CounterLocks(scope: Scope, keys: seq<string>): seq<Lock> {
    var names := SortNames(keys);
    seq(|names|, i requires 0 <= i < |names| => CounterRow(scope, names[i]))
  }

  function ShardLocks(space: Space, root: Root, shards: seq<string>): seq<Lock> {
    seq(|shards|, i requires 0 <= i < |shards| => ShardRow(space, root, shards[i]))
  }

  /** The rows of one change to a space's log and of the counters it moves. */
  function Recording(row: Lock, space: Space, keys: seq<string>): seq<Lock> {
    [row] + CounterLocks(OneSpace(space), keys) + CounterLocks(AllSpaces, keys)
  }

  /**
   The rows a transaction takes if it runs to its end. The shards of an upload come
   in the client's order when it is added, and in any order when deleting the
   upload deletes them.
   */
  function Locks(w: Work): seq<Lock> {
    match w
    case BlobWork(space, digest, at, cause, keys) =>
      [BlobRow(space, digest)] + Recording(ByteRow(space, at, cause), space, keys)
    case UpsertWork(space, root, shards, at, cause, keys) =>
      [UploadRow(space, root)] + ShardLocks(space, root, shards) + Recording(ObjectRow(space, at, cause), space, keys)
    case RemoveWork(space, root, shards, at, cause, keys) =>
      [UploadRow(space, root)] + ShardLocks(space, root, shards) + Recording(ObjectRow(space, at, cause), space, keys)
  }

  // ----- moving counters

  function CounterAt(rows: map<string, int>, k: string): int {
    if k in rows then rows[k] else 0
  }

  /** Whether an increment takes a counter past what its column holds. */
  predicate TooBig(rows: map<string, int>, inc: map<string, Word>, k: string) {
    k in inc && !(MIN_INT64 <= CounterAt(rows, k) + Int64(inc[k]) <= MAX_INT64)
  }

  /** Counters of which some were moved, and no other. */
  ghost predicate MovedBy(rows: map<string, int>, now: map<string, int>, inc: map<string, Word>, names: seq<string>)
    requires forall k :: k in names ==> k in inc
  {
    forall k :: CounterAt(now, k) == CounterAt(rows, k) + if k in names then Int64(inc[k]) else 0
  }

  /**
   Upserts a counter row for each increment, in sorted key order, up to the first that
   would overflow. The rows are locked in that order.
   */
  method IncrementWith(rows: map<string, int>, inc: map<string, Word>, scope: Scope)
      returns (ok: bool, now: map<string, int>, locked: seq<Lock>, ghost keys: seq<string>, ghost done: nat)
    ensures Distinct(keys) && (forall k :: k in keys <==> k in inc) && (forall k :: k in SortNames(keys) ==> k in inc)
    ensures ok <==> !exists k :: TooBig(rows, inc, k)
    ensures done <= |SortNames(keys)| && MovedBy(rows, now, inc, SortNames(keys)[..done])
    ensures ok ==> done == |SortNames(keys)| && locked == CounterLocks(scope, keys)
    ensures !ok ==>
              done < |SortNames(keys)| && TooBig(rows, inc, SortNames(keys)[done])
              && locked == CounterLocks(scope, keys)[..done + 1]
    ensures !ok ==> forall k :: k in SortNames(keys)[..done] ==> !TooBig(rows, inc, k)
  {
    hide Int64, SortNames, Ascending, Distinct;
    var order := KeysOf(inc.Keys);
    keys := order;
    var names := SortNames(order);
    SortNamesAscends(order);
    now, locked, done := rows, [], 0;
    for i := 0 to |names|
      invariant locked == CounterLocks(scope, keys)[..i] && done == i
      invariant forall k :: CounterAt(now, k) == CounterAt(rows, k) + if k in names[..i] then Int64(inc[k]) else 0
      invariant forall k :: k in names[..i] ==> !TooBig(rows, inc, k)
    {
      assert names[..i + 1] == names[..i] + [names[i]];
      locked := locked + [CounterRow(scope, names[i])];
      NotYet(names, i);
      var sum := CounterAt(now, names[i]) + Int64(inc[names[i]]);
      if sum < MIN_INT64 || sum > MAX_INT64 {
        assert TooBig(rows, inc, names[i]);
        return false, now, locked, keys, done;
      }
      now := now[names[i] := sum];
      done := done + 1;
    }
    assert names[..|names|] == names;
    ok := true;
  }

  /**
   Moves counters inside a transaction, which is rolled back with everything else it
   did when one would overflow: all of them are moved, or none.
   */
  method IncrementInTransaction(rows: map<string, int>, inc: map<string, Word>, scope: Scope)
      returns (ok: bool, r: map<string, int>)
    ensures ok <==> !exists k :: TooBig(rows, inc, k)
    ensures forall k :: CounterAt(r, k) == CounterAt(rows, k) + if ok && k in inc then Int64(inc[k]) else 0
  {
    var moved, now, locked, keys, done := IncrementWith(rows, inc, scope);
    ok := moved;
    SortNamesAscends(keys);
    hide Int64, SortNames;
    assert ok ==> SortNames(keys)[..done] == SortNames(keys);
    r := if ok then now else rows;
  }

  /**
   Moves counters outside any transaction, each statement committing by itself: when
   one would overflow, those before it by name stay moved and the rest are left alone.
   */
  method IncrementTotals(rows: map<string, int>, inc: map<string, Word>, scope: Scope)
      returns (ok: bool, r: map<string, int>)
    ensures ok <==> !exists k :: TooBig(rows, inc, k)
    ensures ok ==> forall k :: CounterAt(r, k) == CounterAt(rows, k) + if k in inc then Int64(inc[k]) else 0
    ensures !ok ==>
              exists first :: TooBig(rows, inc, first) && (forall k :: TooBig(rows, inc, k) ==> !LexLess(k, first))
                                    && forall k ::
                                         CounterAt(r, k)
                                         == CounterAt(rows, k)
                                         + if k in inc && LexLess(k, first) then Int64(inc[k]) else 0
  {
    r := rows;
    if |inc| == 0 {
      assert inc == map[];
      return true, r;
    }
    var moved, now, locked, keys, done := IncrementWith(rows, inc, scope);
    ok, r := moved, now;
    SortNamesAscends(keys);
    hide Int64, SortNames, LexLess;
    if ok {
      assert SortNames(keys)[..done] == SortNames(keys);
    } else {
      AscendingSplits(SortNames(keys), done);
      assert TooBig(rows, inc, SortNames(keys)[done]);
    }
  }

  // ----- the order they keep to

  function Table(l: Lock): nat {
    match l
    case BlobRow(_, _) => 0
    case UploadRow(_, _) => 1
    case ShardRow(_, _, _) => 2
    case ByteRow(_, _, _) => 3
    case ObjectRow(_, _, _) => 4
    case CounterRow(scope, _) => if scope.OneSpace? then 5 else 6
  }

  function NameOf(l: Lock): string {
    if l.CounterRow? then l.name else ""
  }

  /** Tables in the order statements run, counters of a table by name. */
  predicate Below(k: Lock, l: Lock) {
    Table(k) < Table(l) || (Table(k) == Table(l) && LexLess(NameOf(k), NameOf(l)))
  }

  /** Rows other than shards in order, and no shard before the upload it belongs to. */
  ghost predicate Disciplined(p: seq<Lock>) {
    && (forall i, j :: 0 <= i < j < |p| && !p[i].ShardRow? && !p[j].ShardRow? ==> Below(p[i], p[j]))
    && (forall j :: 0 <= j < |p| && p[j].ShardRow? ==> 0 < j && p[0] == UploadRow(p[j].space, p[j].root))
  }

  /** Locks all in later tables than those before them, and in order themselves. */
  ghost predicate Climbs(p: seq<Lock>, floor: nat) {
    && (forall i :: 0 <= i < |p| ==> Table(p[i]) >= floor && !p[i].ShardRow?)
    && (forall i, j :: 0 <= i < j < |p| ==> Below(p[i], p[j]))
  }

  lemma {:induction false} CountersClimb(scope: Scope, keys: seq<string>)
    requires Distinct(keys)
    ensures Climbs(CounterLocks(scope, keys), Table(CounterRow(scope, "")))
    ensures forall l :: l in CounterLocks(scope, keys) ==> Table(l) == Table(CounterRow(scope, ""))
  {
    SortNamesAscends(keys);
  }

  lemma {:induction false} RecordingClimbs(row: Lock, space: Space, keys: seq<string>)
    requires Distinct(keys) && (row.ByteRow? || row.ObjectRow?)
    ensures Climbs(Recording(row, space, keys), 3)
  {
    CountersClimb(OneSpace(space), keys);
    CountersClimb(AllSpaces, keys);
    hide CounterLocks;
    var a, b := CounterLocks(OneSpace(space), keys), CounterLocks(AllSpaces, keys);
    var p := [row] + a + b;
    forall i, j | 0 <= i < j < |p| ensures Below(p[i], p[j]) {
      if i > 0 && j <= |a| {
        assert p[i] == a[i - 1] && p[j] == a[j - 1];
      } else if i > |a| {
        assert p[i] == b[i - 1 - |a|] && p[j] == b[j - 1 - |a|];
      } else {
        assert i > 0 ==> p[i] == a[i - 1] && p[i] in a;
        assert j > |a| ==> p[j] == b[j - 1 - |a|] && p[j] in b;
        assert i == 0 && j <= |a| ==> p[j] == a[j - 1] && p[j] in a;
      }
    }
  }

  /** Every transaction the stores run keeps to the order. */
  lemma {:induction false} LocksDisciplined(w: Work)
    requires Distinct(w.keys)
    ensures Disciplined(Locks(w))
  {
    match w
    case BlobWork(space, digest, at, cause, keys) =>
      RecordingClimbs(ByteRow(space, at, cause), space, keys);
    case UpsertWork(space, root, shards, at, cause, keys) =>
      RecordingClimbs(ObjectRow(space, at, cause), space, keys);
      ShardsThenRecording(space, root, shards, Recording(ObjectRow(space, at, cause), space, keys));
    case RemoveWork(space, root, shards, at, cause, keys) =>
      RecordingClimbs(ObjectRow(space, at, cause), space, keys);
      ShardsThenRecording(space, root, shards, Recording(ObjectRow(space, at, cause), space, keys));
  }

  /**
   The rows a transaction's work writes: the record, its shards, the change's row in
   the space's log, and each counter of the space and of all spaces.
   */
  ghost predicate WritesRow(w: Work, l: Lock) {
    match w
    case BlobWork(space, digest, at, cause, keys) =>
      l in {BlobRow(space, digest), ByteRow(space, at, cause)} || CounterOf(l, space, keys)
    case UpsertWork(space, root, shards, at, cause, keys) =>
      l in {UploadRow(space, root), ObjectRow(space, at, cause)} || CounterOf(l, space, keys)
      || (l.ShardRow? && l.space == space && l.root == root && l.shard in shards)
    case RemoveWork(space, root, shards, at, cause, keys) =>
      l in {UploadRow(space, root), ObjectRow(space, at, cause)} || CounterOf(l, space, keys)
      || (l.ShardRow? && l.space == space && l.root == root && l.shard in shards)
  }

  predicate CounterOf(l: Lock, space: Space, keys: seq<string>) {
    l.CounterRow? && l.scope in {OneSpace(space), AllSpaces} && l.name in keys
  }

  /** A transaction locks the rows its work writes, and no other. */
  lemma {:induction false} LocksExact(w: Work)
    ensures forall l :: l in Locks(w) <==> WritesRow(w, l)
  {
    SortNamesKeeps(w.keys);
    hide SortNames, InOrder, Distinct;
    CountersExact(OneSpace(w.space), w.keys);
    CountersExact(AllSpaces, w.keys);
    if !w.BlobWork? { ShardsExact(w.space, w.root, w.shards); }
    hide CounterLocks, ShardLocks;
  }

  lemma {:induction false} CountersExact(scope: Scope, keys: seq<string>)
    ensures forall l :: l in CounterLocks(scope, keys) <==> l.CounterRow? && l.scope == scope && l.name in keys
  {
    SortNamesKeeps(keys);
    hide SortNames, InOrder, Distinct;
    forall l ensures l in CounterLocks(scope, keys) <==> l.CounterRow? && l.scope == scope && l.name in keys {
      if l.CounterRow? && l.scope == scope && l.name in keys {
        var i :| 0 <= i < |SortNames(keys)| && SortNames(keys)[i] == l.name;
        assert CounterLocks(scope, keys)[i] == l;
      }
    }
  }

  lemma {:induction false} ShardsExact(space: Space, root: Root, shards: seq<string>)
    ensures forall l :: l in ShardLocks(space, root, shards) <==>
                        l.ShardRow? && l.space == space && l.root == root && l.shard in shards
  {
    forall l ensures l in ShardLocks(space, root, shards) <==>
                     l.ShardRow? && l.space == space && l.root == root && l.shard in shards
    {
      if l.ShardRow? && l.space == space && l.root == root && l.shard in shards {
        var i :| 0 <= i < |shards| && shards[i] == l.shard;
        assert ShardLocks(space, root, shards)[i] == l;
      }
    }
  }

  lemma {:induction false} ShardsThenRecording(space: Space, root: Root, shards: seq<string>, rest: seq<Lock>)
    requires Climbs(rest, 3)
    ensures Disciplined([UploadRow(space, root)] + ShardLocks(space, root, shards) + rest)
  {
  }

  // ----- transactions side by side

  /** A transaction: the rows it takes, how many it has, and whether it is still running. */
  datatype Txn = Txn(program: seq<Lock>, taken: nat, live: bool)

  ghost predicate Holds(t: Txn, l: Lock) {
    t.live && t.taken <= |t.program| && l in t.program[..t.taken]
  }

  /** Nobody else holds the row a transaction takes next. */
  ghost predicate Granted(ts: seq<Txn>, i: nat)
    requires i < |ts| && ts[i].taken < |ts[i].program|
  {
    forall j :: 0 <= j < |ts| && j != i ==> !Holds(ts[j], ts[i].program[ts[i].taken])
  }

  /** Whether a transaction has something it can do: take its next row, or end. */
  ghost predicate Ready(ts: seq<Txn>, i: nat)
    requires i < |ts|
  {
    ts[i].live && (ts[i].taken < |ts[i].program| ==> Granted(ts, i))
  }

  /** A transaction begins, takes its next row, or commits or rolls back. */
  datatype Turn = Begin(program: seq<Lock>) | Take(i: nat) | End(i: nat)

  ghost function TakeTurn(ts: seq<Txn>, step: Turn): seq<Txn> {
    match step
    case Begin(program) => ts + [Txn(program, 0, true)]
    case Take(i) =>
      if i < |ts| && ts[i].live && ts[i].taken < |ts[i].program| && Granted(ts, i)
      then ts[i := ts[i].(taken := ts[i].taken + 1)] else ts
    case End(i) => if i < |ts| then ts[i := ts[i].(live := false)] else ts
  }

  ghost function TakeTurns(steps: seq<Turn>): seq<Txn> {
    if steps == [] then [] else TakeTurn(TakeTurns(steps[..|steps| - 1]), steps[|steps| - 1])
  }

  /** No row is held twice, and nobody holds more than it asked for. */
  ghost predicate Exclusive(ts: seq<Txn>) {
    && (forall i :: 0 <= i < |ts| ==> ts[i].taken <= |ts[i].program|)
    && (forall i, j, l :: 0 <= i < j < |ts| ==> !(Holds(ts[i], l) && Holds(ts[j], l)))
  }

  lemma {:induction false} TakesOne(t: Txn, l: Lock)
    requires t.live && t.taken < |t.program|
    ensures Holds(t.(taken := t.taken + 1), l) <==> Holds(t, l) || l == t.program[t.taken]
  {
    assert t.program[..t.taken + 1] == t.program[..t.taken] + [t.program[t.taken]];
  }

  lemma {:induction false} TurnExclusive(ts: seq<Txn>, step: Turn)
    requires Exclusive(ts)
    ensures Exclusive(TakeTurn(ts, step))
  {
    match step
    case Begin(program) =>
    case End(i) =>
    case Take(i) =>
      if i < |ts| && ts[i].live && ts[i].taken < |ts[i].program| && Granted(ts, i) {
        var ts' := TakeTurn(ts, step);
        forall j, k, l | 0 <= j < k < |ts'| ensures !(Holds(ts'[j], l) && Holds(ts'[k], l)) {
          TakesOne(ts[i], l);
          assert !(Holds(ts[j], l) && Holds(ts[k], l));
        }
      }
  }

  lemma {:induction false} TurnsExclusive(steps: seq<Turn>)
    ensures Exclusive(TakeTurns(steps))
  {
    if steps != [] {
      TurnsExclusive(steps[..|steps| - 1]);
      TurnExclusive(TakeTurns(steps[..|steps| - 1]), steps[|steps| - 1]);
    }
  }

  ghost predicate AllDisciplined(ts: seq<Txn>) {
    forall i :: 0 <= i < |ts| ==> Disciplined(ts[i].program)
  }

  lemma {:induction false} TurnsDisciplined(steps: seq<Turn>)
    requires forall i :: 0 <= i < |steps| && steps[i].Begin? ==> Disciplined(steps[i].program)
    ensures AllDisciplined(TakeTurns(steps))
  {
    if steps != [] { TurnsDisciplined(steps[..|steps| - 1]); }
  }

  // ----- no cycle of waiting

  predicate Waits(t: Txn) {
    t.live && t.taken < |t.program|
  }

  function Next(t: Txn): Lock
    requires Waits(t)
  {
    t.program[t.taken]
  }

  /** Among waiting transactions, one whose next row no other's is above. */
  lemma {:induction false} Highest(ts: seq<Txn>, i: nat) returns (m: nat)
    requires i < |ts| && Waits(ts[i])
    ensures m < |ts| && Waits(ts[m])
    ensures forall j :: 0 <= j < |ts| && Waits(ts[j]) ==> !Below(Next(ts[m]), Next(ts[j]))
  {
    var init, last := ts[..|ts| - 1], ts[|ts| - 1];
    if k :| 0 <= k < |init| && Waits(init[k]) {
      m := Highest(init, k);
      if Waits(last) {
        if Below(Next(init[m]), Next(last)) {
          forall j | 0 <= j < |ts| && Waits(ts[j]) ensures !Below(Next(last), Next(ts[j])) {
            BelowOrder(Next(init[m]), Next(last), Next(ts[j]));
            BelowOrder(Next(ts[j]), Next(last), Next(last));
            assert j < |init| ==> init[j] == ts[j];
          }
          m := |init|;
        }
      }
    } else {
      m := i;
      forall j | 0 <= j < |init| ensures !Waits(ts[j]) { assert init[j] == ts[j]; }
      BelowOrder(Next(ts[i]), Next(ts[i]), Next(ts[i]));
    }
  }

  lemma {:induction false} BelowOrder(a: Lock, b: Lock, c: Lock)
    ensures !Below(a, a)
    ensures Below(a, b) && Below(b, c) ==> Below(a, c)
  {
    LexIrreflexive(NameOf(a));
    if LexLess(NameOf(a), NameOf(b)) && LexLess(NameOf(b), NameOf(c)) {
      LexTransitive(NameOf(a), NameOf(b), NameOf(c));
    }
  }

  /** Whoever has a shard has its upload. */
  lemma {:induction false} HasUpload(t: Txn, l: Lock)
    requires Disciplined(t.program) && l.ShardRow?
    ensures Holds(t, l) ==> Holds(t, UploadRow(l.space, l.root))
  {
    if Holds(t, l) {
      var k :| 0 <= k < t.taken && t.program[k] == l;
      assert t.program[..t.taken][0] == t.program[0];
    }
  }

  /** Nobody waits for a shard: whoever could hold it would hold its upload too. */
  lemma {:induction false} ShardsAreFree(ts: seq<Txn>, i: nat)
    requires Exclusive(ts) && AllDisciplined(ts) && i < |ts|
    ensures Waits(ts[i]) && Next(ts[i]).ShardRow? ==> Granted(ts, i)
  {
    if Waits(ts[i]) && Next(ts[i]).ShardRow? {
      var l := Next(ts[i]);
      var guard := UploadRow(l.space, l.root);
      assert ts[i].program[..ts[i].taken][0] == guard && Holds(ts[i], guard);
      forall j | 0 <= j < |ts| && j != i ensures !Holds(ts[j], l) {
        HasUpload(ts[j], l);
        assert !(Holds(ts[if i < j then i else j], guard) && Holds(ts[if i < j then j else i], guard));
      }
    }
  }

  /** Whoever holds a row other than a shard waits, if at all, for a higher one or for a shard. */
  lemma {:induction false} HolderIsAbove(t: Txn, l: Lock)
    requires Disciplined(t.program) && !l.ShardRow?
    ensures Holds(t, l) && Waits(t) && !Next(t).ShardRow? ==> Below(l, Next(t))
  {
    if Holds(t, l) && Waits(t) {
      var k :| 0 <= k < t.taken && t.program[k] == l;
    }
  }

  /**
   In every reachable state of any transactions that keep to the order, either all
   have ended or one of them can take its next row or end.
   */
  lemma {:induction false} Progress(steps: seq<Turn>, i: nat) returns (m: nat)
    requires forall k :: 0 <= k < |steps| && steps[k].Begin? ==> Disciplined(steps[k].program)
    requires i < |TakeTurns(steps)| && TakeTurns(steps)[i].live
    ensures m < |TakeTurns(steps)| && Ready(TakeTurns(steps), m)
  {
    var ts := TakeTurns(steps);
    TurnsExclusive(steps);
    TurnsDisciplined(steps);
    hide Disciplined, Below;
    if !Waits(ts[i]) { return i; }
    m := Highest(ts, i);
    ShardsAreFree(ts, m);
    if !Next(ts[m]).ShardRow? {
      if j :| 0 <= j < |ts| && j != m && Holds(ts[j], Next(ts[m])) {
        HolderIsAbove(ts[j], Next(ts[m]));
        ShardsAreFree(ts, j);
        m := j;
      }
    }
  }

  /** What is left of some transactions: a row to take each, and an end. */
  ghost function Remaining(ts: seq<Txn>): nat {
    if ts == [] then 0
    else
      var last := ts[|ts| - 1];
      Remaining(ts[..|ts| - 1])
      + if !last.live then 0 else if last.taken < |last.program| then |last.program| - last.taken + 1 else 1
  }

  lemma {:induction false} RemainingLess(ts: seq<Txn>, i: nat, t: Txn)
    requires i < |ts| && ts[i].live && ts[i].taken <= |ts[i].program|
    requires t == ts[i].(live := false) || (ts[i].taken < |ts[i].program| && t == ts[i].(taken := ts[i].taken + 1))
    ensures Remaining(ts[i := t]) < Remaining(ts)
  {
    var n := |ts| - 1;
    if i < n {
      RemainingLess(ts[..n], i, t);
      assert ts[i := t][..n] == ts[..n][i := t];
    } else {
      assert ts[i := t][..n] == ts[..n];
    }
  }

  /** Every transaction has ended, and each that was live has taken every row it asked for. */
  ghost predicate Finished(ts: seq<Txn>, ts': seq<Txn>) {
    && |ts'| == |ts|
    && forall i :: 0 <= i < |ts| ==>
         && !ts'[i].live && ts'[i].program == ts[i].program
         && (ts[i].live ==> ts'[i].taken == |ts[i].program|) && (!ts[i].live ==> ts'[i] == ts[i])
  }

  lemma {:induction false} TurnsSnoc(steps: seq<Turn>, step: Turn)
    ensures TakeTurns(steps + [step]) == TakeTurn(TakeTurns(steps), step)
  {
    assert (steps + [step])[..|steps|] == steps;
  }

  /** The turn of a transaction that is ready. */
  ghost function NextTurn(t: Txn, i: nat): Turn {
    if t.taken < |t.program| then Take(i) else End(i)
  }

  lemma {:induction false} TurnFinishes(ts: seq<Txn>, i: nat, ts': seq<Txn>)
    requires Exclusive(ts) && i < |ts| && ts[i].live && Ready(ts, i)
    ensures var now := TakeTurn(ts, NextTurn(ts[i], i));
            Remaining(now) < Remaining(ts) && (Finished(now, ts') ==> Finished(ts, ts'))
  {
    if ts[i].taken < |ts[i].program| {
      RemainingLess(ts, i, ts[i].(taken := ts[i].taken + 1));
    } else {
      RemainingLess(ts, i, ts[i].(live := false));
    }
    hide Exclusive, Granted, Remaining;
  }

  /**
   From every reachable state of transactions that keep to the order, all of them can
   take every row they ask for and end.
   */
  lemma {:induction false} AllFinish(steps: seq<Turn>) returns (more: seq<Turn>)
    requires forall k :: 0 <= k < |steps| && steps[k].Begin? ==> Disciplined(steps[k].program)
    ensures steps <= more && forall k :: |steps| <= k < |more| ==> !more[k].Begin?
    ensures Finished(TakeTurns(steps), TakeTurns(more))
    decreases Remaining(TakeTurns(steps))
  {
    var ts := TakeTurns(steps);
    hide TakeTurns, Disciplined, Ready, Exclusive, Remaining;
    if i :| 0 <= i < |ts| && ts[i].live {
      var m := Progress(steps, i);
      ReadyIsLive(ts, m);
      var step := NextTurn(ts[m], m);
      TurnsExclusive(steps);
      TurnsSnoc(steps, step);
      TurnFinishes(ts, m, []);
      more := AllFinish(steps + [step]);
      TurnFinishes(ts, m, TakeTurns(more));
      hide TakeTurn, Finished;
      assert steps <= more;
      forall k | |steps| <= k < |more| ensures !more[k].Begin? {
        if k == |steps| { assert more[k] == (steps + [step])[k]; }
      }
    } else {
      more := steps;
    }
  }

  lemma {:induction false} ReadyIsLive(ts: seq<Txn>, i: nat)
    requires i < |ts| && Ready(ts, i)
    ensures ts[i].live
  {
  }

  /** Any number of the stores' transactions, however interleaved, never wait in a cycle. */
  lemma {:induction false} StoresProgress(steps: seq<Turn>, work: seq<Work>, i: nat) returns (m: nat)
    requires |work| == |steps| && forall k :: 0 <= k < |work| ==> Distinct(work[k].keys)
    requires forall k :: 0 <= k < |steps| && steps[k].Begin? ==> steps[k].program == Locks(work[k])
    requires i < |TakeTurns(steps)| && TakeTurns(steps)[i].live
    ensures m < |TakeTurns(steps)| && Ready(TakeTurns(steps), m)
  {
    forall k | 0 <= k < |steps| && steps[k].Begin? ensures Disciplined(steps[k].program) { LocksDisciplined(work[k]); }
    m := Progress(steps, i);
  }

  /** Without the sorted order two transactions moving the same two counters can wait for each other. */
  lemma {:induction false} UnsortedDeadlocks(a: Lock, b: Lock) returns (steps: seq<Turn>)
    requires a != b
    ensures forall k :: 0 <= k < |steps| && steps[k].Begin? ==> steps[k].program in {[a, b], [b, a]}
    ensures var ts := TakeTurns(steps);
            |ts| == 2 && ts[0].live && ts[1].live && !Ready(ts, 0) && !Ready(ts, 1)
  {
    var s1, s2 := [Begin([a, b])], [Begin([a, b]), Begin([b, a])];
    var s3 := s2 + [Take(0)];
    steps := s3 + [Take(1)];
    assert s1[..0] == [] && s2[..1] == s1 && s3[..2] == s2 && steps[..3] == s3;
    assert TakeTurns(s1) == [Txn([a, b], 0, true)];
    assert TakeTurns(s2) == [Txn([a, b], 0, true), Txn([b, a], 0, true)];
    assert TakeTurns(s3) == [Txn([a, b], 1, true), Txn([b, a], 0, true)];
    var ts := TakeTurns(steps);
    assert ts[0].program[..1] == [a];
    assert Granted(TakeTurns(s3), 1);
    assert ts == [Txn([a, b], 1, true), Txn([b, a], 1, true)];
    assert ts[1].program[..1] == [b];
    assert Holds(ts[0], a) && Holds(ts[1], b);
  }
}
