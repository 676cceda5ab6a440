/**
 The in-memory agent store: messages, and for each task the messages its
 invocation or receipt is found in, in the order they were written.
 */
module AgentStore {
  import opened DiffLogs
  import opened Tokens

  const MAX_TOKENS := 8192

  datatype Key = InvocationOf(task: Link) | ReceiptOf(task: Link)

  /** The index entries of a message: one per invocation, then one per receipt. */
  function IndexOf(m: Container): seq<Key> {
    seq(|m.invs|, i requires 0 <= i < |m.invs| => InvocationOf(TaskOf(m.invs[i])))
    + seq(|m.rcpts|, i requires 0 <= i < |m.rcpts| => ReceiptOf(m.rcpts[i].ran))
  }

  function InvocationIn(invs: seq<Invocation>, task: Link): Option<Invocation> {
    if invs == [] then None
    else if TaskOf(invs[0]) == task then Some(invs[0])
    else InvocationIn(invs[1..], task)
  }

  function ReceiptIn(rcpts: seq<Receipt>, task: Link): Option<Receipt> {
    if rcpts == [] then None
    else if rcpts[0].ran == task then Some(rcpts[0])
    else ReceiptIn(rcpts[1..], task)
  }

  /** A message as often as its entries name a key. */
  function Posted(m: Container, entries: seq<Key>, key: Key): seq<Container> {
    if entries == [] then []
    else Posted(m, entries[..|entries| - 1], key) + if entries[|entries| - 1] == key then [m] else []
  }

  /** What a key indexes after some messages were written. */
  function Postings(log: seq<Container>, key: Key): seq<Container> {
    if log == [] then []
    else
      var m := log[|log| - 1];
      Postings(log[..|log| - 1], key) + Posted(m, IndexOf(m), key)
  }

  /** The invocation of a task: of the first message that has one, the first. */
  function FirstInvocation(log: seq<Container>, task: Link): Option<Invocation> {
    if log == [] then None
    else if InvocationIn(log[0].invs, task).Some? then InvocationIn(log[0].invs, task)
    else FirstInvocation(log[1..], task)
  }

  function FirstReceipt(log: seq<Container>, task: Link): Option<Receipt> {
    if log == [] then None
    else if ReceiptIn(log[0].rcpts, task).Some? then ReceiptIn(log[0].rcpts, task)
    else FirstReceipt(log[1..], task)
  }

  lemma {:induction false} InvocationFound(invs: seq<Invocation>, task: Link)
    ensures InvocationIn(invs, task).Some? <==> exists i :: 0 <= i < |invs| && TaskOf(invs[i]) == task
    ensures InvocationIn(invs, task).Some? ==>
              InvocationIn(invs, task).value in invs && TaskOf(InvocationIn(invs, task).value) == task
  {
    if invs != [] {
      InvocationFound(invs[1..], task);
      if i :| 0 <= i < |invs| && TaskOf(invs[i]) == task { assert i > 0 ==> invs[1..][i - 1] == invs[i]; }
    }
  }

  lemma {:induction false} ReceiptFound(rcpts: seq<Receipt>, task: Link)
    ensures ReceiptIn(rcpts, task).Some? <==> exists i :: 0 <= i < |rcpts| && rcpts[i].ran == task
    ensures ReceiptIn(rcpts, task).Some? ==>
              ReceiptIn(rcpts, task).value in rcpts && ReceiptIn(rcpts, task).value.ran == task
  {
    if rcpts != [] {
      ReceiptFound(rcpts[1..], task);
      if i :| 0 <= i < |rcpts| && rcpts[i].ran == task { assert i > 0 ==> rcpts[1..][i - 1] == rcpts[i]; }
    }
  }

  /** Later messages never change what a task that has an invocation, or a receipt, answers with. */
  lemma {:induction false} FirstStays(log: seq<Container>, more: seq<Container>, task: Link)
    ensures FirstInvocation(log, task).Some? ==> FirstInvocation(log + more, task) == FirstInvocation(log, task)
    ensures FirstReceipt(log, task).Some? ==> FirstReceipt(log + more, task) == FirstReceipt(log, task)
  {
    if log != [] {
      FirstStays(log[1..], more, task);
      assert (log + more)[1..] == log[1..] + more;
    }
  }

  /** A task has an answer exactly when some message holds one for it. */
  lemma {:induction false} FirstFound(log: seq<Container>, task: Link)
    ensures FirstInvocation(log, task).Some? <==> exists m :: m in log && InvocationIn(m.invs, task).Some?
    ensures FirstInvocation(log, task).Some? ==>
              exists m :: m in log && FirstInvocation(log, task) == InvocationIn(m.invs, task)
    ensures FirstReceipt(log, task).Some? <==> exists m :: m in log && ReceiptIn(m.rcpts, task).Some?
    ensures FirstReceipt(log, task).Some? ==>
              exists m :: m in log && FirstReceipt(log, task) == ReceiptIn(m.rcpts, task)
  {
    if log != [] {
      hide InvocationIn, ReceiptIn;
      FirstFound(log[1..], task);
      assert log == [log[0]] + log[1..];
    }
  }

  /** The first of some invocations of a task. */
  ghost predicate FirstIn(invs: seq<Invocation>, task: Link, inv: Invocation) {
    exists i :: 0 <= i < |invs| && invs[i] == inv && OfTask(inv.task) == task
                && forall j :: 0 <= j < i ==> OfTask(invs[j].task) != task
  }

  /** The first invocation of a task in the earliest message that has one. */
  ghost predicate Earliest(log: seq<Container>, task: Link, inv: Invocation) {
    exists n :: 0 <= n < |log| && FirstIn(log[n].invs, task, inv)
                && forall k :: 0 <= k < n ==> forall x :: x in log[k].invs ==> OfTask(x.task) != task
  }

  /** A receipt for a task in the earliest message that has one. */
  ghost predicate EarliestReceipt(log: seq<Container>, task: Link, rcpt: Receipt) {
    exists n :: 0 <= n < |log| && rcpt in log[n].rcpts && rcpt.ran == task
                && forall k :: 0 <= k < n ==> forall x :: x in log[k].rcpts ==> x.ran != task
  }

  lemma {:induction false} InvocationIs(invs: seq<Invocation>, task: Link, inv: Invocation)
    ensures InvocationIn(invs, task) == Some(inv) <==> FirstIn(invs, task, inv)
  {
    if invs != [] {
      InvocationIs(invs[1..], task, inv);
      if TaskOf(invs[0]) == task {
        assert invs[0] == inv ==> FirstIn(invs, task, inv);
      } else {
        if FirstIn(invs, task, inv) {
          var i :| 0 <= i < |invs| && invs[i] == inv && OfTask(inv.task) == task
                   && forall j :: 0 <= j < i ==> OfTask(invs[j].task) != task;
          assert invs[1..][i - 1] == inv;
          forall j | 0 <= j < i - 1 ensures OfTask(invs[1..][j].task) != task { assert invs[1..][j] == invs[j + 1]; }
        }
        if FirstIn(invs[1..], task, inv) {
          var i :| 0 <= i < |invs[1..]| && invs[1..][i] == inv && OfTask(inv.task) == task
                   && forall j :: 0 <= j < i ==> OfTask(invs[1..][j].task) != task;
          assert invs[i + 1] == inv;
          forall j | 0 <= j < i + 1 ensures OfTask(invs[j].task) != task {
            assert j > 0 ==> invs[j] == invs[1..][j - 1];
          }
        }
      }
    }
  }

  lemma {:induction false} FirstIs(log: seq<Container>, task: Link)
    ensures forall inv :: FirstInvocation(log, task) == Some(inv) ==> Earliest(log, task, inv)
    ensures forall rcpt :: FirstReceipt(log, task) == Some(rcpt) ==> EarliestReceipt(log, task, rcpt)
    ensures FirstInvocation(log, task).None? ==> forall m, inv :: m in log && inv in m.invs ==> OfTask(inv.task) != task
    ensures FirstReceipt(log, task).None? ==> forall m, rcpt :: m in log && rcpt in m.rcpts ==> rcpt.ran != task
  {
    if log != [] {
      FirstIs(log[1..], task);
      InvocationFound(log[0].invs, task);
      ReceiptFound(log[0].rcpts, task);
      if FirstInvocation(log, task).Some? {
        var inv := FirstInvocation(log, task).value;
        InvocationIs(log[0].invs, task, inv);
        if InvocationIn(log[0].invs, task).None? { EarlierNone(log, task, inv); }
      }
      hide InvocationIn, FirstIn;
      if FirstReceipt(log, task).Some? && ReceiptIn(log[0].rcpts, task).None? {
        EarlierNoReceipt(log, task, FirstReceipt(log, task).value);
      }
      forall m, inv | FirstInvocation(log, task).None? && m in log && inv in m.invs ensures OfTask(inv.task) != task {
        if m != log[0] { assert m in log[1..]; }
      }
    }
  }

  lemma {:induction false} EarlierNone(log: seq<Container>, task: Link, inv: Invocation)
    requires log != [] && Earliest(log[1..], task, inv) && forall x :: x in log[0].invs ==> OfTask(x.task) != task
    ensures Earliest(log, task, inv)
  {
    hide FirstIn;
    var n :| 0 <= n < |log[1..]| && FirstIn(log[1..][n].invs, task, inv)
             && forall k :: 0 <= k < n ==> forall x :: x in log[1..][k].invs ==> OfTask(x.task) != task;
    assert log[n + 1] == log[1..][n];
    forall k | 0 <= k < n + 1 ensures forall x :: x in log[k].invs ==> OfTask(x.task) != task {
      assert k > 0 ==> log[k] == log[1..][k - 1];
    }
  }

  lemma {:induction false} EarlierNoReceipt(log: seq<Container>, task: Link, rcpt: Receipt)
    requires log != [] && EarliestReceipt(log[1..], task, rcpt) && forall x :: x in log[0].rcpts ==> x.ran != task
    ensures EarliestReceipt(log, task, rcpt)
  {
    var n :| 0 <= n < |log[1..]| && rcpt in log[1..][n].rcpts && rcpt.ran == task
             && forall k :: 0 <= k < n ==> forall x :: x in log[1..][k].rcpts ==> x.ran != task;
    assert log[n + 1] == log[1..][n];
    forall k | 0 <= k < n + 1 ensures forall x :: x in log[k].rcpts ==> x.ran != task {
      assert k > 0 ==> log[k] == log[1..][k - 1];
    }
  }

  // ----- what the index finds

  lemma {:induction false} PostedSnoc(m: Container, entries: seq<Key>, entry: Key, key: Key)
    ensures Posted(m, entries + [entry], key)
            == if entry == key then Posted(m, entries, key) + [m] else Posted(m, entries, key)
  {
    assert (entries + [entry])[..|entries|] == entries;
  }

  lemma {:induction false} PostedAll(m: Container, entries: seq<Key>, key: Key)
    ensures (exists i :: 0 <= i < |entries| && entries[i] == key) <==> Posted(m, entries, key) != []
    ensures forall x :: x in Posted(m, entries, key) ==> x == m
    ensures Posted(m, entries, key) != [] ==> Posted(m, entries, key)[0] == m && m in Posted(m, entries, key)
  {
    if entries != [] {
      PostedAll(m, entries[..|entries| - 1], key);
      assert entries == entries[..|entries| - 1] + [entries[|entries| - 1]];
    }
  }

  lemma {:induction false} Indexed(m: Container, task: Link)
    ensures Posted(m, IndexOf(m), InvocationOf(task)) != [] <==> InvocationIn(m.invs, task).Some?
    ensures Posted(m, IndexOf(m), ReceiptOf(task)) != [] <==> ReceiptIn(m.rcpts, task).Some?
  {
    PostedAll(m, IndexOf(m), InvocationOf(task));
    PostedAll(m, IndexOf(m), ReceiptOf(task));
    InvocationFound(m.invs, task);
    ReceiptFound(m.rcpts, task);
    hide Posted, InvocationIn, ReceiptIn;
    if i :| 0 <= i < |m.invs| && TaskOf(m.invs[i]) == task { assert IndexOf(m)[i] == InvocationOf(task); }
    if i :| 0 <= i < |m.rcpts| && m.rcpts[i].ran == task { assert IndexOf(m)[|m.invs| + i] == ReceiptOf(task); }
  }

  lemma {:induction false} PostingsSnoc(log: seq<Container>, m: Container, key: Key)
    ensures Postings(log + [m], key) == Postings(log, key) + Posted(m, IndexOf(m), key)
  {
    assert (log + [m])[..|log|] == log;
  }

  lemma {:induction false} FirstSnoc(log: seq<Container>, m: Container, task: Link)
    ensures FirstInvocation(log + [m], task)
         == if FirstInvocation(log, task).Some? then FirstInvocation(log, task) else InvocationIn(m.invs, task)
    ensures FirstReceipt(log + [m], task)
         == if FirstReceipt(log, task).Some? then FirstReceipt(log, task) else ReceiptIn(m.rcpts, task)
  {
    if log != [] {
      FirstSnoc(log[1..], m, task);
      assert (log + [m])[1..] == log[1..] + [m];
    } else {
      assert (log + [m])[1..] == [];
      assert FirstInvocation([], task) == None && FirstReceipt([], task) == None;
    }
  }

  /** Whether the first message indexed for a task's invocation is the one it is answered from. */
  ghost predicate InvocationHeads(posts: seq<Container>, first: Option<Invocation>, task: Link) {
    if posts == [] then first.None? else first.Some? && InvocationIn(posts[0].invs, task) == first
  }

  ghost predicate ReceiptHeads(posts: seq<Container>, first: Option<Receipt>, task: Link) {
    if posts == [] then first.None? else first.Some? && ReceiptIn(posts[0].rcpts, task) == first
  }

  lemma {:induction false} InvocationHead(log: seq<Container>, task: Link)
    ensures InvocationHeads(Postings(log, InvocationOf(task)), FirstInvocation(log, task), task)
  {
    if log != [] {
      var init, m := log[..|log| - 1], log[|log| - 1];
      InvocationHead(init, task);
      assert log == init + [m];
      PostingsSnoc(init, m, InvocationOf(task));
      FirstSnoc(init, m, task);
      Indexed(m, task);
      PostedAll(m, IndexOf(m), InvocationOf(task));
      hide Postings, Posted, IndexOf, FirstInvocation, InvocationIn;
    }
  }

  lemma {:induction false} ReceiptHead(log: seq<Container>, task: Link)
    ensures ReceiptHeads(Postings(log, ReceiptOf(task)), FirstReceipt(log, task), task)
  {
    if log != [] {
      var init, m := log[..|log| - 1], log[|log| - 1];
      ReceiptHead(init, task);
      assert log == init + [m];
      PostingsSnoc(init, m, ReceiptOf(task));
      FirstSnoc(init, m, task);
      Indexed(m, task);
      PostedAll(m, IndexOf(m), ReceiptOf(task));
      hide Postings, Posted, IndexOf, FirstReceipt, ReceiptIn;
    }
  }

  /** A key indexes the messages that hold what it names. */
  lemma {:induction false} PostingsHold(log: seq<Container>, task: Link, m: Container)
    ensures m in Postings(log, InvocationOf(task)) <==> m in log && InvocationIn(m.invs, task).Some?
    ensures m in Postings(log, ReceiptOf(task)) <==> m in log && ReceiptIn(m.rcpts, task).Some?
  {
    if log != [] {
      var init, last := log[..|log| - 1], log[|log| - 1];
      PostingsHold(init, task, m);
      assert log == init + [last];
      PostingsSnoc(init, last, InvocationOf(task));
      PostingsSnoc(init, last, ReceiptOf(task));
      Indexed(last, task);
      PostedAll(last, IndexOf(last), InvocationOf(task));
      PostedAll(last, IndexOf(last), ReceiptOf(task));
      hide Postings, Posted, IndexOf, InvocationIn, ReceiptIn;
    }
  }

  lemma {:induction false} PostingGrows(log: seq<Container>, m: Container, entries: seq<Key>, entry: Key, key: Key,
          was: seq<Container>, now: seq<Container>)
    requires was == Postings(log, key) + Posted(m, entries, key) && now == if key == entry then was + [m] else was
    ensures now == Postings(log, key) + Posted(m, entries + [entry], key)
  {
    PostedSnoc(m, entries, entry, key);
    hide Postings, Posted;
    assert Postings(log, key) + (Posted(m, entries, key) + [m]) == was + [m];
  }

  // ----- the store

  class Memory {
    var store: map<Container, Container>
    var index: map<Key, seq<Container>>
    ghost var log: seq<Container>

    function At(key: Key): seq<Container>
      reads this
    {
      if key in index then index[key] else []
    }

    ghost predicate Valid()
      reads this
    {
      && (forall key :: At(key) == Postings(log, key))
      && (forall m :: m in log ==> m in store && store[m] == m)
    }

    constructor ()
      ensures Valid() && log == []
    {
      store, index, log := map[], map[], [];
    }

    /** Writes a message with its index, unless it is too large for a container. */
    method Write(m: Container, entries: seq<Key>) returns (ok: bool)
      requires Valid() && entries == IndexOf(m)
      modifies this
      ensures Valid() && ok == (|m.invs| + |m.rcpts| <= 8192)
      ensures log == if ok then old(log) + [m] else old(log)
    {
      if Weight(m) > MAX_TOKENS { return false; }
      hide Postings, Posted, IndexOf;
      store := store[m := m];
      forall key ensures Posted(m, entries[..0], key) == [] { PostedAll(m, entries[..0], key); }
      for i := 0 to |entries|
        invariant store == old(store)[m := m] && log == old(log)
        invariant forall key :: At(key) == Postings(log, key) + Posted(m, entries[..i], key)
      {
        ghost var was := index;
        Post(m, entries[i]);
        assert entries[..i + 1] == entries[..i] + [entries[i]];
        forall key ensures At(key) == Postings(log, key) + Posted(m, entries[..i + 1], key) {
          PostingGrows(log, m, entries[..i], entries[i], key, if key in was then was[key] else [], At(key));
        }
      }
      assert entries[..|entries|] == entries;
      forall key
        ensures Postings(log + [m], key) == Postings(log, key) + Posted(m, entries, key)
      {
        PostingsSnoc(log, m, key);
      }
      log := log + [m];
      return true;
    }

    /** Appends a message to what one key indexes. */
    method Post(m: Container, entry: Key)
      modifies this`index
      ensures forall key :: At(key) == if key == entry then old(At(key)) + [m] else old(At(key))
    {
      index := index[entry := At(entry) + [m]];
    }

    method GetInvocation(task: Link) returns (r: Option<Invocation>)
      requires Valid()
      ensures r == FirstInvocation(log, task)
      ensures r.Some? ==> Earliest(log, task, r.value)
      ensures r.None? ==> forall m, inv :: m in log && inv in m.invs ==> OfTask(inv.task) != task
    {
      FirstIs(log, task);
      hide Earliest;
      InvocationHead(log, task);
      var records := At(InvocationOf(task));
      if |records| == 0 { return None; }
      PostingsHold(log, task, records[0]);
      var m := store[records[0]];
      for i := 0 to |m.invs|
        invariant InvocationIn(m.invs, task) == InvocationIn(m.invs[i..], task)
      {
        if TaskOf(m.invs[i]) == task { return Some(m.invs[i]); }
        assert m.invs[i..][1..] == m.invs[i + 1..];
      }
      return None;
    }

    /** Each task's invocation, for the tasks that have one. */
    method GetInvocations(tasks: seq<Link>) returns (found: map<Link, Invocation>)
      requires Valid()
      ensures forall t :: t in found <==> t in tasks && FirstInvocation(log, t).Some?
      ensures forall t :: t in found ==> FirstInvocation(log, t) == Some(found[t])
    {
      found := map[];
      for i := 0 to |tasks|
        invariant forall t :: t in found <==> t in tasks[..i] && FirstInvocation(log, t).Some?
        invariant forall t :: t in found ==> FirstInvocation(log, t) == Some(found[t])
      {
        assert tasks[..i + 1] == tasks[..i] + [tasks[i]];
        if tasks[i] !in found {
          var inv := GetInvocation(tasks[i]);
          if inv.Some? { found := found[tasks[i] := inv.value]; }
        }
      }
      assert tasks[..|tasks|] == tasks;
    }

    method GetReceipt(task: Link) returns (r: Option<Receipt>)
      requires Valid()
      ensures r == FirstReceipt(log, task)
      ensures r.Some? ==> EarliestReceipt(log, task, r.value)
      ensures r.None? ==> forall m, rcpt :: m in log && rcpt in m.rcpts ==> rcpt.ran != task
    {
      FirstIs(log, task);
      hide EarliestReceipt;
      ReceiptHead(log, task);
      var records := At(ReceiptOf(task));
      if |records| == 0 { return None; }
      PostingsHold(log, task, records[0]);
      return ReceiptIn(store[records[0]].rcpts, task);
    }

    /** The messages that hold a task's invocation or its receipt, and no others. */
    method List(task: Link) returns (r: seq<Container>)
      requires Valid()
      ensures forall m :: m in r <==> m in log && (InvocationIn(m.invs, task).Some? || ReceiptIn(m.rcpts, task).Some?)
    {
      r := At(InvocationOf(task)) + At(ReceiptOf(task));
      forall m
        ensures m in r <==> m in log && (InvocationIn(m.invs, task).Some? || ReceiptIn(m.rcpts, task).Some?)
      {
        PostingsHold(log, task, m);
      }
    }
  }
}
