/**
 Delivered receipts: matched to the invocations they ran, and grouped, first by the
 command they ran and then by the node an upload went to, in the order of delivery.
 */
module Deliveries {
  import opened DiffLogs
  import opened Sequences
  import opened Tokens
  import opened AgentStore
  import opened Attachments
  import opened Grouping

  /** A delivered receipt with the invocation it ran. */
  datatype Conclusion = Conclusion(inv: Invocation, rcpt: Receipt)

  // ----- matching

  /** The invocation a receipt ran: one delivered with it, or else one on record. */
  function RanInvocation(invs: seq<Invocation>, log: seq<Container>, rcpt: Receipt): Option<Invocation> {
    if LastOfTask(invs, rcpt.ran).Some? then LastOfTask(invs, rcpt.ran) else FirstInvocation(log, rcpt.ran)
  }

  /** The conclusions of some receipts, without those whose invocation nobody knows. */
  function Conclusions(rcpts: seq<Receipt>, invs: seq<Invocation>, log: seq<Container>): seq<Conclusion> {
    if rcpts == [] then []
    else
      var init, last := Conclusions(rcpts[..|rcpts| - 1], invs, log), rcpts[|rcpts| - 1];
      var inv := RanInvocation(invs, log, last);
      if inv.Some? then init + [Conclusion(inv.value, last)] else init
  }

  /** The receipts that links name, when each names one that was delivered. */
  function Delivered(roots: seq<Link>, rcpts: seq<Receipt>): Option<seq<Receipt>> {
    if roots == [] then Some([])
    else
      var init, root := Delivered(roots[..|roots| - 1], rcpts), roots[|roots| - 1];
      if init.Some? && root.OfReceipt? && root.rcpt in rcpts then Some(init.value + [root.rcpt]) else None
  }

  /** A conclusion pairs a receipt with an invocation of the task it ran. */
  lemma {:induction false} ConclusionsMatch(rcpts: seq<Receipt>, invs: seq<Invocation>, log: seq<Container>)
    ensures forall c :: c in Conclusions(rcpts, invs, log) ==> c.rcpt in rcpts && TaskOf(c.inv) == c.rcpt.ran
    ensures forall r :: r in rcpts && (forall c :: c in Conclusions(rcpts, invs, log) ==> c.rcpt != r) ==>
              (forall inv :: inv in invs ==> TaskOf(inv) != r.ran) && FirstInvocation(log, r.ran).None?
  {
    if rcpts != [] {
      var init, last := rcpts[..|rcpts| - 1], rcpts[|rcpts| - 1];
      ConclusionsMatch(init, invs, log);
      assert rcpts == init + [last];
      LastIsMember(invs, last.ran);
      FirstFound(log, last.ran);
      if FirstInvocation(log, last.ran).Some? {
        var m :| m in log && FirstInvocation(log, last.ran) == InvocationIn(m.invs, last.ran);
        InvocationFound(m.invs, last.ran);
      }
      hide LastOfTask, FirstInvocation, InvocationIn;
      assert RanInvocation(invs, log, last).Some? ==>
          Conclusion(RanInvocation(invs, log, last).value, last) in Conclusions(rcpts, invs, log);
      forall r | r in rcpts && (forall c :: c in Conclusions(rcpts, invs, log) ==> c.rcpt != r)
        ensures (forall inv :: inv in invs ==> TaskOf(inv) != r.ran) && FirstInvocation(log, r.ran).None?
      {
        if r in init {
          forall c | c in Conclusions(init, invs, log)
            ensures c.rcpt != r
          {
            assert c in Conclusions(rcpts, invs, log);
          }
        }
      }
    }
  }

  /**
   The invocation a receipt is taken to have run: the last delivered with it of the task
   it names, or where none was delivered the first on record.
   */
  ghost predicate TakenFor(inv: Invocation, invs: seq<Invocation>, log: seq<Container>, rcpt: Receipt) {
    || (OfTask(inv.task) == rcpt.ran && LastIn(invs, inv))
    || ((forall x :: x in invs ==> OfTask(x.task) != rcpt.ran) && FirstInvocation(log, rcpt.ran) == Some(inv))
  }

  ghost predicate Known(invs: seq<Invocation>, log: seq<Container>, rcpt: Receipt) {
    exists inv :: TakenFor(inv, invs, log, rcpt)
  }

  lemma {:induction false} RanIs(invs: seq<Invocation>, log: seq<Container>, rcpt: Receipt, inv: Invocation)
    ensures RanInvocation(invs, log, rcpt) == Some(inv) <==> TakenFor(inv, invs, log, rcpt)
  {
    LastIsMember(invs, rcpt.ran);
    LastIsIn(invs, inv);
    hide LastOfTask, FirstInvocation, LastIn;
    if LastOfTask(invs, rcpt.ran).Some? {
      assert TaskOf(LastOfTask(invs, rcpt.ran).value) == rcpt.ran;
    } else {
      assert forall x :: x in invs ==> OfTask(x.task) != rcpt.ran by {
        forall x | x in invs ensures OfTask(x.task) != rcpt.ran { assert TaskOf(x) != rcpt.ran; }
      }
    }
  }

  lemma {:induction false} KnownIs(invs: seq<Invocation>, log: seq<Container>, rcpt: Receipt)
    ensures RanInvocation(invs, log, rcpt).Some? <==> Known(invs, log, rcpt)
    ensures RanInvocation(invs, log, rcpt).Some? ==> TakenFor(RanInvocation(invs, log, rcpt).value, invs, log, rcpt)
  {
    forall inv ensures RanInvocation(invs, log, rcpt) == Some(inv) <==> TakenFor(inv, invs, log, rcpt) {
      RanIs(invs, log, rcpt, inv);
    }
    hide RanInvocation, TakenFor;
  }

  /** Receipts concluded with the invocations they are taken to have run; those nobody knows are left out. */
  ghost predicate Concludes(idx: seq<nat>, rcpts: seq<Receipt>, invs: seq<Invocation>, log: seq<Container>,
          cs: seq<Conclusion>) {
    && PlacesOf(idx, |rcpts|) && |cs| == |idx|
    && (forall i :: 0 <= i < |rcpts| ==> (i in idx <==> Known(invs, log, rcpts[i])))
    && (forall a :: 0 <= a < |idx| ==> cs[a].rcpt == rcpts[idx[a]] && TakenFor(cs[a].inv, invs, log, cs[a].rcpt))
  }

  lemma {:induction false} ConclusionsAre(rcpts: seq<Receipt>, invs: seq<Invocation>, log: seq<Container>)
      returns (idx: seq<nat>)
    ensures Concludes(idx, rcpts, invs, log, Conclusions(rcpts, invs, log))
  {
    if rcpts == [] {
      idx := [];
    } else {
      var n := |rcpts| - 1;
      idx := ConclusionsAre(rcpts[..n], invs, log);
      PlacesSnoc(idx, n);
      KnownIs(invs, log, rcpts[n]);
      hide RanInvocation, TakenFor, Known;
      if RanInvocation(invs, log, rcpts[n]).Some? { idx := idx + [n]; }
    }
  }

  lemma {:induction false} DeliveredAre(roots: seq<Link>, rcpts: seq<Receipt>)
    ensures Delivered(roots, rcpts).Some? <==>
            forall i :: 0 <= i < |roots| ==> roots[i].OfReceipt? && roots[i].rcpt in rcpts
    ensures Delivered(roots, rcpts).Some? ==>
              && |Delivered(roots, rcpts).value| == |roots|
              && forall i :: 0 <= i < |roots| ==> roots[i] == OfReceipt(Delivered(roots, rcpts).value[i])
  {
    if roots != [] {
      DeliveredAre(roots[..|roots| - 1], rcpts);
    }
  }

  /** The receipts and invocations a request carries, by link and by task. */
  method IndexRequest(meta: Container) returns (byLink: map<Link, Receipt>, byTask: map<Link, Invocation>)
    ensures forall l :: l in byLink <==> l.OfReceipt? && l.rcpt in meta.rcpts
    ensures forall l :: l in byLink ==> OfReceipt(byLink[l]) == l
    ensures forall l :: TaskAt(byTask, l) == LastOfTask(meta.invs, l)
  {
    byLink, byTask := map[], map[];
    for i := 0 to |meta.rcpts|
      invariant forall l :: l in byLink <==> l.OfReceipt? && l.rcpt in meta.rcpts[..i]
      invariant forall l :: l in byLink ==> OfReceipt(byLink[l]) == l
    {
      assert meta.rcpts[..i + 1] == meta.rcpts[..i] + [meta.rcpts[i]];
      byLink := byLink[OfReceipt(meta.rcpts[i]) := meta.rcpts[i]];
    }
    assert meta.rcpts[..|meta.rcpts|] == meta.rcpts;
    for i := 0 to |meta.invs|
      invariant forall l :: TaskAt(byTask, l) == LastOfTask(meta.invs[..i], l)
    {
      assert meta.invs[..i + 1][..i] == meta.invs[..i];
      ghost var was := byTask;
      byTask := byTask[TaskOf(meta.invs[i]) := meta.invs[i]];
      forall l
        ensures TaskAt(byTask, l) == LastOfTask(meta.invs[..i + 1], l)
      {
        assert TaskAt(was, l) == LastOfTask(meta.invs[..i], l);
      }
    }
    assert meta.invs[..|meta.invs|] == meta.invs;
  }

  /** Matches each delivered receipt to what it ran; fails when a receipt named was not delivered. */
  method Match(agent: Memory, roots: seq<Link>, meta: Container) returns (r: Option<seq<Conclusion>>)
    requires agent.Valid()
    ensures r.None? <==> exists i :: 0 <= i < |roots| && !(roots[i].OfReceipt? && roots[i].rcpt in meta.rcpts)
    ensures r.Some? ==>
              exists idx, rcpts ::
                && Concludes(idx, rcpts, meta.invs, agent.log, r.value)
                && |rcpts| == |roots| && forall i :: 0 <= i < |roots| ==> roots[i] == OfReceipt(rcpts[i])
  {
    var byLink, byTask := IndexRequest(meta);
    var out: seq<Conclusion> := [];
    ghost var found: seq<Receipt> := [];
    for i := 0 to |roots|
      invariant Delivered(roots[..i], meta.rcpts) == Some(found)
      invariant out == Conclusions(found, meta.invs, agent.log)
    {
      assert roots[..i + 1][..i] == roots[..i];
      if roots[i] !in byLink {
        return None;
      }
      var rcpt := byLink[roots[i]];
      assert (found + [rcpt])[..|found|] == found;
      var inv := TaskAt(byTask, rcpt.ran);
      if inv.None? { inv := agent.GetInvocation(rcpt.ran); }
      if inv.Some? { out := out + [Conclusion(inv.value, rcpt)]; }
      found := found + [rcpt];
    }
    assert roots[..|roots|] == roots;
    DeliveredAre(roots, meta.rcpts);
    ghost var idx := ConclusionsAre(found, meta.invs, agent.log);
    return Some(out);
  }

  // ----- grouping

  ghost function KeysIn<K, V>(items: seq<(K, V)>): set<K> {
    set item | item in items :: item.0
  }

  /** The values of one key, in order. */
  function Select<K(==), V>(items: seq<(K, V)>, key: K): seq<V> {
    if items == [] then []
    else
      var init, last := Select(items[..|items| - 1], key), items[|items| - 1];
      if last.0 == key then init + [last.1] else init
  }

  /** The place of the first item of a key, or the number of items when there is none. */
  function FirstOf<K(==), V>(items: seq<(K, V)>, key: K): nat {
    if items == [] then 0 else if items[0].0 == key then 0 else 1 + FirstOf(items[1..], key)
  }

  lemma {:induction false} FirstIs<K, V>(items: seq<(K, V)>, key: K)
    ensures FirstOf(items, key) <= |items|
    ensures FirstOf(items, key) < |items| <==> key in KeysIn(items)
    ensures FirstOf(items, key) < |items| ==> items[FirstOf(items, key)].0 == key
    ensures forall i :: 0 <= i < FirstOf(items, key) ==> items[i].0 != key
  {
    if items != [] {
      FirstIs(items[1..], key);
      assert items == [items[0]] + items[1..];
      assert items[0].0 in KeysIn(items);
      assert KeysIn(items) == {items[0].0} + KeysIn(items[1..]);
    }
  }

  lemma {:induction false} FirstGrows<K, V>(items: seq<(K, V)>, item: (K, V), key: K)
    ensures FirstOf(items + [item], key) ==
            if key in KeysIn(items) then FirstOf(items, key) else if item.0 == key then |items| else |items| + 1
  {
    if items != [] {
      FirstGrows(items[1..], item, key);
      assert (items + [item])[1..] == items[1..] + [item];
      assert KeysIn(items) == {items[0].0} + KeysIn(items[1..]);
    } else {
      assert (items + [item])[1..] == [];
    }
  }

  /** Keys in the order they first occur. */
  ghost predicate Ordered<K, V>(items: seq<(K, V)>, keys: seq<K>) {
    && KeysIn(items) == (set k | k in keys)
    && forall i, j :: 0 <= i < j < |keys| ==> FirstOf(items, keys[i]) < FirstOf(items, keys[j])
  }

  /** Each key with its values in order. */
  ghost predicate Collected<K, V>(items: seq<(K, V)>, groups: map<K, seq<V>>) {
    groups.Keys == KeysIn(items) && forall k :: k in groups ==> groups[k] == Select(items, k)
  }

  lemma {:induction false} KeysSnoc<K, V>(items: seq<(K, V)>, item: (K, V))
    ensures KeysIn(items + [item]) == KeysIn(items) + {item.0}
  {
    assert item in items + [item];
  }

  lemma {:induction false} OrderStep<K, V>(items: seq<(K, V)>, item: (K, V), keys: seq<K>)
    requires Ordered(items, keys)
    ensures Ordered(items + [item], if item.0 in KeysIn(items) then keys else keys + [item.0])
  {
    KeysSnoc(items, item);
    hide FirstOf, KeysIn;
    var keys' := if item.0 in KeysIn(items) then keys else keys + [item.0];
    forall i, j | 0 <= i < j < |keys'| ensures FirstOf(items + [item], keys'[i]) < FirstOf(items + [item], keys'[j]) {
      FirstGrows(items, item, keys'[i]);
      FirstGrows(items, item, keys'[j]);
      FirstIs(items, keys'[i]);
      assert keys'[i] in keys;
    }
  }

  lemma {:induction false} CollectStep<K, V>(items: seq<(K, V)>, item: (K, V), groups: map<K, seq<V>>)
    requires Collected(items, groups)
    ensures Collected(items + [item], groups[item.0 := (if item.0 in groups then groups[item.0] else []) + [item.1]])
  {
    KeysSnoc(items, item);
    SelectNone(items, item.0);
    hide KeysIn;
    forall k
      ensures Select(items + [item], k) == if item.0 == k then Select(items, k) + [item.1] else Select(items, k)
    {
      assert (items + [item])[..|items|] == items;
    }
  }

  /** Groups items by key: keys in the order they first occur, the values of each in order. */
  method GroupStable<K(==), V>(items: seq<(K, V)>) returns (keys: seq<K>, groups: map<K, seq<V>>)
    ensures Ordered(items, keys) && Collected(items, groups)
  {
    keys, groups := [], map[];
    for i := 0 to |items|
      invariant Ordered(items[..i], keys) && Collected(items[..i], groups)
    {
      var (key, value) := items[i];
      assert items[..i + 1] == items[..i] + [items[i]];
      OrderStep(items[..i], items[i], keys);
      CollectStep(items[..i], items[i], groups);
      if key !in groups { keys := keys + [key]; }
      groups := groups[key := (if key in groups then groups[key] else []) + [value]];
    }
    assert items[..|items|] == items;
  }

  lemma {:induction false} SelectNone<K, V>(items: seq<(K, V)>, key: K)
    ensures key !in KeysIn(items) ==> Select(items, key) == []
  {
    if items != [] {
      SelectNone(items[..|items| - 1], key);
      assert items == items[..|items| - 1] + [items[|items| - 1]];
      assert KeysIn(items) == KeysIn(items[..|items| - 1]) + {items[|items| - 1].0};
    }
  }

  lemma {:induction false} SelectFrom<K, V>(items: seq<(K, V)>, key: K)
    ensures forall v :: v in Select(items, key) <==> (key, v) in items
  {
    if items != [] {
      SelectFrom(items[..|items| - 1], key);
      assert items == items[..|items| - 1] + [items[|items| - 1]];
    }
  }

  /** The values of a key keep the order of their items. */
  lemma {:induction false} SelectAre<K, V>(items: seq<(K, V)>, key: K) returns (idx: seq<nat>)
    ensures PlacesOf(idx, |items|) && |Select(items, key)| == |idx|
    ensures forall i :: 0 <= i < |items| ==> (i in idx <==> items[i].0 == key)
    ensures forall a :: 0 <= a < |idx| ==> Select(items, key)[a] == items[idx[a]].1
  {
    if items == [] {
      idx := [];
    } else {
      var n := |items| - 1;
      idx := SelectAre(items[..n], key);
      PlacesSnoc(idx, n);
      if items[n].0 == key { idx := idx + [n]; }
    }
  }
}
