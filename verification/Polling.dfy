/**
 What a deliverer finds when it polls for an accept. The receipts endpoint answers a
 poll from the messages indexed under the polled task, so an accept's receipt and
 the location commitment it names have to be in one of them together.
 */
module Polling {
  import opened DiffLogs
  import opened Tokens
  import opened AgentStore
  import opened Piri
  import opened Attachments
  import opened Grouping
  import opened Packing

  /** Some message listed under the accept's task holds both its receipt and an invocation it names. */
  ghost predicate Pollable(log: seq<Container>, rcpt: Receipt, inv: Invocation) {
    exists m :: m in log && ReceiptIn(m.rcpts, rcpt.ran).Some? && rcpt in m.rcpts && inv in m.invs
  }

  /** Whether the i-th result is answered by a receipt that names an attached invocation. */
  ghost predicate Reports(results: seq<AcceptResult>, metas: seq<Container>, i: int, inv: Invocation) {
    0 <= i < |results| && results[i].rcpt.Some? && NamedIn(metas, results[i].rcpt.value, inv)
  }

  /** No other receipt names the invocation. */
  ghost predicate Sole(results: seq<AcceptResult>, metas: seq<Container>, i: int, inv: Invocation)
    requires 0 <= i < |results|
  {
    forall j :: Reports(results, metas, j, inv) ==> results[j].rcpt == results[i].rcpt
  }

  /** Every answered accept can be polled for with each attached invocation that its receipt names and no other does. */
  ghost predicate EachPollable(log: seq<Container>, results: seq<AcceptResult>, metas: seq<Container>) {
    forall i, inv :: Reports(results, metas, i, inv) && Sole(results, metas, i, inv) ==>
      Pollable(log, results[i].rcpt.value, inv)
  }

  lemma {:induction false} FlattenHolds(batches: seq<seq<Acceptance>>, g: Acceptance) returns (i: nat)
    requires g in Flatten(batches)
    ensures i < |batches| && g in batches[i]
  {
    if g in batches[0] {
      i := 0;
    } else {
      var j := FlattenHolds(batches[1..], g);
      i := j + 1;
    }
  }

  lemma {:induction false} BatchHolds(batch: seq<Acceptance>, g: Acceptance)
    requires g in batch
    ensures forall x :: x in g.invs ==> x in InvsOf(batch)
    ensures forall x :: x in g.rcpts ==> x in RcptsOf(batch)
  {
    if g != batch[|batch| - 1] { BatchHolds(batch[..|batch| - 1], g); }
  }

  lemma {:induction false} TotalBounds(groups: seq<Acceptance>, j: nat)
    requires j < |groups|
    ensures Total(groups) >= Size(groups[j])
  {
    if j < |groups| - 1 { TotalBounds(groups[..|groups| - 1], j); }
  }

  /** Every group that has a token is in one of the messages, whole. */
  lemma {:induction false} GroupWritten(groups: seq<Acceptance>, j: nat, budget: nat) returns (i: nat)
    requires j < |groups| && Size(groups[j]) > 0
    ensures i < |Greedy([], groups, budget)|
    ensures forall x :: x in groups[j].invs ==> x in MessageOf(Greedy([], groups, budget)[i]).invs
    ensures forall x :: x in groups[j].rcpts ==> x in MessageOf(Greedy([], groups, budget)[i]).rcpts
  {
    var n := GreedyInOrder([], groups, budget);
    hide Greedy, Flatten;
    assert [] + groups == groups;
    if j >= n {
      TotalBounds(groups[n..], j - n);
    }
    assert groups[j] in groups[..n];
    i := FlattenHolds(Greedy([], groups, budget), groups[j]);
    var batch := Greedy([], groups, budget)[i];
    BatchHolds(batch, groups[j]);
    DedupKeeps(InvsOf(batch));
    DedupKeeps(RcptsOf(batch));
  }

  /** The group that holds an invocation only one accept's receipt names has that receipt. */
  lemma {:induction false} NamedIsPaired(groups: seq<Acceptance>, idx: seq<nat>, results: seq<AcceptResult>,
          metas: seq<Container>, i: nat, inv: Invocation)
      returns (j: nat)
    requires Grouped(groups, idx, results, metas) && Reports(results, metas, i, inv) && Sole(results, metas, i, inv)
    ensures j < |groups| && inv in groups[j].invs && results[i].rcpt.value in groups[j].rcpts
  {
    assert AnsweredAt(idx, results);
    hide NamedIn, Grouped;
    var k := AnsweredHas(idx, results, i);
    GroupedAt(groups, idx, results, metas, k);
    j :| 0 <= j <= k && groups[j].invs != [] && inv in groups[j].invs[1..];
    GroupedAt(groups, idx, results, metas, j);
    assert Reports(results, metas, idx[j], inv);
    assert groups[j].rcpts[0] in groups[j].rcpts;
  }

  /**
   Once grouping, packing and writing have succeeded, polling any answered accept finds
   a message with its receipt and each attached invocation that its receipt names, as
   its commitment or as its promise, and no other receipt does.
   */
  lemma {:induction false} PollComplete(results: seq<AcceptResult>, metas: seq<Container>, groups: seq<Acceptance>,
          idx: seq<nat>, budget: nat, log: seq<Container>, i: nat, inv: Invocation)
    requires Grouped(groups, idx, results, metas)
    requires forall m :: m in MessagesOf(Greedy([], groups, budget)) ==> m in log
    requires Reports(results, metas, i, inv) && Sole(results, metas, i, inv)
    ensures Pollable(log, results[i].rcpt.value, inv)
  {
    hide NamedIn, Greedy, MessageOf, Grouped, Sole, ReceiptIn;
    var rcpt := results[i].rcpt.value;
    var j := NamedIsPaired(groups, idx, results, metas, i, inv);
    var b := GroupWritten(groups, j, budget);
    var m := MessageOf(Greedy([], groups, budget)[b]);
    assert MessagesOf(Greedy([], groups, budget))[b] == m;
    ReceiptFound(m.rcpts, rcpt.ran);
    var p :| 0 <= p < |m.rcpts| && m.rcpts[p] == rcpt;
    assert m.rcpts[p].ran == rcpt.ran;
  }

  lemma {:induction false} EachEncodes(groups: seq<Acceptance>, budget: nat, i: nat)
    requires i < |Greedy([], groups, budget)|
    ensures (forall g :: g in groups ==> Size(g) <= budget) ==>
              Weight(MessageOf(Greedy([], groups, budget)[i])) <= budget
  {
    if forall g :: g in groups ==> Size(g) <= budget {
      NoGroups();
      GreedyWithin([], groups, budget);
      assert Greedy([], groups, budget)[i] in Greedy([], groups, budget);
    }
  }

  /**
   Persists a batch's results with what the node attached to them. When it succeeds,
   every answered accept can be polled for with each invocation its receipt names,
   unless a different receipt names the same one.
   */
  method Persist(agent: Memory, results: seq<AcceptResult>, metas: seq<Container>, budget: nat)
      returns (ok: bool, groups: seq<Acceptance>, ghost written: nat)
    requires agent.Valid()
    requires forall res :: res in results && res.rcpt.Some? ==> res.inv.Some?
    modifies agent
    ensures agent.Valid() && old(agent.log) <= agent.log
    ensures Arranged(groups, results, metas)
    ensures written <= |Greedy([], groups, budget)| && (ok <==> written == |Greedy([], groups, budget)|)
    ensures agent.log == old(agent.log) + MessagesOf(Greedy([], groups, budget))[..written]
    ensures ok ==> agent.log == old(agent.log) + MessagesOf(Greedy([], groups, budget))
    ensures ok ==> EachPollable(agent.log, results, metas)
    ensures budget <= MAX_TOKENS && (forall g :: g in groups ==> Size(g) <= budget) ==> ok
  {
    ghost var idx;
    groups, idx := GroupAcceptances(results, metas);
    ok, written := WriteAgentMessages(agent, groups, budget);
    hide NamedIn, Greedy, MessageOf, Grouped, Conserved, Pollable, Sole;
    if ok {
      MessagesLength(Greedy([], groups, budget));
      forall i, inv | Reports(results, metas, i, inv) && Sole(results, metas, i, inv)
        ensures Pollable(agent.log, results[i].rcpt.value, inv)
      {
        PollComplete(results, metas, groups, idx, budget, agent.log, i, inv);
      }
    } else {
      EachEncodes(groups, budget, written);
    }
  }
}
