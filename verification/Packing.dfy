/**
 Persisting acceptances as agent messages: greedily, in order, never splitting one,
 so that each message fits a container.
 */
module Packing {
  import opened DiffLogs
  import opened Tokens
  import opened AgentStore
  import opened Grouping

  /** Headroom for the tokens the server wraps around a message. */
  const CONTAINER_TOKEN_BUDGET := MAX_TOKENS - 256

  function Size(g: Acceptance): nat {
    |g.invs| + |g.rcpts|
  }

  function Total(groups: seq<Acceptance>): nat {
    if groups == [] then 0 else Total(groups[..|groups| - 1]) + Size(groups[|groups| - 1])
  }

  function InvsOf(groups: seq<Acceptance>): seq<Invocation> {
    if groups == [] then [] else InvsOf(groups[..|groups| - 1]) + groups[|groups| - 1].invs
  }

  function RcptsOf(groups: seq<Acceptance>): seq<Receipt> {
    if groups == [] then [] else RcptsOf(groups[..|groups| - 1]) + groups[|groups| - 1].rcpts
  }

  /** The message some groups are written as. */
  function MessageOf(groups: seq<Acceptance>): Container {
    Pack(InvsOf(groups), RcptsOf(groups))
  }

  function MessagesOf(batches: seq<seq<Acceptance>>): seq<Container> {
    seq(|batches|, i requires 0 <= i < |batches| => MessageOf(batches[i]))
  }

  function Flatten(batches: seq<seq<Acceptance>>): seq<Acceptance> {
    if batches == [] then [] else batches[0] + Flatten(batches[1..])
  }

  /** The batches groups are written in, after some gathered and not yet written. */
  function Greedy(cur: seq<Acceptance>, rest: seq<Acceptance>, budget: nat): seq<seq<Acceptance>>
    decreases |rest|
  {
    if rest == [] then if Total(cur) > 0 then [cur] else []
    else if Total(cur) > 0 && Total(cur) + Size(rest[0]) > budget then [cur] + Greedy([rest[0]], rest[1..], budget)
    else Greedy(cur + [rest[0]], rest[1..], budget)
  }

  lemma {:induction false} Snoc(groups: seq<Acceptance>, g: Acceptance)
    ensures Total(groups + [g]) == Total(groups) + Size(g)
    ensures InvsOf(groups + [g]) == InvsOf(groups) + g.invs
    ensures RcptsOf(groups + [g]) == RcptsOf(groups) + g.rcpts
  {
    assert (groups + [g])[..|groups|] == groups;
  }

  lemma {:induction false} NoGroups()
    ensures Total([]) == 0 && InvsOf([]) == [] && RcptsOf([]) == [] && MessagesOf([]) == []
  {
  }

  lemma {:induction false} Alone(g: Acceptance)
    ensures Total([g]) == Size(g) && InvsOf([g]) == g.invs && RcptsOf([g]) == g.rcpts
  {
    assert [] + [g] == [g];
    Snoc([], g);
  }

  lemma {:induction false} TotalIs(groups: seq<Acceptance>)
    ensures Total(groups) == |InvsOf(groups)| + |RcptsOf(groups)|
  {
    if groups != [] { TotalIs(groups[..|groups| - 1]); }
  }

  // ----- in order, whole, and within budget

  /** The batches hold the groups in order, none repeated or split, and none lost but what has no token. */
  lemma {:induction false} GreedyInOrder(cur: seq<Acceptance>, rest: seq<Acceptance>, budget: nat) returns (n: nat)
    ensures n <= |cur + rest| && Flatten(Greedy(cur, rest, budget)) == (cur + rest)[..n]
            && Total((cur + rest)[n..]) == 0
    decreases |rest|
  {
    hide Size;
    if rest == [] {
      assert cur + rest == cur;
      if Total(cur) > 0 {
        n := |cur|;
        assert Flatten([cur]) == cur + Flatten([cur][1..]);
        assert cur[n..] == [];
      } else {
        n := 0;
        assert cur[0..] == cur;
      }
    } else if Total(cur) > 0 && Total(cur) + Size(rest[0]) > budget {
      var k := GreedyInOrder([rest[0]], rest[1..], budget);
      assert [rest[0]] + rest[1..] == rest;
      var more := Greedy([rest[0]], rest[1..], budget);
      assert ([cur] + more)[1..] == more;
      n := |cur| + k;
      assert (cur + rest)[n..] == rest[k..] && (cur + rest)[..n] == cur + rest[..k];
    } else {
      n := GreedyInOrder(cur + [rest[0]], rest[1..], budget);
      assert cur + [rest[0]] + rest[1..] == cur + rest;
    }
  }

  /** A batch is within budget, or is one group too large for any message. */
  predicate Fits(batch: seq<Acceptance>, budget: nat) {
    Total(batch) <= budget || exists g :: g in batch && Size(g) > budget
  }

  lemma {:induction false} GreedyFits(cur: seq<Acceptance>, rest: seq<Acceptance>, budget: nat)
    requires Fits(cur, budget)
    ensures forall i :: 0 <= i < |Greedy(cur, rest, budget)| ==>
              Fits(Greedy(cur, rest, budget)[i], budget) && Total(Greedy(cur, rest, budget)[i]) > 0
    decreases |rest|
  {
    if rest == [] {
    } else if Total(cur) > 0 && Total(cur) + Size(rest[0]) > budget {
      Alone(rest[0]);
      assert rest[0] in [rest[0]];
      GreedyFits([rest[0]], rest[1..], budget);
    } else {
      Snoc(cur, rest[0]);
      StillFits(cur, rest[0], budget);
      GreedyFits(cur + [rest[0]], rest[1..], budget);
    }
  }

  lemma {:induction false} StillFits(cur: seq<Acceptance>, g: Acceptance, budget: nat)
    requires Fits(cur, budget) && (Total(cur) == 0 || Total(cur) + Size(g) <= budget)
    ensures Fits(cur + [g], budget)
  {
    Snoc(cur, g);
    assert g in cur + [g];
  }

  /** When each group fits a message of its own, every batch is within budget. */
  lemma {:induction false} GreedyWithin(cur: seq<Acceptance>, rest: seq<Acceptance>, budget: nat)
    requires Total(cur) <= budget && forall g :: g in rest ==> Size(g) <= budget
    ensures forall batch ::
              batch in Greedy(cur, rest, budget) ==> Total(batch) <= budget && Weight(MessageOf(batch)) <= budget
    decreases |rest|
  {
    Encodes(cur);
    if rest == [] {
    } else if Total(cur) > 0 && Total(cur) + Size(rest[0]) > budget {
      Alone(rest[0]);
      GreedyWithin([rest[0]], rest[1..], budget);
    } else {
      Snoc(cur, rest[0]);
      GreedyWithin(cur + [rest[0]], rest[1..], budget);
    }
  }

  /** A batch within budget always encodes. */
  lemma {:induction false} Encodes(batch: seq<Acceptance>)
    ensures Weight(MessageOf(batch)) <= Total(batch)
  {
    TotalIs(batch);
    DedupKeeps(InvsOf(batch));
    DedupKeeps(RcptsOf(batch));
  }

  // ----- as few messages as any

  /** How many messages are still to come, with so many tokens gathered. */
  function Count(gathered: nat, rest: seq<Acceptance>, budget: nat): nat
    decreases |rest|
  {
    if rest == [] then if gathered > 0 then 1 else 0
    else if gathered > 0 && gathered + Size(rest[0]) > budget then 1 + Count(Size(rest[0]), rest[1..], budget)
    else Count(gathered + Size(rest[0]), rest[1..], budget)
  }

  lemma {:induction false} CountIsGreedy(cur: seq<Acceptance>, rest: seq<Acceptance>, budget: nat)
    ensures |Greedy(cur, rest, budget)| == Count(Total(cur), rest, budget)
    decreases |rest|
  {
    if rest != [] {
      Alone(rest[0]);
      Snoc(cur, rest[0]);
      CountIsGreedy([rest[0]], rest[1..], budget);
      CountIsGreedy(cur + [rest[0]], rest[1..], budget);
    }
  }

  /** More gathered never means fewer messages, nor more than one more. */
  lemma {:induction false} CountMonotone(s: nat, s': nat, rest: seq<Acceptance>, budget: nat)
    requires s <= s'
    ensures Count(s, rest, budget) <= Count(s', rest, budget) <= Count(s, rest, budget) + 1
    decreases |rest|
  {
    if rest != [] {
      var g := Size(rest[0]);
      CountMonotone(s + g, s' + g, rest[1..], budget);
      CountMonotone(g, s + g, rest[1..], budget);
    }
  }

  lemma {:induction false} CountHead(gathered: nat, batch: seq<Acceptance>, rest: seq<Acceptance>, budget: nat)
    requires batch != [] && gathered + Size(batch[0]) <= budget
    ensures Count(gathered, batch + rest, budget) == Count(gathered + Size(batch[0]), batch[1..] + rest, budget)
  {
    hide Size;
    assert (batch + rest)[1..] == batch[1..] + rest && (batch + rest)[0] == batch[0];
  }

  /** A batch within budget is gathered without writing. */
  lemma {:induction false} Absorbs(gathered: nat, batch: seq<Acceptance>, rest: seq<Acceptance>, budget: nat)
    requires gathered + Total(batch) <= budget
    ensures Count(gathered, batch + rest, budget) == Count(gathered + Total(batch), rest, budget)
    decreases |batch|
  {
    if batch == [] {
      hide Count;
      assert batch + rest == rest;
    } else {
      TotalHead(batch);
      hide Total, Size;
      Absorbs(gathered + Size(batch[0]), batch[1..], rest, budget);
      CountHead(gathered, batch, rest, budget);
      hide Count;
    }
  }

  lemma {:induction false} TotalHead(batch: seq<Acceptance>)
    requires batch != []
    ensures Total(batch) == Size(batch[0]) + Total(batch[1..])
  {
    if |batch| > 1 {
      TotalHead(batch[..|batch| - 1]);
      assert batch[1..][..|batch| - 2] == batch[..|batch| - 1][1..];
    } else {
      Alone(batch[0]);
      assert batch == [batch[0]] && batch[1..] == [];
    }
  }

  /**
   No other way of cutting the groups in order into messages within budget writes
   fewer messages.
   */
  lemma {:induction false} GreedyOptimal(other: seq<seq<Acceptance>>, budget: nat)
    requires forall i :: 0 <= i < |other| ==> Total(other[i]) <= budget
    ensures |Greedy([], Flatten(other), budget)| <= |other|
    decreases |other|
  {
    CountIsGreedy([], Flatten(other), budget);
    if other != [] {
      var rest := Flatten(other[1..]);
      GreedyOptimal(other[1..], budget);
      CountIsGreedy([], rest, budget);
      Absorbs(0, other[0], rest, budget);
      CountMonotone(0, Total(other[0]), rest, budget);
    }
  }

  // ----- writing

  lemma {:induction false} MessagesSnoc(batches: seq<seq<Acceptance>>, batch: seq<Acceptance>)
    ensures MessagesOf(batches + [batch]) == MessagesOf(batches) + [MessageOf(batch)]
  {
  }

  /** Writes what is gathered as one message. */
  method Flush(agent: Memory, invs: seq<Invocation>, rcpts: seq<Receipt>, ghost batch: seq<Acceptance>)
      returns (ok: bool)
    requires agent.Valid() && invs == InvsOf(batch) && rcpts == RcptsOf(batch)
    modifies agent
    ensures agent.Valid() && ok == (Weight(MessageOf(batch)) <= MAX_TOKENS)
    ensures agent.log == if ok then old(agent.log) + [MessageOf(batch)] else old(agent.log)
  {
    ok := agent.Write(Pack(invs, rcpts), IndexOf(Pack(invs, rcpts)));
  }

  /** Writes the next of some planned batches, after those done. */
  method FlushNext(agent: Memory, invs: seq<Invocation>, rcpts: seq<Receipt>, ghost start: seq<Container>,
          ghost plan: seq<seq<Acceptance>>, ghost done: seq<seq<Acceptance>>, ghost cur: seq<Acceptance>,
          ghost more: seq<seq<Acceptance>>)
      returns (ok: bool)
    requires agent.Valid() && invs == InvsOf(cur) && rcpts == RcptsOf(cur)
    requires plan == done + ([cur] + more) && agent.log == start + MessagesOf(done)
    modifies agent
    ensures agent.Valid() && |done| < |plan| && plan[|done|] == cur && ok == (Weight(MessageOf(cur)) <= MAX_TOKENS)
    ensures plan == done + [cur] + more
    ensures agent.log == if ok then start + MessagesOf(done + [cur]) else start + MessagesOf(plan)[..|done|]
  {
    Planned(plan, done, cur, more);
    MessagesSnoc(done, cur);
    hide MessagesOf, InvsOf, RcptsOf, MessageOf, Memory.Valid;
    ok := Flush(agent, invs, rcpts, cur);
    if ok { assert agent.log == start + (MessagesOf(done) + [MessageOf(cur)]); }
  }

  lemma {:induction false} GreedyStep(cur: seq<Acceptance>, groups: seq<Acceptance>, i: nat, budget: nat)
    requires i <= |groups|
    ensures i == |groups| ==> Greedy(cur, groups[i..], budget) == if Total(cur) > 0 then [cur] else []
    ensures i < |groups| && Total(cur) > 0 && Total(cur) + Size(groups[i]) > budget ==>
              Greedy(cur, groups[i..], budget) == [cur] + Greedy([groups[i]], groups[i + 1..], budget)
    ensures i < |groups| && !(Total(cur) > 0 && Total(cur) + Size(groups[i]) > budget) ==>
              Greedy(cur, groups[i..], budget) == Greedy(cur + [groups[i]], groups[i + 1..], budget)
  {
    if i < |groups| { assert groups[i..][1..] == groups[i + 1..]; }
  }

  /** Writes acceptances as messages until one cannot be written. */
  method WriteAgentMessages(agent: Memory, groups: seq<Acceptance>, budget: nat) returns (ok: bool, ghost written: nat)
    requires agent.Valid()
    modifies agent
    ensures agent.Valid() && written <= |Greedy([], groups, budget)|
    ensures agent.log == old(agent.log) + MessagesOf(Greedy([], groups, budget))[..written]
    ensures ok ==> written == |Greedy([], groups, budget)|
    ensures !ok ==>
              written < |Greedy([], groups, budget)|
              && Weight(MessageOf(Greedy([], groups, budget)[written])) > MAX_TOKENS
  {
    NoGroups();
    hide MessagesOf, InvsOf, RcptsOf, MessageOf, Memory.Valid, Greedy, Total;
    var invs: seq<Invocation> := [];
    var rcpts: seq<Receipt> := [];
    ghost var cur: seq<Acceptance> := [];
    ghost var done: seq<seq<Acceptance>> := [];
    ghost var plan := Greedy([], groups, budget);
    assert groups[0..] == groups;
    for i := 0 to |groups|
      invariant agent.Valid()
      invariant plan == done + Greedy(cur, groups[i..], budget)
      invariant agent.log == old(agent.log) + MessagesOf(done)
      invariant invs == InvsOf(cur) && rcpts == RcptsOf(cur)
    {
      var g := groups[i];
      GreedyStep(cur, groups, i, budget);
      TotalIs(cur);
      if |invs| + |rcpts| > 0 && |invs| + |rcpts| + Size(g) > budget {
        written := |done|;
        ok := FlushNext(agent, invs, rcpts, old(agent.log), plan, done, cur, Greedy([g], groups[i + 1..], budget));
        if !ok { return; }
        done, cur := done + [cur], [];
        invs, rcpts := [], [];
        assert [] + [g] == [g];
      }
      Snoc(cur, g);
      invs, rcpts := invs + g.invs, rcpts + g.rcpts;
      cur := cur + [g];
    }
    GreedyStep(cur, groups, |groups|, budget);
    TotalIs(cur);
    ok := true;
    if |invs| + |rcpts| > 0 {
      assert [cur] + [] == [cur];
      written := |done|;
      ok := FlushNext(agent, invs, rcpts, old(agent.log), plan, done, cur, []);
      if !ok { return; }
      done := done + [cur];
    }
    written := |done|;
    assert plan == done;
    MessagesLength(plan);
  }

  lemma {:induction false} MessagesLength(batches: seq<seq<Acceptance>>)
    ensures MessagesOf(batches)[..|batches|] == MessagesOf(batches)
  {
  }

  lemma {:induction false} Planned(plan: seq<seq<Acceptance>>, done: seq<seq<Acceptance>>, cur: seq<Acceptance>,
          more: seq<seq<Acceptance>>)
    requires plan == done + ([cur] + more)
    ensures plan == done + [cur] + more && plan[|done|] == cur
    ensures MessagesOf(plan)[..|done|] == MessagesOf(done) && MessagesOf(plan)[..|done| + 1] == MessagesOf(done + [cur])
  {
  }
}
