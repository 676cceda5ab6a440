/**
 What a node attaches to its answers, container by container, and what an accept's
 receipt names of it: its location commitment and its PDP promise.
 */
module Attachments {
  import opened DiffLogs
  import opened Tokens

  function AllInvs(metas: seq<Container>): seq<Invocation> {
    if metas == [] then [] else AllInvs(metas[..|metas| - 1]) + metas[|metas| - 1].invs
  }

  function AllRcpts(metas: seq<Container>): seq<Receipt> {
    if metas == [] then [] else AllRcpts(metas[..|metas| - 1]) + metas[|metas| - 1].rcpts
  }

  /** What an accept receipt names: its location commitment and its PDP task, if it is a usable success. */
  function AttachedLinks(rcpt: Receipt): seq<Link> {
    if rcpt.out.AcceptOK? && rcpt.out.commitment.Some? && rcpt.out.pdp.Some?
    then [rcpt.out.commitment.value, rcpt.out.pdp.value] else []
  }

  /** The last of some invocations of a task. */
  function LastOfTask(invs: seq<Invocation>, task: Link): Option<Invocation> {
    if invs == [] then None
    else if TaskOf(invs[|invs| - 1]) == task then Some(invs[|invs| - 1])
    else LastOfTask(invs[..|invs| - 1], task)
  }

  /** The attached invocation a link names: by its own link, or else by its task. */
  function LinkedTo(invs: seq<Invocation>, link: Link): Option<Invocation> {
    if link.OfInvocation? && link.inv in invs then Some(link.inv) else LastOfTask(invs, link)
  }

  /** Whether an accept receipt names an attached invocation. */
  ghost predicate Names(invs: seq<Invocation>, rcpt: Receipt, inv: Invocation) {
    exists link :: link in AttachedLinks(rcpt) && LinkedTo(invs, link) == Some(inv)
  }

  // ----- what the containers hold

  ghost predicate Attached(metas: seq<Container>, inv: Invocation) {
    exists m :: 0 <= m < |metas| && inv in metas[m].invs
  }

  ghost predicate AttachedRcpt(metas: seq<Container>, rcpt: Receipt) {
    exists m :: 0 <= m < |metas| && rcpt in metas[m].rcpts
  }

  lemma {:induction false} AllInvsAre(metas: seq<Container>)
    ensures forall inv :: inv in AllInvs(metas) <==> Attached(metas, inv)
  {
    if metas != [] {
      var init, last := metas[..|metas| - 1], metas[|metas| - 1];
      AllInvsAre(init);
      hide AllInvs;
      forall inv ensures Attached(metas, inv) <==> Attached(init, inv) || inv in last.invs {
        if Attached(init, inv) {
          var m :| 0 <= m < |init| && inv in init[m].invs;
          assert inv in metas[m].invs;
        }
        if Attached(metas, inv) {
          var m :| 0 <= m < |metas| && inv in metas[m].invs;
          assert m < |init| ==> inv in init[m].invs;
        }
        if inv in last.invs { assert inv in metas[|init|].invs; }
      }
    }
  }

  lemma {:induction false} AllRcptsAre(metas: seq<Container>)
    ensures forall rcpt :: rcpt in AllRcpts(metas) <==> AttachedRcpt(metas, rcpt)
  {
    if metas != [] {
      var init, last := metas[..|metas| - 1], metas[|metas| - 1];
      AllRcptsAre(init);
      hide AllRcpts;
      forall rcpt ensures AttachedRcpt(metas, rcpt) <==> AttachedRcpt(init, rcpt) || rcpt in last.rcpts {
        if AttachedRcpt(init, rcpt) {
          var m :| 0 <= m < |init| && rcpt in init[m].rcpts;
          assert rcpt in metas[m].rcpts;
        }
        if AttachedRcpt(metas, rcpt) {
          var m :| 0 <= m < |metas| && rcpt in metas[m].rcpts;
          assert m < |init| ==> rcpt in init[m].rcpts;
        }
        if rcpt in last.rcpts { assert rcpt in metas[|init|].rcpts; }
      }
    }
  }

  lemma {:induction false} AllSnoc(metas: seq<Container>, meta: Container)
    ensures AllInvs(metas + [meta]) == AllInvs(metas) + meta.invs
            && AllRcpts(metas + [meta]) == AllRcpts(metas) + meta.rcpts
  {
    assert (metas + [meta])[..|metas|] == metas;
  }

  // ----- what a link names

  /** One of some invocations, and none of its task after it. */
  ghost predicate LastIn(invs: seq<Invocation>, inv: Invocation) {
    exists i :: 0 <= i < |invs| && invs[i] == inv && forall j :: i < j < |invs| ==> invs[j].task != inv.task
  }

  ghost predicate NoneOf(meta: Container, task: Task) {
    forall inv :: inv in meta.invs ==> inv.task != task
  }

  /** An attached invocation is the last of its task: last in its container, and none in later ones. */
  ghost predicate LastAttached(metas: seq<Container>, inv: Invocation) {
    exists m :: 0 <= m < |metas| && LastIn(metas[m].invs, inv)
                && forall n :: m < n < |metas| ==> NoneOf(metas[n], inv.task)
  }

  /** A link names an attached invocation: as its own link, or as the task it is the last attached of. */
  ghost predicate NamedBy(metas: seq<Container>, link: Link, inv: Invocation) {
    (link == OfInvocation(inv) && Attached(metas, inv)) || (link == OfTask(inv.task) && LastAttached(metas, inv))
  }

  /** An accept's usable receipt names an attached invocation: as its location commitment, or as its PDP promise. */
  ghost predicate NamedIn(metas: seq<Container>, rcpt: Receipt, inv: Invocation) {
    && rcpt.out.AcceptOK? && rcpt.out.commitment.Some? && rcpt.out.pdp.Some?
    && (NamedBy(metas, rcpt.out.commitment.value, inv) || NamedBy(metas, rcpt.out.pdp.value, inv))
  }

  lemma {:induction false} LastIsMember(invs: seq<Invocation>, task: Link)
    ensures LastOfTask(invs, task).Some? ==>
              LastOfTask(invs, task).value in invs && TaskOf(LastOfTask(invs, task).value) == task
    ensures LastOfTask(invs, task).None? ==> forall inv :: inv in invs ==> TaskOf(inv) != task
  {
    if invs != [] {
      LastIsMember(invs[..|invs| - 1], task);
      assert invs == invs[..|invs| - 1] + [invs[|invs| - 1]];
    }
  }

  lemma {:induction false} LastInSnoc(invs: seq<Invocation>, x: Invocation, inv: Invocation)
    ensures LastIn(invs + [x], inv) <==> x == inv || (x.task != inv.task && LastIn(invs, inv))
  {
    var all := invs + [x];
    assert all[|invs|] == x;
    if x.task != inv.task && LastIn(invs, inv) {
      var i :| 0 <= i < |invs| && invs[i] == inv && forall j :: i < j < |invs| ==> invs[j].task != inv.task;
      assert all[i] == inv;
      forall j | i < j < |all| ensures all[j].task != inv.task { assert j < |invs| ==> all[j] == invs[j]; }
    }
    if x != inv && LastIn(all, inv) {
      var i :| 0 <= i < |all| && all[i] == inv && forall j :: i < j < |all| ==> all[j].task != inv.task;
      assert i < |invs| && invs[i] == inv;
      forall j | i < j < |invs| ensures invs[j].task != inv.task { assert invs[j] == all[j]; }
    }
  }

  lemma {:induction false} LastIsIn(invs: seq<Invocation>, inv: Invocation)
    ensures LastOfTask(invs, OfTask(inv.task)) == Some(inv) <==> LastIn(invs, inv)
  {
    if invs != [] {
      var init, last := invs[..|invs| - 1], invs[|invs| - 1];
      assert invs == init + [last];
      LastIsIn(init, inv);
      LastInSnoc(init, last, inv);
      hide LastIn;
    }
  }

  lemma {:induction false} LastAppend(a: seq<Invocation>, b: seq<Invocation>, task: Link)
    ensures LastOfTask(a + b, task) == if LastOfTask(b, task).Some? then LastOfTask(b, task) else LastOfTask(a, task)
  {
    if b == [] {
      assert a + b == a;
    } else {
      assert (a + b)[..|a + b| - 1] == a + b[..|b| - 1];
      LastAppend(a, b[..|b| - 1], task);
    }
  }

  lemma {:induction false} LastSnoc(metas: seq<Container>, meta: Container, inv: Invocation)
    ensures LastAttached(metas + [meta], inv)
            <==> LastIn(meta.invs, inv) || (NoneOf(meta, inv.task) && LastAttached(metas, inv))
  {
    hide LastIn, NoneOf;
    var all := metas + [meta];
    assert all[|metas|] == meta;
    if LastAttached(all, inv) {
      var m :| 0 <= m < |all| && LastIn(all[m].invs, inv)
               && forall n :: m < n < |all| ==> NoneOf(all[n], inv.task);
      if m < |metas| {
        assert NoneOf(all[|metas|], inv.task) && metas[m] == all[m];
        forall n | m < n < |metas| ensures NoneOf(metas[n], inv.task) { assert metas[n] == all[n]; }
      }
    }
    if NoneOf(meta, inv.task) && LastAttached(metas, inv) {
      var m :| 0 <= m < |metas| && LastIn(metas[m].invs, inv)
               && forall n :: m < n < |metas| ==> NoneOf(metas[n], inv.task);
      assert all[m] == metas[m];
      forall n | m < n < |all| ensures NoneOf(all[n], inv.task) { assert n < |metas| ==> all[n] == metas[n]; }
    }
  }

  lemma {:induction false} LastIs(metas: seq<Container>, inv: Invocation)
    ensures LastOfTask(AllInvs(metas), OfTask(inv.task)) == Some(inv) <==> LastAttached(metas, inv)
  {
    if metas != [] {
      var init, last := metas[..|metas| - 1], metas[|metas| - 1];
      var task := OfTask(inv.task);
      assert metas == init + [last];
      LastIs(init, inv);
      LastAppend(AllInvs(init), last.invs, task);
      LastIsMember(last.invs, task);
      LastIsIn(last.invs, inv);
      LastSnoc(init, last, inv);
      hide LastOfTask, LastAttached;
      if LastOfTask(last.invs, task).Some? {
        assert !NoneOf(last, inv.task);
      } else {
        assert NoneOf(last, inv.task) by {
          forall x | x in last.invs ensures x.task != inv.task { assert TaskOf(x) != task; }
        }
      }
    }
  }

  lemma {:induction false} LinkIs(metas: seq<Container>, link: Link, inv: Invocation)
    ensures LinkedTo(AllInvs(metas), link) == Some(inv) <==> NamedBy(metas, link, inv)
  {
    AllInvsAre(metas);
    LastIs(metas, inv);
    LastIsMember(AllInvs(metas), link);
    hide LastOfTask, LastAttached, AllInvs;
  }

  /** What an accept's receipt names is its commitment and its promise, and nothing else. */
  lemma {:induction false} NamesAre(metas: seq<Container>, rcpt: Receipt, inv: Invocation)
    ensures Names(AllInvs(metas), rcpt, inv) <==> NamedIn(metas, rcpt, inv)
  {
    hide NamedBy, LinkedTo, AllInvs;
    if rcpt.out.AcceptOK? && rcpt.out.commitment.Some? && rcpt.out.pdp.Some? {
      LinkIs(metas, rcpt.out.commitment.value, inv);
      LinkIs(metas, rcpt.out.pdp.value, inv);
      assert rcpt.out.commitment.value in AttachedLinks(rcpt) && rcpt.out.pdp.value in AttachedLinks(rcpt);
    }
  }
}
