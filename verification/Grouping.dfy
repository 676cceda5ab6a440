/**
 Pairing each accept with what the node attached to it. A node attaches location
 commitments and PDP promises to its response and not to a receipt, so an accept
 claims its own by the links its receipt names.
 */
module Grouping {
  import opened DiffLogs
  import opened Attachments
  import opened Tokens
  import opened Piri
  import opened Sequences

  /** An acceptance and what the node attached to it, or something no acceptance claimed. */
  datatype Acceptance = Acceptance(invs: seq<Invocation>, rcpts: seq<Receipt>)

  function RanBy(rcpts: seq<Receipt>, task: Link): seq<Receipt> {
    if rcpts == [] then []
    else
      var init, last := RanBy(rcpts[..|rcpts| - 1], task), rcpts[|rcpts| - 1];
      if last.ran == task then init + [last] else init
  }

  /** The results a node answered. */
  function Executed(results: seq<AcceptResult>): seq<AcceptResult> {
    if results == [] then []
    else
      var init, last := Executed(results[..|results| - 1]), results[|results| - 1];
      if last.rcpt.Some? then init + [last] else init
  }

  function InvRuns(groups: seq<Acceptance>): seq<seq<Invocation>> {
    seq(|groups|, k requires 0 <= k < |groups| => groups[k].invs)
  }

  function RcptRuns(groups: seq<Acceptance>): seq<seq<Receipt>> {
    seq(|groups|, k requires 0 <= k < |groups| => groups[k].rcpts)
  }

  /** The invocations of groups, without the accepts that head the first `heads` of them. */
  function Extras(groups: seq<Acceptance>, heads: nat): seq<Invocation> {
    Spares(InvRuns(groups), heads)
  }

  function ExtraRcpts(groups: seq<Acceptance>, heads: nat): seq<Receipt> {
    Spares(RcptRuns(groups), heads)
  }

  // ----- indexing what was attached

  lemma {:induction false} RanByMembers(rcpts: seq<Receipt>, task: Link)
    ensures forall r :: r in RanBy(rcpts, task) <==> r in rcpts && r.ran == task
  {
    if rcpts != [] {
      RanByMembers(rcpts[..|rcpts| - 1], task);
      assert rcpts == rcpts[..|rcpts| - 1] + [rcpts[|rcpts| - 1]];
    }
  }

  function Ran(byRan: map<Link, seq<Receipt>>, task: Link): seq<Receipt> {
    if task in byRan then byRan[task] else []
  }

  function TaskAt(byTask: map<Link, Invocation>, task: Link): Option<Invocation> {
    if task in byTask then Some(byTask[task]) else None
  }

  /** Indexes that say of every link what the attached tokens do. */
  ghost predicate Indexes(invs: seq<Invocation>, rcpts: seq<Receipt>, byLink: map<Link, Invocation>,
          byTask: map<Link, Invocation>, byRan: map<Link, seq<Receipt>>) {
    && (forall l :: TaskAt(byLink, l) == if l.OfInvocation? && l.inv in invs then Some(l.inv) else None)
    && (forall l :: TaskAt(byTask, l) == LastOfTask(invs, l))
    && (forall l :: Ran(byRan, l) == RanBy(rcpts, l))
  }

  lemma {:induction false} IndexInv(invs: seq<Invocation>, rcpts: seq<Receipt>, inv: Invocation,
          byLink: map<Link, Invocation>, byTask: map<Link, Invocation>, byRan: map<Link, seq<Receipt>>)
    requires Indexes(invs, rcpts, byLink, byTask, byRan)
    ensures Indexes(invs + [inv], rcpts, byLink[OfInvocation(inv) := inv], byTask[TaskOf(inv) := inv], byRan)
  {
    forall l ensures LastOfTask(invs + [inv], l) == if TaskOf(inv) == l then Some(inv) else LastOfTask(invs, l) {
      assert (invs + [inv])[..|invs|] == invs;
    }
    hide LastOfTask, RanBy;
    forall l
      ensures TaskAt(byTask[TaskOf(inv) := inv], l) == LastOfTask(invs + [inv], l)
    {
      assert TaskAt(byTask, l) == LastOfTask(invs, l);
    }
    forall l
      ensures TaskAt(byLink[OfInvocation(inv) := inv], l)
              == if l.OfInvocation? && l.inv in invs + [inv] then Some(l.inv) else None
    {
      assert TaskAt(byLink, l) == if l.OfInvocation? && l.inv in invs then Some(l.inv) else None;
    }
  }

  lemma {:induction false} IndexRcpt(invs: seq<Invocation>, rcpts: seq<Receipt>, rcpt: Receipt,
          byLink: map<Link, Invocation>, byTask: map<Link, Invocation>, byRan: map<Link, seq<Receipt>>)
    requires Indexes(invs, rcpts, byLink, byTask, byRan)
    ensures Indexes(invs, rcpts + [rcpt], byLink, byTask, byRan[rcpt.ran := Ran(byRan, rcpt.ran) + [rcpt]])
  {
    forall l ensures RanBy(rcpts + [rcpt], l) == if rcpt.ran == l then RanBy(rcpts, l) + [rcpt] else RanBy(rcpts, l) {
      assert (rcpts + [rcpt])[..|rcpts|] == rcpts;
    }
    hide LastOfTask, RanBy;
    forall l
      ensures Ran(byRan[rcpt.ran := Ran(byRan, rcpt.ran) + [rcpt]], l) == RanBy(rcpts + [rcpt], l)
    {
      assert Ran(byRan, l) == RanBy(rcpts, l);
    }
  }

  lemma {:induction false} IndexNothing(metas: seq<Container>)
    ensures Indexes(AllInvs(metas[..0]), AllRcpts(metas[..0]), map[], map[], map[])
  {
  }

  method IndexMetas(metas: seq<Container>)
      returns (byLink: map<Link, Invocation>, byTask: map<Link, Invocation>, byRan: map<Link, seq<Receipt>>)
    ensures Indexes(AllInvs(metas), AllRcpts(metas), byLink, byTask, byRan)
  {
    hide *;
    IndexNothing(metas);
    byLink, byTask, byRan := map[], map[], map[];
    for m := 0 to |metas|
      invariant Indexes(AllInvs(metas[..m]), AllRcpts(metas[..m]), byLink, byTask, byRan)
    {
      ghost var invs, rcpts := AllInvs(metas[..m]), AllRcpts(metas[..m]);
      var meta := metas[m];
      assert metas[..m + 1][..m] == metas[..m];
      assert invs + meta.invs[..0] == invs && rcpts + meta.rcpts[..0] == rcpts;
      for i := 0 to |meta.invs|
        invariant Indexes(invs + meta.invs[..i], rcpts, byLink, byTask, byRan)
      {
        assert invs + meta.invs[..i + 1] == invs + meta.invs[..i] + [meta.invs[i]];
        IndexInv(invs + meta.invs[..i], rcpts, meta.invs[i], byLink, byTask, byRan);
        byLink := byLink[OfInvocation(meta.invs[i]) := meta.invs[i]];
        byTask := byTask[TaskOf(meta.invs[i]) := meta.invs[i]];
      }
      assert meta.invs[..|meta.invs|] == meta.invs;
      for i := 0 to |meta.rcpts|
        invariant Indexes(invs + meta.invs, rcpts + meta.rcpts[..i], byLink, byTask, byRan)
      {
        assert rcpts + meta.rcpts[..i + 1] == rcpts + meta.rcpts[..i] + [meta.rcpts[i]];
        IndexRcpt(invs + meta.invs, rcpts + meta.rcpts[..i], meta.rcpts[i], byLink, byTask, byRan);
        byRan := byRan[meta.rcpts[i].ran := Ran(byRan, meta.rcpts[i].ran) + [meta.rcpts[i]]];
      }
      assert meta.rcpts[..|meta.rcpts|] == meta.rcpts;
      AllSnoc(metas[..m], meta);
      assert metas[..m + 1] == metas[..m] + [meta];
    }
    assert metas[..|metas|] == metas;
  }

  // ----- claiming

  function Members<T(==)>(s: seq<T>): set<T> {
    set x | x in s
  }

  lemma {:induction false} UniqueSnoc<T>(s: seq<T>, x: T)
    requires Unique(s) && x !in s
    ensures Unique(s + [x])
    ensures Members(s + [x]) == Members(s) + {x}
  {
  }

  lemma {:induction false} MembersAppend<T>(s: seq<T>, t: seq<T>)
    ensures Members(s + t) == Members(s) + Members(t)
  {
  }

  /** Two runs of tokens that share none are unique together. */
  lemma {:induction false} UniqueAppend<T>(s: seq<T>, t: seq<T>)
    requires Unique(s) && Unique(t) && Members(s) !! Members(t)
    ensures Unique(s + t) && Members(s + t) == Members(s) + Members(t)
  {
    forall i, j | 0 <= i < j < |s + t| ensures (s + t)[i] != (s + t)[j] {
      if i < |s| <= j { assert (s + t)[i] in Members(s) && (s + t)[j] in Members(t); }
    }
  }

  /** Claims those receipts that nothing claimed before. */
  method ClaimRcpts(candidates: seq<Receipt>, claimed: set<Receipt>) returns (rcpts: seq<Receipt>)
    ensures Unique(rcpts) && Members(rcpts) == Members(candidates) - claimed
  {
    rcpts := [];
    for i := 0 to |candidates|
      invariant Unique(rcpts) && Members(rcpts) == Members(candidates[..i]) - claimed
    {
      assert candidates[..i + 1] == candidates[..i] + [candidates[i]];
      if candidates[i] !in claimed && candidates[i] !in rcpts {
        UniqueSnoc(rcpts, candidates[i]);
        rcpts := rcpts + [candidates[i]];
      } else {
        assert candidates[i] in claimed || candidates[i] in Members(rcpts);
      }
    }
    assert candidates[..|candidates|] == candidates;
  }

  /** A receipt for a task of one of some invocations. */
  ghost predicate RanOneOf(xs: seq<Invocation>, r: Receipt) {
    exists x :: x in xs && r.ran == TaskOf(x)
  }

  /** What an accept's receipt claims of what its node attached. */
  ghost predicate Claims(invs: seq<Invocation>, rcpts: seq<Receipt>, rcpt: Receipt, claimedInvs: set<Invocation>,
          claimedRcpts: set<Receipt>, xs: seq<Invocation>, rs: seq<Receipt>)
  {
    && Unique(xs) && Members(xs) !! claimedInvs && Members(xs) <= Members(invs)
    && Unique(rs) && Members(rs) !! claimedRcpts && Members(rs) <= Members(rcpts)
    && (forall x :: x in xs ==> Names(invs, rcpt, x))
    && (forall r :: r in rs ==> RanOneOf(xs, r))
    && (forall x :: Names(invs, rcpt, x) ==> x in claimedInvs || x in xs)
    && (forall x, r :: x in xs && r in rcpts && r.ran == TaskOf(x) ==> r in claimedRcpts || r in rs)
  }

  /** Pairs an accept with what its receipt names, as far as nothing claimed it before. */
  method Claim(ghost invs: seq<Invocation>, ghost rcpts: seq<Receipt>, byLink: map<Link, Invocation>,
          byTask: map<Link, Invocation>, byRan: map<Link, seq<Receipt>>, rcpt: Receipt, claimedInvs: set<Invocation>,
          claimedRcpts: set<Receipt>)
      returns (xs: seq<Invocation>, rs: seq<Receipt>)
    requires Indexes(invs, rcpts, byLink, byTask, byRan)
    ensures Claims(invs, rcpts, rcpt, claimedInvs, claimedRcpts, xs, rs)
  {
    xs, rs := [], [];
    var links := AttachedLinks(rcpt);
    for i := 0 to |links|
      invariant Unique(xs) && Members(xs) !! claimedInvs && Members(xs) <= Members(invs)
      invariant Unique(rs) && Members(rs) !! claimedRcpts && Members(rs) <= Members(rcpts)
      invariant forall x :: x in xs ==> Names(invs, rcpt, x)
      invariant forall r :: r in rs ==> RanOneOf(xs, r)
      invariant forall x, r :: x in xs && r in rcpts && r.ran == TaskOf(x) ==> r in claimedRcpts || r in rs
      invariant forall l ::
                  l in links[..i] && LinkedTo(invs, l).Some? ==>
                    LinkedTo(invs, l).value in claimedInvs || LinkedTo(invs, l).value in xs
    {
      assert links[..i + 1] == links[..i] + [links[i]];
      var inv := TaskAt(byLink, links[i]);
      if inv.None? { inv := TaskAt(byTask, links[i]); }
      assert inv == LinkedTo(invs, links[i]);
      if inv.Some? && inv.value !in claimedInvs && inv.value !in xs {
        LastIsMember(invs, links[i]);
        assert Names(invs, rcpt, inv.value);
        UniqueSnoc(xs, inv.value);
        forall r | r in rs ensures RanOneOf(xs + [inv.value], r) {
          var x :| x in xs && r.ran == TaskOf(x);
          assert x in xs + [inv.value];
        }
        xs := xs + [inv.value];
        assert inv.value in xs;
        var more := ClaimRcpts(Ran(byRan, TaskOf(inv.value)), claimedRcpts + Members(rs));
        RanByMembers(rcpts, TaskOf(inv.value));
        forall r | r in more ensures RanOneOf(xs, r) { assert r in Members(more); }
        UniqueAppend(rs, more);
        rs := rs + more;
      }
    }
    assert links[..|links|] == links;
  }

  // ----- grouping

  lemma {:induction false} ExtrasSnoc(groups: seq<Acceptance>, g: Acceptance, heads: nat)
    ensures Extras(groups + [g], heads)
            == Extras(groups, heads) + if |groups| < heads && g.invs != [] then g.invs[1..] else g.invs
    ensures ExtraRcpts(groups + [g], heads)
            == ExtraRcpts(groups, heads) + if |groups| < heads && g.rcpts != [] then g.rcpts[1..] else g.rcpts
  {
    assert InvRuns(groups + [g]) == InvRuns(groups) + [g.invs];
    assert RcptRuns(groups + [g]) == RcptRuns(groups) + [g.rcpts];
    SparesSnoc(InvRuns(groups), g.invs, heads);
    SparesSnoc(RcptRuns(groups), g.rcpts, heads);
  }

  lemma {:induction false} ExecutedSnoc(results: seq<AcceptResult>, res: AcceptResult)
    ensures Executed(results + [res]) == if res.rcpt.Some? then Executed(results) + [res] else Executed(results)
  {
    assert (results + [res])[..|results|] == results;
  }

  lemma {:induction false} ExecutedGrows(results: seq<AcceptResult>, n: nat)
    requires n <= |results|
    ensures Executed(results[..n]) <= Executed(results)
    decreases |results| - n
  {
    if n < |results| {
      ExecutedGrows(results, n + 1);
      assert results[..n + 1] == results[..n] + [results[n]];
      ExecutedSnoc(results[..n], results[n]);
    } else {
      assert results[..n] == results;
    }
  }

  /** A group headed by an accept and its receipt. */
  ghost predicate Headed(g: Acceptance, res: AcceptResult) {
    && g.invs != [] && res.inv == Some(g.invs[0])
    && g.rcpts != [] && res.rcpt == Some(g.rcpts[0])
  }

  /** Everything a group adds to its accept is named by the accept's receipt, or is a receipt for what is. */
  ghost predicate Owns(invs: seq<Invocation>, g: Acceptance)
    requires g.invs != [] && g.rcpts != []
  {
    && (forall x :: x in g.invs[1..] ==> Names(invs, g.rcpts[0], x))
    && (forall r :: r in g.rcpts[1..] ==> RanOneOf(g.invs[1..], r))
  }

  /** Some accept up to the k-th has what the k-th names. */
  ghost predicate Taken(groups: seq<Acceptance>, k: nat, inv: Invocation)
    requires k < |groups|
  {
    exists j :: 0 <= j <= k && groups[j].invs != [] && inv in groups[j].invs[1..]
  }

  /**
   Groups headed by some accepts in order, each with what it names and no earlier one
   claimed; every other holds one token.
   */
  ghost predicate Paired(groups: seq<Acceptance>, executed: seq<AcceptResult>, invs: seq<Invocation>)
  {
    && |groups| >= |executed|
    && (forall k :: 0 <= k < |executed| ==> Headed(groups[k], executed[k]) && Owns(invs, groups[k]))
    && (forall k, inv :: 0 <= k < |executed| && Names(invs, groups[k].rcpts[0], inv) ==> Taken(groups, k, inv))
    && (forall k :: |executed| <= k < |groups| ==> |groups[k].invs| + |groups[k].rcpts| == 1)
  }

  ghost function HeadRcpts(executed: seq<AcceptResult>): set<Receipt> {
    set res | res in executed && res.rcpt.Some? :: res.rcpt.value
  }

  /** What claimed so far lies beyond the heads of the groups so far, each once. */
  ghost predicate Tracked(groups: seq<Acceptance>, executed: seq<AcceptResult>, heads: nat, invs: seq<Invocation>,
          rcpts: seq<Receipt>, claimedInvs: set<Invocation>, claimedRcpts: set<Receipt>)
  {
    && Unique(Extras(groups, heads)) && Members(Extras(groups, heads)) == claimedInvs && claimedInvs <= Members(invs)
    && Unique(ExtraRcpts(groups, heads)) && Members(ExtraRcpts(groups, heads)) <= Members(rcpts)
    && Members(ExtraRcpts(groups, heads)) + HeadRcpts(executed) == claimedRcpts
  }

  lemma {:induction false} TrackHead(groups: seq<Acceptance>, executed: seq<AcceptResult>, res: AcceptResult,
          heads: nat, invs: seq<Invocation>, rcpts: seq<Receipt>, claimedInvs: set<Invocation>,
          claimedRcpts: set<Receipt>, xs: seq<Invocation>, rs: seq<Receipt>)
    requires Tracked(groups, executed, heads, invs, rcpts, claimedInvs, claimedRcpts)
    requires |groups| < heads && res.inv.Some? && res.rcpt.Some?
    requires Claims(invs, rcpts, res.rcpt.value, claimedInvs, claimedRcpts + {res.rcpt.value}, xs, rs)
    ensures Tracked(groups + [Acceptance([res.inv.value] + xs, [res.rcpt.value] + rs)], executed + [res], heads, invs,
                    rcpts, claimedInvs + Members(xs), claimedRcpts + {res.rcpt.value} + Members(rs))
  {
    var g := Acceptance([res.inv.value] + xs, [res.rcpt.value] + rs);
    assert g.invs[1..] == xs && g.rcpts[1..] == rs;
    ExtrasSnoc(groups, g, heads);
    hide Extras, ExtraRcpts, Names;
    UniqueAppend(Extras(groups, heads), xs);
    UniqueAppend(ExtraRcpts(groups, heads), rs);
    assert HeadRcpts(executed + [res]) == HeadRcpts(executed) + {res.rcpt.value};
  }

  lemma {:induction false} PairHead(groups: seq<Acceptance>, executed: seq<AcceptResult>, res: AcceptResult, heads: nat,
          invs: seq<Invocation>, rcpts: seq<Receipt>, claimedInvs: set<Invocation>, claimedRcpts: set<Receipt>,
          xs: seq<Invocation>, rs: seq<Receipt>)
    requires Paired(groups, executed, invs) && |groups| == |executed| < heads && res.inv.Some? && res.rcpt.Some?
    requires Members(Extras(groups, heads)) == claimedInvs
    requires Claims(invs, rcpts, res.rcpt.value, claimedInvs, claimedRcpts, xs, rs)
    ensures Paired(groups + [Acceptance([res.inv.value] + xs, [res.rcpt.value] + rs)], executed + [res], invs)
  {
    var g := Acceptance([res.inv.value] + xs, [res.rcpt.value] + rs);
    var groups' := groups + [g];
    assert g.invs[1..] == xs && g.rcpts[1..] == rs;
    hide Names, RanOneOf;
    forall k, inv | 0 <= k <= |executed| && Names(invs, groups'[k].rcpts[0], inv) ensures Taken(groups', k, inv) {
      if k < |executed| {
        assert groups'[k] == groups[k] && Taken(groups, k, inv);
        var j :| 0 <= j <= k && groups[j].invs != [] && inv in groups[j].invs[1..];
        assert groups'[j] == groups[j];
      } else if inv in xs {
        assert groups'[k] == g;
      } else {
        assert inv in Members(Extras(groups, heads));
        var j := ExtraIsIn(groups, heads, inv);
        assert groups'[j] == groups[j];
      }
    }
    forall k | 0 <= k <= |executed| ensures Headed(groups'[k], (executed + [res])[k]) && Owns(invs, groups'[k]) {}
  }

  /** The k-th group is one of the first `heads` and adds an invocation to its accept. */
  ghost predicate Adds(groups: seq<Acceptance>, heads: nat, k: nat, x: Invocation)
    requires k < |groups|
  {
    k < heads && groups[k].invs != [] && x in groups[k].invs[1..]
  }

  /** What an accept adds has its attached receipts in that group or an earlier one. */
  ghost predicate Receipted(groups: seq<Acceptance>, heads: nat, rcpts: seq<Receipt>) {
    forall k, x, r :: 0 <= k < |groups| && Adds(groups, heads, k, x) && r in rcpts && r.ran == TaskOf(x) ==>
      Held(groups, k, r)
  }

  /** Some group up to the k-th has a receipt. */
  ghost predicate Held(groups: seq<Acceptance>, k: nat, r: Receipt)
    requires k < |groups|
  {
    exists j :: 0 <= j <= k && r in groups[j].rcpts
  }

  lemma {:induction false} HeldBefore(groups: seq<Acceptance>, executed: seq<AcceptResult>, heads: nat,
          invs: seq<Invocation>, rcpts: seq<Receipt>, claimedInvs: set<Invocation>, claimedRcpts: set<Receipt>,
          r: Receipt)
      returns (j: nat)
    requires Tracked(groups, executed, heads, invs, rcpts, claimedInvs, claimedRcpts) && r in claimedRcpts
    requires Paired(groups, executed, invs)
    ensures j < |groups| && r in groups[j].rcpts
  {
    if r in ExtraRcpts(groups, heads) {
      var p;
      j, p := SparePlace(RcptRuns(groups), heads, r);
    } else {
      var res :| res in executed && res.rcpt.Some? && res.rcpt.value == r;
      j :| 0 <= j < |executed| && executed[j] == res;
      assert Headed(groups[j], executed[j]);
    }
  }

  lemma {:induction false} ReceiptHead(groups: seq<Acceptance>, executed: seq<AcceptResult>, res: AcceptResult,
          heads: nat, invs: seq<Invocation>, rcpts: seq<Receipt>, claimedInvs: set<Invocation>,
          claimedRcpts: set<Receipt>, xs: seq<Invocation>, rs: seq<Receipt>)
    requires Tracked(groups, executed, heads, invs, rcpts, claimedInvs, claimedRcpts) && Paired(groups, executed, invs)
    requires |groups| < heads && res.inv.Some? && res.rcpt.Some? && Receipted(groups, heads, rcpts)
    requires Claims(invs, rcpts, res.rcpt.value, claimedInvs, claimedRcpts + {res.rcpt.value}, xs, rs)
    ensures Receipted(groups + [Acceptance([res.inv.value] + xs, [res.rcpt.value] + rs)], heads, rcpts)
  {
    hide Tracked, Paired, Names;
    var g := Acceptance([res.inv.value] + xs, [res.rcpt.value] + rs);
    var groups' := groups + [g];
    assert g.invs[1..] == xs;
    forall k, x, r | 0 <= k < |groups'| && Adds(groups', heads, k, x) && r in rcpts && r.ran == TaskOf(x)
      ensures Held(groups', k, r)
    {
      if k < |groups| {
        assert groups'[k] == groups[k] && Adds(groups, heads, k, x) && Held(groups, k, r);
        var j :| 0 <= j <= k && r in groups[j].rcpts;
        assert groups'[j] == groups[j];
      } else if r in claimedRcpts {
        var j := HeldBefore(groups, executed, heads, invs, rcpts, claimedInvs, claimedRcpts, r);
        assert groups'[j] == groups[j];
      } else {
        assert groups'[k] == g && r in g.rcpts;
      }
    }
  }

  lemma {:induction false} ReceiptedOn(first: seq<Acceptance>, groups: seq<Acceptance>, heads: nat, rcpts: seq<Receipt>)
    requires first <= groups && heads <= |first| && Receipted(first, heads, rcpts)
    ensures Receipted(groups, heads, rcpts)
  {
    forall k, x, r | 0 <= k < |groups| && Adds(groups, heads, k, x) && r in rcpts && r.ran == TaskOf(x)
      ensures Held(groups, k, r)
    {
      assert groups[k] == first[k] && Adds(first, heads, k, x) && Held(first, k, r);
      var j :| 0 <= j <= k && r in first[j].rcpts;
      assert groups[j] == first[j];
    }
  }

  lemma {:induction false} ExtraIsIn(groups: seq<Acceptance>, heads: nat, inv: Invocation) returns (j: nat)
    requires inv in Extras(groups, heads)
    ensures j < |groups| && inv in groups[j].invs
    ensures j < heads ==> inv in groups[j].invs[1..]
  {
    var p;
    j, p := SparePlace(InvRuns(groups), heads, inv);
    assert j < heads ==> groups[j].invs[1..][p - 1] == inv;
  }

  /** Keeping something no acceptance claimed. */
  lemma {:induction false} TrackRest(groups: seq<Acceptance>, executed: seq<AcceptResult>, heads: nat,
          invs: seq<Invocation>, rcpts: seq<Receipt>, claimedInvs: set<Invocation>, claimedRcpts: set<Receipt>,
          g: Acceptance)
    requires Tracked(groups, executed, heads, invs, rcpts, claimedInvs, claimedRcpts) && |groups| >= heads
    requires (|g.invs| == 1 && g.rcpts == [] && g.invs[0] in invs && g.invs[0] !in claimedInvs)
             || (g.invs == [] && |g.rcpts| == 1 && g.rcpts[0] in rcpts && g.rcpts[0] !in claimedRcpts)
    ensures Tracked(groups + [g], executed, heads, invs, rcpts, claimedInvs + Members(g.invs),
                    claimedRcpts + Members(g.rcpts))
  {
    ExtrasSnoc(groups, g, heads);
    hide Extras, ExtraRcpts;
    UniqueAppend(Extras(groups, heads), g.invs);
    UniqueAppend(ExtraRcpts(groups, heads), g.rcpts);
  }

  lemma {:induction false} PairRest(groups: seq<Acceptance>, executed: seq<AcceptResult>, invs: seq<Invocation>,
          g: Acceptance)
    requires Paired(groups, executed, invs) && |g.invs| + |g.rcpts| == 1
    ensures Paired(groups + [g], executed, invs)
  {
    hide Names;
    forall k, inv | 0 <= k < |executed| && Names(invs, (groups + [g])[k].rcpts[0], inv)
      ensures Taken(groups + [g], k, inv)
    {
      assert (groups + [g])[k] == groups[k] && Taken(groups, k, inv);
      var j :| 0 <= j <= k && groups[j].invs != [] && inv in groups[j].invs[1..];
      assert (groups + [g])[j] == groups[j];
    }
    forall k | 0 <= k < |executed| ensures Headed((groups + [g])[k], executed[k]) && Owns(invs, (groups + [g])[k]) {
      assert (groups + [g])[k] == groups[k];
    }
  }

  /** The accepts a node answered head the first groups, in order. */
  method GroupExecuted(results: seq<AcceptResult>, ghost invs: seq<Invocation>, ghost rcpts: seq<Receipt>,
                       byLink: map<Link, Invocation>, byTask: map<Link, Invocation>, byRan: map<Link, seq<Receipt>>)
      returns (groups: seq<Acceptance>, claimedInvs: set<Invocation>, claimedRcpts: set<Receipt>)
    requires Indexes(invs, rcpts, byLink, byTask, byRan)
    requires forall res :: res in results && res.rcpt.Some? ==> res.inv.Some?
    ensures |groups| == |Executed(results)| && Paired(groups, Executed(results), invs)
    ensures Tracked(groups, Executed(results), |Executed(results)|, invs, rcpts, claimedInvs, claimedRcpts)
    ensures Receipted(groups, |Executed(results)|, rcpts)
  {
    groups, claimedInvs, claimedRcpts := [], {}, {};
    ghost var heads := |Executed(results)|;
    for i := 0 to |results|
      invariant |groups| == |Executed(results[..i])| && Paired(groups, Executed(results[..i]), invs)
      invariant Tracked(groups, Executed(results[..i]), heads, invs, rcpts, claimedInvs, claimedRcpts)
      invariant Receipted(groups, heads, rcpts)
    {
      var res := results[i];
      assert results[..i + 1] == results[..i] + [res];
      ExecutedSnoc(results[..i], res);
      ExecutedGrows(results, i + 1);
      hide Tracked, Paired, Receipted, Claims, Executed, Indexes;
      if res.rcpt.Some? {
        var xs, rs := Claim(invs, rcpts, byLink, byTask, byRan, res.rcpt.value, claimedInvs,
                            claimedRcpts + {res.rcpt.value});
        TrackedSet(groups, Executed(results[..i]), heads, invs, rcpts, claimedInvs, claimedRcpts);
        TrackHead(groups, Executed(results[..i]), res, heads, invs, rcpts, claimedInvs, claimedRcpts, xs, rs);
        ReceiptHead(groups, Executed(results[..i]), res, heads, invs, rcpts, claimedInvs, claimedRcpts, xs, rs);
        PairHead(groups, Executed(results[..i]), res, heads, invs, rcpts, claimedInvs, claimedRcpts + {res.rcpt.value},
                 xs, rs);
        groups := groups + [Acceptance([res.inv.value] + xs, [res.rcpt.value] + rs)];
        claimedInvs, claimedRcpts := claimedInvs + Members(xs), claimedRcpts + {res.rcpt.value} + Members(rs);
      }
    }
    assert results[..|results|] == results;
  }

  lemma {:induction false} TrackedSet(groups: seq<Acceptance>, executed: seq<AcceptResult>, heads: nat,
          invs: seq<Invocation>, rcpts: seq<Receipt>, claimedInvs: set<Invocation>, claimedRcpts: set<Receipt>)
    requires Tracked(groups, executed, heads, invs, rcpts, claimedInvs, claimedRcpts)
    ensures Members(Extras(groups, heads)) == claimedInvs
  {
  }

  // ----- the grouping, in terms of the answers and the containers alone

  /** The answered results, in order. */
  ghost predicate AnsweredAt(idx: seq<nat>, results: seq<AcceptResult>) {
    PlacesOf(idx, |results|) && forall i :: 0 <= i < |results| ==> (i in idx <==> results[i].rcpt.Some?)
  }

  /** All that a group has beside its accept is named by the accept's receipt, or is a receipt for what is. */
  ghost predicate OnlyNamed(metas: seq<Container>, g: Acceptance)
    requires g.invs != [] && g.rcpts != []
  {
    && (forall x :: x in g.invs[1..] ==> NamedIn(metas, g.rcpts[0], x))
    && (forall r :: r in g.rcpts[1..] ==> RanOneOf(g.invs[1..], r))
  }

  /**
   The answered accepts head the first groups, in order, each with what its receipt
   names and no earlier one took, and with the receipts for that; every other group
   holds one token.
   */
  ghost predicate Grouped(groups: seq<Acceptance>, idx: seq<nat>, results: seq<AcceptResult>, metas: seq<Container>) {
    && AnsweredAt(idx, results) && |idx| <= |groups|
    && (forall k :: 0 <= k < |idx| ==> Headed(groups[k], results[idx[k]]) && OnlyNamed(metas, groups[k]))
    && (forall k, inv :: 0 <= k < |idx| && NamedIn(metas, groups[k].rcpts[0], inv) ==> Taken(groups, k, inv))
    && (forall k, x, r ::
          0 <= k < |idx| && Adds(groups, |idx|, k, x) && AttachedRcpt(metas, r) && r.ran == TaskOf(x) ==>
            Held(groups, k, r))
    && (forall k :: |idx| <= k < |groups| ==> |groups[k].invs| + |groups[k].rcpts| == 1)
  }

  /** Beyond the heads, what was attached is there once and nothing else is; a receipt may instead be a head. */
  ghost predicate Conserved(groups: seq<Acceptance>, heads: nat, metas: seq<Container>) {
    && Once(InvRuns(groups), heads) && Once(RcptRuns(groups), heads)
    && (forall inv :: Attached(metas, inv) <==> Holds(InvRuns(groups), heads, inv))
    && (forall r :: Holds(RcptRuns(groups), heads, r) ==> AttachedRcpt(metas, r))
    && (forall r :: AttachedRcpt(metas, r) ==> Holds(RcptRuns(groups), heads, r) || Heads(groups, heads, r))
  }

  ghost predicate Heads(groups: seq<Acceptance>, heads: nat, r: Receipt) {
    exists k :: 0 <= k < |groups| && k < heads && groups[k].rcpts != [] && groups[k].rcpts[0] == r
  }

  /** Groups of a node's results with all it attached, nothing lost and nothing repeated. */
  ghost predicate Arranged(groups: seq<Acceptance>, results: seq<AcceptResult>, metas: seq<Container>) {
    exists idx :: Grouped(groups, idx, results, metas) && Conserved(groups, |idx|, metas)
  }

  lemma {:induction false} GroupedAt(groups: seq<Acceptance>, idx: seq<nat>, results: seq<AcceptResult>,
          metas: seq<Container>, k: nat)
    requires Grouped(groups, idx, results, metas) && k < |idx|
    ensures idx[k] < |results| && k < |groups| && Headed(groups[k], results[idx[k]]) && OnlyNamed(metas, groups[k])
    ensures forall inv :: NamedIn(metas, groups[k].rcpts[0], inv) ==> Taken(groups, k, inv)
  {
    hide NamedIn, Taken, Held, AttachedRcpt, Adds, OnlyNamed;
  }

  lemma {:induction false} AnsweredHas(idx: seq<nat>, results: seq<AcceptResult>, i: nat) returns (k: nat)
    requires AnsweredAt(idx, results) && i < |results| && results[i].rcpt.Some?
    ensures k < |idx| && idx[k] == i
  {
    assert i in idx;
    k :| 0 <= k < |idx| && idx[k] == i;
  }

  /** An answered accept's receipt is in some group. */
  lemma {:induction false} ReceiptGrouped(groups: seq<Acceptance>, results: seq<AcceptResult>, metas: seq<Container>,
          i: nat)
      returns (k: nat)
    requires Arranged(groups, results, metas) && i < |results| && results[i].rcpt.Some?
    ensures k < |groups| && results[i].rcpt.value in groups[k].rcpts
  {
    hide Conserved;
    var idx :| Grouped(groups, idx, results, metas) && Conserved(groups, |idx|, metas);
    assert AnsweredAt(idx, results);
    hide Grouped, NamedIn, Taken, OnlyNamed;
    k := AnsweredHas(idx, results, i);
    GroupedAt(groups, idx, results, metas, k);
    assert results[i].rcpt.value == groups[k].rcpts[0];
  }

  /** Every attached invocation is in some group. */
  lemma {:induction false} AttachedGrouped(groups: seq<Acceptance>, results: seq<AcceptResult>, metas: seq<Container>,
          inv: Invocation)
      returns (k: nat)
    requires Arranged(groups, results, metas) && Attached(metas, inv)
    ensures k < |groups| && inv in groups[k].invs
  {
    hide Grouped, Attached, AttachedRcpt, Once, RcptRuns, Heads;
    var idx :| Grouped(groups, idx, results, metas) && Conserved(groups, |idx|, metas);
    assert Holds(InvRuns(groups), |idx|, inv);
    hide Conserved;
    var j, p :| Spare(InvRuns(groups), |idx|, j, p) && InvRuns(groups)[j][p] == inv;
    k := j;
  }

  lemma {:induction false} ExecutedAre(results: seq<AcceptResult>) returns (idx: seq<nat>)
    ensures AnsweredAt(idx, results) && |idx| == |Executed(results)|
    ensures forall a :: 0 <= a < |idx| ==> Executed(results)[a] == results[idx[a]]
  {
    if results == [] {
      idx := [];
    } else {
      var n := |results| - 1;
      idx := ExecutedAre(results[..n]);
      PlacesSnoc(idx, n);
      if results[n].rcpt.Some? { idx := idx + [n]; }
    }
  }

  lemma {:induction false} PairedIsGrouped(groups: seq<Acceptance>, results: seq<AcceptResult>, metas: seq<Container>)
      returns (idx: seq<nat>)
    requires Paired(groups, Executed(results), AllInvs(metas))
    requires Receipted(groups, |Executed(results)|, AllRcpts(metas))
    ensures Grouped(groups, idx, results, metas) && |idx| == |Executed(results)|
  {
    hide Names, NamedIn, AllInvs, AllRcpts, Executed, Taken, Held, RanOneOf;
    idx := ExecutedAre(results);
    AllRcptsAre(metas);
    forall rcpt, inv ensures Names(AllInvs(metas), rcpt, inv) <==> NamedIn(metas, rcpt, inv) {
      NamesAre(metas, rcpt, inv);
    }
  }

  lemma {:induction false} TrackedIsConserved(groups: seq<Acceptance>, executed: seq<AcceptResult>,
          metas: seq<Container>, claimedInvs: set<Invocation>, claimedRcpts: set<Receipt>)
    requires Paired(groups, executed, AllInvs(metas))
    requires Tracked(groups, executed, |executed|, AllInvs(metas), AllRcpts(metas), claimedInvs, claimedRcpts)
    requires Members(AllInvs(metas)) <= claimedInvs && Members(AllRcpts(metas)) <= claimedRcpts
    ensures Conserved(groups, |executed|, metas)
  {
    AllInvsAre(metas);
    AllRcptsAre(metas);
    SparesAre(InvRuns(groups), |executed|);
    SparesAre(RcptRuns(groups), |executed|);
    hide Spares, Holds, Once, Attached, AttachedRcpt, InvRuns, RcptRuns, AllInvs, AllRcpts;
    forall inv ensures Attached(metas, inv) <==> Holds(InvRuns(groups), |executed|, inv) {
      assert inv in Members(AllInvs(metas)) <==> inv in Members(Extras(groups, |executed|));
    }
    forall r | Holds(RcptRuns(groups), |executed|, r) ensures AttachedRcpt(metas, r) {
      assert r in Members(ExtraRcpts(groups, |executed|));
      assert r in Members(AllRcpts(metas));
    }
    forall r | AttachedRcpt(metas, r) ensures Holds(RcptRuns(groups), |executed|, r) || Heads(groups, |executed|, r) {
      assert r in Members(AllRcpts(metas));
      if r !in Members(ExtraRcpts(groups, |executed|)) {
        var res :| res in executed && res.rcpt.Some? && res.rcpt.value == r;
        var k :| 0 <= k < |executed| && executed[k] == res;
        assert Headed(groups[k], executed[k]);
      }
    }
  }

  /**
   Groups accepts with what their node attached: every answered accept and its
   receipt head a group of their own, in order, with what the receipt names, and
   beyond those heads every attached invocation is in exactly one group and every
   attached receipt in one, unless it heads one.
   */
  method GroupAcceptances(results: seq<AcceptResult>, metas: seq<Container>)
      returns (groups: seq<Acceptance>, ghost idx: seq<nat>)
    requires forall res :: res in results && res.rcpt.Some? ==> res.inv.Some?
    ensures Grouped(groups, idx, results, metas)
    ensures Conserved(groups, |idx|, metas)
  {
    ghost var invs, rcpts, executed := AllInvs(metas), AllRcpts(metas), Executed(results);
    ghost var heads := |executed|;
    var byLink, byTask, byRan := IndexMetas(metas);
    var claimedInvs, claimedRcpts;
    groups, claimedInvs, claimedRcpts := GroupExecuted(results, invs, rcpts, byLink, byTask, byRan);
    hide *;
    ghost var first := groups;
    groups, claimedInvs, claimedRcpts := KeepRest(groups, metas, executed, claimedInvs, claimedRcpts);
    ReceiptedOn(first, groups, heads, rcpts);
    idx := AllGrouped(groups, results, metas, claimedInvs, claimedRcpts);
  }

  lemma {:induction false} NothingAttached(metas: seq<Container>)
    ensures Members(AllInvs(metas[..0])) == {} && Members(AllRcpts(metas[..0])) == {}
  {
  }

  /** Keeps what no accept claimed, container by container. */
  method KeepRest(groups: seq<Acceptance>, metas: seq<Container>, ghost executed: seq<AcceptResult>,
          claimedInvs: set<Invocation>, claimedRcpts: set<Receipt>)
      returns (kept: seq<Acceptance>, keptInvs: set<Invocation>, keptRcpts: set<Receipt>)
    requires |groups| >= |executed| && Paired(groups, executed, AllInvs(metas))
    requires Tracked(groups, executed, |executed|, AllInvs(metas), AllRcpts(metas), claimedInvs, claimedRcpts)
    ensures groups <= kept && Paired(kept, executed, AllInvs(metas))
    ensures Tracked(kept, executed, |executed|, AllInvs(metas), AllRcpts(metas), keptInvs, keptRcpts)
    ensures Members(AllInvs(metas)) <= keptInvs && Members(AllRcpts(metas)) <= keptRcpts
  {
    ghost var invs, rcpts := AllInvs(metas), AllRcpts(metas);
    hide *;
    NothingAttached(metas);
    kept, keptInvs, keptRcpts := groups, claimedInvs, claimedRcpts;
    for m := 0 to |metas|
      invariant groups <= kept && Paired(kept, executed, invs)
      invariant Tracked(kept, executed, |executed|, invs, rcpts, keptInvs, keptRcpts)
      invariant Members(AllInvs(metas[..m])) <= keptInvs && Members(AllRcpts(metas[..m])) <= keptRcpts
    {
      var meta := metas[m];
      assert metas[..m + 1] == metas[..m] + [meta];
      AllSnoc(metas[..m], meta);
      MembersAppend(AllInvs(metas[..m]), meta.invs);
      MembersAppend(AllRcpts(metas[..m]), meta.rcpts);
      PartOfAll(metas, m);
      kept, keptInvs := KeepInvs(kept, meta.invs, keptInvs, executed, |executed|, invs, rcpts, keptRcpts);
      kept, keptRcpts := KeepRcpts(kept, meta.rcpts, keptRcpts, executed, |executed|, invs, rcpts, keptInvs);
    }
    assert metas[..|metas|] == metas;
  }

  lemma {:induction false} AllGrouped(groups: seq<Acceptance>, results: seq<AcceptResult>, metas: seq<Container>,
          claimedInvs: set<Invocation>, claimedRcpts: set<Receipt>)
      returns (idx: seq<nat>)
    requires Paired(groups, Executed(results), AllInvs(metas))
    requires Receipted(groups, |Executed(results)|, AllRcpts(metas))
    requires Tracked(groups, Executed(results), |Executed(results)|, AllInvs(metas), AllRcpts(metas), claimedInvs,
                     claimedRcpts)
    requires Members(AllInvs(metas)) <= claimedInvs && Members(AllRcpts(metas)) <= claimedRcpts
    ensures Grouped(groups, idx, results, metas) && Conserved(groups, |idx|, metas)
  {
    hide *;
    idx := PairedIsGrouped(groups, results, metas);
    TrackedIsConserved(groups, Executed(results), metas, claimedInvs, claimedRcpts);
  }

  lemma {:induction false} PartOfAll(metas: seq<Container>, m: nat)
    requires m < |metas|
    ensures Members(metas[m].invs) <= Members(AllInvs(metas)) && Members(metas[m].rcpts) <= Members(AllRcpts(metas))
  {
    if m < |metas| - 1 { PartOfAll(metas[..|metas| - 1], m); }
  }

  /** Keeps each invocation nothing claimed as a group of its own. */
  method KeepInvs(groups: seq<Acceptance>, attached: seq<Invocation>, claimedInvs: set<Invocation>,
          ghost executed: seq<AcceptResult>, ghost heads: nat, ghost invs: seq<Invocation>, ghost rcpts: seq<Receipt>,
          ghost claimedRcpts: set<Receipt>)
      returns (kept: seq<Acceptance>, claimed: set<Invocation>)
    requires |groups| >= heads && Paired(groups, executed, invs)
             && Tracked(groups, executed, heads, invs, rcpts, claimedInvs, claimedRcpts)
    requires Members(attached) <= Members(invs)
    ensures |kept| >= heads && Paired(kept, executed, invs)
            && Tracked(kept, executed, heads, invs, rcpts, claimed, claimedRcpts)
    ensures groups <= kept
    ensures claimed == claimedInvs + Members(attached)
  {
    hide Paired, Tracked;
    kept, claimed := groups, claimedInvs;
    for i := 0 to |attached|
      invariant |kept| >= heads && Paired(kept, executed, invs)
                && Tracked(kept, executed, heads, invs, rcpts, claimed, claimedRcpts)
      invariant groups <= kept && claimed == claimedInvs + Members(attached[..i])
    {
      assert attached[..i + 1] == attached[..i] + [attached[i]];
      if attached[i] !in claimed {
        assert attached[i] in Members(invs);
        var g := Acceptance([attached[i]], []);
        TrackRest(kept, executed, heads, invs, rcpts, claimed, claimedRcpts, g);
        PairRest(kept, executed, invs, g);
        assert claimedRcpts + Members(g.rcpts) == claimedRcpts;
        kept, claimed := kept + [g], claimed + {attached[i]};
        assert claimed == claimed - {attached[i]} + Members(g.invs);
      }
    }
    assert attached[..|attached|] == attached;
  }

  /** Keeps each receipt nothing claimed as a group of its own. */
  method KeepRcpts(groups: seq<Acceptance>, attached: seq<Receipt>, claimedRcpts: set<Receipt>,
          ghost executed: seq<AcceptResult>, ghost heads: nat, ghost invs: seq<Invocation>, ghost rcpts: seq<Receipt>,
          ghost claimedInvs: set<Invocation>)
      returns (kept: seq<Acceptance>, claimed: set<Receipt>)
    requires |groups| >= heads && Paired(groups, executed, invs)
             && Tracked(groups, executed, heads, invs, rcpts, claimedInvs, claimedRcpts)
    requires Members(attached) <= Members(rcpts)
    ensures |kept| >= heads && Paired(kept, executed, invs)
            && Tracked(kept, executed, heads, invs, rcpts, claimedInvs, claimed)
    ensures groups <= kept
    ensures claimed == claimedRcpts + Members(attached)
  {
    hide Paired, Tracked;
    kept, claimed := groups, claimedRcpts;
    for i := 0 to |attached|
      invariant |kept| >= heads && Paired(kept, executed, invs)
                && Tracked(kept, executed, heads, invs, rcpts, claimedInvs, claimed)
      invariant groups <= kept && claimed == claimedRcpts + Members(attached[..i])
    {
      assert attached[..i + 1] == attached[..i] + [attached[i]];
      if attached[i] !in claimed {
        assert attached[i] in Members(rcpts);
        var g := Acceptance([], [attached[i]]);
        TrackRest(kept, executed, heads, invs, rcpts, claimedInvs, claimed, g);
        PairRest(kept, executed, invs, g);
        assert claimedInvs + Members(g.invs) == claimedInvs;
        kept, claimed := kept + [g], claimed + {attached[i]};
        assert claimed == claimed - {attached[i]} + Members(g.rcpts);
      }
    }
    assert attached[..|attached|] == attached;
  }
}
