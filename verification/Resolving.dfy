/**
 Delivered puts resolved to the allocations they fulfil: failed puts are dropped, and
 the allocations of the rest are fetched at once.
 */
module Resolving {
  import opened DiffLogs
  import opened Sequences
  import opened Tokens
  import opened AgentStore
  import opened Piri
  import opened Deliveries
  import opened Protocol

  /** The digest a put receipt reports, if it is one of the hash function. */
  function PutDigest(rcpt: Receipt, code: nat): Option<Digest> {
    if rcpt.out.PutOK? && rcpt.out.reported.Reports? && rcpt.out.reported.digest.code == code
    then Some(rcpt.out.reported.digest) else None
  }

  /** What becomes of a delivered put: the conclusion fails, the put is skipped, or it is resolved. */
  datatype Resolution = Broken | Skipped | Resolved(put: ConcludedPut)

  function Request(alloc: Invocation, c: Conclusion): AcceptRequest
    requires alloc.task.args.AllocateArgs?
  {
    AcceptRequest(alloc.task.args.space, alloc.task.args.blob, TaskOf(c.inv), Some(c.inv), Some(c.rcpt))
  }

  function ResolvePut(log: seq<Container>, c: Conclusion): Resolution {
    if !c.inv.task.args.PutArgs? then Broken
    else
      match FirstInvocation(log, c.inv.task.args.destination)
      case None => Broken
      case Some(alloc) =>
        if !alloc.task.args.AllocateArgs? then Broken
        else
          var args := alloc.task.args;
          var digest := if args.blob.Hashed? then Some(args.blob.digest) else PutDigest(c.rcpt, args.blob.code);
          if digest.None? then Skipped
          else
            Resolved(ConcludedPut(alloc.task.subject, BlobKey(args.space, digest.value),
                                  Registration(args.blob.size, args.cause), Request(alloc, c)))
  }

  /** The puts of some conclusions, in order; none when one of them is broken. */
  function ResolveAll(log: seq<Container>, cs: seq<Conclusion>): Option<seq<ConcludedPut>> {
    if cs == [] then Some([])
    else
      var init, last := ResolveAll(log, cs[..|cs| - 1]), ResolvePut(log, cs[|cs| - 1]);
      if init.None? || last.Broken? then None
      else if last.Skipped? then init
      else Some(init.value + [last.put])
  }

  lemma {:induction false} FoundRecorded(log: seq<Container>, task: Link)
    ensures FirstInvocation(log, task).Some? ==>
              Recorded(log, FirstInvocation(log, task).value) && TaskOf(FirstInvocation(log, task).value) == task
  {
    FirstFound(log, task);
    hide FirstInvocation, InvocationIn, FirstReceipt, ReceiptIn;
    if FirstInvocation(log, task).Some? {
      var m :| m in log && FirstInvocation(log, task) == InvocationIn(m.invs, task);
      InvocationFound(m.invs, task);
    }
  }

  /** A resolved put has its allocation on record, and carries the evidence its node may need. */
  lemma {:induction false} ResolveGrounds(log: seq<Container>, c: Conclusion)
    ensures ResolvePut(log, c).Resolved? ==>
              Grounded(log, ResolvePut(log, c).put) && !LacksEvidence(ResolvePut(log, c).put.req)
  {
    if ResolvePut(log, c).Resolved? {
      var task := c.inv.task.args.destination;
      FoundRecorded(log, task);
      hide FirstInvocation, Recorded;
      var alloc := FirstInvocation(log, task).value;
      assert Recorded(log, alloc) && Fulfils(alloc, ResolvePut(log, c).put);
    }
  }

  /**
   An allocation on record fulfils a resolved put exactly when the put names an allocate
   task as its destination: nothing else looks at the command.
   */
  lemma {:induction false} ResolvedByAllocation(log: seq<Container>, c: Conclusion)
    requires ResolvePut(log, c).Resolved?
    ensures var put := ResolvePut(log, c).put;
            (exists alloc :: Recorded(log, alloc) && Fulfils(alloc, put) && alloc.task.command == Allocate)
            <==> Addressed(c)
  {
    ResolveGrounds(log, c);
    var p := ResolvePut(log, c).put;
    assert Directed(p) <==> Addressed(c);
    hide FirstInvocation, ResolvePut, Fulfils, Directed;
    var alloc :| Recorded(log, alloc) && Fulfils(alloc, p);
    forall inv | Recorded(log, inv) && Fulfils(inv, p)
      ensures inv.task.command == Allocate <==> Directed(p)
    {
      FulfilledBy(inv, p);
    }
  }

  /** Whether a delivered put names an allocate task as its destination. */
  predicate Addressed(c: Conclusion) {
    && c.inv.task.args.PutArgs? && c.inv.task.args.destination.OfTask?
    && c.inv.task.args.destination.task.command == Allocate
  }

  lemma {:induction false} AllGrounded(log: seq<Container>, cs: seq<Conclusion>)
    ensures ResolveAll(log, cs).Some? ==>
              forall p :: p in ResolveAll(log, cs).value ==> Grounded(log, p) && !LacksEvidence(p.req)
    ensures ResolveAll(log, cs).Some? && (forall c :: c in cs ==> Addressed(c)) ==>
              AllDirected(ResolveAll(log, cs).value)
  {
    if cs != [] {
      AllGrounded(log, cs[..|cs| - 1]);
      ResolveGrounds(log, cs[|cs| - 1]);
      assert cs[|cs| - 1] in cs && forall c :: c in cs[..|cs| - 1] ==> c in cs;
      hide Grounded, LacksEvidence;
    }
  }

  lemma {:induction false} OneBroken(log: seq<Container>, cs: seq<Conclusion>, i: nat)
    requires i < |cs| && ResolvePut(log, cs[i]).Broken?
    ensures ResolveAll(log, cs).None?
  {
    if i < |cs| - 1 { OneBroken(log, cs[..|cs| - 1], i); }
  }

  /** Resolves delivered puts, fetching every allocation at once. */
  method ResolveAllocations(agent: Memory, cs: seq<Conclusion>) returns (r: Option<seq<ConcludedPut>>)
    requires agent.Valid()
    ensures r == ResolveAll(agent.log, cs)
  {
    var tasks: seq<Link> := [];
    for i := 0 to |cs|
      invariant |tasks| == i
      invariant forall j :: 0 <= j < i ==> cs[j].inv.task.args.PutArgs? && tasks[j] == cs[j].inv.task.args.destination
    {
      if !cs[i].inv.task.args.PutArgs? {
        OneBroken(agent.log, cs, i);
        return None;
      }
      tasks := tasks + [cs[i].inv.task.args.destination];
    }
    var found := agent.GetInvocations(tasks);
    var puts: seq<ConcludedPut> := [];
    for i := 0 to |cs|
      invariant ResolveAll(agent.log, cs[..i]) == Some(puts)
    {
      var c := cs[i];
      assert cs[..i + 1][..i] == cs[..i];
      assert tasks[i] in tasks;
      if tasks[i] !in found || !found[tasks[i]].task.args.AllocateArgs? {
        OneBroken(agent.log, cs, i);
        return None;
      }
      var alloc := found[tasks[i]];
      var args := alloc.task.args;
      hide FirstInvocation;
      var digest := if args.blob.Hashed? then Some(args.blob.digest) else PutDigest(c.rcpt, args.blob.code);
      if digest.Some? {
        puts := puts + [ConcludedPut(alloc.task.subject, BlobKey(args.space, digest.value),
                                     Registration(args.blob.size, args.cause), Request(alloc, c))];
      }
    }
    assert cs[..|cs|] == cs;
    return Some(puts);
  }

  /** The conclusions of puts that did not fail. */
  function Succeeded(cs: seq<Conclusion>): seq<Conclusion> {
    if cs == [] then []
    else
      var init, last := Succeeded(cs[..|cs| - 1]), cs[|cs| - 1];
      if last.rcpt.out.Failure? then init else init + [last]
  }

  /** Puts with the node each went to. */
  function ByProvider(puts: seq<ConcludedPut>): seq<(Principal, ConcludedPut)> {
    seq(|puts|, i requires 0 <= i < |puts| => (puts[i].provider, puts[i]))
  }

  lemma {:induction false} OfProvider(puts: seq<ConcludedPut>, provider: Principal)
    ensures forall p :: p in Select(ByProvider(puts), provider) ==> p in puts && p.provider == provider
  {
    SelectFrom(ByProvider(puts), provider);
    forall p | (provider, p) in ByProvider(puts) ensures p in puts && p.provider == provider {
      var i :| 0 <= i < |puts| && ByProvider(puts)[i] == (provider, p);
    }
  }

  /** The delivered puts that did not fail. */
  method DropFailed(cs: seq<Conclusion>) returns (delivered: seq<Conclusion>)
    ensures delivered == Succeeded(cs) && forall c :: c in delivered ==> c in cs
  {
    delivered := [];
    for i := 0 to |cs|
      invariant delivered == Succeeded(cs[..i]) && forall c :: c in delivered ==> c in cs
    {
      assert cs[..i + 1][..i] == cs[..i];
      if cs[i].rcpt.out.Failure? { continue; }
      delivered := delivered + [cs[i]];
    }
    assert cs[..|cs|] == cs;
  }

  // ----- what is resolved, delivery by delivery

  /** What a resolved put is, in terms of the delivery and the allocation on record. */
  ghost predicate ResolvesTo(c: Conclusion, alloc: Invocation, p: ConcludedPut) {
    var args := alloc.task.args;
    && args.AllocateArgs? && p.provider == alloc.task.subject
    && p.key.space == args.space && p.reg == Registration(args.blob.size, args.cause)
    && p.req == AcceptRequest(args.space, args.blob, OfTask(c.inv.task), Some(c.inv), Some(c.rcpt))
    && (args.blob.Hashed? ==> p.key.digest == args.blob.digest)
    && (args.blob.Unhashed? ==> c.rcpt.out == PutOK(Reports(p.key.digest)) && p.key.digest.code == args.blob.code)
  }

  /** A put whose allocation cannot be found breaks the conclusion. */
  ghost predicate Breaks(log: seq<Container>, c: Conclusion) {
    c.inv.task.args.PutArgs? ==>
      FirstInvocation(log, c.inv.task.args.destination).None?
      || !FirstInvocation(log, c.inv.task.args.destination).value.task.args.AllocateArgs?
  }

  /** A put of an unhashed blob that reports no digest of its hash function is skipped; every other one resolves. */
  lemma {:induction false} ResolvesExactly(log: seq<Container>, c: Conclusion)
    ensures ResolvePut(log, c).Broken? <==> Breaks(log, c)
    ensures !Breaks(log, c) ==>
              var alloc := FirstInvocation(log, c.inv.task.args.destination).value;
              forall p :: ResolvePut(log, c) == Resolved(p) <==> ResolvesTo(c, alloc, p)
  {
    hide FirstInvocation;
  }

  /** The i-th delivery reports a put that did not fail and resolves. */
  ghost predicate KeptAt(log: seq<Container>, cs: seq<Conclusion>, i: int) {
    0 <= i < |cs| && !cs[i].rcpt.out.Failure? && ResolvePut(log, cs[i]).Resolved?
  }

  /** The places of the puts that are kept and went to one node, in order. */
  ghost predicate KeptFor(log: seq<Container>, cs: seq<Conclusion>, provider: Principal, idx: seq<nat>) {
    && PlacesOf(idx, |cs|)
    && forall i :: 0 <= i < |cs| ==>
         (i in idx <==> KeptAt(log, cs, i) && ResolvePut(log, cs[i]).put.provider == provider)
  }

  /** The i-th delivery reports a put that did not fail and whose allocation cannot be found. */
  ghost predicate BrokenAt(log: seq<Container>, cs: seq<Conclusion>, i: int) {
    0 <= i < |cs| && !cs[i].rcpt.out.Failure? && Breaks(log, cs[i])
  }

  /** The accepts some kept puts ask for. */
  ghost function RequestsAt(log: seq<Container>, cs: seq<Conclusion>, idx: seq<nat>): seq<AcceptRequest>
    requires forall a :: 0 <= a < |idx| ==> KeptAt(log, cs, idx[a])
  {
    seq(|idx|, a requires 0 <= a < |idx| && KeptAt(log, cs, idx[a]) => ResolvePut(log, cs[idx[a]]).put.req)
  }

  lemma {:induction false} KeptHold(log: seq<Container>, cs: seq<Conclusion>, provider: Principal, idx: seq<nat>)
    requires KeptFor(log, cs, provider, idx)
    ensures forall a :: 0 <= a < |idx| ==> KeptAt(log, cs, idx[a])
  {
    forall a | 0 <= a < |idx| ensures KeptAt(log, cs, idx[a]) { assert idx[a] in idx; }
  }

  /** One more delivery. */
  lemma {:induction false} ResolveMore(log: seq<Container>, init: seq<Conclusion>, last: Conclusion)
    ensures ResolveAll(log, Succeeded(init + [last]))
         == var was, r := ResolveAll(log, Succeeded(init)), ResolvePut(log, last);
            if last.rcpt.out.Failure? || (was.Some? && r.Skipped?) then was
            else if was.None? || r.Broken? then None
            else Some(was.value + [r.put])
  {
    assert (init + [last])[..|init|] == init;
    var some := Succeeded(init);
    assert (some + [last])[..|some|] == some;
    hide ResolvePut;
  }

  lemma {:induction false} BrokenNone(log: seq<Container>, cs: seq<Conclusion>)
    ensures ResolveAll(log, Succeeded(cs)).None? <==> exists i :: BrokenAt(log, cs, i)
  {
    if cs != [] {
      var n := |cs| - 1;
      var init, last := cs[..n], cs[n];
      assert cs == init + [last];
      BrokenNone(log, init);
      ResolvesExactly(log, last);
      ResolveMore(log, init, last);
      hide ResolvePut, ResolveAll, Succeeded, Breaks;
      assert BrokenAt(log, cs, n) <==> !last.rcpt.out.Failure? && Breaks(log, last);
      forall i ensures BrokenAt(log, cs, i) <==> BrokenAt(log, init, i) || (i == n && BrokenAt(log, cs, n)) {}
    }
  }

  /** Some puts are those of the deliveries at some places. */
  ghost predicate PutsAt(log: seq<Container>, cs: seq<Conclusion>, idx: seq<nat>, puts: seq<ConcludedPut>) {
    && |puts| == |idx|
    && forall a :: 0 <= a < |idx| ==> idx[a] < |cs| && Resolved(puts[a]) == ResolvePut(log, cs[idx[a]])
  }

  lemma {:induction false} KeptMore(log: seq<Container>, init: seq<Conclusion>, last: Conclusion, provider: Principal,
          idx: seq<nat>)
    requires KeptFor(log, init, provider, idx)
    ensures var r, n := ResolvePut(log, last), |init|;
            if !last.rcpt.out.Failure? && r.Resolved? && r.put.provider == provider
            then KeptFor(log, init + [last], provider, idx + [n])
            else KeptFor(log, init + [last], provider, idx)
  {
    hide ResolvePut;
    var cs := init + [last];
    PlacesSnoc(idx, |init|);
    forall i | 0 <= i < |init| ensures KeptAt(log, cs, i) <==> KeptAt(log, init, i) { assert cs[i] == init[i]; }
    assert cs[|init|] == last;
  }

  lemma {:induction false} KeptSnoc(log: seq<Container>, init: seq<Conclusion>, last: Conclusion, provider: Principal,
          idx: seq<nat>, puts: seq<ConcludedPut>)
    requires KeptFor(log, init, provider, idx) && PutsAt(log, init, idx, puts)
    ensures var r, n := ResolvePut(log, last), |init|;
            if !last.rcpt.out.Failure? && r.Resolved? && r.put.provider == provider
            then KeptFor(log, init + [last], provider, idx + [n])
              && PutsAt(log, init + [last], idx + [n], puts + [r.put])
            else KeptFor(log, init + [last], provider, idx) && PutsAt(log, init + [last], idx, puts)
  {
    hide ResolvePut, KeptFor;
    KeptMore(log, init, last, provider, idx);
    var cs := init + [last];
    assert cs[|init|] == last;
  }

  /** The puts of one node are those of its kept deliveries, in order. */
  lemma {:induction false} KeptAre(log: seq<Container>, cs: seq<Conclusion>, provider: Principal)
      returns (idx: seq<nat>)
    requires ResolveAll(log, Succeeded(cs)).Some?
    ensures KeptFor(log, cs, provider, idx)
    ensures PutsAt(log, cs, idx, Select(ByProvider(ResolveAll(log, Succeeded(cs)).value), provider))
  {
    if cs == [] {
      idx := [];
    } else {
      var n := |cs| - 1;
      var init, last := cs[..n], cs[n];
      assert cs == init + [last];
      ResolveMore(log, init, last);
      hide ResolvePut, ResolveAll, Succeeded, KeptFor, PutsAt, Select, ByProvider;
      idx := KeptAre(log, init, provider);
      var r, puts := ResolvePut(log, last), ResolveAll(log, Succeeded(init)).value;
      KeptSnoc(log, init, last, provider, idx, Select(ByProvider(puts), provider));
      if !last.rcpt.out.Failure? && r.Resolved? {
        ProviderSnoc(puts, r.put, provider);
        if r.put.provider == provider { idx := idx + [n]; }
      }
    }
  }

  lemma {:induction false} ProviderSnoc(puts: seq<ConcludedPut>, p: ConcludedPut, provider: Principal)
    ensures Select(ByProvider(puts + [p]), provider)
         == Select(ByProvider(puts), provider) + if p.provider == provider then [p] else []
  {
    assert ByProvider(puts + [p])[..|puts|] == ByProvider(puts);
  }

  lemma {:induction false} KeptPlaces(log: seq<Container>, cs: seq<Conclusion>, provider: Principal)
      returns (idx: seq<nat>)
    ensures KeptFor(log, cs, provider, idx)
  {
    if cs == [] {
      idx := [];
    } else {
      var n := |cs| - 1;
      var init, last := cs[..n], cs[n];
      assert cs == init + [last];
      idx := KeptPlaces(log, init, provider);
      hide ResolvePut;
      KeptMore(log, init, last, provider, idx);
      hide KeptFor;
      var r := ResolvePut(log, last);
      if !last.rcpt.out.Failure? && r.Resolved? && r.put.provider == provider { idx := idx + [n]; }
    }
  }
}
