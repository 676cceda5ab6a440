/**
 Registering the blobs whose accepts succeeded usably. A blob already registered in a
 space stays as it is.
 */
module Registering {
  import opened DiffLogs
  import opened AgentStore
  import opened Tokens
  import opened Piri
  import opened Attachments
  import opened Protocol

  class BlobTable {
    var records: BlobRecords

    constructor ()
      ensures records == map[]
    {
      records := map[];
    }

    /** Registers a blob; one already registered in the space stays as it is. */
    method Register(key: BlobKey, reg: Registration) returns (ok: bool)
      modifies this
      ensures ok == (key !in old(records))
      ensures records == if key in old(records) then old(records) else old(records)[key := reg]
    {
      ok := key !in records;
      if ok { records := records[key := reg]; }
    }
  }

  function Added(records: BlobRecords, a: Action): BlobRecords {
    if a.RegisterBlob? && a.key !in records then records[a.key := a.reg] else records
  }

  function AddedAll(records: BlobRecords, plan: seq<Action>): BlobRecords {
    if plan == [] then records else Added(AddedAll(records, plan[..|plan| - 1]), plan[|plan| - 1])
  }

  /** Checks that the claim an accept names is a location commitment for a digest. */
  method CheckLocation(metas: seq<Container>, link: Link, digest: Digest) returns (ok: bool)
    ensures ok == LocationChecks(metas, link, digest)
  {
    ok := link.OfInvocation? && link.inv in AllInvs(metas) && Commits(link.inv, digest);
  }

  lemma {:induction false} RegistrationsStep(puts: seq<ConcludedPut>, results: seq<AcceptResult>, metas: seq<Container>,
          i: nat)
    requires |puts| == |results| && i < |puts|
    ensures Registrations(puts[..i + 1], results[..i + 1], metas)
         == if Registers(puts[i], results[i], metas)
            then Registrations(puts[..i], results[..i], metas) + [RegisterBlob(puts[i].key, puts[i].reg)]
            else Registrations(puts[..i], results[..i], metas)
  {
    assert puts[..i + 1][..i] == puts[..i] && results[..i + 1][..i] == results[..i];
  }

  lemma {:induction false} AddedStep(records: BlobRecords, plan: seq<Action>, a: Action)
    ensures AddedAll(records, plan + [a]) == Added(AddedAll(records, plan), a)
  {
    assert (plan + [a])[..|plan|] == plan;
  }

  lemma {:induction false} AddedAppend(records: BlobRecords, a: seq<Action>, b: seq<Action>)
    ensures AddedAll(records, a + b) == AddedAll(AddedAll(records, a), b)
  {
    if b == [] {
      assert a + b == a;
    } else {
      AddedAppend(records, a, b[..|b| - 1]);
      assert (a + b)[..|a + b| - 1] == a + b[..|b| - 1];
    }
  }

  lemma {:induction false} AddedWrites(records: BlobRecords, messages: seq<Container>)
    ensures AddedAll(records, WriteAll(messages)) == records
  {
    if messages != [] {
      AddedWrites(records, messages[..|messages| - 1]);
      assert WriteAll(messages)[..|messages| - 1] == WriteAll(messages[..|messages| - 1]);
    }
  }

  lemma {:induction false} AddedFrom(records: BlobRecords, plan: seq<Action>, key: BlobKey) returns (k: nat)
    requires key in AddedAll(records, plan) && !(key in records && AddedAll(records, plan)[key] == records[key])
    ensures k < |plan| && plan[k] == RegisterBlob(key, AddedAll(records, plan)[key])
  {
    var init := AddedAll(records, plan[..|plan| - 1]);
    if key in init && init[key] == AddedAll(records, plan)[key] {
      k := AddedFrom(records, plan[..|plan| - 1], key);
    } else {
      k := |plan| - 1;
    }
  }

  // ----- what is registered, put by put

  /**
   An accept's receipt shows where the blob is: a success that names a commitment and
   a promise, and for a blob allocated without a digest the commitment is attached, a
   location commitment, and for the digest the put reported.
   */
  ghost predicate Usable(p: ConcludedPut, rcpt: Receipt, metas: seq<Container>) {
    && rcpt.out.AcceptOK? && rcpt.out.commitment.Some? && rcpt.out.pdp.Some?
    && (p.req.blob.Unhashed? ==>
          exists claim :: Attached(metas, claim) && rcpt.out.commitment == Some(OfInvocation(claim))
                          && claim.task.command == Location && claim.task.args == LocationArgs(p.key.digest))
  }

  lemma {:induction false} RegistersIs(p: ConcludedPut, res: AcceptResult, metas: seq<Container>)
    ensures Registers(p, res, metas) <==> res.rcpt.Some? && Usable(p, res.rcpt.value, metas)
  {
    AllInvsAre(metas);
    hide Attached, AllInvs;
  }

  /** The i-th put's accept was answered usably. */
  ghost predicate UsableAt(puts: seq<ConcludedPut>, results: seq<AcceptResult>, metas: seq<Container>, i: int) {
    0 <= i < |puts| && i < |results| && results[i].rcpt.Some? && Usable(puts[i], results[i].rcpt.value, metas)
  }

  /** Some of the first n puts is of the blob, and its accept was usable. */
  ghost predicate KeyUsable(puts: seq<ConcludedPut>, results: seq<AcceptResult>, metas: seq<Container>, n: int,
          key: BlobKey) {
    exists i :: i < n && UsableAt(puts, results, metas, i) && puts[i].key == key
  }

  /**
   After the first n puts a blob is registered if it was before or one of them had its
   accept answered usably, with the size and cause it had, or else the first such put's.
   */
  ghost predicate RegisteredBy(puts: seq<ConcludedPut>, results: seq<AcceptResult>, metas: seq<Container>, n: nat,
          before: BlobRecords, after: BlobRecords) {
    && (forall key :: key in after <==> key in before || KeyUsable(puts, results, metas, n, key))
    && (forall key :: key in before ==> after[key] == before[key])
    && (forall i :: i < n && UsableAt(puts, results, metas, i) && puts[i].key !in before
                    && !KeyUsable(puts, results, metas, i, puts[i].key) ==>
          puts[i].key in after && after[puts[i].key] == puts[i].reg)
  }

  lemma {:induction false} OneMoreUsable(puts: seq<ConcludedPut>, results: seq<AcceptResult>, metas: seq<Container>,
          n: nat)
    requires n < |puts|
    ensures forall key ::
              KeyUsable(puts, results, metas, n + 1, key)
              <==> KeyUsable(puts, results, metas, n, key) || (UsableAt(puts, results, metas, n) && puts[n].key == key)
  {
    hide Usable;
    forall key
      ensures KeyUsable(puts, results, metas, n + 1, key)
          <==> KeyUsable(puts, results, metas, n, key) || (UsableAt(puts, results, metas, n) && puts[n].key == key)
    {
      if KeyUsable(puts, results, metas, n + 1, key) && !KeyUsable(puts, results, metas, n, key) {
        var i :| i < n + 1 && UsableAt(puts, results, metas, i) && puts[i].key == key;
        assert i == n;
      }
    }
  }

  lemma {:induction false} RegisteredMore(puts: seq<ConcludedPut>, results: seq<AcceptResult>, metas: seq<Container>,
          n: nat, before: BlobRecords, was: BlobRecords)
    requires |puts| == |results| && n < |puts| && RegisteredBy(puts, results, metas, n, before, was)
    ensures var p := puts[n];
            RegisteredBy(puts, results, metas, n + 1, before,
                         if UsableAt(puts, results, metas, n) && p.key !in was then was[p.key := p.reg] else was)
  {
    OneMoreUsable(puts, results, metas, n);
    hide Usable, KeyUsable;
  }

  lemma {:induction false} NothingRegistered(before: BlobRecords, puts: seq<ConcludedPut>, results: seq<AcceptResult>,
          metas: seq<Container>)
    ensures RegisteredBy(puts, results, metas, 0, before, before)
  {
    hide Usable;
    forall key ensures !KeyUsable(puts, results, metas, 0, key) {}
  }

  /** What is registered for some puts is exactly what their usable accepts show. */
  lemma {:induction false} RegistrationsAre(before: BlobRecords, puts: seq<ConcludedPut>, results: seq<AcceptResult>,
          metas: seq<Container>, n: nat)
    requires |puts| == |results| && n <= |puts|
    ensures RegisteredBy(puts, results, metas, n, before,
                         AddedAll(before, Registrations(puts[..n], results[..n], metas)))
  {
    hide RegisteredBy, Registers, Usable;
    if n == 0 {
      NothingRegistered(before, puts, results, metas);
    } else {
      hide Registrations, AddedAll;
      RegistrationsAre(before, puts, results, metas, n - 1);
      RegistersIs(puts[n - 1], results[n - 1], metas);
      RegistrationsStep(puts, results, metas, n - 1);
      AddedStep(before, Registrations(puts[..n - 1], results[..n - 1], metas),
                RegisterBlob(puts[n - 1].key, puts[n - 1].reg));
      RegisteredMore(puts, results, metas, n - 1, before,
                     AddedAll(before, Registrations(puts[..n - 1], results[..n - 1], metas)));
    }
  }

  /** Registers the puts whose accepts succeeded usably, in order. */
  method RegisterAccepted(table: BlobTable, puts: seq<ConcludedPut>, results: seq<AcceptResult>, metas: seq<Container>)
    requires |puts| == |results|
    modifies table
    ensures table.records == AddedAll(old(table.records), Registrations(puts, results, metas))
    ensures RegisteredBy(puts, results, metas, |puts|, old(table.records), table.records)
  {
    hide RegisteredBy;
    for i := 0 to |results|
      invariant table.records == AddedAll(old(table.records), Registrations(puts[..i], results[..i], metas))
    {
      var put, res := puts[i], results[i];
      RegistrationsStep(puts, results, metas, i);
      AddedStep(old(table.records), Registrations(puts[..i], results[..i], metas), RegisterBlob(put.key, put.reg));
      if res.rcpt.None? || !res.rcpt.value.out.AcceptOK? { continue; }
      var out := res.rcpt.value.out;
      if out.commitment.None? || out.pdp.None? { continue; }
      if put.req.blob.Unhashed? {
        var ok := CheckLocation(metas, out.commitment.value, put.key.digest);
        if !ok { continue; }
      }
      var _ := table.Register(put.key, put.reg);
    }
    assert puts[..|puts|] == puts && results[..|results|] == results;
    RegistrationsAre(old(table.records), puts, results, metas, |puts|);
  }

  // ----- handlers that run to their end

  /** A handler's next so many actions. */
  function Acts(i: nat, n: nat): seq<Step> {
    seq(n, _ => Act(i))
  }

  /** Whether a message of a plan is too large to write. */
  ghost predicate Encodable(plan: seq<Action>) {
    forall a :: a in plan && a.WriteMessage? ==> |a.m.invs| + |a.m.rcpts| <= 8192
  }

  /** A world in which a handler has taken the first k actions of its plan, and nobody else any. */
  ghost predicate Taken(w: World, w': World, i: nat, plan: seq<Action>, k: nat)
    requires k <= |plan| && i < |w.plans|
  {
    && w'.plans == w.plans[i := plan[k..]]
    && w'.log == w.log + Writes(plan[..k]) && w'.registry == AddedAll(w.registry, plan[..k])
  }

  lemma {:induction false} TakesNext(w: World, w': World, i: nat, plan: seq<Action>, k: nat)
    requires k < |plan| && i < |w.plans| && Taken(w, w', i, plan, k) && Encodable(plan)
    ensures Taken(w, Advance(w', Act(i)), i, plan, k + 1)
  {
    var a := plan[k];
    assert a in plan;
    assert plan[..k + 1] == plan[..k] + [a] && plan[k..][1..] == plan[k + 1..] && plan[k..][0] == a;
    AddedStep(w.registry, plan[..k], a);
    WritesAppend(plan[..k], [a]);
    assert [a][..0] == [];
    hide AddedAll;
  }

  lemma {:induction false} PlanTaken(steps: seq<Step>, h: Handler, w: World, plan: seq<Action>, n: nat)
    requires w == Execute(steps) && Produced(w.log, h) && plan == PlanOf(w.log, h) && Encodable(plan) && n <= |plan|
    ensures Taken(w.(plans := w.plans + [plan]), Execute(steps + [Begin(h)] + Acts(|w.plans|, n)), |w.plans|, plan, n)
  {
    hide PlanOf, Produced, Encodable, AddedAll;
    var i, begun := |w.plans|, steps + [Begin(h)];
    if n == 0 {
      ExecuteSnoc(steps, Begin(h));
      hide Execute;
      assert begun + Acts(i, 0) == begun && plan[0..] == plan && plan[..0] == [];
      NothingAdded(w.registry);
    } else {
      hide *;
      PlanTaken(steps, h, w, plan, n - 1);
      ActsSnoc(begun, i, n - 1);
      ExecuteSnoc(begun + Acts(i, n - 1), Act(i));
      TakesNext(w.(plans := w.plans + [plan]), Execute(begun + Acts(i, n - 1)), i, plan, n - 1);
    }
  }

  lemma {:induction false} NothingAdded(records: BlobRecords)
    ensures AddedAll(records, []) == records
  {
  }

  lemma {:induction false} ActsSnoc(steps: seq<Step>, i: nat, n: nat)
    ensures steps + Acts(i, n + 1) == steps + Acts(i, n) + [Act(i)]
  {
  }

  /**
   From any reachable state, a handler whose messages fit, and that nothing interrupts,
   logs all its messages in order and registers each of its blobs that is not yet
   registered.
   */
  lemma {:induction false} PlanRuns(steps: seq<Step>, h: Handler, n: nat)
    requires Produced(Execute(steps).log, h) && n <= |PlanOf(Execute(steps).log, h)|
    requires Encodable(PlanOf(Execute(steps).log, h))
    ensures var w := Execute(steps);
            var plan, i, w' := PlanOf(w.log, h), |w.plans|, Execute(steps + [Begin(h)] + Acts(|w.plans|, n));
            && w'.plans == w.plans + [plan[n..]]
            && w'.log == w.log + Writes(plan[..n]) && w'.registry == AddedAll(w.registry, plan[..n])
  {
    hide Execute, Produced, PlanOf, AddedAll, Writes, Encodable, Acts;
    PlanTaken(steps, h, Execute(steps), PlanOf(Execute(steps).log, h), n);
  }
}
