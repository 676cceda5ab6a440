/**
 The blob protocol over whole runs. A handler reads the agent store and the
 registry, then persists messages and registers blobs one action at a time, while
 other handlers and the message log do the same. Every registration is backed by
 what the agent store holds.
 */
module Protocol {
  import opened DiffLogs
  import opened Tokens
  import opened AgentStore
  import opened Piri
  import opened Attachments
  import opened Grouping
  import opened Packing
  import opened Polling
  import opened Deliveries

  datatype Registration = Registration(size: nat, cause: Link)

  datatype BlobKey = BlobKey(space: string, digest: Digest)

  type BlobRecords = map<BlobKey, Registration>

  ghost predicate Recorded(log: seq<Container>, inv: Invocation) {
    exists m :: m in log && inv in m.invs
  }

  ghost predicate Attested(log: seq<Container>, rcpt: Receipt) {
    exists m :: m in log && rcpt in m.rcpts
  }

  /** A blob named by this digest, or by this digest's hash function alone. */
  predicate Denotes(blob: BlobSpec, digest: Digest, size: nat) {
    blob == Hashed(digest, size) || blob == Unhashed(digest.code, size)
  }

  /** A location commitment for a digest. */
  predicate Commits(claim: Invocation, digest: Digest) {
    claim.task.command == Location && claim.task.args == LocationArgs(digest)
  }

  /** An allocation of the blob, and a success receipt for an accept of that allocation's blob. */
  predicate Evidence(alloc: Invocation, rcpt: Receipt, key: BlobKey, reg: Registration) {
    && alloc.task.args.AllocateArgs? && alloc.task.args.space == key.space && alloc.task.args.cause == reg.cause
    && Denotes(alloc.task.args.blob, key.digest, reg.size)
    && rcpt.out.AcceptOK? && rcpt.ran.OfTask?
    && rcpt.ran.task.subject == alloc.task.subject && rcpt.ran.task.command == Accept
    && rcpt.ran.task.args.AcceptArgs? && rcpt.ran.task.args.space == key.space
       && rcpt.ran.task.args.blob == alloc.task.args.blob
  }

  /** When the allocation named no digest, the commitment the accept names is for this one. */
  ghost predicate DigestCommitted(log: seq<Container>, alloc: Invocation, rcpt: Receipt, digest: Digest)
    requires rcpt.out.AcceptOK? && alloc.task.args.AllocateArgs?
  {
    alloc.task.args.blob.Unhashed? ==>
      && rcpt.out.commitment.Some? && rcpt.out.commitment.value.OfInvocation?
      && Recorded(log, rcpt.out.commitment.value.inv) && Commits(rcpt.out.commitment.value.inv, digest)
  }

  /**
   The agent store holds what justifies a registration. Strictly, its allocation is of
   the allocate command, and not only of an allocation's arguments.
   */
  ghost predicate Backed(log: seq<Container>, key: BlobKey, reg: Registration, strict: bool) {
    exists alloc, rcpt ::
      && Recorded(log, alloc) && Attested(log, rcpt) && Evidence(alloc, rcpt, key, reg)
      && DigestCommitted(log, alloc, rcpt, key.digest) && (strict ==> alloc.task.command == Allocate)
  }

  lemma {:induction false} StillHeld(log: seq<Container>, log': seq<Container>)
    requires log <= log'
    ensures forall inv :: Recorded(log, inv) ==> Recorded(log', inv)
    ensures forall rcpt :: Attested(log, rcpt) ==> Attested(log', rcpt)
  {
    forall inv | Recorded(log, inv) ensures Recorded(log', inv) {
      var m :| m in log && inv in m.invs;
      assert m in log';
    }
    forall rcpt | Attested(log, rcpt) ensures Attested(log', rcpt) {
      var m :| m in log && rcpt in m.rcpts;
      assert m in log';
    }
  }

  /** What is backed stays backed. */
  lemma {:induction false} StillBacked(log: seq<Container>, log': seq<Container>, key: BlobKey, reg: Registration,
          strict: bool)
    requires log <= log' && Backed(log, key, reg, strict)
    ensures Backed(log', key, reg, strict)
  {
    var alloc, rcpt :|
      && Recorded(log, alloc) && Attested(log, rcpt) && Evidence(alloc, rcpt, key, reg)
      && DigestCommitted(log, alloc, rcpt, key.digest) && (strict ==> alloc.task.command == Allocate);
    StillHeld(log, log');
  }

  // ----- what handlers do

  datatype Action = WriteMessage(m: Container) | RegisterBlob(key: BlobKey, reg: Registration)

  /** The messages of a plan's actions. */
  function Writes(plan: seq<Action>): seq<Container> {
    if plan == [] then []
    else
      var init, last := Writes(plan[..|plan| - 1]), plan[|plan| - 1];
      if last.WriteMessage? then init + [last.m] else init
  }

  /** Each registration of a plan is backed once the plan has got that far. */
  ghost predicate Justified(log: seq<Container>, plan: seq<Action>, strict: bool) {
    forall j ::
        0 <= j < |plan| && plan[j].RegisterBlob? ==> Backed(log + Writes(plan[..j]), plan[j].key, plan[j].reg, strict)
  }

  /** An upload whose node already held the blob, or whose bytes are still to come. */
  datatype AddRun = AddRun(
    node: string, space: string, blob: BlobSpec, cause: Link, alloc: Invocation, allocRcpt: Receipt,
    accepted: Option<Accepted>)

  /** An accept executed, and what its node attached. */
  datatype Accepted = Accepted(inv: Invocation, rcpt: Receipt, meta: Container)

  /** What an add guarantees of what it is about to persist. */
  ghost predicate AddProduced(a: AddRun) {
    && a.alloc.task.subject == Named(a.node) && a.alloc.task.command == Allocate
    && a.alloc.task.args == AllocateArgs(a.space, a.blob, a.cause)
    && (a.accepted.Some? ==>
          && a.blob.Hashed? && a.accepted.value.rcpt.out.AcceptOK?
          && a.accepted.value.rcpt.ran == TaskOf(a.accepted.value.inv)
          && exists req: AcceptRequest ::
               req.space == a.space && req.blob == a.blob && a.accepted.value.inv.task == AcceptTask(a.node, req))
  }

  function AddPlan(a: AddRun): seq<Action>
    requires a.accepted.Some? ==> a.blob.Hashed?
  {
    [WriteMessage(Pack([a.alloc], [a.allocRcpt]))]
    + match a.accepted
      case None => []
      case Some(acc) =>
        [WriteMessage(Pack([acc.inv] + acc.meta.invs, [acc.rcpt] + acc.meta.rcpts)),
         RegisterBlob(BlobKey(a.space, a.blob.digest), Registration(a.blob.size, a.cause))]
  }

  lemma {:induction false} PackHolds(invs: seq<Invocation>, rcpts: seq<Receipt>)
    ensures forall x :: x in Pack(invs, rcpts).invs <==> x in invs
    ensures forall x :: x in Pack(invs, rcpts).rcpts <==> x in rcpts
  {
    DedupKeeps(invs);
    DedupKeeps(rcpts);
  }

  lemma {:induction false} AddJustified(log: seq<Container>, a: AddRun, strict: bool)
    requires AddProduced(a)
    ensures Justified(log, AddPlan(a), strict)
  {
    if a.accepted.Some? {
      var acc, plan := a.accepted.value, AddPlan(a);
      var m1, m2 := Pack([a.alloc], [a.allocRcpt]), Pack([acc.inv] + acc.meta.invs, [acc.rcpt] + acc.meta.rcpts);
      PackHolds([a.alloc], [a.allocRcpt]);
      PackHolds([acc.inv] + acc.meta.invs, [acc.rcpt] + acc.meta.rcpts);
      assert plan[..2] == [WriteMessage(m1), WriteMessage(m2)];
      WritesTwo(m1, m2);
      var log' := log + [m1, m2];
      assert m1 in log' && m2 in log';
      assert Recorded(log', a.alloc) && Attested(log', acc.rcpt);
      assert Evidence(a.alloc, acc.rcpt, plan[2].key, plan[2].reg);
    }
  }

  lemma {:induction false} WritesTwo(m1: Container, m2: Container)
    ensures Writes([WriteMessage(m1), WriteMessage(m2)]) == [m1, m2]
  {
    var plan := [WriteMessage(m1), WriteMessage(m2)];
    assert plan[..1] == [WriteMessage(m1)] && plan[..1][..0] == [];
    assert Writes(plan[..1]) == [m1];
  }

  // ----- concluded puts

  /** A put resolved to the allocation it fulfils. */
  datatype ConcludedPut = ConcludedPut(provider: Principal, key: BlobKey, reg: Registration, req: AcceptRequest)

  /** Its allocation is on record, and its accept names the blob as the allocation did. */
  ghost predicate Grounded(log: seq<Container>, p: ConcludedPut) {
    exists alloc :: Recorded(log, alloc) && Fulfils(alloc, p)
  }

  predicate Fulfils(alloc: Invocation, p: ConcludedPut) {
    && alloc.task.subject == p.provider && alloc.task.args == AllocateArgs(p.key.space, p.req.blob, p.reg.cause)
    && p.req.space == p.key.space && Denotes(p.req.blob, p.key.digest, p.reg.size)
    && PutTo(p, TaskOf(alloc))
  }

  /** Whether the put an accept is for names a task as its destination. */
  predicate PutTo(p: ConcludedPut, task: Link) {
    p.req.put.OfTask? && p.req.put.task.args.PutArgs? && p.req.put.task.args.destination == task
  }

  /** Whether a put names an allocate task as its destination. */
  predicate Directed(p: ConcludedPut) {
    && p.req.put.OfTask? && p.req.put.task.args.PutArgs?
    && p.req.put.task.args.destination.OfTask? && p.req.put.task.args.destination.task.command == Allocate
  }

  /** What fulfils a put is an allocation exactly when the put names one as its destination. */
  lemma {:induction false} FulfilledBy(alloc: Invocation, p: ConcludedPut)
    requires Fulfils(alloc, p)
    ensures alloc.task.command == Allocate <==> Directed(p)
  {
  }

  ghost predicate AllDirected(puts: seq<ConcludedPut>) {
    forall p :: p in puts ==> Directed(p)
  }

  lemma {:induction false} StillGrounded(log: seq<Container>, log': seq<Container>, p: ConcludedPut)
    requires log <= log' && Grounded(log, p)
    ensures Grounded(log', p)
  {
    StillHeld(log, log');
  }

  /** The attached invocation an accept receipt names as its location commitment, if it is for the digest. */
  predicate LocationChecks(metas: seq<Container>, commitment: Link, digest: Digest) {
    commitment.OfInvocation? && commitment.inv in AllInvs(metas) && Commits(commitment.inv, digest)
  }

  /** Whether an accept's result registers its blob. */
  predicate Registers(p: ConcludedPut, res: AcceptResult, metas: seq<Container>) {
    && res.rcpt.Some? && res.rcpt.value.out.AcceptOK?
    && res.rcpt.value.out.commitment.Some? && res.rcpt.value.out.pdp.Some?
    && (p.req.blob.Unhashed? ==> LocationChecks(metas, res.rcpt.value.out.commitment.value, p.key.digest))
  }

  function Registrations(puts: seq<ConcludedPut>, results: seq<AcceptResult>, metas: seq<Container>): seq<Action>
    requires |puts| == |results|
  {
    if puts == [] then []
    else
      var n := |puts| - 1;
      var init := Registrations(puts[..n], results[..n], metas);
      if Registers(puts[n], results[n], metas) then init + [RegisterBlob(puts[n].key, puts[n].reg)] else init
  }

  function WriteAll(messages: seq<Container>): seq<Action> {
    seq(|messages|, i requires 0 <= i < |messages| => WriteMessage(messages[i]))
  }

  /** The accepts of one node's puts, their results, and the groups they are persisted in. */
  datatype ConcludeRun = ConcludeRun(
    node: string, puts: seq<ConcludedPut>, results: seq<AcceptResult>, metas: seq<Container>,
    groups: seq<Acceptance>, budget: nat)

  function Requests(puts: seq<ConcludedPut>): seq<AcceptRequest> {
    seq(|puts|, i requires 0 <= i < |puts| => puts[i].req)
  }

  /** What accepting on a node guarantees of what it is about to persist and register. */
  ghost predicate ConcludeProduced(log: seq<Container>, c: ConcludeRun) {
    && |c.puts| == |c.results|
    && (forall p :: p in c.puts ==> Grounded(log, p) && p.provider == Named(c.node))
    && (forall i :: 0 <= i < |c.puts| && c.results[i].rcpt.Some? ==> Answered(c.node, c.puts[i].req, c.results[i]))
    && Arranged(c.groups, c.results, c.metas)
  }

  function ConcludePlan(c: ConcludeRun): seq<Action>
    requires |c.puts| == |c.results|
  {
    WriteAll(MessagesOf(Greedy([], c.groups, c.budget))) + Registrations(c.puts, c.results, c.metas)
  }

  lemma {:induction false} WritesAppend(a: seq<Action>, b: seq<Action>)
    ensures Writes(a + b) == Writes(a) + Writes(b)
  {
    if b == [] {
      assert a + b == a;
    } else {
      WritesAppend(a, b[..|b| - 1]);
      assert (a + b)[..|a + b| - 1] == a + b[..|b| - 1];
    }
  }

  lemma {:induction false} WritesAll(messages: seq<Container>)
    ensures Writes(WriteAll(messages)) == messages
  {
    if messages != [] {
      var init, last := messages[..|messages| - 1], messages[|messages| - 1];
      WritesAll(init);
      assert WriteAll(messages)[..|messages| - 1] == WriteAll(init);
      assert messages == init + [last];
    }
  }

  lemma {:induction false} RegistrationsWrite(puts: seq<ConcludedPut>, results: seq<AcceptResult>,
          metas: seq<Container>, k: nat)
    requires |puts| == |results| && k <= |Registrations(puts, results, metas)|
    ensures Writes(Registrations(puts, results, metas)[..k]) == []
  {
    if k > 0 {
      var n := |puts| - 1;
      var init := Registrations(puts[..n], results[..n], metas);
      var all := Registrations(puts, results, metas);
      if k <= |init| {
        RegistrationsWrite(puts[..n], results[..n], metas, k);
        assert all[..k] == init[..k];
      } else {
        RegistrationsWrite(puts[..n], results[..n], metas, |init|);
        assert init[..|init|] == init && all[..k] == all && all[..k][..k - 1] == init;
      }
    }
  }

  /** Every registration a conclusion plans is of one of its puts that registers. */
  lemma {:induction false} RegistrationOf(puts: seq<ConcludedPut>, results: seq<AcceptResult>, metas: seq<Container>,
          k: nat)
      returns (i: nat)
    requires |puts| == |results| && k < |Registrations(puts, results, metas)|
    ensures i < |puts| && Registers(puts[i], results[i], metas)
    ensures Registrations(puts, results, metas)[k] == RegisterBlob(puts[i].key, puts[i].reg)
  {
    var n := |puts| - 1;
    var init := Registrations(puts[..n], results[..n], metas);
    if k < |init| {
      i := RegistrationOf(puts[..n], results[..n], metas, k);
    } else {
      i := n;
    }
  }

  /** Whatever is in a group is on record once the groups are written. */
  lemma {:induction false} GroupRecorded(log: seq<Container>, groups: seq<Acceptance>, budget: nat, j: nat)
    requires j < |groups|
    ensures forall x :: x in groups[j].invs ==> Recorded(log + MessagesOf(Greedy([], groups, budget)), x)
    ensures forall x :: x in groups[j].rcpts ==> Attested(log + MessagesOf(Greedy([], groups, budget)), x)
  {
    if Size(groups[j]) > 0 {
      var i := GroupWritten(groups, j, budget);
      var messages := MessagesOf(Greedy([], groups, budget));
      var m := MessageOf(Greedy([], groups, budget)[i]);
      assert messages[i] == m && m in log + messages;
    }
  }

  lemma {:induction false} PutBacked(log: seq<Container>, c: ConcludeRun, i: nat, strict: bool)
    requires ConcludeProduced(log, c) && i < |c.puts| && Registers(c.puts[i], c.results[i], c.metas)
    requires strict ==> AllDirected(c.puts)
    ensures Backed(log + MessagesOf(Greedy([], c.groups, c.budget)), c.puts[i].key, c.puts[i].reg, strict)
  {
    var p, res := c.puts[i], c.results[i];
    var rcpt := res.rcpt.value;
    var log' := log + MessagesOf(Greedy([], c.groups, c.budget));
    assert p in c.puts;
    var alloc :| Recorded(log, alloc) && Fulfils(alloc, p);
    FulfilledBy(alloc, p);
    StillHeld(log, log');
    assert Attested(log', rcpt) by {
      var k := ReceiptGrouped(c.groups, c.results, c.metas, i);
      GroupRecorded(log, c.groups, c.budget, k);
    }
    assert Evidence(alloc, rcpt, p.key, p.reg) by {
      assert Answered(c.node, c.puts[i].req, c.results[i]);
    }
    assert DigestCommitted(log', alloc, rcpt, p.key.digest) by {
      if alloc.task.args.blob.Unhashed? {
        var claim := rcpt.out.commitment.value.inv;
        AllInvsAre(c.metas);
        var j := AttachedGrouped(c.groups, c.results, c.metas, claim);
        GroupRecorded(log, c.groups, c.budget, j);
      }
    }
  }

  lemma {:induction false} ConcludeJustified(log: seq<Container>, c: ConcludeRun, strict: bool)
    requires ConcludeProduced(log, c) && (strict ==> AllDirected(c.puts))
    ensures Justified(log, ConcludePlan(c), strict)
  {
    var messages := MessagesOf(Greedy([], c.groups, c.budget));
    var regs := Registrations(c.puts, c.results, c.metas);
    var plan := ConcludePlan(c);
    forall j | 0 <= j < |plan| && plan[j].RegisterBlob?
      ensures Backed(log + Writes(plan[..j]), plan[j].key, plan[j].reg, strict)
    {
      var k := j - |messages|;
      assert plan[..j] == WriteAll(messages) + regs[..k];
      WritesAppend(WriteAll(messages), regs[..k]);
      WritesAll(messages);
      RegistrationsWrite(c.puts, c.results, c.metas, k);
      var i := RegistrationOf(c.puts, c.results, c.metas, k);
      PutBacked(log, c, i, strict);
      assert messages + [] == messages;
    }
  }

  // ----- runs

  /** The agent store, the registry, and what each running handler has still to do. */
  datatype World = World(log: seq<Container>, registry: BlobRecords, plans: seq<seq<Action>>)

  const NEW_WORLD := World([], map[], [])

  datatype Handler = AddHandler(add: AddRun) | ConcludeHandler(conclude: ConcludeRun)

  ghost predicate Produced(log: seq<Container>, h: Handler) {
    match h
    case AddHandler(a) => AddProduced(a)
    case ConcludeHandler(c) => ConcludeProduced(log, c)
  }

  ghost function PlanOf(log: seq<Container>, h: Handler): seq<Action>
    requires Produced(log, h)
  {
    match h
    case AddHandler(a) => AddPlan(a)
    case ConcludeHandler(c) => ConcludePlan(c)
  }

  /**
   A request or a response is logged, whatever it holds; a handler has read all it
   reads and starts to act; a handler takes its next action, or fails; a blob is
   removed.
   */
  datatype Step = Log(m: Container) | Begin(handler: Handler) | Act(i: nat) | Fail(i: nat) | Unregister(key: BlobKey)

  ghost function Advance(w: World, step: Step): World {
    match step
    case Log(m) => if Weight(m) <= MAX_TOKENS then w.(log := w.log + [m]) else w
    case Begin(h) => if Produced(w.log, h) then w.(plans := w.plans + [PlanOf(w.log, h)]) else w
    case Act(i) =>
      if i >= |w.plans| || w.plans[i] == [] then w
      else
        var rest := w.(plans := w.plans[i := w.plans[i][1..]]);
        (match w.plans[i][0]
         case WriteMessage(m) =>
           if Weight(m) <= MAX_TOKENS then rest.(log := w.log + [m]) else w.(plans := w.plans[i := []])
         case RegisterBlob(key, reg) =>
           if key in w.registry then rest else rest.(registry := w.registry[key := reg]))
    case Fail(i) => if i < |w.plans| then w.(plans := w.plans[i := []]) else w
    case Unregister(key) => w.(registry := w.registry - {key})
  }

  ghost function Execute(steps: seq<Step>): World {
    if steps == [] then NEW_WORLD else Advance(Execute(steps[..|steps| - 1]), steps[|steps| - 1])
  }

  ghost predicate Sound(w: World, strict: bool) {
    && (forall key :: key in w.registry ==> Backed(w.log, key, w.registry[key], strict))
    && (forall i :: 0 <= i < |w.plans| ==> Justified(w.log, w.plans[i], strict))
  }

  lemma {:induction false} WritesHead(plan: seq<Action>, j: nat)
    requires 0 < j <= |plan|
    ensures Writes(plan[..j]) == (if plan[0].WriteMessage? then [plan[0].m] else []) + Writes(plan[1..][..j - 1])
  {
    assert plan[..j] == [plan[0]] + plan[1..][..j - 1];
    WritesAppend([plan[0]], plan[1..][..j - 1]);
    assert [plan[0]][..0] == [];
  }

  /** Whether every put a handler concludes names an allocate task as its destination. */
  ghost predicate DirectedHandler(h: Handler) {
    h.ConcludeHandler? ==> AllDirected(h.conclude.puts)
  }

  ghost predicate DirectedRun(steps: seq<Step>) {
    forall i :: 0 <= i < |steps| && steps[i].Begin? ==> DirectedHandler(steps[i].handler)
  }

  /** A plan stays justified while others write, and after its own next action. */
  lemma {:induction false} StillJustified(log: seq<Container>, log': seq<Container>, plan: seq<Action>, strict: bool)
    requires log <= log' && Justified(log, plan, strict)
    ensures Justified(log', plan, strict)
  {
    forall j | 0 <= j < |plan| && plan[j].RegisterBlob?
      ensures Backed(log' + Writes(plan[..j]), plan[j].key, plan[j].reg, strict)
    {
      BackedBetween(log, log', Writes(plan[..j]), plan[j].key, plan[j].reg, strict);
    }
  }

  lemma {:induction false} BackedBetween(log: seq<Container>, log': seq<Container>, more: seq<Container>, key: BlobKey,
          reg: Registration, strict: bool)
    requires log <= log' && Backed(log + more, key, reg, strict)
    ensures Backed(log' + more, key, reg, strict)
  {
    var alloc, rcpt :|
      && Recorded(log + more, alloc) && Attested(log + more, rcpt) && Evidence(alloc, rcpt, key, reg)
      && DigestCommitted(log + more, alloc, rcpt, key.digest) && (strict ==> alloc.task.command == Allocate);
    assert forall m :: m in log + more ==> m in log' + more;
    assert Recorded(log' + more, alloc) && Attested(log' + more, rcpt);
  }

  lemma {:induction false} NextJustified(log: seq<Container>, plan: seq<Action>, strict: bool)
    requires plan != [] && Justified(log, plan, strict)
    ensures plan[0].WriteMessage? ==> Justified(log + [plan[0].m], plan[1..], strict)
    ensures plan[0].RegisterBlob? ==> Backed(log, plan[0].key, plan[0].reg, strict) && Justified(log, plan[1..], strict)
  {
    assert plan[..0] == [] && log + [] == log;
    forall j | 0 <= j < |plan[1..]| && plan[1..][j].RegisterBlob?
      ensures Backed((if plan[0].WriteMessage? then log + [plan[0].m] else log) + Writes(plan[1..][..j]),
                     plan[1..][j].key, plan[1..][j].reg, strict)
    {
      WritesHead(plan, j + 1);
      assert Backed(log + Writes(plan[..j + 1]), plan[j + 1].key, plan[j + 1].reg, strict);
      assert plan[0].WriteMessage? ==>
              log + ([plan[0].m] + Writes(plan[1..][..j])) == log + [plan[0].m] + Writes(plan[1..][..j]);
      assert [] + Writes(plan[1..][..j]) == Writes(plan[1..][..j]);
    }
  }

  lemma {:induction false} LogGrowsSound(w: World, m: Container, strict: bool)
    requires Sound(w, strict)
    ensures Sound(w.(log := w.log + [m]), strict)
  {
    var log' := w.log + [m];
    forall key | key in w.registry
      ensures Backed(log', key, w.registry[key], strict)
    {
      StillBacked(w.log, log', key, w.registry[key], strict);
    }
    forall i | 0 <= i < |w.plans|
      ensures Justified(log', w.plans[i], strict)
    {
      StillJustified(w.log, log', w.plans[i], strict);
    }
  }

  lemma {:induction false} ActSound(w: World, i: nat, strict: bool)
    requires Sound(w, strict) && i < |w.plans| && w.plans[i] != []
    ensures Sound(Advance(w, Act(i)), strict)
  {
    hide Backed, Justified, Weight;
    NextJustified(w.log, w.plans[i], strict);
    NothingJustified(w.log, strict);
    match w.plans[i][0]
    case WriteMessage(m) => LogGrowsSound(w, m, strict);
    case RegisterBlob(key, reg) =>
  }

  lemma {:induction false} AdvanceSound(w: World, step: Step, strict: bool)
    requires Sound(w, strict) && (strict && step.Begin? ==> DirectedHandler(step.handler))
    ensures Sound(Advance(w, step), strict) && w.log <= Advance(w, step).log
  {
    hide Backed, Justified, Produced, AddProduced, ConcludeProduced, DirectedHandler;
    match step
    case Log(m) => LogGrowsSound(w, m, strict);
    case Begin(h) => if Produced(w.log, h) { PlanJustified(w.log, h, strict); }
    case Act(i) => if i < |w.plans| && w.plans[i] != [] { ActSound(w, i, strict); }
    case Fail(i) => NothingJustified(w.log, strict);
    case Unregister(key) =>
  }

  lemma {:induction false} NothingJustified(log: seq<Container>, strict: bool)
    ensures Justified(log, [], strict)
  {
  }

  lemma {:induction false} PlanJustified(log: seq<Container>, h: Handler, strict: bool)
    requires Produced(log, h) && (strict ==> DirectedHandler(h))
    ensures Justified(log, PlanOf(log, h), strict)
  {
    match h
    case AddHandler(a) => AddJustified(log, a, strict);
    case ConcludeHandler(c) => ConcludeJustified(log, c, strict);
  }

  lemma {:induction false} RunSound(steps: seq<Step>, strict: bool)
    requires strict ==> DirectedRun(steps)
    ensures Sound(Execute(steps), strict)
  {
    if steps != [] {
      RunSound(steps[..|steps| - 1], strict);
      hide Sound, Advance, DirectedHandler;
      AdvanceSound(Execute(steps[..|steps| - 1]), steps[|steps| - 1], strict);
    }
  }

  /**
   In every reachable state each registration has, in the agent store, an invocation
   with an allocation's arguments for its blob, with its space, cause and size, and a
   success receipt for an accept of that invocation's blob; and where the invocation
   named no digest, the location commitment that accept names is for the digest
   registered.
   */
  lemma {:induction false} RegistrationsBacked(steps: seq<Step>)
    ensures Sound(Execute(steps), false)
  {
    RunSound(steps, false);
  }

  /** When every put concluded names an allocate task as its destination, that invocation is an allocation. */
  lemma {:induction false} AllocationsBacked(steps: seq<Step>)
    requires DirectedRun(steps)
    ensures Sound(Execute(steps), true)
  {
    RunSound(steps, true);
  }

  // ----- an invocation that is no allocation

  /** An invocation of any command with an allocation's arguments for a blob of one byte. */
  function Posing(command: Command, digest: Digest): Invocation {
    Invocation(Task(Named("node"), command, AllocateArgs("space", Hashed(digest, 1), OfOther("cause")), None), "")
  }

  /** An accept on a put that names that invocation's task as its destination. */
  function PosedAccept(command: Command, digest: Digest): AcceptRequest {
    var put := Task(FromDigest(digest), Put, PutArgs(Hashed(digest, 1), TaskOf(Posing(command, digest))), None);
    AcceptRequest("space", Hashed(digest, 1), OfTask(put), None, None)
  }

  /** The accept's invocation and receipt, which its node made as for any other. */
  function PosedResult(command: Command, digest: Digest): AcceptResult {
    var req := PosedAccept(command, digest);
    var inv := Invocation(AcceptTask("node", req), "");
    AcceptResult(Some(req), Some(inv),
                 Some(Receipt(TaskOf(inv), AcceptOK(Some(OfOther("location")), Some(OfOther("pdp"))), "")))
  }

  function PosedRun(command: Command, digest: Digest): ConcludeRun {
    var res := PosedResult(command, digest);
    ConcludeRun("node", [ConcludedPut(Named("node"), PosedKey(digest), PosedReg(), PosedAccept(command, digest))],
                [res], [], [Acceptance([res.inv.value], [res.rcpt.value])], 2)
  }

  function PosedKey(digest: Digest): BlobKey {
    BlobKey("space", digest)
  }

  function PosedReg(): Registration {
    Registration(1, OfOther("cause"))
  }

  /** What the agent store holds once the invocation was logged and the accept concluded. */
  function PosedLog(command: Command, digest: Digest): seq<Container> {
    var res := PosedResult(command, digest);
    [Container([Posing(command, digest)], []), Container([res.inv.value], [res.rcpt.value])]
  }

  lemma {:induction false} PosedGrounded(command: Command, digest: Digest)
    ensures var p := PosedRun(command, digest).puts[0];
            Grounded([PosedLog(command, digest)[0]], p) && p.provider == Named("node")
              && (Directed(p) <==> command == Allocate)
  {
    var alloc, log, p := Posing(command, digest), [PosedLog(command, digest)[0]], PosedRun(command, digest).puts[0];
    assert log[0] in log && alloc in log[0].invs;
    assert Recorded(log, alloc);
    hide Recorded;
    assert Fulfils(alloc, p);
  }

  lemma {:induction false} PosedArranged(command: Command, digest: Digest)
    ensures var run := PosedRun(command, digest); Arranged(run.groups, run.results, run.metas)
  {
    var run := PosedRun(command, digest);
    var idx: seq<nat> := [0];
    assert 0 in idx && run.groups[0].invs[1..] == [] && run.groups[0].rcpts[1..] == [];
    assert Grouped(run.groups, idx, run.results, run.metas);
    assert Conserved(run.groups, |idx|, run.metas);
  }

  lemma {:induction false} PosedProduced(command: Command, digest: Digest)
    ensures ConcludeProduced([PosedLog(command, digest)[0]], PosedRun(command, digest))
    ensures AllDirected(PosedRun(command, digest).puts) <==> command == Allocate
  {
    hide Grounded, Directed, Arranged, Posing;
    var run := PosedRun(command, digest);
    PosedGrounded(command, digest);
    PosedArranged(command, digest);
    assert run.puts[0] in run.puts && forall p :: p in run.puts ==> p == run.puts[0];
    hide PosedAccept;
    assert Answered(run.node, run.puts[0].req, run.results[0]);
  }

  lemma {:induction false} PosedPlan(command: Command, digest: Digest)
    ensures ConcludePlan(PosedRun(command, digest))
            == [WriteMessage(PosedLog(command, digest)[1]), RegisterBlob(PosedKey(digest), PosedReg())]
  {
    var run := PosedRun(command, digest);
    var g := run.groups[0];
    Alone(g);
    NoGroups();
    assert [] + [g] == [g];
    assert Greedy([], [g], 2) == Greedy([g], [g][1..], 2);
    assert Greedy([g], [], 2) == [[g]];
    assert MessageOf([g]) == Pack(g.invs, g.rcpts);
    assert Dedup(g.invs) == g.invs && Dedup(g.rcpts) == g.rcpts by { assert g.invs[..0] == [] && g.rcpts[..0] == []; }
    assert MessagesOf([[g]]) == [PosedLog(command, digest)[1]];
    assert run.puts[..0] == [] && run.results[..0] == [];
    assert Registrations(run.puts, run.results, run.metas) == [RegisterBlob(PosedKey(digest), PosedReg())];
  }

  /** The run: the invocation is logged, the conclusion begins, writes its message and registers the blob. */
  function PosedSteps(command: Command, digest: Digest): seq<Step> {
    [Log(PosedLog(command, digest)[0]), Begin(ConcludeHandler(PosedRun(command, digest))), Act(0), Act(0)]
  }

  lemma {:induction false} ExecuteSnoc(steps: seq<Step>, step: Step)
    ensures Execute(steps + [step]) == Advance(Execute(steps), step)
  {
    assert (steps + [step])[..|steps|] == steps;
  }

  lemma {:induction false} PosedExecutes(command: Command, digest: Digest)
    ensures Execute(PosedSteps(command, digest))
            == World(PosedLog(command, digest), map[PosedKey(digest) := PosedReg()], [[]])
  {
    var steps, log, run := PosedSteps(command, digest), PosedLog(command, digest), PosedRun(command, digest);
    PosedProduced(command, digest);
    PosedPlan(command, digest);
    hide ConcludeProduced, ConcludePlan, PosedRun, PosedResult, Posing, PosedKey, PosedReg;
    var one, two, three := [steps[0]], [steps[0], steps[1]], [steps[0], steps[1], steps[2]];
    assert [] + one == one && one + [steps[1]] == two && two + [steps[2]] == three && three + [steps[3]] == steps;
    ExecuteSnoc([], steps[0]);
    ExecuteSnoc(one, steps[1]);
    ExecuteSnoc(two, steps[2]);
    ExecuteSnoc(three, steps[3]);
    assert Execute([]) == NEW_WORLD;
    hide Execute;
    var register := RegisterBlob(PosedKey(digest), PosedReg());
    assert Execute(one) == World([log[0]], map[], []);
    assert Execute(two) == World([log[0]], map[], [[WriteMessage(log[1]), register]]);
    assert Execute(three)
          == World(log, map[], [[register]]) by { assert [WriteMessage(log[1]), register][1..] == [register]; }
    assert [register][1..] == [];
    assert Execute(steps).registry == map[PosedKey(digest) := PosedReg()];
  }

  /**
   Any command with an allocation's arguments serves a conclusion as well as an
   allocation would: the registration it leads to is backed by an allocation exactly
   when the command is the allocate command.
   */
  lemma {:induction false} CommandUnchecked(command: Command, digest: Digest)
    ensures var w := Execute(PosedSteps(command, digest));
            && PosedKey(digest) in w.registry && Backed(w.log, PosedKey(digest), w.registry[PosedKey(digest)], false)
            && (Backed(w.log, PosedKey(digest), w.registry[PosedKey(digest)], true) <==> command == Allocate)
            && ((exists inv :: Recorded(w.log, inv) && inv.task.command == Allocate) <==> command == Allocate)
    ensures DirectedRun(PosedSteps(command, digest)) <==> command == Allocate
  {
    var log, steps := PosedLog(command, digest), PosedSteps(command, digest);
    PosedExecutes(command, digest);
    PosedProduced(command, digest);
    RegistrationsBacked(steps);
    PosedDirected(command, digest);
    if command == Allocate { AllocationsBacked(steps); }
    hide Execute, Evidence, DigestCommitted, DirectedRun, PosedSteps, Posing, PosedResult, PosedKey, PosedReg;
    PosedRecorded(command, digest);
  }

  lemma {:induction false} PosedDirected(command: Command, digest: Digest)
    ensures DirectedRun(PosedSteps(command, digest)) <==> command == Allocate
  {
    hide AllDirected, PosedRun, PosedLog, ConcludeProduced;
    PosedProduced(command, digest);
    var steps := PosedSteps(command, digest);
    assert steps[1].Begin? && steps[1].handler == ConcludeHandler(PosedRun(command, digest));
  }

  /** What is on record is the invocation and the accept, neither of them an allocation unless the command is. */
  lemma {:induction false} PosedRecorded(command: Command, digest: Digest)
    ensures forall inv ::
              Recorded(PosedLog(command, digest), inv) && inv.task.command == Allocate ==> command == Allocate
    ensures Recorded(PosedLog(command, digest), Posing(command, digest))
            && Posing(command, digest).task.command == command
  {
    var log := PosedLog(command, digest);
    forall inv | Recorded(log, inv) ensures inv.task.command == command || inv.task.command == Accept {
      var m :| m in log && inv in m.invs;
    }
    assert log[0] in log && Posing(command, digest) in log[0].invs;
  }
}
