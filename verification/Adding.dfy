/**
 Adding a blob: replaying an add that already ran, or allocating, naming the put and
 the accept to come, and accepting at once what a node already holds.
 */
module Adding {
  import opened Words
  import opened DiffLogs
  import opened Tokens
  import opened AgentStore
  import opened Piri
  import opened Routing
  import opened Allocation
  import opened Deliveries
  import opened Protocol
  import opened Concluding
  import opened Registering
  import opened Resolving

  /** What an add answers: a failure, a success naming the accept to wait for, or an error. */
  datatype Reply = AddFailure(name: string) | AddSuccess(site: Link, meta: Container) | Errored

  const INSUFFICIENT_STORAGE := "InsufficientStorage"
  const MISSING_NONCE := "MissingNonce"
  const CANDIDATE_UNAVAILABLE := "CandidateUnavailable"
  const UNSUPPORTED_DIGEST_CODE := "UnsupportedDigestCode"

  function Found(r: Option<Receipt>): seq<Receipt> {
    if r.Some? then [r.value] else []
  }

  /** The answer of an add that already ran, rebuilt from its receipt and the tasks behind it. */
  function Replay(log: seq<Container>, rcpt: Receipt): Reply {
    if !rcpt.out.AddOK? then Errored
    else
      var site := rcpt.out.site;
      var acc := FirstInvocation(log, site);
      if acc.None? || !acc.value.task.args.AcceptArgs? then Errored
      else
        var put := FirstInvocation(log, acc.value.task.args.put);
        if put.None? || !put.value.task.args.PutArgs? then Errored
        else
          var task := put.value.task.args.destination;
          var alloc, allocRcpt := FirstInvocation(log, task), FirstReceipt(log, task);
          if alloc.None? || allocRcpt.None? then Errored
          else
            AddSuccess(site, Pack([alloc.value, put.value, acc.value],
                                  [allocRcpt.value] + Found(FirstReceipt(log, acc.value.task.args.put))
                                    + Found(FirstReceipt(log, site))))
  }

  /** The tasks behind a site on record: the accept, the put it is for, and the allocation with its receipt. */
  ghost predicate Chain(log: seq<Container>, site: Link, acc: Invocation, put: Invocation, alloc: Invocation,
          allocRcpt: Receipt) {
    && FirstInvocation(log, site) == Some(acc) && acc.task.args.AcceptArgs?
    && FirstInvocation(log, acc.task.args.put) == Some(put) && put.task.args.PutArgs?
    && FirstInvocation(log, put.task.args.destination) == Some(alloc)
    && FirstReceipt(log, put.task.args.destination) == Some(allocRcpt)
  }

  /**
   An add's receipt replayed: a success names the receipt's site and carries the three
   tasks behind it and the receipts on record for them, and nothing else; without the
   tasks, or the allocation's receipt, it is an error.
   */
  ghost predicate Rebuilt(log: seq<Container>, rcpt: Receipt, r: Reply) {
    if r.AddSuccess?
    then
      && rcpt.out == AddOK(r.site)
      && exists acc, put, alloc, allocRcpt ::
           && Chain(log, r.site, acc, put, alloc, allocRcpt)
           && (forall x :: x in r.meta.invs <==> x in {alloc, put, acc})
           && (forall x :: x in r.meta.rcpts <==>
                 || x == allocRcpt || FirstReceipt(log, acc.task.args.put) == Some(x)
                 || FirstReceipt(log, r.site) == Some(x))
    else
      && r.Errored?
      && (rcpt.out.AddOK? ==>
            forall acc, put, alloc, allocRcpt :: !Chain(log, rcpt.out.site, acc, put, alloc, allocRcpt))
  }

  lemma {:induction false} ReplayRebuilds(log: seq<Container>, rcpt: Receipt)
    ensures Rebuilt(log, rcpt, Replay(log, rcpt))
  {
    hide FirstInvocation, FirstReceipt;
    if Replay(log, rcpt).AddSuccess? {
      var site := rcpt.out.site;
      var acc := FirstInvocation(log, site).value;
      var put := FirstInvocation(log, acc.task.args.put).value;
      var task := put.task.args.destination;
      var alloc, allocRcpt := FirstInvocation(log, task).value, FirstReceipt(log, task).value;
      PackHolds([alloc, put, acc],
                [allocRcpt] + Found(FirstReceipt(log, acc.task.args.put)) + Found(FirstReceipt(log, site)));
      assert Chain(log, site, acc, put, alloc, allocRcpt);
    }
  }

  /** What an add that names no digest answers when its task has run before. */
  function PriorReply(log: seq<Container>, cause: Link): Option<Reply> {
    match FirstReceipt(log, cause)
    case None => None
    case Some(rcpt) => Some(if rcpt.out.Failure? then AddFailure(rcpt.out.name) else Replay(log, rcpt))
  }

  /** A receipt on record answers an add again: a failure with its name, anything else rebuilt. */
  ghost predicate Replies(log: seq<Container>, rcpt: Receipt, r: Reply) {
    if rcpt.out.Failure? then r == AddFailure(rcpt.out.name) else Rebuilt(log, rcpt, r)
  }

  /** The add that caused a registration, replayed; it must be on record and have succeeded. */
  ghost predicate ReplaysCause(log: seq<Container>, cause: Link, r: Reply) {
    var add := FirstReceipt(log, cause);
    if add.None? || add.value.out.Failure? then r.Errored? else Rebuilt(log, add.value, r)
  }

  // ----- a promise kept

  /** A reply that keeps an earlier one's promise: the same failure, or the same site and at least its receipts. */
  predicate Keeps(earlier: Reply, later: Reply) {
    match earlier
    case AddFailure(_) => later == earlier
    case AddSuccess(site, meta) =>
      && later.AddSuccess? && later.site == site && later.meta.invs == meta.invs
      && forall r :: r in meta.rcpts ==> r in later.meta.rcpts
    case Errored => true
  }

  lemma {:induction false} ReplayKeeps(log: seq<Container>, more: seq<Container>, rcpt: Receipt)
    ensures Keeps(Replay(log, rcpt), Replay(log + more, rcpt))
  {
    if Replay(log, rcpt).AddSuccess? {
      var site := rcpt.out.site;
      FirstStays(log, more, site);
      var put := FirstInvocation(log, site).value.task.args.put;
      FirstStays(log, more, put);
      var task := FirstInvocation(log, put).value.task.args.destination;
      FirstStays(log, more, task);
      hide FirstInvocation, FirstReceipt;
      var log' := log + more;
      DedupKeeps([FirstReceipt(log, task).value] + Found(FirstReceipt(log, put)) + Found(FirstReceipt(log, site)));
      DedupKeeps([FirstReceipt(log', task).value] + Found(FirstReceipt(log', put)) + Found(FirstReceipt(log', site)));
      hide Dedup;
    }
  }

  /**
   Once an add that names no digest has a receipt, every later answer to its task is
   decided by that receipt: the same failure, or a success with the same site as soon
   as the tasks behind it are on record and ever after, and no other.
   */
  lemma {:induction false} StablePromise(log: seq<Container>, more: seq<Container>, cause: Link)
    requires FirstReceipt(log, cause).Some?
    ensures PriorReply(log + more, cause).Some?
    ensures Keeps(PriorReply(log, cause).value, PriorReply(log + more, cause).value)
    ensures PriorReply(log + more, cause).value.AddSuccess? ==>
              FirstReceipt(log, cause).value.out == AddOK(PriorReply(log + more, cause).value.site)
    ensures PriorReply(log + more, cause).value.AddFailure? ==>
              FirstReceipt(log, cause).value.out == Failure(PriorReply(log + more, cause).value.name)
  {
    FirstStays(log, more, cause);
    ReplayKeeps(log, more, FirstReceipt(log, cause).value);
  }

  lemma {:induction false} LogGrows(steps: seq<Step>, more: seq<Step>)
    ensures Execute(steps).log <= Execute(steps + more).log
    decreases |more|
  {
    if more == [] {
      assert steps + more == steps;
    } else {
      LogGrows(steps, more[..|more| - 1]);
      assert (steps + more)[..|steps + more| - 1] == steps + more[..|more| - 1];
      RegistrationsBacked(steps + more[..|more| - 1]);
      AdvanceSound(Execute(steps + more[..|more| - 1]), more[|more| - 1], false);
    }
  }

  /** Whatever requests, handlers and failures follow, the promise stands. */
  lemma {:induction false} PromiseInRuns(steps: seq<Step>, more: seq<Step>, cause: Link)
    requires FirstReceipt(Execute(steps).log, cause).Some?
    ensures PriorReply(Execute(steps + more).log, cause).Some?
    ensures Keeps(PriorReply(Execute(steps).log, cause).value, PriorReply(Execute(steps + more).log, cause).value)
  {
    LogGrows(steps, more);
    var log, log' := Execute(steps).log, Execute(steps + more).log;
    hide Execute, PriorReply, Keeps;
    assert log' == log + log'[|log|..];
    StablePromise(log, log'[|log|..], cause);
  }

  lemma {:induction false} MemberFound(log: seq<Container>, m: Container)
    requires m in log
    ensures forall inv ::
              inv in m.invs ==>
                FirstInvocation(log, TaskOf(inv)).Some? && FirstInvocation(log, TaskOf(inv)).value.task == inv.task
    ensures forall r :: r in m.rcpts ==> FirstReceipt(log, r.ran).Some?
  {
    forall inv | inv in m.invs
      ensures FirstInvocation(log, TaskOf(inv)).Some? && FirstInvocation(log, TaskOf(inv)).value.task == inv.task
    {
      InvocationFound(m.invs, TaskOf(inv));
      FirstFound(log, TaskOf(inv));
      var m' :| m' in log && FirstInvocation(log, TaskOf(inv)) == InvocationIn(m'.invs, TaskOf(inv));
      InvocationFound(m'.invs, TaskOf(inv));
    }
    forall r | r in m.rcpts ensures FirstReceipt(log, r.ran).Some? {
      ReceiptFound(m.rcpts, r.ran);
      FirstFound(log, r.ran);
    }
  }

  /** The response of an add, once logged, is enough to replay it with its site. */
  lemma {:induction false} ResponseReplays(log: seq<Container>, m: Container, rcpt: Receipt, alloc: Invocation,
          allocRcpt: Receipt, put: Invocation, acc: Invocation)
    requires m in log && alloc in m.invs && put in m.invs && acc in m.invs && allocRcpt in m.rcpts
    requires rcpt.out == AddOK(TaskOf(acc)) && allocRcpt.ran == TaskOf(alloc)
    requires acc.task.args.AcceptArgs? && acc.task.args.put == TaskOf(put)
    requires put.task.args.PutArgs? && put.task.args.destination == TaskOf(alloc)
    ensures Replay(log, rcpt).AddSuccess? && Replay(log, rcpt).site == TaskOf(acc)
  {
    MemberFound(log, m);
  }

  // ----- the accept to come

  /** The put an add asks for: run by a key anyone with the blob, or the add's task, can derive. */
  function PutInvocation(blob: BlobSpec, cause: Link, alloc: Invocation, nonce: string, envelope: string): Invocation {
    var provider := if blob.Hashed? then FromDigest(blob.digest) else FromTask(cause);
    Invocation(Task(provider, Put, PutArgs(blob, TaskOf(alloc)), Some(nonce)), envelope)
  }

  /** The accept an add names as its site. */
  function SiteOf(node: string, space: string, blob: BlobSpec, put: Invocation): Link {
    OfTask(AcceptTask(node, AcceptRequest(space, blob, TaskOf(put), None, None)))
  }

  /**
   The accept sent when a put is concluded is the one the add named as its site,
   whatever envelope the client delivers the put in.
   */
  lemma {:induction false} SiteIsAccepted(log: seq<Container>, c: Conclusion, node: string, space: string,
          blob: BlobSpec, cause: Link, alloc: Invocation, put: Invocation)
    requires Recorded(log, alloc) && alloc.task.subject == Named(node)
             && alloc.task.args == AllocateArgs(space, blob, cause)
    requires put.task.args == PutArgs(blob, TaskOf(alloc)) && c.inv.task == put.task
    ensures !ResolvePut(log, c).Broken?
    ensures ResolvePut(log, c).Resolved? ==>
              && OfTask(AcceptTask(node, ResolvePut(log, c).put.req)) == SiteOf(node, space, blob, put)
              && ResolvePut(log, c).put.provider == Named(node)
    ensures ResolvePut(log, c).Skipped? <==> blob.Unhashed? && PutDigest(c.rcpt, blob.code).None?
    ensures Addressed(c) <==> alloc.task.command == Allocate
  {
    var m :| m in log && alloc in m.invs;
    MemberFound(log, m);
  }

  // ----- the handler

  /** What comes of accepting at once on a node that holds the blob already. */
  datatype AcceptAnswer =
    | NotAccepted
    | AcceptedBy(envelope: string, stamp: string, commitment: Option<Link>, pdp: Option<Link>, meta: Container,
                 recorded: bool)

  /** What happens outside the service while an add runs. */
  datatype Outside = Outside(
    provisioned: bool, nodes: string -> NodeAnswer, derives: Digest -> bool, putNonce: string, putEnvelope: string,
    acceptEnvelope: string, accept: AcceptAnswer)

  method ReplayAdd(agent: Memory, rcpt: Receipt) returns (r: Reply)
    requires agent.Valid()
    ensures r == Replay(agent.log, rcpt) && Rebuilt(agent.log, rcpt, r)
  {
    hide Rebuilt, Earliest, EarliestReceipt;
    ReplayRebuilds(agent.log, rcpt);
    if !rcpt.out.AddOK? { return Errored; }
    var acc := agent.GetInvocation(rcpt.out.site);
    if acc.None? || !acc.value.task.args.AcceptArgs? { return Errored; }
    var putTask := acc.value.task.args.put;
    var put := agent.GetInvocation(putTask);
    if put.None? || !put.value.task.args.PutArgs? { return Errored; }
    var allocRcpt := agent.GetReceipt(put.value.task.args.destination);
    if allocRcpt.None? { return Errored; }
    var alloc := agent.GetInvocation(put.value.task.args.destination);
    if alloc.None? { return Errored; }
    var rcpts := [allocRcpt.value];
    var more := agent.GetReceipt(putTask);
    if more.Some? { rcpts := rcpts + [more.value]; }
    more := agent.GetReceipt(rcpt.out.site);
    if more.Some? { rcpts := rcpts + [more.value]; }
    assert rcpts
        == [allocRcpt.value] + Found(FirstReceipt(agent.log, putTask))
          + Found(FirstReceipt(agent.log, rcpt.out.site));
    return AddSuccess(rcpt.out.site, Pack([alloc.value, put.value, acc.value], rcpts));
  }

  /** Accepts at once when the node already held the blob, and registers it. */
  method MaybeAccept(agent: Memory, table: BlobTable, node: string, space: string, blob: BlobSpec, cause: Link,
          put: Invocation, putRcpt: Option<Receipt>, answer: AcceptAnswer)
      returns (ok: bool, accepted: Option<Accepted>)
    requires agent.Valid()
    modifies agent, table
    ensures agent.Valid() && old(agent.log) <= agent.log
    ensures ok && accepted.None? ==> agent.log == old(agent.log) && table.records == old(table.records)
    ensures accepted.Some? ==> blob.Hashed? && putRcpt.Some?
    ensures ok && blob.Hashed? && putRcpt.Some? ==> accepted.Some?
    ensures !ok ==>
              && blob.Hashed? && putRcpt.Some?
              && (answer.NotAccepted? || !answer.recorded || BlobKey(space, blob.digest) in old(table.records)
                  || |answer.meta.invs| + |answer.meta.rcpts| + 2 > MAX_TOKENS)
    ensures ok && accepted.Some? ==>
              && BlobKey(space, blob.digest) !in old(table.records)
              && table.records == old(table.records)[BlobKey(space, blob.digest) := Registration(blob.size, cause)]
              && agent.log
                 == old(agent.log)
                 + [Pack([accepted.value.inv] + accepted.value.meta.invs,
                         [accepted.value.rcpt] + accepted.value.meta.rcpts)]
              && accepted.value.inv.task == AcceptTask(node, AcceptRequest(space, blob, TaskOf(put), None, None))
              && accepted.value.rcpt.ran == TaskOf(accepted.value.inv) && accepted.value.rcpt.out.AcceptOK?
    ensures !ok ==> table.records == old(table.records)
  {
    if !(blob.Hashed? && putRcpt.Some?) { return true, None; }
    if answer.NotAccepted? { return false, None; }
    var inv := Invocation(AcceptTask(node, AcceptRequest(space, blob, TaskOf(put), Some(put), putRcpt)),
                          answer.envelope);
    var rcpt := Receipt(TaskOf(inv), AcceptOK(answer.commitment, answer.pdp), answer.stamp);
    if !answer.recorded { return false, None; }
    var m := Pack([inv] + answer.meta.invs, [rcpt] + answer.meta.rcpts);
    DedupKeeps([inv] + answer.meta.invs);
    DedupKeeps([rcpt] + answer.meta.rcpts);
    var written := agent.Write(m, IndexOf(m));
    if !written { return false, None; }
    ok := table.Register(BlobKey(space, blob.digest), Registration(blob.size, cause));
    if !ok { return false, None; }
    return true, Some(Accepted(inv, rcpt, answer.meta));
  }

  /** An add that has to upload: a space's blob that is not registered there, and whose task has not run. */
  ghost predicate Uploads(log: seq<Container>, records: BlobRecords, inv: Invocation)
    requires inv.task.args.AddArgs? && inv.task.subject.Named?
  {
    var blob := inv.task.args.blob;
    if blob.Hashed? then BlobKey(inv.task.subject.did, blob.digest) !in records
    else inv.task.nonce.Some? && inv.task.nonce.value != "" && FirstReceipt(log, TaskOf(inv)).None?
  }

  /** A response that holds the allocation, its receipt, the put and the accept an add promises. */
  ghost predicate HoldsChain(meta: Container, a: AddRun, put: Invocation, site: Link) {
    && a.alloc in meta.invs && put in meta.invs && a.allocRcpt in meta.rcpts && a.allocRcpt.ran == TaskOf(a.alloc)
    && exists acc :: acc in meta.invs && TaskOf(acc) == site
  }

  /**
   Once the response of an add is logged with its receipt, a replay answers with the
   site the add answered with.
   */
  lemma {:induction false} LoggedAddReplays(log: seq<Container>, m: Container, meta: Container, a: AddRun,
          put: Invocation, rcpt: Receipt)
    requires m in log && rcpt.out == AddOK(SiteOf(a.node, a.space, a.blob, put))
    requires (forall x :: x in meta.invs ==> x in m.invs) && (forall x :: x in meta.rcpts ==> x in m.rcpts)
    requires HoldsChain(meta, a, put, SiteOf(a.node, a.space, a.blob, put))
             && put.task.args == PutArgs(a.blob, TaskOf(a.alloc))
    ensures Replay(log, rcpt).AddSuccess? && Replay(log, rcpt).site == SiteOf(a.node, a.space, a.blob, put)
  {
    var acc :| acc in meta.invs && TaskOf(acc) == SiteOf(a.node, a.space, a.blob, put);
    ResponseReplays(log, m, rcpt, a.alloc, a.allocRcpt, put, acc);
  }

  /** Everything an upload answered with a success promises. */
  ghost predicate Promised(r: Reply, a: AddRun, put: Invocation)
  {
    && r.AddSuccess? && AddProduced(a) && r.site == SiteOf(a.node, a.space, a.blob, put)
    && HoldsChain(r.meta, a, put, r.site)
  }

  /** The put an add asks for: of its blob, to its allocation, by a principal derived from the digest or the add. */
  ghost predicate PutAsked(put: Invocation, a: AddRun) {
    && put.task.command == Put && put.task.args == PutArgs(a.blob, OfTask(a.alloc.task))
    && put.task.subject == if a.blob.Hashed? then FromDigest(a.blob.digest) else FromTask(a.cause)
  }

  /**
   A response to an upload. Its node granted the allocation. Where the node has the blob
   already, the service issues the put's receipt itself and accepts a blob it knows the
   digest of at once; where it has yet to receive it, neither.
   */
  ghost predicate Responds(r: Reply, a: AddRun, put: Invocation, granted: NodeAnswer) {
    && r.AddSuccess? && Yields(granted) && PutAsked(put, a)
    && r.site == OfTask(Task(Named(a.node), Accept, AcceptArgs(a.space, a.blob, OfTask(put.task)), None))
    && a.alloc.task == Task(Named(a.node), Allocate, AllocateArgs(a.space, a.blob, a.cause), Some(granted.nonce))
    && a.allocRcpt.ran == OfTask(a.alloc.task) && a.allocRcpt.out == AllocateOK(granted.hasAddress)
    && (a.accepted.Some? <==> !granted.hasAddress && a.blob.Hashed?)
    && (a.accepted.Some? ==> OfTask(a.accepted.value.inv.task) == r.site)
    && (forall x :: x in r.meta.rcpts <==>
          || x == a.allocRcpt || (!granted.hasAddress && x == Receipt(OfTask(put.task), PutOK(Nothing), ""))
          || (a.accepted.Some? && (x == a.accepted.value.rcpt || x in a.accepted.value.meta.rcpts)))
    && exists acc: Invocation :: OfTask(acc.task) == r.site
                     && (forall x :: x in r.meta.invs <==>
                           || x in {a.alloc, put, acc} || (a.accepted.Some? && x in a.accepted.value.meta.invs))
  }

  /** What an upload leaves: its messages logged, and its blob registered only if it was accepted. */
  ghost predicate Leaves(a: AddRun, log: seq<Container>, log': seq<Container>, records: BlobRecords,
          records': BlobRecords) {
    var asked := Pack([a.alloc], [a.allocRcpt]);
    match a.accepted
    case None => log' == log + [asked] && records' == records
    case Some(acc) =>
      && a.blob.Hashed? && BlobKey(a.space, a.blob.digest) !in records
      && log' == log + [asked, Pack([acc.inv] + acc.meta.invs, [acc.rcpt] + acc.meta.rcpts)]
      && records' == records[BlobKey(a.space, a.blob.digest) := Registration(a.blob.size, a.cause)]
  }

  /** Every node that could be asked was, and none granted the allocation. */
  ghost predicate NoneGrants(store: ProviderStore, policies: PolicyStore, space: string, nodes: string -> NodeAnswer,
          asked: seq<string>, name: string)
    reads store, policies
  {
    && (forall did :: MayTake(store, policies, space, [], did) <==> did in asked)
    && (forall did :: did in asked ==> !Yields(nodes(did)) && !nodes(did).NoClient?)
    && name == if exists did :: did in asked && nodes(did) == Refuses(true) then UNSUPPORTED_DIGEST_CODE
               else CANDIDATE_UNAVAILABLE
  }

  /** What breaks an upload: the draw, the node's client, the key, or the accept of what the node already has. */
  ghost predicate Trips(store: ProviderStore, records: BlobRecords, space: string, blob: BlobSpec, outside: Outside,
          asked: seq<string>)
    reads store
  {
    || !Weighable(store) || (asked != [] && outside.nodes(asked[|asked| - 1]).NoClient?)
    || (blob.Hashed? && !outside.derives(blob.digest))
    || (blob.Hashed? && asked != [] && Yields(outside.nodes(asked[|asked| - 1]))
        && !outside.nodes(asked[|asked| - 1]).hasAddress && AcceptTrips(records, space, blob, outside.accept))
  }

  ghost predicate AcceptTrips(records: BlobRecords, space: string, blob: BlobSpec, answer: AcceptAnswer)
    requires blob.Hashed?
  {
    || answer.NotAccepted? || !answer.recorded || BlobKey(space, blob.digest) in records
    || |answer.meta.invs| + |answer.meta.rcpts| + 2 > MAX_TOKENS
  }

  /** An upload done: what its response promises, and what it leaves. */
  ghost predicate Uploaded(r: Reply, a: AddRun, put: Invocation, granted: NodeAnswer, log: seq<Container>,
          log': seq<Container>, records: BlobRecords, records': BlobRecords) {
    && Promised(r, a, put) && Responds(r, a, put, granted) && Leaves(a, log, log', records, records')
    && log' == log + Writes(AddPlan(a)) && records' == AddedAll(records, AddPlan(a))
  }

  /** An allocation a node granted, as it is logged. */
  ghost predicate Granted(node: string, space: string, blob: BlobSpec, cause: Link, alloc: Invocation,
          allocRcpt: Receipt, granted: NodeAnswer) {
    && Yields(granted)
    && alloc.task == Task(Named(node), Allocate, AllocateArgs(space, blob, cause), Some(granted.nonce))
    && allocRcpt.ran == OfTask(alloc.task) && allocRcpt.out == AllocateOK(granted.hasAddress)
  }

  /** Names the put and the accept to come, and accepts at once what the node already holds. */
  method Respond(agent: Memory, table: BlobTable, node: string, alloc: Invocation, allocRcpt: Receipt,
          hasAddress: bool, space: string, blob: BlobSpec, cause: Link, outside: Outside, ghost log: seq<Container>)
      returns (r: Reply, ghost run: Option<AddRun>)
    requires agent.Valid() && agent.log == log + [Pack([alloc], [allocRcpt])]
    requires Granted(node, space, blob, cause, alloc, allocRcpt, outside.nodes(node))
    requires hasAddress == outside.nodes(node).hasAddress
    modifies agent, table
    ensures agent.Valid() && old(agent.log) <= agent.log
    ensures run.Some? <==> r.AddSuccess?
    ensures run.Some? ==>
              && run.value.node == node && run.value.space == space && run.value.blob == blob
              && run.value.cause == cause && run.value.alloc == alloc
              && Uploaded(r, run.value, PutInvocation(blob, cause, alloc, outside.putNonce, outside.putEnvelope),
                          outside.nodes(node), log, agent.log, old(table.records), table.records)
    ensures run.None? ==>
              && r.Errored? && table.records == old(table.records) && blob.Hashed? && !hasAddress
              && AcceptTrips(table.records, space, blob, outside.accept)
  {
    hide AddPlan, Writes, AddedAll, Pack, Memory.Valid, Uploaded, ResponseOf;
    run := None;
    var put := PutInvocation(blob, cause, alloc, outside.putNonce, outside.putEnvelope);
    var putRcpt := if hasAddress then None else Some(Receipt(TaskOf(put), PutOK(Nothing), ""));
    var ok, accepted := MaybeAccept(agent, table, node, space, blob, cause, put, putRcpt, outside.accept);
    if !ok { return Errored, run; }
    ghost var a := AddRun(node, space, blob, cause, alloc, allocRcpt, accepted);
    var acc := if accepted.Some? then accepted.value.inv
               else Invocation(AcceptTask(node, AcceptRequest(space, blob, TaskOf(put), None, None)),
                               outside.acceptEnvelope);
    Performed(log, old(table.records), a);
    UploadDone(a, put, putRcpt, acc, outside.nodes(node), log, agent.log, old(table.records), table.records);
    r, run := AddSuccess(SiteOf(node, space, blob, put),
                         ResponseOf(alloc, allocRcpt, put, putRcpt, acc, accepted)), Some(a);
  }

  lemma {:induction false} UploadDone(a: AddRun, put: Invocation, putRcpt: Option<Receipt>, acc: Invocation,
          granted: NodeAnswer, log: seq<Container>, log': seq<Container>, records: BlobRecords, records': BlobRecords)
    requires Granted(a.node, a.space, a.blob, a.cause, a.alloc, a.allocRcpt, granted)
    requires PutAsked(put, a) && TaskOf(acc) == SiteOf(a.node, a.space, a.blob, put)
    requires putRcpt == if granted.hasAddress then None else Some(Receipt(TaskOf(put), PutOK(Nothing), ""))
    requires a.accepted.Some? <==> a.blob.Hashed? && putRcpt.Some?
    requires a.accepted.Some? ==>
               && a.accepted.value.inv == acc && a.accepted.value.rcpt.out.AcceptOK?
               && a.accepted.value.rcpt.ran == TaskOf(acc) && BlobKey(a.space, a.blob.digest) !in records
    requires log' == log + Writes(AddPlan(a)) && records' == AddedAll(records, AddPlan(a))
    ensures Uploaded(AddSuccess(SiteOf(a.node, a.space, a.blob, put),
                                ResponseOf(a.alloc, a.allocRcpt, put, putRcpt, acc, a.accepted)), a, put, granted,
                     log, log', records, records')
  {
    Produces(a, put);
    HasChain(a, put, putRcpt, acc);
    Responded(a, put, putRcpt, acc, granted);
    Left(a, log, log', records, records');
    hide Responds, Leaves, AddProduced, HoldsChain, Writes, AddPlan, AddedAll, ResponseOf;
  }

  /** Allocates, names the put and the accept to come, and accepts at once what the node already holds. */
  method Upload(agent: Memory, table: BlobTable, store: ProviderStore, policies: PolicyStore, space: string,
          blob: BlobSpec, cause: Link, outside: Outside)
      returns (r: Reply, ghost asked: seq<string>, ghost run: Option<AddRun>)
    requires agent.Valid() && store.Valid()
    modifies agent, table
    ensures agent.Valid() && old(agent.log) <= agent.log
    ensures run.Some? <==> r.AddSuccess?
    ensures run.Some? ==> run.value.space == space && run.value.blob == blob && run.value.cause == cause
    ensures run.Some? ==>
              Uploaded(r, run.value,
                       PutInvocation(blob, cause, run.value.alloc, outside.putNonce, outside.putEnvelope),
                       outside.nodes(run.value.node), old(agent.log), agent.log, old(table.records), table.records)
    ensures run.None? ==> table.records == old(table.records)
    ensures r.AddFailure? ==> NoneGrants(store, policies, space, outside.nodes, asked, r.name)
    ensures r.Errored? ==> Trips(store, old(table.records), space, blob, outside, asked)
  {
    hide MayTake, Asked, Memory.Valid, ProviderStore.Valid, Weighable, Uploaded, Pack, PutInvocation;
    run := None;
    var allocation;
    allocation, asked := DoAllocate(store, policies, agent, outside.nodes, space, blob, cause);
    if allocation.CandidateUnavailable? { return AddFailure(CANDIDATE_UNAVAILABLE), asked, run; }
    if allocation.UnsupportedDigestCode? { return AddFailure(UNSUPPORTED_DIGEST_CODE), asked, run; }
    if !allocation.Allocated? { return Errored, asked, run; }
    if blob.Hashed? && !outside.derives(blob.digest) { return Errored, asked, run; }
    r, run := Respond(agent, table, allocation.provider.did, allocation.inv, allocation.rcpt, allocation.hasAddress,
                      space, blob, cause, outside, old(agent.log));
  }

  lemma {:induction false} Responded(a: AddRun, put: Invocation, putRcpt: Option<Receipt>, acc: Invocation,
          granted: NodeAnswer)
    requires Granted(a.node, a.space, a.blob, a.cause, a.alloc, a.allocRcpt, granted)
    requires PutAsked(put, a) && TaskOf(acc) == SiteOf(a.node, a.space, a.blob, put)
    requires putRcpt == if granted.hasAddress then None else Some(Receipt(TaskOf(put), PutOK(Nothing), ""))
    requires a.accepted.Some? <==> a.blob.Hashed? && putRcpt.Some?
    requires a.accepted.Some? ==> a.accepted.value.inv == acc
    ensures Responds(AddSuccess(SiteOf(a.node, a.space, a.blob, put),
                                ResponseOf(a.alloc, a.allocRcpt, put, putRcpt, acc, a.accepted)), a, put, granted)
  {
    PackHolds([a.alloc, put, acc] + (if a.accepted.Some? then a.accepted.value.meta.invs else []),
              [a.allocRcpt] + Found(putRcpt)
                + if a.accepted.Some? then [a.accepted.value.rcpt] + a.accepted.value.meta.rcpts else []);
    hide Pack;
  }

  lemma {:induction false} Left(a: AddRun, log: seq<Container>, log': seq<Container>, records: BlobRecords,
          records': BlobRecords)
    requires a.accepted.Some? ==> a.blob.Hashed? && BlobKey(a.space, a.blob.digest) !in records
    requires log' == log + Writes(AddPlan(a)) && records' == AddedAll(records, AddPlan(a))
    ensures Leaves(a, log, log', records, records')
  {
    Performed(log, records, a);
    hide Writes, AddPlan, AddedAll;
  }

  /** What an add's response carries beside its receipt. */
  function ResponseOf(alloc: Invocation, allocRcpt: Receipt, put: Invocation, putRcpt: Option<Receipt>, acc: Invocation,
          accepted: Option<Accepted>): Container {
    Pack([alloc, put, acc] + (if accepted.Some? then accepted.value.meta.invs else []),
         [allocRcpt] + Found(putRcpt)
           + if accepted.Some? then [accepted.value.rcpt] + accepted.value.meta.rcpts else [])
  }

  lemma {:induction false} Produces(a: AddRun, put: Invocation)
    requires a.alloc.task.subject == Named(a.node) && a.alloc.task.command == Allocate
    requires a.alloc.task.args == AllocateArgs(a.space, a.blob, a.cause)
    requires a.accepted.Some? ==>
               && a.blob.Hashed? && a.accepted.value.rcpt.out.AcceptOK?
                  && a.accepted.value.rcpt.ran == TaskOf(a.accepted.value.inv)
               && a.accepted.value.inv.task
                  == AcceptTask(a.node, AcceptRequest(a.space, a.blob, TaskOf(put), None, None))
    ensures AddProduced(a)
  {
  }

  lemma {:induction false} HasChain(a: AddRun, put: Invocation, putRcpt: Option<Receipt>, acc: Invocation)
    requires a.allocRcpt.ran == TaskOf(a.alloc)
    ensures HoldsChain(ResponseOf(a.alloc, a.allocRcpt, put, putRcpt, acc, a.accepted), a, put, TaskOf(acc))
  {
    var invs := [a.alloc, put, acc] + (if a.accepted.Some? then a.accepted.value.meta.invs else []);
    var rcpts := [a.allocRcpt] + Found(putRcpt)
          + if a.accepted.Some? then [a.accepted.value.rcpt] + a.accepted.value.meta.rcpts else [];
    assert invs[0] == a.alloc && invs[1] == put && invs[2] == acc && rcpts[0] == a.allocRcpt;
    PackHolds(invs, rcpts);
  }

  /**
   Runs an add. An add whose blob is registered, or which names no digest and has run
   before, asks no node for anything, persists nothing and is answered by its first
   receipt. Any other answers a success only for a site whose allocation is on record,
   and registers only what its node accepted.
   */
  method BlobAdd(agent: Memory, table: BlobTable, store: ProviderStore, policies: PolicyStore, inv: Invocation,
          outside: Outside)
      returns (r: Reply, ghost asked: seq<string>, ghost run: Option<AddRun>)
    requires agent.Valid() && store.Valid() && inv.task.args.AddArgs? && inv.task.subject.Named?
    modifies agent, table
    ensures agent.Valid() && old(agent.log) <= agent.log
    ensures !outside.provisioned ==> r == AddFailure(INSUFFICIENT_STORAGE)
    ensures !outside.provisioned || !Uploads(old(agent.log), old(table.records), inv) ==>
              asked == [] && agent.log == old(agent.log) && table.records == old(table.records) && run.None?
    ensures outside.provisioned && inv.task.args.blob.Unhashed? && inv.task.nonce in {None, Some("")} ==>
              r == AddFailure(MISSING_NONCE)
    ensures outside.provisioned && inv.task.args.blob.Unhashed? && inv.task.nonce !in {None, Some("")} ==>
              PriorReply(old(agent.log), TaskOf(inv)) in {None, Some(r)}
              && (FirstReceipt(old(agent.log), TaskOf(inv)).Some? ==>
                    Replies(old(agent.log), FirstReceipt(old(agent.log), TaskOf(inv)).value, r))
    ensures outside.provisioned && inv.task.args.blob.Hashed? ==>
              var key := BlobKey(inv.task.subject.did, inv.task.args.blob.digest);
              key in old(table.records) ==> ReplaysCause(old(agent.log), old(table.records)[key].cause, r)
    ensures outside.provisioned && Uploads(old(agent.log), old(table.records), inv) ==>
              && (run.Some? <==> r.AddSuccess?)
              && (r.AddFailure? ==>
                    NoneGrants(store, policies, inv.task.subject.did, outside.nodes, asked, r.name))
              && (r.Errored? ==>
                    Trips(store, old(table.records), inv.task.subject.did, inv.task.args.blob, outside, asked))
    ensures run.Some? ==>
              && run.value.space == inv.task.subject.did && run.value.blob == inv.task.args.blob
                 && run.value.cause == TaskOf(inv)
              && Uploaded(r, run.value,
                          PutInvocation(run.value.blob, run.value.cause, run.value.alloc, outside.putNonce,
                                        outside.putEnvelope),
                          outside.nodes(run.value.node), old(agent.log), agent.log, old(table.records), table.records)
    ensures run.None? ==> table.records == old(table.records)
  {
    hide Uploaded, Replay, Rebuilt, FirstReceipt, Memory.Valid, ProviderStore.Valid, NoneGrants, Trips, PutInvocation;
    asked, run := [], None;
    var blob, space, cause := inv.task.args.blob, inv.task.subject.did, TaskOf(inv);
    if !outside.provisioned { return AddFailure(INSUFFICIENT_STORAGE), asked, run; }
    if blob.Unhashed? {
      if inv.task.nonce.None? || |inv.task.nonce.value| == 0 { return AddFailure(MISSING_NONCE), asked, run; }
      var prior := agent.GetReceipt(cause);
      if prior.Some? {
        if prior.value.out.Failure? { return AddFailure(prior.value.out.name), asked, run; }
        r := ReplayAdd(agent, prior.value);
        return r, asked, run;
      }
    } else if BlobKey(space, blob.digest) in table.records {
      var add := agent.GetReceipt(table.records[BlobKey(space, blob.digest)].cause);
      if add.None? || add.value.out.Failure? { return Errored, asked, run; }
      r := ReplayAdd(agent, add.value);
      return r, asked, run;
    }
    r, asked, run := Upload(agent, table, store, policies, space, blob, cause, outside);
  }

  /** What an add's plan comes to. */
  lemma {:induction false} Performed(log: seq<Container>, records: BlobRecords, a: AddRun)
    requires a.accepted.Some? ==> a.blob.Hashed?
    ensures a.accepted.None? ==>
              Writes(AddPlan(a)) == [Pack([a.alloc], [a.allocRcpt])] && AddedAll(records, AddPlan(a)) == records
    ensures a.accepted.Some? ==>
              var acc, key := a.accepted.value, BlobKey(a.space, a.blob.digest);
              && Writes(AddPlan(a))
                 == [Pack([a.alloc], [a.allocRcpt]), Pack([acc.inv] + acc.meta.invs, [acc.rcpt] + acc.meta.rcpts)]
              && AddedAll(records, AddPlan(a))
                 == if key in records then records else records[key := Registration(a.blob.size, a.cause)]
  {
    var m1 := Pack([a.alloc], [a.allocRcpt]);
    var w1 := WriteMessage(m1);
    assert [] + [w1] == [w1] && AddedAll(records, []) == records && Writes([]) == [];
    AddedStep(records, [], w1);
    WritesAppend([], [w1]);
    assert [w1][..0] == [];
    if a.accepted.Some? {
      var acc := a.accepted.value;
      var w2 := WriteMessage(Pack([acc.inv] + acc.meta.invs, [acc.rcpt] + acc.meta.rcpts));
      var reg := RegisterBlob(BlobKey(a.space, a.blob.digest), Registration(a.blob.size, a.cause));
      assert AddPlan(a) == [w1, w2] + [reg] && [w1, w2] == [w1] + [w2];
      WritesTwo(m1, w2.m);
      WritesAppend([w1, w2], [reg]);
      assert [reg][..0] == [] && Writes([reg]) == [];
      AddedStep(records, [w1], w2);
      AddedStep(records, [w1, w2], reg);
    } else {
      assert AddPlan(a) == [w1];
    }
  }
}
