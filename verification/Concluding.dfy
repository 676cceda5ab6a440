/**
 Concluding puts: each delivered put is resolved to its allocation, the accepts of one
 node are sent, and what comes back is persisted before anything is registered.
 */
module Concluding {
  import opened Words
  import opened DiffLogs
  import opened Tokens
  import opened AgentStore
  import opened Piri
  import opened Attachments
  import opened Grouping
  import opened Packing
  import opened Polling
  import opened Deliveries
  import opened Protocol
  import opened Registering
  import opened Resolving

  /** What each node has received. */
  type Inboxes = map<string, seq<Sent>>

  // ----- one node

  /** What an accept of one node's puts came to: its error, and whether it was persisted and registered. */
  datatype AcceptOutcome = AcceptOutcome(err: Option<BatchError>, persisted: bool)

  /** The messages a run is persisted as. */
  function RunMessages(run: ConcludeRun): seq<Container> {
    MessagesOf(Greedy([], run.groups, run.budget))
  }

  /** What a run registers. */
  function RunRecords(records: BlobRecords, run: ConcludeRun): BlobRecords
    requires |run.puts| == |run.results|
  {
    AddedAll(records, Registrations(run.puts, run.results, run.metas))
  }

  /** Every answered accept of a run is on record, and can be polled for with what its receipt alone names. */
  ghost predicate OnRecord(log: seq<Container>, run: ConcludeRun) {
    && EachPollable(log, run.results, run.metas)
    && forall i :: 0 <= i < |run.results| && run.results[i].rcpt.Some? ==> Attested(log, run.results[i].rcpt.value)
  }

  lemma {:induction false} AllOnRecord(log: seq<Container>, log': seq<Container>, run: ConcludeRun)
    requires Arranged(run.groups, run.results, run.metas) && EachPollable(log', run.results, run.metas)
    requires log' == log + RunMessages(run)
    ensures OnRecord(log', run)
  {
    hide Arranged, EachPollable, Greedy;
    forall i | 0 <= i < |run.results| && run.results[i].rcpt.Some? ensures Attested(log', run.results[i].rcpt.value) {
      var k := ReceiptGrouped(run.groups, run.results, run.metas, i);
      GroupRecorded(log, run.groups, run.budget, k);
    }
  }

  /** Every accept of some puts was sent to their node and answered. */
  ghost predicate Complete(run: ConcludeRun, puts: seq<ConcludedPut>, before: seq<Sent>, after: seq<Sent>) {
    && run.puts == puts && |run.results| == |puts|
    && (forall i :: 0 <= i < |puts| ==> Answered(run.node, puts[i].req, run.results[i]))
    && ChunksSent(run.node, Requests(puts), before, after)
    && |puts| <= (|after| - |before|) * MAX_ACCEPT_BATCH
  }

  /** What accepting one node's puts came to. */
  ghost predicate Ran(run: ConcludeRun, puts: seq<ConcludedPut>, persisted: bool, complete: bool, written: nat,
                      log: seq<Container>, log': seq<Container>, records: BlobRecords, records': BlobRecords,
                      before: seq<Sent>, after: seq<Sent>)
  {
    && ConcludeProduced(log, run) && |run.puts| == |run.results| && run.puts <= puts
    && written <= |RunMessages(run)| && log' == log + RunMessages(run)[..written]
    && (persisted ==> written == |RunMessages(run)| && OnRecord(log', run))
    && records' == (if persisted then RunRecords(records, run) else records)
    && (complete ==> Complete(run, puts, before, after))
  }

  /** The last request a node received is one it did not answer whole. */
  ghost predicate Dropped(answers: seq<Answer>, before: seq<Sent>, after: seq<Sent>) {
    |before| < |after| && Refused(answers, |after| - |before| - 1, after[|after| - 1])
  }

  /** Containers from a node's first answers, one from each. */
  ghost predicate FirstMetas(answers: seq<Answer>, metas: seq<Container>) {
    |metas| <= |answers| && forall c :: 0 <= c < |metas| ==> answers[c].Up? && metas[c] == answers[c].meta
  }

  /** An acceptance with what a node attached to it can be too large for a message. */
  ghost predicate Oversized(answers: seq<Answer>, budget: nat) {
    exists metas, results, groups, g ::
      FirstMetas(answers, metas) && Arranged(groups, results, metas) && g in groups && Size(g) > budget
  }

  /**
   Why accepting one node's puts would fail: nothing lets the service invoke the
   accepts, one cannot be issued, a request is not answered, or what came back does
   not fit its messages.
   */
  ghost predicate Stuck(proven: bool, sign: nat -> Option<string>, budget: nat, answers: seq<Answer>,
                        before: seq<Sent>, after: seq<Sent>)
  {
    || !proven || (exists n :: sign(n).None?) || Dropped(answers, before, after)
    || budget > MAX_TOKENS || Oversized(answers, budget)
  }

  lemma {:induction false} MetasAnswered(results: seq<AcceptResult>, metas: seq<Container>, answers: seq<Answer>)
    requires forall c :: 0 <= c < |metas| ==> ChunkAnswered(results, metas, answers, c)
    ensures FirstMetas(answers, metas)
  {
    hide FromAnswer;
    if metas != [] { assert ChunkAnswered(results, metas, answers, |metas| - 1); }
    forall c | 0 <= c < |metas| ensures answers[c].Up? && metas[c] == answers[c].meta {
      assert ChunkAnswered(results, metas, answers, c);
    }
  }

  lemma {:induction false} StuckWhen(err: Option<BatchError>, persisted: bool, proven: bool,
          sign: nat -> Option<string>, budget: nat, answers: seq<Answer>,
          before: seq<Sent>, after: seq<Sent>, groups: seq<Acceptance>,
          results: seq<AcceptResult>, metas: seq<Container>)
    requires err == Some(NoProofs) ==> !proven
    requires err == Some(NotIssued) ==> exists n :: sign(n).None?
    requires err == Some(NotExecuted) ==> Dropped(answers, before, after)
    requires err != Some(MissingEvidence) && FirstMetas(answers, metas) && Arranged(groups, results, metas)
    requires budget <= MAX_TOKENS && (forall g :: g in groups ==> Size(g) <= budget) ==> persisted
    ensures err.Some? || !persisted ==> Stuck(proven, sign, budget, answers, before, after)
  {
    hide Dropped, FirstMetas, Arranged, Size;
    if err.Some? {
      match err.value {
        case MissingEvidence => assert false;
        case NoProofs => assert err == Some(NoProofs);
        case NotIssued => assert err == Some(NotIssued);
        case NotExecuted => assert err == Some(NotExecuted);
      }
    } else if !persisted && budget <= MAX_TOKENS {
      var g :| g in groups && Size(g) > budget;
      assert Oversized(answers, budget);
    }
  }

  /** Sends the accepts of one node's puts: all of them, or none when nothing lets the service invoke them. */
  method SendAccepts(node: Node, puts: seq<ConcludedPut>, proven: bool, sign: nat -> Option<string>)
      returns (answered: seq<ConcludedPut>, results: seq<AcceptResult>, metas: seq<Container>, err: Option<BatchError>)
    requires forall p :: p in puts ==> !LacksEvidence(p.req)
    modifies node
    ensures |answered| == |results| && answered <= puts
            && (answered == puts || (answered == [] && err == Some(NoProofs)))
    ensures err != Some(MissingEvidence)
    ensures forall i ::
              0 <= i < |results| && (err.None? || results[i].rcpt.Some?) ==>
                Answered(node.did, answered[i].req, results[i])
    ensures ChunksSent(node.did, Requests(puts), old(node.received), node.received)
    ensures err.None? ==> |puts| <= (|node.received| - |old(node.received)|) * MAX_ACCEPT_BATCH
    ensures err == Some(NoProofs) ==> !proven
    ensures err == Some(NotIssued) ==> exists n :: sign(n).None?
    ensures err == Some(NotExecuted) ==> Dropped(old(node.answers), old(node.received), node.received)
    ensures FirstMetas(old(node.answers), metas)
  {
    var reqs := Requests(puts);
    forall i | 0 <= i < |reqs| ensures !LacksEvidence(reqs[i]) { assert puts[i] in puts; }
    results, metas, err := AcceptBatch(node, reqs, proven, sign);
    MetasAnswered(results, metas, old(node.answers));
    hide ChunkAnswered, FirstMetas;
    answered := puts[..|results|];
    hide Answered, ChunksSent, Refused;
    forall i | 0 <= i < |results| && (err.None? || results[i].rcpt.Some?)
      ensures Answered(node.did, answered[i].req, results[i])
    {
      assert reqs[i] == puts[i].req;
    }
  }

  /**
   Accepts one node's puts: sends the accepts, persists what came back, and only then
   registers. A failed request does not keep what earlier ones brought from being
   persisted and registered; a message that cannot be written stops the run after the
   messages before it, and nothing is registered.
   */
  method AcceptOnProvider(agent: Memory, table: BlobTable, node: Node, puts: seq<ConcludedPut>, proven: bool,
          sign: nat -> Option<string>, budget: nat)
      returns (r: AcceptOutcome, ghost run: ConcludeRun, ghost written: nat)
    requires agent.Valid()
    requires forall p :: p in puts ==> Grounded(agent.log, p) && p.provider == Named(node.did) && !LacksEvidence(p.req)
    modifies agent, table, node
    ensures agent.Valid() && run.budget == budget && run.node == node.did
    ensures run.puts == puts || (run.puts == [] && r.err == Some(NoProofs))
    ensures r.err != Some(MissingEvidence) && ChunksSent(node.did, Requests(puts), old(node.received), node.received)
    ensures Ran(run, puts, r.persisted, r.err.None?, written, old(agent.log), agent.log, old(table.records),
                table.records, old(node.received), node.received)
    ensures !r.persisted ==> written < |RunMessages(run)| && table.records == old(table.records)
    ensures r.persisted ==> |run.puts| == |run.results|
                            && RegisteredBy(run.puts, run.results, run.metas, |run.puts|, old(table.records),
                                            table.records)
    ensures FirstMetas(old(node.answers), run.metas)
    ensures r.err.Some? || !r.persisted ==>
              Stuck(proven, sign, budget, old(node.answers), old(node.received), node.received)
  {
    hide ChunksSent, Answered, Grounded, Greedy, Arranged, Registrations, AddedAll, EachPollable, LacksEvidence;
    hide Dropped, FirstMetas, Stuck, Size, ConcludeProduced, Ran, OnRecord, Complete, Memory.Valid, RegisteredBy;
    var answered, results, metas, err := SendAccepts(node, puts, proven, sign);
    AnsweredIssued(node.did, answered, results);
    var ok, groups;
    ghost var log, records := agent.log, table.records;
    ok, groups, written := Persist(agent, results, metas, budget);
    StuckWhen(err, ok, proven, sign, budget, old(node.answers), old(node.received), node.received, groups, results,
              metas);
    run := ConcludeRun(node.did, answered, results, metas, groups, budget);
    if ok { AllOnRecord(log, agent.log, run); }
    Produced(log, run, puts);
    MessagesLength(Greedy([], groups, budget));
    if !ok {
      RanSo(run, puts, false, err.None?, written, log, agent.log, records, records, old(node.received), node.received);
      return AcceptOutcome(err, false), run, written;
    }
    RegisterAccepted(table, answered, results, metas);
    RanSo(run, puts, true, err.None?, written, log, agent.log, records, table.records, old(node.received),
          node.received);
    return AcceptOutcome(err, true), run, written;
  }

  lemma {:induction false} Produced(log: seq<Container>, run: ConcludeRun, puts: seq<ConcludedPut>)
    requires |run.puts| == |run.results| && run.puts <= puts
    requires forall p :: p in puts ==> Grounded(log, p) && p.provider == Named(run.node)
    requires forall i ::
               0 <= i < |run.puts| && run.results[i].rcpt.Some? ==> Answered(run.node, run.puts[i].req, run.results[i])
    requires Arranged(run.groups, run.results, run.metas)
    ensures ConcludeProduced(log, run)
  {
    hide Grounded, Answered, Arranged;
    forall p | p in run.puts ensures p in puts {
      var i :| 0 <= i < |run.puts| && run.puts[i] == p;
      assert puts[i] == p;
    }
  }

  lemma {:induction false} RanSo(run: ConcludeRun, puts: seq<ConcludedPut>, persisted: bool, complete: bool,
          written: nat, log: seq<Container>, log': seq<Container>, records: BlobRecords, records': BlobRecords,
          before: seq<Sent>, after: seq<Sent>)
    requires ConcludeProduced(log, run) && |run.puts| == |run.results| && run.puts <= puts
             && (complete ==> run.puts == puts)
    requires written <= |RunMessages(run)| && log' == log + RunMessages(run)[..written]
    requires persisted ==> written == |RunMessages(run)| && OnRecord(log', run)
    requires records' == if persisted then RunRecords(records, run) else records
    requires complete ==> forall i :: 0 <= i < |puts| ==> Answered(run.node, puts[i].req, run.results[i])
    requires complete ==>
               ChunksSent(run.node, Requests(puts), before, after) && |puts| <= (|after| - |before|) * MAX_ACCEPT_BATCH
    ensures Ran(run, puts, persisted, complete, written, log, log', records, records', before, after)
  {
    hide ConcludeProduced, OnRecord, ChunksSent, Requests, RunMessages, RunRecords;
  }

  lemma {:induction false} AnsweredIssued(node: string, answered: seq<ConcludedPut>, results: seq<AcceptResult>)
    requires |answered| == |results|
    requires forall i :: 0 <= i < |results| && results[i].rcpt.Some? ==> Answered(node, answered[i].req, results[i])
    ensures forall res :: res in results && res.rcpt.Some? ==> res.inv.Some?
  {
  }

  /**
   A run persisted whole is its plan performed to the end, and one cut short is the first
   actions of its plan, all of them messages: nothing was registered.
   */
  lemma {:induction false} RanIsPlan(records: BlobRecords, run: ConcludeRun, written: nat)
    requires |run.puts| == |run.results| && written <= |RunMessages(run)|
    ensures var plan := ConcludePlan(run);
            && Writes(plan) == RunMessages(run) && AddedAll(records, plan) == RunRecords(records, run)
            && written <= |plan| && Writes(plan[..written]) == RunMessages(run)[..written]
            && AddedAll(records, plan[..written]) == records
  {
    var messages, regs := RunMessages(run), Registrations(run.puts, run.results, run.metas);
    hide RunMessages, Registrations, AddedAll, Writes;
    assert ConcludePlan(run) == WriteAll(messages) + regs by { PlanIs(run); }
    WritesAppend(WriteAll(messages), regs);
    WritesAll(messages);
    RegistrationsWrite(run.puts, run.results, run.metas, |regs|);
    assert regs[..|regs|] == regs && messages + [] == messages;
    AddedAppend(records, WriteAll(messages), regs);
    AddedWrites(records, messages);
    assert ConcludePlan(run)[..written] == WriteAll(messages[..written]);
    WritesAll(messages[..written]);
    AddedWrites(records, messages[..written]);
  }

  lemma {:induction false} PlanIs(run: ConcludeRun)
    requires |run.puts| == |run.results|
    ensures ConcludePlan(run) == WriteAll(RunMessages(run)) + Registrations(run.puts, run.results, run.metas)
  {
    hide Greedy, Registrations;
  }

  // ----- every node

  /** Registrations that were there before, or are backed now. */
  ghost predicate BackedSince(log: seq<Container>, before: BlobRecords, records: BlobRecords, strict: bool) {
    forall key ::
        key in records ==> (key in before && records[key] == before[key]) || Backed(log, key, records[key], strict)
  }

  /** What accepting one node's puts registers is backed by what it persisted. */
  lemma {:induction false} RunBacked(log: seq<Container>, run: ConcludeRun, records: BlobRecords, strict: bool)
    requires ConcludeProduced(log, run) && (strict ==> AllDirected(run.puts))
    ensures BackedSince(log + MessagesOf(Greedy([], run.groups, run.budget)), records,
                        AddedAll(records, Registrations(run.puts, run.results, run.metas)), strict)
  {
    var plan := Registrations(run.puts, run.results, run.metas);
    hide Backed, ConcludeProduced, AddedAll, Registrations, Greedy;
    forall key | key in AddedAll(records, plan) && !(key in records && AddedAll(records, plan)[key] == records[key])
      ensures Backed(log + MessagesOf(Greedy([], run.groups, run.budget)), key, AddedAll(records, plan)[key], strict)
    {
      var k := AddedFrom(records, plan, key);
      var i := RegistrationOf(run.puts, run.results, run.metas, k);
      ProducedSizes(log, run);
      PutBacked(log, run, i, strict);
    }
  }

  lemma {:induction false} ProducedSizes(log: seq<Container>, run: ConcludeRun)
    requires ConcludeProduced(log, run)
    ensures |run.puts| == |run.results|
  {
  }

  lemma {:induction false} BackedChain(log: seq<Container>, log': seq<Container>, a: BlobRecords, b: BlobRecords,
          c: BlobRecords, strict: bool)
    requires log <= log' && BackedSince(log, a, b, strict) && BackedSince(log', b, c, strict)
    ensures BackedSince(log', a, c, strict)
  {
    forall key | key in c && !(key in a && c[key] == a[key]) ensures Backed(log', key, c[key], strict) {
      if key in b && c[key] == b[key] { StillBacked(log, log', key, b[key], strict); }
    }
  }

  /** The nodes to send to, each under its own name. */
  ghost predicate Reachable(nodes: map<string, Node>) {
    forall did :: did in nodes ==> nodes[did].did == did
  }

  /** What some runs are persisted as, one after another. */
  function AllMessages(runs: seq<ConcludeRun>): seq<Container> {
    if runs == [] then [] else AllMessages(runs[..|runs| - 1]) + RunMessages(runs[|runs| - 1])
  }

  /** What some runs register, one after another. */
  function AllRecords(records: BlobRecords, runs: seq<ConcludeRun>): BlobRecords
    requires forall i :: 0 <= i < |runs| ==> |runs[i].puts| == |runs[i].results|
  {
    if runs == [] then records else RunRecords(AllRecords(records, runs[..|runs| - 1]), runs[|runs| - 1])
  }

  /** The log and the registry once some runs were persisted and registered. */
  ghost predicate Settles(runs: seq<ConcludeRun>, log: seq<Container>, log': seq<Container>, records: BlobRecords,
          records': BlobRecords) {
    && (forall i :: 0 <= i < |runs| ==> |runs[i].puts| == |runs[i].results|)
    && log' == log + AllMessages(runs) && records' == AllRecords(records, runs)
  }

  lemma {:induction false} SettlesMore(runs: seq<ConcludeRun>, run: ConcludeRun, log: seq<Container>,
          log': seq<Container>, records: BlobRecords, records': BlobRecords)
    requires Settles(runs, log, log', records, records') && |run.puts| == |run.results|
    ensures Settles(runs + [run], log, log' + RunMessages(run), records, RunRecords(records', run))
  {
    hide RunMessages, RunRecords;
    assert (runs + [run])[..|runs|] == runs;
  }

  lemma {:induction false} StillOnRecord(log: seq<Container>, log': seq<Container>, run: ConcludeRun)
    requires log <= log' && OnRecord(log, run)
    ensures OnRecord(log', run)
  {
    hide NamedIn;
    StillHeld(log, log');
    forall rcpt, inv | Pollable(log, rcpt, inv) ensures Pollable(log', rcpt, inv) {
      var m :| m in log && ReceiptIn(m.rcpts, rcpt.ran).Some? && rcpt in m.rcpts && inv in m.invs;
      assert m in log';
    }
  }

  /** The runs of some nodes, in order: each of its own node and of a front of its puts, its accepts on record. */
  ghost predicate RunsOf(runs: seq<ConcludeRun>, providers: seq<Principal>, puts: seq<ConcludedPut>,
          log: seq<Container>) {
    && |runs| <= |providers|
    && forall i :: 0 <= i < |runs| ==>
         && providers[i] == Named(runs[i].node) && |runs[i].puts| == |runs[i].results|
         && runs[i].puts <= Select(ByProvider(puts), providers[i]) && OnRecord(log, runs[i])
  }

  lemma {:induction false} RunsMore(runs: seq<ConcludeRun>, run: ConcludeRun, providers: seq<Principal>,
          puts: seq<ConcludedPut>, log: seq<Container>, log': seq<Container>)
    requires RunsOf(runs, providers, puts, log) && log <= log' && |runs| < |providers|
    requires providers[|runs|] == Named(run.node) && |run.puts| == |run.results|
    requires run.puts <= Select(ByProvider(puts), providers[|runs|]) && OnRecord(log', run)
    ensures RunsOf(runs + [run], providers, puts, log')
  {
    hide OnRecord, Select, ByProvider;
    forall i | 0 <= i < |runs| ensures OnRecord(log', runs[i]) { StillOnRecord(log, log', runs[i]); }
  }

  lemma {:induction false} RunsStill(runs: seq<ConcludeRun>, providers: seq<Principal>, puts: seq<ConcludedPut>,
          log: seq<Container>, log': seq<Container>)
    requires RunsOf(runs, providers, puts, log) && log <= log'
    ensures RunsOf(runs, providers, puts, log')
  {
    hide OnRecord, Select, ByProvider;
    forall i | 0 <= i < |runs| ensures OnRecord(log', runs[i]) { StillOnRecord(log, log', runs[i]); }
  }

  lemma {:induction false} ProvidersDiffer<V>(items: seq<(Principal, V)>, keys: seq<Principal>, i: nat)
    requires Ordered(items, keys) && i < |keys|
    ensures forall j :: 0 <= j < i ==> keys[j] != keys[i]
  {
    hide KeysIn, FirstOf;
  }

  /** What each node has received. */
  ghost function Received(nodes: map<string, Node>): Inboxes
    reads nodes.Values
  {
    map did | did in nodes :: nodes[did].received
  }

  /** The first n runs sent every accept of their node's puts, and had each answered. */
  ghost predicate RunsComplete(runs: seq<ConcludeRun>, n: nat, providers: seq<Principal>, puts: seq<ConcludedPut>,
                               before: Inboxes, after: Inboxes)
  {
    && n <= |runs| <= |providers|
    && forall i :: 0 <= i < n ==>
         && runs[i].node in before && runs[i].node in after && providers[i] == Named(runs[i].node)
         && Complete(runs[i], Select(ByProvider(puts), providers[i]), before[runs[i].node], after[runs[i].node])
  }

  /** How each node will answer. */
  ghost function AnswersOf(nodes: map<string, Node>): map<string, seq<Answer>>
    reads nodes.Values
  {
    map did | did in nodes :: nodes[did].answers
  }

  /** Nodes not reached yet are as they were. */
  ghost predicate Untouched<T>(reached: seq<Principal>, before: map<string, T>, after: map<string, T>) {
    before.Keys == after.Keys && forall did :: did in before && Named(did) !in reached ==> after[did] == before[did]
  }

  lemma {:induction false} CompleteStill(runs: seq<ConcludeRun>, providers: seq<Principal>, puts: seq<ConcludedPut>,
                                         before: Inboxes, was: Inboxes, did: string, sent: seq<Sent>)
    requires RunsComplete(runs, |runs|, providers, puts, before, was) && |runs| < |providers|
             && providers[|runs|] == Named(did)
    requires forall j :: 0 <= j < |runs| ==> providers[j] != providers[|runs|]
    ensures RunsComplete(runs, |runs|, providers, puts, before, was[did := sent])
  {
    hide Complete, Select, ByProvider;
  }

  lemma {:induction false} CompleteSnoc(runs: seq<ConcludeRun>, run: ConcludeRun, providers: seq<Principal>,
          puts: seq<ConcludedPut>, before: Inboxes, after: Inboxes)
    requires RunsComplete(runs, |runs|, providers, puts, before, after) && |runs| < |providers|
    requires providers[|runs|] == Named(run.node) && run.node in before && run.node in after
    ensures RunsComplete(runs + [run], |runs|, providers, puts, before, after)
    ensures Complete(run, Select(ByProvider(puts), providers[|runs|]), before[run.node], after[run.node]) ==>
              RunsComplete(runs + [run], |runs| + 1, providers, puts, before, after)
  {
    hide Complete, Select, ByProvider;
  }

  lemma {:induction false} ReachesMore<T>(providers: seq<Principal>, i: nat, before: map<string, T>,
          was: map<string, T>, did: string, now: T)
    requires i < |providers| && providers[i] == Named(did) && did in was && Untouched(providers[..i], before, was)
    requires forall j :: 0 <= j < i ==> providers[j] != providers[i]
    ensures did in before && before[did] == was[did] && Untouched(providers[..i + 1], before, was[did := now])
  {
    assert providers[..i + 1] == providers[..i] + [providers[i]];
  }

  /** Every node was sent chunks of the accepts of its own puts, and nothing else. */
  ghost predicate AllSent(puts: seq<ConcludedPut>, before: Inboxes, after: Inboxes) {
    && before.Keys == after.Keys
    && forall did :: did in before ==>
         ChunksSent(did, Requests(Select(ByProvider(puts), Named(did))), before[did], after[did])
  }

  lemma {:induction false} SentMore(puts: seq<ConcludedPut>, before: Inboxes, was: Inboxes, did: string,
          sent: seq<Sent>)
    requires AllSent(puts, before, was) && did in before
    requires ChunksSent(did, Requests(Select(ByProvider(puts), Named(did))), before[did], sent)
    ensures AllSent(puts, before, was[did := sent])
  {
    hide ChunksSent, Requests, Select, ByProvider;
  }

  lemma {:induction false} NothingSentYet(puts: seq<ConcludedPut>, order: seq<Principal>, received: Inboxes,
          answers: map<string, seq<Answer>>)
    ensures AllSent(puts, received, received) && Untouched(order[..0], answers, answers)
  {
    hide ChunkSent, Requests, Select, ByProvider;
  }

  /** A put whose node is unknown, or cannot be made to accept it. */
  ghost predicate Fails(p: ConcludedPut, proven: bool, sign: nat -> Option<string>, budget: nat,
                        answers: map<string, seq<Answer>>, before: Inboxes, after: Inboxes)
  {
    p.provider.Named? && p.provider.did in before && p.provider.did in after && p.provider.did in answers ==>
      Stuck(proven, sign, budget, answers[p.provider.did], before[p.provider.did], after[p.provider.did])
  }

  ghost predicate OneFails(puts: seq<ConcludedPut>, proven: bool, sign: nat -> Option<string>, budget: nat,
                           answers: map<string, seq<Answer>>, before: Inboxes, after: Inboxes)
  {
    exists p :: p in puts && Fails(p, proven, sign, budget, answers, before, after)
  }

  lemma {:induction false} OrderHasPut(puts: seq<ConcludedPut>, order: seq<Principal>, i: nat) returns (p: ConcludedPut)
    requires Ordered(ByProvider(puts), order) && i < |order|
    ensures p in puts && p.provider == order[i]
  {
    assert order[i] in (set k | k in order);
    assert order[i] in KeysIn(ByProvider(puts));
    var item :| item in ByProvider(puts) && item.0 == order[i];
    var j :| 0 <= j < |puts| && ByProvider(puts)[j] == item;
    p := puts[j];
  }

  /** The next node's puts cannot be accepted: it is unknown, or stuck. */
  lemma {:induction false} FailsAt(puts: seq<ConcludedPut>, order: seq<Principal>, i: nat, proven: bool,
          sign: nat -> Option<string>, budget: nat, answers: map<string, seq<Answer>>, before: Inboxes, after: Inboxes)
    requires Ordered(ByProvider(puts), order) && i < |order|
    requires order[i].Named? && order[i].did in before && order[i].did in after && order[i].did in answers ==>
               Stuck(proven, sign, budget, answers[order[i].did], before[order[i].did], after[order[i].did])
    ensures OneFails(puts, proven, sign, budget, answers, before, after)
  {
    hide Stuck, Ordered, ByProvider;
    var p := OrderHasPut(puts, order, i);
    assert Fails(p, proven, sign, budget, answers, before, after);
  }

  /** How many runs ended well: all, or all but the last when that may have been cut short. */
  function Finished(runs: seq<ConcludeRun>, ok: bool): nat {
    if ok || runs == [] then |runs| else |runs| - 1
  }

  lemma {:induction false} CompleteLess(runs: seq<ConcludeRun>, n: nat, providers: seq<Principal>,
          puts: seq<ConcludedPut>, before: Inboxes, after: Inboxes)
    requires RunsComplete(runs, |runs|, providers, puts, before, after) && n <= |runs|
    ensures RunsComplete(runs, n, providers, puts, before, after)
  {
    hide Complete;
  }

  /**
   What concluding some resolved puts did: runs persisted and registered in order, all
   sent and answered but perhaps the last.
   */
  ghost predicate Concluded(puts: seq<ConcludedPut>, ok: bool, providers: seq<Principal>, runs: seq<ConcludeRun>,
                            log: seq<Container>, log': seq<Container>, records: BlobRecords, records': BlobRecords,
                            before: Inboxes, after: Inboxes)
  {
    && Ordered(ByProvider(puts), providers) && RunsOf(runs, providers, puts, log')
    && (ok ==> |runs| == |providers| && Settles(runs, log, log', records, records'))
    && (exists whole :: whole <= log' && Settles(runs, log, whole, records, records'))
    && RunsComplete(runs, Finished(runs, ok), providers, puts, before, after)
  }

  /** The first i nodes' puts concluded, nothing cut short. */
  ghost predicate Underway(puts: seq<ConcludedPut>, order: seq<Principal>, i: nat, runs: seq<ConcludeRun>,
                           log: seq<Container>, log': seq<Container>, records: BlobRecords, records': BlobRecords,
                           before: Inboxes, after: Inboxes, strict: bool)
  {
    && |runs| == i <= |order| && Ordered(ByProvider(puts), order) && log <= log'
    && RunsOf(runs, order, puts, log') && BackedSince(log', records, records', strict)
    && Settles(runs, log, log', records, records')
    && RunsComplete(runs, i, order, puts, before, after) && Untouched(order[..i], before, after)
  }

  lemma {:induction false} NothingUnderway(puts: seq<ConcludedPut>, order: seq<Principal>, log: seq<Container>,
          records: BlobRecords, received: Inboxes, strict: bool)
    requires Ordered(ByProvider(puts), order)
    ensures Underway(puts, order, 0, [], log, log, records, records, received, received, strict)
  {
    NoRuns(order, puts, log, records, received);
    BackedStart(log, records, strict);
    hide Ordered, RunsOf, BackedSince, Settles, RunsComplete, Untouched, ByProvider;
  }

  lemma {:induction false} UnderwayConcluded(puts: seq<ConcludedPut>, order: seq<Principal>, i: nat,
          runs: seq<ConcludeRun>, log: seq<Container>, log': seq<Container>, records: BlobRecords,
          records': BlobRecords, before: Inboxes, after: Inboxes, strict: bool)
    requires Underway(puts, order, i, runs, log, log', records, records', before, after, strict)
    ensures Concluded(puts, i == |order|, order, runs, log, log', records, records', before, after)
    ensures Concluded(puts, false, order, runs, log, log', records, records', before, after)
  {
    hide Ordered, RunsOf, BackedSince, Settles, RunsComplete, Untouched, ByProvider;
    CompleteLess(runs, Finished(runs, false), order, puts, before, after);
  }

  lemma {:induction false} RanConcluded(puts: seq<ConcludedPut>, order: seq<Principal>, i: nat, runs: seq<ConcludeRun>,
          run: ConcludeRun, log: seq<Container>, was: seq<Container>, log': seq<Container>, first: BlobRecords,
          records: BlobRecords, records': BlobRecords, before: Inboxes, had: Inboxes, sent: seq<Sent>, persisted: bool,
          complete: bool, written: nat, strict: bool)
    requires Underway(puts, order, i, runs, log, was, first, records, before, had, strict)
    requires i < |order| && order[i] == Named(run.node) && run.node in had && (strict ==> AllDirected(run.puts))
    requires Ran(run, Select(ByProvider(puts), order[i]), persisted, complete, written, was, log', records, records',
                 had[run.node], sent)
    ensures log <= log' && BackedSince(log', first, records', strict)
    ensures run.node in before && before[run.node] == had[run.node]
    ensures persisted && complete ==>
              Underway(puts, order, i + 1, runs + [run], log, log', first, records', before, had[run.node := sent],
                       strict)
    ensures persisted ==>
              Concluded(puts, false, order, runs + [run], log, log', first, records', before, had[run.node := sent])
    ensures !persisted ==>
              Concluded(puts, false, order, runs, log, log', first, records', before, had[run.node := sent])
  {
    hide Ordered, RunsOf, BackedSince, Settles, RunsComplete, Untouched;
    hide ByProvider, Select, Complete, AllDirected, OnRecord, ConcludeProduced;
    hide RunMessages, RunRecords;
    ProvidersDiffer(ByProvider(puts), order, i);
    Lands(was, log', first, records, records', run, persisted, written, strict);
    CompleteStill(runs, order, puts, before, had, run.node, sent);
    ReachesMore(order, i, before, had, run.node, sent);
    if persisted {
      CompleteSnoc(runs, run, order, puts, before, had[run.node := sent]);
      RunsMore(runs, run, order, puts, was, log');
      SettlesMore(runs, run, log, was, first, records);
    } else {
      RunsStill(runs, order, puts, was, log');
      CompleteLess(runs, Finished(runs, false), order, puts, before, had[run.node := sent]);
      assert was <= log' && Settles(runs, log, was, first, records);
    }
  }

  /** Accepts one node's puts, leaving the other nodes alone. */
  method AcceptNext(agent: Memory, table: BlobTable, nodes: map<string, Node>, did: string, puts: seq<ConcludedPut>,
          proven: bool, sign: nat -> Option<string>, budget: nat)
      returns (r: AcceptOutcome, ghost run: ConcludeRun, ghost written: nat)
    requires agent.Valid() && Reachable(nodes) && did in nodes
    requires forall p :: p in puts ==> Grounded(agent.log, p) && p.provider == Named(did) && !LacksEvidence(p.req)
    modifies agent, table, nodes[did]
    ensures agent.Valid() && run.node == did && (run.puts == puts || run.puts == [])
    ensures Ran(run, puts, r.persisted, r.err.None?, written, old(agent.log), agent.log, old(table.records),
                table.records, old(nodes[did].received), nodes[did].received)
    ensures ChunksSent(did, Requests(puts), old(nodes[did].received), nodes[did].received)
    ensures r.err.Some? || !r.persisted ==>
              Stuck(proven, sign, budget, old(nodes[did].answers), old(nodes[did].received), nodes[did].received)
    ensures did in old(Received(nodes)) && old(Received(nodes))[did] == old(nodes[did].received)
    ensures Received(nodes) == old(Received(nodes))[did := nodes[did].received]
    ensures did in old(AnswersOf(nodes)) && old(AnswersOf(nodes))[did] == old(nodes[did].answers)
    ensures AnswersOf(nodes) == old(AnswersOf(nodes))[did := nodes[did].answers]
  {
    hide Stuck, Ran, Grounded, LacksEvidence, Memory.Valid, ChunksSent, RunMessages;
    r, run, written := AcceptOnProvider(agent, table, nodes[did], puts, proven, sign, budget);
  }

  lemma {:induction false} SameNodes(nodes: map<string, Node>)
    ensures Received(nodes).Keys == AnswersOf(nodes).Keys == nodes.Keys
  {
  }

  /** Accepts each node's puts in turn, until one node's fail. */
  method AcceptEach(agent: Memory, table: BlobTable, nodes: map<string, Node>, puts: seq<ConcludedPut>, proven: bool,
                    sign: nat -> Option<string>, budget: nat, ghost strict: bool)
      returns (ok: bool, ghost providers: seq<Principal>, ghost runs: seq<ConcludeRun>)
    requires agent.Valid() && Reachable(nodes) && (strict ==> AllDirected(puts))
    requires forall p :: p in puts ==> Grounded(agent.log, p) && !LacksEvidence(p.req)
    modifies agent, table, nodes.Values
    ensures agent.Valid() && old(agent.log) <= agent.log
    ensures BackedSince(agent.log, old(table.records), table.records, strict)
    ensures Concluded(puts, ok, providers, runs, old(agent.log), agent.log, old(table.records), table.records,
                      old(Received(nodes)), Received(nodes))
    ensures AllSent(puts, old(Received(nodes)), Received(nodes))
    ensures !ok ==>
              OneFails(puts, proven, sign, budget, old(AnswersOf(nodes)), old(Received(nodes)), Received(nodes))
  {
    hide *;
    runs := [];
    ghost var log, first, before, answers := agent.log, table.records, Received(nodes), AnswersOf(nodes);
    var order, byProvider := GroupStable(ByProvider(puts));
    providers := order;
    NothingUnderway(puts, order, log, first, before, strict);
    NothingSentYet(puts, order, before, answers);
    SameNodes(nodes);
    for i := 0 to |order|
      invariant agent.Valid()
      invariant Underway(puts, order, i, runs, log, agent.log, first, table.records, before, Received(nodes), strict)
      invariant AllSent(puts, before, Received(nodes)) && Untouched(order[..i], answers, AnswersOf(nodes))
    {
      var provider := order[i];
      ghost var was, records, had := agent.log, table.records, Received(nodes);
      UnderwayConcluded(puts, order, i, runs, log, was, first, records, before, had, strict);
      UnderwayGrows(puts, order, i, runs, log, was, first, records, before, had, strict);
      if !provider.Named? || provider.did !in nodes {
        FailsAt(puts, order, i, proven, sign, budget, answers, before, had);
        return false, providers, runs;
      }
      InGroups(ByProvider(puts), order, byProvider, i);
      OfProvider(puts, provider);
      forall p | p in byProvider[provider] ensures Grounded(agent.log, p) { StillGrounded(log, agent.log, p); }
      ghost var left := AnswersOf(nodes);
      var r, run, written := AcceptNext(agent, table, nodes, provider.did, byProvider[provider], proven, sign, budget);
      RunDirected(puts, byProvider[provider], run);
      RanConcluded(puts, order, i, runs, run, log, was, agent.log, first, records, table.records, before, had,
                   nodes[provider.did].received, r.persisted, r.err.None?, written, strict);
      SentMore(puts, before, had, provider.did, nodes[provider.did].received);
      ProvidersDiffer(ByProvider(puts), order, i);
      ReachesMore(order, i, answers, left, provider.did, nodes[provider.did].answers);
      if r.err.Some? || !r.persisted {
        FailsAt(puts, order, i, proven, sign, budget, answers, before, Received(nodes));
      }
      if !r.persisted { return false, providers, runs; }
      runs := runs + [run];
      if r.err.Some? { return false, providers, runs; }
    }
    UnderwayConcluded(puts, order, |order|, runs, log, agent.log, first, table.records, before, Received(nodes),
                      strict);
    UnderwayGrows(puts, order, |order|, runs, log, agent.log, first, table.records, before, Received(nodes), strict);
    return true, providers, runs;
  }

  lemma {:induction false} UnderwayGrows(puts: seq<ConcludedPut>, order: seq<Principal>, i: nat, runs: seq<ConcludeRun>,
          log: seq<Container>, log': seq<Container>, records: BlobRecords, records': BlobRecords, before: Inboxes,
          after: Inboxes, strict: bool)
    requires Underway(puts, order, i, runs, log, log', records, records', before, after, strict)
    ensures log <= log' && BackedSince(log', records, records', strict) && |runs| == i
            && Ordered(ByProvider(puts), order)
  {
    hide BackedSince, Ordered;
  }

  // ----- what a conclusion does, delivery by delivery

  /** The accept of a put was received by its node, answered, and persisted; a usable answer registered the blob. */
  ghost predicate AcceptedBy(p: ConcludedPut, before: Inboxes, after: Inboxes, log: seq<Container>,
                             records: BlobRecords)
  {
    && p.provider.Named? && p.provider.did in before && p.provider.did in after
    && var did := p.provider.did;
    && Executes(AcceptTask(did, p.req), before[did], after[did])
    && exists rcpt :: Attested(log, rcpt) && rcpt.ran == OfTask(AcceptTask(did, p.req))
                      && (UsableHashed(p, rcpt) ==> p.key in records)
  }

  /** A success that names a commitment and a promise, of a blob allocated by its digest. */
  ghost predicate UsableHashed(p: ConcludedPut, rcpt: Receipt) {
    rcpt.out.AcceptOK? && rcpt.out.commitment.Some? && rcpt.out.pdp.Some? && p.req.blob.Hashed?
  }

  /** A task is among those a node was sent. */
  ghost predicate Executes(task: Task, before: seq<Sent>, after: seq<Sent>) {
    exists c, j :: |before| <= c < |after| && 0 <= j < |after[c].invs| && after[c].invs[j].task == task
  }

  /** The requests of a batch sent whole are each in their chunk. */
  lemma {:induction false} SentWhole(node: string, reqs: seq<AcceptRequest>, before: seq<Sent>, after: seq<Sent>,
          a: nat)
    requires ChunksSent(node, reqs, before, after) && |reqs| <= (|after| - |before|) * MAX_ACCEPT_BATCH && a < |reqs|
    ensures Executes(AcceptTask(node, reqs[a]), before, after)
  {
    var c, j := |before| + a / MAX_ACCEPT_BATCH, a % MAX_ACCEPT_BATCH;
    assert ChunkSent(node, reqs, after[c], (c - |before|) * MAX_ACCEPT_BATCH);
    assert after[c].invs[j].task == AcceptTask(node, reqs[a]);
  }

  lemma {:induction false} AddedKeeps(records: BlobRecords, plan: seq<Action>)
    ensures forall key :: key in records ==> key in AddedAll(records, plan)
    ensures forall k :: 0 <= k < |plan| && plan[k].RegisterBlob? ==> plan[k].key in AddedAll(records, plan)
  {
    if plan != [] { AddedKeeps(records, plan[..|plan| - 1]); }
  }

  lemma {:induction false} RecordsKeep(records: BlobRecords, runs: seq<ConcludeRun>, j: nat)
    requires j <= |runs| && forall i :: 0 <= i < |runs| ==> |runs[i].puts| == |runs[i].results|
    ensures forall key :: key in AllRecords(records, runs[..j]) ==> key in AllRecords(records, runs)
    decreases |runs|
  {
    if j < |runs| {
      var n := |runs| - 1;
      RecordsKeep(records, runs[..n], j);
      assert runs[..n][..j] == runs[..j];
      AddedKeeps(AllRecords(records, runs[..n]), Registrations(runs[n].puts, runs[n].results, runs[n].metas));
    } else {
      assert runs[..j] == runs;
    }
  }

  lemma {:induction false} RegistersHas(puts: seq<ConcludedPut>, results: seq<AcceptResult>, metas: seq<Container>,
          a: nat)
      returns (k: nat)
    requires |puts| == |results| && a < |puts| && Registers(puts[a], results[a], metas)
    ensures k < |Registrations(puts, results, metas)|
    ensures Registrations(puts, results, metas)[k] == RegisterBlob(puts[a].key, puts[a].reg)
  {
    var n := |puts| - 1;
    if a < n {
      k := RegistersHas(puts[..n], results[..n], metas, a);
    } else {
      k := |Registrations(puts[..n], results[..n], metas)|;
    }
  }

  /** What a run registers is registered when all have. */
  lemma {:induction false} RunRegistered(records: BlobRecords, runs: seq<ConcludeRun>, j: nat, a: nat)
    requires j < |runs| && forall i :: 0 <= i < |runs| ==> |runs[i].puts| == |runs[i].results|
    requires a < |runs[j].puts| && Registers(runs[j].puts[a], runs[j].results[a], runs[j].metas)
    ensures runs[j].puts[a].key in AllRecords(records, runs)
  {
    var run := runs[j];
    var k := RegistersHas(run.puts, run.results, run.metas, a);
    var was := AllRecords(records, runs[..j]);
    AddedKeeps(was, Registrations(run.puts, run.results, run.metas));
    hide Registers;
    assert runs[..j + 1][..j] == runs[..j] && runs[..j + 1][j] == run;
    assert AllRecords(records, runs[..j + 1]) == RunRecords(was, run);
    RecordsKeep(records, runs, j + 1);
  }

  /** When a conclusion succeeds, each resolved put's accept was received, answered and persisted. */
  lemma {:induction false} EachAccepted(puts: seq<ConcludedPut>, providers: seq<Principal>, runs: seq<ConcludeRun>,
          log: seq<Container>, log': seq<Container>, records: BlobRecords, records': BlobRecords, before: Inboxes,
          after: Inboxes, p: ConcludedPut, a: nat)
    requires Concluded(puts, true, providers, runs, log, log', records, records', before, after)
    requires a < |Select(ByProvider(puts), p.provider)| && Select(ByProvider(puts), p.provider)[a] == p
    ensures AcceptedBy(p, before, after, log', records')
  {
    var j := RunFor(puts, providers, p);
    var run := runs[j];
    var rcpt := AcceptedIn(run, Select(ByProvider(puts), p.provider), before[run.node], after[run.node], log', a);
    if UsableHashed(p, rcpt) { RunRegistered(records, runs, j, a); }
  }

  lemma {:induction false} RunFor(puts: seq<ConcludedPut>, providers: seq<Principal>, p: ConcludedPut) returns (j: nat)
    requires Ordered(ByProvider(puts), providers) && p in Select(ByProvider(puts), p.provider)
    ensures j < |providers| && providers[j] == p.provider
  {
    SelectFrom(ByProvider(puts), p.provider);
    assert p.provider in KeysIn(ByProvider(puts));
    j :| 0 <= j < |providers| && providers[j] == p.provider;
  }

  lemma {:induction false} AcceptedIn(run: ConcludeRun, puts: seq<ConcludedPut>, before: seq<Sent>, after: seq<Sent>,
          log: seq<Container>, a: nat)
      returns (rcpt: Receipt)
    requires Complete(run, puts, before, after) && OnRecord(log, run) && a < |puts|
    ensures Executes(AcceptTask(run.node, puts[a].req), before, after)
    ensures Attested(log, rcpt) && rcpt.ran == OfTask(AcceptTask(run.node, puts[a].req))
    ensures run.results[a].rcpt == Some(rcpt)
  {
    hide ChunksSent, Attested, EachPollable;
    assert Answered(run.node, puts[a].req, run.results[a]);
    rcpt := run.results[a].rcpt.value;
    SentWhole(run.node, Requests(puts), before, after, a);
  }

  /** Every node was sent chunks of the accepts of its kept puts, in the order they were delivered. */
  ghost predicate SentKept(log: seq<Container>, cs: seq<Conclusion>, before: Inboxes, after: Inboxes) {
    before.Keys == after.Keys
    && forall did :: did in before ==> NodeSent(log, cs, did, before[did], after[did])
  }

  ghost predicate NodeSent(log: seq<Container>, cs: seq<Conclusion>, did: string, before: seq<Sent>, after: seq<Sent>) {
    exists idx :: KeptFor(log, cs, Named(did), idx) && (forall a :: 0 <= a < |idx| ==> KeptAt(log, cs, idx[a]))
                  && ChunksSent(did, RequestsAt(log, cs, idx), before, after)
  }

  /** Every kept put was accepted. */
  ghost predicate AcceptedKept(log: seq<Container>, cs: seq<Conclusion>, before: Inboxes, after: Inboxes,
          log': seq<Container>, records: BlobRecords) {
    forall i :: KeptAt(log, cs, i) ==> AcceptedBy(ResolvePut(log, cs[i]).put, before, after, log', records)
  }

  /** An allocation cannot be found, or some kept put's node is unknown or cannot be made to accept it. */
  ghost predicate KeptFails(log: seq<Container>, cs: seq<Conclusion>, proven: bool, sign: nat -> Option<string>,
                            budget: nat, answers: map<string, seq<Answer>>, before: Inboxes, after: Inboxes)
  {
    || (exists i :: BrokenAt(log, cs, i))
    || (exists i :: KeptAt(log, cs, i)
                    && Fails(ResolvePut(log, cs[i]).put, proven, sign, budget, answers, before, after))
  }

  /** Nothing is changed when an allocation cannot be found; otherwise the resolved puts are concluded run by run. */
  ghost predicate Outcome(log: seq<Container>, cs: seq<Conclusion>, ok: bool, providers: seq<Principal>,
          runs: seq<ConcludeRun>, log': seq<Container>, records: BlobRecords, records': BlobRecords, before: Inboxes,
          after: Inboxes)
  {
    if exists i :: BrokenAt(log, cs, i)
    then !ok && runs == [] && log' == log && records' == records && after == before
    else
      && ResolveAll(log, Succeeded(cs)).Some?
      && Concluded(ResolveAll(log, Succeeded(cs)).value, ok, providers, runs, log, log', records, records', before,
                   after)
  }

  lemma {:induction false} NodeSentSo(log: seq<Container>, cs: seq<Conclusion>, puts: seq<ConcludedPut>, did: string,
          before: seq<Sent>, after: seq<Sent>)
    requires ResolveAll(log, Succeeded(cs)) == Some(puts)
    requires ChunksSent(did, Requests(Select(ByProvider(puts), Named(did))), before, after)
    ensures NodeSent(log, cs, did, before, after)
  {
    var idx := KeptAre(log, cs, Named(did));
    KeptHold(log, cs, Named(did), idx);
    var some := Select(ByProvider(puts), Named(did));
    hide KeptFor, Select, ByProvider, ResolvePut, KeptAt, ChunksSent, ResolveAll, Succeeded;
    assert Requests(some) == RequestsAt(log, cs, idx) by {
      forall a | 0 <= a < |idx| ensures Requests(some)[a] == RequestsAt(log, cs, idx)[a] {
        assert Resolved(some[a]) == ResolvePut(log, cs[idx[a]]);
      }
    }
  }

  /** The place of a put among those of its node, and of its delivery. */
  lemma {:induction false} PlaceOf(log: seq<Container>, cs: seq<Conclusion>, puts: seq<ConcludedPut>, p: ConcludedPut)
      returns (a: nat, i: nat)
    requires ResolveAll(log, Succeeded(cs)) == Some(puts) && p in puts
    ensures a < |Select(ByProvider(puts), p.provider)| && Select(ByProvider(puts), p.provider)[a] == p
    ensures KeptAt(log, cs, i) && ResolvePut(log, cs[i]) == Resolved(p)
  {
    var idx := KeptAre(log, cs, p.provider);
    KeptHold(log, cs, p.provider, idx);
    var some := Select(ByProvider(puts), p.provider);
    SelectFrom(ByProvider(puts), p.provider);
    var j :| 0 <= j < |puts| && puts[j] == p;
    assert ByProvider(puts)[j] == (p.provider, p);
    assert p in some;
    hide KeptFor, Select, ByProvider, ResolvePut, KeptAt, ResolveAll, Succeeded;
    a :| 0 <= a < |some| && some[a] == p;
    i := idx[a];
  }

  /** A kept delivery's put, and its place among those of its node. */
  lemma {:induction false} KeptPlace(log: seq<Container>, cs: seq<Conclusion>, puts: seq<ConcludedPut>, i: nat)
      returns (a: nat)
    requires ResolveAll(log, Succeeded(cs)) == Some(puts) && KeptAt(log, cs, i)
    ensures var p := ResolvePut(log, cs[i]).put;
            a < |Select(ByProvider(puts), p.provider)| && Select(ByProvider(puts), p.provider)[a] == p
  {
    var p := ResolvePut(log, cs[i]).put;
    var idx := KeptAre(log, cs, p.provider);
    hide Select, ByProvider, ResolvePut, ResolveAll, Succeeded;
    assert i in idx;
    a :| 0 <= a < |idx| && idx[a] == i;
  }

  lemma {:induction false} ConcludedAll(log: seq<Container>, cs: seq<Conclusion>, puts: seq<ConcludedPut>, ok: bool,
          providers: seq<Principal>, runs: seq<ConcludeRun>, log': seq<Container>, records: BlobRecords,
          records': BlobRecords, before: Inboxes, after: Inboxes)
    requires ResolveAll(log, Succeeded(cs)) == Some(puts) && AllSent(puts, before, after)
    requires Concluded(puts, ok, providers, runs, log, log', records, records', before, after)
    ensures Outcome(log, cs, ok, providers, runs, log', records, records', before, after)
    ensures SentKept(log, cs, before, after)
    ensures ok ==> AcceptedKept(log, cs, before, after, log', records')
  {
    BrokenNone(log, cs);
    hide BrokenAt;
    hide Concluded, ResolveAll, ResolvePut, Succeeded, AcceptedBy, NodeSent, ChunksSent, Requests, Select, ByProvider;
    forall did | did in before ensures NodeSent(log, cs, did, before[did], after[did]) {
      NodeSentSo(log, cs, puts, did, before[did], after[did]);
    }
    if ok {
      forall i | KeptAt(log, cs, i)
        ensures AcceptedBy(ResolvePut(log, cs[i]).put, before, after, log', records')
      {
        var a := KeptPlace(log, cs, puts, i);
        EachAccepted(puts, providers, runs, log, log', records, records', before, after, ResolvePut(log, cs[i]).put, a);
      }
    }
  }

  lemma {:induction false} PutFails(log: seq<Container>, cs: seq<Conclusion>, puts: seq<ConcludedPut>, proven: bool,
          sign: nat -> Option<string>, budget: nat, answers: map<string, seq<Answer>>, before: Inboxes, after: Inboxes)
    requires ResolveAll(log, Succeeded(cs)) == Some(puts)
    requires OneFails(puts, proven, sign, budget, answers, before, after)
    ensures KeptFails(log, cs, proven, sign, budget, answers, before, after)
  {
    hide Fails;
    var p :| p in puts && Fails(p, proven, sign, budget, answers, before, after);
    var a, i := PlaceOf(log, cs, puts, p);
  }

  /**
   Concludes puts: those that failed are skipped, the rest are resolved, and each node's
   accepts are sent in one go, nodes in the order their first put was delivered. No node
   is sent anything but the accepts of the puts delivered for it that resolve, in order;
   when the conclusion succeeds each of those was received, answered and persisted, and
   registered if the answer was usable. It changes nothing when an allocation cannot be
   found, and otherwise fails only where one of those puts does. Every blob it registers
   is backed by what the agent store then holds.
   */
  method ConcludePuts(agent: Memory, table: BlobTable, nodes: map<string, Node>, cs: seq<Conclusion>, proven: bool,
          sign: nat -> Option<string>, budget: nat)
      returns (ok: bool, ghost providers: seq<Principal>, ghost runs: seq<ConcludeRun>)
    requires agent.Valid() && Reachable(nodes)
    modifies agent, table, nodes.Values
    ensures agent.Valid() && old(agent.log) <= agent.log
    ensures BackedSince(agent.log, old(table.records), table.records, forall c :: c in cs ==> Addressed(c))
    ensures Outcome(old(agent.log), cs, ok, providers, runs, agent.log, old(table.records), table.records,
                    old(Received(nodes)), Received(nodes))
    ensures SentKept(old(agent.log), cs, old(Received(nodes)), Received(nodes))
    ensures ok ==> AcceptedKept(old(agent.log), cs, old(Received(nodes)), Received(nodes), agent.log, table.records)
    ensures !ok ==> KeptFails(old(agent.log), cs, proven, sign, budget, old(AnswersOf(nodes)), old(Received(nodes)),
                              Received(nodes))
  {
    hide *;
    ghost var log, records, before, answers := agent.log, table.records, Received(nodes), AnswersOf(nodes);
    ghost var strict := forall c :: c in cs ==> Addressed(c);
    BackedStart(log, records, strict);
    NothingConcluded(log, cs, proven, sign, budget, answers, records, before);
    var delivered := DropFailed(cs);
    if |delivered| == 0 {
      ConcludedAll(log, cs, [], true, [], [], log, records, records, before, before);
      return true, [], [];
    }
    var resolved := ResolveAllocations(agent, delivered);
    if resolved.None? { return false, [], []; }
    AllGrounded(log, delivered);
    ok, providers, runs := AcceptEach(agent, table, nodes, resolved.value, proven, sign, budget, strict);
    ConcludedAll(log, cs, resolved.value, ok, providers, runs, agent.log, records, table.records, before,
                 Received(nodes));
    if !ok { PutFails(log, cs, resolved.value, proven, sign, budget, answers, before, Received(nodes)); }
  }

  lemma {:induction false} NothingConcluded(log: seq<Container>, cs: seq<Conclusion>, proven: bool,
          sign: nat -> Option<string>, budget: nat, answers: map<string, seq<Answer>>, records: BlobRecords,
          received: Inboxes)
    ensures Concluded([], true, [], [], log, log, records, records, received, received)
    ensures AllSent([], received, received) && SentKept(log, cs, received, received) && ResolveAll(log, []) == Some([])
    ensures ResolveAll(log, Succeeded(cs)).None? ==>
              Outcome(log, cs, false, [], [], log, records, records, received, received)
              && KeptFails(log, cs, proven, sign, budget, answers, received, received)
  {
    hide RunsOf, Settles, RunsComplete, Ordered, ByProvider, ChunkSent, ResolvePut, KeptAt, BrokenAt, Fails;
    NoRuns([], [], log, records, received);
    BrokenNone(log, cs);
    forall did | did in received ensures NodeSent(log, cs, did, received[did], received[did]) {
      var idx := KeptPlaces(log, cs, Named(did));
      KeptHold(log, cs, Named(did), idx);
      assert ChunksSent(did, RequestsAt(log, cs, idx), received[did], received[did]);
    }
  }

  lemma {:induction false} NoRuns(providers: seq<Principal>, puts: seq<ConcludedPut>, log: seq<Container>,
          records: BlobRecords, received: Inboxes)
    ensures RunsOf([], providers, puts, log) && Settles([], log, log, records, records)
    ensures RunsComplete([], 0, providers, puts, received, received) && Untouched([], received, received)
    ensures Ordered(ByProvider([]), [])
  {
  }

  lemma {:induction false} RunDirected(puts: seq<ConcludedPut>, some: seq<ConcludedPut>, run: ConcludeRun)
    requires run.puts <= some && forall p :: p in some ==> p in puts
    ensures AllDirected(puts) ==> AllDirected(run.puts)
  {
    hide Directed;
    forall p | p in run.puts ensures p in some {
      var i :| 0 <= i < |run.puts| && run.puts[i] == p;
      assert some[i] == p;
    }
  }

  /** What one node's accepts leave behind is backed, whether or not they were registered. */
  lemma {:induction false} Lands(log: seq<Container>, log': seq<Container>, first: BlobRecords, records: BlobRecords,
                                  records': BlobRecords, run: ConcludeRun, persisted: bool, written: nat, strict: bool)
    requires ConcludeProduced(log, run) && |run.puts| == |run.results| && (strict ==> AllDirected(run.puts))
    requires written <= |RunMessages(run)| && log' == log + RunMessages(run)[..written]
             && (persisted ==> written == |RunMessages(run)|)
    requires records' == if persisted then RunRecords(records, run) else records
    requires BackedSince(log, first, records, strict)
    ensures BackedSince(log', first, records', strict)
    ensures log <= log' && (persisted ==> log' == log + RunMessages(run))
  {
    hide ConcludeProduced, BackedSince, AllDirected;
    assert RunMessages(run)[..|RunMessages(run)|] == RunMessages(run);
    if persisted { RunBacked(log, run, records, strict); } else { BackedStart(log', records, strict); }
    BackedChain(log, log', first, records, records', strict);
  }

  lemma {:induction false} BackedStart(log: seq<Container>, records: BlobRecords, strict: bool)
    ensures BackedSince(log, records, records, strict)
  {
  }

  lemma {:induction false} InGroups<K, V>(items: seq<(K, V)>, keys: seq<K>, groups: map<K, seq<V>>, i: nat)
    requires Ordered(items, keys) && Collected(items, groups) && i < |keys|
    ensures keys[i] in groups && groups[keys[i]] == Select(items, keys[i])
  {
    assert keys[i] in (set k | k in keys);
  }
}
