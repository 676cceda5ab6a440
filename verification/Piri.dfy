/**
 The client of a storage node: accepts sent in chunks, each chunk one request the
 node answers whole or not at all.
 */
module Piri {
  import opened Words
  import opened DiffLogs
  import opened Sequences
  import opened Tokens

  const MAX_ACCEPT_BATCH := 1000

  datatype AcceptRequest = AcceptRequest(
    space: string, blob: BlobSpec, put: Link, putInv: Option<Invocation>, putRcpt: Option<Receipt>)

  /** One accept: its request and invocation once issued, its receipt once answered. */
  datatype AcceptResult = AcceptResult(request: Option<AcceptRequest>, inv: Option<Invocation>, rcpt: Option<Receipt>)

  datatype BatchError = MissingEvidence | NoProofs | NotIssued | NotExecuted

  /** What a node does with a request: fail it, or answer with receipts by task and a container of its own. */
  datatype Answer = Down | Up(receipts: map<Link, Receipt>, meta: Container)

  /** An accept's task: the same however and whenever it is sent. */
  function AcceptTask(node: string, req: AcceptRequest): Task {
    Task(Named(node), Accept, AcceptArgs(req.space, req.blob, req.put), None)
  }

  /** Whether a request lacks the put its node would need to find a digest. */
  predicate LacksEvidence(req: AcceptRequest) {
    req.blob.Unhashed? && (req.putInv.None? || req.putRcpt.None?)
  }

  /** The put invocations requests carry, in order. */
  function PutInvs(reqs: seq<AcceptRequest>): seq<Invocation> {
    if reqs == [] then []
    else
      var init, last := PutInvs(reqs[..|reqs| - 1]), reqs[|reqs| - 1].putInv;
      if last.Some? then init + [last.value] else init
  }

  /** The put receipts requests carry, in order. */
  function PutRcpts(reqs: seq<AcceptRequest>): seq<Receipt> {
    if reqs == [] then []
    else
      var init, last := PutRcpts(reqs[..|reqs| - 1]), reqs[|reqs| - 1].putRcpt;
      if last.Some? then init + [last.value] else init
  }

  /** The put invocations of those of the first n requests that carry one, in order. */
  ghost predicate CarriedInvs(idx: seq<nat>, reqs: seq<AcceptRequest>, n: nat, invs: seq<Invocation>)
    requires n <= |reqs|
  {
    && PlacesOf(idx, n) && |invs| == |idx|
    && (forall i :: 0 <= i < n ==> (i in idx <==> reqs[i].putInv.Some?))
    && (forall a :: 0 <= a < |idx| ==> Some(invs[a]) == reqs[idx[a]].putInv)
  }

  /** The put receipts of those of the first n requests that carry one, in order. */
  ghost predicate CarriedRcpts(idx: seq<nat>, reqs: seq<AcceptRequest>, n: nat, rcpts: seq<Receipt>)
    requires n <= |reqs|
  {
    && PlacesOf(idx, n) && |rcpts| == |idx|
    && (forall i :: 0 <= i < n ==> (i in idx <==> reqs[i].putRcpt.Some?))
    && (forall a :: 0 <= a < |idx| ==> Some(rcpts[a]) == reqs[idx[a]].putRcpt)
  }

  lemma {:induction false} InvsSnoc(idx: seq<nat>, reqs: seq<AcceptRequest>, n: nat, invs: seq<Invocation>)
    requires n < |reqs| && CarriedInvs(idx, reqs, n, invs)
    ensures if reqs[n].putInv.Some? then CarriedInvs(idx + [n], reqs, n + 1, invs + [reqs[n].putInv.value])
            else CarriedInvs(idx, reqs, n + 1, invs)
  {
    PlacesSnoc(idx, n);
  }

  lemma {:induction false} RcptsSnoc(idx: seq<nat>, reqs: seq<AcceptRequest>, n: nat, rcpts: seq<Receipt>)
    requires n < |reqs| && CarriedRcpts(idx, reqs, n, rcpts)
    ensures if reqs[n].putRcpt.Some? then CarriedRcpts(idx + [n], reqs, n + 1, rcpts + [reqs[n].putRcpt.value])
            else CarriedRcpts(idx, reqs, n + 1, rcpts)
  {
    PlacesSnoc(idx, n);
  }

  lemma {:induction false} PutInvsAre(reqs: seq<AcceptRequest>, n: nat) returns (idx: seq<nat>)
    requires n <= |reqs|
    ensures CarriedInvs(idx, reqs, n, PutInvs(reqs[..n]))
  {
    if n == 0 {
      idx := [];
    } else {
      assert reqs[..n][..n - 1] == reqs[..n - 1];
      hide CarriedInvs;
      idx := PutInvsAre(reqs, n - 1);
      InvsSnoc(idx, reqs, n - 1, PutInvs(reqs[..n - 1]));
      if reqs[n - 1].putInv.Some? { idx := idx + [n - 1]; }
    }
  }

  lemma {:induction false} PutRcptsAre(reqs: seq<AcceptRequest>, n: nat) returns (idx: seq<nat>)
    requires n <= |reqs|
    ensures CarriedRcpts(idx, reqs, n, PutRcpts(reqs[..n]))
  {
    if n == 0 {
      idx := [];
    } else {
      assert reqs[..n][..n - 1] == reqs[..n - 1];
      hide CarriedRcpts;
      idx := PutRcptsAre(reqs, n - 1);
      RcptsSnoc(idx, reqs, n - 1, PutRcpts(reqs[..n - 1]));
      if reqs[n - 1].putRcpt.Some? { idx := idx + [n - 1]; }
    }
  }

  /** Gathers the put evidence requests carry, unless one whose blob names no digest lacks some. */
  method PutEvidence(reqs: seq<AcceptRequest>) returns (ok: bool, invs: seq<Invocation>, rcpts: seq<Receipt>)
    ensures !ok <==> exists i :: 0 <= i < |reqs| && reqs[i].blob.Unhashed?
                                 && (reqs[i].putInv.None? || reqs[i].putRcpt.None?)
    ensures ok ==> invs == PutInvs(reqs) && rcpts == PutRcpts(reqs)
    ensures ok ==> (exists idx :: CarriedInvs(idx, reqs, |reqs|, invs))
                   && (exists idx :: CarriedRcpts(idx, reqs, |reqs|, rcpts))
  {
    invs, rcpts := [], [];
    for i := 0 to |reqs|
      invariant forall j :: 0 <= j < i ==> !LacksEvidence(reqs[j])
      invariant invs == PutInvs(reqs[..i]) && rcpts == PutRcpts(reqs[..i])
    {
      var req := reqs[i];
      if req.blob.Unhashed? && (req.putInv.None? || req.putRcpt.None?) {
        assert LacksEvidence(reqs[i]);
        return false, [], [];
      }
      assert reqs[..i + 1][..i] == reqs[..i];
      if req.putInv.Some? { invs := invs + [req.putInv.value]; }
      if req.putRcpt.Some? { rcpts := rcpts + [req.putRcpt.value]; }
    }
    assert reqs[..|reqs|] == reqs;
    ok := true;
    hide CarriedInvs, CarriedRcpts;
    ghost var _ := PutInvsAre(reqs, |reqs|);
    ghost var _ := PutRcptsAre(reqs, |reqs|);
  }

  /** A request as a node receives it. */
  datatype Sent = Sent(invs: seq<Invocation>, putInvs: seq<Invocation>, putRcpts: seq<Receipt>)

  /** A request not answered: beyond the node's answers, failed by it, or left with an accept that has no receipt. */
  ghost predicate Refused(answers: seq<Answer>, k: int, sent: Sent) {
    0 <= k < |answers| && answers[k].Up? ==>
      exists i :: 0 <= i < |sent.invs| && Unattested(answers[k].receipts, sent.invs[i])
  }

  predicate Unattested(receipts: map<Link, Receipt>, inv: Invocation) {
    TaskOf(inv) !in receipts || receipts[TaskOf(inv)].ran != TaskOf(inv)
  }

  /** A node, with how it answers each coming request; it fails those beyond. */
  class Node {
    const did: string
    var answers: seq<Answer>
    var received: seq<Sent>

    constructor (did: string, answers: seq<Answer>)
      ensures this.did == did && this.answers == answers && received == []
    {
      this.did, this.answers, received := did, answers, [];
    }

    /** Sends one request. An answer that leaves an invocation without a receipt is a failed request. */
    method ExecuteBatch(sent: Sent) returns (r: Answer)
      modifies this
      ensures received == old(received) + [sent]
      ensures answers == if old(answers) == [] then [] else old(answers)[1..]
      ensures r.Up? ==> old(answers) != [] && r == old(answers)[0]
      ensures r.Down? <==> Refused(old(answers), 0, sent)
      ensures r.Up? ==> forall i :: 0 <= i < |sent.invs| ==>
                          TaskOf(sent.invs[i]) in r.receipts
                            && r.receipts[TaskOf(sent.invs[i])].ran == TaskOf(sent.invs[i])
    {
      received := received + [sent];
      if answers == [] { return Down; }
      r := answers[0];
      answers := answers[1..];
      if r.Up? {
        for i := 0 to |sent.invs|
          invariant received == old(received) + [sent] && answers == old(answers)[1..]
          invariant forall j :: 0 <= j < i ==>
                      TaskOf(sent.invs[j]) in r.receipts && r.receipts[TaskOf(sent.invs[j])].ran == TaskOf(sent.invs[j])
        {
          var task := TaskOf(sent.invs[i]);
          if task !in r.receipts || r.receipts[task].ran != task {
            assert Unattested(r.receipts, sent.invs[i]);
            return Down;
          }
        }
      }
    }
  }

  /** An accept issued for its request. */
  ghost predicate Issued(node: string, req: AcceptRequest, res: AcceptResult) {
    res.request == Some(req) && res.inv.Some? && res.inv.value.task == AcceptTask(node, req)
  }

  /** An accept issued and answered. */
  ghost predicate Answered(node: string, req: AcceptRequest, res: AcceptResult) {
    Issued(node, req, res) && res.rcpt.Some? && res.rcpt.value.ran == OfTask(AcceptTask(node, req))
  }

  /**
   Results of a batch of which the first `done` requests were answered: those have
   their receipts, and no other does.
   */
  ghost predicate Prefix(node: string, reqs: seq<AcceptRequest>, results: seq<AcceptResult>, done: nat) {
    && |results| == |reqs| && done <= |reqs|
    && (forall i :: 0 <= i < done ==> Answered(node, reqs[i], results[i]))
    && (forall i :: done <= i < |reqs| ==> results[i].rcpt.None?)
  }

  /** The receipts of some results are those one answer gives their tasks. */
  ghost predicate FromAnswer(results: seq<AcceptResult>, start: nat, end: nat, answer: Answer)
    requires start <= end <= |results|
  {
    answer.Up? && forall i :: start <= i < end ==>
      && results[i].inv.Some? && TaskOf(results[i].inv.value) in answer.receipts
      && results[i].rcpt == Some(answer.receipts[TaskOf(results[i].inv.value)])
  }

  /** The requests a chunk carries. */
  function ChunkEnd(n: nat, start: nat): nat {
    Min(start + MAX_ACCEPT_BATCH, n)
  }

  /** Issues one chunk's accepts, unless one cannot be issued. */
  method IssueChunk(node: string, reqs: seq<AcceptRequest>, sign: nat -> Option<string>, results: array<AcceptResult>,
          start: nat, end: nat)
      returns (r: Option<seq<Invocation>>)
    requires results.Length == |reqs| && start <= end <= |reqs|
    requires forall i :: start <= i < |reqs| ==> results[i].rcpt.None?
    modifies results
    ensures forall i :: 0 <= i < start ==> results[i] == old(results[i])
    ensures forall i :: start <= i < |reqs| ==> results[i].rcpt.None?
    ensures r.None? <==> exists i :: start <= i < end && sign(i).None?
    ensures r.Some? ==> |r.value| == end - start
    ensures r.Some? ==>
              forall i ::
                start <= i < end ==> Issued(node, reqs[i], results[i]) && results[i].inv == Some(r.value[i - start])
  {
    var invs: seq<Invocation> := [];
    for i := start to end
      invariant |invs| == i - start
      invariant forall j :: start <= j < i ==> sign(j).Some?
      invariant forall j :: 0 <= j < start ==> results[j] == old(results[j])
      invariant forall j :: start <= j < |reqs| ==> results[j].rcpt.None?
      invariant forall j ::
                  start <= j < i ==> Issued(node, reqs[j], results[j]) && results[j].inv == Some(invs[j - start])
    {
      var envelope := sign(i);
      if envelope.None? { return None; }
      var inv := Invocation(AcceptTask(node, reqs[i]), envelope.value);
      invs := invs + [inv];
      results[i] := AcceptResult(Some(reqs[i]), Some(inv), None);
    }
    return Some(invs);
  }

  /** Puts one chunk's receipts in place. */
  method Fill(node: string, reqs: seq<AcceptRequest>, results: array<AcceptResult>, invs: seq<Invocation>,
          receipts: map<Link, Receipt>, start: nat, end: nat)
    requires results.Length == |reqs| && start <= end <= |reqs| && |invs| == end - start
    requires forall i ::
               start <= i < end ==> Issued(node, reqs[i], results[i]) && results[i].inv == Some(invs[i - start])
    requires forall i :: start <= i < |reqs| ==> results[i].rcpt.None?
    requires forall i ::
               0 <= i < |invs| ==> TaskOf(invs[i]) in receipts && receipts[TaskOf(invs[i])].ran == TaskOf(invs[i])
    modifies results
    ensures forall i :: 0 <= i < start ==> results[i] == old(results[i])
    ensures forall i :: start <= i < end ==> Answered(node, reqs[i], results[i])
    ensures forall i ::
              start <= i < end ==>
                results[i].inv == Some(invs[i - start]) && results[i].rcpt == Some(receipts[TaskOf(invs[i - start])])
    ensures forall i :: end <= i < |reqs| ==> results[i].rcpt.None?
  {
    for i := start to end
      invariant forall j :: 0 <= j < start ==> results[j] == old(results[j])
      invariant forall j :: start <= j < i ==> Answered(node, reqs[j], results[j])
      invariant forall j ::
                  start <= j < i ==>
                    results[j].inv == Some(invs[j - start])
                    && results[j].rcpt == Some(receipts[TaskOf(invs[j - start])])
      invariant forall j :: i <= j < end ==> results[j] == old(results[j])
      invariant forall j :: i <= j < |reqs| ==> results[j].rcpt.None?
    {
      results[i] := results[i].(rcpt := Some(receipts[TaskOf(invs[i - start])]));
    }
  }

  /** Chunk c has the receipts and the container of the node's c-th answer. */
  ghost predicate ChunkAnswered(results: seq<AcceptResult>, metas: seq<Container>, answers: seq<Answer>, c: nat) {
    && c < |metas| && c < |answers| && answers[c].Up? && metas[c] == answers[c].meta
    && c * MAX_ACCEPT_BATCH <= |results|
    && FromAnswer(results, c * MAX_ACCEPT_BATCH, ChunkEnd(|results|, c * MAX_ACCEPT_BATCH), answers[c])
  }

  /** One chunk as its node received it: the accepts of its requests in order, and their put evidence. */
  ghost predicate ChunkSent(node: string, reqs: seq<AcceptRequest>, sent: Sent, start: nat)
    requires start <= |reqs|
  {
    var chunk := reqs[start..ChunkEnd(|reqs|, start)];
    && |sent.invs| == |chunk| && sent.putInvs == PutInvs(chunk) && sent.putRcpts == PutRcpts(chunk)
    && forall i :: 0 <= i < |chunk| ==> sent.invs[i].task == AcceptTask(node, chunk[i])
  }

  /** Everything a batch sent is its chunks, from the first. */
  ghost predicate ChunksSent(node: string, reqs: seq<AcceptRequest>, before: seq<Sent>, after: seq<Sent>) {
    && before <= after
    && forall c :: |before| <= c < |after| ==>
         (c - |before|) * MAX_ACCEPT_BATCH < |reqs|
           && ChunkSent(node, reqs, after[c], (c - |before|) * MAX_ACCEPT_BATCH)
  }

  lemma {:induction false} NoneLacks(reqs: seq<AcceptRequest>, start: nat, end: nat)
    requires start <= end <= |reqs| && forall i :: 0 <= i < |reqs| ==> !LacksEvidence(reqs[i])
    ensures forall i :: 0 <= i < |reqs[start..end]| ==> !LacksEvidence(reqs[start..end][i])
  {
  }

  lemma {:induction false} StillPrefix(node: string, reqs: seq<AcceptRequest>, was: seq<AcceptResult>,
          now: seq<AcceptResult>, done: nat)
    requires Prefix(node, reqs, was, done) && |now| == |was|
    requires forall i :: 0 <= i < done ==> now[i] == was[i]
    requires forall i :: done <= i < |reqs| ==> now[i].rcpt.None?
    ensures Prefix(node, reqs, now, done) && now[..done] == was[..done]
  {
    hide Answered;
  }

  /** A chunk filled from an answer continues the prefix. */
  lemma {:induction false} Filled(node: string, reqs: seq<AcceptRequest>, was: seq<AcceptResult>,
          now: seq<AcceptResult>, invs: seq<Invocation>, answer: Answer, start: nat, end: nat)
    requires Prefix(node, reqs, was, start) && |now| == |was| && start <= end <= |reqs| && |invs| == end - start
             && answer.Up?
    requires forall i :: 0 <= i < start ==> now[i] == was[i]
    requires forall i :: 0 <= i < |invs| ==> TaskOf(invs[i]) in answer.receipts
    requires forall i :: start <= i < end ==> Answered(node, reqs[i], now[i])
    requires forall i ::
               start <= i < end ==>
                 now[i].inv == Some(invs[i - start]) && now[i].rcpt == Some(answer.receipts[TaskOf(invs[i - start])])
    requires forall i :: end <= i < |reqs| ==> now[i].rcpt.None?
    ensures Prefix(node, reqs, now, end) && FromAnswer(now, start, end, answer) && now[..start] == was[..start]
  {
    hide Answered;
  }

  /** Issues one chunk's accepts and gathers their put evidence. */
  method PrepareChunk(node: string, reqs: seq<AcceptRequest>, sign: nat -> Option<string>, results: array<AcceptResult>,
          start: nat, end: nat)
      returns (r: Option<Sent>)
    requires results.Length == |reqs| && start < |reqs| && end == ChunkEnd(|reqs|, start)
    requires forall i :: 0 <= i < |reqs| ==> !LacksEvidence(reqs[i])
    requires Prefix(node, reqs, results[..], start)
    modifies results
    ensures Prefix(node, reqs, results[..], start) && results[..start] == old(results[..start])
    ensures forall i :: start <= i < |reqs| ==> results[i].rcpt.None?
    ensures r.None? <==> exists i :: start <= i < end && sign(i).None?
    ensures r.Some? ==> ChunkSent(node, reqs, r.value, start) && |r.value.invs| == end - start
    ensures r.Some? ==>
              forall i ::
                start <= i < end ==>
                  Issued(node, reqs[i], results[i]) && results[i].inv == Some(r.value.invs[i - start])
  {
    ghost var was := results[..];
    assert forall i :: start <= i < |reqs| ==> was[i].rcpt.None?;
    var invs := IssueChunk(node, reqs, sign, results, start, end);
    StillPrefix(node, reqs, was, results[..], start);
    hide Prefix;
    if invs.None? { return None; }
    var chunk := reqs[start..end];
    NoneLacks(reqs, start, end);
    var ok, putInvs, putRcpts := PutEvidence(chunk);
    assert ok;
    forall i | 0 <= i < |chunk| ensures invs.value[i].task == AcceptTask(node, chunk[i]) {
      assert Issued(node, reqs[start + i], results[start + i]);
    }
    r := Some(Sent(invs.value, putInvs, putRcpts));
  }

  /**
   Sends one chunk: issues its accepts, and on an answer puts every receipt of the
   chunk in place and no other.
   */
  method SendChunk(node: Node, reqs: seq<AcceptRequest>, sign: nat -> Option<string>, results: array<AcceptResult>,
          start: nat, end: nat)
      returns (meta: Option<Container>, err: Option<BatchError>)
    requires results.Length == |reqs| && start < |reqs| && end == ChunkEnd(|reqs|, start)
    requires forall i :: 0 <= i < |reqs| ==> !LacksEvidence(reqs[i])
    requires Prefix(node.did, reqs, results[..], start)
    modifies node, results
    ensures meta.Some? <==> err.None?
    ensures Prefix(node.did, reqs, results[..], if meta.Some? then end else start)
    ensures err.Some? ==> err.value in {NotIssued, NotExecuted}
    ensures err == Some(NotIssued) <==> exists i :: start <= i < end && sign(i).None?
    ensures err == Some(NotIssued) <==> node.received == old(node.received)
    ensures node.received == old(node.received)
            || (|node.received| == |old(node.received)| + 1 && old(node.received) <= node.received
                && ChunkSent(node.did, reqs, node.received[|old(node.received)|], start))
    ensures err == Some(NotExecuted) ==> Refused(old(node.answers), 0, node.received[|old(node.received)|])
    ensures meta.Some? ==> |node.received| == |old(node.received)| + 1
    ensures meta.Some? ==> |old(node.answers)| > 0 && node.answers == old(node.answers)[1..] && old(node.answers)[0].Up?
    ensures meta.Some? ==>
              meta.value == old(node.answers)[0].meta && FromAnswer(results[..], start, end, old(node.answers)[0])
    ensures results[..start] == old(results[..start])
  {
    hide ChunkSent, Prefix, FromAnswer, Issued, Answered, LacksEvidence, Refused;
    var sent := PrepareChunk(node.did, reqs, sign, results, start, end);
    if sent.None? { return None, Some(NotIssued); }
    var answer := node.ExecuteBatch(sent.value);
    if answer.Down? { return None, Some(NotExecuted); }
    ghost var issued := results[..];
    Fill(node.did, reqs, results, sent.value.invs, answer.receipts, start, end);
    Filled(node.did, reqs, issued, results[..], sent.value.invs, answer, start, end);
    assert results[..start] == results[..][..start] == issued[..start];
    return Some(answer.meta), None;
  }

  /** Sends every chunk of a batch, until one fails. */
  method SendChunks(node: Node, reqs: seq<AcceptRequest>, sign: nat -> Option<string>)
      returns (results: seq<AcceptResult>, metas: seq<Container>, err: Option<BatchError>)
    requires reqs != [] && forall i :: 0 <= i < |reqs| ==> !LacksEvidence(reqs[i])
    modifies node
    ensures err.Some? ==> err.value in {NotIssued, NotExecuted}
    ensures Prefix(node.did, reqs, results, Min(|metas| * MAX_ACCEPT_BATCH, |reqs|))
    ensures err.None? ==> |metas| * MAX_ACCEPT_BATCH >= |reqs|
    ensures err.Some? ==> |metas| * MAX_ACCEPT_BATCH < |reqs|
    ensures forall c :: 0 <= c < |metas| ==> ChunkAnswered(results, metas, old(node.answers), c)
    ensures ChunksSent(node.did, reqs, old(node.received), node.received)
    ensures |node.received| - |old(node.received)| == if err == Some(NotExecuted) then |metas| + 1 else |metas|
    ensures err == Some(NotExecuted) ==>
              Refused(old(node.answers), |metas|, node.received[|old(node.received)| + |metas|])
    ensures err == Some(NotIssued) ==>
              exists i ::
                |metas| * MAX_ACCEPT_BATCH <= i < ChunkEnd(|reqs|, |metas| * MAX_ACCEPT_BATCH) && sign(i).None?
  {
    var out := new AcceptResult[|reqs|](_ => AcceptResult(None, None, None));
    NothingYet(node.did, reqs, out[..], node.answers, node.received);
    metas := [];
    var start := 0;
    while start < |reqs|
      invariant fresh(out) && out.Length == |reqs| && start == Min(|metas| * MAX_ACCEPT_BATCH, |reqs|)
      invariant Batched(node.did, reqs, out[..], metas, old(node.answers), node.answers, old(node.received),
                        node.received, 0)
      decreases |reqs| - start
    {
      hide Batched, Prefix, ChunkSent, FromAnswer, LacksEvidence, Refused;
      ghost var before, was, left := node.received, out[..], node.answers;
      BatchedStart(node.did, reqs, was, metas, old(node.answers), left, old(node.received), before, start);
      var end := ChunkEnd(|reqs|, start);
      var meta, failed := SendChunk(node, reqs, sign, out, start, end);
      if failed.Some? {
        RefusedLater(node.did, reqs, was, metas, old(node.answers), left, old(node.received), before, node.received);
        BatchedFails(node.did, reqs, was, out[..], metas, old(node.answers), left, node.answers, old(node.received),
                     before, node.received, start);
        BatchedEnds(node.did, reqs, out[..], metas, old(node.answers), node.answers, old(node.received), node.received,
                    1);
        return out[..], metas, failed;
      }
      BatchedMore(node.did, reqs, was, out[..], metas, meta.value, old(node.answers), left, old(node.received), before,
                  node.received, start, end);
      metas := metas + [meta.value];
      start := end;
    }
    BatchedEnds(node.did, reqs, out[..], metas, old(node.answers), node.answers, old(node.received), node.received, 0);
    return out[..], metas, None;
  }

  /** No chunk is sent beyond the requests. */
  lemma {:induction false} LastSent(node: string, reqs: seq<AcceptRequest>, before: seq<Sent>, after: seq<Sent>)
    requires ChunksSent(node, reqs, before, after)
    ensures |before| < |after| ==> (|after| - |before| - 1) * MAX_ACCEPT_BATCH < |reqs|
  {
    if |before| < |after| {
      hide ChunkSent;
      assert ChunkSent(node, reqs, after[|after| - 1], (|after| - 1 - |before|) * MAX_ACCEPT_BATCH);
    }
  }

  lemma {:induction false} NothingSent(node: string, reqs: seq<AcceptRequest>, received: seq<Sent>)
    ensures ChunksSent(node, reqs, received, received)
    ensures Prefix(node, [], [], 0)
  {
  }

  /**
   Sends accepts to a node in chunks of 1000. A request that lacks put evidence fails
   the batch before anything is sent. Otherwise the chunks before the first failure,
   and no others, have their receipts, in the order of the requests, and each such
   chunk adds one container of what the node attached.
   */
  method AcceptBatch(node: Node, reqs: seq<AcceptRequest>, proven: bool, sign: nat -> Option<string>)
      returns (results: seq<AcceptResult>, metas: seq<Container>, err: Option<BatchError>)
    modifies node
    ensures reqs == [] ==> results == [] && metas == [] && err.None?
    ensures err == Some(MissingEvidence) <==> exists i :: 0 <= i < |reqs| && reqs[i].blob.Unhashed?
                                                          && (reqs[i].putInv.None? || reqs[i].putRcpt.None?)
    ensures err == Some(NoProofs) <==>
              reqs != [] && !proven && forall i :: 0 <= i < |reqs| ==> !LacksEvidence(reqs[i])
    ensures err in {Some(MissingEvidence), Some(NoProofs)} ==>
              results == [] && metas == [] && node.received == old(node.received)
    ensures err !in {Some(MissingEvidence), Some(NoProofs)} ==>
              Prefix(node.did, reqs, results, Min(|metas| * MAX_ACCEPT_BATCH, |reqs|))
    ensures if err.None? then |reqs| <= |metas| * 1000 < |reqs| + 1000 else |metas| * 1000 < |reqs|
    ensures forall c :: 0 <= c < |metas| ==> ChunkAnswered(results, metas, old(node.answers), c)
    ensures ChunksSent(node.did, reqs, old(node.received), node.received)
    ensures |node.received| - |old(node.received)| == if err == Some(NotExecuted) then |metas| + 1 else |metas|
    ensures err == Some(NotExecuted) ==>
              Refused(old(node.answers), |metas|, node.received[|old(node.received)| + |metas|])
    ensures err == Some(NotIssued) ==>
              exists i ::
                |metas| * MAX_ACCEPT_BATCH <= i < ChunkEnd(|reqs|, |metas| * MAX_ACCEPT_BATCH) && sign(i).None?
  {
    hide Prefix, ChunkAnswered, ChunkSent, Refused;
    NothingSent(node.did, reqs, node.received);
    if |reqs| == 0 { return [], [], None; }
    var ok, _, _ := PutEvidence(reqs);
    if !ok { return [], [], Some(MissingEvidence); }
    if !proven { return [], [], Some(NoProofs); }
    results, metas, err := SendChunks(node, reqs, sign);
    LastSent(node.did, reqs, old(node.received), node.received);
  }

  /**
   A batch with some chunks answered: the requests in them have their receipts, every
   chunk was sent, and perhaps one more that was not answered.
   */
  ghost predicate Batched(node: string, reqs: seq<AcceptRequest>, results: seq<AcceptResult>, metas: seq<Container>,
          answers: seq<Answer>, left: seq<Answer>, before: seq<Sent>, after: seq<Sent>, unanswered: nat)
  {
    && Prefix(node, reqs, results, Min(|metas| * MAX_ACCEPT_BATCH, |reqs|))
    && |before| + |metas| <= |after| <= |before| + |metas| + unanswered && ChunksSent(node, reqs, before, after)
    && |metas| <= |answers| && (unanswered == 0 ==> left == answers[|metas|..])
    && forall c :: 0 <= c < |metas| ==> ChunkAnswered(results, metas, answers, c)
  }

  lemma {:induction false} BatchedStart(node: string, reqs: seq<AcceptRequest>, results: seq<AcceptResult>,
          metas: seq<Container>, answers: seq<Answer>, left: seq<Answer>, before: seq<Sent>, after: seq<Sent>,
          start: nat)
    requires Batched(node, reqs, results, metas, answers, left, before, after, 0)
    requires start == Min(|metas| * MAX_ACCEPT_BATCH, |reqs|) && start < |reqs|
    ensures Prefix(node, reqs, results, start) && start == |metas| * MAX_ACCEPT_BATCH
  {
    hide Prefix, ChunksSent, ChunkAnswered;
  }

  lemma {:induction false} BatchedEnds(node: string, reqs: seq<AcceptRequest>, results: seq<AcceptResult>,
          metas: seq<Container>, answers: seq<Answer>, left: seq<Answer>, before: seq<Sent>, after: seq<Sent>,
          unanswered: nat)
    requires Batched(node, reqs, results, metas, answers, left, before, after, unanswered)
    ensures Prefix(node, reqs, results, Min(|metas| * MAX_ACCEPT_BATCH, |reqs|))
            && ChunksSent(node, reqs, before, after)
    ensures forall c :: 0 <= c < |metas| ==> ChunkAnswered(results, metas, answers, c)
    ensures |metas| <= |after| - |before| <= |metas| + unanswered
  {
    hide Prefix, ChunksSent, ChunkAnswered;
  }

  /** A request refused by what is left of the answers is the next one refused by all of them. */
  lemma {:induction false} RefusedLater(node: string, reqs: seq<AcceptRequest>, results: seq<AcceptResult>,
          metas: seq<Container>, answers: seq<Answer>, left: seq<Answer>, before: seq<Sent>, had: seq<Sent>,
          after: seq<Sent>)
    requires Batched(node, reqs, results, metas, answers, left, before, had, 0)
    ensures |had| == |before| + |metas|
    ensures |after| > |had| && Refused(left, 0, after[|had|]) ==> Refused(answers, |metas|, after[|before| + |metas|])
  {
    hide Prefix, ChunksSent, ChunkAnswered;
    assert left == answers[|metas|..];
  }

  lemma {:induction false} BatchedFails(node: string, reqs: seq<AcceptRequest>, was: seq<AcceptResult>,
          now: seq<AcceptResult>, metas: seq<Container>, answers: seq<Answer>, left: seq<Answer>, rest: seq<Answer>,
          before: seq<Sent>, had: seq<Sent>, after: seq<Sent>, start: nat)
    requires Batched(node, reqs, was, metas, answers, left, before, had, 0)
    requires start == |metas| * MAX_ACCEPT_BATCH && start < |reqs| && Prefix(node, reqs, now, start)
    requires start <= |was| == |now| && now[..start] == was[..start]
    requires after == had || (|after| == |had| + 1 && had <= after && ChunkSent(node, reqs, after[|had|], start))
    ensures Batched(node, reqs, now, metas, answers, rest, before, after, 1)
  {
    hide Prefix, ChunksSent, ChunkAnswered, ChunkSent;
    SentOneMore(node, reqs, before, had, after, start);
    AllStillAnswered(was, now, metas, metas, answers, start);
  }

  lemma {:induction false} BatchedMore(node: string, reqs: seq<AcceptRequest>, was: seq<AcceptResult>,
          now: seq<AcceptResult>, metas: seq<Container>, meta: Container, answers: seq<Answer>, left: seq<Answer>,
          before: seq<Sent>, had: seq<Sent>, after: seq<Sent>, start: nat, end: nat)
    requires Batched(node, reqs, was, metas, answers, left, before, had, 0)
    requires start == |metas| * MAX_ACCEPT_BATCH && start < |reqs| && end == ChunkEnd(|reqs|, start)
             && Prefix(node, reqs, now, end)
    requires |was| == |now| == |reqs| && now[..start] == was[..start]
    requires |after| == |had| + 1 && had <= after && ChunkSent(node, reqs, after[|had|], start)
    requires |left| > 0 && left[0].Up? && meta == left[0].meta && FromAnswer(now, start, end, left[0])
    ensures Batched(node, reqs, now, metas + [meta], answers, left[1..], before, after, 0)
  {
    hide Prefix, ChunksSent, ChunkAnswered, ChunkSent, FromAnswer;
    SentOneMore(node, reqs, before, had, after, start);
    AllStillAnswered(was, now, metas, metas + [meta], answers, start);
    assert left[0] == answers[|metas|] && left[1..] == answers[|metas| + 1..];
    OneMoreAnswered(now, metas + [meta], answers, start);
  }

  lemma {:induction false} NothingYet(node: string, reqs: seq<AcceptRequest>, results: seq<AcceptResult>,
          answers: seq<Answer>, received: seq<Sent>)
    requires |results| == |reqs| && forall i :: 0 <= i < |results| ==> results[i].rcpt.None?
    ensures Batched(node, reqs, results, [], answers, answers, received, received, 0)
    ensures ChunksSent(node, reqs, received, received)
  {
  }

  lemma {:induction false} StillAnswered(was: seq<AcceptResult>, now: seq<AcceptResult>, metas: seq<Container>,
          more: seq<Container>, answers: seq<Answer>, c: nat, start: nat)
    requires ChunkAnswered(was, metas, answers, c) && |was| == |now| && start <= |was| && now[..start] == was[..start]
    requires start == |metas| * MAX_ACCEPT_BATCH && metas <= more
    ensures ChunkAnswered(now, more, answers, c)
  {
    forall i | 0 <= i < start ensures now[i] == was[i] { assert now[..start][i] == was[..start][i]; }
  }

  lemma {:induction false} AllStillAnswered(was: seq<AcceptResult>, now: seq<AcceptResult>, metas: seq<Container>,
          more: seq<Container>, answers: seq<Answer>, start: nat)
    requires forall c :: 0 <= c < |metas| ==> ChunkAnswered(was, metas, answers, c)
    requires |was| == |now| && start <= |was| && now[..start] == was[..start]
    requires start == |metas| * MAX_ACCEPT_BATCH && metas <= more
    ensures forall c :: 0 <= c < |metas| ==> ChunkAnswered(now, more, answers, c)
  {
    hide ChunkAnswered;
    forall c | 0 <= c < |metas| ensures ChunkAnswered(now, more, answers, c) {
      StillAnswered(was, now, metas, more, answers, c, start);
    }
  }

  lemma {:induction false} OneMoreAnswered(results: seq<AcceptResult>, metas: seq<Container>, answers: seq<Answer>,
          start: nat)
    requires 0 < |metas| <= |answers| && start == (|metas| - 1) * MAX_ACCEPT_BATCH && start <= |results|
    requires answers[|metas| - 1].Up? && metas[|metas| - 1] == answers[|metas| - 1].meta
    requires FromAnswer(results, start, ChunkEnd(|results|, start), answers[|metas| - 1])
    ensures ChunkAnswered(results, metas, answers, |metas| - 1)
  {
  }

  lemma {:induction false} SentOneMore(node: string, reqs: seq<AcceptRequest>, old': seq<Sent>, before: seq<Sent>,
          after: seq<Sent>, start: nat)
    requires ChunksSent(node, reqs, old', before) && start == (|before| - |old'|) * MAX_ACCEPT_BATCH && start < |reqs|
    requires after
             == before || (|after| == |before| + 1 && before <= after && ChunkSent(node, reqs, after[|before|], start))
    ensures ChunksSent(node, reqs, old', after)
  {
  }
}
