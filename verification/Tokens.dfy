/**
 Invocations, receipts and the containers that carry them. A link stands for the
 hash of what it names, so the link is that value itself: two links are equal only
 when they name the same thing. A task is named by its subject, command, arguments
 and nonce alone; the envelope is everything else an invocation or a receipt is
 signed with.
 */
module Tokens {
  import opened DiffLogs
  import opened Sequences

  datatype Command = Add | Remove | Allocate | Put | Accept | Location | Conclude | OtherCommand(name: string)

  /** A named agent, or one whose key is derived from a digest or from a task. */
  datatype Principal = Named(did: string) | FromDigest(digest: Digest) | FromTask(task: Link)

  /** A multihash: a hash function's code and a digest of it. */
  datatype Digest = Multihash(code: nat, value: string)

  /** A blob as an add names it: by its digest, or by the hash function alone. */
  datatype BlobSpec = Hashed(digest: Digest, size: nat) | Unhashed(code: nat, size: nat)

  datatype Args =
    | AddArgs(blob: BlobSpec)
    | AllocateArgs(space: string, blob: BlobSpec, cause: Link)
    | PutArgs(body: BlobSpec, destination: Link)
    | AcceptArgs(space: string, blob: BlobSpec, put: Link)
    | LocationArgs(content: Digest)
    | OtherArgs(text: string)

  datatype Task = Task(subject: Principal, command: Command, args: Args, nonce: Option<string>)

  datatype Invocation = Invocation(task: Task, envelope: string)

  /** What a put receipt reports of the digest: none, bytes that are no multihash, or one. */
  datatype Reported = Nothing | Garbled | Reports(digest: Digest)

  /** A result; an undefined link in an accept is one the node left out. */
  datatype Out =
    | AddOK(site: Link)
    | AllocateOK(hasAddress: bool)
    | PutOK(reported: Reported)
    | AcceptOK(commitment: Option<Link>, pdp: Option<Link>)
    | OtherOK(text: string)
    | Failure(name: string)

  datatype Receipt = Receipt(ran: Link, out: Out, envelope: string)

  datatype Link = OfTask(task: Task) | OfInvocation(inv: Invocation) | OfReceipt(rcpt: Receipt) | OfOther(bytes: string)

  datatype Container = Container(invs: seq<Invocation>, rcpts: seq<Receipt>)

  function TaskOf(inv: Invocation): Link {
    OfTask(inv.task)
  }

  /** Tokens, each kept where it first occurs. */
  function Dedup<T(==)>(tokens: seq<T>): seq<T> {
    if tokens == [] then []
    else
      var init, last := Dedup(tokens[..|tokens| - 1]), tokens[|tokens| - 1];
      if last in init then init else init + [last]
  }

  function Pack(invs: seq<Invocation>, rcpts: seq<Receipt>): Container {
    Container(Dedup(invs), Dedup(rcpts))
  }

  function Weight(c: Container): nat {
    |c.invs| + |c.rcpts|
  }

  lemma {:induction false} DedupKeeps<T>(tokens: seq<T>)
    ensures forall t :: t in Dedup(tokens) <==> t in tokens
    ensures |Dedup(tokens)| <= |tokens|
    ensures forall i, j :: 0 <= i < j < |Dedup(tokens)| ==> Dedup(tokens)[i] != Dedup(tokens)[j]
  {
    if tokens != [] {
      DedupKeeps(tokens[..|tokens| - 1]);
      assert tokens == tokens[..|tokens| - 1] + [tokens[|tokens| - 1]];
    }
  }

  /** What is kept is each token where it first occurs, in order. */
  lemma {:induction false} DedupAre<T>(tokens: seq<T>, n: nat) returns (idx: seq<nat>)
    requires n <= |tokens|
    ensures PlacesOf(idx, n) && |Dedup(tokens[..n])| == |idx|
    ensures forall i :: 0 <= i < n ==> (i in idx <==> tokens[i] !in tokens[..i])
    ensures forall a :: 0 <= a < |idx| ==> Dedup(tokens[..n])[a] == tokens[idx[a]]
  {
    if n == 0 {
      idx := [];
    } else {
      assert tokens[..n][..n - 1] == tokens[..n - 1];
      DedupKeeps(tokens[..n - 1]);
      idx := DedupAre(tokens, n - 1);
      PlacesSnoc(idx, n - 1);
      if tokens[n - 1] !in tokens[..n - 1] { idx := idx + [n - 1]; }
    }
  }
}
