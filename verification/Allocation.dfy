/**
 Asking nodes for space until one grants it. A node that refuses is not asked again;
 when none is left, a refusal of the digest's hash function is the answer if there
 was one.
 */
module Allocation {
  import opened Words
  import opened DiffLogs
  import opened Tokens
  import opened AgentStore
  import opened Routing

  /**
   What comes of asking a node: no client to ask it with, a refusal, or a grant, which
   the agent store then takes or fails to take.
   */
  datatype NodeAnswer =
    | NoClient
    | Refuses(unsupportedCode: bool)
    | Grants(nonce: string, envelope: string, hasAddress: bool, stamp: string, recorded: bool)

  datatype Allocation =
    | Allocated(provider: Provider, inv: Invocation, rcpt: Receipt, hasAddress: bool)
    | UnsupportedDigestCode
    | CandidateUnavailable
    | ClientFailed
    | DrawPanicked

  function AllocateInvocation(node: string, space: string, blob: BlobSpec, cause: Link, nonce: string,
          envelope: string): Invocation {
    Invocation(Task(Named(node), Allocate, AllocateArgs(space, blob, cause), Some(nonce)), envelope)
  }

  /** Whether asking a node yields an allocation. */
  predicate Yields(a: NodeAnswer) {
    a.Grants? && a.recorded
  }

  ghost predicate Asked(store: ProviderStore, policies: PolicyStore, space: string, asked: seq<string>)
    reads store, policies
  {
    && (forall i, j :: 0 <= i < j < |asked| ==> asked[i] != asked[j])
    && (forall did :: did in asked ==> MayTake(store, policies, space, [], did))
  }

  /**
   Asks nodes one after another. Only nodes of positive weight that the space's policy
   allows are asked, none twice, and giving up means every one of them was asked.
   */
  method DoAllocate(store: ProviderStore, policies: PolicyStore, agent: Memory, nodes: string -> NodeAnswer,
          space: string, blob: BlobSpec, cause: Link)
      returns (r: Allocation, ghost asked: seq<string>)
    requires store.Valid() && agent.Valid()
    modifies agent
    ensures agent.Valid() && Asked(store, policies, space, asked)
    ensures forall i ::
              0 <= i < |asked| - 1 ==>
                nodes(asked[i]).Refuses? || (nodes(asked[i]).Grants? && !nodes(asked[i]).recorded)
    ensures r.UnsupportedDigestCode? || r.CandidateUnavailable? ==>
              && (forall did :: MayTake(store, policies, space, [], did) <==> did in asked)
              && (forall did :: did in asked ==> !Yields(nodes(did)) && !nodes(did).NoClient?)
              && (r.UnsupportedDigestCode? <==> exists did :: did in asked && nodes(did) == Refuses(true))
    ensures r.Allocated? ==>
              && asked != [] && asked[|asked| - 1] == r.provider.did && Yields(nodes(r.provider.did))
              && var a := nodes(r.provider.did);
              && r.inv.task == Task(Named(r.provider.did), Allocate, AllocateArgs(space, blob, cause), Some(a.nonce))
              && r.inv.envelope == a.envelope
              && r.rcpt == Receipt(OfTask(r.inv.task), AllocateOK(a.hasAddress), a.stamp)
              && r.hasAddress == a.hasAddress
              && agent.log == old(agent.log) + [Pack([r.inv], [r.rcpt])]
    ensures !r.Allocated? ==> agent.log == old(agent.log)
    ensures r.ClientFailed? ==> asked != [] && nodes(asked[|asked| - 1]).NoClient?
    ensures Weighable(store) ==> !r.DrawPanicked?
  {
    hide MayTake, Suitable, Drawn, Weighable, Everyone, Allows;
    hide Pack, AgentStore.IndexOf, Memory.Valid, ProviderStore.Valid;
    var exclusions: seq<string> := [];
    var unsupported := false;
    while true
      invariant Asked(store, policies, space, exclusions)
      invariant agent.Valid() && agent.log == old(agent.log)
      invariant forall did :: did in exclusions ==> !Yields(nodes(did)) && !nodes(did).NoClient?
      invariant unsupported <==> exists did :: did in exclusions && nodes(did) == Refuses(true)
      decreases store.providers.Keys - NamesOf(exclusions)
    {
      asked := exclusions;
      var selection, _ := SelectStorageProvider(store, policies, space, exclusions);
      ExcludedExactly(store, policies, space, exclusions);
      if selection.Panicked? { return DrawPanicked, asked; }
      if selection.Unavailable? {
        forall did ensures MayTake(store, policies, space, [], did) <==> did in asked {
          assert !MayTake(store, policies, space, exclusions, did);
        }
        return if unsupported then UnsupportedDigestCode else CandidateUnavailable, asked;
      }
      var candidate := selection.provider;
      asked := exclusions + [candidate.did];
      assert MayTake(store, policies, space, [], candidate.did);
      assert Asked(store, policies, space, asked);
      var answer := nodes(candidate.did);
      if answer.NoClient? { return ClientFailed, asked; }
      if answer.Grants? {
        var inv := AllocateInvocation(candidate.did, space, blob, cause, answer.nonce, answer.envelope);
        var rcpt := Receipt(TaskOf(inv), AllocateOK(answer.hasAddress), answer.stamp);
        if answer.recorded {
          FitsMessage(inv, rcpt);
          var _ := agent.Write(Pack([inv], [rcpt]), IndexOf(Pack([inv], [rcpt])));
          return Allocated(candidate, inv, rcpt, answer.hasAddress), asked;
        }
      } else if answer.unsupportedCode {
        unsupported := true;
      }
      assert candidate.did in store.providers.Keys - NamesOf(exclusions);
      exclusions := exclusions + [candidate.did];
      assert candidate.did in exclusions;
    }
  }

  function NamesOf(dids: seq<string>): set<string> {
    set d | d in dids
  }

  lemma {:induction false} FitsMessage(inv: Invocation, rcpt: Receipt)
    ensures Weight(Pack([inv], [rcpt])) <= MAX_TOKENS
  {
    DedupKeeps([inv]);
    DedupKeeps([rcpt]);
  }
}
