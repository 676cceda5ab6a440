/**
 Choosing the storage node an upload goes to: the registered nodes, listed page by
 page, filtered by the space's policy, by exclusions and by weight, and one drawn by
 weight.
 */
module Routing {
  import opened Words
  import opened Ordering
  import opened DiffLogs
  import opened Drawing

  const PAGE_LIMIT := 1000

  /** A Go int. */
  type NodeWeight = w: int | MIN_INT64 <= w <= MAX_INT64

  datatype Provider = Provider(did: string, weight: NodeWeight, proofs: string)

  // ----- registered nodes

  /** The records of a page, and the node to resume after when some are left. */
  datatype ProviderPage = ProviderPage(results: seq<Provider>, cursor: Option<string>)

  function DidsOf(records: seq<Provider>): seq<string> {
    seq(|records|, i requires 0 <= i < |records| => records[i].did)
  }

  /** The place of a node among some, or their number when it is absent. */
  function PlaceOf(dids: seq<string>, did: string): (i: nat)
    ensures i <= |dids|
    ensures i < |dids| ==> dids[i] == did
    ensures forall j :: 0 <= j < i ==> dids[j] != did
  {
    if dids == [] then 0 else if dids[0] == did then 0 else 1 + PlaceOf(dids[1..], did)
  }

  /** What a cursor leaves to list; one that names no node leaves everything. */
  function Following(dids: seq<string>, cursor: Option<string>): seq<string> {
    if cursor.Some? && PlaceOf(dids, cursor.value) < |dids| then dids[PlaceOf(dids, cursor.value) + 1..] else dids
  }

  /** A cursor leaves what comes after the first node it names; one that names none leaves everything. */
  lemma {:induction false} FollowingIs(dids: seq<string>, cursor: Option<string>)
    ensures cursor.None? || cursor.value !in dids ==> Following(dids, cursor) == dids
    ensures forall i :: 0 <= i < |dids| && cursor == Some(dids[i]) && dids[i] !in dids[..i] ==>
              Following(dids, cursor) == dids[i + 1..]
  {
    forall i | 0 <= i < |dids| && cursor == Some(dids[i]) && dids[i] !in dids[..i]
      ensures Following(dids, cursor) == dids[i + 1..]
    {
      PlaceFirst(dids, i);
    }
  }

  lemma {:induction false} PlaceFirst(dids: seq<string>, i: nat)
    requires i < |dids| && dids[i] !in dids[..i]
    ensures PlaceOf(dids, dids[i]) == i
  {
    if i > 0 {
      assert dids[..i][0] == dids[0];
      forall j | 0 <= j < i - 1 ensures dids[1..][j] != dids[i] { assert dids[..i][j + 1] == dids[1..][j]; }
      PlaceFirst(dids[1..], i - 1);
    }
  }

  /**
   Whether a page of what is left indexes outside it: a limit that is not positive cuts
   off nothing to resume after.
   */
  predicate OutOfRange(rest: seq<string>, limit: int) {
    limit < 0 || (limit == 0 && rest != [])
  }

  /** The nodes of one page among all in order, and the cursor that resumes after it. */
  method Window(dids: seq<string>, cursor: Option<string>, limit: int)
      returns (ok: bool, names: seq<string>, next: Option<string>)
    ensures ok <==> !OutOfRange(Following(dids, cursor), limit)
    ensures ok ==> var rest := Following(dids, cursor);
                   names == rest[..Min(|rest|, limit)] && next == if |rest| > limit then Some(rest[limit - 1]) else None
    ensures forall d :: d in names ==> d in dids
  {
    ok, names, next := true, dids, None;
    if cursor.Some? {
      var i := PlaceOf(names, cursor.value);
      if i < |names| { names := names[i + 1..]; }
    }
    if |names| > limit {
      if limit <= 0 { return false, [], None; }
      names := names[..limit];
      next := Some(names[|names| - 1]);
    }
  }

  class ProviderStore {
    var providers: map<string, Provider>

    ghost predicate Valid()
      reads this
    {
      forall did :: did in providers ==> providers[did].did == did
    }

    constructor ()
      ensures Valid() && providers == map[]
    {
      providers := map[];
    }

    /** Registers a node; one registered already stays as it is. */
    method Add(provider: Provider) returns (ok: bool)
      requires Valid()
      modifies this
      ensures Valid() && ok == (provider.did !in old(providers))
      ensures providers == if ok then old(providers)[provider.did := provider] else old(providers)
    {
      if provider.did in providers { return false; }
      providers := providers[provider.did := provider];
      return true;
    }

    method SetWeight(did: string, weight: NodeWeight) returns (ok: bool)
      requires Valid()
      modifies this
      ensures Valid() && ok == (did in old(providers))
      ensures providers == if ok then old(providers)[did := old(providers)[did].(weight := weight)] else old(providers)
    {
      if did !in providers { return false; }
      providers := providers[did := providers[did].(weight := weight)];
      return true;
    }

    method Delete(did: string) returns (ok: bool)
      requires Valid()
      modifies this
      ensures Valid() && ok == (did in old(providers)) && providers == old(providers) - {did}
    {
      ok := did in providers;
      providers := providers - {did};
    }

    method Get(did: string) returns (r: Option<Provider>)
      ensures r == if did in providers then Some(providers[did]) else None
    {
      if did in providers { return Some(providers[did]); }
      return None;
    }

    /** The registered nodes in order. */
    ghost function Dids(): seq<string>
      reads this
    {
      SortedSet(providers.Keys)
    }

    /** Whether records are those of registered nodes. */
    ghost predicate Registered(records: seq<Provider>)
      reads this
    {
      forall p :: p in records ==> p.did in providers && providers[p.did] == p
    }

    /** The names of the registered nodes, sorted. */
    method Names() returns (names: seq<string>)
      ensures names == Dids() && forall d :: d in names ==> d in providers
    {
      var keys := KeysOf(providers.Keys);
      SortsSet(keys, providers.Keys);
      SortedSetIs(providers.Keys);
      names := SortNames(keys);
    }

    /**
     Lists a page of nodes in order, after the one a cursor names. None stands for the
     panic of a limit that is out of range.
     */
    method List(cursor: Option<string>, limit: int) returns (r: Option<ProviderPage>)
      requires Valid()
      ensures r.None? <==> OutOfRange(Following(Dids(), cursor), limit)
      ensures r.Some? ==> Paged(Following(Dids(), cursor), limit, r.value) && Registered(r.value.results)
    {
      hide Following, Dids;
      var all := Names();
      var ok, names, next := Window(all, cursor, limit);
      if !ok { return None; }
      var results := Fetch(names);
      r := Some(ProviderPage(results, next));
    }

    method Fetch(names: seq<string>) returns (results: seq<Provider>)
      requires Valid() && forall d :: d in names ==> d in providers
      ensures DidsOf(results) == names && Registered(results)
    {
      results := [];
      for i := 0 to |names|
        invariant DidsOf(results) == names[..i] && Registered(results)
      {
        results := results + [providers[names[i]]];
      }
      assert names[..|names|] == names;
    }
  }

  /** A page of what is left to list. */
  ghost predicate Paged(rest: seq<string>, limit: int, page: ProviderPage)
    requires !OutOfRange(rest, limit)
  {
    && DidsOf(page.results) == rest[..Min(|rest|, limit)]
    && page.cursor == if |rest| > limit then Some(rest[limit - 1]) else None
  }

  /** Lists every node, page by page. Over a fixed set of nodes each is listed once, in order. */
  method Collect(store: ProviderStore, limit: nat) returns (items: seq<Provider>)
    requires store.Valid() && limit > 0
    ensures DidsOf(items) == store.Dids() && store.Registered(items)
  {
    items := [];
    var cursor: Option<string> := None;
    ghost var dids := store.Dids();
    SortedSetIs(store.providers.Keys);
    while true
      invariant DidsOf(items) + Following(dids, cursor) == dids && store.Registered(items)
      decreases |dids| - |items|
    {
      var listed := store.List(cursor, limit);
      var page := listed.value;
      hide SortedSet, Ascending;
      PageCollected(dids, items, page, Following(dids, cursor), limit);
      items := items + page.results;
      if page.cursor.None? || |page.results| == 0 { break; }
      cursor := page.cursor;
    }
  }

  lemma {:induction false} PageCollected(dids: seq<string>, items: seq<Provider>, page: ProviderPage, rest: seq<string>,
          limit: nat)
    requires Ascending(dids) && limit > 0 && DidsOf(items) + rest == dids && Paged(rest, limit, page)
    ensures page.cursor.None? ==> DidsOf(items + page.results) == dids
    ensures page.cursor.Some? ==>
              DidsOf(items + page.results) + Following(dids, page.cursor) == dids && |page.results| > 0
  {
    assert DidsOf(items + page.results) == DidsOf(items) + DidsOf(page.results);
    if page.cursor.Some? { Resumes(dids, DidsOf(items), rest, limit); } else { assert rest[..|rest|] == rest; }
  }

  lemma {:induction false} Cuts<T>(all: seq<T>, before: seq<T>, rest: seq<T>, k: nat)
    requires before + rest == all && 0 < k <= |rest|
    ensures |before| + k <= |all| && all[|before| + k - 1] == rest[k - 1] && all[|before| + k..] == rest[k..]
    ensures before + rest[..k] + rest[k..] == all
  {
    assert rest[..k] + rest[k..] == rest;
  }

  lemma {:induction false} FollowsPlace(dids: seq<string>, i: nat)
    requires Ascending(dids) && i < |dids|
    ensures Following(dids, Some(dids[i])) == dids[i + 1..]
  {
    PlaceIs(dids, i);
  }

  /** A cursor that names the last node of a page resumes right after it. */
  lemma {:induction false} Resumes(dids: seq<string>, before: seq<string>, rest: seq<string>, limit: nat)
    requires Ascending(dids) && before + rest == dids && 0 < limit < |rest|
    ensures Following(dids, Some(rest[limit - 1])) == rest[limit..] && before + rest[..limit] + rest[limit..] == dids
  {
    hide Ascending, PlaceOf, Following;
    Cuts(dids, before, rest, limit);
    FollowsPlace(dids, |before| + limit - 1);
  }

  lemma {:induction false} PlaceIs(dids: seq<string>, i: nat)
    requires Ascending(dids) && i < |dids|
    ensures PlaceOf(dids, dids[i]) == i
  {
    var p := PlaceOf(dids, dids[i]);
    LexIrreflexive(dids[i]);
  }

  // ----- policies

  /** What a space's policy leaves to choose from. */
  datatype Resolved = Unconstrained | Constrained(candidates: seq<string>) | Dangling

  predicate Allows(policy: Resolved, did: string) {
    policy.Unconstrained? || (policy.Constrained? && did in policy.candidates)
  }

  class PolicyStore {
    var policies: map<string, seq<string>>
    var spaces: map<string, string>

    /** A stored policy names candidates, and a space references only a stored policy. */
    ghost predicate Valid()
      reads this
    {
      && (forall policy :: policy in policies ==> policies[policy] != [])
      && (forall space :: space in spaces ==> spaces[space] in policies)
    }

    constructor ()
      ensures Valid() && policies == map[] && spaces == map[]
    {
      policies, spaces := map[], map[];
    }

    /**
     The policy a space references, if it references one; a reference to nothing allows
     nothing. Calls that keep to the store leave no such reference.
     */
    function Resolve(space: string): (r: Resolved)
      reads this
      ensures Valid() ==> !r.Dangling? && (r.Constrained? ==> r.candidates != [])
    {
      if space !in spaces then Unconstrained
      else if spaces[space] !in policies then Dangling
      else Constrained(policies[spaces[space]])
    }

    method SetCandidates(policy: string, candidates: seq<string>) returns (ok: bool)
      requires Valid()
      modifies this`policies
      ensures Valid() && ok == (candidates != [])
      ensures policies == if ok then old(policies)[policy := candidates] else old(policies)
    {
      if |candidates| == 0 { return false; }
      policies := policies[policy := candidates];
      return true;
    }

    method SetSpacePolicy(space: string, policy: string) returns (ok: bool)
      requires Valid()
      modifies this`spaces
      ensures Valid() && ok == (policy in policies)
      ensures ok ==> Resolve(space) == Constrained(policies[policy]) && policies[policy] != []
      ensures spaces == if ok then old(spaces)[space := policy] else old(spaces)
    {
      if policy !in policies { return false; }
      spaces := spaces[space := policy];
      return true;
    }

    method ClearSpacePolicy(space: string)
      requires Valid()
      modifies this`spaces
      ensures Valid() && spaces == old(spaces) - {space} && Resolve(space) == Unconstrained
    {
      spaces := spaces - {space};
    }
  }

  /** Whether a policy may name these candidates: some, and all of them registered. */
  method PutPolicy(store: ProviderStore, policies: PolicyStore, policy: string, candidates: seq<string>)
      returns (ok: bool)
    requires policies.Valid()
    modifies policies`policies
    ensures policies.Valid()
    ensures ok <==> candidates != [] && forall c :: c in candidates ==> c in store.providers
    ensures policies.policies == if ok then old(policies.policies)[policy := candidates] else old(policies.policies)
  {
    if |candidates| == 0 { return false; }
    for i := 0 to |candidates|
      invariant policies.Valid() && policies.policies == old(policies.policies)
      invariant forall j :: 0 <= j < i ==> candidates[j] in store.providers
    {
      var p := store.Get(candidates[i]);
      if p.None? { return false; }
    }
    ok := policies.SetCandidates(policy, candidates);
  }

  // ----- selecting

  /** The positive weights of some nodes together. */
  function Heft(records: seq<Provider>): nat {
    if records == [] then 0
    else
      var last := records[|records| - 1].weight;
      Heft(records[..|records| - 1]) + if last > 0 then last else 0
  }

  /** A node an upload to a space may go to. */
  predicate Suits(p: Provider, policy: Resolved, exclusions: seq<string>) {
    p.weight > 0 && p.did !in exclusions && Allows(policy, p.did)
  }

  /** The nodes an upload may go to, in order. */
  function Suitable(providers: seq<Provider>, policy: Resolved, exclusions: seq<string>): seq<Provider> {
    if providers == [] then []
    else
      var init, last := Suitable(providers[..|providers| - 1], policy, exclusions), providers[|providers| - 1];
      if Suits(last, policy, exclusions) then init + [last] else init
  }

  function Named(providers: seq<Provider>, candidates: seq<string>): seq<Provider> {
    if providers == [] then []
    else
      var init, last := Named(providers[..|providers| - 1], candidates), providers[|providers| - 1];
      if last.did in candidates then init + [last] else init
  }

  function Weighty(providers: seq<Provider>): seq<Provider> {
    if providers == [] then []
    else
      var init, last := Weighty(providers[..|providers| - 1]), providers[|providers| - 1];
      if last.weight > 0 then init + [last] else init
  }

  lemma {:induction false} SuitableSnoc(kept: seq<Provider>, last: Provider, policy: Resolved, exclusions: seq<string>)
    ensures Suitable(kept + [last], policy, exclusions)
         == Suitable(kept, policy, exclusions) + if Suits(last, policy, exclusions) then [last] else []
  {
    assert (kept + [last])[..|kept|] == kept;
  }

  lemma {:induction false} WeightySnoc(kept: seq<Provider>, last: Provider)
    ensures Weighty(kept + [last]) == Weighty(kept) + if last.weight > 0 then [last] else []
  {
    assert (kept + [last])[..|kept|] == kept;
  }

  /** Filtering by policy first and by the rest later filters by all at once. */
  lemma {:induction false} FiltersCompose(providers: seq<Provider>, policy: Resolved, exclusions: seq<string>)
    ensures policy.Constrained? ==>
              Suitable(Named(providers, policy.candidates), Unconstrained, exclusions)
              == Suitable(providers, policy, exclusions)
    ensures Weighty(Suitable(providers, policy, exclusions)) == Suitable(providers, policy, exclusions)
  {
    if providers != [] {
      var init, last := providers[..|providers| - 1], providers[|providers| - 1];
      FiltersCompose(init, policy, exclusions);
      assert providers == init + [last];
      SuitableSnoc(init, last, policy, exclusions);
      WeightySnoc(Suitable(init, policy, exclusions), last);
      if policy.Constrained? { SuitableSnoc(Named(init, policy.candidates), last, Unconstrained, exclusions); }
      hide Suitable, Weighty;
    }
  }

  lemma {:induction false} SuitableMembers(providers: seq<Provider>, policy: Resolved, exclusions: seq<string>)
    ensures forall p :: p in Suitable(providers, policy, exclusions) <==> p in providers && Suits(p, policy, exclusions)
    ensures Heft(Suitable(providers, policy, exclusions)) <= Heft(providers)
  {
    if providers != [] {
      var init, last := providers[..|providers| - 1], providers[|providers| - 1];
      SuitableMembers(init, policy, exclusions);
      assert providers == init + [last];
      var kept := Suitable(init, policy, exclusions);
      assert Suitable(providers, policy, exclusions) == if Suits(last, policy, exclusions) then kept + [last] else kept;
      assert Suits(last, policy, exclusions) ==> last.weight > 0;
      HeftSnoc(kept, last);
      hide Suits, Suitable;
    }
  }

  lemma {:induction false} HeftSnoc(records: seq<Provider>, last: Provider)
    ensures Heft(records + [last]) == Heft(records) + if last.weight > 0 then last.weight else 0
  {
    assert (records + [last])[..|records|] == records;
  }

  method FilterToCandidates(providers: seq<Provider>, candidates: seq<string>) returns (filtered: seq<Provider>)
    ensures filtered == Named(providers, candidates)
  {
    var candidateSet := set c | c in candidates;
    filtered := [];
    for i := 0 to |providers|
      invariant filtered == Named(providers[..i], candidates)
    {
      assert providers[..i + 1][..i] == providers[..i];
      if providers[i].did in candidateSet { filtered := filtered + [providers[i]]; }
    }
    assert providers[..|providers|] == providers;
  }

  method FilterExcluded(providers: seq<Provider>, exclusions: seq<string>) returns (filtered: seq<Provider>)
    ensures filtered == Suitable(providers, Unconstrained, exclusions)
  {
    filtered := [];
    for i := 0 to |providers|
      invariant filtered == Suitable(providers[..i], Unconstrained, exclusions)
    {
      assert providers[..i + 1][..i] == providers[..i];
      if providers[i].weight <= 0 { continue; }
      var excluded := false;
      for j := 0 to |exclusions|
        invariant !excluded && forall k :: 0 <= k < j ==> exclusions[k] != providers[i].did
      {
        if providers[i].did == exclusions[j] {
          excluded := true;
          break;
        }
      }
      if !excluded { filtered := filtered + [providers[i]]; }
    }
    assert providers[..|providers|] == providers;
  }

  method FilterZeroWeight(providers: seq<Provider>) returns (filtered: seq<Provider>)
    ensures filtered == Weighty(providers)
  {
    filtered := [];
    for i := 0 to |providers|
      invariant filtered == Weighty(providers[..i])
    {
      assert providers[..i + 1][..i] == providers[..i];
      if providers[i].weight > 0 { filtered := filtered + [providers[i]]; }
    }
    assert providers[..|providers|] == providers;
  }

  /** A registered node an upload to a space may go to. */
  ghost predicate Eligible(providers: map<string, Provider>, policy: Resolved, exclusions: seq<string>, did: string) {
    did in providers && providers[did].weight > 0 && did !in exclusions && Allows(policy, did)
  }

  /**
   Whether an upload to a space may go to a node: it is registered with a positive
   weight, not excluded, and, when the space references a policy, among its candidates.
   */
  ghost predicate MayTake(store: ProviderStore, policies: PolicyStore, space: string, exclusions: seq<string>,
          did: string)
    reads store, policies
  {
    && did in store.providers && store.providers[did].weight > 0
    && (forall i :: 0 <= i < |exclusions| ==> exclusions[i] != did)
    && (space in policies.spaces ==>
          && policies.spaces[space] in policies.policies
          && exists i :: 0 <= i < |policies.policies[policies.spaces[space]]|
                         && policies.policies[policies.spaces[space]][i] == did)
  }

  lemma {:induction false} EligibleExactly(store: ProviderStore, policies: PolicyStore, space: string,
          exclusions: seq<string>, did: string)
    ensures Eligible(store.providers, policies.Resolve(space), exclusions, did)
        <==> MayTake(store, policies, space, exclusions, did)
  {
    assert did !in exclusions <==> forall i :: 0 <= i < |exclusions| ==> exclusions[i] != did;
  }

  lemma {:induction false} AllEligible(store: ProviderStore, policies: PolicyStore, space: string,
          exclusions: seq<string>)
    ensures forall did :: Eligible(store.providers, policies.Resolve(space), exclusions, did)
                          <==> MayTake(store, policies, space, exclusions, did)
  {
    hide Eligible, MayTake;
    forall did ensures Eligible(store.providers, policies.Resolve(space), exclusions, did)
                       <==> MayTake(store, policies, space, exclusions, did) {
      EligibleExactly(store, policies, space, exclusions, did);
    }
  }

  lemma {:induction false} ExcludedExactly(store: ProviderStore, policies: PolicyStore, space: string,
          exclusions: seq<string>)
    ensures forall did :: MayTake(store, policies, space, exclusions, did)
                          <==> MayTake(store, policies, space, [], did) && did !in exclusions
  {
  }

  datatype Selection = Selected(provider: Provider) | Unavailable | Panicked

  function WeightsOf(candidates: seq<Provider>): seq<Word> {
    seq(|candidates|, i requires 0 <= i < |candidates| => UInt64(candidates[i].weight))
  }

  lemma {:induction false} HeftIsSum(candidates: seq<Provider>)
    requires forall p :: p in candidates ==> p.weight > 0
    ensures Sum(WeightsOf(candidates)) == Heft(candidates)
  {
    if candidates != [] {
      HeftIsSum(candidates[..|candidates| - 1]);
      assert WeightsOf(candidates)[..|candidates| - 1] == WeightsOf(candidates[..|candidates| - 1]);
      assert candidates[|candidates| - 1] in candidates;
    }
  }

  /** Whether the registered nodes' weights together fit an int64. */
  ghost predicate Weighable(store: ProviderStore)
    reads store
  {
    forall records :: DidsOf(records) == store.Dids() && store.Registered(records) ==> Heft(records) <= MAX_INT64
  }

  /** A node drawn by weight among candidates. */
  ghost predicate Drawn(candidates: seq<Provider>, provider: Provider) {
    exists draw: int, i: nat ::
        0 <= draw < Sum(WeightsOf(candidates)) && Picks(WeightsOf(candidates), draw, i) && candidates[i] == provider
  }

  /** All registered nodes, in order. */
  ghost predicate Everyone(store: ProviderStore, records: seq<Provider>)
    reads store
  {
    DidsOf(records) == store.Dids() && store.Registered(records)
  }

  /**
   Selects a node for an upload, drawn by weight among those that are registered, have
   a positive weight, are allowed by the space's policy and are not excluded. There is
   none exactly when there is no such node.
   */
  method SelectStorageProvider(store: ProviderStore, policies: PolicyStore, space: string, exclusions: seq<string>)
      returns (r: Selection, ghost everyone: seq<Provider>)
    requires store.Valid()
    ensures Everyone(store, everyone)
    ensures r.Unavailable? <==> forall did :: !MayTake(store, policies, space, exclusions, did)
    ensures r.Selected? ==> MayTake(store, policies, space, exclusions, r.provider.did)
                            && r.provider.did in store.providers && store.providers[r.provider.did] == r.provider
    ensures Weighable(store) ==> !r.Panicked?
    ensures Weighable(store) && r.Selected? ==>
              Drawn(Suitable(everyone, policies.Resolve(space), exclusions), r.provider)
  {
    hide Suitable, Eligible, Drawn, Heft, Weighty, Named, MayTake;
    var all := Collect(store, PAGE_LIMIT);
    everyone := all;
    var candidates := Filter(all, policies.Resolve(space), exclusions);
    Choices(store, policies, space, exclusions, everyone);
    if |candidates| == 0 { return Unavailable, everyone; }
    r := Draw(candidates);
    assert candidates[0] in candidates && MayTake(store, policies, space, exclusions, candidates[0].did);
  }

  /** The nodes the policy allows, no exclusion drops and some weight favours. */
  method Filter(everyone: seq<Provider>, policy: Resolved, exclusions: seq<string>) returns (candidates: seq<Provider>)
    ensures candidates == Suitable(everyone, policy, exclusions)
  {
    FiltersCompose(everyone, policy, exclusions);
    NoneDangling(everyone, exclusions);
    if policy.Dangling? { return []; }
    candidates := everyone;
    if policy.Constrained? { candidates := FilterToCandidates(candidates, policy.candidates); }
    candidates := FilterExcluded(candidates, exclusions);
    candidates := FilterZeroWeight(candidates);
  }

  /** Filtering everyone leaves the nodes an upload to the space may go to. */
  lemma {:induction false} Choices(store: ProviderStore, policies: PolicyStore, space: string, exclusions: seq<string>,
          everyone: seq<Provider>)
    requires store.Valid() && Everyone(store, everyone)
    ensures var some := Suitable(everyone, policies.Resolve(space), exclusions);
            && (forall p :: p in some ==> MayTake(store, policies, space, exclusions, p.did))
            && (forall p :: p in some ==> p.did in store.providers && store.providers[p.did] == p && p.weight > 0)
            && (some == [] <==> forall did :: !MayTake(store, policies, space, exclusions, did))
            && (Weighable(store) ==> Heft(some) <= MAX_INT64)
  {
    hide Suitable, Heft, MayTake, Weighable, Everyone;
    var policy := policies.Resolve(space);
    EligibleIsSuitable(store, everyone, policy, exclusions);
    AllEligible(store, policies, space, exclusions);
    forall p | p in Suitable(everyone, policy, exclusions)
      ensures MayTake(store, policies, space, exclusions, p.did) && p.did in store.providers
    {
      assert Eligible(store.providers, policy, exclusions, p.did);
    }
    forall did ensures Eligible(store.providers, policy, exclusions, did)
                       <==> MayTake(store, policies, space, exclusions, did) {}
  }

  /** Draws one of some candidates by weight. */
  method Draw(candidates: seq<Provider>) returns (r: Selection)
    requires candidates != [] && forall p :: p in candidates ==> p.weight > 0
    ensures !r.Unavailable? && (r.Selected? ==> r.provider in candidates)
    ensures Heft(candidates) <= MAX_INT64 ==> r.Selected? && Drawn(candidates, r.provider)
  {
    HeftIsSum(candidates);
    forall k | 0 <= k < |candidates| ensures WeightsOf(candidates)[k] > 0 { assert candidates[k] in candidates; }
    var i, draw := WeightedRandomInt(WeightsOf(candidates));
    if i.None? { return Panicked; }
    r := Selected(candidates[i.value]);
    assert Heft(candidates) <= MAX_INT64 ==>
            0 <= draw < Sum(WeightsOf(candidates)) && Picks(WeightsOf(candidates), draw, i.value);
  }

  /** Filtering everyone leaves the eligible nodes. */
  lemma {:induction false} EligibleIsSuitable(store: ProviderStore, everyone: seq<Provider>, policy: Resolved,
          exclusions: seq<string>)
    requires store.Valid() && Everyone(store, everyone)
    ensures forall p :: p in Suitable(everyone, policy, exclusions) ==>
              Eligible(store.providers, policy, exclusions, p.did) && store.providers[p.did] == p && p.weight > 0
    ensures Suitable(everyone, policy, exclusions) == []
            <==> forall did :: !Eligible(store.providers, policy, exclusions, did)
    ensures Weighable(store) ==> Heft(Suitable(everyone, policy, exclusions)) <= MAX_INT64
    ensures policy.Dangling? ==> Suitable(everyone, policy, exclusions) == []
  {
    AllListed(store, everyone);
    SuitableMembers(everyone, policy, exclusions);
    NoneDangling(everyone, exclusions);
    hide Suitable, Heft;
    var suitable := Suitable(everyone, policy, exclusions);
    forall did | Eligible(store.providers, policy, exclusions, did) ensures store.providers[did] in suitable {
      assert store.providers[did] in everyone;
    }
    if suitable != [] {
      assert suitable[0] in suitable && Eligible(store.providers, policy, exclusions, suitable[0].did);
    }
  }

  lemma {:induction false} NoneDangling(providers: seq<Provider>, exclusions: seq<string>)
    ensures Suitable(providers, Dangling, exclusions) == []
  {
    if providers != [] { NoneDangling(providers[..|providers| - 1], exclusions); }
  }

  lemma {:induction false} AllListed(store: ProviderStore, records: seq<Provider>)
    requires DidsOf(records) == store.Dids() && store.Registered(records)
    ensures forall p :: p in records <==> p.did in store.providers && store.providers[p.did] == p
  {
    SortedSetIs(store.providers.Keys);
    forall p: Provider | p.did in store.providers && store.providers[p.did] == p ensures p in records {
      assert p.did in DidsOf(records);
      var i :| 0 <= i < |records| && DidsOf(records)[i] == p.did;
      assert records[i] in records;
    }
  }
}
