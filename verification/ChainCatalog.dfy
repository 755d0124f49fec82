/**
 Extraction of dependency chains: the bounded depth-first search, the gates and the
 deduplication (src/live_mcp/dependency_chain_catalog.py).
 */
module ChainCatalog {
  import opened Common
  import opened Ledger
  import opened ChainPolicy
  import Simulator
  import Contracts

  const MAX_CHAIN: nat := 5

  type Chain = seq<Tool>

  // ---------------------------------------------------------------- the search

  /** Explicit targets, then implicit ones. */
  function Neighbors(g: Graph, t: Tool): seq<Tool> {
    if t in g then g[t].explicit + g[t].implicit else []
  }

  function Last(path: Chain): Tool
    requires path != []
  {
    path[|path| - 1]
  }

  /** Chains found below a path, in search order. */
  function Search(g: Graph, path: Chain): seq<Chain>
    requires path != []
    decreases MAX_CHAIN - |path|, 1, 0
  {
    if |path| >= MAX_CHAIN then [] else Expand(g, path, Neighbors(g, Last(path)))
  }

  function Expand(g: Graph, path: Chain, targets: seq<Tool>): seq<Chain>
    requires path != [] && |path| < MAX_CHAIN
    decreases MAX_CHAIN - |path|, 0, |targets|
  {
    if targets == [] then []
    else Expand(g, path, targets[..|targets| - 1]) + Branch(g, path, targets[|targets| - 1])
  }

  function Branch(g: Graph, path: Chain, t: Tool): seq<Chain>
    requires path != [] && |path| < MAX_CHAIN
    decreases MAX_CHAIN - |path|, 0, 0
  {
    if t in path then [] else [path + [t]] + Search(g, path + [t])
  }

  function SearchAll(g: Graph, order: seq<Tool>): seq<Chain> {
    if order == [] then [] else SearchAll(g, order[..|order| - 1]) + Search(g, [order[|order| - 1]])
  }

  /** The nested search function and the list it appends to. */
  class ChainSearch {
    var chains: seq<Chain>

    constructor ()
      ensures chains == []
    {
      chains := [];
    }

    method Dfs(g: Graph, current: Tool, path: Chain, visited: set<Tool>)
      requires path != [] && current == Last(path) && visited == Elems(path)
      modifies this
      ensures chains == old(chains) + Search(g, path)
      decreases MAX_CHAIN - |path|
    {
      if |path| >= MAX_CHAIN { return; }
      var targets := Neighbors(g, current);
      for i := 0 to |targets|
        invariant chains == old(chains) + Expand(g, path, targets[..i])
      {
        assert targets[..i + 1][..i] == targets[..i];
        assert targets[i] in visited <==> targets[i] in path;
        if targets[i] !in visited {
          chains := chains + [path + [targets[i]]];
          AppendElems(path, targets[i]);
          Dfs(g, targets[i], path + [targets[i]], visited + {targets[i]});
        }
      }
      assert targets[..|targets|] == targets;
    }

    method Run(g: Graph, order: seq<Tool>)
      requires chains == []
      modifies this
      ensures chains == SearchAll(g, order)
    {
      for i := 0 to |order|
        invariant chains == SearchAll(g, order[..i])
      {
        assert order[..i + 1][..i] == order[..i];
        Dfs(g, order[i], [order[i]], {order[i]});
      }
      assert order[..|order|] == order;
    }
  }

  // ---------------------------------------------------------------- what the search finds

  predicate Connected(g: Graph, c: Chain) {
    forall i :: 0 <= i < |c| - 1 ==> c[i + 1] in Neighbors(g, c[i])
  }

  /** A simple path of the graph, 2 to 5 tools long, from a listed start. */
  predicate IsChain(g: Graph, order: seq<Tool>, c: Chain) {
    2 <= |c| <= MAX_CHAIN && c[0] in order && Distinct(c) && Connected(g, c)
  }

  ghost predicate Extends(g: Graph, path: Chain, c: Chain) {
    |path| < |c| <= MAX_CHAIN && c[..|path|] == path && Distinct(c) && Connected(g, c)
  }

  lemma SimpleStep(g: Graph, path: Chain, t: Tool)
    requires path != [] && Distinct(path) && Connected(g, path)
    ensures Distinct(path + [t]) <==> t !in path
    ensures Connected(g, path + [t]) <==> t in Neighbors(g, Last(path))
  {
    var c := path + [t];
    assert forall i | 0 <= i < |path| :: c[i] == path[i];
    assert c[|path|] == t;
  }

  lemma {:induction false} SearchExactly(g: Graph, path: Chain, c: Chain)
    requires path != [] && Distinct(path) && Connected(g, path)
    ensures c in Search(g, path) <==> Extends(g, path, c)
    decreases MAX_CHAIN - |path|, 1, 0
  {
    hide Neighbors, Distinct, Connected;
    if |path| < MAX_CHAIN {
      ExpandExactly(g, path, Neighbors(g, Last(path)), c);
      if Extends(g, path, c) { NextIsNeighbor(g, path, c); }
    }
  }

  lemma NextIsNeighbor(g: Graph, path: Chain, c: Chain)
    requires path != [] && Extends(g, path, c)
    ensures c[|path|] in Neighbors(g, Last(path))
  {
    hide Neighbors;
    assert c[|path| - 1] == path[|path| - 1];
  }

  lemma {:induction false} ExpandExactly(g: Graph, path: Chain, targets: seq<Tool>, c: Chain)
    requires path != [] && Distinct(path) && Connected(g, path) && |path| < MAX_CHAIN
    requires forall t :: t in targets ==> t in Neighbors(g, Last(path))
    ensures c in Expand(g, path, targets) <==> Extends(g, path, c) && c[|path|] in targets
    decreases MAX_CHAIN - |path|, 0, |targets|
  {
    hide Neighbors, Distinct, Connected, Search, Extends;
    if targets != [] {
      var k := |targets| - 1;
      assert targets == targets[..k] + [targets[k]];
      ExpandExactly(g, path, targets[..k], c);
      BranchExactly(g, path, targets[k], c);
    }
  }

  lemma {:induction false} BranchExactly(g: Graph, path: Chain, t: Tool, c: Chain)
    requires path != [] && Distinct(path) && Connected(g, path) && |path| < MAX_CHAIN && t in Neighbors(g, Last(path))
    ensures c in Branch(g, path, t) <==> Extends(g, path, c) && c[|path|] == t
    decreases MAX_CHAIN - |path|, 0, 0
  {
    hide Neighbors, Connected, Search;
    SimpleStep(g, path, t);
    var next := path + [t];
    if t in path {
      if Extends(g, path, c) { RepeatsNot(g, path, c); }
    } else {
      SearchExactly(g, next, c);
      if Extends(g, path, c) && c[|path|] == t { assert c[..|path| + 1] == next; }
      if Extends(g, next, c) { assert c[..|path|] == next[..|path|] == path && c[|path|] == next[|path|]; }
      if c == next { assert c[..|path|] == path; }
    }
  }

  lemma RepeatsNot(g: Graph, path: Chain, c: Chain)
    requires Extends(g, path, c)
    ensures c[|path|] !in path
  {
    forall i | 0 <= i < |path| ensures path[i] != c[|path|] { assert c[i] == c[..|path|][i]; }
  }

  /** The search finds exactly the simple paths of 2 to 5 tools. */
  lemma {:induction false} SearchAllExactly(g: Graph, order: seq<Tool>, c: Chain)
    ensures c in SearchAll(g, order) <==> IsChain(g, order, c)
  {
    hide Neighbors, Search;
    if order != [] {
      var k := |order| - 1;
      assert order == order[..k] + [order[k]];
      SearchAllExactly(g, order[..k], c);
      SearchExactly(g, [order[k]], c);
      if |c| >= 1 { assert c[..1] == [c[0]]; }
    }
  }

  // ---------------------------------------------------------------- no duplicates on a valid graph

  ghost predicate DuplicateFree(g: Graph) {
    forall t :: Distinct(Neighbors(g, t))
  }

  /** A canonical graph never lists a neighbour twice. */
  lemma CanonicalIsDuplicateFree(g: Graph, names: seq<Tool>)
    requires Canonical(g, names)
    ensures DuplicateFree(g)
  {
    forall t ensures Distinct(Neighbors(g, t)) {
      if t in g {
        assert CanonicalNode(g[t], t, names);
        var e := g[t];
        var both := e.explicit + e.implicit;
        forall i, j | 0 <= i < j < |both| ensures both[i] != both[j] {
          if i < |e.explicit| <= j { assert both[i] in e.explicit && both[j] in e.implicit; }
        }
      }
    }
  }

  lemma DistinctConcat<T>(a: seq<T>, b: seq<T>)
    requires Distinct(a) && Distinct(b) && forall x :: x in a ==> x !in b
    ensures Distinct(a + b)
  {
    var c := a + b;
    forall i, j | 0 <= i < j < |c| ensures c[i] != c[j] {
      if i < |a| <= j { assert c[i] in a && c[j] in b; }
    }
  }

  lemma {:induction false} SearchNoDuplicates(g: Graph, path: Chain)
    requires DuplicateFree(g) && path != [] && Distinct(path) && Connected(g, path)
    ensures Distinct(Search(g, path))
    decreases MAX_CHAIN - |path|, 1, 0
  {
    hide Neighbors, Connected;
    if |path| < MAX_CHAIN {
      assert Distinct(Neighbors(g, Last(path)));
      ExpandNoDuplicates(g, path, Neighbors(g, Last(path)));
    }
  }

  lemma {:induction false} ExpandNoDuplicates(g: Graph, path: Chain, targets: seq<Tool>)
    requires DuplicateFree(g) && path != [] && Distinct(path) && Connected(g, path) && |path| < MAX_CHAIN
    requires Distinct(targets) && forall t :: t in targets ==> t in Neighbors(g, Last(path))
    ensures Distinct(Expand(g, path, targets))
    decreases MAX_CHAIN - |path|, 0, |targets|
  {
    hide Neighbors, Connected, Search, DuplicateFree;
    if targets != [] {
      var k := |targets| - 1;
      var t := targets[k];
      assert targets == targets[..k] + [t];
      ExpandNoDuplicates(g, path, targets[..k]);
      SimpleStep(g, path, t);
      forall c | c in Expand(g, path, targets[..k]) ensures c !in Branch(g, path, t) {
        ExpandExactly(g, path, targets[..k], c);
        BranchExactly(g, path, t, c);
      }
      BranchNoDuplicates(g, path, t);
      DistinctConcat(Expand(g, path, targets[..k]), Branch(g, path, t));
    }
  }

  lemma {:induction false} BranchNoDuplicates(g: Graph, path: Chain, t: Tool)
    requires DuplicateFree(g) && path != [] && Distinct(path) && Connected(g, path) && |path| < MAX_CHAIN
    requires t in Neighbors(g, Last(path))
    ensures Distinct(Branch(g, path, t))
    decreases MAX_CHAIN - |path|, 0, 0
  {
    hide Neighbors, Connected, Search, DuplicateFree, Distinct;
    SimpleStep(g, path, t);
    if t !in path {
      var next := path + [t];
      SearchNoDuplicates(g, next);
      SearchExactly(g, next, next);
      assert Distinct([next]) by { SingletonDistinct(next); }
      DistinctConcat([next], Search(g, next));
    } else {
      NothingDistinct();
    }
  }

  lemma SingletonDistinct<T>(x: T)
    ensures Distinct([x])
  {
  }

  lemma NothingDistinct()
    ensures Distinct<Chain>([])
  {
  }

  /** On a canonical graph with distinct starts the raw search result has no duplicates. */
  lemma {:induction false} SearchAllNoDuplicates(g: Graph, order: seq<Tool>)
    requires DuplicateFree(g) && Distinct(order)
    ensures Distinct(SearchAll(g, order))
  {
    hide Neighbors, Search, DuplicateFree;
    if order != [] {
      var k := |order| - 1;
      assert order == order[..k] + [order[k]];
      SearchAllNoDuplicates(g, order[..k]);
      SearchNoDuplicates(g, [order[k]]);
      forall c ensures c in SearchAll(g, order[..k]) ==> c !in Search(g, [order[k]]) {
        SearchAllExactly(g, order[..k], c);
        SearchExactly(g, [order[k]], c);
        if |c| >= 1 { assert c[..1] == [c[0]]; }
      }
      DistinctConcat(SearchAll(g, order[..k]), Search(g, [order[k]]));
    }
  }

  // ---------------------------------------------------------------- gates and deduplication

  /** Keep the chain, drop it for a reason, or raise. */
  datatype Gate = Keep | Drop(reason: Reason) | Fail
  datatype Reason = RuleBroken(code: nat) | Incoherent | Contradiction

  function Kept(chains: seq<Chain>, gate: Chain -> Gate): seq<Chain> {
    if chains == [] then []
    else
      var k := |chains| - 1;
      Kept(chains[..k], gate) + if gate(chains[k]) == Keep then [chains[k]] else []
  }

  /** First occurrences of the kept chains. */
  function FirstKept(chains: seq<Chain>, gate: Chain -> Gate): seq<Chain> {
    if chains == [] then []
    else
      var k := |chains| - 1;
      var before := FirstKept(chains[..k], gate);
      if gate(chains[k]) == Keep && chains[k] !in before then before + [chains[k]] else before
  }

  function Drops(chains: seq<Chain>, gate: Chain -> Gate, reason: Reason): nat {
    if chains == [] then 0
    else
      var k := |chains| - 1;
      Drops(chains[..k], gate, reason) + if gate(chains[k]) == Drop(reason) then 1 else 0
  }

  /** The filtering loop; None when a gate raises. */
  method FilterChains(chains: seq<Chain>, gate: Chain -> Gate)
      returns (kept: Option<seq<Chain>>, stats: map<Reason, nat>)
    ensures kept.None? <==> exists c :: c in chains && gate(c) == Fail
    ensures kept.Some? ==> kept.value == FirstKept(chains, gate)
    ensures kept.Some? ==> forall r ::
              (r in stats <==> Drops(chains, gate, r) > 0) && (r in stats ==> stats[r] == Drops(chains, gate, r))
  {
    var deduped: seq<Chain> := [];
    var seen: set<Chain> := {};
    stats := map[];
    for i := 0 to |chains|
      invariant deduped == FirstKept(chains[..i], gate) && seen == Elems(deduped)
      invariant forall c :: c in chains[..i] ==> gate(c) != Fail
      invariant forall r :: (r in stats <==> Drops(chains[..i], gate, r) > 0) &&
                            (r in stats ==> stats[r] == Drops(chains[..i], gate, r))
    {
      var c := chains[i];
      assert chains[..i + 1][..i] == chains[..i] && chains[..i + 1] == chains[..i] + [c];
      assert c in seen <==> c in deduped;
      match gate(c) {
        case Fail => return None, stats;
        case Drop(r) => stats := stats[r := (if r in stats then stats[r] else 0) + 1];
        case Keep =>
          if c !in seen {
            AppendElems(deduped, c);
            seen := seen + {c};
            deduped := deduped + [c];
          }
      }
    }
    assert chains[..|chains|] == chains;
    return Some(deduped), stats;
  }

  lemma {:induction false} FirstKeptIs(chains: seq<Chain>, gate: Chain -> Gate)
    ensures Distinct(FirstKept(chains, gate))
    ensures forall c :: c in FirstKept(chains, gate) <==> c in chains && gate(c) == Keep
  {
    if chains != [] {
      var k := |chains| - 1;
      FirstKeptIs(chains[..k], gate);
      assert chains == chains[..k] + [chains[k]];
    }
  }

  /** Without duplicates, deduplication only filters, and keeps the search order. */
  lemma {:induction false} DeduplicationIsFilter(chains: seq<Chain>, gate: Chain -> Gate)
    requires Distinct(chains)
    ensures FirstKept(chains, gate) == Kept(chains, gate)
  {
    if chains != [] {
      var k := |chains| - 1;
      assert chains == chains[..k] + [chains[k]];
      assert chains[k] !in chains[..k] by { assert forall i | 0 <= i < k :: chains[i] != chains[k]; }
      DeduplicationIsFilter(chains[..k], gate);
      FirstKeptIs(chains[..k], gate);
    }
  }

  /** Extraction returns, each once, exactly the simple paths of 2 to 5 tools that pass the gates. */
  lemma ExtractionExactly(g: Graph, order: seq<Tool>, gate: Chain -> Gate, c: Chain)
    ensures Distinct(FirstKept(SearchAll(g, order), gate))
    ensures c in FirstKept(SearchAll(g, order), gate) <==> IsChain(g, order, c) && gate(c) == Keep
  {
    hide SearchAll, IsChain, FirstKept;
    FirstKeptIs(SearchAll(g, order), gate);
    SearchAllExactly(g, order, c);
  }

  /** `_extract_dependency_chains` on the graph of one server; None when a gate raises. */
  method ExtractDependencyChains(g: Graph, order: seq<Tool>, gate: Chain -> Gate) returns (chains: Option<seq<Chain>>)
    ensures order == [] ==> chains == Some([])
    ensures order != [] ==> (chains.None? <==> exists c :: IsChain(g, order, c) && gate(c) == Fail)
    ensures chains.Some? ==> chains.value == FirstKept(SearchAll(g, order), gate)
    ensures chains.Some? ==> Distinct(chains.value) && forall c :: c in chains.value <==>
              IsChain(g, order, c) && gate(c) == Keep
  {
    hide Search, IsChain, Distinct, FirstKept;
    forall c ensures c in SearchAll(g, order) <==> IsChain(g, order, c) { SearchAllExactly(g, order, c); }
    FirstKeptIs(SearchAll(g, order), gate);
    if order == [] { EmptyKept(gate); return Some([]); }
    var search := new ChainSearch();
    search.Run(g, order);
    var stats;
    chains, stats := FilterChains(search.chains, gate);
  }

  lemma EmptyKept(gate: Chain -> Gate)
    ensures FirstKept([], gate) == []
  {
  }

  // ---------------------------------------------------------------- pruning during the search

  ghost predicate PrefixClosed(ok: Chain -> bool) {
    forall c: Chain, d: Chain :: c != [] && Distinct(c + d) && ok(c + d) ==> ok(c)
  }

  function Pruned(g: Graph, path: Chain, ok: Chain -> bool): seq<Chain>
    requires path != []
    decreases MAX_CHAIN - |path|, 1, 0
  {
    if |path| >= MAX_CHAIN then [] else PrunedExpand(g, path, Neighbors(g, Last(path)), ok)
  }

  function PrunedExpand(g: Graph, path: Chain, targets: seq<Tool>, ok: Chain -> bool): seq<Chain>
    requires path != [] && |path| < MAX_CHAIN
    decreases MAX_CHAIN - |path|, 0, |targets|
  {
    if targets == [] then []
    else
      var k := |targets| - 1;
      var next := path + [targets[k]];
      PrunedExpand(g, path, targets[..k], ok) +
      if targets[k] in path || !ok(next) then [] else [next] + Pruned(g, next, ok)
  }

  function PrunedAll(g: Graph, order: seq<Tool>, ok: Chain -> bool): seq<Chain> {
    if order == [] then [] else PrunedAll(g, order[..|order| - 1], ok) + Pruned(g, [order[|order| - 1]], ok)
  }

  function Only(chains: seq<Chain>, ok: Chain -> bool): seq<Chain> {
    if chains == [] then []
    else
      var k := |chains| - 1;
      Only(chains[..k], ok) + if ok(chains[k]) then [chains[k]] else []
  }

  lemma {:induction false} OnlyConcat(a: seq<Chain>, b: seq<Chain>, ok: Chain -> bool)
    ensures Only(a + b, ok) == Only(a, ok) + Only(b, ok)
  {
    if b == [] {
      assert a + b == a;
    } else {
      assert (a + b)[..|a + b| - 1] == a + b[..|b| - 1];
      OnlyConcat(a, b[..|b| - 1], ok);
    }
  }

  lemma {:induction false} OnlyNone(chains: seq<Chain>, ok: Chain -> bool)
    requires forall c :: c in chains ==> !ok(c)
    ensures Only(chains, ok) == []
  {
    if chains != [] { OnlyNone(chains[..|chains| - 1], ok); }
  }

  lemma {:induction false} PrunedIsFiltered(g: Graph, path: Chain, ok: Chain -> bool)
    requires PrefixClosed(ok) && path != [] && Distinct(path) && Connected(g, path)
    ensures Pruned(g, path, ok) == Only(Search(g, path), ok)
    decreases MAX_CHAIN - |path|, 1, 0
  {
    hide Neighbors, Connected, Distinct, PrefixClosed;
    if |path| < MAX_CHAIN { PrunedExpandIsFiltered(g, path, Neighbors(g, Last(path)), ok); }
  }

  lemma {:induction false} PrunedExpandIsFiltered(g: Graph, path: Chain, targets: seq<Tool>, ok: Chain -> bool)
    requires PrefixClosed(ok) && path != [] && Distinct(path) && Connected(g, path) && |path| < MAX_CHAIN
    requires forall t :: t in targets ==> t in Neighbors(g, Last(path))
    ensures PrunedExpand(g, path, targets, ok) == Only(Expand(g, path, targets), ok)
    decreases MAX_CHAIN - |path|, 0, |targets|
  {
    hide Neighbors, Connected, Distinct, PrefixClosed, Search, Pruned, Only;
    if targets != [] {
      var k := |targets| - 1;
      var t := targets[k];
      assert targets == targets[..k] + [t];
      PrunedExpandIsFiltered(g, path, targets[..k], ok);
      OnlyConcat(Expand(g, path, targets[..k]), Branch(g, path, t), ok);
      PrunedBranchIsFiltered(g, path, t, ok);
    } else {
      OnlyNone([], ok);
    }
  }

  lemma {:induction false} PrunedBranchIsFiltered(g: Graph, path: Chain, t: Tool, ok: Chain -> bool)
    requires PrefixClosed(ok) && path != [] && Distinct(path) && Connected(g, path) && |path| < MAX_CHAIN
    requires t in Neighbors(g, Last(path))
    ensures Only(Branch(g, path, t), ok) == if t in path ||
            !ok(path + [t]) then [] else [path + [t]] + Pruned(g, path + [t], ok)
    decreases MAX_CHAIN - |path|, 0, 0
  {
    hide Neighbors, Connected, Distinct, PrefixClosed, Search, Pruned, Only;
    var next := path + [t];
    SimpleStep(g, path, t);
    if t in path {
      OnlyNone([], ok);
    } else if !ok(next) {
      forall c | c in Branch(g, path, t) ensures !ok(c) {
        BranchExactly(g, path, t, c);
        BelowRejected(g, path, t, c, ok);
      }
      OnlyNone(Branch(g, path, t), ok);
    } else {
      PrunedIsFiltered(g, next, ok);
      OnlyConcat([next], Search(g, next), ok);
      OnlyOne(next, ok);
    }
  }

  lemma OnlyOne(c: Chain, ok: Chain -> bool)
    requires ok(c)
    ensures Only([c], ok) == [c]
  {
    assert [c][..0] == [];
  }

  lemma BelowRejected(g: Graph, path: Chain, t: Tool, c: Chain, ok: Chain -> bool)
    requires PrefixClosed(ok) && Extends(g, path, c) && c[|path|] == t && !ok(path + [t])
    ensures !ok(c)
  {
    hide Connected, Distinct;
    var next := path + [t];
    assert c == next + c[|next|..];
    assert next != [];
  }

  /** Dropping chains after the search and cutting branches during it give the same list, for every
      gate that extending a repeat-free chain cannot repair. */
  lemma {:induction false} PruningEqualsFiltering(g: Graph, order: seq<Tool>, ok: Chain -> bool)
    requires PrefixClosed(ok)
    ensures PrunedAll(g, order, ok) == Only(SearchAll(g, order), ok)
  {
    hide Neighbors, Search, Pruned, PrefixClosed;
    if order != [] {
      var k := |order| - 1;
      PruningEqualsFiltering(g, order[..k], ok);
      PrunedIsFiltered(g, [order[k]], ok);
      OnlyConcat(SearchAll(g, order[..k]), Search(g, [order[k]]), ok);
    }
  }

  // ---------------------------------------------------------------- the gates of the catalog

  /** Constraints always; symbolic simulation unless the paper baseline is in use. */
  predicate Admissible(rules: seq<Rule>, d: Contracts.Domain, baseline: bool, c: Chain)
    requires forall t :: t in c ==> t in d.contracts
  {
    ChainContractIssue(rules, c) == NoIssue && (baseline || Simulator.Feasible(d, Simulator.ContractsOf(d, c)))
  }

  /** Chains over tools without a contract cannot come out of the graph; the gate is total anyway. */
  function AdmissibleGate(rules: seq<Rule>, d: Contracts.Domain, baseline: bool): Chain -> bool {
    (c: Chain) => (forall t :: t in c ==> t in d.contracts) && Admissible(rules, d, baseline, c)
  }

  lemma AdmissiblePrefixClosed(rules: seq<Rule>, d: Contracts.Domain, baseline: bool)
    ensures PrefixClosed(AdmissibleGate(rules, d, baseline))
  {
    hide Simulator.Feasible, ChainContractIssue;
    var ok := AdmissibleGate(rules, d, baseline);
    forall c: Chain, e: Chain | c != [] && Distinct(c + e) && ok(c + e) ensures ok(c) {
      assert forall t :: t in c ==> t in c + e;
      DistinctApart(c, e);
      PolicyPrefixClosed(rules, c, e);
      assert forall t :: t in e ==> t in c + e;
      assert Simulator.ContractsOf(d, c + e) == Simulator.ContractsOf(d, c) + Simulator.ContractsOf(d, e);
      Simulator.SimulationPrefixClosed(d, Simulator.ContractsOf(d, c), Simulator.ContractsOf(d, e));
    }
  }

  /** The gates in source order. Goal coherence is an arbitrary further test; a chain over a tool
      without a contract, or a rule of unknown kind, raises. */
  function CatalogGate(rules: seq<Rule>, d: Contracts.Domain, baseline: bool, coherent: Chain -> bool): Chain -> Gate {
    (c: Chain) =>
      match ChainContractIssue(rules, c)
      case BadRule => Fail
      case Broken(code) => Drop(RuleBroken(code))
      case NoIssue =>
        if baseline then Keep
        else if exists t :: t in c && t !in d.contracts then Fail
        else if !coherent(c) then Drop(Incoherent)
        else if !Simulator.Feasible(d, Simulator.ContractsOf(d, c)) then Drop(Contradiction)
        else Keep
  }

  lemma {:induction false} KeptOfOnly(chains: seq<Chain>, gate: Chain -> Gate, ok: Chain -> bool)
    requires forall c :: c in chains && gate(c) == Keep ==> ok(c)
    ensures Kept(Only(chains, ok), gate) == Kept(chains, gate)
  {
    if chains != [] {
      var k := |chains| - 1;
      assert chains == chains[..k] + [chains[k]];
      KeptOfOnly(chains[..k], gate, ok);
      if ok(chains[k]) {
        KeptSnoc(Only(chains[..k], ok), chains[k], gate);
      } else {
        assert Only(chains[..k], ok) + [] == Only(chains[..k], ok);
        assert Kept(chains[..k], gate) + [] == Kept(chains[..k], gate);
      }
    }
  }

  lemma KeptSnoc(chains: seq<Chain>, c: Chain, gate: Chain -> Gate)
    ensures Kept(chains + [c], gate) == Kept(chains, gate) + if gate(c) == Keep then [c] else []
  {
    assert (chains + [c])[..|chains|] == chains;
  }

  /** Filtering by constraints and simulation after the search equals pruning by them during it:
      the catalog comes out the same, in the same order. */
  lemma CatalogCouldPrune(g: Graph, order: seq<Tool>, rules: seq<Rule>, d: Contracts.Domain, coherent: Chain -> bool)
    ensures PrunedAll(g, order, AdmissibleGate(rules, d, false))
            == Only(SearchAll(g, order), AdmissibleGate(rules, d, false))
    ensures Kept(PrunedAll(g, order, AdmissibleGate(rules, d, false)), CatalogGate(rules, d, false, coherent)) ==
            Kept(SearchAll(g, order), CatalogGate(rules, d, false, coherent))
  {
    hide PrunedAll, SearchAll, Kept, Only, Simulator.Feasible, Simulator.ContractsOf, ChainContractIssue;
    AdmissiblePrefixClosed(rules, d, false);
    PruningEqualsFiltering(g, order, AdmissibleGate(rules, d, false));
    KeptOfOnly(SearchAll(g, order), CatalogGate(rules, d, false, coherent), AdmissibleGate(rules, d, false));
  }

  // ---------------------------------------------------------------- the order of the search

  /** One tool stands before the other in a list. */
  ghost predicate StandsBefore(list: seq<Tool>, a: Tool, b: Tool) {
    exists i, j :: 0 <= i < j < |list| && list[i] == a && list[j] == b
  }

  /** Where the search goes on from the first k tools of a chain: the starts, or the explicit and then the implicit
      targets of the tool before. */
  function Choices(g: Graph, order: seq<Tool>, c: Chain, k: nat): seq<Tool>
    requires k <= |c|
  {
    if k == 0 then order
    else if c[k - 1] in g then g[c[k - 1]].explicit + g[c[k - 1]].implicit
    else []
  }

  /** One chain begins the other, or at the first place where they differ its tool is the earlier choice. */
  ghost predicate ListedBefore(g: Graph, order: seq<Tool>, c: Chain, e: Chain) {
    || (|c| < |e| && e[..|c|] == c)
    || exists k: nat :: DiffersAt(c, e, k) && StandsBefore(Choices(g, order, c, k), c[k], e[k])
  }

  predicate DiffersAt(c: Chain, e: Chain, k: nat) {
    k < |c| && k < |e| && c[..k] == e[..k] && c[k] != e[k]
  }

  ghost predicate Listed(g: Graph, order: seq<Tool>, chains: seq<Chain>) {
    forall i, j :: 0 <= i < j < |chains| ==> ListedBefore(g, order, chains[i], chains[j])
  }

  lemma ListedConcat(g: Graph, order: seq<Tool>, a: seq<Chain>, b: seq<Chain>)
    requires Listed(g, order, a) && Listed(g, order, b)
    requires forall c, e :: c in a && e in b ==> ListedBefore(g, order, c, e)
    ensures Listed(g, order, a + b)
  {
    hide ListedBefore;
    var both := a + b;
    forall i, j | 0 <= i < j < |both| ensures ListedBefore(g, order, both[i], both[j]) {
      if i < |a| <= j { assert both[i] in a && both[j] in b; }
    }
  }

  lemma NothingListed(g: Graph, order: seq<Tool>)
    ensures Listed(g, order, [])
  {
  }

  lemma OneListed(g: Graph, order: seq<Tool>, c: Chain)
    ensures Listed(g, order, [c])
  {
  }

  lemma {:induction false} SearchListed(g: Graph, order: seq<Tool>, path: Chain)
    requires DuplicateFree(g) && path != [] && Distinct(path) && Connected(g, path)
    ensures Listed(g, order, Search(g, path))
    decreases MAX_CHAIN - |path|, 1, 0
  {
    hide Neighbors, Connected, Distinct, Listed, DuplicateFree;
    NothingListed(g, order);
    if |path| < MAX_CHAIN {
      assert Neighbors(g, Last(path))[..|Neighbors(g, Last(path))|] == Neighbors(g, Last(path));
      ExpandListed(g, order, path, |Neighbors(g, Last(path))|);
    }
  }

  lemma {:induction false} ExpandListed(g: Graph, order: seq<Tool>, path: Chain, n: nat)
    requires DuplicateFree(g) && path != [] && Distinct(path) && Connected(g, path) && |path| < MAX_CHAIN
    requires n <= |Neighbors(g, Last(path))|
    ensures Listed(g, order, Expand(g, path, Neighbors(g, Last(path))[..n]))
    decreases MAX_CHAIN - |path|, 0, n
  {
    hide Neighbors, Connected, Distinct, Listed, ListedBefore, DuplicateFree, Search, Branch;
    if n == 0 {
      NothingListed(g, order);
    } else {
      var all := Neighbors(g, Last(path));
      var t := all[n - 1];
      assert all[..n][..n - 1] == all[..n - 1] && all[..n][n - 1] == t;
      ExpandListed(g, order, path, n - 1);
      BranchListed(g, order, path, t);
      forall c, e | c in Expand(g, path, all[..n - 1]) && e in Branch(g, path, t)
        ensures ListedBefore(g, order, c, e)
      {
        ExpandExactly(g, path, all[..n - 1], c);
        BranchExactly(g, path, t, e);
        var i :| 0 <= i < n - 1 && all[i] == c[|path|];
        Forks(g, order, path, c, e, i, n - 1);
      }
      ListedConcat(g, order, Expand(g, path, all[..n - 1]), Branch(g, path, t));
    }
  }

  /** Two chains that leave a path for different neighbours are listed as the neighbours are. */
  lemma Forks(g: Graph, order: seq<Tool>, path: Chain, c: Chain, e: Chain, i: nat, j: nat)
    requires path != [] && DuplicateFree(g) && Extends(g, path, c) && Extends(g, path, e)
    requires i < j < |Neighbors(g, Last(path))|
    requires Neighbors(g, Last(path))[i] == c[|path|] && Neighbors(g, Last(path))[j] == e[|path|]
    ensures ListedBefore(g, order, c, e)
  {
    hide Connected;
    var k := |path|;
    assert Distinct(Neighbors(g, Last(path)));
    assert c[k - 1] == c[..k][k - 1] == Last(path);
    assert Choices(g, order, c, k) == Neighbors(g, Last(path));
    assert DiffersAt(c, e, k);
  }

  lemma {:induction false} BranchListed(g: Graph, order: seq<Tool>, path: Chain, t: Tool)
    requires DuplicateFree(g) && path != [] && Distinct(path) && Connected(g, path) && |path| < MAX_CHAIN
    requires t in Neighbors(g, Last(path))
    ensures Listed(g, order, Branch(g, path, t))
    decreases MAX_CHAIN - |path|, 0, 0
  {
    hide Neighbors, Connected, Distinct, Listed, DuplicateFree, Search, ListedBefore;
    NothingListed(g, order);
    if t !in path {
      var next := path + [t];
      SimpleStep(g, path, t);
      SearchListed(g, order, next);
      OneListed(g, order, next);
      forall c | c in Search(g, next) ensures ListedBefore(g, order, next, c) {
        SearchExactly(g, next, c);
        BeginsListed(g, order, next, c);
      }
      ListedConcat(g, order, [next], Search(g, next));
    }
  }

  lemma BeginsListed(g: Graph, order: seq<Tool>, path: Chain, c: Chain)
    requires Extends(g, path, c)
    ensures ListedBefore(g, order, path, c)
  {
  }

  /** On a canonical graph with distinct starts the search lists every chain before its extensions, and otherwise by
      the order of the starts and of the neighbours, explicit ones first. */
  lemma {:induction false} SearchAllListed(g: Graph, order: seq<Tool>, n: nat)
    requires DuplicateFree(g) && Distinct(order) && n <= |order|
    ensures Listed(g, order, SearchAll(g, order[..n]))
  {
    hide Neighbors, Listed, ListedBefore, DuplicateFree, Search;
    if n == 0 {
      NothingListed(g, order);
    } else {
      var t := order[n - 1];
      assert order[..n][..n - 1] == order[..n - 1] && order[..n][n - 1] == t;
      SearchAllListed(g, order, n - 1);
      SearchListed(g, order, [t]);
      forall c, e | c in SearchAll(g, order[..n - 1]) && e in Search(g, [t]) ensures ListedBefore(g, order, c, e) {
        SearchAllExactly(g, order[..n - 1], c);
        SearchExactly(g, [t], e);
        var i :| 0 <= i < n - 1 && order[i] == c[0];
        StartsListed(g, order, c, e, i, n - 1);
      }
      ListedConcat(g, order, SearchAll(g, order[..n - 1]), Search(g, [t]));
    }
  }

  lemma StartsListed(g: Graph, order: seq<Tool>, c: Chain, e: Chain, i: nat, j: nat)
    requires i < j < |order| && Distinct(order) && c != [] && c[0] == order[i] && Extends(g, [order[j]], e)
    ensures ListedBefore(g, order, c, e)
  {
    hide Connected;
    assert e[0] == e[..1][0] == order[j];
    assert c[..0] == e[..0];
    assert DiffersAt(c, e, 0);
  }

  /** The whole search in that order. */
  lemma SearchOrderExactly(g: Graph, order: seq<Tool>)
    requires DuplicateFree(g) && Distinct(order)
    ensures forall i, j :: 0 <= i < j < |SearchAll(g, order)| ==>
              ListedBefore(g, order, SearchAll(g, order)[i], SearchAll(g, order)[j])
  {
    hide SearchAll, ListedBefore, DuplicateFree;
    SearchAllListed(g, order, |order|);
    assert order[..|order|] == order;
  }

  // ---------------------------------------------------------------- what gets into the catalog

  /** Two to five tools, no one twice, from a listed start, each with an edge of the graph to the next. */
  ghost predicate IsPath(g: Graph, order: seq<Tool>, c: Chain) {
    && 2 <= |c| <= 5 && c[0] in order
    && (forall i, j :: 0 <= i < j < |c| ==> c[i] != c[j])
    && forall i :: 0 <= i < |c| - 1 ==> Edge(g, c[i], c[i + 1], Explicit) || Edge(g, c[i], c[i + 1], Implicit)
  }

  lemma PathExactly(g: Graph, order: seq<Tool>, c: Chain)
    ensures IsChain(g, order, c) <==> IsPath(g, order, c)
  {
    forall s, t ensures t in Neighbors(g, s) <==> Edge(g, s, t, Explicit) || Edge(g, s, t, Implicit) {
      if s in g { assert t in g[s].explicit + g[s].implicit <==> t in g[s].explicit || t in g[s].implicit; }
    }
  }

  /** No rule is violated, and none is of an unknown kind with a target in the chain. */
  ghost predicate Permitted(rules: seq<Rule>, c: Chain) {
    forall i :: 0 <= i < |rules| ==>
      !Violates(rules[i], c) && !(rules[i].kind.UnknownKind? && exists k :: 0 <= k < |c| && c[k] in rules[i].targets)
  }

  lemma PermittedExactly(rules: seq<Rule>, c: Chain)
    ensures ChainContractIssue(rules, c) == NoIssue <==> Permitted(rules, c)
  {
    hide ChainContractIssue, RuleFinding, Violates;
    FirstFindingExactly(rules, c);
    forall i | 0 <= i < |rules|
      ensures RuleFinding(rules[i], c) == NoIssue <==>
              !Violates(rules[i], c) &&
              !(rules[i].kind.UnknownKind? && exists k :: 0 <= k < |c| && c[k] in rules[i].targets)
    {
      RuleExactly(rules[i], c);
    }
  }

  /** A chain is in the catalog exactly when it is a path that the rules permit and, unless the paper baseline is in
      use, all its tools have contracts, it is coherent, and no step of its simulation has an issue. */
  lemma CatalogExactly(g: Graph, order: seq<Tool>, rules: seq<Rule>, d: Contracts.Domain, baseline: bool,
                       coherent: Chain -> bool, c: Chain)
    ensures c in FirstKept(SearchAll(g, order), CatalogGate(rules, d, baseline, coherent)) <==>
            && IsPath(g, order, c) && Permitted(rules, c)
            && (baseline || ((forall t :: t in c ==> t in d.contracts) && coherent(c) &&
                             Simulator.Feasible(d, Simulator.ContractsOf(d, c))))
  {
    hide SearchAll, FirstKept, IsChain, ChainContractIssue, Permitted, Simulator.Feasible, Simulator.ContractsOf;
    ExtractionExactly(g, order, CatalogGate(rules, d, baseline, coherent), c);
    PathExactly(g, order, c);
    PermittedExactly(rules, c);
  }

  /** A chain is dropped for a broken rule first, then for incoherence, then for a contradiction; and it raises for a
      rule of unknown kind, or a tool without a contract. */
  lemma DroppedExactly(rules: seq<Rule>, d: Contracts.Domain, baseline: bool, coherent: Chain -> bool, c: Chain)
    ensures var gate, found := CatalogGate(rules, d, baseline, coherent)(c), ChainContractIssue(rules, c);
            && (found.Broken? ==> gate == Drop(RuleBroken(found.code)))
            && (gate == Fail <==>
                  found.BadRule? || (Permitted(rules, c) && !baseline && exists t :: t in c && t !in d.contracts))
            && (gate == Drop(Incoherent) <==>
                  Permitted(rules, c) && !baseline && (forall t :: t in c ==> t in d.contracts) && !coherent(c))
            && (gate == Drop(Contradiction) <==>
                  Permitted(rules, c) && !baseline && (forall t :: t in c ==> t in d.contracts) && coherent(c) &&
                  !Simulator.Feasible(d, Simulator.ContractsOf(d, c)))
  {
    hide ChainContractIssue, Permitted, Simulator.Feasible, Simulator.ContractsOf;
    PermittedExactly(rules, c);
  }

  function DroppedAt(chains: seq<Chain>, gate: Chain -> Gate, reason: Reason): set<nat> {
    set i: nat | i < |chains| && gate(chains[i]) == Drop(reason)
  }

  /** The count of a reason is the number of chains found that were dropped for it. */
  lemma {:induction false} DropsExactly(chains: seq<Chain>, gate: Chain -> Gate, reason: Reason)
    ensures Drops(chains, gate, reason) == |DroppedAt(chains, gate, reason)|
  {
    if chains != [] {
      var k := |chains| - 1;
      DropsExactly(chains[..k], gate, reason);
      assert DroppedAt(chains, gate, reason)
             == DroppedAt(chains[..k], gate, reason) + if gate(chains[k]) == Drop(reason) then {k} else {};
    }
  }
}
