/**
 The pair-classification ledger and the dependency graph projected from it: validation of a
 ledger read from JSON, normalization of a graph read from JSON, and the two conversions
 between them (src/live_mcp/dependency_cache_contract.py and
 src/live_mcp/dependency_relation_audit.py).
 */
module Ledger {
  import opened Common

  datatype Relation = Explicit | Implicit | NoRelation

  /** One classified unordered pair. An absent source or target is the empty string. */
  datatype Entry = Entry(pair: Pair, source: Option<Tool>, target: Option<Tool>, relation: Relation)

  datatype Edges = Edges(explicit: seq<Tool>, implicit: seq<Tool>)
  type Graph = map<Tool, Edges>

  /** An edge group of a graph as decoded from JSON; a missing group is not a list either. */
  datatype Item = Name(tool: Tool) | NotAName(id: nat)
  datatype RawTargets = NotAList | Targets(items: seq<Item>)
  datatype RawEdges = NotADict | Groups(explicit: RawTargets, implicit: RawTargets)
  datatype RawGraph = NotAGraph | Dict(nodes: map<Tool, RawEdges>)

  /** A ledger row as decoded from JSON, after whitespace and case folding of its text. */
  datatype RawPair = BadPair | PairOf(first: Tool, second: Tool)
  datatype RawRelation = Known(relation: Relation) | UnknownRelation
  datatype RawEntry =
    | NotAnEntry
    | RawEntry(pair: RawPair, source: Option<Tool>, target: Option<Tool>, relation: RawRelation)
  datatype RawLedger = NotALedger | Rows(rows: seq<RawEntry>)

  // ---------------------------------------------------------------- expected pairs

  /** The pairs (names[i], names[j]) with i < j of the sorted name list. */
  function ExpectedPairs(names: seq<Tool>): set<Pair> {
    set a, b | a in names && b in names && (a < b || (a == b && multiset(names)[a] >= 2)) :: (a, b)
  }

  /** A pair is expected exactly when it is in order and its tools stand at two places of the list. */
  lemma ExpectedPairsExactly(names: seq<Tool>, p: Pair)
    ensures p in ExpectedPairs(names) <==>
              p.0 <= p.1 && exists i, j :: 0 <= i < |names| && 0 <= j < |names| && i != j && names[i] == p.0 &&
                                           names[j] == p.1
  {
    if p.0 in names && p.1 in names && p.0 != p.1 {
      var i :| 0 <= i < |names| && names[i] == p.0;
      var j :| 0 <= j < |names| && names[j] == p.1;
      assert i != j;
    }
    if p.0 == p.1 { TwiceListed(names, p.0); }
  }

  lemma {:induction false} TwiceListed(names: seq<Tool>, t: Tool)
    ensures multiset(names)[t] >= 2 <==>
              exists i, j :: 0 <= i < |names| && 0 <= j < |names| && i != j && names[i] == t && names[j] == t
    ensures multiset(names)[t] >= 1 <==> t in names
  {
    if names != [] {
      var k := |names| - 1;
      assert names == names[..k] + [names[k]];
      TwiceListed(names[..k], t);
      if multiset(names)[t] >= 2 {
        if multiset(names[..k])[t] >= 2 {
          var i, j :| 0 <= i < k && 0 <= j < k && i != j && names[..k][i] == t && names[..k][j] == t;
          assert names[i] == t && names[j] == t;
        } else {
          var i :| 0 <= i < k && names[..k][i] == t;
          assert names[i] == t && names[k] == t;
        }
      }
      if i, j :| 0 <= i < |names| && 0 <= j < |names| && i != j && names[i] == t && names[j] == t {
        if i < k && j < k {
          assert names[..k][i] == t && names[..k][j] == t;
        } else {
          var m := if i < k then i else j;
          assert names[..k][m] == t;
        }
      }
    }
  }

  // ---------------------------------------------------------------- graphs

  function Group(e: RawEdges, rel: Relation): seq<Item> {
    if e.NotADict? then []
    else if rel == Explicit && e.explicit.Targets? then e.explicit.items
    else if rel == Implicit && e.implicit.Targets? then e.implicit.items
    else []
  }

  function NodeEdges(g: RawGraph, s: Tool): RawEdges {
    if g.Dict? && s in g.nodes then g.nodes[s] else NotADict
  }

  /** The targets normalization keeps: names of the tool list other than the source itself. */
  predicate Keeps(items: seq<Item>, s: Tool, names: seq<Tool>, t: Tool) {
    t in names && t != s && Name(t) in items
  }

  function Kept(items: seq<Item>, s: Tool, names: seq<Tool>): set<Tool> {
    set t | t in names && Keeps(items, s, names, t)
  }

  function NormalNode(e: RawEdges, s: Tool, names: seq<Tool>): Edges {
    var explicit := Kept(Group(e, Explicit), s, names);
    var implicit := Kept(Group(e, Implicit), s, names);
    Edges(SortedTools(explicit), SortedTools(implicit - explicit))
  }

  function Normalize(g: RawGraph, names: seq<Tool>): Graph {
    map s | s in names :: NormalNode(NodeEdges(g, s), s, names)
  }

  predicate Edge(g: Graph, s: Tool, t: Tool, rel: Relation) {
    s in g && ((rel == Explicit && t in g[s].explicit) || (rel == Implicit && t in g[s].implicit))
  }

  /** What every normalized graph looks like; such a graph is determined by its edges. */
  ghost predicate CanonicalNode(e: Edges, s: Tool, names: seq<Tool>) {
    && Ascending(e.explicit) && Ascending(e.implicit)
    && (forall t :: t in e.explicit ==> t in names && t != s && t !in e.implicit)
    && (forall t :: t in e.implicit ==> t in names && t != s)
  }

  ghost predicate Canonical(g: Graph, names: seq<Tool>) {
    && g.Keys == Elems(names)
    && forall s :: s in g ==> CanonicalNode(g[s], s, names)
  }

  lemma NormalizeCanonical(g: RawGraph, names: seq<Tool>)
    ensures Canonical(Normalize(g, names), names)
  {
    var n := Normalize(g, names);
    forall s | s in n ensures CanonicalNode(n[s], s, names) {
      var explicit := Kept(Group(NodeEdges(g, s), Explicit), s, names);
      var implicit := Kept(Group(NodeEdges(g, s), Implicit), s, names);
      assert forall t :: t in n[s].explicit <==> t in Elems(n[s].explicit);
      assert forall t :: t in n[s].implicit <==> t in Elems(n[s].implicit);
    }
  }

  /** Explicit wins over implicit, and only listed names other than the source survive. */
  lemma NormalizeEdges(g: RawGraph, names: seq<Tool>, s: Tool, t: Tool)
    ensures Edge(Normalize(g, names), s, t, Explicit) <==>
            s in names && Keeps(Group(NodeEdges(g, s), Explicit), s, names, t)
    ensures Edge(Normalize(g, names), s, t, Implicit) <==>
            s in names && Keeps(Group(NodeEdges(g, s), Implicit), s, names, t)
                       && !Keeps(Group(NodeEdges(g, s), Explicit), s, names, t)
  {
    if s in names {
      var e := Normalize(g, names)[s];
      assert t in e.explicit <==> t in Elems(e.explicit);
      assert t in e.implicit <==> t in Elems(e.implicit);
    }
  }

  ghost predicate SameEdges(g: Graph, h: Graph) {
    && (forall s, t :: Edge(g, s, t, Explicit) <==> Edge(h, s, t, Explicit))
    && (forall s, t :: Edge(g, s, t, Implicit) <==> Edge(h, s, t, Implicit))
  }

  lemma CanonicalUnique(g: Graph, h: Graph, names: seq<Tool>)
    requires Canonical(g, names) && Canonical(h, names) && SameEdges(g, h)
    ensures g == h
  {
    forall s | s in g ensures g[s] == h[s] {
      assert s in h;
      forall t ensures t in g[s].explicit <==> t in h[s].explicit {
        assert Edge(g, s, t, Explicit) <==> Edge(h, s, t, Explicit);
      }
      forall t ensures t in g[s].implicit <==> t in h[s].implicit {
        assert Edge(g, s, t, Implicit) <==> Edge(h, s, t, Implicit);
      }
      AscendingUnique(g[s].explicit, h[s].explicit);
      AscendingUnique(g[s].implicit, h[s].implicit);
    }
  }

  /** A graph value written to JSON. */
  function AsItems(s: seq<Tool>): seq<Item> {
    seq(|s|, i requires 0 <= i < |s| => Name(s[i]))
  }

  function AsRaw(g: Graph): RawGraph {
    Dict(map s | s in g :: Groups(Targets(AsItems(g[s].explicit)), Targets(AsItems(g[s].implicit))))
  }

  lemma AsItemsHas(s: seq<Tool>, t: Tool)
    ensures Name(t) in AsItems(s) <==> t in s
  {
    if t in s {
      var i :| 0 <= i < |s| && s[i] == t;
      assert AsItems(s)[i] == Name(t);
    }
  }

  lemma RawNode(g: Graph, s: Tool)
    requires s in g
    ensures Group(NodeEdges(AsRaw(g), s), Explicit) == AsItems(g[s].explicit)
    ensures Group(NodeEdges(AsRaw(g), s), Implicit) == AsItems(g[s].implicit)
  {
    assert NodeEdges(AsRaw(g), s) == Groups(Targets(AsItems(g[s].explicit)), Targets(AsItems(g[s].implicit)));
  }

  lemma CanonicalEdges(g: Graph, names: seq<Tool>, s: Tool, t: Tool)
    requires Canonical(g, names)
    ensures Edge(Normalize(AsRaw(g), names), s, t, Explicit) <==> Edge(g, s, t, Explicit)
    ensures Edge(Normalize(AsRaw(g), names), s, t, Implicit) <==> Edge(g, s, t, Implicit)
  {
    assert s in names <==> s in Elems(names);
    NormalizeEdges(AsRaw(g), names, s, t);
    if s in g {
      assert CanonicalNode(g[s], s, names);
      RawNode(g, s);
      AsItemsHas(g[s].explicit, t);
      AsItemsHas(g[s].implicit, t);
    }
  }

  /** Normalizing a normalized graph changes nothing. */
  lemma NormalizeIdempotent(g: Graph, names: seq<Tool>)
    requires Canonical(g, names)
    ensures Normalize(AsRaw(g), names) == g
  {
    NormalizeCanonical(AsRaw(g), names);
    forall s, t
      ensures Edge(Normalize(AsRaw(g), names), s, t, Explicit) <==> Edge(g, s, t, Explicit)
      ensures Edge(Normalize(AsRaw(g), names), s, t, Implicit) <==> Edge(g, s, t, Implicit)
    {
      CanonicalEdges(g, names, s, t);
    }
    CanonicalUnique(Normalize(AsRaw(g), names), g, names);
  }

  // ---------------------------------------------------------------- graph validity

  predicate ValidGroup(t: RawTargets, s: Tool, names: seq<Tool>) {
    && t.Targets?
    && Distinct(t.items)
    && (forall item :: item in t.items ==> item.Name? && item.tool in names)
    && Name(s) !in t.items
  }

  predicate ValidNode(e: RawEdges, s: Tool, names: seq<Tool>) {
    && e.Groups?
    && ValidGroup(e.explicit, s, names) && ValidGroup(e.implicit, s, names)
    && Elems(e.explicit.items) !! Elems(e.implicit.items)
  }

  /** `_valid_cached_graph(graph, expected_tool_names)`. */
  predicate ValidGraph(g: RawGraph, names: seq<Tool>) {
    && g.Dict? && g.nodes != map[]
    && Distinct(names)
    && g.nodes.Keys == Elems(names)
    && forall s :: s in g.nodes ==> ValidNode(g.nodes[s], s, names)
  }

  lemma CanonicalNodeValid(e: Edges, s: Tool, names: seq<Tool>)
    requires CanonicalNode(e, s, names)
    ensures ValidNode(Groups(Targets(AsItems(e.explicit)), Targets(AsItems(e.implicit))), s, names)
  {
    AsItemsHas(e.explicit, s);
    AsItemsHas(e.implicit, s);
    forall item ensures item !in AsItems(e.explicit) || item !in AsItems(e.implicit) {
      if item.Name? {
        AsItemsHas(e.explicit, item.tool);
        AsItemsHas(e.implicit, item.tool);
      }
    }
  }

  /** Normalization always yields a valid graph, provided the tool list is one at all. */
  lemma NormalizedIsValid(g: RawGraph, names: seq<Tool>)
    ensures ValidGraph(AsRaw(Normalize(g, names)), names) <==> names != [] && Distinct(names)
  {
    var n := Normalize(g, names);
    NormalizeCanonical(g, names);
    hide Normalize, ValidNode, CanonicalNode;
    forall s | s in n ensures ValidNode(AsRaw(n).nodes[s], s, names) {
      CanonicalNodeValid(n[s], s, names);
    }
    assert AsRaw(n).nodes.Keys == Elems(names);
    if names != [] {
      assert names[0] in AsRaw(n).nodes;
    } else {
      assert AsRaw(n).nodes == map[];
    }
  }

  /** A valid graph loses nothing to normalization but the order of its targets. */
  lemma NormalizeKeepsValidEdges(g: RawGraph, names: seq<Tool>, s: Tool, t: Tool, rel: Relation)
    requires ValidGraph(g, names) && rel != NoRelation
    ensures Edge(Normalize(g, names), s, t, rel) <==> s in names && Name(t) in Group(NodeEdges(g, s), rel)
  {
    NormalizeEdges(g, names, s, t);
    if s in names {
      assert s in Elems(names);
      assert ValidNode(g.nodes[s], s, names);
      var e := g.nodes[s];
      assert Name(t) in e.explicit.items ==> Name(t) in Elems(e.explicit.items);
      assert Name(t) in e.implicit.items ==> Name(t) in Elems(e.implicit.items);
    }
  }

  /** The group is what normalization made of it, in some order. */
  ghost predicate Reordered(t: RawTargets, sorted: seq<Tool>) {
    t.Targets? && multiset(t.items) == multiset(AsItems(sorted))
  }

  lemma {:induction false} ReorderedExactly(t: RawTargets, sorted: seq<Tool>)
    requires t.Targets? && Ascending(sorted)
    ensures Reordered(t, sorted) <==> Distinct(t.items) && forall item :: item in t.items <==> item in AsItems(sorted)
  {
    var items := AsItems(sorted);
    forall i, j | 0 <= i < j < |items| ensures items[i] != items[j] { assert sorted[i] < sorted[j]; }
    NoRepeat(items);
    if Reordered(t, sorted) {
      RepeatFree(t.items);
      forall item ensures item in t.items <==> item in items {
        assert item in multiset(t.items) <==> item in multiset(items);
      }
    }
    if Distinct(t.items) && forall item :: item in t.items <==> item in items {
      NoRepeat(t.items);
      forall item ensures multiset(t.items)[item] == multiset(items)[item] {
        assert multiset(t.items)[item] == if item in t.items then 1 else 0;
        assert multiset(items)[item] == if item in items then 1 else 0;
      }
    }
  }

  lemma RepeatFree<T>(s: seq<T>)
    requires forall x :: multiset(s)[x] <= 1
    ensures Distinct(s)
  {
    forall i, j | 0 <= i < j < |s| ensures s[i] != s[j] {
      assert s == s[..i] + [s[i]] + s[i + 1..j] + [s[j]] + s[j + 1..];
      assert multiset(s)[s[i]] >= multiset([s[i]])[s[i]] + multiset([s[j]])[s[i]];
    }
  }

  /** A graph is valid exactly when its keys are the names of a non-empty repeat-free list and normalization does no
      more than reorder each group. */
  lemma ValidExactly(g: RawGraph, names: seq<Tool>)
    ensures ValidGraph(g, names) <==>
            && names != [] && Distinct(names) && g.Dict? && g.nodes.Keys == Elems(names)
            && forall s :: s in g.nodes ==>
                 && s in Normalize(g, names) && g.nodes[s].Groups?
                 && Reordered(g.nodes[s].explicit, Normalize(g, names)[s].explicit)
                 && Reordered(g.nodes[s].implicit, Normalize(g, names)[s].implicit)
  {
    hide Normalize, ValidNode, Reordered;
    NormalizeCanonical(g, names);
    if g.Dict? && g.nodes.Keys == Elems(names) {
      if names != [] { assert names[0] in g.nodes; } else { assert g.nodes == map[]; }
      forall s | s in g.nodes
        ensures s in Normalize(g, names)
        ensures ValidNode(g.nodes[s], s, names) <==>
                && g.nodes[s].Groups? && Reordered(g.nodes[s].explicit, Normalize(g, names)[s].explicit)
                && Reordered(g.nodes[s].implicit, Normalize(g, names)[s].implicit)
      {
        ValidNodeExactly(g, s, names);
      }
    }
  }

  lemma ValidNodeExactly(g: RawGraph, s: Tool, names: seq<Tool>)
    requires g.Dict? && g.nodes.Keys == Elems(names) && s in g.nodes
    ensures s in Normalize(g, names)
    ensures ValidNode(g.nodes[s], s, names) <==>
            && g.nodes[s].Groups? && Reordered(g.nodes[s].explicit, Normalize(g, names)[s].explicit)
            && Reordered(g.nodes[s].implicit, Normalize(g, names)[s].implicit)
  {
    hide Reordered, Normalize;
    assert s in names by { assert s in Elems(names); }
    NormalizeCanonical(g, names);
    var e, n := g.nodes[s], Normalize(g, names)[s];
    if e.Groups? && e.explicit.Targets? && e.implicit.Targets? {
      ReorderedExactly(e.explicit, n.explicit);
      ReorderedExactly(e.implicit, n.implicit);
      forall t ensures t in n.explicit <==> Keeps(e.explicit.items, s, names, t)
        ensures t in n.implicit <==> Keeps(e.implicit.items, s, names, t) && !Keeps(e.explicit.items, s, names, t)
      {
        NormalizeEdges(g, names, s, t);
        assert Edge(Normalize(g, names), s, t, Explicit) <==> t in n.explicit;
        assert Edge(Normalize(g, names), s, t, Implicit) <==> t in n.implicit;
      }
      forall t
        ensures Name(t) in AsItems(n.explicit) <==> t in n.explicit
        ensures Name(t) in AsItems(n.implicit) <==> t in n.implicit
      {
        AsItemsHas(n.explicit, t);
        AsItemsHas(n.implicit, t);
      }
      KeptNodeExactly(e, n, s, names);
    } else if e.Groups? {
      NotReordered(e, n);
    }
  }

  lemma NotReordered(e: RawEdges, n: Edges)
    requires e.Groups? && !(e.explicit.Targets? && e.implicit.Targets?)
    ensures !(Reordered(e.explicit, n.explicit) && Reordered(e.implicit, n.implicit))
  {
  }

  lemma KeptNodeExactly(e: RawEdges, n: Edges, s: Tool, names: seq<Tool>)
    requires e.Groups? && e.explicit.Targets? && e.implicit.Targets?
    requires forall t :: t in n.explicit <==> Keeps(e.explicit.items, s, names, t)
    requires forall t :: t in n.implicit <==>
               Keeps(e.implicit.items, s, names, t) && !Keeps(e.explicit.items, s, names, t)
    requires forall t :: Name(t) in AsItems(n.explicit) <==> t in n.explicit
    requires forall t :: Name(t) in AsItems(n.implicit) <==> t in n.implicit
    ensures ValidNode(e, s, names) <==>
            && Distinct(e.explicit.items) && (forall item :: item in e.explicit.items <==> item in AsItems(n.explicit))
            && Distinct(e.implicit.items) && (forall item :: item in e.implicit.items <==> item in AsItems(n.implicit))
  {
    hide Distinct;
    if ValidNode(e, s, names) {
      forall item | item in e.implicit.items ensures item !in e.explicit.items {
        assert item in Elems(e.implicit.items);
      }
    } else if (forall item :: item in e.explicit.items <==> item in AsItems(n.explicit)) &&
      (forall item :: item in e.implicit.items <==> item in AsItems(n.implicit)) {
      forall item | item in Elems(e.implicit.items) ensures item !in Elems(e.explicit.items) {
        assert item in e.implicit.items && item.Name? && item.tool in n.implicit;
      }
    }
  }

  // ---------------------------------------------------------------- the ledger

  function Pairs(l: seq<Entry>): seq<Pair> {
    seq(|l|, i requires 0 <= i < |l| => l[i].pair)
  }

  /** A row directs its pair one way or not at all. */
  predicate EntryOk(e: Entry) {
    if e.relation == NoRelation then e.source == None && e.target == None
    else e.source.Some? && e.target.Some? && e.source != e.target &&
         {e.source.value, e.target.value} == {e.pair.0, e.pair.1}
  }

  predicate EntriesOk(l: seq<Entry>) {
    forall e :: e in l ==> EntryOk(e)
  }

  /** The canonical complete ledger of a tool list: every pair once, in pair order. */
  predicate ValidLedger(l: seq<Entry>, names: seq<Tool>) {
    PairsAscending(Pairs(l)) && Elems(Pairs(l)) == ExpectedPairs(names) && EntriesOk(l)
  }

  function SortPair(a: Tool, b: Tool): Pair {
    if a <= b then (a, b) else (b, a)
  }

  /** One row of the validator's loop, before the check for a repeated pair. */
  function DecodeRow(row: RawEntry, expected: set<Pair>): Option<Entry> {
    if row.NotAnEntry? || row.pair.BadPair? then None
    else
      var pair := SortPair(row.pair.first, row.pair.second);
      if pair !in expected || row.relation.UnknownRelation? then None
      else
        var e := Entry(pair, row.source, row.target, row.relation.relation);
        if e.relation == NoRelation then if e.source.None? && e.target.None? then Some(e) else None
        else if e.source.None? || e.target.None? || e.source == e.target
                || {e.source.value, e.target.value} != {pair.0, pair.1} then None
        else Some(e)
  }

  /** The `seen` dictionary after some rows, or None once the validator has returned. */
  function Seen(rows: seq<RawEntry>, expected: set<Pair>): (r: Option<map<Pair, Entry>>) {
    if rows == [] then Some(map[])
    else
      var row := DecodeRow(rows[|rows| - 1], expected);
      match Seen(rows[..|rows| - 1], expected)
      case None => None
      case Some(seen) => if row.None? || row.value.pair in seen then None else Some(seen[row.value.pair := row.value])
  }

  function Listing(seen: map<Pair, Entry>): seq<Entry> {
    var ps := SortedPairs(seen.Keys);
    seq(|ps|, i requires 0 <= i < |ps| => (assert ps[i] in Elems(ps); seen[ps[i]]))
  }

  function ValidateLedger(raw: RawLedger, names: seq<Tool>): Option<seq<Entry>> {
    if raw.NotALedger? then None
    else match Seen(raw.rows, ExpectedPairs(names))
         case None => None
         case Some(seen) => if seen.Keys == ExpectedPairs(names) then Some(Listing(seen)) else None
  }

  /** `_validate_pair_classifications`. */
  method ValidatePairClassifications(raw: RawLedger, names: seq<Tool>) returns (ledger: Option<seq<Entry>>)
    ensures ledger == ValidateLedger(raw, names)
  {
    if raw.NotALedger? { return None; }
    var expected := ExpectedPairs(names);
    var seen: map<Pair, Entry> := map[];
    for i := 0 to |raw.rows|
      invariant Seen(raw.rows[..i], expected) == Some(seen)
    {
      assert raw.rows[..i + 1][..i] == raw.rows[..i];
      var row := DecodeRow(raw.rows[i], expected);
      if row.None? || row.value.pair in seen {
        SeenFails(raw.rows, i + 1, expected);
        return None;
      }
      seen := seen[row.value.pair := row.value];
    }
    assert raw.rows[..|raw.rows|] == raw.rows;
    if seen.Keys != expected { return None; }
    return Some(Listing(seen));
  }

  lemma {:induction false} SeenFails(rows: seq<RawEntry>, i: nat, expected: set<Pair>)
    requires i <= |rows| && Seen(rows[..i], expected).None?
    ensures Seen(rows, expected).None?
  {
    if i == |rows| {
      assert rows[..i] == rows;
    } else {
      assert rows[..|rows| - 1][..i] == rows[..i];
      SeenFails(rows[..|rows| - 1], i, expected);
    }
  }

  /** What the rows must satisfy: each decodes, and no pair is named twice. */
  ghost predicate RowsDecode(rows: seq<RawEntry>, expected: set<Pair>) {
    && (forall i :: 0 <= i < |rows| ==> DecodeRow(rows[i], expected).Some?)
    && (forall i, j :: 0 <= i < j < |rows| ==>
          DecodeRow(rows[i], expected).value.pair != DecodeRow(rows[j], expected).value.pair)
  }

  ghost predicate Recorded(seen: map<Pair, Entry>, row: Option<Entry>) {
    row.Some? && row.value.pair in seen && seen[row.value.pair] == row.value
  }

  ghost predicate SeenIs(rows: seq<RawEntry>, expected: set<Pair>, seen: map<Pair, Entry>) {
    && (forall p :: p in seen ==> seen[p].pair == p && p in expected && EntryOk(seen[p]))
    && (forall p :: p in seen ==> exists i :: 0 <= i < |rows| && DecodeRow(rows[i], expected) == Some(seen[p]))
    && (forall i :: 0 <= i < |rows| ==> Recorded(seen, DecodeRow(rows[i], expected)))
  }

  lemma {:induction false} SeenExactly(rows: seq<RawEntry>, expected: set<Pair>)
    ensures Seen(rows, expected).Some? <==> RowsDecode(rows, expected)
    ensures Seen(rows, expected).Some? ==> SeenIs(rows, expected, Seen(rows, expected).value)
  {
    if rows != [] {
      var k := |rows| - 1;
      SeenExactly(rows[..k], expected);
      assert rows == rows[..k] + [rows[k]];
      RowsDecodeStep(rows, expected);
      var last := DecodeRow(rows[k], expected);
      if Seen(rows[..k], expected).Some? && last.Some? {
        var before := Seen(rows[..k], expected).value;
        hide RowsDecode, DecodeRow;
        SeenRepeats(rows[..k], expected, before, last.value.pair);
        if last.value.pair !in before {
          SeenGrows(rows[..k], rows[k], expected, before);
        }
      }
    }
  }

  lemma RowsDecodeStep(rows: seq<RawEntry>, expected: set<Pair>)
    requires rows != []
    ensures RowsDecode(rows, expected) <==>
            && RowsDecode(rows[..|rows| - 1], expected)
            && DecodeRow(rows[|rows| - 1], expected).Some?
            && forall i :: 0 <= i < |rows| - 1 ==>
                 DecodeRow(rows[i], expected).value.pair != DecodeRow(rows[|rows| - 1], expected).value.pair
  {
    hide DecodeRow;
    var init := rows[..|rows| - 1];
    assert forall i | 0 <= i < |init| :: rows[i] == init[i];
  }

  lemma SeenRepeats(init: seq<RawEntry>, expected: set<Pair>, before: map<Pair, Entry>, p: Pair)
    requires SeenIs(init, expected, before)
    ensures p in before <==> exists i :: 0 <= i < |init| && DecodeRow(init[i], expected).value.pair == p
  {
    hide DecodeRow;
    if p in before {
      var i :| 0 <= i < |init| && DecodeRow(init[i], expected) == Some(before[p]);
    }
  }

  lemma SeenGrows(init: seq<RawEntry>, row: RawEntry, expected: set<Pair>, before: map<Pair, Entry>)
    requires SeenIs(init, expected, before)
    requires DecodeRow(row, expected).Some? && DecodeRow(row, expected).value.pair !in before
    ensures SeenIs(init + [row], expected,
                   before[DecodeRow(row, expected).value.pair := DecodeRow(row, expected).value])
  {
    var rows := init + [row];
    var e := DecodeRow(row, expected).value;
    var seen := before[e.pair := e];
    forall p | p in seen
      ensures exists i :: 0 <= i < |rows| && DecodeRow(rows[i], expected) == Some(seen[p])
    {
      if p == e.pair {
        assert DecodeRow(rows[|init|], expected) == Some(seen[p]);
      } else {
        var i :| 0 <= i < |init| && DecodeRow(init[i], expected) == Some(before[p]);
        assert DecodeRow(rows[i], expected) == Some(seen[p]);
      }
    }
  }

  lemma ListingIs(seen: map<Pair, Entry>)
    requires forall p :: p in seen ==> seen[p].pair == p
    ensures Pairs(Listing(seen)) == SortedPairs(seen.Keys)
    ensures forall e :: e in Listing(seen) <==> e.pair in seen && seen[e.pair] == e
  {
    var ps := SortedPairs(seen.Keys);
    var l := Listing(seen);
    assert forall i | 0 <= i < |ps| :: ps[i] in Elems(ps) && l[i] == seen[ps[i]];
    forall e: Entry | e.pair in seen && seen[e.pair] == e ensures e in l {
      assert e.pair in Elems(ps);
      var i :| 0 <= i < |ps| && ps[i] == e.pair;
      assert l[i] == e;
    }
  }

  /** Acceptance: the rows decode, no pair repeats, every expected pair is there. What comes
      back is the canonical ledger of exactly the decoded rows. */
  lemma ValidateExactly(raw: RawLedger, names: seq<Tool>)
    ensures ValidateLedger(raw, names).Some? <==>
            && raw.Rows? && RowsDecode(raw.rows, ExpectedPairs(names))
            && forall p :: p in ExpectedPairs(names) ==>
                 exists i :: 0 <= i < |raw.rows| && DecodeRow(raw.rows[i], ExpectedPairs(names)).value.pair == p
    ensures ValidateLedger(raw, names).Some? ==>
            && ValidLedger(ValidateLedger(raw, names).value, names)
            && forall e :: e in ValidateLedger(raw, names).value <==>
                 exists i :: 0 <= i < |raw.rows| && DecodeRow(raw.rows[i], ExpectedPairs(names)) == Some(e)
  {
    hide DecodeRow, EntryOk, Seen, Listing, ExpectedPairs;
    if raw.Rows? {
      var expected := ExpectedPairs(names);
      SeenExactly(raw.rows, expected);
      if RowsDecode(raw.rows, expected) {
        var seen := Seen(raw.rows, expected).value;
        ListingIs(seen);
        SeenCovers(raw.rows, expected, seen);
        SeenRows(raw.rows, expected, seen);
      }
    }
  }

  lemma SeenRows(rows: seq<RawEntry>, expected: set<Pair>, seen: map<Pair, Entry>)
    requires SeenIs(rows, expected, seen)
    ensures forall e: Entry :: e.pair in seen && seen[e.pair] == e <==>
              exists i :: 0 <= i < |rows| && DecodeRow(rows[i], expected) == Some(e)
  {
    hide DecodeRow, EntryOk;
  }

  lemma SeenCovers(rows: seq<RawEntry>, expected: set<Pair>, seen: map<Pair, Entry>)
    requires RowsDecode(rows, expected) && SeenIs(rows, expected, seen)
    ensures seen.Keys == expected <==>
            forall p :: p in expected ==>
              exists i :: 0 <= i < |rows| && DecodeRow(rows[i], expected).value.pair == p
  {
    if forall p :: p in expected ==> exists i :: 0 <= i < |rows| && DecodeRow(rows[i], expected).value.pair == p {
      forall p | p in expected ensures p in seen {
        var i :| 0 <= i < |rows| && DecodeRow(rows[i], expected).value.pair == p;
      }
    }
  }

  /** A row decodes, to this entry, exactly when its pair, in either order, is an expected one, its relation is known,
      and its source and target are those two tools, or absent for a none row. */
  lemma DecodeRowExactly(row: RawEntry, names: seq<Tool>, e: Entry)
    ensures DecodeRow(row, ExpectedPairs(names)) == Some(e) <==>
            && row.RawEntry? && row.pair.PairOf? && row.relation == Known(e.relation)
            && row.source == e.source && row.target == e.target && e.pair in ExpectedPairs(names)
            && e.pair in {(row.pair.first, row.pair.second), (row.pair.second, row.pair.first)}
            && if e.relation == NoRelation then e.source == None && e.target == None
               else e.pair.0 != e.pair.1 && (e.source, e.target) in {(Some(e.pair.0), Some(e.pair.1)),
                                                                    (Some(e.pair.1), Some(e.pair.0))}
  {
    if e.pair in ExpectedPairs(names) { ExpectedSorted(names, e.pair); }
    if e.source.Some? && e.target.Some? {
      assert e.source.value in {e.source.value, e.target.value} && e.target.value in {e.source.value, e.target.value};
      assert e.pair.0 in {e.pair.0, e.pair.1} && e.pair.1 in {e.pair.0, e.pair.1};
    }
  }

  /** A ledger written to JSON. */
  function AsRows(l: seq<Entry>): RawLedger {
    Rows(seq(|l|, i requires 0 <= i < |l| =>
      RawEntry(PairOf(l[i].pair.0, l[i].pair.1), l[i].source, l[i].target, Known(l[i].relation))))
  }

  lemma ExpectedSorted(names: seq<Tool>, p: Pair)
    requires p in ExpectedPairs(names)
    ensures p.0 <= p.1 && p.0 in names && p.1 in names
  {
  }

  lemma OwnRowDecodes(e: Entry, expected: set<Pair>)
    requires EntryOk(e) && e.pair in expected && e.pair.0 <= e.pair.1
    ensures DecodeRow(RawEntry(PairOf(e.pair.0, e.pair.1), e.source, e.target, Known(e.relation)), expected) == Some(e)
  {
  }

  /** Two entry lists in pair order with the same entries are the same list. */
  lemma LedgerUnique(a: seq<Entry>, b: seq<Entry>)
    requires PairsAscending(Pairs(a)) && Pairs(a) == Pairs(b)
    requires forall i :: 0 <= i < |a| ==> a[i] in b
    ensures a == b
  {
    assert |a| == |Pairs(a)| == |b|;
    forall i | 0 <= i < |a| ensures a[i] == b[i] {
      var j :| 0 <= j < |b| && b[j] == a[i];
      assert Pairs(a)[i] == Pairs(b)[j] == Pairs(a)[j];
      assert i == j;
    }
  }

  /** Validation returns an already valid ledger unchanged. */
  lemma ValidateIdentity(l: seq<Entry>, names: seq<Tool>)
    requires ValidLedger(l, names)
    ensures ValidateLedger(AsRows(l), names) == Some(l)
  {
    var expected := ExpectedPairs(names);
    var rows := AsRows(l).rows;
    forall i | 0 <= i < |l| ensures DecodeRow(rows[i], expected) == Some(l[i]) {
      assert Pairs(l)[i] in Elems(Pairs(l));
      ExpectedSorted(names, l[i].pair);
      OwnRowDecodes(l[i], expected);
    }
    forall i, j | 0 <= i < j < |rows|
      ensures DecodeRow(rows[i], expected).value.pair != DecodeRow(rows[j], expected).value.pair
    {
      assert PairLess(Pairs(l)[i], Pairs(l)[j]);
    }
    forall p | p in expected
      ensures exists i :: 0 <= i < |rows| && DecodeRow(rows[i], expected).value.pair == p
    {
      assert p in Elems(Pairs(l));
      var i :| 0 <= i < |l| && Pairs(l)[i] == p;
      assert DecodeRow(rows[i], expected).value.pair == p;
    }
    ValidateExactly(AsRows(l), names);
    var out := ValidateLedger(AsRows(l), names).value;
    PairsAscendingUnique(Pairs(l), Pairs(out));
    forall i | 0 <= i < |l| ensures l[i] in out {
      assert DecodeRow(rows[i], expected) == Some(l[i]);
    }
    LedgerUnique(l, out);
  }

  // ---------------------------------------------------------------- ledger to graph

  /** Targets appended to graph[s][rel], in ledger order. */
  function TargetsOf(l: seq<Entry>, s: Tool, rel: Relation): seq<Tool> {
    if l == [] then []
    else
      var e := l[|l| - 1];
      TargetsOf(l[..|l| - 1], s, rel) +
      if e.relation == rel && e.source == Some(s) && e.target.Some? then [e.target.value] else []
  }

  function Appended(l: seq<Entry>, names: seq<Tool>): Graph {
    map s | s in names :: Edges(TargetsOf(l, s, Explicit), TargetsOf(l, s, Implicit))
  }

  function GraphFromLedger(l: seq<Entry>, names: seq<Tool>): Graph {
    Normalize(AsRaw(Appended(l, names)), names)
  }

  /** The conversion looks up each directed row's source in the graph it is building. */
  predicate SourcesListed(l: seq<Entry>, names: seq<Tool>) {
    EntriesOk(l) && forall e :: e in l && e.relation != NoRelation ==> e.source.value in names
  }

  /** `_graph_from_pair_classifications`. */
  method GraphFromPairClassifications(l: seq<Entry>, names: seq<Tool>) returns (graph: Graph)
    requires SourcesListed(l, names)
    ensures graph == GraphFromLedger(l, names)
  {
    graph := map s | s in names :: Edges([], []);
    for i := 0 to |l|
      invariant graph == Appended(l[..i], names)
    {
      AppendedStep(l[..i], l[i], names);
      assert l[i] in l && l[..i + 1] == l[..i] + [l[i]];
      if l[i].relation != NoRelation {
        var s := l[i].source.value;
        var e := graph[s];
        graph := graph[s :=
          if l[i].relation == Explicit then e.(explicit := e.explicit + [l[i].target.value])
          else e.(implicit := e.implicit + [l[i].target.value])];
      }
    }
    assert l[..|l|] == l;
    graph := NormalizeCachedGraph(AsRaw(graph), names);
  }

  lemma AppendedStep(l: seq<Entry>, e: Entry, names: seq<Tool>)
    requires EntryOk(e) && (e.relation != NoRelation ==> e.source.value in names)
    ensures Appended(l + [e], names) ==
            if e.relation == NoRelation then Appended(l, names)
            else
              var s := e.source.value;
              var before := Appended(l, names)[s];
              Appended(l, names)[s :=
                if e.relation == Explicit then before.(explicit := before.explicit + [e.target.value])
                else before.(implicit := before.implicit + [e.target.value])]
  {
    var k := l + [e];
    assert k[..|k| - 1] == l && k[|k| - 1] == e;
    forall s | s in names
      ensures Appended(k, names)[s] ==
              if e.relation == NoRelation || e.source != Some(s) then Appended(l, names)[s]
              else if e.relation == Explicit then
                Appended(l, names)[s].(explicit := TargetsOf(l, s, Explicit) + [e.target.value])
              else Appended(l, names)[s].(implicit := TargetsOf(l, s, Implicit) + [e.target.value])
    {
      assert TargetsOf(l, s, Explicit) + [] == TargetsOf(l, s, Explicit);
      assert TargetsOf(l, s, Implicit) + [] == TargetsOf(l, s, Implicit);
    }
    assert Appended(k, names).Keys == Appended(l, names).Keys;
    assert e.relation == NoRelation ==> Appended(k, names) == Appended(l, names);
  }

  /** `_normalize_cached_graph`. */
  method NormalizeCachedGraph(g: RawGraph, names: seq<Tool>) returns (n: Graph)
    ensures n == Normalize(g, names)
  {
    hide NormalNode;
    n := map[];
    for i := 0 to |names|
      invariant n.Keys == Elems(names[..i])
      invariant forall s :: s in n ==> n[s] == NormalNode(NodeEdges(g, s), s, names)
    {
      var node := NormalizeNode(NodeEdges(g, names[i]), names[i], names);
      n := n[names[i] := node];
      assert names[..i + 1] == names[..i] + [names[i]];
      AppendElems(names[..i], names[i]);
    }
    assert names[..|names|] == names;
    assert n.Keys == Normalize(g, names).Keys;
  }

  method NormalizeNode(e: RawEdges, s: Tool, names: seq<Tool>) returns (node: Edges)
    ensures node == NormalNode(e, s, names)
  {
    var explicit := DistinctTargets(Group(e, Explicit), s, names);
    var implicit := DistinctTargets(Group(e, Implicit), s, names);
    node := Edges(SortedTools(Elems(explicit)), SortedTools(Elems(implicit) - Elems(explicit)));
  }

  /** The inner loop: each acceptable target once, in first-occurrence order. */
  method DistinctTargets(items: seq<Item>, s: Tool, names: seq<Tool>) returns (targets: seq<Tool>)
    ensures Elems(targets) == Kept(items, s, names) && Distinct(targets)
  {
    targets := [];
    for i := 0 to |items|
      invariant Distinct(targets)
      invariant forall t :: t in targets <==> Keeps(items[..i], s, names, t)
    {
      assert items[..i + 1] == items[..i] + [items[i]];
      if items[i].Name? && items[i].tool in names && items[i].tool != s && items[i].tool !in targets {
        targets := targets + [items[i].tool];
      }
    }
    assert items[..|items|] == items;
  }

  predicate Directs(e: Entry, s: Tool, t: Tool, rel: Relation) {
    e.relation == rel && e.source == Some(s) && e.target == Some(t)
  }

  lemma {:induction false} TargetsOfHas(l: seq<Entry>, s: Tool, rel: Relation, t: Tool)
    ensures t in TargetsOf(l, s, rel) <==> exists e :: e in l && Directs(e, s, t, rel)
  {
    if l != [] {
      var k := |l| - 1;
      TargetsOfHas(l[..k], s, rel, t);
      assert l == l[..k] + [l[k]];
      if exists e :: e in l[..k] && Directs(e, s, t, rel) {
        var e :| e in l[..k] && Directs(e, s, t, rel);
        assert e in l;
      }
      if Directs(l[k], s, t, rel) { assert l[k] in l; }
    }
  }

  /** The edges of the graph are the directed rows, an explicit row winning over an implicit one. */
  lemma GraphEdges(l: seq<Entry>, names: seq<Tool>, s: Tool, t: Tool)
    requires s in names
    ensures Edge(GraphFromLedger(l, names), s, t, Explicit) <==>
            t in names && t != s && exists e :: e in l && Directs(e, s, t, Explicit)
    ensures Edge(GraphFromLedger(l, names), s, t, Implicit) <==>
            && t in names && t != s && (exists e :: e in l && Directs(e, s, t, Implicit))
            && !exists e :: e in l && Directs(e, s, t, Explicit)
  {
    hide Normalize, Edge;
    var a := Appended(l, names);
    NormalizeEdges(AsRaw(a), names, s, t);
    RawNode(a, s);
    AsItemsHas(a[s].explicit, t);
    AsItemsHas(a[s].implicit, t);
    TargetsOfHas(l, s, Explicit, t);
    TargetsOfHas(l, s, Implicit, t);
  }

  /** Rows over distinct pairs of listed tools: any part of a valid ledger. */
  ghost predicate PartialLedger(l: seq<Entry>, names: seq<Tool>) {
    && EntriesOk(l)
    && (forall e :: e in l ==> e.pair.0 in names && e.pair.1 in names && e.pair.0 <= e.pair.1)
    && (forall e, f :: e in l && f in l && e.pair == f.pair ==> e == f)
  }

  lemma ValidIsPartial(l: seq<Entry>, names: seq<Tool>)
    requires ValidLedger(l, names)
    ensures PartialLedger(l, names)
  {
    forall e | e in l ensures e.pair.0 in names && e.pair.1 in names && e.pair.0 <= e.pair.1 {
      var i :| 0 <= i < |l| && l[i] == e;
      assert Pairs(l)[i] in Elems(Pairs(l));
      ExpectedSorted(names, e.pair);
    }
    forall e, f | e in l && f in l && e.pair == f.pair ensures e == f {
      var i :| 0 <= i < |l| && l[i] == e;
      var j :| 0 <= j < |l| && l[j] == f;
      assert Pairs(l)[i] == Pairs(l)[j];
    }
  }

  lemma PairOfDirected(e: Entry, s: Tool, t: Tool, rel: Relation)
    requires EntryOk(e) && e.pair.0 <= e.pair.1 && rel != NoRelation && Directs(e, s, t, rel)
    ensures e.pair == SortPair(s, t) && s != t && s in {e.pair.0, e.pair.1} && t in {e.pair.0, e.pair.1}
  {
    assert s in {e.source.value, e.target.value} && t in {e.source.value, e.target.value};
    assert e.pair.0 in {e.source.value, e.target.value} && e.pair.1 in {e.source.value, e.target.value};
  }

  /** Over a ledger each directed row is one edge and each edge one row. */
  lemma PartialGraphEdges(l: seq<Entry>, names: seq<Tool>, s: Tool, t: Tool, rel: Relation)
    requires PartialLedger(l, names) && rel != NoRelation
    ensures Edge(GraphFromLedger(l, names), s, t, rel) <==> exists e :: e in l && Directs(e, s, t, rel)
  {
    hide GraphFromLedger;
    forall e, r | e in l && r != NoRelation && Directs(e, s, t, r)
      ensures s in names && t in names && s != t && e.pair == SortPair(s, t)
    {
      PairOfDirected(e, s, t, r);
    }
    if s in names {
      GraphEdges(l, names, s, t);
    } else {
      GraphKeys(l, names);
    }
  }

  lemma GraphKeys(l: seq<Entry>, names: seq<Tool>)
    ensures GraphFromLedger(l, names).Keys == Elems(names)
    ensures Canonical(GraphFromLedger(l, names), names)
  {
    NormalizeCanonical(AsRaw(Appended(l, names)), names);
  }

  // ---------------------------------------------------------------- graph to ledger

  /** Every relation the graph holds over a pair, in the order the conversion tries them. */
  function DirectedOver(n: Graph, p: Pair): seq<Entry> {
    (if Edge(n, p.0, p.1, Explicit) then [Entry(p, Some(p.0), Some(p.1), Explicit)] else []) +
    (if Edge(n, p.0, p.1, Implicit) then [Entry(p, Some(p.0), Some(p.1), Implicit)] else []) +
    (if Edge(n, p.1, p.0, Explicit) then [Entry(p, Some(p.1), Some(p.0), Explicit)] else []) +
    (if Edge(n, p.1, p.0, Implicit) then [Entry(p, Some(p.1), Some(p.0), Implicit)] else [])
  }

  function RowOver(n: Graph, p: Pair): Entry {
    var directed := DirectedOver(n, p);
    if directed != [] then directed[0] else Entry(p, None, None, NoRelation)
  }

  function RowsOver(n: Graph, ps: seq<Pair>): seq<Entry> {
    seq(|ps|, i requires 0 <= i < |ps| => RowOver(n, ps[i]))
  }

  /** `_pair_classifications_from_graph`; None stands for its ValueError. */
  function LedgerFromGraph(g: RawGraph, names: seq<Tool>): Option<seq<Entry>> {
    var n := Normalize(g, names);
    if exists p :: p in ExpectedPairs(names) && |DirectedOver(n, p)| > 1 then None
    else Some(RowsOver(n, SortedPairs(ExpectedPairs(names))))
  }

  method PairClassificationsFromGraph(g: RawGraph, names: seq<Tool>) returns (entries: Option<seq<Entry>>)
    ensures entries == LedgerFromGraph(g, names)
  {
    var n := NormalizeCachedGraph(g, names);
    hide Normalize, DirectedOver, RowOver;
    var ps := SortedPairs(ExpectedPairs(names));
    var rows := [];
    for i := 0 to |ps|
      invariant rows == RowsOver(n, ps[..i])
      invariant forall j :: 0 <= j < i ==> |DirectedOver(n, ps[j])| <= 1
    {
      assert ps[i] in Elems(ps);
      if |DirectedOver(n, ps[i])| > 1 { return None; }
      rows := rows + [RowOver(n, ps[i])];
    }
    assert ps[..|ps|] == ps;
    forall p | p in ExpectedPairs(names) ensures |DirectedOver(n, p)| <= 1 {
      assert p in Elems(ps);
    }
    return Some(rows);
  }

  ghost predicate HasEdge(n: Graph, s: Tool, t: Tool) {
    Edge(n, s, t, Explicit) || Edge(n, s, t, Implicit)
  }

  /** The conversion raises exactly when some pair of tools has edges in both directions. */
  lemma LedgerFromGraphRaises(g: RawGraph, names: seq<Tool>)
    ensures LedgerFromGraph(g, names).None? <==>
            exists s, t :: HasEdge(Normalize(g, names), s, t) && HasEdge(Normalize(g, names), t, s)
  {
    var n := Normalize(g, names);
    NormalizeCanonical(g, names);
    hide Normalize, Canonical, Edge, ExpectedPairs;
    if p :| p in ExpectedPairs(names) && |DirectedOver(n, p)| > 1 {
      DirectedTwice(n, names, p);
      assert HasEdge(n, p.0, p.1) && HasEdge(n, p.1, p.0);
    }
    if s, t :| HasEdge(n, s, t) && HasEdge(n, t, s) {
      NeverBoth(n, names, s, t);
      ExpectedHas(names, s, t);
      DirectedTwice(n, names, SortPair(s, t));
    }
  }

  lemma DirectedTwice(n: Graph, names: seq<Tool>, p: Pair)
    requires Canonical(n, names)
    ensures |DirectedOver(n, p)| > 1 <==> HasEdge(n, p.0, p.1) && HasEdge(n, p.1, p.0)
  {
    NeverBoth(n, names, p.0, p.1);
    NeverBoth(n, names, p.1, p.0);
    hide Edge, Canonical;
  }

  lemma ExpectedHas(names: seq<Tool>, s: Tool, t: Tool)
    requires s in names && t in names && s != t
    ensures SortPair(s, t) in ExpectedPairs(names)
  {
  }

  lemma NeverBoth(n: Graph, names: seq<Tool>, s: Tool, t: Tool)
    requires Canonical(n, names)
    ensures !(Edge(n, s, t, Explicit) && Edge(n, s, t, Implicit))
    ensures HasEdge(n, s, t) ==> s != t && s in names && t in names
  {
    if s in n {
      assert CanonicalNode(n[s], s, names);
      assert s in Elems(names);
    }
  }

  lemma RowsOverPairs(n: Graph, ps: seq<Pair>)
    ensures Pairs(RowsOver(n, ps)) == ps
  {
  }

  /** Graph to ledger undoes ledger to graph. */
  lemma LedgerRoundTrip(l: seq<Entry>, names: seq<Tool>)
    requires ValidLedger(l, names)
    ensures LedgerFromGraph(AsRaw(GraphFromLedger(l, names)), names) == Some(l)
  {
    var g := GraphFromLedger(l, names);
    GraphKeys(l, names);
    NormalizeIdempotent(g, names);
    ValidIsPartial(l, names);
    PairsAscendingUnique(Pairs(l), SortedPairs(ExpectedPairs(names)));
    hide *;
    forall i | 0 <= i < |l| ensures |DirectedOver(g, l[i].pair)| <= 1 && RowOver(g, l[i].pair) == l[i] {
      RowIsOnlyEdge(l, names, l[i]);
    }
    LedgerFromRows(AsRaw(g), names, l);
  }

  lemma LedgerFromRows(g: RawGraph, names: seq<Tool>, l: seq<Entry>)
    requires Pairs(l) == SortedPairs(ExpectedPairs(names))
    requires forall i :: 0 <= i < |l| ==>
               |DirectedOver(Normalize(g, names), l[i].pair)| <= 1 && RowOver(Normalize(g, names), l[i].pair) == l[i]
    ensures LedgerFromGraph(g, names) == Some(l)
  {
    hide Normalize, RowOver, DirectedOver, ExpectedPairs;
    forall p | p in ExpectedPairs(names) ensures |DirectedOver(Normalize(g, names), p)| <= 1 {
      assert p in Elems(Pairs(l));
      var i :| 0 <= i < |l| && Pairs(l)[i] == p;
    }
    assert RowsOver(Normalize(g, names), Pairs(l)) == l;
  }

  lemma RowIsOnlyEdge(l: seq<Entry>, names: seq<Tool>, e: Entry)
    requires PartialLedger(l, names) && e in l
    ensures DirectedOver(GraphFromLedger(l, names), e.pair) == if e.relation == NoRelation then [] else [e]
    ensures |DirectedOver(GraphFromLedger(l, names), e.pair)| <= 1
    ensures RowOver(GraphFromLedger(l, names), e.pair) == e
  {
    var g := GraphFromLedger(l, names);
    hide GraphFromLedger, Edge;
    forall s, t, rel | rel != NoRelation && {s, t} == {e.pair.0, e.pair.1}
      ensures Edge(g, s, t, rel) <==> Directs(e, s, t, rel)
    {
      PartialGraphEdges(l, names, s, t, rel);
      if f :| f in l && Directs(f, s, t, rel) {
        PairOfDirected(f, s, t, rel);
        assert s in {e.pair.0, e.pair.1} && t in {e.pair.0, e.pair.1};
        assert f.pair == e.pair;
      }
    }
    if e.relation != NoRelation {
      PairOfDirected(e, e.source.value, e.target.value, e.relation);
    }
  }

  /** Ledger to graph undoes graph to ledger, up to normalization. */
  lemma GraphRoundTrip(g: RawGraph, names: seq<Tool>)
    requires LedgerFromGraph(g, names).Some?
    ensures ValidLedger(LedgerFromGraph(g, names).value, names)
    ensures GraphFromLedger(LedgerFromGraph(g, names).value, names) == Normalize(g, names)
  {
    var l := LedgerFromGraph(g, names).value;
    LedgerOfGraphIsValid(g, names);
    ValidIsPartial(l, names);
    GraphKeys(l, names);
    NormalizeCanonical(g, names);
    hide *;
    forall s, t
      ensures Edge(GraphFromLedger(l, names), s, t, Explicit) <==> Edge(Normalize(g, names), s, t, Explicit)
      ensures Edge(GraphFromLedger(l, names), s, t, Implicit) <==> Edge(Normalize(g, names), s, t, Implicit)
    {
      EdgeHasRow(g, names, s, t, Explicit);
      EdgeHasRow(g, names, s, t, Implicit);
      PartialGraphEdges(l, names, s, t, Explicit);
      PartialGraphEdges(l, names, s, t, Implicit);
    }
    SameEdgesIntro(GraphFromLedger(l, names), Normalize(g, names));
    CanonicalUnique(GraphFromLedger(l, names), Normalize(g, names), names);
  }

  lemma SameEdgesIntro(g: Graph, h: Graph)
    requires forall s, t :: Edge(g, s, t, Explicit) <==> Edge(h, s, t, Explicit)
    requires forall s, t :: Edge(g, s, t, Implicit) <==> Edge(h, s, t, Implicit)
    ensures SameEdges(g, h)
  {
  }

  lemma RowOverOk(n: Graph, names: seq<Tool>, p: Pair)
    requires Canonical(n, names)
    ensures EntryOk(RowOver(n, p)) && RowOver(n, p).pair == p
  {
    NeverBoth(n, names, p.0, p.1);
    NeverBoth(n, names, p.1, p.0);
    hide Edge, Canonical;
  }

  lemma LedgerOfGraphIsValid(g: RawGraph, names: seq<Tool>)
    requires LedgerFromGraph(g, names).Some?
    ensures ValidLedger(LedgerFromGraph(g, names).value, names)
  {
    var n := Normalize(g, names);
    var ps := SortedPairs(ExpectedPairs(names));
    NormalizeCanonical(g, names);
    hide Normalize, Canonical, RowOver, EntryOk, DirectedOver, ExpectedPairs;
    RowsOverPairs(n, ps);
    forall e | e in RowsOver(n, ps) ensures EntryOk(e) {
      var i :| 0 <= i < |ps| && RowsOver(n, ps)[i] == e;
      RowOverOk(n, names, ps[i]);
    }
  }

  lemma EdgeHasRow(g: RawGraph, names: seq<Tool>, s: Tool, t: Tool, rel: Relation)
    requires LedgerFromGraph(g, names).Some? && rel != NoRelation
    ensures Edge(Normalize(g, names), s, t, rel) <==>
            exists e :: e in LedgerFromGraph(g, names).value && Directs(e, s, t, rel)
  {
    var n := Normalize(g, names);
    var ps := SortedPairs(ExpectedPairs(names));
    NormalizeCanonical(g, names);
    hide Normalize, Canonical, ExpectedPairs, RowOver, DirectedOver;
    if Edge(n, s, t, rel) {
      NeverBoth(n, names, s, t);
      ExpectedHas(names, s, t);
      var p := SortPair(s, t);
      assert p in Elems(ps);
      var i :| 0 <= i < |ps| && ps[i] == p;
      assert |DirectedOver(n, p)| <= 1;
      RowOverEdge(n, s, t, rel);
      assert RowsOver(n, ps)[i] == RowOver(n, p);
    }
    if e :| e in RowsOver(n, ps) && Directs(e, s, t, rel) {
      var i :| 0 <= i < |ps| && RowsOver(n, ps)[i] == e;
      RowOverDirects(n, ps[i], s, t, rel);
    }
  }

  lemma RowOverEdge(n: Graph, s: Tool, t: Tool, rel: Relation)
    requires s != t && Edge(n, s, t, rel) && |DirectedOver(n, SortPair(s, t))| <= 1
    ensures Directs(RowOver(n, SortPair(s, t)), s, t, rel)
  {
    assert rel == Explicit || rel == Implicit;
    hide Edge;
  }

  lemma RowOverDirects(n: Graph, p: Pair, s: Tool, t: Tool, rel: Relation)
    requires rel != NoRelation && Directs(RowOver(n, p), s, t, rel)
    ensures Edge(n, s, t, rel)
  {
    hide Edge;
  }
}
