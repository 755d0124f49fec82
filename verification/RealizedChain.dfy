/**
 Selecting the longest dependency path a trace actually executed
 (src/live_mcp/dependency_trace.py:182-235).
 */
module RealizedChain {
  import opened Common
  import opened TraceAlignment

  datatype Relations = Relations(explicit: seq<Name>, implicit: seq<Name>)
  type NamedGraph = map<Name, Relations>

  /** Exactly one of the two relations holds. */
  predicate OneRelation(g: NamedGraph, source: Name, target: Name) {
    source in g && (target in g[source].explicit) != (target in g[source].implicit)
  }

  /** The target is listed as explicit only, or as implicit only. */
  lemma OneRelationExactly(g: NamedGraph, source: Name, target: Name)
    ensures OneRelation(g, source, target) <==>
            && source in g
            && (|| (target in g[source].explicit && target !in g[source].implicit)
                || (target in g[source].implicit && target !in g[source].explicit))
  {
  }

  predicate ToolAt(calls: seq<Call>, i: nat) {
    i < |calls| && calls[i].isToolCall && calls[i].name != ""
  }

  /** An increasing list of named tool calls whose adjacent tools are related one way only. */
  predicate Realized(calls: seq<Call>, g: NamedGraph, c: Indices) {
    && Ascending(c)
    && (forall k :: 0 <= k < |c| ==> ToolAt(calls, c[k]))
    && forall k :: 0 < k < |c| ==> OneRelation(g, calls[c[k - 1]].name, calls[c[k]].name)
  }

  function ToolIndices(calls: seq<Call>, n: nat): (tools: Indices)
    requires n <= |calls|
    ensures forall i: nat :: i in tools <==> i < n && ToolAt(calls, i)
    ensures Ascending(tools)
  {
    if n == 0 then []
    else
      var before := ToolIndices(calls, n - 1);
      assert forall k | 0 <= k < |before| :: before[k] in before;
      before + if ToolAt(calls, n - 1) then [n - 1] else []
  }

  predicate Linked(calls: seq<Call>, g: NamedGraph, path: Indices, i: nat)
    requires i < |calls| && forall k :: 0 <= k < |path| ==> path[k] < |calls|
  {
    path == [] || OneRelation(g, calls[path[|path| - 1]].name, calls[i].name)
  }

  /** Paths recorded from a path on, continuing at a position of the tool list. */
  function Extend(calls: seq<Call>, g: NamedGraph, tools: Indices, max: int, path: Indices, start: nat): seq<Indices>
    requires (forall k :: 0 <= k < |tools| ==> tools[k] < |calls|) &&
             (forall k :: 0 <= k < |path| ==> path[k] < |calls|)
    requires start <= |tools|
    decreases |tools| - start, 1, 0
  {
    (if |path| >= 2 then [path] else []) +
    if |path| >= max then [] else Over(calls, g, tools, max, path, start, |tools|)
  }

  function Over(calls: seq<Call>, g: NamedGraph, tools: Indices, max: int, path: Indices, start: nat,
                to: nat): seq<Indices>
    requires (forall k :: 0 <= k < |tools| ==> tools[k] < |calls|) &&
             (forall k :: 0 <= k < |path| ==> path[k] < |calls|)
    requires start <= to <= |tools|
    decreases |tools| - start, 0, to
  {
    if start == to then []
    else
      Over(calls, g, tools, max, path, start, to - 1) +
      if Linked(calls, g, path, tools[to - 1]) then Extend(calls, g, tools, max, path + [tools[to - 1]], to) else []
  }

  lemma ExtendIs(calls: seq<Call>, g: NamedGraph, tools: Indices, max: int, path: Indices, start: nat)
    requires (forall k :: 0 <= k < |tools| ==> tools[k] < |calls|) &&
             (forall k :: 0 <= k < |path| ==> path[k] < |calls|)
    requires start <= |tools|
    ensures Extend(calls, g, tools, max, path, start) ==
            (if |path| >= 2 then [path] else []) +
            if |path| >= max then [] else Over(calls, g, tools, max, path, start, |tools|)
    ensures Over(calls, g, tools, max, path, start, start) == []
  {
    hide Linked;
  }

  lemma OverIs(calls: seq<Call>, g: NamedGraph, tools: Indices, max: int, path: Indices, start: nat, to: nat)
    requires (forall k :: 0 <= k < |tools| ==> tools[k] < |calls|) &&
             (forall k :: 0 <= k < |path| ==> path[k] < |calls|)
    requires start < to <= |tools|
    ensures Over(calls, g, tools, max, path, start, to) ==
            Over(calls, g, tools, max, path, start, to - 1) +
            if Linked(calls, g, path, tools[to - 1]) then Extend(calls, g, tools, max, path + [tools[to - 1]], to)
               else []
  {
    hide Linked, Extend;
  }

  class PathCollector {
    var paths: seq<Indices>

    constructor ()
      ensures paths == []
    {
      paths := [];
    }

    /** The nested recursive function, appending to the shared list. */
    method Collect(calls: seq<Call>, g: NamedGraph, tools: Indices, max: int, path: Indices, start: nat)
      requires (forall k :: 0 <= k < |tools| ==> tools[k] < |calls|) &&
               (forall k :: 0 <= k < |path| ==> path[k] < |calls|)
      requires start <= |tools|
      modifies this
      ensures paths == old(paths) + Extend(calls, g, tools, max, path, start)
      decreases |tools| - start
    {
      hide Linked, Over, Extend;
      ExtendIs(calls, g, tools, max, path, start);
      if |path| >= 2 { paths := paths + [path]; }
      if |path| >= max { return; }
      ghost var before := paths;
      for position := start to |tools|
        invariant paths == before + Over(calls, g, tools, max, path, start, position)
      {
        OverIs(calls, g, tools, max, path, start, position + 1);
        if Linked(calls, g, path, tools[position]) {
          Collect(calls, g, tools, max, path + [tools[position]], position + 1);
        }
      }
    }
  }

  // ---------------------------------------------------------------- what is collected

  ghost predicate Continues(calls: seq<Call>, g: NamedGraph, max: int, path: Indices, c: Indices) {
    |c| >= 2 && |path| <= |c| && c[..|path|] == path && (c == path || |c| <= max) && Realized(calls, g, c)
  }

  /** The search resumes just after the path's last call. */
  ghost predicate Resumes(tools: Indices, path: Indices, start: nat) {
    if path == [] then start == 0 else 0 < start <= |tools| && tools[start - 1] == path[|path| - 1]
  }

  lemma InRange(calls: seq<Call>, g: NamedGraph, path: Indices)
    requires Realized(calls, g, path)
    ensures forall k :: 0 <= k < |path| ==> path[k] < |calls|
  {
    forall k | 0 <= k < |path| ensures path[k] < |calls| { assert ToolAt(calls, path[k]); }
  }

  lemma RealizedStep(calls: seq<Call>, g: NamedGraph, path: Indices, i: nat)
    requires Realized(calls, g, path) && ToolAt(calls, i) && (path == [] || path[|path| - 1] < i)
    ensures Realized(calls, g, path + [i]) <==> Linked(calls, g, path, i)
  {
    hide OneRelation;
    var c := path + [i];
    assert forall k | 0 <= k < |path| :: c[k] == path[k];
    assert c[|path|] == i;
    if Realized(calls, g, c) && path != [] { assert OneRelation(g, calls[c[|path| - 1]].name, calls[c[|path|]].name); }
  }

  lemma NextCall(calls: seq<Call>, g: NamedGraph, tools: Indices, max: int, path: Indices, start: nat, c: Indices)
      returns (position: nat)
    requires tools == ToolIndices(calls, |calls|) && Resumes(tools, path, start)
    requires Continues(calls, g, max, path, c) && |c| > |path|
    ensures start <= position < |tools| && tools[position] == c[|path|]
    ensures Realized(calls, g, path) && Linked(calls, g, path, c[|path|])
    ensures Continues(calls, g, max, path + [c[|path|]], c)
  {
    hide OneRelation, ToolIndices;
    var i := c[|path|];
    assert ToolAt(calls, i);
    assert i in tools;
    position :| 0 <= position < |tools| && tools[position] == i;
    assert c[..|path| + 1] == path + [i];
    assert forall k | 0 <= k < |path| :: path[k] == c[k];
    if path != [] {
      assert path[|path| - 1] == c[|path| - 1] < i;
      assert OneRelation(g, calls[c[|path| - 1]].name, calls[c[|path|]].name);
    }
  }

  lemma {:induction false} ExtendExactly(calls: seq<Call>, g: NamedGraph, tools: Indices, max: int, path: Indices,
                                         start: nat, c: Indices)
    requires tools == ToolIndices(calls, |calls|) && start <= |tools| && Resumes(tools, path, start) &&
             Realized(calls, g, path)
    requires forall k :: 0 <= k < |tools| ==> tools[k] < |calls|
    ensures c in Extend(calls, g, tools, max, path, start) <==> Continues(calls, g, max, path, c)
    decreases |tools| - start, 1, 0
  {
    hide Realized, Linked, ToolIndices, Resumes;
    if |path| < max { OverExactly(calls, g, tools, max, path, start, |tools|, c); }
    if Continues(calls, g, max, path, c) && |c| > |path| {
      var position := NextCall(calls, g, tools, max, path, start, c);
      assert c[|path|] in tools[start..|tools|] by { assert tools[start..|tools|][position - start] == c[|path|]; }
    }
    if c == path { assert c[..|path|] == path; }
  }

  lemma {:induction false} OverExactly(calls: seq<Call>, g: NamedGraph, tools: Indices, max: int, path: Indices,
                                       start: nat, to: nat, c: Indices)
    requires tools == ToolIndices(calls, |calls|) && start <= to <= |tools| && Resumes(tools, path, start) &&
             Realized(calls, g, path)
    requires forall k :: 0 <= k < |tools| ==> tools[k] < |calls|
    requires |path| < max
    ensures c in Over(calls, g, tools, max, path, start, to) <==>
            Continues(calls, g, max, path, c) && |c| > |path| && c[|path|] in tools[start..to]
    decreases |tools| - start, 0, to
  {
    hide Realized, Linked, ToolIndices, Extend;
    if start < to {
      OverExactly(calls, g, tools, max, path, start, to - 1, c);
      var i := tools[to - 1];
      assert tools[start..to] == tools[start..to - 1] + [i];
      StepExactly(calls, g, tools, max, path, start, to, c);
    }
  }

  lemma {:induction false} StepExactly(calls: seq<Call>, g: NamedGraph, tools: Indices, max: int, path: Indices,
                                       start: nat, to: nat, c: Indices)
    requires tools == ToolIndices(calls, |calls|) && start < to <= |tools| && Resumes(tools, path, start) &&
             Realized(calls, g, path)
    requires forall k :: 0 <= k < |tools| ==> tools[k] < |calls|
    requires |path| < max
    ensures Linked(calls, g, path, tools[to - 1]) && c in Extend(calls, g, tools, max, path + [tools[to - 1]], to) <==>
            Continues(calls, g, max, path, c) && |c| > |path| && c[|path|] == tools[to - 1]
    decreases |tools| - start, 0, to, 0
  {
    hide Realized, Linked, ToolIndices, Extend;
    InRange(calls, g, path);
    var i := tools[to - 1];
    var next := path + [i];
    assert i in tools;
    assert Ascending(tools);
    if path != [] { assert tools[start - 1] < tools[to - 1]; }
    RealizedStep(calls, g, path, i);
    if Linked(calls, g, path, i) {
      ExtendExactly(calls, g, tools, max, next, to, c);
      if Continues(calls, g, max, next, c) {
        assert c[..|path|] == c[..|next|][..|path|] == path && c[|path|] == c[..|next|][|path|] == i;
      }
    }
    if Continues(calls, g, max, path, c) && |c| > |path| && c[|path|] == i {
      var position := NextCall(calls, g, tools, max, path, start, c);
    }
  }

  // ---------------------------------------------------------------- selection

  /** Longer first, then lexicographically smaller. */
  predicate Better(a: Indices, b: Indices) {
    |a| > |b| || (|a| == |b| && LexLeq(a, b))
  }

  lemma BetterExactly(a: Indices, b: Indices)
    ensures Better(a, b) <==> |b| <= |a| && (|b| == |a| ==> LexLeq(a, b))
  {
  }

  lemma BetterTransitive(a: Indices, b: Indices, c: Indices)
    requires Better(a, b) && Better(b, c)
    ensures Better(a, c)
  {
    if |a| == |b| == |c| { LexTransitive(a, b, c); }
  }

  lemma BetterTotal(a: Indices, b: Indices)
    ensures Better(a, b) || Better(b, a)
    ensures Better(a, a)
  {
    LexTotal(a, b);
    LexReflexive(a);
  }

  method BestPath(paths: seq<Indices>) returns (best: Indices)
    requires paths != []
    ensures best in paths && forall p :: p in paths ==> Better(best, p)
  {
    hide Better;
    best := paths[0];
    for i := 0 to |paths|
      invariant best in paths
      invariant forall j :: 0 <= j < i ==> Better(best, paths[j])
    {
      BetterTotal(best, paths[i]);
      BetterTotal(paths[i], best);
      if !Better(best, paths[i]) {
        forall j | 0 <= j < i ensures Better(paths[i], paths[j]) { BetterTransitive(paths[i], best, paths[j]); }
        best := paths[i];
      }
    }
  }

  function NamesAt(calls: seq<Call>, idx: Indices): seq<Name>
    requires forall k :: 0 <= k < |idx| ==> idx[k] < |calls|
  {
    seq(|idx|, k requires 0 <= k < |idx| => calls[idx[k]].name)
  }

  ghost predicate Candidate(calls: seq<Call>, g: NamedGraph, max: int, c: Indices) {
    2 <= |c| <= max && Realized(calls, g, c)
  }

  /** `select_realized_dependency_chain`: empty exactly when the trace realizes no edge within the
      length limit; otherwise the longest realized path, the lexicographically first of those. */
  method SelectRealizedChain(calls: seq<Call>, g: NamedGraph, max: int) returns (names: seq<Name>, selected: Indices)
    ensures selected == [] <==> !exists c :: Candidate(calls, g, max, c)
    ensures selected == [] ==> names == []
    ensures selected != [] ==> Candidate(calls, g, max, selected) && names == NamesAt(calls, selected)
    ensures selected != [] ==> forall c :: Candidate(calls, g, max, c) ==>
              |c| <= |selected| && (|c| == |selected| ==> LexLeq(selected, c))
  {
    hide Better, Extend, ToolIndices;
    var tools := ToolIndices(calls, |calls|);
    assert forall k :: 0 <= k < |tools| ==> tools[k] in tools;
    var collector := new PathCollector();
    collector.Collect(calls, g, tools, max, [], 0);
    assert Realized(calls, g, []);
    forall c ensures c in collector.paths <==> Candidate(calls, g, max, c) {
      ExtendExactly(calls, g, tools, max, [], 0, c);
      assert c[..0] == [];
    }
    if collector.paths == [] { return [], []; }
    selected := BestPath(collector.paths);
    assert Candidate(calls, g, max, selected);
    forall c | Candidate(calls, g, max, c) ensures |c| <= |selected| && (|c| == |selected| ==> LexLeq(selected, c)) {
      BetterExactly(selected, c);
    }
    names := NamesAt(calls, selected);
  }

  /** The names of a realized path always realign to the trace they came from. */
  lemma RealizedNamesRealign(calls: seq<Call>, g: NamedGraph, idx: Indices)
    requires Realized(calls, g, idx)
    ensures NonBlank(NamesAt(calls, idx)) == NamesAt(calls, idx)
    ensures IsAlignment(calls, NamesAt(calls, idx), idx) && Alignable(calls, NamesAt(calls, idx))
  {
    hide OneRelation;
    var names := NamesAt(calls, idx);
    forall k | 0 <= k < |idx|
      ensures Matches(calls, idx[k], names[k]) && names[k] != "" { assert ToolAt(calls, idx[k]); }
    AllNonBlank(names);
    assert IsAlignment(calls, names, idx);
  }

  lemma {:induction false} AllNonBlank(names: seq<Name>)
    requires forall k :: 0 <= k < |names| ==> names[k] != ""
    ensures NonBlank(names) == names
  {
    if names != [] {
      AllNonBlank(names[..|names| - 1]);
      assert names == names[..|names| - 1] + [names[|names| - 1]];
    }
  }
}
