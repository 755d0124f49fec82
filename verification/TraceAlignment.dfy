/**
 Aligning a sampled chain to an executed trace (src/live_mcp/dependency_trace.py:29-161).
 */
module TraceAlignment {
  import opened Common

  type Name = string

  /** One step of the trace: a tool call or some other action, with its tool name. */
  datatype Call = Call(isToolCall: bool, name: Name)

  type Indices = seq<nat>

  predicate Matches(calls: seq<Call>, i: nat, name: Name) {
    i < |calls| && calls[i].isToolCall && calls[i].name == name
  }

  /** Every chain step at its own call, in order; other calls may come between. */
  predicate IsAlignment(calls: seq<Call>, chain: seq<Name>, idx: Indices) {
    |idx| == |chain| && Ascending(idx) && forall k :: 0 <= k < |idx| ==> Matches(calls, idx[k], chain[k])
  }

  predicate PointwiseLeq(a: Indices, b: Indices) {
    |a| == |b| && forall k :: 0 <= k < |a| ==> a[k] <= b[k]
  }

  function NonBlank(names: seq<Name>): seq<Name> {
    if names == [] then []
    else
      var k := |names| - 1;
      NonBlank(names[..k]) + if names[k] == "" then [] else [names[k]]
  }

  /** The chain without its blank names, in order: name by name. */
  lemma {:induction false} NonBlankConcat(a: seq<Name>, b: seq<Name>)
    ensures NonBlank(a + b) == NonBlank(a) + NonBlank(b)
  {
    if b == [] {
      assert a + b == a;
    } else {
      assert (a + b)[..|a + b| - 1] == a + b[..|b| - 1];
      NonBlankConcat(a, b[..|b| - 1]);
    }
  }

  lemma NonBlankOfOne(name: Name)
    ensures NonBlank([name]) == (if name == "" then [] else [name]) && NonBlank([]) == []
  {
    assert [name][..0] == [];
  }

  // ---------------------------------------------------------------- earliest alignment

  /** The first match at or after a position. */
  method NextMatch(calls: seq<Call>, name: Name, from: nat) returns (found: Option<nat>)
    ensures found.Some? ==> from <= found.value && Matches(calls, found.value, name)
    ensures found.Some? ==> forall i :: from <= i < found.value ==> !Matches(calls, i, name)
    ensures found.None? ==> forall i :: from <= i ==> !Matches(calls, i, name)
  {
    var i := from;
    while i < |calls|
      invariant from <= i
      invariant forall j :: from <= j < i ==> !Matches(calls, j, name)
    {
      if calls[i].isToolCall && calls[i].name == name { return Some(i); }
      i := i + 1;
    }
    return None;
  }

  method PreviousMatch(calls: seq<Call>, name: Name, before: nat) returns (found: Option<nat>)
    requires before <= |calls|
    ensures found.Some? ==> found.value < before && Matches(calls, found.value, name)
    ensures found.Some? ==> forall i :: found.value < i < before ==> !Matches(calls, i, name)
    ensures found.None? ==> forall i :: 0 <= i < before ==> !Matches(calls, i, name)
  {
    var i: nat := before;
    while i > 0
      invariant i <= before
      invariant forall j :: i <= j < before ==> !Matches(calls, j, name)
    {
      i := i - 1;
      if calls[i].isToolCall && calls[i].name == name { return Some(i); }
    }
    return None;
  }

  lemma PrefixAligns(calls: seq<Call>, chain: seq<Name>, idx: Indices, n: nat)
    requires IsAlignment(calls, chain, idx) && n <= |chain|
    ensures IsAlignment(calls, chain[..n], idx[..n])
  {
  }

  lemma SuffixAligns(calls: seq<Call>, chain: seq<Name>, idx: Indices, n: nat)
    requires IsAlignment(calls, chain, idx) && n <= |chain|
    ensures IsAlignment(calls, chain[n..], idx[n..])
  {
  }

  ghost predicate Least(calls: seq<Call>, chain: seq<Name>, idx: Indices) {
    IsAlignment(calls, chain, idx) && forall other :: IsAlignment(calls, chain, other) ==> PointwiseLeq(idx, other)
  }

  ghost predicate Greatest(calls: seq<Call>, chain: seq<Name>, idx: Indices) {
    IsAlignment(calls, chain, idx) && forall other :: IsAlignment(calls, chain, other) ==> PointwiseLeq(other, idx)
  }

  ghost predicate Alignable(calls: seq<Call>, chain: seq<Name>) {
    exists idx :: IsAlignment(calls, chain, idx)
  }

  /** The greedy pass: it fails only when no alignment exists, and otherwise finds the pointwise
      least one. */
  method AlignEarliest(calls: seq<Call>, chain: seq<Name>) returns (aligned: Option<Indices>)
    ensures aligned.Some? <==> Alignable(calls, chain)
    ensures aligned.Some? ==> Least(calls, chain, aligned.value)
  {
    var idx: Indices := [];
    var next := 0;
    assert chain[..0] == [];
    for k := 0 to |chain|
      invariant Least(calls, chain[..k], idx)
      invariant next == if k == 0 then 0 else idx[k - 1] + 1
    {
      hide Least, IsAlignment;
      var match_ := NextMatch(calls, chain[k], next);
      if match_.None? {
        NoEarliest(calls, chain, k, idx);
        return None;
      }
      EarliestStep(calls, chain, k, idx, match_.value);
      idx := idx + [match_.value];
      next := match_.value + 1;
    }
    assert chain[..|chain|] == chain;
    return Some(idx);
  }

  /** Any alignment places step k at a match beyond the least alignment of the steps before. */
  lemma NotBefore(calls: seq<Call>, chain: seq<Name>, k: nat, idx: Indices, other: Indices)
    requires k < |chain| && Least(calls, chain[..k], idx) && IsAlignment(calls, chain, other)
    ensures PointwiseLeq(idx, other[..k]) && Matches(calls, other[k], chain[k])
    ensures other[k] >= if k == 0 then 0 else idx[k - 1] + 1
  {
    PrefixAligns(calls, chain, other, k);
    assert PointwiseLeq(idx, other[..k]);
    if k > 0 { assert idx[k - 1] <= other[..k][k - 1] && other[k - 1] < other[k]; }
  }

  lemma EarliestStep(calls: seq<Call>, chain: seq<Name>, k: nat, idx: Indices, m: nat)
    requires k < |chain| && Least(calls, chain[..k], idx) && Matches(calls, m, chain[k])
    requires (k == 0 || idx[k - 1] < m)
    requires forall i :: (if k == 0 then 0 else idx[k - 1] + 1) <= i < m ==> !Matches(calls, i, chain[k])
    ensures Least(calls, chain[..k + 1], idx + [m])
  {
    assert chain[..k + 1][..k] == chain[..k];
    forall other | IsAlignment(calls, chain[..k + 1], other) ensures PointwiseLeq(idx + [m], other) {
      NotBefore(calls, chain[..k + 1], k, idx, other);
    }
  }

  lemma NoEarliest(calls: seq<Call>, chain: seq<Name>, k: nat, idx: Indices)
    requires k < |chain| && Least(calls, chain[..k], idx)
    requires forall i :: (if k == 0 then 0 else idx[k - 1] + 1) <= i ==> !Matches(calls, i, chain[k])
    ensures !Alignable(calls, chain)
  {
    forall other ensures !IsAlignment(calls, chain, other) {
      if IsAlignment(calls, chain, other) {
        NotBefore(calls, chain, k, idx, other);
        assert false;
      }
    }
  }

  // ---------------------------------------------------------------- latest alignment

  /** The reverse greedy pass finds the pointwise greatest alignment. */
  method AlignLatest(calls: seq<Call>, chain: seq<Name>) returns (aligned: Option<Indices>)
    ensures aligned.Some? <==> Alignable(calls, chain)
    ensures aligned.Some? ==> Greatest(calls, chain, aligned.value)
  {
    var idx: Indices := [];
    var cursor := |calls|;
    var k: nat := |chain|;
    assert chain[k..] == [];
    while k > 0
      invariant k <= |chain| && Greatest(calls, chain[k..], idx)
      invariant cursor == if k == |chain| then |calls| else idx[0]
      invariant cursor <= |calls|
    {
      hide Greatest, IsAlignment;
      k := k - 1;
      var match_ := PreviousMatch(calls, chain[k], cursor);
      if match_.None? {
        NoLatest(calls, chain, k, idx);
        return None;
      }
      LatestStep(calls, chain, k, idx, match_.value);
      idx := [match_.value] + idx;
      cursor := match_.value;
    }
    assert chain[0..] == chain;
    return Some(idx);
  }

  lemma NotAfter(calls: seq<Call>, chain: seq<Name>, k: nat, idx: Indices, other: Indices)
    requires k < |chain| && Greatest(calls, chain[k + 1..], idx) && IsAlignment(calls, chain, other)
    ensures PointwiseLeq(other[k + 1..], idx) && Matches(calls, other[k], chain[k])
    ensures other[k] < if idx == [] then |calls| else idx[0]
  {
    SuffixAligns(calls, chain, other, k + 1);
    assert PointwiseLeq(other[k + 1..], idx);
    if idx != [] { assert other[k + 1..][0] <= idx[0] && other[k] < other[k + 1]; }
  }

  lemma LatestStep(calls: seq<Call>, chain: seq<Name>, k: nat, idx: Indices, m: nat)
    requires k < |chain| && Greatest(calls, chain[k + 1..], idx) && Matches(calls, m, chain[k])
    requires idx == [] || m < idx[0]
    requires forall i :: m < i < (if idx == [] then |calls| else idx[0]) ==> !Matches(calls, i, chain[k])
    ensures Greatest(calls, chain[k..], [m] + idx)
  {
    assert chain[k..][1..] == chain[k + 1..];
    forall other | IsAlignment(calls, chain[k..], other) ensures PointwiseLeq(other, [m] + idx) {
      NotAfter(calls, chain[k..], 0, idx, other);
    }
  }

  lemma NoLatest(calls: seq<Call>, chain: seq<Name>, k: nat, idx: Indices)
    requires k < |chain| && Greatest(calls, chain[k + 1..], idx)
    requires forall i :: 0 <= i < (if idx == [] then |calls| else idx[0]) ==> !Matches(calls, i, chain[k])
    ensures !Alignable(calls, chain)
  {
    forall other ensures !IsAlignment(calls, chain, other) {
      if IsAlignment(calls, chain, other) {
        NotAfter(calls, chain, k, idx, other);
        assert false;
      }
    }
  }

  // ---------------------------------------------------------------- lexicographic order

  /** Python's order on lists of integers. */
  predicate LexLeq(a: Indices, b: Indices) {
    a == [] || (b != [] && (a[0] < b[0] || (a[0] == b[0] && LexLeq(a[1..], b[1..]))))
  }

  lemma {:induction false} LexTransitive(a: Indices, b: Indices, c: Indices)
    requires LexLeq(a, b) && LexLeq(b, c)
    ensures LexLeq(a, c)
  {
    if a != [] && a[0] == b[0] == c[0] { LexTransitive(a[1..], b[1..], c[1..]); }
  }

  lemma {:induction false} LexTotal(a: Indices, b: Indices)
    ensures LexLeq(a, b) || LexLeq(b, a)
  {
    if a != [] && b != [] { LexTotal(a[1..], b[1..]); }
  }

  lemma {:induction false} LexAntisymmetric(a: Indices, b: Indices)
    requires LexLeq(a, b) && LexLeq(b, a)
    ensures a == b
  {
    if a != [] {
      LexAntisymmetric(a[1..], b[1..]);
      assert a == [a[0]] + a[1..] && b == [b[0]] + b[1..];
    }
  }

  lemma {:induction false} LexReflexive(a: Indices)
    ensures LexLeq(a, a)
  {
    if a != [] { LexReflexive(a[1..]); }
  }

  /** One list begins the other, or is smaller at the first place where they differ. */
  lemma {:induction false} LexExactly(a: Indices, b: Indices)
    ensures LexLeq(a, b) <==>
            || (|a| <= |b| && b[..|a|] == a)
            || exists k :: 0 <= k < |a| && k < |b| && a[..k] == b[..k] && a[k] < b[k]
  {
    if a != [] && b != [] {
      LexExactly(a[1..], b[1..]);
      if k :| 0 <= k < |a| && k < |b| && a[..k] == b[..k] && a[k] < b[k] {
        if k > 0 {
          assert a[0] == a[..k][0] == b[..k][0] == b[0];
          assert a[1..][..k - 1] == a[..k][1..] == b[..k][1..] == b[1..][..k - 1];
          assert a[1..][k - 1] < b[1..][k - 1];
        }
      }
      if a[0] == b[0] {
        if k :| 0 <= k < |a| - 1 && k < |b| - 1 && a[1..][..k] == b[1..][..k] && a[1..][k] < b[1..][k] {
          assert a[..k + 1] == [a[0]] + a[1..][..k] && b[..k + 1] == [b[0]] + b[1..][..k];
          assert a[k + 1] < b[k + 1];
        }
        if |a| <= |b| {
          assert b[..|a|] == [b[0]] + b[1..][..|a| - 1] && a == [a[0]] + a[1..];
          if b[..|a|] == a { assert b[1..][..|a| - 1] == b[..|a|][1..]; }
        }
      } else if a[0] < b[0] {
        assert a[..0] == b[..0];
      }
    }
  }

  /** A pointwise smaller list is also lexicographically smaller. */
  lemma {:induction false} PointwiseIsLex(a: Indices, b: Indices)
    requires PointwiseLeq(a, b)
    ensures LexLeq(a, b)
  {
    if a != [] { PointwiseIsLex(a[1..], b[1..]); }
  }

  method LeastPath(paths: seq<Indices>) returns (least: Indices)
    requires paths != []
    ensures least in paths && forall p :: p in paths ==> LexLeq(least, p)
  {
    least := paths[0];
    for i := 0 to |paths|
      invariant least in paths
      invariant forall j :: 0 <= j < i ==> LexLeq(least, paths[j])
    {
      LexTotal(least, paths[i]);
      LexReflexive(paths[i]);
      if !LexLeq(least, paths[i]) {
        forall j | 0 <= j < i ensures LexLeq(paths[i], paths[j]) { LexTransitive(paths[i], least, paths[j]); }
        least := paths[i];
      }
    }
  }

  // ---------------------------------------------------------------- evidence mode

  /** A verified edge: the two capabilities and the calls said to realize them. Anything else in
      the list, or an index that is not an integer, is skipped. */
  datatype EvidenceItem =
    | OtherItem
    | EvidenceItem(source: Name, target: Name, sourceIndex: Option<int>, targetIndex: Option<int>)

  datatype Evidence = Undecodable | Items(items: seq<EvidenceItem>)

  predicate Supports(calls: seq<Call>, item: EvidenceItem, source: Name, target: Name) {
    && item.EvidenceItem? && item.source == source && item.target == target
    && item.sourceIndex.Some? && item.targetIndex.Some?
    && 0 <= item.sourceIndex.value < item.targetIndex.value < |calls|
    && Matches(calls, item.sourceIndex.value, source) && Matches(calls, item.targetIndex.value, target)
  }

  ghost predicate EdgeSupported(calls: seq<Call>, items: seq<EvidenceItem>, source: Name, target: Name, i: nat,
                                j: nat) {
    exists item :: item in items && Supports(calls, item, source, target) && item.sourceIndex == Some(i) &&
                   item.targetIndex == Some(j)
  }

  /** An edge is verified by an item that names the two tools and the two calls, if these are calls of those tools, one
      after the other. */
  lemma SupportedExactly(calls: seq<Call>, items: seq<EvidenceItem>, source: Name, target: Name, i: nat, j: nat)
    ensures EdgeSupported(calls, items, source, target, i, j) <==>
            && EvidenceItem(source, target, Some(i), Some(j)) in items
            && i < j < |calls| && calls[i] == Call(true, source) && calls[j] == Call(true, target)
  {
    if EvidenceItem(source, target, Some(i), Some(j)) in items && i < j < |calls| && calls[i] == Call(true, source) &&
      calls[j] == Call(true, target) {
      assert Supports(calls, EvidenceItem(source, target, Some(i), Some(j)), source, target);
    }
  }

  /** Every adjacent pair of indices is one verified edge, so one call stands for each step. */
  ghost predicate Connected(calls: seq<Call>, items: seq<EvidenceItem>, chain: seq<Name>, idx: Indices) {
    |idx| == |chain| &&
    forall k :: 0 <= k < |idx| - 1 ==> EdgeSupported(calls, items, chain[k], chain[k + 1], idx[k], idx[k + 1])
  }

  method EdgeCandidates(calls: seq<Call>, items: seq<EvidenceItem>, source: Name, target: Name)
      returns (edges: seq<(nat, nat)>)
    ensures forall i: nat, j: nat :: (i, j) in edges <==> EdgeSupported(calls, items, source, target, i, j)
  {
    hide Matches;
    edges := [];
    for n := 0 to |items|
      invariant forall i: nat, j: nat :: (i, j) in edges <==> EdgeSupported(calls, items[..n], source, target, i, j)
    {
      assert items[..n + 1] == items[..n] + [items[n]];
      if Supports(calls, items[n], source, target) {
        edges := edges + [(items[n].sourceIndex.value, items[n].targetIndex.value)];
      }
    }
    assert items[..|items|] == items;
  }

  /** One round of path growth: paths that continue through an edge from their last call. */
  method GrowPaths(paths: seq<Indices>, edges: seq<(nat, nat)>) returns (longer: seq<Indices>)
    requires forall p :: p in paths ==> p != []
    ensures forall p :: p in longer <==> |p| >= 2 && p[..|p| - 1] in paths && (p[|p| - 2], p[|p| - 1]) in edges
  {
    longer := [];
    for i := 0 to |paths|
      invariant forall p :: p in longer <==> |p| >= 2 && p[..|p| - 1] in paths[..i] && (p[|p| - 2], p[|p| - 1]) in edges
    {
      var path := paths[i];
      assert path in paths && paths[..i + 1] == paths[..i] + [path];
      ghost var before := longer;
      for j := 0 to |edges|
        invariant forall p :: p in longer <==>
                    p in before || (|p| >= 2 && p[..|p| - 1] == path && (p[|p| - 2], p[|p| - 1]) in edges[..j])
      {
        assert edges[..j + 1] == edges[..j] + [edges[j]];
        if edges[j].0 == path[|path| - 1] {
          var next := path + [edges[j].1];
          assert next[..|next| - 1] == path;
          longer := longer + [next];
        }
        forall p: Indices | |p| >= 2 && p[..|p| - 1] == path && (p[|p| - 2], p[|p| - 1]) == edges[j]
          ensures p in longer {
          assert p == path + [edges[j].1];
        }
      }
      assert edges[..|edges|] == edges;
    }
    assert paths[..|paths|] == paths;
  }

  lemma ConnectedStep(calls: seq<Call>, items: seq<EvidenceItem>, chain: seq<Name>, n: nat, p: Indices)
    requires 1 <= n < |chain|
    ensures Connected(calls, items, chain[..n + 1], p) <==>
            |p| == n + 1 && Connected(calls, items, chain[..n], p[..n]) &&
            EdgeSupported(calls, items, chain[n - 1], chain[n], p[n - 1], p[n])
  {
    hide EdgeSupported;
    if |p| == n + 1 && Connected(calls, items, chain[..n], p[..n]) &&
       EdgeSupported(calls, items, chain[n - 1], chain[n], p[n - 1], p[n]) {
      forall k | 0 <= k < n
        ensures EdgeSupported(calls, items, chain[..n + 1][k], chain[..n + 1][k + 1], p[k], p[k + 1]) {
        if k < n - 1 { assert p[..n][k] == p[k] && p[..n][k + 1] == p[k + 1] && chain[..n][k] == chain[k] &&
                      chain[..n][k + 1] == chain[k + 1]; }
      }
    }
    if Connected(calls, items, chain[..n + 1], p) {
      assert EdgeSupported(calls, items, chain[..n + 1][n - 1], chain[..n + 1][n], p[n - 1], p[n]);
      forall k | 0 <= k < n - 1
        ensures EdgeSupported(calls, items, chain[..n][k], chain[..n][k + 1], p[..n][k], p[..n][k + 1]) {
        assert EdgeSupported(calls, items, chain[..n + 1][k], chain[..n + 1][k + 1], p[k], p[k + 1]);
      }
    }
  }

  ghost predicate LexLeast(calls: seq<Call>, items: seq<EvidenceItem>, chain: seq<Name>, idx: Indices) {
    Connected(calls, items, chain, idx) && forall other :: Connected(calls, items, chain, other) ==> LexLeq(idx, other)
  }

  /** Evidence mode returns the lexicographically least evidence-connected list, or None exactly
      when no list is evidence-connected. */
  method AlignByEvidence(calls: seq<Call>, items: seq<EvidenceItem>, chain: seq<Name>)
      returns (aligned: Option<Indices>)
    requires |chain| > 1
    ensures aligned.Some? <==> exists idx :: Connected(calls, items, chain, idx)
    ensures aligned.Some? ==> LexLeast(calls, items, chain, aligned.value)
  {
    hide EdgeSupported, Connected, LexLeq;
    var edges := EdgeCandidates(calls, items, chain[0], chain[1]);
    var paths := seq(|edges|, i requires 0 <= i < |edges| => [edges[i].0, edges[i].1]);
    FirstPaths(calls, items, chain, edges);
    for n := 2 to |chain|
      invariant forall p :: p in paths <==> Connected(calls, items, chain[..n], p)
    {
      ghost var before := paths;
      forall p | p in before ensures |p| == n { ConnectedLength(calls, items, chain[..n], p); }
      var more := EdgeCandidates(calls, items, chain[n - 1], chain[n]);
      paths := GrowPaths(paths, more);
      forall p ensures p in paths <==> Connected(calls, items, chain[..n + 1], p) {
        ConnectedStep(calls, items, chain, n, p);
      }
    }
    assert chain[..|chain|] == chain;
    if paths == [] { return None; }
    var least := LeastPath(paths);
    return Some(least);
  }

  lemma ConnectedLength(calls: seq<Call>, items: seq<EvidenceItem>, chain: seq<Name>, p: Indices)
    requires Connected(calls, items, chain, p)
    ensures |p| == |chain|
  {
    hide EdgeSupported;
  }

  lemma FirstPaths(calls: seq<Call>, items: seq<EvidenceItem>, chain: seq<Name>, edges: seq<(nat, nat)>)
    requires |chain| > 1
    requires forall i: nat, j: nat :: (i, j) in edges <==> EdgeSupported(calls, items, chain[0], chain[1], i, j)
    ensures forall p :: p in seq(|edges|, i requires 0 <= i < |edges| => [edges[i].0, edges[i].1]) <==>
                        Connected(calls, items, chain[..2], p)
  {
    hide EdgeSupported;
    var paths := seq(|edges|, i requires 0 <= i < |edges| => [edges[i].0, edges[i].1]);
    forall p ensures p in paths <==> Connected(calls, items, chain[..2], p) {
      if p in paths {
        var i :| 0 <= i < |paths| && paths[i] == p;
        assert (p[0], p[1]) == edges[i];
      }
      if Connected(calls, items, chain[..2], p) {
        assert EdgeSupported(calls, items, chain[0], chain[1], p[0], p[1]);
        var i :| 0 <= i < |edges| && edges[i] == (p[0], p[1]);
        assert p == [p[0], p[1]] == paths[i];
      }
    }
  }

  /** Evidence never relaxes order or names: an evidence-connected list is an alignment. */
  lemma ConnectedIsAlignment(calls: seq<Call>, items: seq<EvidenceItem>, chain: seq<Name>, idx: Indices)
    requires |chain| > 1 && Connected(calls, items, chain, idx)
    ensures IsAlignment(calls, chain, idx)
  {
    forall k | 0 <= k < |idx| - 1 ensures Adjacent(calls, chain, idx, k) {
      assert EdgeSupported(calls, items, chain[k], chain[k + 1], idx[k], idx[k + 1]);
    }
    AdjacentAscending(calls, chain, idx);
    forall k | 0 <= k < |idx| ensures Matches(calls, idx[k], chain[k]) {
      assert Adjacent(calls, chain, idx, if k < |idx| - 1 then k else k - 1);
    }
  }

  ghost predicate Adjacent(calls: seq<Call>, chain: seq<Name>, idx: Indices, k: int) {
    && |idx| == |chain| && 0 <= k < |idx| - 1
    && idx[k] < idx[k + 1] && Matches(calls, idx[k], chain[k]) && Matches(calls, idx[k + 1], chain[k + 1])
  }

  lemma {:induction false} AdjacentAscending(calls: seq<Call>, chain: seq<Name>, idx: Indices)
    requires |idx| == |chain| && forall k :: 0 <= k < |idx| - 1 ==> Adjacent(calls, chain, idx, k)
    ensures Ascending(idx)
  {
    hide Matches;
    if |idx| > 1 {
      var n := |idx| - 1;
      assert Adjacent(calls, chain, idx, n - 1);
      forall k | 0 <= k < n - 1 ensures Adjacent(calls, chain[..n], idx[..n], k) {
        assert Adjacent(calls, chain, idx, k);
      }
      AdjacentAscending(calls, chain[..n], idx[..n]);
      forall i, j | 0 <= i < j < |idx| ensures idx[i] < idx[j] {
        if i < n - 1 { assert idx[..n][i] < idx[..n][if j < n then j else n - 1]; }
      }
    }
  }

  // ---------------------------------------------------------------- the whole function

  /** `align_sampled_chain`. Evidence counts only for chains of two or more tools. */
  method AlignSampledChain(calls: seq<Call>, sampled: seq<Name>, evidence: Option<Evidence>, preferLatest: bool)
      returns (aligned: Option<Indices>)
    ensures var chain := NonBlank(sampled);
            if chain == [] then aligned == Some([])
            else if evidence.Some? && |chain| > 1 then
              if evidence.value.Undecodable? then aligned == None
              else
                && (aligned.Some? <==> exists idx :: Connected(calls, evidence.value.items, chain, idx))
                && (aligned.Some? ==> LexLeast(calls, evidence.value.items, chain, aligned.value))
            else
              && (aligned.Some? <==> Alignable(calls, chain))
              && (aligned.Some? ==> if preferLatest then Greatest(calls, chain, aligned.value)
                                    else Least(calls, chain, aligned.value))
  {
    hide LexLeast, Connected, Alignable, Least, Greatest;
    var chain := NonBlank(sampled);
    if chain == [] { return Some([]); }
    if evidence.Some? && |chain| > 1 {
      if evidence.value.Undecodable? { return None; }
      aligned := AlignByEvidence(calls, evidence.value.items, chain);
    } else if preferLatest {
      aligned := AlignLatest(calls, chain);
    } else {
      aligned := AlignEarliest(calls, chain);
    }
  }

  // ---------------------------------------------------------------- auxiliary calls

  /** `auxiliary_tool_call_indices`. */
  function Auxiliary(calls: seq<Call>, aligned: Indices, n: nat): Indices
    requires n <= |calls|
  {
    if n == 0 then []
    else Auxiliary(calls, aligned, n - 1) + if calls[n - 1].isToolCall && n - 1 !in aligned then [n - 1] else []
  }

  lemma {:induction false} AuxiliaryIs(calls: seq<Call>, aligned: Indices, n: nat)
    requires n <= |calls|
    ensures forall i: nat :: i in Auxiliary(calls, aligned, n) <==> i < n && calls[i].isToolCall && i !in aligned
    ensures Ascending(Auxiliary(calls, aligned, n))
  {
    if n > 0 {
      AuxiliaryIs(calls, aligned, n - 1);
      var before := Auxiliary(calls, aligned, n - 1);
      assert forall k | 0 <= k < |before| :: before[k] in before;
    }
  }

  /** Aligned and auxiliary positions split the tool calls of the trace between them. */
  lemma AlignedAndAuxiliaryPartition(calls: seq<Call>, chain: seq<Name>, aligned: Indices)
    requires IsAlignment(calls, chain, aligned)
    ensures Elems(aligned) !! Elems(Auxiliary(calls, aligned, |calls|))
    ensures forall i: nat :: i in Elems(aligned) + Elems(Auxiliary(calls, aligned, |calls|)) <==>
              i < |calls| && calls[i].isToolCall
    ensures Ascending(aligned) && Ascending(Auxiliary(calls, aligned, |calls|))
  {
    AuxiliaryIs(calls, aligned, |calls|);
    forall i | i in aligned ensures i < |calls| && calls[i].isToolCall {
      var k :| 0 <= k < |aligned| && aligned[k] == i;
      assert Matches(calls, aligned[k], chain[k]);
    }
  }
}
