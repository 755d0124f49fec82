/**
 Greedy Jaccard deduplication of tasks (src/live_mcp/dedup.py) and the count of sequences it would
 keep (src/live_mcp/domain_allocation.py:18-44). Similarities are exact quotients.
 */
module Dedup {
  import opened Common

  type Name = string

  datatype Call = ToolCall(tool: Name) | OtherAction
  datatype Task = Task(id: nat, calls: seq<Call>)

  /** Names of the tool calls, in order and with repetitions. */
  function CallSequence(calls: seq<Call>): seq<Name> {
    if calls == [] then []
    else
      var k := |calls| - 1;
      CallSequence(calls[..k]) + if calls[k].ToolCall? then [calls[k].tool] else []
  }

  method BuildCallSequence(calls: seq<Call>) returns (names: seq<Name>)
    ensures names == CallSequence(calls)
  {
    names := [];
    for i := 0 to |calls|
      invariant names == CallSequence(calls[..i])
    {
      assert calls[..i + 1][..i] == calls[..i];
      if calls[i].ToolCall? { names := names + [calls[i].tool]; }
    }
    assert calls[..|calls|] == calls;
  }

  function NameSet(names: seq<Name>): set<Name> {
    Elems(names)
  }

  function Signature(task: Task): set<Name> {
    NameSet(CallSequence(task.calls))
  }

  function Named(names: set<Name>): set<Name> {
    names - {""}
  }

  function Jaccard(a: set<Name>, b: set<Name>): (r: real)
    ensures 0.0 <= r <= 1.0
    ensures r == 1.0 <==> a == b && a != {}
    ensures r == 0.0 <==> a * b == {}
  {
    if a == {} || b == {} then 0.0
    else
      Sizes(a, b);
      Quotient(|a * b|, |a + b|);
      |a * b| as real / |a + b| as real
  }

  lemma Quotient(a: nat, b: nat)
    requires a <= b && b > 0
    ensures 0.0 <= a as real / b as real <= 1.0
    ensures a as real / b as real == 1.0 <==> a == b
    ensures a as real / b as real == 0.0 <==> a == 0
  {
    var q := a as real / b as real;
    assert q * b as real == a as real;
  }

  lemma Sizes(a: set<Name>, b: set<Name>)
    requires a != {} && b != {}
    ensures |a * b| <= |a + b| && |a + b| > 0
    ensures |a * b| == |a + b| <==> a == b
  {
    SubsetSize(a * b, a);
    SubsetSize(a * b, b);
    SubsetSize(a, a + b);
    SubsetSize(b, a + b);
    SubsetSize({}, a + b);
    if a == b { assert a * b == a && a + b == a; }
  }

  lemma {:induction false} SubsetSize(a: set<Name>, b: set<Name>)
    requires a <= b
    ensures |a| <= |b|
    ensures |a| == |b| <==> a == b
    decreases |a|
  {
    if x :| x in a {
      SubsetSize(a - {x}, b - {x});
      assert a == (a - {x}) + {x} && b == (b - {x}) + {x};
    } else if y :| y in b {
      assert |b| > 0;
    }
  }

  lemma JaccardSymmetric(a: set<Name>, b: set<Name>)
    ensures Jaccard(a, b) == Jaccard(b, a)
  {
    assert a * b == b * a && a + b == b + a;
  }

  /** The similarity of two sets that share z and have x and y to themselves is the part of z in all three. */
  lemma JaccardOfParts(x: set<Name>, y: set<Name>, z: set<Name>)
    requires x !! y && x !! z && y !! z
    ensures z == {} ==> Jaccard(x + z, y + z) == 0.0
    ensures z != {} ==> Jaccard(x + z, y + z) * (|x| + |y| + |z|) as real == |z| as real
  {
    assert (x + z) * (y + z) == z;
    if z != {} {
      assert (x + z) + (y + z) == x + y + z;
      assert |x + y + z| == |x| + |y| + |z| by { assert |x + y| == |x| + |y| && (x + y) !! z; }
      assert x + z != {} && y + z != {};
      var n := |x| + |y| + |z|;
      SubsetSize({}, z);
      assert n > 0;
      RealQuotient(|z|, n);
    }
  }

  lemma RealQuotient(a: nat, n: nat)
    requires n > 0
    ensures (a as real / n as real) * n as real == a as real
  {
  }

  /** The sequence lists the tools of the tool calls, in order: call by call. */
  lemma {:induction false} CallSequenceConcat(a: seq<Call>, b: seq<Call>)
    ensures CallSequence(a + b) == CallSequence(a) + CallSequence(b)
  {
    if b == [] {
      assert a + b == a;
    } else {
      assert (a + b)[..|a + b| - 1] == a + b[..|b| - 1];
      CallSequenceConcat(a, b[..|b| - 1]);
    }
  }

  lemma CallSequenceOfOne(c: Call)
    ensures CallSequence([c]) == (if c.ToolCall? then [c.tool] else []) && CallSequence([]) == []
  {
    assert [c][..0] == [];
  }

  predicate Near<T>(kept: seq<T>, names: T -> set<Name>, item: T, threshold: real) {
    exists k :: 0 <= k < |kept| && Jaccard(names(item), names(kept[k])) >= threshold
  }

  /** First come, first kept: an item is dropped when it is near one kept before it. */
  function Greedy<T>(items: seq<T>, names: T -> set<Name>, threshold: real): seq<T> {
    if items == [] then []
    else
      var k := |items| - 1;
      var kept := Greedy(items[..k], names, threshold);
      if Near(kept, names, items[k], threshold) then kept else kept + [items[k]]
  }

  method DedupTasks(tasks: seq<Task>, threshold: real) returns (kept: seq<Task>)
    ensures kept == Greedy(tasks, Signature, threshold)
  {
    hide Jaccard, Signature;
    kept := [];
    for i := 0 to |tasks|
      invariant kept == Greedy(tasks[..i], Signature, threshold)
    {
      assert tasks[..i + 1][..i] == tasks[..i];
      var duplicate := false;
      for k := 0 to |kept|
        invariant !duplicate
        invariant forall j :: 0 <= j < k ==> Jaccard(Signature(tasks[i]), Signature(kept[j])) < threshold
      {
        if Jaccard(Signature(tasks[i]), Signature(kept[k])) >= threshold {
          duplicate := true;
          break;
        }
      }
      if !duplicate { kept := kept + [tasks[i]]; }
    }
    assert tasks[..|tasks|] == tasks;
  }

  function WithoutBlanks(names: seq<Name>): seq<Name> {
    if names == [] then []
    else
      var k := |names| - 1;
      WithoutBlanks(names[..k]) + if names[k] != "" then [names[k]] else []
  }

  lemma {:induction false} WithoutBlanksNames(names: seq<Name>)
    ensures NameSet(WithoutBlanks(names)) == Named(NameSet(names))
  {
    if names != [] {
      var k := |names| - 1;
      WithoutBlanksNames(names[..k]);
      assert names == names[..k] + [names[k]];
      AppendElems(names[..k], names[k]);
      if names[k] != "" {
        AppendElems(WithoutBlanks(names[..k]), names[k]);
      } else {
        assert WithoutBlanks(names) == WithoutBlanks(names[..k]);
      }
    }
  }

  /** The sequences that name some tool, blanks removed. */
  function NamedSequences(sequences: seq<seq<Name>>): seq<seq<Name>> {
    if sequences == [] then []
    else
      var k := |sequences| - 1;
      var s := WithoutBlanks(sequences[k]);
      NamedSequences(sequences[..k]) + if s != [] then [s] else []
  }

  method UniqueSequenceCount(sequences: seq<seq<Name>>, threshold: real) returns (n: nat)
    ensures n == |Greedy(NamedSequences(sequences), NameSet, threshold)|
  {
    hide Jaccard, WithoutBlanks;
    var kept: seq<seq<Name>> := [];
    for i := 0 to |sequences|
      invariant kept == Greedy(NamedSequences(sequences[..i]), NameSet, threshold)
    {
      assert sequences[..i + 1][..i] == sequences[..i];
      var sequence := WithoutBlanks(sequences[i]);
      ghost var before := NamedSequences(sequences[..i]);
      if sequence == [] {
        assert NamedSequences(sequences[..i + 1]) == before;
        continue;
      }
      assert (before + [sequence])[..|before|] == before;
      if !Near(kept, NameSet, sequence, threshold) { kept := kept + [sequence]; }
    }
    assert sequences[..|sequences|] == sequences;
    n := |kept|;
  }

  // ---------------------------------------------------------------- what is kept

  predicate Indices(ix: seq<nat>, n: nat) {
    Ascending(ix) && forall j :: 0 <= j < |ix| ==> ix[j] < n
  }

  function Select<T>(items: seq<T>, ix: seq<nat>): (r: seq<T>)
    requires Indices(ix, |items|)
    ensures |r| == |ix|
  {
    seq(|ix|, j requires 0 <= j < |ix| => items[ix[j]])
  }

  /** Positions of a good selection: no two kept items near each other, and every dropped item near
      one kept before it. */
  ghost predicate IsChoice<T>(items: seq<T>, names: T -> set<Name>, threshold: real, ix: seq<nat>) {
    && Indices(ix, |items|)
    && (forall i: nat :: i < |items| ==> (i in ix <==> !NearEarlier(items, names, threshold, ix, i)))
  }

  ghost predicate NearEarlier<T>(items: seq<T>, names: T -> set<Name>, threshold: real, ix: seq<nat>, i: nat)
    requires i < |items|
  {
    exists j: nat :: j in ix && j < i && Jaccard(names(items[i]), names(items[j])) >= threshold
  }

  lemma {:induction false} GreedyIsChoice<T>(items: seq<T>, names: T -> set<Name>, threshold: real)
      returns (ix: seq<nat>)
    ensures IsChoice(items, names, threshold, ix) && Greedy(items, names, threshold) == Select(items, ix)
  {
    hide Jaccard, Near, NearEarlier;
    ix := [];
    if items != [] {
      var k := |items| - 1;
      var before := GreedyIsChoice(items[..k], names, threshold);
      NearIsNearEarlier(items, names, threshold, before);
      if NearEarlier(items, names, threshold, before, k) {
        ix := before;
      } else {
        ix := before + [k];
      }
      ChoiceGrows(items, names, threshold, before, ix);
      SelectGrows(items, before);
    }
  }

  lemma SelectGrows<T>(items: seq<T>, ix: seq<nat>)
    requires items != [] && Indices(ix, |items| - 1)
    ensures Select(items, ix) == Select(items[..|items| - 1], ix)
    ensures Indices(ix + [|items| - 1], |items|)
    ensures Select(items, ix + [|items| - 1]) == Select(items, ix) + [items[|items| - 1]]
  {
  }

  lemma NearIsNearEarlier<T>(items: seq<T>, names: T -> set<Name>, threshold: real, ix: seq<nat>)
    requires items != [] && Indices(ix, |items| - 1)
    ensures var k := |items| - 1;
            Near(Select(items[..k], ix), names, items[k], threshold) <==> NearEarlier(items, names, threshold, ix, k)
  {
    hide Jaccard;
    var k := |items| - 1;
    var kept := Select(items[..k], ix);
    if Near(kept, names, items[k], threshold) {
      var j :| 0 <= j < |kept| && Jaccard(names(items[k]), names(kept[j])) >= threshold;
      assert ix[j] in ix && kept[j] == items[ix[j]];
    }
    if NearEarlier(items, names, threshold, ix, k) {
      var j: nat :| j in ix && j < k && Jaccard(names(items[k]), names(items[j])) >= threshold;
      var m :| 0 <= m < |ix| && ix[m] == j;
      assert kept[m] == items[j];
    }
  }

  lemma ChoiceGrows<T>(items: seq<T>, names: T -> set<Name>, threshold: real, before: seq<nat>, ix: seq<nat>)
    requires items != [] && IsChoice(items[..|items| - 1], names, threshold, before)
    requires ix == if NearEarlier(items, names, threshold, before, |items| - 1) then before else before + [|items| - 1]
    ensures IsChoice(items, names, threshold, ix)
  {
    hide Jaccard;
    var k := |items| - 1;
    forall i: nat | i < |items| ensures i in ix <==> !NearEarlier(items, names, threshold, ix, i) {
      assert forall j: nat :: j < i ==> (j in ix <==> j in before);
      if i < k {
        assert i in ix <==> i in before;
        assert NearEarlier(items[..k], names, threshold, before, i) <==> NearEarlier(items, names, threshold, ix, i);
      } else {
        assert i == k && k !in before;
        assert NearEarlier(items, names, threshold, before, k) <==> NearEarlier(items, names, threshold, ix, k);
      }
    }
  }

  lemma {:induction false} SameChoiceAt<T>(items: seq<T>, names: T -> set<Name>, threshold: real, a: seq<nat>,
                                           b: seq<nat>, i: nat)
    requires IsChoice(items, names, threshold, a) && IsChoice(items, names, threshold, b) && i < |items|
    ensures i in a <==> i in b
    decreases i
  {
    hide Jaccard;
    forall j: nat | j < i ensures j in a <==> j in b { SameChoiceAt(items, names, threshold, a, b, j); }
    assert NearEarlier(items, names, threshold, a, i) <==> NearEarlier(items, names, threshold, b, i);
  }

  /** A list is the result exactly when it is the selection, in order, of a good choice of positions. */
  lemma GreedyExactly<T>(items: seq<T>, names: T -> set<Name>, threshold: real, kept: seq<T>)
    ensures kept == Greedy(items, names, threshold)
            <==> exists ix: seq<nat> :: IsChoice(items, names, threshold, ix) && kept == Select(items, ix)
  {
    hide Greedy, NearEarlier;
    var a := GreedyIsChoice(items, names, threshold);
    forall b: seq<nat> | IsChoice(items, names, threshold, b) ensures b == a {
      forall i ensures i in Elems(a) <==> i in Elems(b) {
        if i in Elems(a) || i in Elems(b) {
          SameChoiceAt(items, names, threshold, a, b, i);
        }
      }
      AscendingUnique(a, b);
    }
  }

  ghost predicate FarApart<T>(items: seq<T>, names: T -> set<Name>, threshold: real) {
    forall i, j :: 0 <= i < j < |items| ==> Jaccard(names(items[j]), names(items[i])) < threshold
  }

  /** No two kept items are near each other. */
  lemma {:induction false} KeptAreFarApart<T>(items: seq<T>, names: T -> set<Name>, threshold: real)
    ensures FarApart(Greedy(items, names, threshold), names, threshold)
  {
    hide Jaccard, Greedy;
    var ix := GreedyIsChoice(items, names, threshold);
    var kept := Greedy(items, names, threshold);
    forall i, j | 0 <= i < j < |kept| ensures Jaccard(names(kept[j]), names(kept[i])) < threshold {
      assert ix[i] in ix && ix[j] in ix;
      assert !NearEarlier(items, names, threshold, ix, ix[j]);
    }
  }

  lemma NextKept<T>(items: seq<T>, names: T -> set<Name>, threshold: real)
    requires items != []
    ensures var k := |items| - 1;
            var kept := Greedy(items[..k], names, threshold);
            Greedy(items, names, threshold) == if Near(kept, names, items[k], threshold) then kept
            else kept + [items[k]]
  {
    hide Near;
  }

  lemma NothingKept<T>(names: T -> set<Name>, threshold: real)
    ensures Greedy([], names, threshold) == []
  {
  }

  lemma {:induction false} FarApartAllKept<T>(items: seq<T>, names: T -> set<Name>, threshold: real)
    requires FarApart(items, names, threshold)
    ensures Greedy(items, names, threshold) == items
  {
    hide Jaccard, Greedy;
    if items == [] {
      NothingKept(names, threshold);
    } else {
      var k := |items| - 1;
      FarApartAllKept(items[..k], names, threshold);
      NextKept(items, names, threshold);
      assert !Near(items[..k], names, items[k], threshold);
      assert items == items[..k] + [items[k]];
    }
  }

  /** Deduplicating twice changes nothing. */
  lemma {:induction false} DedupIdempotent<T>(items: seq<T>, names: T -> set<Name>, threshold: real)
    ensures Greedy(Greedy(items, names, threshold), names, threshold) == Greedy(items, names, threshold)
  {
    KeptAreFarApart(items, names, threshold);
    FarApartAllKept(Greedy(items, names, threshold), names, threshold);
  }

  // ---------------------------------------------------------------- counting without the tasks

  function Sequences(tasks: seq<Task>): seq<seq<Name>> {
    if tasks == [] then [] else Sequences(tasks[..|tasks| - 1]) + [CallSequence(tasks[|tasks| - 1].calls)]
  }

  /** Tasks without tool calls. */
  function Silent(tasks: seq<Task>): nat {
    if tasks == [] then 0
    else
      var k := |tasks| - 1;
      Silent(tasks[..k]) + if CallSequence(tasks[k].calls) == [] then 1 else 0
  }

  /** Kept tasks are the kept sequences and the tasks without tool calls. */
  ghost predicate CountsAgree(tasks: seq<Task>, threshold: real) {
    |Greedy(tasks, Signature, threshold)|
    == |Greedy(NamedSequences(Sequences(tasks)), NameSet, threshold)| + Silent(tasks)
  }

  /** A blank name in both signatures or in one changes their similarity unless they are equal, or have
      nothing in common. */
  ghost predicate PairHarmless(a: set<Name>, b: set<Name>) {
    && ("" in a && "" in b ==> a == b)
    && ("" in a && "" !in b ==> a !! b)
  }

  ghost predicate BlanksHarmless(pool: set<Task>) {
    && (forall a :: a in pool ==> Signature(a) != {""})
    && (forall a, b :: a in pool && b in pool ==> PairHarmless(Signature(a), Signature(b)))
  }

  lemma SilentSignature(task: Task)
    ensures CallSequence(task.calls) == [] <==> Signature(task) == {}
  {
    var s := CallSequence(task.calls);
    if s != [] { assert s[0] in Signature(task); }
  }

  lemma NamedSignature(task: Task)
    ensures NameSet(WithoutBlanks(CallSequence(task.calls))) == Named(Signature(task))
    ensures WithoutBlanks(CallSequence(task.calls)) == [] <==> Named(Signature(task)) == {}
  {
    var s := WithoutBlanks(CallSequence(task.calls));
    WithoutBlanksNames(CallSequence(task.calls));
    if s != [] { assert s[0] in NameSet(s); }
  }

  lemma CrossQuotients(a: nat, b: nat, c: nat, d: nat)
    requires b > 0 && d > 0
    ensures a as real / b as real == c as real / d as real <==> a * d == c * b
  {
    var p, q := a as real / b as real, c as real / d as real;
    assert p * b as real == a as real && q * d as real == c as real;
    assert (a * d) as real == p * (b as real * d as real);
    assert (c * b) as real == q * (b as real * d as real);
    assert b as real * d as real > 0.0;
  }

  lemma BothBlank(a: set<Name>, b: set<Name>)
    requires "" in a && "" in b && Named(a) != {} && Named(b) != {}
    ensures Jaccard(a, b) == Jaccard(Named(a), Named(b)) <==> a == b
  {
    var x, y := Named(a), Named(b);
    assert a * b == x * y + {""} && a + b == (x + y) + {""};
    Sizes(x, y);
    var i, u := |x * y|, |x + y|;
    CrossQuotients(i + 1, u + 1, i, u);
    assert (i + 1) * u == i * (u + 1) <==> i == u;
    assert x == y <==> a == b by { assert a == x + {""} && b == y + {""}; }
  }

  lemma OneBlank(a: set<Name>, b: set<Name>)
    requires "" in a && "" !in b && Named(a) != {}
    ensures Jaccard(a, b) == Jaccard(Named(a), Named(b)) <==> a !! b
  {
    var x := Named(a);
    assert Named(b) == b;
    if b != {} {
      assert a * b == x * b && a + b == (x + b) + {""};
      Sizes(x, b);
      var i, u := |x * b|, |x + b|;
      CrossQuotients(i, u + 1, i, u);
      assert i * u == i * (u + 1) <==> i == 0;
      assert a !! b <==> a * b == {};
    }
  }

  /** Removing blanks leaves the similarity of two signatures alone exactly when the pair is harmless. */
  lemma PairExactly(a: set<Name>, b: set<Name>)
    requires a != {""} && b != {""}
    ensures Jaccard(a, b) == Jaccard(Named(a), Named(b)) <==> PairHarmless(a, b) && PairHarmless(b, a)
  {
    hide Jaccard;
    if "" in a { assert a == Named(a) + {""}; } else { assert Named(a) == a; }
    if "" in b { assert b == Named(b) + {""}; } else { assert Named(b) == b; }
    JaccardSymmetric(a, b);
    JaccardSymmetric(Named(a), Named(b));
    if "" in a && "" in b { BothBlank(a, b); }
    else if "" in a { OneBlank(a, b); }
    else if "" in b { OneBlank(b, a); }
  }

  /** The signatures of kept tasks that name a tool, blanks removed. */
  function KeptNames(kept: seq<Task>): seq<set<Name>> {
    if kept == [] then []
    else
      var k := |kept| - 1;
      KeptNames(kept[..k]) + if Signature(kept[k]) != {} then [Named(Signature(kept[k]))] else []
  }

  function SetsOf(sequences: seq<seq<Name>>): seq<set<Name>> {
    seq(|sequences|, i requires 0 <= i < |sequences| => NameSet(sequences[i]))
  }

  ghost predicate NearSet(sets: seq<set<Name>>, names: set<Name>, threshold: real) {
    exists x :: x in sets && Jaccard(names, x) >= threshold
  }

  lemma {:induction false} NearKept(kept: seq<Task>, task: Task, threshold: real, pool: set<Task>)
    requires threshold > 0.0 && BlanksHarmless(pool) && task in pool && forall d :: d in kept ==> d in pool
    ensures Near(kept, Signature, task, threshold) <==> NearSet(KeptNames(kept), Named(Signature(task)), threshold)
  {
    hide Jaccard, Signature, Named, PairHarmless;
    if kept != [] {
      var k := |kept| - 1;
      NearKept(kept[..k], task, threshold, pool);
      var a, b := Signature(task), Signature(kept[k]);
      assert kept[k] in kept;
      PairExactly(a, b);
      NearOneMore(kept, task, threshold);
      assert forall x :: x in KeptNames(kept) <==> x in KeptNames(kept[..k]) || (b != {} && x == Named(b));
    }
  }

  lemma NearOneMore(kept: seq<Task>, task: Task, threshold: real)
    requires kept != [] && threshold > 0.0
    ensures var k := |kept| - 1;
            Near(kept, Signature, task, threshold)
            <==> Near(kept[..k], Signature, task, threshold)
                 || (Signature(kept[k]) != {} && Jaccard(Signature(task), Signature(kept[k])) >= threshold)
  {
    var k := |kept| - 1;
    if Signature(kept[k]) == {} { assert Jaccard(Signature(task), {}) == 0.0; }
    hide Jaccard, Signature;
    if Near(kept[..k], Signature, task, threshold) {
      var j :| 0 <= j < k && Jaccard(Signature(task), Signature(kept[..k][j])) >= threshold;
      assert kept[j] == kept[..k][j];
    }
  }

  lemma NearSequences(kept: seq<seq<Name>>, s: seq<Name>, threshold: real)
    ensures Near(kept, NameSet, s, threshold) <==> NearSet(SetsOf(kept), NameSet(s), threshold)
  {
    hide Jaccard, NameSet;
    if Near(kept, NameSet, s, threshold) {
      var j :| 0 <= j < |kept| && Jaccard(NameSet(s), NameSet(kept[j])) >= threshold;
      assert SetsOf(kept)[j] == NameSet(kept[j]);
    }
  }

  ghost predicate From(tasks: seq<Task>, pool: set<Task>) {
    forall i :: 0 <= i < |tasks| ==> tasks[i] in pool
  }

  /** The two greedy passes keep the same names, and every task without tool calls. */
  lemma {:induction false} PassesAgree(tasks: seq<Task>, threshold: real, pool: set<Task>)
    requires threshold > 0.0 && BlanksHarmless(pool) && From(tasks, pool)
    ensures var kept := Greedy(tasks, Signature, threshold);
            && From(kept, pool)
            && SetsOf(Greedy(NamedSequences(Sequences(tasks)), NameSet, threshold)) == KeptNames(kept)
            && Silent(kept) == Silent(tasks)
  {
    hide *;
    EmptyPasses(threshold);
    if tasks == [] {
      assert tasks == [];
    } else {
      var k := |tasks| - 1;
      FromParts(tasks, pool);
      PassesAgree(tasks[..k], threshold, pool);
      var kept := Greedy(tasks[..k], Signature, threshold);
      var unique := Greedy(NamedSequences(Sequences(tasks[..k])), NameSet, threshold);
      NextSequence(tasks, threshold);
      NextKept(tasks, Signature, threshold);
      NextSilent(tasks);
      PassStep(kept, unique, tasks[k], threshold, pool);
    }
  }

  lemma EmptyPasses(threshold: real)
    ensures Greedy([], Signature, threshold) == []
    ensures SetsOf(Greedy(NamedSequences(Sequences([])), NameSet, threshold)) == KeptNames([]) == []
    ensures Silent([]) == 0
    ensures forall pool :: From([], pool)
  {
  }

  lemma FromParts(tasks: seq<Task>, pool: set<Task>)
    requires tasks != [] && From(tasks, pool)
    ensures From(tasks[..|tasks| - 1], pool) && tasks[|tasks| - 1] in pool
  {
  }

  /** One task taken by both passes. */
  lemma PassStep(kept: seq<Task>, unique: seq<seq<Name>>, task: Task, threshold: real, pool: set<Task>)
    requires threshold > 0.0 && BlanksHarmless(pool) && From(kept, pool) && task in pool
    requires SetsOf(unique) == KeptNames(kept)
    ensures var s := WithoutBlanks(CallSequence(task.calls));
            var kept' := if Near(kept, Signature, task, threshold) then kept else kept + [task];
            var unique' := if s == [] || Near(unique, NameSet, s, threshold) then unique else unique + [s];
            && From(kept', pool)
            && SetsOf(unique') == KeptNames(kept')
            && Silent(kept') == Silent(kept) + if CallSequence(task.calls) == [] then 1 else 0
  {
    hide Jaccard, Near, NearSet, Signature, NameSet, Named, BlanksHarmless, Silent, KeptNames, CallSequence,
      WithoutBlanks;
    var s := WithoutBlanks(CallSequence(task.calls));
    NearKept(kept, task, threshold, pool);
    NamedSignature(task);
    SilentSignature(task);
    NearSequences(unique, s, threshold);
    KeptOneMore(kept, task);
    NextSilent(kept + [task]);
    assert (kept + [task])[..|kept|] == kept;
    assert SetsOf(unique + [s]) == SetsOf(unique) + [NameSet(s)];
    HarmlessNames(task, pool);
    if Signature(task) == {} { SilentFarFromAll(kept, task, threshold); }
  }

  lemma NamedEmpty(a: set<Name>)
    ensures Named(a) == {} <==> a == {} || a == {""}
  {
    assert Named(a) == {} ==> a <= {""};
  }

  lemma HarmlessNames(task: Task, pool: set<Task>)
    requires BlanksHarmless(pool) && task in pool
    ensures Signature(task) == {} <==> Named(Signature(task)) == {}
  {
    hide Signature, Named;
    NamedEmpty(Signature(task));
  }

  lemma SilentFarFromAll(kept: seq<Task>, task: Task, threshold: real)
    requires threshold > 0.0 && Signature(task) == {}
    ensures !Near(kept, Signature, task, threshold)
  {
  }

  lemma NextSilent(tasks: seq<Task>)
    requires tasks != []
    ensures var k := |tasks| - 1;
            Silent(tasks) == Silent(tasks[..k]) + if CallSequence(tasks[k].calls) == [] then 1 else 0
  {
  }

  lemma KeptOneMore(kept: seq<Task>, task: Task)
    ensures KeptNames(kept + [task]) == KeptNames(kept) + if Signature(task) != {} then [Named(Signature(task))] else []
  {
    assert (kept + [task])[..|kept|] == kept;
  }

  lemma NextSequence(tasks: seq<Task>, threshold: real)
    requires tasks != []
    ensures var k := |tasks| - 1;
            var s := WithoutBlanks(CallSequence(tasks[k].calls));
            var unique := Greedy(NamedSequences(Sequences(tasks[..k])), NameSet, threshold);
            Greedy(NamedSequences(Sequences(tasks)), NameSet, threshold)
            == if s == [] || Near(unique, NameSet, s, threshold) then unique else unique + [s]
  {
    hide Jaccard, Near, WithoutBlanks, NameSet;
    var k := |tasks| - 1;
    var all, before := Sequences(tasks), Sequences(tasks[..k]);
    assert all[..|all| - 1] == before;
    var s := WithoutBlanks(CallSequence(tasks[k].calls));
    var named := NamedSequences(before);
    if s == [] {
      assert NamedSequences(all) == named;
    } else {
      assert NamedSequences(all) == named + [s];
      assert (named + [s])[..|named|] == named;
    }
  }

  lemma {:induction false} KeptNamesSize(kept: seq<Task>)
    ensures |KeptNames(kept)| + Silent(kept) == |kept|
  {
    if kept != [] {
      KeptNamesSize(kept[..|kept| - 1]);
      SilentSignature(kept[|kept| - 1]);
    }
  }

  lemma CountsAgreeWhenHarmless(tasks: seq<Task>, threshold: real, pool: set<Task>)
    requires threshold > 0.0 && BlanksHarmless(pool) && From(tasks, pool)
    ensures CountsAgree(tasks, threshold)
  {
    hide Greedy, Silent, KeptNames, BlanksHarmless;
    PassesAgree(tasks, threshold, pool);
    KeptNamesSize(Greedy(tasks, Signature, threshold));
  }

  lemma One<T>(x: T, names: T -> set<Name>, threshold: real)
    ensures Greedy([x], names, threshold) == [x]
  {
    assert [x][..0] == [];
    assert !Near([], names, x, threshold);
  }

  lemma Two<T>(x: T, y: T, names: T -> set<Name>, threshold: real)
    ensures Greedy([x, y], names, threshold) == if Jaccard(names(y), names(x)) >= threshold then [x] else [x, y]
  {
    hide Jaccard;
    One(x, names, threshold);
    assert [x, y][..1] == [x];
    assert [x][0] == x;
  }

  lemma SequencesOfOne(x: Task)
    ensures Sequences([x]) == [CallSequence(x.calls)]
    ensures Silent([x]) == if CallSequence(x.calls) == [] then 1 else 0
    ensures NamedSequences(Sequences([x])) == if Named(Signature(x)) == {} then []
            else [WithoutBlanks(CallSequence(x.calls))]
  {
    assert [x][..0] == [];
    NamedSignature(x);
    var s := CallSequence(x.calls);
    assert [s][..0] == [];
  }

  lemma SequencesOfTwo(x: Task, y: Task)
    requires Named(Signature(x)) != {} && Named(Signature(y)) != {}
    ensures Silent([x, y]) == 0
    ensures NamedSequences(Sequences([x, y]))
            == [WithoutBlanks(CallSequence(x.calls)), WithoutBlanks(CallSequence(y.calls))]
  {
    hide Signature;
    SequencesOfOne(x);
    SilentSignature(x);
    SilentSignature(y);
    NamedSignature(y);
    assert [x, y][..1] == [x];
    var s, t := CallSequence(x.calls), CallSequence(y.calls);
    assert [s, t][..1] == [s];
  }

  /** A task whose only tool name is blank is kept, but its sequence is not counted. */
  lemma BlankTaskDisagrees(x: Task)
    requires Signature(x) == {""}
    ensures !CountsAgree([x], 1.0)
  {
    hide CallSequence;
    One(x, Signature, 1.0);
    SequencesOfOne(x);
    SilentSignature(x);
    assert Named(Signature(x)) == {};
  }

  /** Two tasks whose similarity depends on the blank disagree at a threshold between. */
  lemma BlankPairDisagrees(x: Task, y: Task) returns (threshold: real)
    requires Signature(x) != {""} && Signature(y) != {""} && !PairHarmless(Signature(x), Signature(y))
    ensures threshold > 0.0 && !CountsAgree([x, y], threshold)
  {
    hide Jaccard, Signature;
    var a, b := Signature(x), Signature(y);
    PairExactly(a, b);
    JaccardSymmetric(a, b);
    JaccardSymmetric(Named(a), Named(b));
    var p, q := Jaccard(a, b), Jaccard(Named(a), Named(b));
    threshold := if p < q then q else p;
    SequencesOfTwo(x, y);
    Two(x, y, Signature, threshold);
    NamedSignature(x);
    NamedSignature(y);
    Two(WithoutBlanks(CallSequence(x.calls)), WithoutBlanks(CallSequence(y.calls)), NameSet, threshold);
  }

  /** For every list of tasks from a pool and every positive threshold, deduplication keeps as many
      tasks as the sequence count plus the tasks without tool calls, exactly when blank tool names are
      harmless in the pool. */
  lemma CountsAgreeExactly(pool: set<Task>)
    ensures (forall tasks, threshold :: From(tasks, pool) && threshold > 0.0 ==> CountsAgree(tasks, threshold))
            <==> BlanksHarmless(pool)
  {
    hide CountsAgree, PairHarmless, Signature;
    if BlanksHarmless(pool) {
      forall tasks, threshold | From(tasks, pool) && threshold > 0.0 ensures CountsAgree(tasks, threshold) {
        CountsAgreeWhenHarmless(tasks, threshold, pool);
      }
    } else if x :| x in pool && Signature(x) == {""} {
      BlankTaskDisagrees(x);
      assert From([x], pool);
    } else {
      var x, y :| x in pool && y in pool && !PairHarmless(Signature(x), Signature(y));
      var threshold := BlankPairDisagrees(x, y);
      assert From([x, y], pool);
    }
  }

  /** In particular when no tool call has a blank name. */
  lemma {:induction false} NoBlanksNoHarm(pool: set<Task>)
    requires forall x :: x in pool ==> "" !in CallSequence(x.calls)
    ensures BlanksHarmless(pool)
  {
    forall x | x in pool ensures "" !in Signature(x) {
    }
  }
}
