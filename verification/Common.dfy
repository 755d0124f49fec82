/**
 Vocabulary shared by every module: options, tool names, ordered pairs of names, and the
 sorted listing of a finite set of either.
 */
module Common {

  datatype Option<+T> = None | Some(value: T)

  /** A tool name is an opaque identifier. The number is its rank in string order. */
  type Tool = nat

  /** An unordered pair of tools is kept as a sorted tuple. */
  type Pair = (Tool, Tool)

  predicate Distinct<T(==)>(s: seq<T>) {
    forall i, j :: 0 <= i < j < |s| ==> s[i] != s[j]
  }

  function Elems<T(==)>(s: seq<T>): set<T> {
    set x | x in s
  }

  lemma {:induction false} NoRepeat<T>(s: seq<T>)
    requires Distinct(s)
    ensures forall x :: multiset(s)[x] <= 1
  {
    if s != [] {
      var k := |s| - 1;
      NoRepeat(s[..k]);
      assert s == s[..k] + [s[k]];
      assert forall i | 0 <= i < k :: s[i] != s[k];
      assert s[k] !in s[..k];
    }
  }

  lemma PrependElems<T>(x: T, s: seq<T>)
    ensures Elems([x] + s) == {x} + Elems(s)
  {
    forall y ensures y in Elems([x] + s) <==> y in {x} + Elems(s) {
      assert y in [x] + s <==> y == x || y in s;
    }
  }

  lemma AppendElems<T>(s: seq<T>, x: T)
    ensures Elems(s + [x]) == Elems(s) + {x}
  {
    forall y ensures y in Elems(s + [x]) <==> y in Elems(s) + {x} {
      assert y in s + [x] <==> y in s || y == x;
    }
  }

  predicate Ascending(s: seq<nat>) {
    forall i, j :: 0 <= i < j < |s| ==> s[i] < s[j]
  }

  predicate PairLess(p: Pair, q: Pair) {
    p.0 < q.0 || (p.0 == q.0 && p.1 < q.1)
  }

  predicate PairsAscending(s: seq<Pair>) {
    forall i, j :: 0 <= i < j < |s| ==> PairLess(s[i], s[j])
  }

  ghost predicate LeastTool(m: Tool, s: set<Tool>) {
    m in s && forall x | x in s :: m <= x
  }

  ghost predicate LeastPair(m: Pair, s: set<Pair>) {
    m in s && forall x | x in s :: x == m || PairLess(m, x)
  }

  lemma {:induction false} HasLeastTool(s: set<Tool>) returns (m: Tool)
    requires s != {}
    ensures LeastTool(m, s)
    decreases |s|
  {
    var x :| x in s;
    var rest := s - {x};
    assert s == {x} + rest;
    m := x;
    if rest != {} {
      var y := HasLeastTool(rest);
      m := if x < y then x else y;
    }
  }

  lemma {:induction false} HasLeastPair(s: set<Pair>) returns (m: Pair)
    requires s != {}
    ensures LeastPair(m, s)
    decreases |s|
  {
    var x :| x in s;
    var rest := s - {x};
    assert s == {x} + rest;
    m := x;
    if rest != {} {
      var y := HasLeastPair(rest);
      m := if PairLess(x, y) then x else y;
    }
  }

  function MinTool(s: set<Tool>): (m: Tool)
    requires s != {}
    ensures LeastTool(m, s)
  {
    assert exists m :: LeastTool(m, s) by { var m := HasLeastTool(s); }
    var m :| m in s && forall x | x in s :: m <= x;
    m
  }

  function MinPair(s: set<Pair>): (m: Pair)
    requires s != {}
    ensures LeastPair(m, s)
  {
    assert exists m :: LeastPair(m, s) by { var m := HasLeastPair(s); }
    var m :| m in s && forall x | x in s :: x == m || PairLess(m, x);
    m
  }

  /** `sorted(s)` for a set of names. */
  function SortedTools(s: set<Tool>): (r: seq<Tool>)
    ensures Ascending(r) && Elems(r) == s
    decreases |s|
  {
    if s == {} then [] else
      var m := MinTool(s);
      var rest := SortedTools(s - {m});
      SortedToolsStep(m, rest, s);
      [m] + rest
  }

  lemma SortedToolsStep(m: Tool, rest: seq<Tool>, s: set<Tool>)
    requires LeastTool(m, s) && Ascending(rest) && Elems(rest) == s - {m}
    ensures Ascending([m] + rest) && Elems([m] + rest) == s
  {
    PrependElems(m, rest);
    assert forall i | 0 <= i < |rest| :: rest[i] in Elems(rest);
  }

  /** `sorted(s)` for a set of pairs, in tuple order. */
  function SortedPairs(s: set<Pair>): (r: seq<Pair>)
    ensures PairsAscending(r) && Elems(r) == s
    decreases |s|
  {
    if s == {} then [] else
      var m := MinPair(s);
      var rest := SortedPairs(s - {m});
      SortedPairsStep(m, rest, s);
      [m] + rest
  }

  lemma SortedPairsStep(m: Pair, rest: seq<Pair>, s: set<Pair>)
    requires LeastPair(m, s) && PairsAscending(rest) && Elems(rest) == s - {m}
    ensures PairsAscending([m] + rest) && Elems([m] + rest) == s
  {
    PrependElems(m, rest);
    assert forall i | 0 <= i < |rest| :: rest[i] in Elems(rest);
  }

  /** A strictly ascending listing is determined by its elements. */
  lemma {:induction false} AscendingUnique(a: seq<Tool>, b: seq<Tool>)
    requires Ascending(a) && Ascending(b) && Elems(a) == Elems(b)
    ensures a == b
  {
    if b != [] { assert b[0] in Elems(b); }
    if a != [] {
      assert a[0] in Elems(a);
      assert a[0] == b[0];
      forall x ensures x in a[1..] <==> x in b[1..] {
        assert x in a[1..] <==> x in Elems(a) && x != a[0];
        assert x in b[1..] <==> x in Elems(b) && x != b[0];
      }
      AscendingUnique(a[1..], b[1..]);
      assert a == [a[0]] + a[1..] && b == [b[0]] + b[1..];
    }
  }

  lemma {:induction false} PairsAscendingUnique(a: seq<Pair>, b: seq<Pair>)
    requires PairsAscending(a) && PairsAscending(b) && Elems(a) == Elems(b)
    ensures a == b
  {
    if b != [] { assert b[0] in Elems(b); }
    if a != [] {
      assert a[0] in Elems(a);
      assert a[0] == b[0];
      forall x ensures x in a[1..] <==> x in b[1..] {
        assert x in a[1..] <==> x in Elems(a) && x != a[0];
        assert x in b[1..] <==> x in Elems(b) && x != b[0];
      }
      PairsAscendingUnique(a[1..], b[1..]);
      assert a == [a[0]] + a[1..] && b == [b[0]] + b[1..];
    }
  }
}
