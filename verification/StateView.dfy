/**
 The round-robin choice of entities for a compact state view (src/live_mcp/planner_format.py:94-115):
 one entity of each type per round, types and identifiers in order, up to a limit.
 */
module StateView {
  import opened Common

  /** Type names and identifiers are opaque; the number is the rank in string order. */
  type TypeName = nat
  type Id = nat

  datatype Collection = Entities(byId: map<Id, nat>) | OtherValue
  datatype Group = Group(kind: TypeName, ids: seq<Id>)
  datatype Entry = Entry(kind: TypeName, id: Id)

  /** The non-empty entity collections, sorted by type, each sorted by identifier. */
  function GroupsOf(kinds: seq<TypeName>, state: map<TypeName, Collection>): seq<Group>
    requires forall t :: t in kinds ==> t in state
  {
    if kinds == [] then []
    else
      var k := |kinds| - 1;
      var c := state[kinds[k]];
      GroupsOf(kinds[..k], state) + if c.Entities? &&
      c.byId != map[] then [Group(kinds[k], SortedTools(c.byId.Keys))] else []
  }

  function Groups(state: map<TypeName, Collection>): seq<Group> {
    var kinds := SortedTools(state.Keys);
    assert forall t :: t in kinds <==> t in Elems(kinds);
    GroupsOf(kinds, state)
  }

  ghost predicate KindsDistinct(groups: seq<Group>) {
    forall i, j :: 0 <= i < j < |groups| ==> groups[i].kind != groups[j].kind
  }

  /** One round over the first p groups, at depth c. */
  function Column(groups: seq<Group>, c: nat, p: nat): seq<Entry>
    requires p <= |groups|
  {
    if p == 0 then []
    else
      var g := groups[p - 1];
      Column(groups, c, p - 1) + if c < |g.ids| then [Entry(g.kind, g.ids[c])] else []
  }

  /** The first c rounds. */
  function Rounds(groups: seq<Group>, c: nat): seq<Entry> {
    if c == 0 then [] else Rounds(groups, c - 1) + Column(groups, c - 1, |groups|)
  }

  /** c full rounds and a last one over the first p groups. */
  function Picked(groups: seq<Group>, c: nat, p: nat): seq<Entry>
    requires p <= |groups|
  {
    Rounds(groups, c) + Column(groups, c, p)
  }

  function Deepest(groups: seq<Group>): (d: nat)
    ensures forall g :: g in groups ==> |g.ids| <= d
  {
    if groups == [] then 0
    else
      var k := |groups| - 1;
      var d := Deepest(groups[..k]);
      assert forall g :: g in groups ==> g in groups[..k] || g == groups[k];
      if |groups[k].ids| > d then |groups[k].ids| else d
  }

  /** Everything there is, in round-robin order. */
  function Everything(groups: seq<Group>): seq<Entry> {
    Rounds(groups, Deepest(groups))
  }

  function Limit(maxEntities: int, available: nat): nat {
    if maxEntities < 0 then 0 else if maxEntities < available then maxEntities else available
  }

  /** The selection is the round-robin order of all entities, cut at the limit. */
  method SelectEntities(state: map<TypeName, Collection>, maxEntities: int) returns (selected: seq<Entry>)
    ensures var all := Everything(Groups(state));
            selected == all[..Limit(maxEntities, |all|)]
  {
    hide *;
    var groups := Groups(state);
    ghost var all := Everything(groups);
    selected := [];
    var index := 0;
    var added := true;
    RoundsPrefix(groups, 0, 0);
    NoRounds(groups);
    while |selected| < maxEntities
      invariant selected <= all && (|selected| <= maxEntities || selected == [])
      invariant |selected| < maxEntities ==> selected == Rounds(groups, index)
      decreases |all| - |selected|
    {
      ghost var start := selected;
      selected, added := AddRound(groups, index, selected, maxEntities);
      if !added {
        NothingDeeper(groups, index);
        break;
      }
      index := index + 1;
    }
    CutAtLimit(all, selected, maxEntities);
  }

  /** One pass over the groups at one depth. */
  method AddRound(groups: seq<Group>, index: nat, start: seq<Entry>, maxEntities: int)
    returns (selected: seq<Entry>, added: bool)
    requires start == Rounds(groups, index) && |start| < maxEntities
    ensures start <= selected <= Everything(groups) && |selected| <= maxEntities
    ensures added <==> |selected| > |start|
    ensures |selected| < maxEntities ==> selected == Rounds(groups, index + 1)
    ensures !added ==> Column(groups, index, |groups|) == []
  {
    hide *;
    selected := start;
    added := false;
    PickedEnds(groups, index);
    RoundsPrefix(groups, index, 0);
    var k := 0;
    while k < |groups|
      invariant 0 <= k <= |groups|
      invariant selected == Picked(groups, index, k) && |selected| < maxEntities
      invariant start <= selected <= Everything(groups)
      invariant added <==> |selected| > |start|
    {
      RoundsPrefix(groups, index, k + 1);
      PickedStep(groups, index, k);
      if index < |groups[k].ids| {
        selected := selected + [Entry(groups[k].kind, groups[k].ids[index])];
        added := true;
        if |selected| >= maxEntities { return; }
      }
      k := k + 1;
    }
  }

  lemma PickedStep(groups: seq<Group>, c: nat, k: nat)
    requires k < |groups|
    ensures Picked(groups, c, k + 1)
            == Picked(groups, c, k) + if c < |groups[k].ids| then [Entry(groups[k].kind, groups[k].ids[c])] else []
  {
  }

  lemma PickedEnds(groups: seq<Group>, c: nat)
    ensures Picked(groups, c, 0) == Rounds(groups, c)
    ensures Picked(groups, c, |groups|) == Rounds(groups, c + 1)
    ensures |Picked(groups, c, |groups|)| == |Rounds(groups, c)| + |Column(groups, c, |groups|)|
  {
    hide Column;
    assert Column(groups, c, 0) == [] by { ColumnEmpty(groups, c, 0); }
  }

  lemma NoRounds(groups: seq<Group>)
    ensures Rounds(groups, 0) == []
  {
  }

  lemma CutAtLimit(all: seq<Entry>, selected: seq<Entry>, maxEntities: int)
    requires selected <= all && (|selected| <= maxEntities || selected == [])
    requires |selected| >= maxEntities || selected == all
    ensures selected == all[..Limit(maxEntities, |all|)]
  {
  }

  // ---------------------------------------------------------------- the order

  lemma {:induction false} ColumnEmpty(groups: seq<Group>, c: nat, p: nat)
    requires p <= |groups|
    ensures Column(groups, c, p) == [] <==> forall i :: 0 <= i < p ==> |groups[i].ids| <= c
  {
    if p > 0 { ColumnEmpty(groups, c, p - 1); }
  }

  lemma {:induction false} RoundsBeyond(groups: seq<Group>, c: nat, d: nat)
    requires c <= d && forall g :: g in groups ==> |g.ids| <= c
    ensures Rounds(groups, d) == Rounds(groups, c)
  {
    hide Column;
    assert forall i :: 0 <= i < |groups| ==> groups[i] in groups;
    if c < d {
      RoundsBeyond(groups, c, d - 1);
      ColumnEmpty(groups, d - 1, |groups|);
    }
  }

  lemma {:induction false} RoundsGrow(groups: seq<Group>, c: nat, d: nat)
    requires c <= d
    ensures Rounds(groups, c) <= Rounds(groups, d)
  {
    if c < d { RoundsGrow(groups, c, d - 1); }
  }

  lemma {:induction false} ColumnGrows(groups: seq<Group>, c: nat, p: nat, q: nat)
    requires p <= q <= |groups|
    ensures Column(groups, c, p) <= Column(groups, c, q)
  {
    if p < q { ColumnGrows(groups, c, p, q - 1); }
  }

  /** Any number of rounds, and any part of the next one, begins the full order. */
  lemma RoundsPrefix(groups: seq<Group>, c: nat, p: nat)
    requires p <= |groups|
    ensures Picked(groups, c, p) <= Everything(groups)
  {
    var d := Deepest(groups);
    ColumnGrows(groups, c, p, |groups|);
    assert Picked(groups, c, p) <= Rounds(groups, c + 1);
    if c + 1 <= d {
      RoundsGrow(groups, c + 1, d);
    } else {
      RoundsBeyond(groups, d, c + 1);
    }
  }

  /** An empty round means that everything has been taken. */
  lemma NothingDeeper(groups: seq<Group>, c: nat)
    requires Column(groups, c, |groups|) == []
    ensures Rounds(groups, c) == Everything(groups)
  {
    ColumnEmpty(groups, c, |groups|);
    var d := Deepest(groups);
    if c <= d { RoundsBeyond(groups, c, d); } else { RoundsBeyond(groups, d, c); }
  }

  // ---------------------------------------------------------------- fairness

  /** The identifiers of one type, in selection order. */
  function IdsOf(entries: seq<Entry>, kind: TypeName): seq<Id> {
    if entries == [] then []
    else
      var k := |entries| - 1;
      IdsOf(entries[..k], kind) + if entries[k].kind == kind then [entries[k].id] else []
  }

  lemma {:induction false} IdsConcat(a: seq<Entry>, b: seq<Entry>, kind: TypeName)
    ensures IdsOf(a + b, kind) == IdsOf(a, kind) + IdsOf(b, kind)
  {
    if b == [] {
      assert a + b == a;
    } else {
      var k := |b| - 1;
      IdsConcat(a, b[..k], kind);
      assert (a + b)[..|a + b| - 1] == a + b[..k];
    }
  }

  lemma IdsOfOne(e: Entry, kind: TypeName)
    ensures IdsOf([e], kind) == if e.kind == kind then [e.id] else []
  {
    assert [e][..0] == [];
  }

  lemma NoIds(kind: TypeName)
    ensures IdsOf([], kind) == []
  {
  }

  function Upto(n: nat, len: nat): nat { if n < len then n else len }

  /** One more group adds its entry at this depth to its own type only. */
  lemma ColumnStep(groups: seq<Group>, c: nat, p: nat, kind: TypeName)
    requires p < |groups|
    ensures var g := groups[p];
            IdsOf(Column(groups, c, p + 1), kind)
            == IdsOf(Column(groups, c, p), kind) + if c < |g.ids| && g.kind == kind then [g.ids[c]] else []
  {
    hide IdsOf;
    var g := groups[p];
    if c < |g.ids| {
      var e := Entry(g.kind, g.ids[c]);
      IdsConcat(Column(groups, c, p), [e], kind);
      IdsOfOne(e, kind);
    } else {
      assert Column(groups, c, p + 1) == Column(groups, c, p);
    }
  }

  lemma SameKind(groups: seq<Group>, i: nat, j: nat)
    requires KindsDistinct(groups) && i < |groups| && j < |groups|
    ensures groups[i].kind == groups[j].kind <==> i == j
  {
  }

  lemma {:induction false} ColumnIds(groups: seq<Group>, c: nat, p: nat, i: nat)
    requires KindsDistinct(groups) && p <= |groups| && i < |groups|
    ensures IdsOf(Column(groups, c, p), groups[i].kind)
            == if i < p && c < |groups[i].ids| then [groups[i].ids[c]] else []
  {
    hide IdsOf, KindsDistinct, Column;
    if p == 0 {
      ColumnEmpty(groups, c, 0);
      NoIds(groups[i].kind);
    } else {
      ColumnIds(groups, c, p - 1, i);
      ColumnStep(groups, c, p - 1, groups[i].kind);
      SameKind(groups, p - 1, i);
    }
  }

  lemma {:induction false} RoundsIds(groups: seq<Group>, c: nat, i: nat)
    requires KindsDistinct(groups) && i < |groups|
    ensures IdsOf(Rounds(groups, c), groups[i].kind) == groups[i].ids[..Upto(c, |groups[i].ids|)]
  {
    hide Column, KindsDistinct, IdsOf;
    NoIds(groups[i].kind);
    if c > 0 {
      RoundsIds(groups, c - 1, i);
      ColumnIds(groups, c - 1, |groups|, i);
      IdsConcat(Rounds(groups, c - 1), Column(groups, c - 1, |groups|), groups[i].kind);
    }
  }

  /** What a cut leaves of one type: as many as the rounds it was in, from the front. */
  lemma PickedIds(groups: seq<Group>, c: nat, p: nat, i: nat)
    requires KindsDistinct(groups) && p <= |groups| && i < |groups|
    ensures IdsOf(Picked(groups, c, p), groups[i].kind)
            == groups[i].ids[..Upto(if i < p then c + 1 else c, |groups[i].ids|)]
  {
    hide Column, Rounds, KindsDistinct;
    RoundsIds(groups, c, i);
    ColumnIds(groups, c, p, i);
    IdsConcat(Rounds(groups, c), Column(groups, c, p), groups[i].kind);
  }

  lemma {:induction false} CutColumn(groups: seq<Group>, c: nat, p: nat, n: nat) returns (q: nat)
    requires p <= |groups| && n <= |Column(groups, c, p)|
    ensures q <= p && Column(groups, c, p)[..n] == Column(groups, c, q)
  {
    q := p;
    if p > 0 && n < |Column(groups, c, p)| {
      q := CutColumn(groups, c, p - 1, n);
    }
  }

  /** Every cut of the order is some full rounds and a part of one more. */
  lemma {:induction false} CutRounds(groups: seq<Group>, d: nat, n: nat) returns (c: nat, p: nat)
    requires n <= |Rounds(groups, d)|
    ensures p <= |groups| && Rounds(groups, d)[..n] == Picked(groups, c, p)
  {
    hide Column;
    c, p := 0, 0;
    PickedEnds(groups, 0);
    if d > 0 {
      var before := Rounds(groups, d - 1);
      if n <= |before| {
        c, p := CutRounds(groups, d - 1, n);
      } else {
        c := d - 1;
        p := CutColumn(groups, c, |groups|, n - |before|);
      }
    }
  }

  /** Entities in the first p groups, none deeper than c. */
  function Reachable(groups: seq<Group>, c: nat, p: nat): nat
    requires p <= |groups|
  {
    if p == 0 then 0 else Reachable(groups, c, p - 1) + Upto(c, |groups[p - 1].ids|)
  }

  function Available(groups: seq<Group>): nat {
    if groups == [] then 0 else Available(groups[..|groups| - 1]) + |groups[|groups| - 1].ids|
  }

  lemma {:induction false} OneDeeper(groups: seq<Group>, c: nat, p: nat)
    requires p <= |groups|
    ensures Reachable(groups, c + 1, p) == Reachable(groups, c, p) + |Column(groups, c, p)|
  {
    if p > 0 { OneDeeper(groups, c, p - 1); }
  }

  lemma {:induction false} NoneAtZero(groups: seq<Group>, p: nat)
    requires p <= |groups|
    ensures Reachable(groups, 0, p) == 0
  {
    if p > 0 { NoneAtZero(groups, p - 1); }
  }

  lemma {:induction false} RoundsSize(groups: seq<Group>, c: nat)
    ensures |Rounds(groups, c)| == Reachable(groups, c, |groups|)
  {
    if c == 0 {
      NoneAtZero(groups, |groups|);
    } else {
      RoundsSize(groups, c - 1);
      OneDeeper(groups, c - 1, |groups|);
    }
  }

  lemma {:induction false} AllReachable(groups: seq<Group>, c: nat, p: nat)
    requires p <= |groups| && forall g :: g in groups ==> |g.ids| <= c
    ensures Reachable(groups, c, p) == Available(groups[..p])
  {
    if p > 0 {
      AllReachable(groups, c, p - 1);
      assert groups[p - 1] in groups;
      assert groups[..p][..p - 1] == groups[..p - 1];
    }
  }

  /** The round-robin order holds every entity once. */
  lemma EverythingSize(groups: seq<Group>)
    ensures |Everything(groups)| == Available(groups)
  {
    var d := Deepest(groups);
    RoundsSize(groups, d);
    AllReachable(groups, d, |groups|);
    assert groups[..|groups|] == groups;
  }

  /** What a group holds: a non-empty collection of the state, its identifiers sorted. */
  ghost predicate GroupOk(g: Group, state: map<TypeName, Collection>) {
    && g.kind in state && state[g.kind].Entities? && g.ids != []
    && Ascending(g.ids) && Elems(g.ids) == state[g.kind].byId.Keys
  }

  predicate Listed(groups: seq<Group>, t: TypeName) {
    exists i :: 0 <= i < |groups| && groups[i].kind == t
  }

  lemma GroupOfCollection(t: TypeName, state: map<TypeName, Collection>)
    requires t in state && state[t].Entities? && state[t].byId != map[]
    ensures GroupOk(Group(t, SortedTools(state[t].byId.Keys)), state)
  {
    var ids := SortedTools(state[t].byId.Keys);
    var key :| key in state[t].byId;
    assert key in Elems(ids);
  }

  lemma AddGroup(groups: seq<Group>, g: Group, kinds: seq<TypeName>, state: map<TypeName, Collection>)
    requires KindsDistinct(groups) && (forall h :: h in groups ==> GroupOk(h, state)) && GroupOk(g, state)
    requires (forall t :: Listed(groups, t) ==> t in kinds) && g.kind !in kinds
    ensures KindsDistinct(groups + [g]) && forall h :: h in groups + [g] ==> GroupOk(h, state)
    ensures forall t :: Listed(groups + [g], t) <==> Listed(groups, t) || t == g.kind
  {
    hide GroupOk;
    assert forall i :: 0 <= i < |groups| ==> Listed(groups, groups[i].kind);
    forall t ensures Listed(groups + [g], t) <==> Listed(groups, t) || t == g.kind {
      if Listed(groups, t) {
        var i :| 0 <= i < |groups| && groups[i].kind == t;
        assert (groups + [g])[i].kind == t;
      }
      assert (groups + [g])[|groups|] == g;
    }
  }

  /** The groups are the non-empty entity collections, each type once. */
  lemma {:induction false} GroupsOfState(kinds: seq<TypeName>, state: map<TypeName, Collection>)
    requires Ascending(kinds) && forall t :: t in kinds ==> t in state
    ensures forall g :: g in GroupsOf(kinds, state) ==> GroupOk(g, state)
    ensures forall t :: Listed(GroupsOf(kinds, state), t) <==>
              t in kinds && state[t].Entities? && state[t].byId != map[]
    ensures KindsDistinct(GroupsOf(kinds, state))
  {
    hide GroupOk, KindsDistinct, Listed;
    if kinds == [] {
      NoGroups();
    } else {
      var k := |kinds| - 1;
      var t := kinds[k];
      assert kinds == kinds[..k] + [t] && t !in kinds[..k];
      GroupsOfState(kinds[..k], state);
      if state[t].Entities? && state[t].byId != map[] {
        GroupOfCollection(t, state);
        AddGroup(GroupsOf(kinds[..k], state), Group(t, SortedTools(state[t].byId.Keys)), kinds[..k], state);
      } else {
        assert GroupsOf(kinds, state) == GroupsOf(kinds[..k], state);
      }
    }
  }

  lemma NoGroups()
    ensures KindsDistinct([]) && forall t :: !Listed([], t)
  {
  }

  ghost predicate Fair(groups: seq<Group>, selected: seq<Entry>) {
    forall g, h | g in groups && h in groups && |IdsOf(selected, h.kind)| < |h.ids| ::
      |IdsOf(selected, g.kind)| <= |IdsOf(selected, h.kind)| + 1
  }

  /** The view of any state under any limit: as many entities as the limit or all there are; of each
      type the first ones in identifier order; and no type is more than one ahead of a type that
      still has unselected entities. */
  lemma ViewIsFair(state: map<TypeName, Collection>, maxEntities: int)
    ensures var groups := Groups(state);
            var all := Everything(groups);
            var selected := all[..Limit(maxEntities, |all|)];
            && |selected| == (if maxEntities <= 0 then 0
                              else if maxEntities <= Available(groups) then maxEntities else Available(groups))
            && (forall g :: g in groups ==> IdsOf(selected, g.kind) <= g.ids)
            && Fair(groups, selected)
  {
    hide Everything, Picked, IdsOf, Available, GroupsOf;
    var groups := Groups(state);
    assert KindsDistinct(groups) by {
      var kinds := SortedTools(state.Keys);
      assert forall t :: t in kinds <==> t in Elems(kinds);
      GroupsOfState(kinds, state);
    }
    var all := Everything(groups);
    EverythingSize(groups);
    var n := Limit(maxEntities, |all|);
    var c, p := CutEverything(groups, n);
    forall i: nat | i < |groups|
      ensures IdsOf(all[..n], groups[i].kind) == groups[i].ids[..Upto(if i < p then c + 1 else c, |groups[i].ids|)]
    {
      PickedIds(groups, c, p, i);
    }
  }

  lemma CutEverything(groups: seq<Group>, n: nat) returns (c: nat, p: nat)
    requires n <= |Everything(groups)|
    ensures p <= |groups| && Everything(groups)[..n] == Picked(groups, c, p)
  {
    c, p := CutRounds(groups, Deepest(groups), n);
  }

  // ---------------------------------------------------------------- the order, of the state alone

  /** The entry is at this depth of this group. */
  predicate Sits(groups: seq<Group>, e: Entry, c: nat, p: nat) {
    p < |groups| && c < |groups[p].ids| && e == Entry(groups[p].kind, groups[p].ids[c])
  }

  /** One entry is less deep than another, or as deep and in an earlier group. */
  ghost predicate Sooner(groups: seq<Group>, e: Entry, f: Entry) {
    exists c: nat, p: nat, d: nat, q: nat ::
      Sits(groups, e, c, p) && Sits(groups, f, d, q) && (c < d || (c == d && p < q))
  }

  ghost predicate SoonerFirst(groups: seq<Group>, entries: seq<Entry>) {
    forall i, j :: 0 <= i < j < |entries| ==> Sooner(groups, entries[i], entries[j])
  }

  lemma SoonerConcat(groups: seq<Group>, a: seq<Entry>, b: seq<Entry>)
    requires SoonerFirst(groups, a) && SoonerFirst(groups, b)
    requires forall e, f :: e in a && f in b ==> Sooner(groups, e, f)
    ensures SoonerFirst(groups, a + b)
  {
    hide Sooner;
    var both := a + b;
    forall i, j | 0 <= i < j < |both| ensures Sooner(groups, both[i], both[j]) {
      if i < |a| <= j { assert both[i] in a && both[j] in b; }
    }
  }

  lemma {:induction false} ColumnOrder(groups: seq<Group>, c: nat, p: nat)
    requires p <= |groups|
    ensures SoonerFirst(groups, Column(groups, c, p))
    ensures forall e :: e in Column(groups, c, p) <==> exists q: nat :: q < p && Sits(groups, e, c, q)
  {
    hide Sits;
    if p > 0 {
      ColumnOrder(groups, c, p - 1);
      var g, before := groups[p - 1], Column(groups, c, p - 1);
      var k: nat := p - 1;
      forall e ensures Sits(groups, e, c, k) <==> c < |g.ids| && e == Entry(g.kind, g.ids[c]) {
        SitsIs(groups, e, c, k);
      }
      if c < |g.ids| {
        var last := Entry(g.kind, g.ids[c]);
        forall e, f | e in before && f in [last] ensures Sooner(groups, e, f) {
          var q: nat :| q < p - 1 && Sits(groups, e, c, q);
          assert Sits(groups, last, c, p - 1);
        }
        SoonerConcat(groups, before, [last]);
      } else {
        assert Column(groups, c, p) == before;
      }
      forall e ensures e in Column(groups, c, p) <==> exists q: nat :: q < p && Sits(groups, e, c, q) {
        if q: nat :| q < p && Sits(groups, e, c, q) {
          assert q < k ==> e in before;
          assert q == k ==> Sits(groups, e, c, k);
        }
        if e in Column(groups, c, p) && e !in before { assert Sits(groups, e, c, k); }
      }
    }
  }

  lemma SitsIs(groups: seq<Group>, e: Entry, c: nat, p: nat)
    ensures Sits(groups, e, c, p) <==>
              p < |groups| && c < |groups[p].ids| && e == Entry(groups[p].kind, groups[p].ids[c])
  {
  }

  lemma {:induction false} RoundsOrder(groups: seq<Group>, c: nat)
    ensures SoonerFirst(groups, Rounds(groups, c))
    ensures forall e :: e in Rounds(groups, c) <==> exists d: nat, q: nat :: d < c && Sits(groups, e, d, q)
  {
    hide Column;
    if c > 0 {
      hide SoonerFirst;
      RoundsOrder(groups, c - 1);
      ColumnOrder(groups, c - 1, |groups|);
      var before, last := Rounds(groups, c - 1), Column(groups, c - 1, |groups|);
      forall e, f | e in before && f in last ensures Sooner(groups, e, f) {
        var d: nat, q: nat :| d < c - 1 && Sits(groups, e, d, q);
        var r: nat :| r < |groups| && Sits(groups, f, c - 1, r);
      }
      SoonerConcat(groups, before, last);
      forall e ensures e in before + last <==> exists d: nat, q: nat :: d < c && Sits(groups, e, d, q) {
        if d: nat, q: nat :| d < c && Sits(groups, e, d, q) {
          if d == c - 1 { assert q < |groups|; }
        }
      }
    }
  }

  lemma {:induction false} GroupsAscend(kinds: seq<TypeName>, state: map<TypeName, Collection>)
    requires Ascending(kinds) && forall t :: t in kinds ==> t in state
    ensures forall i, j :: 0 <= i < j < |GroupsOf(kinds, state)| ==>
              GroupsOf(kinds, state)[i].kind < GroupsOf(kinds, state)[j].kind
    ensures forall g :: g in GroupsOf(kinds, state) ==> g.kind in kinds
  {
    if kinds != [] {
      var k := |kinds| - 1;
      GroupsAscend(kinds[..k], state);
      assert kinds == kinds[..k] + [kinds[k]];
      var before := GroupsOf(kinds[..k], state);
      forall i | 0 <= i < |before| ensures before[i].kind < kinds[k] {
        assert before[i] in before;
        var m :| 0 <= m < k && kinds[m] == before[i].kind;
      }
    }
  }

  function Below(ids: set<Id>, id: Id): set<Id> {
    set x | x in ids && x < id
  }

  lemma {:induction false} SizeOfAscending(s: seq<nat>)
    requires Ascending(s)
    ensures |Elems(s)| == |s|
  {
    if s != [] {
      var k := |s| - 1;
      SizeOfAscending(s[..k]);
      assert s == s[..k] + [s[k]];
      AppendElems(s[..k], s[k]);
      assert s[k] !in Elems(s[..k]);
    }
  }

  /** The depth of an identifier is the number of those before it. */
  lemma DepthIsRank(ids: seq<Id>, c: nat)
    requires Ascending(ids) && c < |ids|
    ensures |Below(Elems(ids), ids[c])| == c
  {
    SizeOfAscending(ids[..c]);
    forall x ensures x in Below(Elems(ids), ids[c]) <==> x in Elems(ids[..c]) {
      if x in Below(Elems(ids), ids[c]) { var i :| 0 <= i < |ids| && ids[i] == x; assert i < c && ids[..c][i] == x; }
      if x in Elems(ids[..c]) { var i :| 0 <= i < c && ids[..c][i] == x; assert ids[i] == x; }
    }
    assert Below(Elems(ids), ids[c]) == Elems(ids[..c]);
  }

  ghost predicate Holds(state: map<TypeName, Collection>, e: Entry) {
    e.kind in state && state[e.kind].Entities? && e.id in state[e.kind].byId
  }

  /** How many entities of its type have an earlier identifier. */
  function Rank(state: map<TypeName, Collection>, e: Entry): nat
    requires Holds(state, e)
  {
    |Below(state[e.kind].byId.Keys, e.id)|
  }

  lemma SittingIsHeld(state: map<TypeName, Collection>, e: Entry, c: nat, p: nat)
    requires Sits(Groups(state), e, c, p)
    ensures Holds(state, e) && Rank(state, e) == c
  {
    var kinds, g := SortedTools(state.Keys), Groups(state)[p];
    assert forall t :: t in kinds <==> t in Elems(kinds);
    GroupsOfState(kinds, state);
    assert GroupOk(g, state);
    assert g.ids[c] in Elems(g.ids);
    DepthIsRank(g.ids, c);
  }

  lemma HeldSits(state: map<TypeName, Collection>, e: Entry) returns (c: nat, p: nat)
    requires Holds(state, e)
    ensures Sits(Groups(state), e, c, p)
  {
    var kinds, groups := SortedTools(state.Keys), Groups(state);
    assert forall t :: t in kinds <==> t in Elems(kinds);
    GroupsOfState(kinds, state);
    assert state[e.kind].byId != map[];
    assert Listed(groups, e.kind);
    p :| p < |groups| && groups[p].kind == e.kind;
    assert GroupOk(groups[p], state);
    assert e.id in Elems(groups[p].ids);
    c :| c < |groups[p].ids| && groups[p].ids[c] == e.id;
  }

  /** The order of selection holds every entity of every collection, once, by the number of those before it in its type,
      and then by type. */
  lemma OrderExactly(state: map<TypeName, Collection>)
    ensures var all := Everything(Groups(state));
            && (forall e :: e in all <==> Holds(state, e))
            && forall i, j :: 0 <= i < j < |all| ==>
                 && Holds(state, all[i]) && Holds(state, all[j])
                 && (|| Rank(state, all[i]) < Rank(state, all[j])
                     || (Rank(state, all[i]) == Rank(state, all[j]) && all[i].kind < all[j].kind))
  {
    hide Groups, Rounds, Sits, Holds, Rank;
    var groups := Groups(state);
    var all := Everything(groups);
    RoundsOrder(groups, Deepest(groups));
    KindsAscend(state);
    forall e ensures e in all <==> Holds(state, e) {
      if e in all {
        var d: nat, q: nat :| d < Deepest(groups) && Sits(groups, e, d, q);
        SittingIsHeld(state, e, d, q);
      }
      if Holds(state, e) {
        var c, p := HeldSits(state, e);
        SitsIs(groups, e, c, p);
        assert groups[p] in groups;
      }
    }
    forall i, j | 0 <= i < j < |all|
      ensures Holds(state, all[i]) && Holds(state, all[j])
      ensures || Rank(state, all[i]) < Rank(state, all[j])
              || (Rank(state, all[i]) == Rank(state, all[j]) && all[i].kind < all[j].kind)
    {
      assert Sooner(groups, all[i], all[j]);
      var c: nat, p: nat, d: nat, q: nat :|
        Sits(groups, all[i], c, p) && Sits(groups, all[j], d, q) && (c < d || (c == d && p < q));
      SittingIsHeld(state, all[i], c, p);
      SittingIsHeld(state, all[j], d, q);
      SitsIs(groups, all[i], c, p);
      SitsIs(groups, all[j], d, q);
    }
  }

  lemma KindsAscend(state: map<TypeName, Collection>)
    ensures forall i, j :: 0 <= i < j < |Groups(state)| ==> Groups(state)[i].kind < Groups(state)[j].kind
  {
    var kinds := SortedTools(state.Keys);
    assert forall t :: t in kinds <==> t in Elems(kinds);
    GroupsAscend(kinds, state);
    assert Groups(state) == GroupsOf(kinds, state);
  }
}
