/**
 Factual differences between two state trees (src/live_mcp/server_base.py:158-178) and the
 top-level roots they are charged to (src/live_mcp/server_base.py:118-120).
 */
module StateDelta {
  import opened Common

  /** A state tree. A scalar carries its type and a value that equal scalars share, so 1, 1.0 and True are
      three types of one value; a set may be frozen, which is a type of its own too. */
  datatype Json =
    | Atom(kind: nat, value: nat)
    | List(items: seq<Json>)
    | Tuple(items: seq<Json>)
    | Set(frozen: bool, members: set<Json>)
    | Dict(fields: map<string, Json>)

  type Path = seq<string>

  predicate SameType(a: Json, b: Json) {
    || (a.Atom? && b.Atom? && a.kind == b.kind) || (a.List? && b.List?) || (a.Tuple? && b.Tuple?)
    || (a.Set? && b.Set? && a.frozen == b.frozen) || (a.Dict? && b.Dict?)
  }

  /** Equality as the language has it: scalars by value, whatever their types, and containers by content. */
  predicate Loose(a: Json, b: Json)
    decreases a
  {
    match (a, b)
    case (Atom(_, v), Atom(_, w)) => v == w
    case (List(xs), List(ys)) => |xs| == |ys| && forall i :: 0 <= i < |xs| ==> Loose(xs[i], ys[i])
    case (Tuple(xs), Tuple(ys)) => |xs| == |ys| && forall i :: 0 <= i < |xs| ==> Loose(xs[i], ys[i])
    case (Set(_, xs), Set(_, ys)) =>
      (forall x :: x in xs ==> exists y :: y in ys && Loose(x, y)) &&
      (forall y :: y in ys ==> exists x :: x in xs && Loose(x, y))
    case (Dict(f), Dict(g)) => f.Keys == g.Keys && forall k :: k in f && k in g ==> Loose(f[k], g[k])
    case _ => false
  }

  function MissingKeys(b: Json, a: Json): set<string>
    requires b.Dict? && a.Dict?
  {
    (b.fields.Keys - a.fields.Keys) + (a.fields.Keys - b.fields.Keys)
  }

  /** `_state_delta_paths`, as a set of key paths: dictionaries are compared key by key; anything else is
      one leaf, changed when its type differs or it compares unequal. */
  function Delta(before: Json, after: Json): set<Path>
    decreases before
  {
    if before.Dict? && after.Dict? then
      (set k | k in MissingKeys(before, after) :: [k]) +
      (set k, p | k in before.fields && k in after.fields && p in Delta(before.fields[k], after.fields[k]) :: [k] + p)
    else if SameType(before, after) && Loose(before, after) then {} else {[]}
  }

  /** A reported path is a missing key, or a shared key followed by a path reported below it. */
  lemma DeltaMember(before: Json, after: Json, q: Path)
    requires before.Dict? && after.Dict?
    ensures q in Delta(before, after) <==>
            && q != []
            && (|| (q[0] in MissingKeys(before, after) && q == [q[0]])
                || (q[0] in before.fields && q[0] in after.fields &&
                    q[1..] in Delta(before.fields[q[0]], after.fields[q[0]])))
  {
    if q != [] {
      assert q == [q[0]] + q[1..];
      forall k: string, p: Path | q == [k] + p ensures k == q[0] && p == q[1..] {
        assert ([k] + p)[0] == k && ([k] + p)[1..] == p;
      }
    }
  }

  // ---------------------------------------------------------------- what a delta sees

  /** Equal in content and type outside lists, tuples and sets, and loosely equal inside them. */
  predicate Unchanged(before: Json, after: Json)
    decreases before
  {
    if before.Dict? && after.Dict? then
      && before.fields.Keys == after.fields.Keys
      && forall k :: k in before.fields && k in after.fields ==> Unchanged(before.fields[k], after.fields[k])
    else SameType(before, after) && Loose(before, after)
  }

  /** Some list, tuple or set keeps its content but for the types of what is in it. */
  predicate Retyped(before: Json, after: Json)
    decreases before
  {
    if before.Dict? && after.Dict? then
      exists k :: k in before.fields && k in after.fields && Retyped(before.fields[k], after.fields[k])
    else !before.Atom? && SameType(before, after) && Loose(before, after) && before != after
  }

  /** The field differs: present on one side only, or changed. */
  predicate FieldChanged(before: Json, after: Json, k: string)
    requires before.Dict? && after.Dict?
  {
    (k in before.fields) != (k in after.fields) ||
    (k in before.fields && k in after.fields && !Unchanged(before.fields[k], after.fields[k]))
  }

  /** The delta is empty exactly when nothing changed but types inside lists, tuples and sets. */
  lemma {:induction false} DeltaEmptyIffUnchanged(before: Json, after: Json)
    ensures Delta(before, after) == {} <==> Unchanged(before, after)
    decreases before
  {
    if before.Dict? && after.Dict? {
      forall k | k in before.fields && k in after.fields
        ensures Delta(before.fields[k], after.fields[k]) == {} <==> Unchanged(before.fields[k], after.fields[k])
      {
        DeltaEmptyIffUnchanged(before.fields[k], after.fields[k]);
      }
      FieldsDelta(before, after);
    }
  }

  lemma UnchangedFields(before: Json, after: Json)
    requires before.Dict? && after.Dict?
    ensures Unchanged(before, after) <==> forall k :: !FieldChanged(before, after, k)
  {
    if forall k :: !FieldChanged(before, after, k) {
      forall k ensures k in before.fields.Keys <==> k in after.fields.Keys { assert !FieldChanged(before, after, k); }
      forall k | k in before.fields && k in after.fields ensures Unchanged(before.fields[k], after.fields[k]) {
        assert !FieldChanged(before, after, k);
      }
    }
  }

  lemma FieldsDelta(before: Json, after: Json)
    requires before.Dict? && after.Dict?
    requires forall k :: k in before.fields && k in after.fields ==>
               (Delta(before.fields[k], after.fields[k]) == {} <==> Unchanged(before.fields[k], after.fields[k]))
    ensures Delta(before, after) == {} <==> Unchanged(before, after)
  {
    hide Delta, Unchanged;
    UnchangedFields(before, after);
    forall q | q in Delta(before, after) ensures q != [] && FieldChanged(before, after, q[0]) {
      DeltaMember(before, after, q);
    }
    if k :| FieldChanged(before, after, k) {
      if k in before.fields && k in after.fields {
        var p :| p in Delta(before.fields[k], after.fields[k]);
        assert ([k] + p)[1..] == p;
        DeltaMember(before, after, [k] + p);
      } else {
        DeltaMember(before, after, [k]);
      }
    }
  }

  lemma {:induction false} LooseReflexive(a: Json)
    ensures Loose(a, a)
  {
    match a
    case Atom(_, _) =>
    case List(xs) => forall i | 0 <= i < |xs| ensures Loose(xs[i], xs[i]) { LooseReflexive(xs[i]); }
    case Tuple(xs) => forall i | 0 <= i < |xs| ensures Loose(xs[i], xs[i]) { LooseReflexive(xs[i]); }
    case Set(_, xs) => forall x | x in xs ensures Loose(x, x) { LooseReflexive(x); }
    case Dict(f) => forall k | k in f ensures Loose(f[k], f[k]) { LooseReflexive(f[k]); }
  }

  lemma {:induction false} UnchangedReflexive(a: Json)
    ensures Unchanged(a, a) && !Retyped(a, a)
  {
    LooseReflexive(a);
    if a.Dict? {
      forall k | k in a.fields ensures Unchanged(a.fields[k], a.fields[k]) && !Retyped(a.fields[k], a.fields[k]) {
        UnchangedReflexive(a.fields[k]);
      }
    }
  }

  lemma {:induction false} UnchangedIsEqual(before: Json, after: Json)
    requires Unchanged(before, after) && !Retyped(before, after)
    ensures before == after
    decreases before
  {
    if before.Dict? && after.Dict? {
      forall k | k in before.fields ensures before.fields[k] == after.fields[k] {
        UnchangedIsEqual(before.fields[k], after.fields[k]);
      }
      assert before.fields == after.fields;
    }
  }

  lemma UnchangedSameType(before: Json, after: Json)
    requires Unchanged(before, after)
    ensures SameType(before, after)
  {
  }

  /** An empty delta means equal trees, and equal trees an empty delta, exactly unless all that happened
      is that lists, tuples or sets were retyped. */
  lemma DeltaIsEqualityExactly(before: Json, after: Json)
    ensures (Delta(before, after) == {} <==> before == after) <==> !(Unchanged(before, after) && Retyped(before, after))
  {
    hide Delta, Unchanged, Retyped;
    DeltaEmptyIffUnchanged(before, after);
    UnchangedReflexive(before);
    if Unchanged(before, after) && !Retyped(before, after) { UnchangedIsEqual(before, after); }
  }

  /** Turning the number of a list, a tuple or a set into the equal truth value is such a change; outside them it
      is seen. */
  lemma RetypedListIsMissed(k: string, i: nat, b: nat, v: nat)
    requires i != b
    ensures Missed(k, List([Atom(i, v)]), List([Atom(b, v)]))
    ensures Missed(k, Tuple([Atom(i, v)]), Tuple([Atom(b, v)]))
    ensures Missed(k, Set(false, {Atom(i, v)}), Set(false, {Atom(b, v)}))
    ensures Delta(Dict(map[k := Atom(i, v)]), Dict(map[k := Atom(b, v)])) == {[k]}
  {
    var x, y := Atom(i, v), Atom(b, v);
    assert [x][0] != [y][0] && Tuple([x]).items[0] != Tuple([y]).items[0];
    assert x in {x} && x !in {y} && Loose(x, y);
    FieldIsMissed(k, List([x]), List([y]));
    FieldIsMissed(k, Tuple([x]), Tuple([y]));
    FieldIsMissed(k, Set(false, {x}), Set(false, {y}));
    LeafField(k, x, y);
  }

  /** Two different states, one field apart, with an empty delta. */
  predicate Missed(k: string, x: Json, y: Json) {
    var before, after := Dict(map[k := x]), Dict(map[k := y]);
    before != after && Delta(before, after) == {} && Retyped(before, after)
  }

  lemma FieldIsMissed(k: string, x: Json, y: Json)
    requires !x.Dict? && !x.Atom? && SameType(x, y) && Loose(x, y) && x != y
    ensures Missed(k, x, y)
  {
    var before, after := Dict(map[k := x]), Dict(map[k := y]);
    assert before.fields[k] == x && after.fields[k] == y && Retyped(x, y);
    DeltaEmptyIffUnchanged(before, after);
  }

  // ---------------------------------------------------------------- roots

  /** Paths are reported joined with dots; the empty path of a type change reads "<root>". */
  function Join(p: Path): string {
    if p == [] then "" else if |p| == 1 then p[0] else p[0] + "." + Join(p[1..])
  }

  function Rendered(before: Json, after: Json): set<string> {
    if SameType(before, after) then set p | p in Delta(before, after) :: Join(p)
    else {"<root>"}
  }

  /** The part before the first dot. */
  function Root(s: string): string {
    if s == "" || s[0] == '.' then "" else [s[0]] + Root(s[1..])
  }

  /** Roots charged for a change: empty strings are skipped before splitting. */
  function ChangedRoots(before: Json, after: Json): set<string> {
    set s | s in Rendered(before, after) && s != "" :: Root(s)
  }

  predicate PlainKey(k: string) {
    k != "" && '.' !in k
  }

  predicate PlainKeys(j: Json) {
    j.Dict? ==> forall k :: k in j.fields ==> PlainKey(k)
  }

  lemma {:induction false} RootOfPlain(k: string, rest: string)
    requires '.' !in k && (rest == "" || rest[0] == '.')
    ensures Root(k + rest) == k
  {
    if k == "" {
      assert k + rest == rest;
    } else {
      assert (k + rest)[0] == k[0] && k[0] in k;
      assert (k + rest)[1..] == k[1..] + rest;
      assert forall c :: c in k[1..] ==> c in k;
      RootOfPlain(k[1..], rest);
      assert k == [k[0]] + k[1..];
    }
  }

  lemma JoinStartsWith(k: string, p: Path)
    ensures Join([k] + p) == k + if p == [] then "" else "." + Join(p)
  {
    assert ([k] + p)[1..] == p;
  }

  lemma RootOfPath(k: string, p: Path)
    requires '.' !in k
    ensures Root(Join([k] + p)) == k
    ensures Join([k] + p) == "" <==> k == "" && p == []
  {
    JoinStartsWith(k, p);
    RootOfPlain(k, if p == [] then "" else "." + Join(p));
    if p == [] { assert k + "" == k; }
  }

  lemma DeltaHeads(before: Json, after: Json, k: string)
    requires before.Dict? && after.Dict?
    ensures FieldChanged(before, after, k) <==> exists p :: [k] + p in Delta(before, after)
  {
    hide Delta, Unchanged;
    forall p ensures [k] + p in Delta(before, after) ==> FieldChanged(before, after, k) {
      assert ([k] + p)[0] == k && ([k] + p)[1..] == p;
      DeltaMember(before, after, [k] + p);
      if k in before.fields && k in after.fields { DeltaEmptyIffUnchanged(before.fields[k], after.fields[k]); }
    }
    if FieldChanged(before, after, k) {
      if k in before.fields && k in after.fields {
        DeltaEmptyIffUnchanged(before.fields[k], after.fields[k]);
        var p :| p in Delta(before.fields[k], after.fields[k]);
        assert ([k] + p)[1..] == p;
        DeltaMember(before, after, [k] + p);
      } else {
        assert [k] + [] == [k];
        DeltaMember(before, after, [k] + []);
      }
    }
  }

  /** A change of the field is charged to the field: its key has no dot, and if it is empty the change is
      below it, in a dictionary on both sides. */
  predicate Chargeable(before: Json, after: Json, k: string)
    requires before.Dict? && after.Dict?
  {
    '.' !in k &&
    (k == "" ==> k in before.fields && k in after.fields && before.fields[k].Dict? && after.fields[k].Dict?)
  }

  /** The paths below a changed empty key are joined to a non-empty string only under a dictionary. */
  lemma ChargedPath(before: Json, after: Json, k: string, p: Path)
    requires before.Dict? && after.Dict? && [k] + p in Delta(before, after) && '.' !in k
    ensures Join([k] + p) != "" <==> Chargeable(before, after, k)
    ensures Root(Join([k] + p)) == k
  {
    hide Delta;
    RootOfPath(k, p);
    assert ([k] + p)[0] == k && ([k] + p)[1..] == p;
    DeltaMember(before, after, [k] + p);
    if k in before.fields && k in after.fields { LeafOrBelow(before.fields[k], after.fields[k], p); }
  }

  lemma LeafOrBelow(before: Json, after: Json, p: Path)
    requires p in Delta(before, after)
    ensures p == [] <==> !(before.Dict? && after.Dict?)
  {
    if before.Dict? && after.Dict? { DeltaMember(before, after, p); }
  }

  lemma {:induction false} RootHasNoDot(s: string)
    ensures '.' !in Root(s)
  {
    if s != "" && s[0] != '.' { RootHasNoDot(s[1..]); }
  }

  lemma RenderedIs(before: Json, after: Json, p: Path)
    requires before.Dict? && after.Dict? && p in Delta(before, after)
    ensures Join(p) in Rendered(before, after)
    ensures Join(p) != "" ==> Root(Join(p)) in ChangedRoots(before, after)
  {
    hide Delta, Join, Root;
  }

  /** A changed field that can be charged is charged. */
  lemma ChargeableIsCharged(before: Json, after: Json, k: string)
    requires before.Dict? && after.Dict? && FieldChanged(before, after, k) && Chargeable(before, after, k)
    ensures k in ChangedRoots(before, after)
  {
    hide Delta, ChangedRoots, Rendered, Chargeable;
    assert '.' !in k by { ChargeableKey(before, after, k); }
    DeltaHeads(before, after, k);
    var p :| [k] + p in Delta(before, after);
    ChargedPath(before, after, k, p);
    RenderedIs(before, after, [k] + p);
  }

  lemma ChargeableKey(before: Json, after: Json, k: string)
    requires before.Dict? && after.Dict? && Chargeable(before, after, k)
    ensures '.' !in k
  {
  }

  /** A charged root without a dot in the keys behind it is a changed field, charged for itself. */
  lemma ChargedIsChanged(before: Json, after: Json, k: string) returns (key: string)
    requires before.Dict? && after.Dict? && k in ChangedRoots(before, after)
    ensures FieldChanged(before, after, key) && ('.' !in key ==> key == k && Chargeable(before, after, k))
  {
    hide Delta;
    var s :| s in Rendered(before, after) && s != "" && Root(s) == k;
    var q :| q in Delta(before, after) && Join(q) == s;
    DeltaMember(before, after, q);
    key := q[0];
    assert [key] + q[1..] == q;
    DeltaHeads(before, after, key);
    if '.' !in key { ChargedPath(before, after, key, q[1..]); }
  }

  /** The charged roots are exactly the changed top-level fields, exactly when every changed field can be
      charged. */
  lemma RootsExactly(before: Json, after: Json)
    requires before.Dict? && after.Dict?
    ensures (forall k :: k in ChangedRoots(before, after) <==> FieldChanged(before, after, k))
            <==> forall k :: FieldChanged(before, after, k) ==> Chargeable(before, after, k)
  {
    hide Delta, ChangedRoots, FieldChanged, Chargeable;
    if forall k :: FieldChanged(before, after, k) ==> Chargeable(before, after, k) {
      forall k ensures k in ChangedRoots(before, after) <==> FieldChanged(before, after, k) {
        if FieldChanged(before, after, k) { ChargeableIsCharged(before, after, k); }
        if k in ChangedRoots(before, after) {
          var key := ChargedIsChanged(before, after, k);
          ChargeableKey(before, after, key);
        }
      }
    }
    if forall k :: k in ChangedRoots(before, after) <==> FieldChanged(before, after, k) {
      forall k | FieldChanged(before, after, k) ensures Chargeable(before, after, k) {
        var key := ChargedIsChanged(before, after, k);
        RootOfCharge(before, after, key);
      }
    }
  }

  /** In particular with plain top-level keys on both sides. */
  lemma RootsAreChangedFields(before: Json, after: Json, k: string)
    requires before.Dict? && after.Dict? && PlainKeys(before) && PlainKeys(after)
    ensures k in ChangedRoots(before, after) <==> FieldChanged(before, after, k)
  {
    hide ChangedRoots, Unchanged;
    RootsExactly(before, after);
    assert forall x :: FieldChanged(before, after, x) ==> x in before.fields || x in after.fields;
    assert forall x :: FieldChanged(before, after, x) ==> Chargeable(before, after, x);
  }

  lemma RootOfCharge(before: Json, after: Json, k: string)
    requires k in ChangedRoots(before, after)
    ensures '.' !in k
  {
    var s :| s in Rendered(before, after) && s != "" && Root(s) == k;
    RootHasNoDot(s);
  }

  lemma LeafField(k: string, b: Json, a: Json)
    requires !b.Dict? && !Unchanged(b, a)
    ensures Delta(Dict(map[k := b]), Dict(map[k := a])) == {[k]}
  {
    hide Delta;
    var before, after := Dict(map[k := b]), Dict(map[k := a]);
    LeafDelta(b, a);
    forall p ensures p in Delta(before, after) <==> p == [k] {
      DeltaMember(before, after, p);
      if p != [] { assert p == [p[0]] + p[1..]; }
    }
  }

  lemma LeafDelta(b: Json, a: Json)
    requires !b.Dict? && !Unchanged(b, a)
    ensures Delta(b, a) == {[]}
  {
  }

  /** Inputs outside the condition: a scalar under an empty key is charged to nothing, one under a dotted
      key to the part before the dot, though a change below an empty key is charged to it. */
  lemma OddKeysAreMischarged(k: string, u: nat, v: nat)
    requires u != v
    ensures var before, after := Dict(map[k := Atom(0, u)]), Dict(map[k := Atom(0, v)]);
            FieldChanged(before, after, k) && ChangedRoots(before, after) == if k == "" then {} else {Root(k)}
    ensures var before, after := Dict(map["" := Dict(map["x" := Atom(0, u)])]),
            Dict(map["" := Dict(map["x" := Atom(0, v)])]);
            "" in ChangedRoots(before, after)
  {
    hide Delta;
    var b, a := Atom(0, u), Atom(0, v);
    LeafField(k, b, a);
    assert Join([k]) == k;
    assert Rendered(Dict(map[k := b]), Dict(map[k := a])) == {k};
    LeafField("x", b, a);
    var before, after := Dict(map["" := Dict(map["x" := b])]), Dict(map["" := Dict(map["x" := a])]);
    DeltaEmptyIffUnchanged(before.fields[""], after.fields[""]);
    ChargeableIsCharged(before, after, "");
  }
}
