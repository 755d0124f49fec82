/**
 What the simulation does, said of the contracts and the alias table alone: which output an argument is bound
 to, what a step leaves known, and what it reports (src/live_mcp/contracts/chain_simulator.py).
 */
module SimulatorLaws {
  import opened Common
  import opened Contracts
  import opened Simulator

  // ---------------------------------------------------------------- binding

  /** An alias of the output, by its place in the table, is an argument of the step. */
  predicate AliasTaken(d: Domain, f: Field, args: set<Field>, m: nat) {
    f in d.aliases && m < |d.aliases[f]| && d.aliases[f][m] in args
  }

  /** The output feeds the argument: the argument is the output's first alias among those of the step, or no alias
      of it is one and the two have one name. */
  ghost predicate FeedsArgument(d: Domain, f: Field, args: set<Field>, a: Field) {
    && a in args
    && (|| (exists m: nat :: AliasTaken(d, f, args, m) && d.aliases[f][m] == a &&
                             forall k: nat :: k < m ==> !AliasTaken(d, f, args, k))
        || (f == a && forall k: nat :: !AliasTaken(d, f, args, k)))
  }

  /** The output carries an identity on: it is created by the tool, or it is not an argument of its own tool, nor an
      alias of one. */
  ghost predicate CarriesOn(d: Domain, c: Contract, f: Field) {
    || f in c.createdOutputFields
    || (f in c.outputFields && f !in c.arguments && forall m: nat :: !AliasTaken(d, f, c.arguments, m))
  }

  /** The output field of a tool is carried on, and feeds the argument. */
  ghost predicate Gives(d: Domain, c: Contract, f: Field, args: set<Field>, a: Field) {
    CarriesOn(d, c, f) && FeedsArgument(d, f, args, a)
  }

  /** So does the n-th output of step j. */
  ghost predicate Offers(d: Domain, contracts: seq<Contract>, args: set<Field>, a: Field, j: nat, n: nat) {
    j < |contracts| && n < |contracts[j].outputFields| && Gives(d, contracts[j], contracts[j].outputFields[n], args, a)
  }

  /** It is the last such output of these steps. */
  ghost predicate LastOffer(d: Domain, contracts: seq<Contract>, args: set<Field>, a: Field, j: nat, n: nat) {
    && Offers(d, contracts, args, a, j, n)
    && forall k: nat, m: nat :: Offers(d, contracts, args, a, k, m) ==> k < j || (k == j && m <= n)
  }

  lemma {:induction false} FirstInExactly(names: seq<Field>, args: set<Field>, a: Field)
    ensures FirstIn(names, args) == Some(a) <==>
              exists m :: 0 <= m < |names| && names[m] == a && a in args && forall k :: 0 <= k < m ==> names[k] !in args
    ensures FirstIn(names, args) == None <==> forall k :: 0 <= k < |names| ==> names[k] !in args
  {
    if names != [] {
      FirstInExactly(names[1..], args, a);
      forall k | 1 <= k < |names| ensures names[k] == names[1..][k - 1] {}
      if m :| 0 <= m < |names| - 1 && names[1..][m] == a && a in args && forall k :: 0 <= k < m ==>
             names[1..][k] !in args {
        if names[0] !in args {
          forall k | 0 <= k < m + 1 ensures names[k] !in args { if k > 0 { assert names[1..][k - 1] !in args; } }
          assert names[m + 1] == a;
        }
      }
      if m :| 0 <= m < |names| && names[m] == a && a in args && forall k :: 0 <= k < m ==> names[k] !in args {
        if m > 0 {
          assert names[1..][m - 1] == a;
          forall k | 0 <= k < m - 1 ensures names[1..][k] !in args { assert names[k + 1] !in args; }
        }
      }
      if forall k :: 0 <= k < |names| ==> names[k] !in args {
        assert names[0] !in args;
        forall k | 0 <= k < |names| - 1 ensures names[1..][k] !in args { assert names[k + 1] !in args; }
      }
    }
  }

  lemma TargetExactly(d: Domain, f: Field, args: set<Field>, a: Field)
    ensures TargetArgument(d, f, args) == Some(a) <==> FeedsArgument(d, f, args, a)
  {
    hide FirstIn;
    var names := AliasesOf(d, f);
    FirstInExactly(names, args, a);
    forall k: nat ensures AliasTaken(d, f, args, k) <==> k < |names| && names[k] in args {}
    if FirstIn(names, args) != None { SomeAlias(d, f, args); }
  }

  lemma SomeAlias(d: Domain, f: Field, args: set<Field>)
    requires FirstIn(AliasesOf(d, f), args) != None
    ensures exists k: nat :: AliasTaken(d, f, args, k)
  {
    hide FirstIn;
    var names := AliasesOf(d, f);
    FirstInExactly(names, args, 0);
    var k :| 0 <= k < |names| && names[k] in args;
    assert AliasTaken(d, f, args, k);
  }

  lemma ForwardedExactly(d: Domain, c: Contract, f: Field)
    ensures Forwarded(d, c, f) <==> CarriesOn(d, c, f)
  {
    var names := AliasesOf(d, f);
    if a :| a in names && a in c.arguments {
      var m :| 0 <= m < |names| && names[m] == a;
      assert AliasTaken(d, f, c.arguments, m);
    }
    forall m: nat | AliasTaken(d, f, c.arguments, m) ensures names[m] in names && names[m] in c.arguments {}
  }

  /** It is the last field of the list that gives. */
  ghost predicate LastGiver(d: Domain, c: Contract, fields: seq<Field>, args: set<Field>, a: Field, n: nat) {
    && n < |fields| && Gives(d, c, fields[n], args, a)
    && forall m :: n < m < |fields| ==> !Gives(d, c, fields[m], args, a)
  }

  /** The outputs of one step, behind those available before: the last that gives decides. */
  lemma {:induction false} NearestInStep(d: Domain, available: seq<OutputSymbol>, c: Contract, j: nat,
                                         fields: seq<Field>, args: set<Field>, a: Field)
    ensures forall n: nat :: LastGiver(d, c, fields, args, a, n) ==>
              NearestSymbol(d, available + StepOutputs(d, c, j, fields), args, a) == Step(j, fields[n])
    ensures (forall n :: 0 <= n < |fields| ==> !Gives(d, c, fields[n], args, a)) ==>
              NearestSymbol(d, available + StepOutputs(d, c, j, fields), args, a)
              == NearestSymbol(d, available, args, a)
  {
    hide TargetArgument, Forwarded, CarriesOn, FeedsArgument;
    if fields == [] {
      assert available + StepOutputs(d, c, j, fields) == available;
    } else {
      var k := |fields| - 1;
      var init, f := fields[..k], fields[k];
      NearestInStep(d, available, c, j, init, args, a);
      ForwardedExactly(d, c, f);
      TargetExactly(d, f, args, a);
      var before := available + StepOutputs(d, c, j, init);
      if Forwarded(d, c, f) {
        assert available + StepOutputs(d, c, j, fields) == before + [(f, Step(j, f))];
        assert (before + [(f, Step(j, f))])[..|before|] == before;
      } else {
        assert available + StepOutputs(d, c, j, fields) == before;
      }
      forall n: nat | LastGiver(d, c, fields, args, a, n) && n < k ensures LastGiver(d, c, init, args, a, n) {
        assert !Gives(d, c, fields[k], args, a);
      }
    }
  }

  lemma {:induction false} NearestInChain(d: Domain, contracts: seq<Contract>, args: set<Field>, a: Field)
    ensures (forall j: nat, n: nat :: !Offers(d, contracts, args, a, j, n)) ==>
              NearestSymbol(d, Available(d, contracts), args, a) == Live(a)
    ensures forall j: nat, n: nat :: LastOffer(d, contracts, args, a, j, n) ==>
              NearestSymbol(d, Available(d, contracts), args, a) == Step(j, contracts[j].outputFields[n])
  {
    hide NearestSymbol, StepOutputs, Gives;
    if contracts == [] {
      NothingAvailable(d, args, a);
    } else {
      var k := |contracts| - 1;
      var init, fields := contracts[..k], contracts[k].outputFields;
      NearestInChain(d, init, args, a);
      NearestInStep(d, Available(d, init), contracts[k], k, fields, args, a);
      if forall n :: 0 <= n < |fields| ==> !Gives(d, contracts[k], fields[n], args, a) {
        forall j: nat, n: nat
          ensures Offers(d, init, args, a, j, n) ==> Offers(d, contracts, args, a, j, n)
          ensures LastOffer(d, contracts, args, a, j, n) ==> LastOffer(d, init, args, a, j, n)
        {
          OffersEarlier(d, contracts, args, a, j, n);
        }
      } else {
        forall j: nat, n: nat | LastOffer(d, contracts, args, a, j, n)
          ensures j == k && LastGiver(d, contracts[k], fields, args, a, n)
        {
          LastOfferIsLate(d, contracts, contracts[k], args, a, j, n);
        }
        var n :| 0 <= n < |fields| && Gives(d, contracts[k], fields[n], args, a);
        assert Offers(d, contracts, args, a, k, n);
      }
    }
  }

  lemma LastOfferIsLate(d: Domain, contracts: seq<Contract>, c: Contract, args: set<Field>, a: Field, j: nat, n: nat)
    requires contracts != [] && c == contracts[|contracts| - 1] && LastOffer(d, contracts, args, a, j, n)
    requires exists m :: 0 <= m < |c.outputFields| && Gives(d, c, c.outputFields[m], args, a)
    ensures j == |contracts| - 1 && LastGiver(d, c, c.outputFields, args, a, n)
  {
    hide Gives;
    var k := |contracts| - 1;
    var m :| 0 <= m < |c.outputFields| && Gives(d, c, c.outputFields[m], args, a);
    assert Offers(d, contracts, args, a, k, m);
    forall l | n < l < |c.outputFields| ensures !Gives(d, c, c.outputFields[l], args, a) {
      assert Offers(d, contracts, args, a, k, l) ==> k < j || (k == j && l <= n);
    }
  }

  lemma OffersOfPrefix(d: Domain, contracts: seq<Contract>, args: set<Field>, a: Field, j: nat, n: nat)
    requires contracts != []
    ensures Offers(d, contracts[..|contracts| - 1], args, a, j, n) ==> Offers(d, contracts, args, a, j, n)
    ensures j < |contracts| - 1 && Offers(d, contracts, args, a, j, n) ==>
              Offers(d, contracts[..|contracts| - 1], args, a, j, n)
  {
    hide Gives;
  }

  /** If the last step gives nothing, the offers are those of the earlier steps. */
  lemma OffersEarlier(d: Domain, contracts: seq<Contract>, args: set<Field>, a: Field, j: nat, n: nat)
    requires contracts != []
    requires var c := contracts[|contracts| - 1];
             forall m :: 0 <= m < |c.outputFields| ==> !Gives(d, c, c.outputFields[m], args, a)
    ensures Offers(d, contracts[..|contracts| - 1], args, a, j, n) ==> Offers(d, contracts, args, a, j, n)
    ensures LastOffer(d, contracts, args, a, j, n) ==> LastOffer(d, contracts[..|contracts| - 1], args, a, j, n)
  {
    hide Gives;
    var init := contracts[..|contracts| - 1];
    OffersOfPrefix(d, contracts, args, a, j, n);
    if LastOffer(d, contracts, args, a, j, n) {
      forall k: nat, m: nat | Offers(d, init, args, a, k, m) ensures k < j || (k == j && m <= n) {
        OffersOfPrefix(d, contracts, args, a, k, m);
      }
    }
  }

  lemma NothingAvailable(d: Domain, args: set<Field>, a: Field)
    ensures NearestSymbol(d, Available(d, []), args, a) == Live(a)
  {
  }

  lemma {:induction false} SomeLastGiver(d: Domain, c: Contract, args: set<Field>, a: Field, m: nat) returns (n: nat)
    requires m < |c.outputFields| && Gives(d, c, c.outputFields[m], args, a)
    ensures LastGiver(d, c, c.outputFields, args, a, n)
    decreases |c.outputFields| - m
  {
    hide Gives;
    n := m;
    if k :| m < k < |c.outputFields| && Gives(d, c, c.outputFields[k], args, a) {
      n := SomeLastGiver(d, c, args, a, k);
    }
  }

  /** Where anything is offered, something is offered last. */
  lemma {:induction false} SomeLastOffer(d: Domain, contracts: seq<Contract>, args: set<Field>, a: Field, j: nat,
                                         m: nat) returns (k: nat, n: nat)
    requires Offers(d, contracts, args, a, j, m)
    ensures LastOffer(d, contracts, args, a, k, n)
    decreases |contracts| - j
  {
    hide Gives;
    if i: nat, l: nat :| i > j && Offers(d, contracts, args, a, i, l) {
      k, n := SomeLastOffer(d, contracts, args, a, i, l);
    } else {
      k := j;
      n := SomeLastGiver(d, contracts[j], args, a, m);
      forall i: nat, l: nat | Offers(d, contracts, args, a, i, l) ensures i < k || (i == k && l <= n) {
        assert !(i > j);
      }
    }
  }

  /** The law of binding: an argument is bound to an output of an earlier step exactly when that is the last output
      carried on so far that feeds it, and open exactly when there is none. */
  lemma BindingExactly(d: Domain, contracts: seq<Contract>, i: nat, a: Field)
    requires i < |contracts| && a in contracts[i].arguments
    ensures var step, args, before := StepAt(d, contracts, i), contracts[i].arguments, contracts[..i];
            && a in step.arguments
            && (forall j: nat, f :: step.arguments[a] == Step(j, f) <==>
                  exists n: nat :: LastOffer(d, before, args, a, j, n) && before[j].outputFields[n] == f)
            && (step.arguments[a] == Live(a) <==> forall j: nat, n: nat :: !Offers(d, before, args, a, j, n))
  {
    hide NearestSymbol, Available, Gives, LastOffer;
    var args, before := contracts[i].arguments, contracts[..i];
    NearestInChain(d, before, args, a);
    var s := NearestSymbol(d, Available(d, before), args, a);
    assert StepAt(d, contracts, i).arguments[a] == s;
    forall j: nat, n: nat | LastOffer(d, before, args, a, j, n) ensures Offers(d, before, args, a, j, n) {
      LastIsOffer(d, before, args, a, j, n);
    }
    if j: nat, m: nat :| Offers(d, before, args, a, j, m) {
      var k, n := SomeLastOffer(d, before, args, a, j, m);
      assert s == Step(k, before[k].outputFields[n]);
    }
  }

  lemma LastIsOffer(d: Domain, contracts: seq<Contract>, args: set<Field>, a: Field, j: nat, n: nat)
    ensures LastOffer(d, contracts, args, a, j, n) ==> Offers(d, contracts, args, a, j, n)
  {
  }

  lemma OutputsExactly(d: Domain, contracts: seq<Contract>, i: nat)
    requires i < |contracts|
    ensures var step, c := StepAt(d, contracts, i), contracts[i];
            && (forall a :: a in step.arguments <==> a in c.arguments)
            && (forall f :: f in step.outputs <==> f in c.outputFields)
            && (forall f :: f in c.outputFields ==> step.outputs[f] == Step(i, f))
  {
    hide NearestSymbol, Available;
    assert forall f :: f in Elems(contracts[i].outputFields) <==> f in contracts[i].outputFields;
  }

  /** A chain of two: the alias is bound, though it has another name than the output. */
  lemma AliasIsBound(d: Domain, first: Contract, second: Contract, f: Field, a: Field)
    requires first.outputFields == [f] && f in first.createdOutputFields && second.arguments == {a}
    requires f in d.aliases && d.aliases[f] == [a]
    ensures StepAt(d, [first, second], 1).arguments[a] == Step(0, f)
  {
    hide StepAt, LastOffer, Offers, Gives;
    var cs := [first, second];
    BindingExactly(d, cs, 1, a);
    assert cs[..1] == [first];
    assert AliasTaken(d, f, {a}, 0);
    OnlyOffer(d, first, f, a);
    assert cs[..1][0].outputFields[0] == f;
  }

  lemma OnlyOffer(d: Domain, first: Contract, f: Field, a: Field)
    requires first.outputFields == [f] && f in first.createdOutputFields && AliasTaken(d, f, {a}, 0)
    requires d.aliases[f][0] == a
    ensures LastOffer(d, [first], {a}, a, 0, 0)
  {
    hide AliasTaken;
    assert Gives(d, first, f, {a}, a);
    hide Gives;
  }

  // ---------------------------------------------------------------- effect

  /** The predicate, read at a step, is about this fact. */
  predicate IsAbout(p: Predicate, step: StepBindings, slot: Slot, s: Symbol) {
    p.slot == slot && SubjectKey(p.subject, step) == s
  }

  ghost predicate LastAbout(ps: seq<Predicate>, step: StepBindings, slot: Slot, s: Symbol, k: nat) {
    k < |ps| && IsAbout(ps[k], step, slot, s) && forall m :: k < m < |ps| ==> !IsAbout(ps[m], step, slot, s)
  }

  lemma {:induction false} LastSetsFact(facts: Facts, ps: seq<Predicate>, step: StepBindings, slot: Slot, s: Symbol,
                                        k: nat)
    requires LastAbout(ps, step, slot, s, k)
    ensures (slot, s) in ObservedAll(facts, ps, step)
    ensures ObservedAll(facts, ps, step)[(slot, s)] == ValueOf(ps[k].value, step)
  {
    hide SubjectKey, ValueOf;
    var n := |ps| - 1;
    if k < n {
      assert !IsAbout(ps[n], step, slot, s);
      LastSetsFact(facts, ps[..n], step, slot, s, k);
    }
  }

  lemma {:induction false} OthersKeepFact(facts: Facts, ps: seq<Predicate>, step: StepBindings, slot: Slot, s: Symbol)
    requires forall k :: 0 <= k < |ps| ==> !IsAbout(ps[k], step, slot, s)
    ensures (slot, s) in ObservedAll(facts, ps, step) <==> (slot, s) in facts
    ensures (slot, s) in facts ==> ObservedAll(facts, ps, step)[(slot, s)] == facts[(slot, s)]
  {
    hide SubjectKey, ValueOf;
    if ps != [] {
      var n := |ps| - 1;
      assert !IsAbout(ps[n], step, slot, s);
      OthersKeepFact(facts, ps[..n], step, slot, s);
    }
  }

  /** The fact that a copying tool carries from its source argument to its output, when both are the tool's own. */
  ghost predicate CopiesFact(d: Domain, c: Contract, step: StepBindings, i: nat, facts: Facts, slot: Slot, s: Symbol) {
    && c.name in d.preserving && d.preserving[c.name].0 in c.arguments && d.preserving[c.name].1 in c.outputFields
    && s == Step(i, d.preserving[c.name].1) && d.preserving[c.name].0 in step.arguments
    && (slot, step.arguments[d.preserving[c.name].0]) in facts
  }

  lemma LastIsAbout(ps: seq<Predicate>, step: StepBindings, slot: Slot, s: Symbol, k: nat)
    requires LastAbout(ps, step, slot, s, k)
    ensures k < |ps|
  {
  }

  /** The law of one step's effect: a fact becomes what the last postcondition about it says; else what a copying tool
      brings to its output; else it stays as it was. */
  lemma EffectExactly(d: Domain, contracts: seq<Contract>, i: nat, slot: Slot, s: Symbol)
    requires i < |contracts|
    ensures var facts, after := FactsBefore(d, contracts, i), FactsBefore(d, contracts, i + 1);
            var c, step := contracts[i], StepAt(d, contracts, i);
            && (forall k: nat :: LastAbout(c.postconditions, step, slot, s, k) ==>
                  (slot, s) in after && after[(slot, s)] == ValueOf(c.postconditions[k].value, step))
            && ((forall k :: 0 <= k < |c.postconditions| ==> !IsAbout(c.postconditions[k], step, slot, s)) ==>
                  if CopiesFact(d, c, step, i, facts, slot, s) then
                    (slot, s) in after && after[(slot, s)] == facts[(slot, step.arguments[d.preserving[c.name].0])]
                  else
                    && ((slot, s) in after <==> (slot, s) in facts)
                    && ((slot, s) in facts ==> after[(slot, s)] == facts[(slot, s)]))
  {
    hide StepAt, FactsBefore, SubjectKey, ValueOf, ObservedAll, Copied, LastAbout;
    var facts, c, step := FactsBefore(d, contracts, i), contracts[i], StepAt(d, contracts, i);
    FactsStep(d, contracts, i);
    OutputsExactly(d, contracts, i);
    var copy := Preservation(d, c, step);
    if copy.Some? { CopiedIs(facts, copy.value.0, copy.value.1); }
    var before := Preserved(d, facts, c, step);
    forall k: nat | LastAbout(c.postconditions, step, slot, s, k)
      ensures k < |c.postconditions| && (slot, s) in ObservedAll(before, c.postconditions, step) &&
              ObservedAll(before, c.postconditions, step)[(slot, s)] == ValueOf(c.postconditions[k].value, step)
    {
      LastIsAbout(c.postconditions, step, slot, s, k);
      LastSetsFact(before, c.postconditions, step, slot, s, k);
    }
    if forall k :: 0 <= k < |c.postconditions| ==> !IsAbout(c.postconditions[k], step, slot, s) {
      OthersKeepFact(before, c.postconditions, step, slot, s);
    }
  }

  // ---------------------------------------------------------------- reports

  /** A fact is known and definite, and the condition demands a definite other value of it. */
  predicate Refutes(facts: Facts, step: StepBindings, p: Predicate) {
    var k := (p.slot, SubjectKey(p.subject, step));
    && k in facts && facts[k] != Literal(NoneValue) && !facts[k].Unresolved?
    && !ValueOf(p.value, step).Unresolved? && facts[k] != ValueOf(p.value, step)
  }

  /** Every alternative of a non-empty group is refuted. */
  predicate RefutesGroup(facts: Facts, step: StepBindings, g: seq<Predicate>) {
    g != [] && forall k :: 0 <= k < |g| ==> Refutes(facts, step, g[k])
  }

  lemma RefutesExactly(facts: Facts, step: StepBindings, p: Predicate)
    ensures Refutes(facts, step, p) <==> Evaluation(facts, p, step) == Contradicted
  {
    hide SubjectKey, ValueOf;
  }

  /** A list of reports, one for each refuted condition, in order. */
  lemma {:induction false} PreconditionIssuesExactly(facts: Facts, c: Contract, step: StepBindings, i: nat,
                                                     ps: seq<Predicate>, x: Issue)
    ensures x in PreconditionIssues(facts, c, step, i, ps) <==>
              x.step == i && x.tool == c.name && x.condition in ps && Refutes(facts, step, x.condition)
  {
    hide Refutes, Evaluation;
    if ps != [] {
      var n := |ps| - 1;
      assert ps == ps[..n] + [ps[n]];
      PreconditionIssuesExactly(facts, c, step, i, ps[..n], x);
      RefutesExactly(facts, step, ps[n]);
    }
  }

  lemma {:induction false} GroupIssuesExactly(facts: Facts, c: Contract, step: StepBindings, i: nat,
                                              groups: seq<seq<Predicate>>, x: Issue)
    ensures x in GroupIssues(facts, c, step, i, groups) <==>
              x.step == i && x.tool == c.name &&
              exists g :: g in groups && RefutesGroup(facts, step, g) && g[0] == x.condition
  {
    hide Refutes, Evaluation;
    if groups != [] {
      var n := |groups| - 1;
      var g := groups[n];
      assert groups == groups[..n] + [g];
      GroupIssuesExactly(facts, c, step, i, groups[..n], x);
      forall k | 0 <= k < |g| ensures Refutes(facts, step, g[k]) <==> Evaluation(facts, g[k], step) == Contradicted {
        RefutesExactly(facts, step, g[k]);
      }
      assert GroupContradicted(facts, step, g) <==> RefutesGroup(facts, step, g) by {
        if RefutesGroup(facts, step, g) {
          forall p | p in g ensures Evaluation(facts, p, step) == Contradicted {
            var k :| 0 <= k < |g| && g[k] == p;
          }
        }
      }
    }
  }

  /** The law of reports: a step is reported for each precondition that a known fact refutes, and for the first
      alternative of each non-empty group whose alternatives are all refuted, and for nothing else. */
  lemma IssuesExactly(d: Domain, contracts: seq<Contract>, i: nat, x: Issue)
    requires i < |contracts|
    ensures var facts, c, step := FactsBefore(d, contracts, i), contracts[i], StepAt(d, contracts, i);
            x in IssuesAt(d, contracts, i) <==>
            && x.step == i && x.tool == c.name
            && (|| (x.condition in c.preconditions && Refutes(facts, step, x.condition))
                || exists g :: g in c.preconditionGroups && RefutesGroup(facts, step, g) && g[0] == x.condition)
  {
    hide FactsBefore, StepAt, Refutes, RefutesGroup;
    var facts, c, step := FactsBefore(d, contracts, i), contracts[i], StepAt(d, contracts, i);
    PreconditionIssuesExactly(facts, c, step, i, c.preconditions, x);
    GroupIssuesExactly(facts, c, step, i, c.preconditionGroups, x);
  }
}
