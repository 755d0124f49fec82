/**
 The retrying pair classifier (src/live_mcp/dependency_classifier.py). The Teacher is an
 arbitrary stream of replies: the n-th request may fail or return any list of entries.
 */
module Classifier {
  import opened Common
  import opened Ledger

  /** A decoded reply entry. A missing relation reads as "none"; `pairText` is the pair field
      when it splits into two parts. Any name may be unknown to the server. */
  datatype ReplyEntry =
    | NotAnEntryObject
    | ReplyEntry(relation: RawRelation, source: Option<Tool>, target: Option<Tool>, pairText: Option<Pair>)

  /** A request that raised, or whose text held no JSON, contributes no entries. */
  datatype Reply = Failed | Answer(entries: seq<ReplyEntry>)

  datatype Outcome = Raised | Incomplete | Classified(graph: Graph, ledger: seq<Entry>)

  const BATCH_RETRIES: nat := 2

  // ---------------------------------------------------------------- one entry

  predicate KnownPair(a: Tool, b: Tool, names: seq<Tool>) {
    a in names && b in names && a != b
  }

  function PairMembers(e: ReplyEntry, names: seq<Tool>): Option<Pair>
    requires e.ReplyEntry?
  {
    if e.pairText.Some? && KnownPair(e.pairText.value.0, e.pairText.value.1, names)
    then Some(SortPair(e.pairText.value.0, e.pairText.value.1))
    else if e.source.Some? && e.target.Some? && KnownPair(e.source.value, e.target.value, names)
    then Some(SortPair(e.source.value, e.target.value))
    else None
  }

  /** The ledger row an entry stands for, when it is well formed. */
  function Verdict(e: ReplyEntry, names: seq<Tool>): (row: Option<Entry>)
    ensures row.Some? ==> EntryOk(row.value)
    ensures row.Some? ==> row.value.pair.0 < row.value.pair.1
    ensures row.Some? ==> row.value.pair.0 in names && row.value.pair.1 in names
  {
    if e.NotAnEntryObject? || e.relation.UnknownRelation? then None
    else match PairMembers(e, names)
         case None => None
         case Some(pair) =>
           if e.relation.relation == NoRelation then Some(Entry(pair, None, None, NoRelation))
           else if e.source.None? || e.target.None? then None
           else if !KnownPair(e.source.value, e.target.value, names)
                   || SortPair(e.source.value, e.target.value) != pair then None
           else Some(Entry(pair, e.source, e.target, e.relation.relation))
  }

  /** The text, or the pair of names, is the pair in one order or the other. */
  predicate Spells(x: Option<Tool>, y: Option<Tool>, p: Pair) {
    (x == Some(p.0) && y == Some(p.1)) || (x == Some(p.1) && y == Some(p.0))
  }

  predicate TextSpells(e: ReplyEntry, p: Pair)
    requires e.ReplyEntry?
  {
    e.pairText.Some? && Spells(Some(e.pairText.value.0), Some(e.pairText.value.1), p)
  }

  /** The entry's pair field names the pair, or it names no two different tools and source and target do. */
  ghost predicate IsAbout(e: ReplyEntry, names: seq<Tool>, p: Pair)
    requires e.ReplyEntry?
  {
    || TextSpells(e, p)
    || (Spells(e.source, e.target, p) && forall a, b :: a in names && b in names && a != b ==> !TextSpells(e, (a, b)))
  }

  /** An entry is a row exactly when its relation is known, it is about a pair of two listed tools, and, unless the
      relation is none, its source and target are those tools. A none row drops whatever source and target say. */
  lemma VerdictExactly(e: ReplyEntry, names: seq<Tool>, row: Entry)
    ensures Verdict(e, names) == Some(row) <==>
            && e.ReplyEntry? && e.relation == Known(row.relation)
            && row.pair.0 < row.pair.1 && row.pair.0 in names && row.pair.1 in names && IsAbout(e, names, row.pair)
            && if row.relation == NoRelation then row.source == None && row.target == None
               else row.source == e.source && row.target == e.target && Spells(e.source, e.target, row.pair)
  {
    if e.ReplyEntry? {
      MembersExactly(e, names, row.pair);
    }
  }

  lemma MembersExactly(e: ReplyEntry, names: seq<Tool>, p: Pair)
    requires e.ReplyEntry?
    ensures PairMembers(e, names) == Some(p) <==>
              p.0 < p.1 && p.0 in names && p.1 in names && IsAbout(e, names, p)
  {
    if e.pairText.Some? && KnownPair(e.pairText.value.0, e.pairText.value.1, names) {
      assert TextSpells(e, e.pairText.value);
    }
  }

  // ---------------------------------------------------------------- specification

  /** The first row accepted for a pair in a log of entries. */
  function First(log: seq<ReplyEntry>, names: seq<Tool>, p: Pair): (row: Option<Entry>)
    ensures row.Some? ==> EntryOk(row.value) && row.value.pair == p
  {
    if log == [] then None
    else
      var earlier := First(log[..|log| - 1], names, p);
      if earlier.Some? then earlier
      else
        var v := Verdict(log[|log| - 1], names);
        if v.Some? && v.value.pair == p then v else None
  }

  /** A pair's row is the verdict of the first entry of the log that has one for the pair. */
  lemma {:induction false} FirstExactly(log: seq<ReplyEntry>, names: seq<Tool>, p: Pair)
    ensures First(log, names, p) == None <==> forall i :: 0 <= i < |log| ==> !DecidesPair(log[i], names, p)
    ensures First(log, names, p) != None ==>
              exists i :: 0 <= i < |log| && Verdict(log[i], names) == First(log, names, p) &&
                          DecidesPair(log[i], names, p) && forall k :: 0 <= k < i ==> !DecidesPair(log[k], names, p)
  {
    hide Verdict;
    if log != [] {
      var n := |log| - 1;
      FirstExactly(log[..n], names, p);
      if First(log[..n], names, p) != None {
        var i :| 0 <= i < n && Verdict(log[..n][i], names) == First(log[..n], names, p) &&
            DecidesPair(log[..n][i], names, p) && forall k :: 0 <= k < i ==> !DecidesPair(log[..n][k], names, p);
        assert log[i] == log[..n][i];
        forall k | 0 <= k < i ensures !DecidesPair(log[k], names, p) { assert log[..n][k] == log[k]; }
      } else {
        forall k | 0 <= k < n ensures !DecidesPair(log[k], names, p) { assert log[..n][k] == log[k]; }
        if DecidesPair(log[n], names, p) { assert Verdict(log[n], names) == First(log, names, p); }
      }
    }
  }

  predicate DecidesPair(e: ReplyEntry, names: seq<Tool>, p: Pair) {
    Verdict(e, names).Some? && Verdict(e, names).value.pair == p
  }

  function EntriesOf(r: Reply): seq<ReplyEntry> {
    if r.Failed? then [] else r.entries
  }

  /** All entries of requests from, ..., to - 1. */
  function Log(replies: nat -> Reply, from: nat, to: nat): seq<ReplyEntry> {
    if to <= from then [] else Log(replies, from, to - 1) + EntriesOf(replies(to - 1))
  }

  predicate Covered(log: seq<ReplyEntry>, names: seq<Tool>, batch: seq<Pair>) {
    forall p :: p in batch ==> First(log, names, p).Some?
  }

  /** How many requests, starting at `at`, a batch needs; None when three are not enough. */
  function Attempts(replies: nat -> Reply, at: nat, names: seq<Tool>, batch: seq<Pair>): (n: Option<nat>)
    ensures n.Some? ==> 1 <= n.value <= BATCH_RETRIES + 1
    ensures n.Some? ==> Covered(Log(replies, at, at + n.value), names, batch)
    ensures n.Some? && n.value > 1 ==> !Covered(Log(replies, at, at + n.value - 1), names, batch)
    ensures n.None? ==> !Covered(Log(replies, at, at + BATCH_RETRIES + 1), names, batch)
  {
    if Covered(Log(replies, at, at + 1), names, batch) then Some(1)
    else if Covered(Log(replies, at, at + 2), names, batch) then Some(2)
    else if Covered(Log(replies, at, at + 3), names, batch) then Some(3)
    else None
  }

  function Decisions(log: seq<ReplyEntry>, names: seq<Tool>, batch: seq<Pair>): (rows: seq<Entry>)
    requires Covered(log, names, batch)
    ensures Pairs(rows) == batch && EntriesOk(rows)
  {
    seq(|batch|, i requires 0 <= i < |batch| => First(log, names, batch[i]).value)
  }

  /** The rows of a batch that needs n requests. */
  function Answered(replies: nat -> Reply, at: nat, n: nat, names: seq<Tool>, batch: seq<Pair>): (rows: seq<Entry>)
    requires Attempts(replies, at, names, batch) == Some(n)
    ensures Pairs(rows) == batch && EntriesOk(rows)
  {
    AttemptsCover(replies, at, n, names, batch);
    Decisions(Log(replies, at, at + n), names, batch)
  }

  lemma AttemptsCover(replies: nat -> Reply, at: nat, n: nat, names: seq<Tool>, batch: seq<Pair>)
    requires Attempts(replies, at, names, batch) == Some(n)
    ensures Covered(Log(replies, at, at + n), names, batch)
  {
    hide *;
  }

  lemma AnsweredIs(replies: nat -> Reply, at: nat, n: nat, names: seq<Tool>, batch: seq<Pair>)
    requires Attempts(replies, at, names, batch) == Some(n)
    ensures Covered(Log(replies, at, at + n), names, batch)
    ensures Answered(replies, at, n, names, batch) == Decisions(Log(replies, at, at + n), names, batch)
  {
    AttemptsCover(replies, at, n, names, batch);
  }

  function Batch(pairs: seq<Pair>, size: nat): (batch: seq<Pair>)
    ensures |batch| <= |pairs| && batch == pairs[..|batch|]
    ensures size > 0 && pairs != [] ==> batch != []
  {
    if size <= |pairs| then pairs[..size] else pairs
  }

  lemma JoinRows(a: seq<Entry>, b: seq<Entry>)
    ensures Pairs(a + b) == Pairs(a) + Pairs(b)
    ensures EntriesOk(a) && EntriesOk(b) ==> EntriesOk(a + b)
  {
  }

  function Prepend(a: seq<Entry>, r: Option<seq<Entry>>): (joined: Option<seq<Entry>>)
    ensures joined.Some? <==> r.Some?
    ensures joined.Some? ==> Pairs(joined.value) == Pairs(a) + Pairs(r.value)
    ensures joined.Some? && EntriesOk(a) && EntriesOk(r.value) ==> EntriesOk(joined.value)
  {
    if r.None? then None else (JoinRows(a, r.value); Some(a + r.value))
  }

  /** The ledger rows of the remaining pairs, from request `at` on. */
  function Run(replies: nat -> Reply, at: nat, names: seq<Tool>, pairs: seq<Pair>, size: nat): Option<seq<Entry>>
    requires size > 0
    decreases |pairs|
  {
    if pairs == [] then Some([])
    else
      var batch := Batch(pairs, size);
      match Attempts(replies, at, names, batch)
      case None => None
      case Some(n) =>
        Prepend(Answered(replies, at, n, names, batch), Run(replies, at + n, names, pairs[|batch|..], size))
  }

  lemma {:induction false} RunShape(replies: nat -> Reply, at: nat, names: seq<Tool>, pairs: seq<Pair>, size: nat)
    requires size > 0 && Run(replies, at, names, pairs, size).Some?
    ensures Pairs(Run(replies, at, names, pairs, size).value) == pairs
    ensures EntriesOk(Run(replies, at, names, pairs, size).value)
    decreases |pairs|
  {
    hide Covered, Log, First, EntryOk, Prepend;
    if pairs != [] {
      var batch := Batch(pairs, size);
      var n := Attempts(replies, at, names, batch).value;
      RunShape(replies, at + n, names, pairs[|batch|..], size);
      assert pairs == batch + pairs[|batch|..];
    }
  }

  /** Whatever the Teacher replies, a completed run is a full canonical ledger, and validating it
      for the cache returns it unchanged. */
  lemma CompleteLedger(replies: nat -> Reply, names: seq<Tool>, size: nat)
    requires size > 0
    ensures var rows := Run(replies, 0, names, SortedPairs(ExpectedPairs(names)), size);
            rows.Some? ==> ValidLedger(rows.value, names) &&
                           ValidateLedger(AsRows(rows.value), names) == Some(rows.value)
  {
    var rows := Run(replies, 0, names, SortedPairs(ExpectedPairs(names)), size);
    if rows.Some? {
      RunShape(replies, 0, names, SortedPairs(ExpectedPairs(names)), size);
      ValidateIdentity(rows.value, names);
    }
  }

  lemma RunFails(replies: nat -> Reply, at: nat, names: seq<Tool>, pairs: seq<Pair>, size: nat)
    requires size > 0 && pairs != [] && Attempts(replies, at, names, Batch(pairs, size)).None?
    ensures Run(replies, at, names, pairs, size).None?
  {
    hide Attempts;
  }

  lemma RunStep(replies: nat -> Reply, at: nat, names: seq<Tool>, pairs: seq<Pair>, size: nat, n: nat, batch: seq<Pair>)
    requires size > 0 && pairs != [] && batch == Batch(pairs, size) && Attempts(replies, at, names, batch) == Some(n)
    ensures Run(replies, at, names, pairs, size) ==
            Prepend(Answered(replies, at, n, names, batch), Run(replies, at + n, names, pairs[|batch|..], size))
  {
    hide Covered, Log, First, EntriesOk, EntryOk, Verdict, Decisions, Batch, Attempts, Pairs, Prepend, ExpectedPairs;
  }

  lemma RunSplit(replies: nat -> Reply, at: nat, names: seq<Tool>, pairs: seq<Pair>, size: nat)
      returns (n: nat, batch: seq<Pair>, rest: seq<Entry>)
    requires size > 0 && pairs != [] && Run(replies, at, names, pairs, size).Some?
    ensures batch == Batch(pairs, size) && Attempts(replies, at, names, batch) == Some(n)
    ensures Run(replies, at + n, names, pairs[|batch|..], size) == Some(rest)
    ensures Covered(Log(replies, at, at + n), names, batch)
    ensures Run(replies, at, names, pairs, size) == Some(Answered(replies, at, n, names, batch) + rest)
  {
    hide *;
    batch := Batch(pairs, size);
    n := FirstBatch(replies, at, names, pairs, size);
    RunStep(replies, at, names, pairs, size, n, batch);
    PrependIs(Answered(replies, at, n, names, batch), Run(replies, at + n, names, pairs[|batch|..], size));
    rest := Run(replies, at + n, names, pairs[|batch|..], size).value;
  }

  lemma FirstBatch(replies: nat -> Reply, at: nat, names: seq<Tool>, pairs: seq<Pair>, size: nat) returns (n: nat)
    requires size > 0 && pairs != [] && Run(replies, at, names, pairs, size).Some?
    ensures Attempts(replies, at, names, Batch(pairs, size)) == Some(n)
  {
    hide *;
    if Attempts(replies, at, names, Batch(pairs, size)).None? { RunFails(replies, at, names, pairs, size); }
    n := Attempts(replies, at, names, Batch(pairs, size)).value;
  }

  lemma PrependIs(a: seq<Entry>, r: Option<seq<Entry>>)
    ensures Prepend(a, r) == if r.Some? then Some(a + r.value) else None
  {
  }

  lemma RunRow(replies: nat -> Reply, at: nat, names: seq<Tool>, pairs: seq<Pair>, size: nat, i: nat)
    requires size > 0 && Run(replies, at, names, pairs, size).Some? && i < |pairs|
    ensures Attempts(replies, at, names, Batch(pairs, size)).Some?
    ensures i < |Run(replies, at, names, pairs, size).value|
    ensures var batch := Batch(pairs, size);
            var next := at + Attempts(replies, at, names, batch).value;
            var row := Run(replies, at, names, pairs, size).value[i];
            if i < |batch| then batch[i] == pairs[i] && Some(row) == First(Log(replies, at, next), names, pairs[i])
            else
              var rest := Run(replies, next, names, pairs[|batch|..], size);
              rest.Some? && i - |batch| < |rest.value| && row == rest.value[i - |batch|]
  {
    hide Log, First, Attempts, EntriesOk, Run, Covered, Decisions, Answered;
    var n, batch, rest := RunSplit(replies, at, names, pairs, size);
    RunShape(replies, at, names, pairs, size);
    var next := at + n;
    AnsweredIs(replies, at, n, names, batch);
    var rows := Answered(replies, at, n, names, batch);
    assert |rows| == |Pairs(rows)| == |batch| && |rows + rest| == |Pairs(rows + rest)| == |pairs|;
    if i < |batch| { DecisionsAt(Log(replies, at, next), names, batch, i); }
  }

  lemma DecisionsAt(log: seq<ReplyEntry>, names: seq<Tool>, batch: seq<Pair>, i: nat)
    requires Covered(log, names, batch) && i < |batch|
    ensures i < |Decisions(log, names, batch)|
    ensures Some(Decisions(log, names, batch)[i]) == First(log, names, batch[i])
  {
  }

  /** `row` is the first accepted entry for `p` among at most three consecutive replies, the last
      of which was needed to complete the batch `p` belongs to. */
  ghost predicate FirstInWindow(replies: nat -> Reply, from: nat, to: nat, names: seq<Tool>, batch: seq<Pair>,
                                p: Pair, row: Entry) {
    && from < to <= from + BATCH_RETRIES + 1
    && p in batch
    && Covered(Log(replies, from, to), names, batch)
    && (to > from + 1 ==> !Covered(Log(replies, from, to - 1), names, batch))
    && First(Log(replies, from, to), names, p) == Some(row)
  }

  lemma HeadRow(replies: nat -> Reply, at: nat, names: seq<Tool>, pairs: seq<Pair>, size: nat, i: nat) returns (to: nat)
    requires size > 0 && Run(replies, at, names, pairs, size).Some? && i < |Batch(pairs, size)|
    ensures i < |Run(replies, at, names, pairs, size).value|
    ensures FirstInWindow(replies, at, to, names, Batch(pairs, size), pairs[i],
                          Run(replies, at, names, pairs, size).value[i])
  {
    hide Covered, Log, First, Run, Attempts, Batch, EntriesOk, Pairs;
    RunRow(replies, at, names, pairs, size, i);
    to := at + Attempts(replies, at, names, Batch(pairs, size)).value;
  }

  lemma {:induction false} RowIsFirstAccepted(replies: nat -> Reply, at: nat, names: seq<Tool>, pairs: seq<Pair>,
                                              size: nat, i: nat)
      returns (from: nat, to: nat, batch: seq<Pair>)
    requires size > 0 && Run(replies, at, names, pairs, size).Some? && i < |pairs|
    ensures at <= from && i < |Run(replies, at, names, pairs, size).value|
    ensures FirstInWindow(replies, from, to, names, batch, pairs[i], Run(replies, at, names, pairs, size).value[i])
    decreases |pairs|
  {
    hide *;
    var k := |Batch(pairs, size)|;
    if i < k {
      from, batch := at, Batch(pairs, size);
      to := HeadRow(replies, at, names, pairs, size, i);
    } else {
      RunRow(replies, at, names, pairs, size, i);
      var n := Attempts(replies, at, names, Batch(pairs, size)).value;
      from, to, batch := RowIsFirstAccepted(replies, at + n, names, pairs[k..], size, i - k);
    }
  }

  lemma {:induction false} LogGrows(replies: nat -> Reply, from: nat, to: nat, end: nat) returns (more: seq<ReplyEntry>)
    requires from <= to <= end
    ensures Log(replies, from, end) == Log(replies, from, to) + more
    decreases end
  {
    more := [];
    if to < end {
      more := LogGrows(replies, from, to, end - 1);
      assert Log(replies, from, to) + more + EntriesOf(replies(end - 1))
             == Log(replies, from, to) + (more + EntriesOf(replies(end - 1)));
      more := more + EntriesOf(replies(end - 1));
    } else {
      assert Log(replies, from, to) + [] == Log(replies, from, to);
    }
  }

  /** Further requests never uncover a batch. */
  lemma CoveredStays(replies: nat -> Reply, from: nat, to: nat, end: nat, names: seq<Tool>, batch: seq<Pair>)
    requires from <= to <= end && Covered(Log(replies, from, to), names, batch)
    ensures Covered(Log(replies, from, end), names, batch)
  {
    hide Log, First;
    var more := LogGrows(replies, from, to, end);
    forall p | p in batch ensures First(Log(replies, from, end), names, p).Some? {
      FirstConcat(Log(replies, from, to), more, names, p);
    }
  }

  lemma AttemptsExactly(replies: nat -> Reply, at: nat, names: seq<Tool>, batch: seq<Pair>)
    ensures Attempts(replies, at, names, batch).None? <==> !Covered(Log(replies, at, at + 3), names, batch)
  {
    hide Attempts, Covered, Log, First;
    if Attempts(replies, at, names, batch).Some? {
      var n := Attempts(replies, at, names, batch).value;
      CoveredStays(replies, at, at + n, at + BATCH_RETRIES + 1, names, batch);
    }
  }

  /** The k-th batch and the request it starts with, if there is one and all earlier batches were completed. */
  function Reached(replies: nat -> Reply, at: nat, names: seq<Tool>, pairs: seq<Pair>, size: nat,
                   k: nat): Option<(nat, seq<Pair>)>
    requires size > 0
    decreases k
  {
    if pairs == [] then None
    else
      var batch := Batch(pairs, size);
      if k == 0 then Some((at, batch))
      else match Attempts(replies, at, names, batch)
           case None => None
           case Some(n) => Reached(replies, at + n, names, pairs[|batch|..], size, k - 1)
  }

  /** The pairs left after k full batches. */
  function Remaining(pairs: seq<Pair>, size: nat, k: nat): seq<Pair> {
    if k == 0 then pairs else Remaining(pairs[|Batch(pairs, size)|..], size, k - 1)
  }

  /** The batches reached are those that cut the pairs into runs of the batch size. */
  lemma {:induction false} ReachedIsPartition(replies: nat -> Reply, at: nat, names: seq<Tool>, pairs: seq<Pair>,
                                              size: nat, k: nat)
    requires size > 0 && Reached(replies, at, names, pairs, size, k).Some?
    ensures var (from, batch) := Reached(replies, at, names, pairs, size, k).value;
            from >= at && Remaining(pairs, size, k) != [] && batch == Batch(Remaining(pairs, size, k), size)
    decreases k
  {
    hide Attempts, Covered, Log, EntriesOk, Batch;
    if k > 0 {
      var batch := Batch(pairs, size);
      var n := Attempts(replies, at, names, batch).value;
      ReachedIsPartition(replies, at + n, names, pairs[|batch|..], size, k - 1);
    }
  }

  /** Where the k-th run of the size starts. */
  function Start(size: nat, k: nat): nat {
    if k == 0 then 0 else size + Start(size, k - 1)
  }

  lemma {:induction false} RemainingIsTail(pairs: seq<Pair>, size: nat, k: nat)
    requires size > 0 && Remaining(pairs, size, k) != []
    ensures Start(size, k) < |pairs| && Remaining(pairs, size, k) == pairs[Start(size, k)..]
    decreases k
  {
    hide Batch;
    if k == 0 {
      assert pairs[0..] == pairs;
    } else {
      BatchExactly(pairs, size);
      if size > |pairs| {
        NothingRemains(size, k - 1);
      } else {
        RemainingIsTail(pairs[size..], size, k - 1);
        TailOfTail(pairs, size, Start(size, k - 1));
      }
    }
  }

  lemma TailOfTail(pairs: seq<Pair>, a: nat, b: nat)
    requires a + b <= |pairs|
    ensures pairs[a..][b..] == pairs[a + b..]
  {
  }

  lemma BatchExactly(pairs: seq<Pair>, size: nat)
    ensures size <= |pairs| ==> |Batch(pairs, size)| == size
    ensures size > |pairs| ==> pairs[|Batch(pairs, size)|..] == []
  {
  }

  lemma {:induction false} NothingRemains(size: nat, k: nat)
    ensures Remaining([], size, k) == []
  {
    hide Batch;
    if k > 0 {
      var nothing: seq<Pair> := [];
      assert nothing[|Batch(nothing, size)|..] == nothing;
      NothingRemains(size, k - 1);
    }
  }

  /** The k-th batch reached is the k-th run of the batch size, or what is left. */
  lemma ReachedIsSlice(replies: nat -> Reply, at: nat, names: seq<Tool>, pairs: seq<Pair>, size: nat, k: nat)
    requires size > 0 && Reached(replies, at, names, pairs, size, k).Some?
    ensures Start(size, k) < |pairs|
    ensures var start, batch := Start(size, k), Reached(replies, at, names, pairs, size, k).value.1;
            batch == if start + size <= |pairs| then pairs[start..start + size] else pairs[start..]
  {
    hide Reached, Remaining, Start;
    ReachedIsPartition(replies, at, names, pairs, size, k);
    RemainingIsTail(pairs, size, k);
  }

  /** The k-th batch was reached, and three requests from its own start leave it uncovered. */
  ghost predicate Uncovered(replies: nat -> Reply, at: nat, names: seq<Tool>, pairs: seq<Pair>, size: nat, k: nat)
    requires size > 0
  {
    match Reached(replies, at, names, pairs, size, k)
    case None => false
    case Some((from, batch)) => !Covered(Log(replies, from, from + BATCH_RETRIES + 1), names, batch)
  }

  lemma UncoveredStep(replies: nat -> Reply, at: nat, names: seq<Tool>, pairs: seq<Pair>, size: nat, k: nat)
    requires size > 0 && pairs != []
    ensures var batch := Batch(pairs, size);
            Uncovered(replies, at, names, pairs, size, k) <==>
            match Attempts(replies, at, names, batch)
            case None => k == 0
            case Some(n) => k > 0 && Uncovered(replies, at + n, names, pairs[|batch|..], size, k - 1)
  {
    hide Attempts, Covered, Log, Batch, EntriesOk;
    AttemptsExactly(replies, at, names, Batch(pairs, size));
  }

  /** A run fails exactly when three requests leave some batch of the partition uncovered. */
  lemma {:induction false} FailsOnUncoveredBatch(replies: nat -> Reply, at: nat, names: seq<Tool>, pairs: seq<Pair>,
                                                 size: nat)
    requires size > 0
    ensures Run(replies, at, names, pairs, size).None? <==>
              exists k: nat :: Uncovered(replies, at, names, pairs, size, k)
    decreases |pairs|
  {
    hide *;
    if pairs == [] {
      RunEnds(replies, at, names, size);
      forall k: nat
        ensures !Uncovered(replies, at, names, [], size, k) { NothingUncovered(replies, at, names, size, k); }
    } else {
      var batch := Batch(pairs, size);
      forall k: nat { UncoveredStep(replies, at, names, pairs, size, k); }
      match Attempts(replies, at, names, batch) {
        case None =>
          RunFails(replies, at, names, pairs, size);
          assert Uncovered(replies, at, names, pairs, size, 0);
        case Some(n) =>
          RunStep(replies, at, names, pairs, size, n, batch);
          var next, rest := at + n, pairs[|batch|..];
          PrependIs(Answered(replies, at, n, names, batch), Run(replies, next, names, rest, size));
          FailsOnUncoveredBatch(replies, next, names, rest, size);
          if k: nat :| Uncovered(replies, next, names, rest, size, k) {
            assert Uncovered(replies, at, names, pairs, size, k + 1);
          }
      }
    }
  }

  lemma NothingUncovered(replies: nat -> Reply, at: nat, names: seq<Tool>, size: nat, k: nat)
    requires size > 0
    ensures !Uncovered(replies, at, names, [], size, k)
  {
  }

  // ---------------------------------------------------------------- a faithful Teacher

  /** The entry states the row: the relation, for a directed row its source and target, and for a none row any;
      the pair in either order, in the pair field or, if that names no two tools, as source and target. */
  ghost predicate StatesRow(e: ReplyEntry, names: seq<Tool>, row: Entry) {
    && e.ReplyEntry? && e.relation == Known(row.relation) && IsAbout(e, names, row.pair)
    && (row.relation != NoRelation ==> e.source == row.source && e.target == row.target)
  }

  /** The entry says nothing: it is no object, or names no relation. */
  predicate Blank(e: ReplyEntry) {
    e.NotAnEntryObject? || e.relation.UnknownRelation?
  }

  /** In any order and as often as it likes, the reply states every row of the ledger, and nothing else. */
  ghost predicate States(r: Reply, names: seq<Tool>, l: seq<Entry>) {
    && (forall e :: e in EntriesOf(r) ==> Blank(e) || exists row :: row in l && StatesRow(e, names, row))
    && (forall row :: row in l ==> exists e :: e in EntriesOf(r) && StatesRow(e, names, row))
  }

  lemma StatedRowIsVerdict(e: ReplyEntry, names: seq<Tool>, row: Entry)
    requires EntryOk(row) && row.pair.0 < row.pair.1 && row.pair.0 in names && row.pair.1 in names
    requires StatesRow(e, names, row)
    ensures Verdict(e, names) == Some(row)
  {
    hide Verdict, IsAbout;
    VerdictExactly(e, names, row);
  }

  lemma {:induction false} FirstOfStated(entries: seq<ReplyEntry>, names: seq<Tool>, l: seq<Entry>, row: Entry)
    requires PairsAscending(Pairs(l)) && EntriesOk(l) && row in l
    requires forall e :: e in l ==> e.pair.0 < e.pair.1 && e.pair.0 in names && e.pair.1 in names
    requires forall e :: e in entries ==> Blank(e) || exists r :: r in l && StatesRow(e, names, r)
    ensures First(entries, names, row.pair) ==
            if exists e :: e in entries && StatesRow(e, names, row) then Some(row) else None
  {
    hide Verdict, EntryOk, StatesRow;
    if entries != [] {
      var k := |entries| - 1;
      var e := entries[k];
      assert entries == entries[..k] + [e];
      FirstOfStated(entries[..k], names, l, row);
      if Blank(e) {
        BlankHasNoVerdict(e, names);
        assert !StatesRow(e, names, row) by { BlankStatesNothing(e, names, row); }
      } else {
        var r :| r in l && StatesRow(e, names, r);
        assert EntryOk(r);
        StatedRowIsVerdict(e, names, r);
        SamePairSameRow(l, r, row);
        if StatesRow(e, names, row) {
          assert EntryOk(row);
          StatedRowIsVerdict(e, names, row);
        }
      }
    }
  }

  lemma BlankHasNoVerdict(e: ReplyEntry, names: seq<Tool>)
    requires Blank(e)
    ensures Verdict(e, names) == None
  {
  }

  lemma BlankStatesNothing(e: ReplyEntry, names: seq<Tool>, row: Entry)
    requires Blank(e)
    ensures !StatesRow(e, names, row)
  {
  }

  lemma SamePairSameRow(l: seq<Entry>, a: Entry, b: Entry)
    requires PairsAscending(Pairs(l)) && a in l && b in l
    ensures a.pair == b.pair ==> a == b
  {
    var i :| 0 <= i < |l| && l[i] == a;
    var j :| 0 <= j < |l| && l[j] == b;
    assert Pairs(l)[i] == a.pair && Pairs(l)[j] == b.pair;
  }

  lemma LedgerAnswers(r: Reply, l: seq<Entry>, names: seq<Tool>, from: nat, to: nat)
    requires ValidLedger(l, names) && Distinct(names) && from <= to <= |l| && States(r, names, l)
    ensures Covered(EntriesOf(r), names, Pairs(l)[from..to])
    ensures Decisions(EntriesOf(r), names, Pairs(l)[from..to]) == l[from..to]
  {
    hide First, EntryOk, StatesRow, EntriesOf;
    ExpectedAreSorted(l, names);
    forall i | from <= i < to ensures First(EntriesOf(r), names, Pairs(l)[from..to][i - from]) == Some(l[i]) {
      assert l[i] in l;
      FirstOfStated(EntriesOf(r), names, l, l[i]);
    }
  }

  lemma ExpectedAreSorted(l: seq<Entry>, names: seq<Tool>)
    requires ValidLedger(l, names) && Distinct(names)
    ensures forall e :: e in l ==> e.pair.0 < e.pair.1 && e.pair.0 in names && e.pair.1 in names
  {
    NoRepeat(names);
    forall e | e in l ensures e.pair.0 < e.pair.1 && e.pair.0 in names && e.pair.1 in names {
      var i :| 0 <= i < |l| && l[i] == e;
      assert Pairs(l)[i] in Elems(Pairs(l));
    }
  }

  lemma {:induction false} FaithfulRun(replies: nat -> Reply, l: seq<Entry>, names: seq<Tool>, size: nat, at: nat,
                                       k: nat)
    requires size > 0 && ValidLedger(l, names) && Distinct(names) && k <= |l|
    requires forall n :: States(replies(n), names, l)
    ensures Run(replies, at, names, Pairs(l)[k..], size) == Some(l[k..])
    decreases |l| - k
  {
    hide *;
    PairsSize(l);
    if k == |l| {
      RunEnds(replies, at, names, size);
      assert Pairs(l)[k..] == [] && l[k..] == [];
    } else {
      var batch := Batch(Pairs(l)[k..], size);
      var to := k + |batch|;
      assert batch == Pairs(l)[k..to];
      OneReply(replies, at);
      LedgerAnswers(replies(at), l, names, k, to);
      AttemptsIs(replies, at, names, batch, 1);
      RunStep(replies, at, names, Pairs(l)[k..], size, 1, batch);
      AnsweredIs(replies, at, 1, names, batch);
      assert Pairs(l)[k..][|batch|..] == Pairs(l)[to..];
      FaithfulRun(replies, l, names, size, at + 1, to);
      PrependIs(l[k..to], Some(l[to..]));
      assert l[k..to] + l[to..] == l[k..];
    }
  }

  lemma PairsSize(l: seq<Entry>)
    ensures |Pairs(l)| == |l|
  {
  }

  lemma OneReply(replies: nat -> Reply, at: nat)
    ensures Log(replies, at, at + 1) == EntriesOf(replies(at))
  {
    assert Log(replies, at, at) == [];
  }

  /** A Teacher that states a valid ledger in every reply, however it words it, gets exactly that ledger recorded. */
  lemma FaithfulTeacher(replies: nat -> Reply, l: seq<Entry>, names: seq<Tool>, size: nat)
    requires size > 0 && ValidLedger(l, names) && Distinct(names) && forall n :: States(replies(n), names, l)
    ensures Run(replies, 0, names, SortedPairs(ExpectedPairs(names)), size) == Some(l)
  {
    hide Run, States;
    FaithfulRun(replies, l, names, size, 0, 0);
    PairsAscendingUnique(Pairs(l), SortedPairs(ExpectedPairs(names)));
    assert Pairs(l)[0..] == Pairs(l) && l[0..] == l;
  }

  /** The reply in the format that the prompt asks for: every row with its pair, and a source and a target. */
  function AsReply(l: seq<Entry>): seq<ReplyEntry> {
    seq(|l|, i requires 0 <= i < |l| =>
      var e := l[i];
      ReplyEntry(Known(e.relation), if e.source.Some? then e.source else Some(e.pair.0),
                 if e.target.Some? then e.target else Some(e.pair.1), Some(e.pair)))
  }

  lemma AsReplyStates(l: seq<Entry>, names: seq<Tool>)
    requires ValidLedger(l, names)
    ensures States(Answer(AsReply(l)), names, l)
  {
    forall i | 0 <= i < |l| ensures StatesRow(AsReply(l)[i], names, l[i]) {
      assert l[i] in l && EntryOk(l[i]);
      assert TextSpells(AsReply(l)[i], l[i].pair);
    }
    var r := Answer(AsReply(l));
    forall e | e in EntriesOf(r) ensures Blank(e) || exists row :: row in l && StatesRow(e, names, row) {
      var i :| 0 <= i < |l| && AsReply(l)[i] == e;
      assert l[i] in l && StatesRow(e, names, l[i]);
    }
    forall row | row in l ensures exists e :: e in EntriesOf(r) && StatesRow(e, names, row) {
      var i :| 0 <= i < |l| && l[i] == row;
      assert AsReply(l)[i] in AsReply(l) && StatesRow(AsReply(l)[i], names, row);
    }
  }

  // ---------------------------------------------------------------- the loops

  type Directions = map<Pair, (Tool, Tool, Relation)>

  /** The row the builder emits for a classified pair. */
  function RowOf(directed: Directions, p: Pair): Entry {
    if p in directed then Entry(p, Some(directed[p].0), Some(directed[p].1), directed[p].2)
    else Entry(p, None, None, NoRelation)
  }

  ghost function Accepted(entries: seq<ReplyEntry>, names: seq<Tool>, valid: set<Pair>): set<Pair> {
    set p | p in valid && First(entries, names, p).Some?
  }

  /** `_consume_classifications`: only pairs of the current batch, only the first time. */
  method ConsumeClassifications(entries: seq<ReplyEntry>, valid: set<Pair>, names: seq<Tool>,
                                classified0: set<Pair>, directed0: Directions)
      returns (classified: set<Pair>, directed: Directions)
    requires directed0.Keys <= classified0
    ensures directed.Keys <= classified
    ensures classified == classified0 + Accepted(entries, names, valid)
    ensures forall p :: p in classified && p !in classified0 ==> First(entries, names, p) == Some(RowOf(directed, p))
    ensures forall p :: p in classified0 ==> RowOf(directed, p) == RowOf(directed0, p)
  {
    hide Verdict;
    classified, directed := classified0, directed0;
    for i := 0 to |entries|
      invariant directed.Keys <= classified
      invariant classified == classified0 + Accepted(entries[..i], names, valid)
      invariant forall p :: p in classified && p !in classified0 ==>
                  First(entries[..i], names, p) == Some(RowOf(directed, p))
      invariant forall p :: p in classified0 ==> RowOf(directed, p) == RowOf(directed0, p)
    {
      assert entries[..i + 1][..i] == entries[..i];
      var row := Verdict(entries[i], names);
      if row.Some? && row.value.pair in valid && row.value.pair !in classified {
        classified := classified + {row.value.pair};
        if row.value.relation != NoRelation {
          directed := directed[row.value.pair := (row.value.source.value, row.value.target.value, row.value.relation)];
        }
      }
    }
    assert entries[..|entries|] == entries;
  }

  lemma {:induction false} FirstConcat(a: seq<ReplyEntry>, b: seq<ReplyEntry>, names: seq<Tool>, p: Pair)
    ensures First(a + b, names, p) == if First(a, names, p).Some? then First(a, names, p) else First(b, names, p)
  {
    hide Verdict;
    if b == [] {
      assert a + b == a;
    } else {
      assert (a + b)[..|a + b| - 1] == a + b[..|b| - 1];
      FirstConcat(a, b[..|b| - 1], names, p);
    }
  }

  /** Requests sent for the remaining pairs, a failing batch using up its three. */
  function Used(replies: nat -> Reply, at: nat, names: seq<Tool>, pairs: seq<Pair>, size: nat): nat
    requires size > 0
    decreases |pairs|
  {
    if pairs == [] then 0
    else
      var batch := Batch(pairs, size);
      match Attempts(replies, at, names, batch)
      case None => BATCH_RETRIES + 1
      case Some(n) => n + Used(replies, at + n, names, pairs[|batch|..], size)
  }

  function BatchCount(n: nat, size: nat): nat
    requires size > 0
  {
    if n == 0 then 0 else 1 + BatchCount(if size <= n then n - size else 0, size)
  }

  /** As many batches as it takes, and no more. */
  lemma {:induction false} BatchCountExactly(n: nat, size: nat)
    requires size > 0
    ensures n <= BatchCount(n, size) * size < n + size
  {
    if n > 0 {
      var rest := if size <= n then n - size else 0;
      BatchCountExactly(rest, size);
      assert BatchCount(n, size) * size == BatchCount(rest, size) * size + size;
    }
  }

  /** The requests sent up to a batch that was reached, and three for one that fails, are among those counted. */
  lemma {:induction false} UsedExactly(replies: nat -> Reply, at: nat, names: seq<Tool>, pairs: seq<Pair>, size: nat,
                                       k: nat)
    requires size > 0
    ensures Reached(replies, at, names, pairs, size, k).Some? ==>
              Used(replies, at, names, pairs, size) > Reached(replies, at, names, pairs, size, k).value.0 - at
    ensures Uncovered(replies, at, names, pairs, size, k) ==>
              Used(replies, at, names, pairs, size) == Reached(replies, at, names, pairs, size, k).value.0 - at + 3
    decreases k
  {
    hide Covered, Log, Attempts, EntriesOk, Batch;
    if pairs != [] {
      var batch := Batch(pairs, size);
      UncoveredStep(replies, at, names, pairs, size, k);
      UsedStep(replies, at, names, pairs, size);
      if Attempts(replies, at, names, batch).Some? {
        var n := Attempts(replies, at, names, batch).value;
        if k > 0 { UsedExactly(replies, at + n, names, pairs[|batch|..], size, k - 1); }
      }
    } else {
      NothingUncovered(replies, at, names, size, k);
    }
  }

  /** At most three requests a batch, so the classifier always stops. */
  lemma {:induction false} RequestBound(replies: nat -> Reply, at: nat, names: seq<Tool>, pairs: seq<Pair>, size: nat)
    requires size > 0
    ensures Used(replies, at, names, pairs, size) <= 3 * BatchCount(|pairs|, size)
    decreases |pairs|
  {
    hide Covered, Log, First;
    if pairs != [] {
      var batch := Batch(pairs, size);
      match Attempts(replies, at, names, batch) {
        case None =>
        case Some(n) => RequestBound(replies, at + n, names, pairs[|batch|..], size);
      }
    }
  }

  /** State after the requests from, ..., to - 1 of a batch. */
  ghost predicate Tracks(log: seq<ReplyEntry>, names: seq<Tool>, batch: seq<Pair>,
                         done: set<Pair>, before: Directions, classified: set<Pair>, directed: Directions) {
    && directed.Keys <= classified
    && classified == done + Accepted(log, names, Elems(batch))
    && (forall p :: p in classified && p !in done ==> First(log, names, p) == Some(RowOf(directed, p)))
    && (forall p :: p in done ==> RowOf(directed, p) == RowOf(before, p))
  }

  lemma TracksStep(log: seq<ReplyEntry>, more: seq<ReplyEntry>, names: seq<Tool>, batch: seq<Pair>,
                   done: set<Pair>, before: Directions, c0: set<Pair>, d0: Directions, c: set<Pair>, d: Directions)
    requires Tracks(log, names, batch, done, before, c0, d0) && d.Keys <= c
    requires c == c0 + Accepted(more, names, Elems(batch))
    requires forall p :: p in c && p !in c0 ==> First(more, names, p) == Some(RowOf(d, p))
    requires forall p :: p in c0 ==> RowOf(d, p) == RowOf(d0, p)
    ensures Tracks(log + more, names, batch, done, before, c, d)
  {
    hide First, RowOf;
    forall p ensures First(log + more, names, p) ==
                     if First(log, names, p).Some? then First(log, names, p) else First(more, names, p) {
      FirstConcat(log, more, names, p);
    }
    assert c == done + Accepted(log + more, names, Elems(batch));
  }

  lemma TracksCovers(log: seq<ReplyEntry>, names: seq<Tool>, batch: seq<Pair>,
                     done: set<Pair>, before: Directions, classified: set<Pair>, directed: Directions)
    requires Tracks(log, names, batch, done, before, classified, directed)
    requires Elems(batch) !! done
    ensures Elems(batch) <= classified <==> Covered(log, names, batch)
    ensures Covered(log, names, batch) ==> classified == done + Elems(batch)
    ensures directed.Keys <= classified
  {
    hide First;
    if Elems(batch) <= classified {
      forall p | p in batch ensures First(log, names, p).Some? { assert p in Elems(batch); }
    }
  }

  /** The retry loop of one batch. */
  method ClassifyBatch(replies: nat -> Reply, at: nat, names: seq<Tool>, batch: seq<Pair>, done: set<Pair>,
                       before: Directions)
      returns (complete: bool, requests: nat, classified: set<Pair>, directed: Directions)
    requires before.Keys <= done && Elems(batch) !! done && batch != []
    ensures complete <==> Attempts(replies, at, names, batch).Some?
    ensures requests == if complete then Attempts(replies, at, names, batch).value else BATCH_RETRIES + 1
    ensures complete ==> Tracks(Log(replies, at, at + requests), names, batch, done, before, classified, directed)
    ensures complete ==> classified == done + Elems(batch)
  {
    hide *;
    classified, directed := done, before;
    complete, requests := false, 0;
    TracksNothing(replies, at, names, batch, done, before);
    while requests < BATCH_RETRIES + 1 && !complete
      invariant requests <= BATCH_RETRIES + 1
      invariant Tracks(Log(replies, at, at + requests), names, batch, done, before, classified, directed)
      invariant directed.Keys <= classified
      invariant complete ==> requests > 0 && Covered(Log(replies, at, at + requests), names, batch)
      invariant complete ==> classified == done + Elems(batch)
      invariant requests > 1 ==> !Covered(Log(replies, at, at + 1), names, batch)
      invariant requests > 2 ==> !Covered(Log(replies, at, at + 2), names, batch)
      invariant !complete && requests > 0 ==> !Covered(Log(replies, at, at + requests), names, batch)
    {
      var entries := EntriesOf(replies(at + requests));
      var c, d := ConsumeClassifications(entries, Elems(batch), names, classified, directed);
      TracksStep(Log(replies, at, at + requests), entries, names, batch, done, before, classified, directed, c, d);
      classified, directed := c, d;
      requests := requests + 1;
      LogStep(replies, at, at + requests);
      TracksCovers(Log(replies, at, at + requests), names, batch, done, before, classified, directed);
      complete := Elems(batch) <= classified;
    }
    AttemptsIs(replies, at, names, batch, requests);
  }

  lemma LogStep(replies: nat -> Reply, from: nat, to: nat)
    requires from < to
    ensures Log(replies, from, to) == Log(replies, from, to - 1) + EntriesOf(replies(to - 1))
  {
  }

  lemma TracksNothing(replies: nat -> Reply, at: nat, names: seq<Tool>, batch: seq<Pair>, done: set<Pair>,
                      before: Directions)
    requires before.Keys <= done
    ensures Tracks(Log(replies, at, at), names, batch, done, before, done, before)
  {
    assert Accepted([], names, Elems(batch)) == {};
  }

  lemma AttemptsIs(replies: nat -> Reply, at: nat, names: seq<Tool>, batch: seq<Pair>, n: nat)
    requires 0 < n <= BATCH_RETRIES + 1
    requires n > 1 ==> !Covered(Log(replies, at, at + 1), names, batch)
    requires n > 2 ==> !Covered(Log(replies, at, at + 2), names, batch)
    ensures Covered(Log(replies, at, at + n), names, batch) ==> Attempts(replies, at, names, batch) == Some(n)
    ensures n == BATCH_RETRIES + 1 && !Covered(Log(replies, at, at + n), names, batch) ==>
              Attempts(replies, at, names, batch) == None
  {
    hide Covered, Log;
  }

  ghost predicate RowsKept(rows: seq<Entry>, classified: set<Pair>, directed: Directions) {
    && directed.Keys <= classified
    && Elems(Pairs(rows)) == classified
    && forall i :: 0 <= i < |rows| ==> RowOf(directed, rows[i].pair) == rows[i]
  }

  lemma RowsKeptStep(rows: seq<Entry>, done: set<Pair>, before: Directions, log: seq<ReplyEntry>, names: seq<Tool>,
                     batch: seq<Pair>, classified: set<Pair>, directed: Directions)
    requires RowsKept(rows, done, before) && Elems(batch) !! done && Covered(log, names, batch)
    requires Tracks(log, names, batch, done, before, classified, directed)
    requires classified == done + Elems(batch)
    ensures RowsKept(rows + Decisions(log, names, batch), classified, directed)
  {
    hide First, RowOf, Covered, Accepted;
    var more := Decisions(log, names, batch);
    assert Pairs(rows + more) == Pairs(rows) + batch;
    forall p ensures p in Elems(Pairs(rows) + batch) <==> p in classified {
      assert p in Pairs(rows) + batch <==> p in Pairs(rows) || p in batch;
    }
    forall i | 0 <= i < |rows| ensures RowOf(directed, rows[i].pair) == rows[i] {
      assert Pairs(rows)[i] in Elems(Pairs(rows));
    }
    forall i | 0 <= i < |more| ensures RowOf(directed, more[i].pair) == more[i] {
      assert batch[i] in Elems(batch) && Pairs(more)[i] == batch[i];
      assert First(log, names, batch[i]) == Some(RowOf(directed, batch[i]));
    }
  }

  lemma LaterPairsFresh(pairs: seq<Pair>, start: nat, batch: seq<Pair>)
    requires PairsAscending(pairs) && start + |batch| <= |pairs| && batch == pairs[start..start + |batch|]
    ensures Elems(batch) !! Elems(pairs[..start])
  {
    forall i, j | 0 <= i < start && 0 <= j < |batch| ensures pairs[i] != batch[j] {
      assert PairLess(pairs[i], pairs[start + j]);
    }
  }

  lemma UsedStep(replies: nat -> Reply, at: nat, names: seq<Tool>, pairs: seq<Pair>, size: nat)
    requires size > 0 && pairs != []
    ensures var batch := Batch(pairs, size);
            match Attempts(replies, at, names, batch)
            case None => Used(replies, at, names, pairs, size) == BATCH_RETRIES + 1
            case Some(n) => Used(replies, at, names, pairs, size)
                            == n + Used(replies, at + n, names, pairs[|batch|..], size)
  {
    hide Covered, Log, First, Batch, Attempts;
  }

  lemma PrependPrepend(a: seq<Entry>, b: seq<Entry>, r: Option<seq<Entry>>)
    ensures Prepend(a, Prepend(b, r)) == Prepend(a + b, r)
    ensures Prepend([], r) == r
  {
    if r.Some? {
      assert a + (b + r.value) == a + b + r.value;
      assert [] + r.value == r.value;
    }
  }

  lemma RowsKeptEmpty()
    ensures RowsKept([], {}, map[]) && Pairs([]) == []
  {
    assert Elems(Pairs([])) == {};
  }

  lemma RunEnds(replies: nat -> Reply, at: nat, names: seq<Tool>, size: nat)
    requires size > 0
    ensures Run(replies, at, names, [], size) == Some([]) && Used(replies, at, names, [], size) == 0
  {
  }

  lemma PairsOfBatch(rows: seq<Entry>, more: seq<Entry>, pairs: seq<Pair>, start: nat, end: nat)
    requires start <= end <= |pairs| && Pairs(rows) == pairs[..start] && Pairs(more) == pairs[start..end]
    ensures Pairs(rows + more) == pairs[..end]
  {
    JoinRows(rows, more);
  }

  /** The loop over batches and the final listing, over the sorted list of pairs. */
  method ClassifyPairs(replies: nat -> Reply, names: seq<Tool>, pairs: seq<Pair>, size: nat)
      returns (ledger: Option<seq<Entry>>, requests: nat)
    requires size > 0 && PairsAscending(pairs)
    ensures ledger == Run(replies, 0, names, pairs, size)
    ensures requests == Used(replies, 0, names, pairs, size)
  {
    hide *;
    var classified: set<Pair>, directed: Directions := {}, map[];
    ghost var rows: seq<Entry> := [];
    var start := 0;
    requests := 0;
    RowsKeptEmpty();
    assert pairs[0..] == pairs;
    PrependPrepend([], [], Run(replies, 0, names, pairs, size));
    while start < |pairs|
      invariant start <= |pairs|
      invariant Pairs(rows) == pairs[..start] && RowsKept(rows, classified, directed)
      invariant Run(replies, 0, names, pairs, size)
                == Prepend(rows, Run(replies, requests, names, pairs[start..], size))
      invariant Used(replies, 0, names, pairs, size) == requests + Used(replies, requests, names, pairs[start..], size)
    {
      var batch := Batch(pairs[start..], size);
      var end := start + |batch|;
      KeptElems(rows, classified, directed);
      LaterPairsFresh(pairs, start, batch);
      UsedStep(replies, requests, names, pairs[start..], size);
      var complete, used, c, d := ClassifyBatch(replies, requests, names, batch, classified, directed);
      if !complete {
        RunFails(replies, requests, names, pairs[start..], size);
        PrependNone(rows);
        return None, requests + used;
      }
      ghost var log := Log(replies, requests, requests + used);
      AnsweredIs(replies, requests, used, names, batch);
      ghost var more := Answered(replies, requests, used, names, batch);
      RowsKeptStep(rows, classified, directed, log, names, batch, c, d);
      assert pairs[start..][|batch|..] == pairs[end..];
      RunStep(replies, requests, names, pairs[start..], size, used, batch);
      PrependPrepend(rows, more, Run(replies, requests + used, names, pairs[end..], size));
      PairsOfBatch(rows, more, pairs, start, end);
      rows := rows + more;
      classified, directed, requests, start := c, d, requests + used, end;
    }
    assert pairs[start..] == [] && pairs[..start] == pairs;
    RunEnds(replies, requests, names, size);
    var listing := seq(|pairs|, i requires 0 <= i < |pairs| => RowOf(directed, pairs[i]));
    ListingIsRows(rows, classified, directed, pairs);
    PrependDone(rows);
    return Some(listing), requests;
  }

  lemma KeptElems(rows: seq<Entry>, classified: set<Pair>, directed: Directions)
    requires RowsKept(rows, classified, directed)
    ensures classified == Elems(Pairs(rows)) && directed.Keys <= classified
  {
  }

  lemma PrependNone(rows: seq<Entry>)
    ensures Prepend(rows, None) == None
  {
  }

  lemma PrependDone(rows: seq<Entry>)
    ensures Prepend(rows, Some([])) == Some(rows)
  {
    assert rows + [] == rows;
  }

  lemma ListingIsRows(rows: seq<Entry>, classified: set<Pair>, directed: Directions, pairs: seq<Pair>)
    requires RowsKept(rows, classified, directed) && Pairs(rows) == pairs
    ensures seq(|pairs|, i requires 0 <= i < |pairs| => RowOf(directed, pairs[i])) == rows
  {
    hide RowOf;
    assert |rows| == |Pairs(rows)|;
    assert forall i | 0 <= i < |rows| :: rows[i].pair == Pairs(rows)[i];
  }

  /** `_classify_edges_llm`. Building the contract registry raises on a repeated tool name. */
  method ClassifyEdges(replies: nat -> Reply, names: seq<Tool>, size: nat) returns (outcome: Outcome, requests: nat)
    requires size > 0
    ensures |names| < 2 ==> outcome == Incomplete && requests == 0
    ensures |names| >= 2 && !Distinct(names) ==> outcome == Raised && requests == 0
    ensures |names| >= 2 && Distinct(names) ==>
              var pairs := SortedPairs(ExpectedPairs(names));
              && requests == Used(replies, 0, names, pairs, size)
              && requests <= (BATCH_RETRIES + 1) * BatchCount(|pairs|, size)
              && match Run(replies, 0, names, pairs, size)
                 case None => outcome == Incomplete
                 case Some(rows) => outcome == Classified(GraphFromLedger(rows, names), rows) &&
                                    ValidLedger(rows, names)
  {
    hide Run, Used, GraphFromLedger, ExpectedPairs, PartialLedger;
    if |names| < 2 { return Incomplete, 0; }
    if !Distinct(names) { return Raised, 0; }
    var pairs := SortedPairs(ExpectedPairs(names));
    var ledger;
    ledger, requests := ClassifyPairs(replies, names, pairs, size);
    RequestBound(replies, 0, names, pairs, size);
    if ledger.None? { return Incomplete, requests; }
    CompleteLedger(replies, names, size);
    ValidSourcesListed(ledger.value, names);
    var graph := GraphFromPairClassifications(ledger.value, names);
    return Classified(graph, ledger.value), requests;
  }

  lemma ValidSourcesListed(l: seq<Entry>, names: seq<Tool>)
    requires ValidLedger(l, names)
    ensures SourcesListed(l, names)
  {
    ValidIsPartial(l, names);
    forall e | e in l && e.relation != NoRelation ensures e.source.value in names {
      PairOfDirected(e, e.source.value, e.target.value, e.relation);
    }
  }
}
