/**
 One call of a process, over whole runs of the build protocol: where each step of it can lead, when the Teacher is
 asked, what becomes of a raw ledger that is found, and how failures space the attempts
 (src/live_mcp/dependency_graph_builder.py).
 */
module BuilderRuns {
  import opened Common
  import opened Ledger
  import opened RelationAudit
  import opened CacheStore
  import opened BuilderProtocol
  import Classifier

  // ---------------------------------------------------------------- steps of a process

  /** The process took a step of its call: it did not die, and no exception interrupted it. */
  ghost predicate Proceeds(c: Setup, w: World, w': World, p: Pid)
    requires c.batchSize > 0
  {
    && Next(c, w, w') && p in w.procs && p in w'.procs && w'.procs[p] != w.procs[p]
    && w'.procs[p] != FRESH && w'.procs[p].pc != Raised(Interrupted)
  }

  lemma OthersStand(c: Setup, w: World, w': World, q: Pid, p: Pid)
    requires c.batchSize > 0 && StepOf(c, w, w', q) && p != q && p in w.procs
    ensures p in w'.procs && w'.procs[p] == w.procs[p]
  {
    hide Load, UsableProvenance, LedgerIn, EarliestUsable, SaveResult, AsRows, Classifier.Run, GraphFromLedger;
  }

  /** A process changes by its own steps only. */
  lemma OwnStep(c: Setup, w: World, w': World, p: Pid)
    requires c.batchSize > 0 && Next(c, w, w') && p in w.procs && p in w'.procs && w'.procs[p] != w.procs[p]
    ensures StepOf(c, w, w', p)
  {
    hide StepOf;
    var q :| StepOf(c, w, w', q);
    if q != p { OthersStand(c, w, w', q, p); }
  }

  lemma ProcessesStay(c: Setup, w: World, w': World, p: Pid)
    requires c.batchSize > 0 && Next(c, w, w') && p in w.procs
    ensures p in w'.procs
  {
    hide Load, UsableProvenance, LedgerIn, EarliestUsable, SaveResult, AsRows, Classifier.Run, GraphFromLedger;
  }

  /** The unlocked load returns what the file holds, and otherwise goes on. */
  lemma LeavesLoading(c: Setup, w: World, w': World, p: Pid)
    requires c.batchSize > 0 && Proceeds(c, w, w', p) && At(w, p, Loading)
    ensures w'.procs[p].pc == match Load(c.site, w.file) case Some(g) => Returned(g) case None => Checking
  {
    hide Load, UsableProvenance, LedgerIn, EarliestUsable, SaveResult, AsRows, Classifier.Run, GraphFromLedger, Next;
    OwnStep(c, w, w', p);
  }

  /** So does the load under the lock. */
  lemma LeavesReloading(c: Setup, w: World, w': World, p: Pid)
    requires c.batchSize > 0 && Proceeds(c, w, w', p) && At(w, p, Reloading)
    ensures w'.procs[p].pc == match Load(c.site, w.file) case Some(g) => Returned(g) case None => Seeking
  {
    hide Load, UsableProvenance, LedgerIn, EarliestUsable, SaveResult, AsRows, Classifier.Run, GraphFromLedger, Next;
    OwnStep(c, w, w', p);
  }

  /** A file of the cache directory: one of the others, or the cache file itself under its name. */
  ghost predicate InDirectory(c: Setup, w: World, f: Candidate) {
    f in w.others || (w.file.Some? && f == Candidate(c.fileName, w.file.value))
  }

  ghost predicate Usable(c: Setup, w: World, f: Candidate) {
    InDirectory(c, w, f) && UsableProvenance(c.site, c.legacyHash, f.content)
  }

  /** Dated before undated, then the older, then the smaller name. */
  predicate Precedes(a: Candidate, b: Candidate)
    requires a.content.Stored? && b.content.Stored?
  {
    var s, t := a.content.payload.createdAt, b.content.payload.createdAt;
    || (s != 0 && (t == 0 || s < t))
    || (s == t && a.name < b.name)
  }

  /** A usable file that no other precedes. */
  ghost predicate Foremost(c: Setup, w: World, f: Candidate) {
    Usable(c, w, f) && f.content.Stored? && forall g :: Usable(c, w, g) && g.content.Stored? ==> !Precedes(g, f)
  }

  lemma DirectoryExactly(c: Setup, w: World, f: Candidate)
    ensures f in Directory(c, w) <==> InDirectory(c, w, f)
  {
  }

  lemma UsableIsStored(c: Setup, w: World, f: Candidate)
    requires Usable(c, w, f)
    ensures f.content.Stored?
  {
    hide LedgerIn;
  }

  /** A process leaves the search for the Teacher only if no file of the directory is usable, and otherwise to save the
      raw graph and ledger of a usable file that none precedes. */
  lemma LeavesSeeking(c: Setup, w: World, w': World, p: Pid)
    requires c.batchSize > 0 && Proceeds(c, w, w', p) && At(w, p, Seeking)
    ensures w'.procs[p].pc == Classifying <==> forall f :: !Usable(c, w, f)
    ensures w'.procs[p].pc != Classifying ==>
              exists f :: Foremost(c, w, f) && LedgerIn(c.site, f.content.payload).Some? &&
                          w'.procs[p].pc == Saving(f.content.payload.rawGraph,
                                                   LedgerIn(c.site, f.content.payload).value)
  {
    hide Load, UsableProvenance, LedgerIn, SaveResult, AsRows, Classifier.Run, GraphFromLedger, Next, Directory;
    OwnStep(c, w, w', p);
    assert Seek(c, w, w', p);
    var found :| EarliestUsable(c.site, c.legacyHash, Directory(c, w), found) &&
        w' == if found.Some? then Reuse(c, w, p, found.value.content) else Goto(w, p, Classifying);
    forall f ensures f in Directory(c, w) <==> InDirectory(c, w, f) { DirectoryExactly(c, w, f); }
    if found.Some? {
      var f := found.value;
      assert Usable(c, w, f);
      UsableIsStored(c, w, f);
      UsableHasLedger(c, f.content);
      forall g | Usable(c, w, g) ensures g.content.Stored? && !Precedes(g, f) {
        UsableIsStored(c, w, g);
        assert Earlier(f, g);
      }
    }
  }

  lemma UsableHasLedger(c: Setup, content: Content)
    requires UsableProvenance(c.site, c.legacyHash, content)
    ensures content.Stored? && LedgerIn(c.site, content.payload).Some?
  {
    hide LedgerIn;
  }

  /** The Teacher's answers, if they complete the classification. */
  ghost predicate Classified(c: Setup, rows: Option<seq<Entry>>)
    requires c.batchSize > 0
  {
    exists replies: nat -> Classifier.Reply ::
      Classifier.Run(replies, 0, c.site.names, SortedPairs(ExpectedPairs(c.site.names)), c.batchSize) == rows
  }

  /** What the Teacher's answers come to is saved with its own graph; answers that leave a pair open fail the call. */
  lemma LeavesClassifying(c: Setup, w: World, w': World, p: Pid)
    requires c.batchSize > 0 && Proceeds(c, w, w', p) && At(w, p, Classifying)
    ensures || (w'.procs[p].pc == Raised(ClassificationIncomplete) && Classified(c, None))
            || exists rows :: Classified(c, Some(rows)) &&
                              w'.procs[p].pc == Saving(AsRaw(GraphFromLedger(rows, c.site.names)), rows)
  {
    hide Load, UsableProvenance, LedgerIn, EarliestUsable, SaveResult, AsRows, Classifier.Run, GraphFromLedger, Next,
      ExpectedPairs;
    OwnStep(c, w, w', p);
    assert Classify(c, w, w', p);
    var replies: nat -> Classifier.Reply :|
      match Classifier.Run(replies, 0, c.site.names, SortedPairs(ExpectedPairs(c.site.names)), c.batchSize)
      case None => w' == Fail(w, p, ClassificationIncomplete)
      case Some(rows) => w' == Goto(w, p, Saving(AsRaw(GraphFromLedger(rows, c.site.names)), rows));
    var result := Classifier.Run(replies, 0, c.site.names, SortedPairs(ExpectedPairs(c.site.names)), c.batchSize);
    assert Classified(c, result);
  }

  /** A call whose process failed too recently is refused, and any other waits for the lock. */
  lemma LeavesChecking(c: Setup, w: World, w': World, p: Pid)
    requires c.batchSize > 0 && Proceeds(c, w, w', p) && At(w, p, Checking)
    ensures var failedAt := w.procs[p].failedAt;
            w'.procs[p].pc == if failedAt.Some? && w.clock < failedAt.value + c.retryTime then Raised(RetrySuppressed)
                              else Waiting
  {
    hide Load, UsableProvenance, LedgerIn, EarliestUsable, SaveResult, AsRows, Classifier.Run, GraphFromLedger, Next;
    OwnStep(c, w, w', p);
  }

  /** In a run, what is saved is written, and then returned as it loads. */
  lemma LeavesSaving(c: Setup, w: World, w': World, p: Pid)
    requires Invariant(c, w) && Proceeds(c, w, w', p) && p in w.procs && w.procs[p].pc.Saving?
    ensures w'.procs[p].pc == Rereading
    ensures exists now :: w'.file == SaveResult(c.site, w.procs[p].pc.graph, AsRows(w.procs[p].pc.rows), Some([]), now)
  {
    hide Load, UsableProvenance, LedgerIn, EarliestUsable, SaveResult, AsRows, Classifier.Run, GraphFromLedger, Next,
      Accepts, Invariant;
    InvariantAt(c, w, p);
    OwnStep(c, w, w', p);
    var now :| Save(c, w, w', p, now);
    SavedIsLoadable(c, w.procs[p].pc.graph, w.procs[p].pc.rows, now);
  }

  lemma LeavesRereading(c: Setup, w: World, w': World, p: Pid)
    requires Invariant(c, w) && Proceeds(c, w, w', p) && At(w, p, Rereading)
    ensures Load(c.site, w.file).Some? && w'.procs[p].pc == Returned(Load(c.site, w.file).value)
  {
    hide Load, UsableProvenance, LedgerIn, EarliestUsable, SaveResult, AsRows, Classifier.Run, GraphFromLedger, Next,
      Accepts, Invariant;
    InvariantAt(c, w, p);
    OwnStep(c, w, w', p);
  }

  // ---------------------------------------------------------------- no call is stuck

  lemma Taken(c: Setup, w: World, w': World, p: Pid)
    requires c.batchSize > 0 && StepOf(c, w, w', p) && p in w.procs && p in w'.procs && w'.procs[p] != w.procs[p]
    requires w'.procs[p] != FRESH && w'.procs[p].pc != Raised(Interrupted)
    ensures Proceeds(c, w, w', p)
  {
    hide StepOf, Next;
    StepIsNext(c, w, w', p);
  }

  /** Before the Teacher is asked and after, a process in a call can take a step of it that no exception interrupts,
      unless it waits for a lock that is held. */
  lemma CanProceed(c: Setup, w: World, p: Pid)
    requires Invariant(c, w) && p in w.procs
    requires w.procs[p].pc in {Discovering, Loading, Checking, Waiting, Reloading, Rereading} || w.procs[p].pc.Saving?
    requires w.procs[p].pc == Waiting ==> w.lock == None
    ensures exists w' :: Proceeds(c, w, w', p)
  {
    hide Load, UsableProvenance, LedgerIn, EarliestUsable, AsRows, Classifier.Run, GraphFromLedger, Next, Accepts,
      Invariant, SaveResult, Proceeds;
    InvariantAt(c, w, p);
    var pc := w.procs[p].pc;
    if pc == Discovering {
      Taken(c, w, w.(procs := w.procs[p := w.procs[p].(pc := Loading, discovery := Listed)]), p);
    } else if pc == Loading {
      Taken(c, w, Goto(w, p, match Load(c.site, w.file) case Some(g) => Returned(g) case None => Checking), p);
    } else if pc == Checking {
      var failedAt := w.procs[p].failedAt;
      Taken(c, w, if failedAt.Some? && w.clock < failedAt.value + c.retryTime then Goto(w, p, Raised(RetrySuppressed))
                  else w.(procs := w.procs[p := w.procs[p].(pc := Waiting, failedAt := None)]), p);
    } else if pc == Waiting {
      Taken(c, w, Goto(w.(lock := Some(p)), p, Reloading), p);
    } else if pc == Reloading {
      Taken(c, w, match Load(c.site, w.file) case Some(g) => Leave(w, p, Returned(g)) case None => Goto(w, p, Seeking),
            p);
    } else if pc == Rereading {
      Taken(c, w, Leave(w, p, match Load(c.site, w.file) case Some(g) => Returned(g) case None => Raised(NotReloaded)),
            p);
    } else {
      SavedIsLoadable(c, pc.graph, pc.rows, 0);
      var result := SaveResult(c.site, pc.graph, AsRows(pc.rows), Some([]), 0);
      var w' := Goto(w.(file := result), p, Rereading);
      assert Save(c, w, w', p, 0);
      Taken(c, w, w', p);
    }
  }

  lemma {:induction false} SomeEarliest(c: Setup, files: seq<Candidate>) returns (found: Option<Candidate>)
    ensures EarliestUsable(c.site, c.legacyHash, files, found)
  {
    hide UsableProvenance;
    found := None;
    if files != [] {
      var k := |files| - 1;
      assert files == files[..k] + [files[k]];
      found := SomeEarliest(c, files[..k]);
      if UsableProvenance(c.site, c.legacyHash, files[k].content) {
        UsableHasLedger(c, files[k].content);
        if found.Some? { UsableHasLedger(c, found.value.content); }
        forall f | f in files && UsableProvenance(c.site, c.legacyHash, f.content) ensures f.content.Stored? {
          UsableHasLedger(c, f.content);
        }
        if found.None? || !Earlier(found.value, files[k]) { found := Some(files[k]); }
      }
    }
  }

  /** So can one that searches the directory, and one that asks, whatever ledger the Teacher states. */
  lemma CanProceedByLedger(c: Setup, w: World, p: Pid, rows: seq<Entry>)
    requires Invariant(c, w) && p in w.procs && ValidLedger(rows, c.site.names)
    ensures At(w, p, Seeking) ==> exists w' :: Proceeds(c, w, w', p)
    ensures At(w, p, Classifying) ==>
              exists w' :: Proceeds(c, w, w', p) &&
                           w'.procs[p].pc == Saving(AsRaw(GraphFromLedger(rows, c.site.names)), rows)
  {
    hide Load, UsableProvenance, LedgerIn, AsRows, Classifier.Run, GraphFromLedger, Next, Accepts, Invariant,
      SaveResult, ValidLedger, Classifier.AsReply, Classifier.States, ExpectedPairs, EarliestUsable, Proceeds;
    InvariantAt(c, w, p);
    if At(w, p, Seeking) {
      var found := SomeEarliest(c, Directory(c, w));
      if found.Some? { FoundIsUsable(c, Directory(c, w), found.value); }
      var w' := if found.Some? then Reuse(c, w, p, found.value.content) else Goto(w, p, Classifying);
      assert Seek(c, w, w', p);
      Taken(c, w, w', p);
    }
    if At(w, p, Classifying) {
      var replies: nat -> Classifier.Reply := n => Classifier.Answer(Classifier.AsReply(rows));
      assert forall n :: Classifier.States(replies(n), c.site.names, rows) by {
        Classifier.AsReplyStates(rows, c.site.names);
      }
      Classifier.FaithfulTeacher(replies, rows, c.site.names, c.batchSize);
      var w' := Goto(w, p, Saving(AsRaw(GraphFromLedger(rows, c.site.names)), rows));
      assert Classify(c, w, w', p);
      Taken(c, w, w', p);
    }
  }

  lemma FoundIsUsable(c: Setup, files: seq<Candidate>, f: Candidate)
    requires EarliestUsable(c.site, c.legacyHash, files, Some(f))
    ensures UsableProvenance(c.site, c.legacyHash, f.content)
  {
    hide UsableProvenance;
  }

  // ---------------------------------------------------------------- the Teacher is asked only when needed

  ghost predicate Present(run: seq<World>, p: Pid, i: nat) {
    i < |run| && p in run[i].procs
  }

  lemma NextOf(c: Setup, run: seq<World>, i: nat)
    requires Behaviour(c, run) && i + 1 < |run|
    ensures c.batchSize > 0 && Next(c, run[i], run[i + 1])
  {
    hide Next, Init;
  }

  /** A process that asks the Teacher got there in a step at which the cache file did not load and no file of the
      directory was usable. */
  lemma {:induction false} AskedOnlyWithoutLedger(c: Setup, run: seq<World>, i: nat, p: Pid) returns (k: nat)
    requires Behaviour(c, run) && i < |run| && At(run[i], p, Classifying)
    ensures k < i && At(run[k], p, Seeking) && forall m :: k < m <= i ==> At(run[m], p, Classifying)
    ensures Load(c.site, run[k].file).None? && forall f :: !Usable(c, run[k], f)
  {
    hide Next, Load, Behaviour, Usable;
    if i == 0 {
      NotYet(c, run, p);
    } else {
      NextOf(c, run, i - 1);
      var w, w' := run[i - 1], run[i];
      AlwaysInvariant(c, run, i - 1);
      if p !in w.procs {
        NewcomersAreFresh(c, w, w', p);
      } else if w.procs[p].pc == Classifying {
        k := AskedOnlyWithoutLedger(c, run, i - 1, p);
      } else {
        EntersClassifying(c, w, w', p);
        LeavesSeeking(c, w, w', p);
        InvariantAt(c, w, p);
        k := i - 1;
      }
    }
  }

  lemma NotYet(c: Setup, run: seq<World>, p: Pid)
    requires Behaviour(c, run)
    ensures p in run[0].procs ==> run[0].procs[p] == FRESH
  {
    hide Next;
  }

  lemma NewcomersAreFresh(c: Setup, w: World, w': World, p: Pid)
    requires c.batchSize > 0 && Next(c, w, w') && p !in w.procs && p in w'.procs
    ensures w'.procs[p] == FRESH
  {
    hide Load, UsableProvenance, LedgerIn, EarliestUsable, SaveResult, AsRows, Classifier.Run, GraphFromLedger;
  }

  lemma EntersClassifying(c: Setup, w: World, w': World, p: Pid)
    requires c.batchSize > 0 && Next(c, w, w') && p in w.procs && At(w', p, Classifying) && !At(w, p, Classifying)
    ensures At(w, p, Seeking) && Proceeds(c, w, w', p)
  {
    hide Load, UsableProvenance, LedgerIn, EarliestUsable, SaveResult, AsRows, Classifier.Run, GraphFromLedger, Next;
    OwnStep(c, w, w', p);
  }

  // ---------------------------------------------------------------- a raw ledger that is found is used

  /** The call goes on to save these rows, or has: then the file loads as their audited graph, or it was returned. */
  ghost predicate Carries(c: Setup, w: World, p: Pid, rows: seq<Entry>) {
    && p in w.procs
    && match w.procs[p].pc
       case Saving(_, r) => r == rows
       case Rereading => Load(c.site, w.file) == Some(AuditedGraph(c.site.basis, rows, c.site.names))
       case Returned(g) => g == AuditedGraph(c.site.basis, rows, c.site.names)
       case Raised(_) => true
       case _ => false
  }

  lemma SavingLoads(c: Setup, graph: RawGraph, rows: seq<Entry>, now: nat)
    requires Accepts(c.site, graph, AsRows(rows), Some([])) && ValidLedger(rows, c.site.names)
    ensures var result := SaveResult(c.site, graph, AsRows(rows), Some([]), now);
            result.Some? && Load(c.site, result) == Some(AuditedGraph(c.site.basis, rows, c.site.names))
  {
    hide Accepts, Load, PayloadOf, AuditedGraph, ValidLedger;
    ValidateIdentity(rows, c.site.names);
    SaveThenLoad(c.site, graph, AsRows(rows), Some([]), now);
  }

  /** The process's own steps keep this until the next call. */
  lemma CarriesOwnStep(c: Setup, w: World, w': World, p: Pid, rows: seq<Entry>)
    requires Invariant(c, w) && StepOf(c, w, w', p) && Carries(c, w, p, rows) && ValidLedger(rows, c.site.names)
    requires p in w'.procs && w'.procs[p].pc != Idle
    ensures Carries(c, w', p, rows)
  {
    hide Load, UsableProvenance, LedgerIn, EarliestUsable, AsRows, Classifier.Run, GraphFromLedger, AuditedGraph,
      SaveResult, Accepts, ValidLedger, Invariant;
    InvariantAt(c, w, p);
    if w.procs[p].pc.Saving? {
      var pc := w.procs[p].pc;
      forall now { SavingLoads(c, pc.graph, rows, now); }
    }
  }

  lemma CarriesOtherStep(c: Setup, w: World, w': World, p: Pid, rows: seq<Entry>)
    requires Invariant(c, w) && Next(c, w, w') && Carries(c, w, p, rows)
    requires p in w'.procs && w'.procs[p] == w.procs[p]
    ensures Carries(c, w', p, rows)
  {
    hide Load, Next, Invariant, AuditedGraph;
    StepFile(c, w, w');
  }

  /** The ledger that a file of the directory supplies. */
  ghost predicate Supplies(c: Setup, w: World, f: Candidate, rows: seq<Entry>) {
    && Foremost(c, w, f) && LedgerIn(c.site, f.content.payload) == Some(rows) && ValidLedger(rows, c.site.names)
  }

  lemma {:induction false} FoundLedgerIsCarried(c: Setup, run: seq<World>, i: nat, j: nat, p: Pid)
      returns (f: Candidate, rows: seq<Entry>)
    requires Behaviour(c, run) && i < j < |run| && At(run[i], p, Seeking) && (exists g :: Usable(c, run[i], g))
    requires Proceeds(c, run[i], run[i + 1], p)
    requires forall k :: i < k <= j ==> p in run[k].procs && run[k].procs[p].pc != Idle
    ensures Supplies(c, run[i], f, rows)
    ensures forall k :: i < k <= j ==> Carries(c, run[k], p, rows)
    decreases j
  {
    hide Next, Load, Behaviour, Usable, LedgerIn, Foremost, Supplies, Carries, ValidLedger, AuditedGraph, Proceeds,
      Invariant;
    if j == i + 1 {
      f, rows := FoundLedgerIsSaved(c, run, i, p);
    } else {
      f, rows := FoundLedgerIsCarried(c, run, i, j - 1, p);
      NextOf(c, run, j - 1);
      AlwaysInvariant(c, run, j - 1);
      assert ValidLedger(rows, c.site.names) by { SuppliedIsValid(c, run[i], f, rows); }
      if run[j].procs[p] == run[j - 1].procs[p] {
        CarriesOtherStep(c, run[j - 1], run[j], p, rows);
      } else {
        OwnStep(c, run[j - 1], run[j], p);
        CarriesOwnStep(c, run[j - 1], run[j], p, rows);
      }
    }
  }

  lemma SuppliedIsValid(c: Setup, w: World, f: Candidate, rows: seq<Entry>)
    requires Supplies(c, w, f, rows)
    ensures ValidLedger(rows, c.site.names)
  {
    hide Foremost, LedgerIn;
  }

  lemma FoundLedgerIsSaved(c: Setup, run: seq<World>, i: nat, p: Pid) returns (f: Candidate, rows: seq<Entry>)
    requires Behaviour(c, run) && i + 1 < |run| && At(run[i], p, Seeking) && (exists g :: Usable(c, run[i], g))
    requires Proceeds(c, run[i], run[i + 1], p)
    ensures Supplies(c, run[i], f, rows) && Carries(c, run[i + 1], p, rows)
  {
    hide Next, Load, Behaviour, Usable, LedgerIn, ValidLedger, AuditedGraph, Precedes;
    NextOf(c, run, i);
    LeavesSeeking(c, run[i], run[i + 1], p);
    f :| Foremost(c, run[i], f) && LedgerIn(c.site, f.content.payload).Some? &&
      run[i + 1].procs[p].pc == Saving(f.content.payload.rawGraph, LedgerIn(c.site, f.content.payload).value);
    rows := LedgerIn(c.site, f.content.payload).value;
    ForemostLedger(c, run, i, f);
  }

  /** Once a process leaves the search while some file is usable, a file that none precedes supplies the ledger: in this
      call the Teacher is never asked, and what the call returns is that ledger's audited graph. */
  lemma FoundLedgerIsUsed(c: Setup, run: seq<World>, i: nat, j: nat, p: Pid) returns (f: Candidate, rows: seq<Entry>)
    requires Behaviour(c, run) && i < j < |run| && At(run[i], p, Seeking) && (exists g :: Usable(c, run[i], g))
    requires Proceeds(c, run[i], run[i + 1], p)
    requires forall k :: i < k <= j ==> p in run[k].procs && run[k].procs[p].pc != Idle
    ensures Supplies(c, run[i], f, rows)
    ensures forall k :: i < k <= j ==> !At(run[k], p, Classifying)
    ensures run[j].procs[p].pc.Returned? ==> run[j].procs[p].pc.result == AuditedGraph(c.site.basis, rows, c.site.names)
  {
    hide Next, Load, Behaviour, Usable, Supplies, AuditedGraph, Proceeds;
    f, rows := FoundLedgerIsCarried(c, run, i, j, p);
  }

  lemma ForemostLedger(c: Setup, run: seq<World>, i: nat, f: Candidate)
    requires Behaviour(c, run) && i < |run| && Foremost(c, run[i], f)
    ensures LedgerIn(c.site, f.content.payload).Some?
    ensures ValidLedger(LedgerIn(c.site, f.content.payload).value, c.site.names)
  {
    hide Next, Init, LedgerIn, ValidLedger, Accepts;
    ProvenanceIsAccepted(c.site, c.legacyHash, f.content);
  }

  // ---------------------------------------------------------------- failures space the attempts

  /** The k-th step is the failure of a classification. */
  ghost predicate FailsAt(run: seq<World>, k: nat, p: Pid) {
    k + 1 < |run| && At(run[k], p, Classifying) && At(run[k + 1], p, Raised(ClassificationIncomplete))
  }

  /** The process has not died since. */
  ghost predicate Lives(run: seq<World>, p: Pid, from: nat, to: nat) {
    forall m :: from < m <= to && m < |run| ==> p in run[m].procs && run[m].procs[p] != FRESH
  }

  lemma ClockRuns(c: Setup, w: World, w': World)
    requires c.batchSize > 0 && Next(c, w, w')
    ensures w'.clock >= w.clock
  {
    hide Load, UsableProvenance, LedgerIn, EarliestUsable, SaveResult, AsRows, Classifier.Run, GraphFromLedger;
  }

  /** A step that fails notes the time, and no other changes the note but the death of the process. */
  lemma FailureNoted(c: Setup, w: World, w': World, p: Pid)
    requires c.batchSize > 0 && Next(c, w, w') && p in w.procs && p in w'.procs && Invariant(c, w) && Invariant(c, w')
    ensures At(w, p, Classifying) && At(w', p, Raised(ClassificationIncomplete)) ==>
              w'.procs[p].lastFailure == w'.procs[p].failedAt == Some(w.clock)
    ensures !(At(w, p, Classifying) && At(w', p, Raised(ClassificationIncomplete))) && w'.procs[p] != FRESH ==>
              && w'.procs[p].lastFailure == w.procs[p].lastFailure
              && w'.procs[p].failedAt in {None, w.procs[p].failedAt}
  {
    hide Load, UsableProvenance, LedgerIn, EarliestUsable, SaveResult, AsRows, Classifier.Run, GraphFromLedger, Next,
      Invariant;
    InvariantAt(c, w', p);
    if w'.procs[p] != w.procs[p] { OwnStep(c, w, w', p); }
  }

  lemma {:induction false} FailureRemembered(c: Setup, run: seq<World>, k: nat, i: nat, p: Pid)
    requires Behaviour(c, run) && FailsAt(run, k, p) && k < i < |run| && Lives(run, p, k, i)
    ensures run[i].procs[p].lastFailure.Some? && run[i].procs[p].lastFailure.value >= run[k].clock
    ensures run[i].clock >= run[k].clock
    decreases i
  {
    hide Next, Behaviour, Invariant;
    NextOf(c, run, i - 1);
    AlwaysInvariant(c, run, i - 1);
    AlwaysInvariant(c, run, i);
    ClockRuns(c, run[i - 1], run[i]);
    if k < i - 1 { FailureRemembered(c, run, k, i - 1, p); }
    FailureNoted(c, run[i - 1], run[i], p);
  }

  /** After a classification that failed, the same process asks the Teacher again only when `retryTime` has passed. */
  lemma AttemptsAreSpaced(c: Setup, run: seq<World>, k: nat, i: nat, p: Pid)
    requires Behaviour(c, run) && FailsAt(run, k, p) && k < i < |run| && Lives(run, p, k, i)
    requires At(run[i], p, Classifying)
    ensures run[i].clock >= run[k].clock + c.retryTime
  {
    hide Behaviour;
    FailureRemembered(c, run, k, i, p);
    FailedAttemptsAreSpaced(c, run, i, p);
  }

  lemma {:induction false} NoteHasFailure(c: Setup, run: seq<World>, i: nat, p: Pid) returns (k: nat)
    requires Behaviour(c, run) && i < |run| && p in run[i].procs && run[i].procs[p].failedAt.Some?
    ensures k < i && FailsAt(run, k, p) && run[k].clock == run[i].procs[p].failedAt.value
  {
    hide Next, Behaviour, Invariant;
    if i == 0 {
      NotYet(c, run, p);
    } else {
      NextOf(c, run, i - 1);
      AlwaysInvariant(c, run, i - 1);
      AlwaysInvariant(c, run, i);
      if p !in run[i - 1].procs {
        NewcomersAreFresh(c, run[i - 1], run[i], p);
      } else {
        FailureNoted(c, run[i - 1], run[i], p);
        if FailsAt(run, i - 1, p) { k := i - 1; } else { k := NoteHasFailure(c, run, i - 1, p); }
      }
    }
  }

  /** And a call is refused for that reason only when a classification of the same process failed less than `retryTime`
      before. */
  lemma SuppressionIsDeserved(c: Setup, run: seq<World>, i: nat, p: Pid) returns (k: nat)
    requires Behaviour(c, run) && i + 1 < |run| && p in run[i].procs && p in run[i + 1].procs
    requires run[i].procs[p] != run[i + 1].procs[p] && run[i + 1].procs[p].pc == Raised(RetrySuppressed)
    ensures k < i && FailsAt(run, k, p) && run[i].clock < run[k].clock + c.retryTime
  {
    hide Next, Behaviour;
    NextOf(c, run, i);
    OwnStep(c, run[i], run[i + 1], p);
    SuppressedBy(c, run[i], run[i + 1], p);
    k := NoteHasFailure(c, run, i, p);
  }

  lemma SuppressedBy(c: Setup, w: World, w': World, p: Pid)
    requires c.batchSize > 0 && StepOf(c, w, w', p) && p in w.procs && p in w'.procs
    requires w'.procs[p] != w.procs[p] && w'.procs[p].pc == Raised(RetrySuppressed)
    ensures w.procs[p].failedAt.Some? && w.clock < w.procs[p].failedAt.value + c.retryTime
  {
    hide Load, UsableProvenance, LedgerIn, EarliestUsable, SaveResult, AsRows, Classifier.Run, GraphFromLedger;
  }
}
