/**
 Building the dependency graph of one server by many processes
 (src/live_mcp/dependency_graph_builder.py): load, lock, reload, reuse or classify, save, reload.
 The processes share one cache file, replaced atomically, and one file lock, which the operating
 system frees when its holder dies. A step below is one access to what they share.
 */
module BuilderProtocol {
  import opened Common
  import opened Ledger
  import opened RelationAudit
  import opened CacheStore
  import Classifier

  type Pid = nat

  /** What the processes agree on: the site, the cache file's name, the hash of older schema
      versions, the batch size and the time a failed classification suppresses retries. */
  datatype Setup = Setup(site: Site, fileName: nat, legacyHash: nat -> nat, batchSize: nat, retryTime: nat)

  datatype Reason = RetrySuppressed | ClassificationIncomplete | SaveRefused | NotReloaded | Interrupted

  datatype Pc =
    | Idle                                         // between calls
    | Discovering                                  // asking the server for its tools
    | Loading                                      // about to load without the lock
    | Checking                                     // missed; about to consult the failure table
    | Waiting                                      // for the file lock
    | Reloading                                    // holds the lock; about to load again
    | Seeking                                      // holds the lock; about to look for a raw ledger
    | Classifying                                  // holds the lock; asking the Teacher
    | Saving(graph: RawGraph, rows: seq<Entry>)    // holds the lock; about to save
    | Rereading                                    // holds the lock; saved, about to load
    | Returned(result: Graph)
    | Raised(reason: Reason)

  /** What the current call learned about the server's tools: nothing yet, the site's tool list, or no list of
      two tools or more. */
  datatype Discovery = Pending | Listed | Failed

  /** `failedAt` is the failure table's entry; `lastFailure` remembers it after it is dropped. */
  datatype Process = Process(pc: Pc, failedAt: Option<nat>, lastFailure: Option<nat>, discovery: Discovery)

  const FRESH := Process(Idle, None, None, Pending)

  datatype World = World(file: Option<Content>, others: seq<Candidate>, lock: Option<Pid>, clock: nat,
                         procs: map<Pid, Process>)

  predicate WellFormedSetup(c: Setup) {
    |c.site.names| >= 2 && Distinct(c.site.names) && c.batchSize > 0
  }

  predicate Holds(pc: Pc) {
    pc.Reloading? || pc.Seeking? || pc.Classifying? || pc.Saving? || pc.Rereading?
  }

  /** Past the second load and before the save is reloaded: the file is known to be unusable. */
  predicate Building(pc: Pc) {
    pc.Seeking? || pc.Classifying? || pc.Saving?
  }

  predicate Attempting(pc: Pc) {
    pc.Waiting? || Holds(pc)
  }

  // ---------------------------------------------------------------- steps

  ghost predicate Init(c: Setup, w: World) {
    w.lock == None && forall p :: p in w.procs ==> w.procs[p] == FRESH
  }

  function Goto(w: World, p: Pid, pc: Pc): World
    requires p in w.procs
  {
    w.(procs := w.procs[p := w.procs[p].(pc := pc)])
  }

  /** Leaving the locked block, by return or by exception. */
  function Leave(w: World, p: Pid, pc: Pc): World
    requires p in w.procs
  {
    Goto(w.(lock := None), p, pc)
  }

  /** Leaving it through an exception that is recorded in the failure table. */
  function Fail(w: World, p: Pid, reason: Reason): World
    requires p in w.procs
  {
    w.(lock := None,
       procs := w.procs[p := w.procs[p].(pc := Raised(reason), failedAt := Some(w.clock),
                                         lastFailure := Some(w.clock))])
  }

  ghost predicate At(w: World, p: Pid, pc: Pc) {
    p in w.procs && w.procs[p].pc == pc
  }

  ghost predicate Call(c: Setup, w: World, w': World, p: Pid) {
    At(w, p, Idle) && w' == w.(procs := w.procs[p := w.procs[p].(pc := Discovering, discovery := Pending)])
  }

  /** Tool discovery either lists the tools, or the call returns the empty graph. */
  ghost predicate Discover(c: Setup, w: World, w': World, p: Pid) {
    && At(w, p, Discovering)
    && (|| w' == w.(procs := w.procs[p := w.procs[p].(pc := Loading, discovery := Listed)])
        || w' == w.(procs := w.procs[p := w.procs[p].(pc := Returned(map[]), discovery := Failed)]))
  }

  ghost predicate FirstLoad(c: Setup, w: World, w': World, p: Pid) {
    At(w, p, Loading) &&
    w' == Goto(w, p, match Load(c.site, w.file) case Some(g) => Returned(g) case None => Checking)
  }

  ghost predicate Check(c: Setup, w: World, w': World, p: Pid) {
    && At(w, p, Checking)
    && var failedAt := w.procs[p].failedAt;
       if failedAt.Some? && w.clock < failedAt.value + c.retryTime then w' == Goto(w, p, Raised(RetrySuppressed))
       else w' == w.(procs := w.procs[p := w.procs[p].(pc := Waiting, failedAt := None)])
  }

  ghost predicate Acquire(c: Setup, w: World, w': World, p: Pid) {
    At(w, p, Waiting) && w.lock == None && w' == Goto(w.(lock := Some(p)), p, Reloading)
  }

  ghost predicate SecondLoad(c: Setup, w: World, w': World, p: Pid) {
    && At(w, p, Reloading)
    && match Load(c.site, w.file)
       case Some(g) => w' == Leave(w, p, Returned(g))
       case None => w' == Goto(w, p, Seeking)
  }

  /** The cache directory: this file and those of other contracts. */
  function Directory(c: Setup, w: World): seq<Candidate> {
    w.others + if w.file.Some? then [Candidate(c.fileName, w.file.value)] else []
  }

  function Reuse(c: Setup, w: World, p: Pid, content: Content): World
    requires p in w.procs && UsableProvenance(c.site, c.legacyHash, content)
  {
    Goto(w, p, Saving(content.payload.rawGraph, LedgerIn(c.site, content.payload).value))
  }

  /** The earliest usable file supplies the raw ledger; without one the Teacher is asked. */
  ghost predicate Seek(c: Setup, w: World, w': World, p: Pid) {
    && At(w, p, Seeking)
    && exists found :: EarliestUsable(c.site, c.legacyHash, Directory(c, w), found) &&
         w' == if found.Some? then Reuse(c, w, p, found.value.content) else Goto(w, p, Classifying)
  }

  ghost predicate Classify(c: Setup, w: World, w': World, p: Pid)
    requires c.batchSize > 0
  {
    && At(w, p, Classifying)
    && exists replies: nat -> Classifier.Reply ::
         match Classifier.Run(replies, 0, c.site.names, SortedPairs(ExpectedPairs(c.site.names)), c.batchSize)
         case None => w' == Fail(w, p, ClassificationIncomplete)
         case Some(rows) => w' == Goto(w, p, Saving(AsRaw(GraphFromLedger(rows, c.site.names)), rows))
  }

  ghost predicate Save(c: Setup, w: World, w': World, p: Pid, now: nat) {
    && p in w.procs && w.procs[p].pc.Saving?
    && var pc := w.procs[p].pc;
       match SaveResult(c.site, pc.graph, AsRows(pc.rows), Some([]), now)
       case Some(content) => w' == Goto(w.(file := Some(content)), p, Rereading)
       case None => w' == Fail(w, p, SaveRefused)
  }

  /** The save raises after the file was replaced. */
  ghost predicate Interrupt(c: Setup, w: World, w': World, p: Pid, now: nat) {
    && p in w.procs && w.procs[p].pc.Saving?
    && var pc := w.procs[p].pc;
       var result := SaveResult(c.site, pc.graph, AsRows(pc.rows), Some([]), now);
       result.Some? && w' == Leave(w.(file := Some(result.value)), p, Raised(Interrupted))
  }

  /** An exception ends the call anywhere, before anything was written: the lock is released if it was held,
      and the failure table is left as it is. */
  ghost predicate Escape(c: Setup, w: World, w': World, p: Pid) {
    && p in w.procs && !w.procs[p].pc.Idle? && !w.procs[p].pc.Returned? && !w.procs[p].pc.Raised?
    && w' == Goto(w.(lock := if w.lock == Some(p) then None else w.lock), p, Raised(Interrupted))
  }

  ghost predicate Reread(c: Setup, w: World, w': World, p: Pid) {
    At(w, p, Rereading) &&
    w' == Leave(w, p, match Load(c.site, w.file) case Some(g) => Returned(g) case None => Raised(NotReloaded))
  }

  ghost predicate Done(c: Setup, w: World, w': World, p: Pid) {
    p in w.procs && (w.procs[p].pc.Returned? || w.procs[p].pc.Raised?) && w' == Goto(w, p, Idle)
  }

  /** A process dies and another starts in its place. */
  ghost predicate Crash(c: Setup, w: World, w': World, p: Pid) {
    p in w.procs &&
    w' == w.(lock := if w.lock == Some(p) then None else w.lock, procs := w.procs[p := FRESH])
  }

  /** Time passes; programs with other contracts rewrite their own files; processes appear. */
  ghost predicate Environment(c: Setup, w: World, w': World) {
    && w'.file == w.file && w'.lock == w.lock && w'.clock >= w.clock
    && (forall p :: p in w.procs ==> p in w'.procs && w'.procs[p] == w.procs[p])
    && (forall p :: p in w'.procs && p !in w.procs ==> w'.procs[p] == FRESH)
  }

  ghost predicate StepOf(c: Setup, w: World, w': World, p: Pid)
    requires c.batchSize > 0
  {
    || Call(c, w, w', p) || Discover(c, w, w', p) || FirstLoad(c, w, w', p) || Check(c, w, w', p) ||
       Acquire(c, w, w', p)
    || SecondLoad(c, w, w', p) || Seek(c, w, w', p) || Classify(c, w, w', p)
    || (exists now :: Save(c, w, w', p, now)) || (exists now :: Interrupt(c, w, w', p, now))
    || Reread(c, w, w', p) || Done(c, w, w', p) || Escape(c, w, w', p) || Crash(c, w, w', p)
  }

  ghost predicate Next(c: Setup, w: World, w': World)
    requires c.batchSize > 0
  {
    Environment(c, w, w') || exists p :: StepOf(c, w, w', p)
  }

  // ---------------------------------------------------------------- the invariant

  ghost predicate ProcessOk(c: Setup, w: World, p: Pid, q: Process) {
    && (Holds(q.pc) <==> w.lock == Some(p))
    && (Building(q.pc) ==> Load(c.site, w.file).None?)
    && (q.pc.Rereading? ==> Load(c.site, w.file).Some?)
    && (q.pc.Saving? ==> Accepts(c.site, q.pc.graph, AsRows(q.pc.rows), Some([])))
    && (q.pc.Returned? ==>
          if q.discovery.Failed? then q.pc.result == map[]
          else q.discovery.Listed? && Load(c.site, w.file) == Some(q.pc.result))
    && (q.pc.Loading? || q.pc.Checking? || Attempting(q.pc) ==> q.discovery.Listed?)
    && q.pc != Raised(SaveRefused) && q.pc != Raised(NotReloaded)
    && (q.failedAt.Some? ==> q.lastFailure == q.failedAt)
    && (q.failedAt.None? && q.lastFailure.Some? ==> w.clock >= q.lastFailure.value + c.retryTime)
    && (Attempting(q.pc) ==> q.failedAt.None?)
  }

  ghost predicate Invariant(c: Setup, w: World) {
    && WellFormedSetup(c)
    && (forall p :: p in w.procs ==> ProcessOk(c, w, p, w.procs[p]))
    && (w.lock.Some? ==> w.lock.value in w.procs)
  }

  lemma InitEstablishes(c: Setup, w: World)
    requires WellFormedSetup(c) && Init(c, w)
    ensures Invariant(c, w)
  {
    hide Load, Accepts;
  }

  /** A step that leaves the file alone and keeps every other process keeps the invariant if its
      own process is fine afterwards. */
  lemma LocalStep(c: Setup, w: World, w': World, p: Pid)
    requires Invariant(c, w) && p in w.procs && w'.procs.Keys == w.procs.Keys
    requires forall q :: q in w.procs && q != p ==> w'.procs[q] == w.procs[q]
    requires w'.clock == w.clock && w'.file == w.file
    requires w'.lock == w.lock || (w.lock == None && w'.lock == Some(p)) || (w.lock == Some(p) && w'.lock == None)
    requires ProcessOk(c, w', p, w'.procs[p])
    ensures Invariant(c, w')
  {
    hide Load, Accepts;
    forall q | q in w'.procs ensures ProcessOk(c, w', q, w'.procs[q]) {
      if q != p { assert ProcessOk(c, w, q, w.procs[q]); }
    }
  }

  /** A step that replaces an unusable file, by the lock's holder, with a usable one. */
  lemma ReplacingStep(c: Setup, w: World, w': World, p: Pid)
    requires Invariant(c, w) && p in w.procs && w.procs[p].pc.Saving? && w'.procs.Keys == w.procs.Keys
    requires forall q :: q in w.procs && q != p ==> w'.procs[q] == w.procs[q]
    requires w'.clock == w.clock && w'.lock in {None, Some(p)}
    requires ProcessOk(c, w', p, w'.procs[p])
    ensures Invariant(c, w')
  {
    hide Load, Accepts;
    assert ProcessOk(c, w, p, w.procs[p]);
    forall q | q in w'.procs ensures ProcessOk(c, w', q, w'.procs[q]) {
      if q != p { assert ProcessOk(c, w, q, w.procs[q]); }
    }
  }

  lemma SavedIsLoadable(c: Setup, graph: RawGraph, rows: seq<Entry>, now: nat)
    requires Accepts(c.site, graph, AsRows(rows), Some([]))
    ensures var result := SaveResult(c.site, graph, AsRows(rows), Some([]), now);
            result.Some? && Load(c.site, result).Some?
  {
    hide Accepts, Load, PayloadOf, AuditedGraph, ValidateLedger;
    SaveThenLoad(c.site, graph, AsRows(rows), Some([]), now);
  }

  lemma SeekAccepted(c: Setup, content: Content)
    requires WellFormedSetup(c) && UsableProvenance(c.site, c.legacyHash, content)
    ensures Accepts(c.site, content.payload.rawGraph, AsRows(LedgerIn(c.site, content.payload).value), Some([]))
  {
    hide Accepts, LedgerIn;
    ProvenanceIsAccepted(c.site, c.legacyHash, content);
  }

  lemma ClassifiedAccepted(c: Setup, replies: nat -> Classifier.Reply)
    requires WellFormedSetup(c)
    ensures var rows := Classifier.Run(replies, 0, c.site.names, SortedPairs(ExpectedPairs(c.site.names)), c.batchSize);
            rows.Some? ==> Accepts(c.site, AsRaw(GraphFromLedger(rows.value, c.site.names)), AsRows(rows.value),
                                   Some([]))
  {
    hide Accepts, ValidLedger, Classifier.Run, GraphFromLedger;
    Classifier.CompleteLedger(replies, c.site.names, c.batchSize);
    var rows := Classifier.Run(replies, 0, c.site.names, SortedPairs(ExpectedPairs(c.site.names)), c.batchSize);
    if rows.Some? { OwnGraphsAccepted(c.site, rows.value); }
  }

  lemma StepKeepsInvariant(c: Setup, w: World, w': World, p: Pid)
    requires Invariant(c, w) && StepOf(c, w, w', p)
    ensures Invariant(c, w')
  {
    hide Invariant, Call, Discover, FirstLoad, Check, Acquire, SecondLoad, Seek, Classify, Save, Interrupt, Reread,
      Done, Escape, Crash;
    InvariantAt(c, w, p);
    if Escape(c, w, w', p) || Crash(c, w, w', p) {
      LeavingStep(c, w, w', p);
    } else if Seek(c, w, w', p) {
      SeekingStep(c, w, w', p);
    } else if Classify(c, w, w', p) {
      ClassifyingStep(c, w, w', p);
    } else if now :| Save(c, w, w', p, now) || Interrupt(c, w, w', p, now) {
      SavingStep(c, w, w', p, now);
    } else if SecondLoad(c, w, w', p) || Reread(c, w, w', p) {
      LockedLoadStep(c, w, w', p);
    } else if Call(c, w, w', p) || Discover(c, w, w', p) || Done(c, w, w', p) {
      OuterStep(c, w, w', p);
    } else {
      UnlockedStep(c, w, w', p);
    }
  }

  /** An exception, or the death of the process. */
  lemma LeavingStep(c: Setup, w: World, w': World, p: Pid)
    requires Invariant(c, w) && (Escape(c, w, w', p) || Crash(c, w, w', p))
    ensures Invariant(c, w')
  {
    hide Load, Accepts, Invariant, AsRows;
    InvariantAt(c, w, p);
    LocalStep(c, w, w', p);
  }

  /** The steps at which a call begins and ends. */
  lemma OuterStep(c: Setup, w: World, w': World, p: Pid)
    requires Invariant(c, w) && (Call(c, w, w', p) || Discover(c, w, w', p) || Done(c, w, w', p))
    ensures Invariant(c, w')
  {
    hide Load, Accepts, Invariant, AsRows;
    InvariantAt(c, w, p);
    LocalStep(c, w, w', p);
  }

  /** The steps before the lock is held. */
  lemma UnlockedStep(c: Setup, w: World, w': World, p: Pid)
    requires Invariant(c, w) && (FirstLoad(c, w, w', p) || Check(c, w, w', p) || Acquire(c, w, w', p))
    ensures Invariant(c, w')
  {
    hide Load, Accepts, Invariant, AsRows;
    InvariantAt(c, w, p);
    LocalStep(c, w, w', p);
  }

  /** The two loads under the lock. */
  lemma LockedLoadStep(c: Setup, w: World, w': World, p: Pid)
    requires Invariant(c, w) && (SecondLoad(c, w, w', p) || Reread(c, w, w', p))
    ensures Invariant(c, w')
  {
    hide Load, Accepts, Invariant, AsRows;
    InvariantAt(c, w, p);
    LocalStep(c, w, w', p);
  }

  lemma SeekingStep(c: Setup, w: World, w': World, p: Pid)
    requires Invariant(c, w) && Seek(c, w, w', p)
    ensures Invariant(c, w')
  {
    hide Load, Accepts, Invariant, AsRows, LedgerIn, UsableProvenance, Directory;
    InvariantAt(c, w, p);
    var found :| EarliestUsable(c.site, c.legacyHash, Directory(c, w), found) &&
      w' == if found.Some? then Reuse(c, w, p, found.value.content) else Goto(w, p, Classifying);
    if found.Some? { SeekAccepted(c, found.value.content); }
    LocalStep(c, w, w', p);
  }

  lemma InvariantAt(c: Setup, w: World, p: Pid)
    requires Invariant(c, w)
    ensures WellFormedSetup(c) && (p in w.procs ==> ProcessOk(c, w, p, w.procs[p]))
  {
    hide ProcessOk;
  }

  lemma SavingStep(c: Setup, w: World, w': World, p: Pid, now: nat)
    requires Invariant(c, w) && (Save(c, w, w', p, now) || Interrupt(c, w, w', p, now))
    ensures Invariant(c, w')
  {
    hide Load, Accepts, SaveResult, Invariant, AsRows;
    InvariantAt(c, w, p);
    var pc := w.procs[p].pc;
    SavedIsLoadable(c, pc.graph, pc.rows, now);
    ReplacingStep(c, w, w', p);
  }

  lemma ClassifyingStep(c: Setup, w: World, w': World, p: Pid)
    requires Invariant(c, w) && Classify(c, w, w', p)
    ensures Invariant(c, w')
  {
    hide Load, Accepts, Invariant, AsRows, AsRaw, GraphFromLedger, Classifier.Run;
    InvariantAt(c, w, p);
    var replies: nat -> Classifier.Reply :|
      match Classifier.Run(replies, 0, c.site.names, SortedPairs(ExpectedPairs(c.site.names)), c.batchSize)
      case None => w' == Fail(w, p, ClassificationIncomplete)
      case Some(rows) => w' == Goto(w, p, Saving(AsRaw(GraphFromLedger(rows, c.site.names)), rows));
    ClassifiedAccepted(c, replies);
    LocalStep(c, w, w', p);
  }

  lemma EnvironmentKeepsInvariant(c: Setup, w: World, w': World)
    requires Invariant(c, w) && Environment(c, w, w')
    ensures Invariant(c, w')
  {
    hide Load, Accepts;
    forall q | q in w'.procs ensures ProcessOk(c, w', q, w'.procs[q]) {
      if q in w.procs { assert ProcessOk(c, w, q, w.procs[q]); }
    }
  }

  lemma NextKeepsInvariant(c: Setup, w: World, w': World)
    requires Invariant(c, w) && Next(c, w, w')
    ensures Invariant(c, w')
  {
    hide Environment, StepOf, ProcessOk;
    if Environment(c, w, w') {
      EnvironmentKeepsInvariant(c, w, w');
    } else {
      var p :| StepOf(c, w, w', p);
      StepKeepsInvariant(c, w, w', p);
    }
  }

  // ---------------------------------------------------------------- every interleaving

  ghost predicate Behaviour(c: Setup, run: seq<World>) {
    && WellFormedSetup(c) && run != [] && Init(c, run[0])
    && forall i :: 0 <= i < |run| - 1 ==> Next(c, run[i], run[i + 1])
  }

  lemma {:induction false} AlwaysInvariant(c: Setup, run: seq<World>, i: nat)
    requires Behaviour(c, run) && i < |run|
    ensures Invariant(c, run[i])
  {
    hide Next, Invariant, Init;
    if i == 0 {
      InitEstablishes(c, run[0]);
    } else {
      AlwaysInvariant(c, run, i - 1);
      NextKeepsInvariant(c, run[i - 1], run[i]);
    }
  }

  /** One step keeps a loadable file; and a step that changes the file makes it loadable. */
  lemma StepFile(c: Setup, w: World, w': World)
    requires Invariant(c, w) && Next(c, w, w')
    ensures Load(c.site, w.file).Some? ==> w'.file == w.file
    ensures w'.file != w.file ==> Load(c.site, w.file).None? && Load(c.site, w'.file).Some?
  {
    hide Load, Accepts, SaveResult, Seek, Classify, Invariant, AsRows;
    if w'.file != w.file {
      assert !Environment(c, w, w') && c.batchSize > 0 by { InvariantAt(c, w, 0); }
      var p :| StepOf(c, w, w', p);
      SeekKeepsFile(c, w, w', p);
      InvariantAt(c, w, p);
      var pc := w.procs[p].pc;
      if now :| Save(c, w, w', p, now) {
        SavedIsLoadable(c, pc.graph, pc.rows, now);
      } else {
        var now :| Interrupt(c, w, w', p, now);
        SavedIsLoadable(c, pc.graph, pc.rows, now);
      }
    }
  }

  lemma SeekKeepsFile(c: Setup, w: World, w': World, p: Pid)
    requires c.batchSize > 0
    ensures Seek(c, w, w', p) || Classify(c, w, w', p) ==> w'.file == w.file
  {
    hide UsableProvenance, Classifier.Run, LedgerIn, EarliestUsable;
  }

  /** Once the cache file loads, it never changes again. */
  lemma {:induction false} CacheIsStable(c: Setup, run: seq<World>, i: nat, j: nat)
    requires Behaviour(c, run) && i <= j < |run| && Load(c.site, run[i].file).Some?
    ensures run[j].file == run[i].file
    decreases j - i
  {
    hide Next, Load, Init;
    if i < j {
      CacheIsStable(c, run, i, j - 1);
      AlwaysInvariant(c, run, j - 1);
      StepFile(c, run[j - 1], run[j]);
    }
  }

  /** The file is replaced at most once in a whole run, whatever was in it at the start. */
  lemma CacheChangesOnce(c: Setup, run: seq<World>, i: nat, j: nat)
    requires Behaviour(c, run) && i < |run| - 1 && j < |run| - 1
    requires run[i].file != run[i + 1].file && run[j].file != run[j + 1].file
    ensures i == j
  {
    hide Next, Load, Init, Invariant;
    AlwaysInvariant(c, run, i);
    AlwaysInvariant(c, run, j);
    StepFile(c, run[i], run[i + 1]);
    StepFile(c, run[j], run[j + 1]);
    if i < j { CacheIsStable(c, run, i + 1, j); }
    if j < i { CacheIsStable(c, run, j + 1, i); }
  }

  /** Once the file loads, no process looks for a raw ledger, asks the Teacher or saves. */
  lemma NobodyBuildsLater(c: Setup, run: seq<World>, i: nat, j: nat, p: Pid)
    requires Behaviour(c, run) && i <= j < |run| && Load(c.site, run[i].file).Some? && p in run[j].procs
    ensures !Building(run[j].procs[p].pc)
  {
    hide Behaviour, Load, Invariant;
    CacheIsStable(c, run, i, j);
    AlwaysInvariant(c, run, j);
    InvariantAt(c, run[j], p);
  }

  /** At most one process at a time is inside the locked block. */
  lemma MutualExclusion(c: Setup, run: seq<World>, i: nat, p: Pid, q: Pid)
    requires Behaviour(c, run) && i < |run| && p in run[i].procs && q in run[i].procs
    requires Holds(run[i].procs[p].pc) && Holds(run[i].procs[q].pc)
    ensures p == q
  {
    hide Behaviour, Load, Invariant;
    AlwaysInvariant(c, run, i);
    InvariantAt(c, run[i], p);
    InvariantAt(c, run[i], q);
  }

  /** What a call returns, at any time in any process: the empty graph exactly when tool discovery failed, and
      otherwise one and the same graph, the audited graph of a complete ledger. */
  lemma AllReturnTheSameGraph(c: Setup, run: seq<World>, i: nat, p: Pid, j: nat, q: Pid)
    requires Behaviour(c, run) && i < |run| && j < |run| && p in run[i].procs && q in run[j].procs
    requires run[i].procs[p].pc.Returned? && run[j].procs[q].pc.Returned?
    ensures run[i].procs[p].pc.result == map[] <==> run[i].procs[p].discovery.Failed?
    ensures run[i].procs[p].pc.result != map[] && run[j].procs[q].pc.result != map[] ==>
              run[i].procs[p].pc.result == run[j].procs[q].pc.result
    ensures run[i].procs[p].pc.result != map[] ==>
              exists rows :: ValidLedger(rows, c.site.names) &&
                run[i].procs[p].pc.result == AuditedGraph(c.site.basis, rows, c.site.names)
  {
    hide Behaviour, Load, Invariant, ValidLedger, AuditedGraph;
    AlwaysInvariant(c, run, i);
    AlwaysInvariant(c, run, j);
    InvariantAt(c, run[i], p);
    InvariantAt(c, run[j], q);
    if !run[i].procs[p].discovery.Failed? {
      LoadIsAudited(c.site, run[i].file);
      LoadedIsNotEmpty(c.site, run[i].file);
      if !run[j].procs[q].discovery.Failed? {
        if i <= j { CacheIsStable(c, run, i, j); } else { CacheIsStable(c, run, j, i); }
      }
    }
  }

  lemma LoadedIsNotEmpty(site: Site, file: Option<Content>)
    requires Load(site, file).Some?
    ensures Load(site, file).value != map[]
  {
    hide Load;
    LoadIsAudited(site, file);
    EmptyIsInvalid(site.names);
  }

  lemma EmptyIsInvalid(names: seq<Tool>)
    ensures !ValidGraph(AsRaw(map[]), names)
  {
    assert AsRaw(map[]).nodes.Keys == {};
  }

  /** The two defensive exits are unreachable: a built graph is never refused by the save, and a
      saved graph always reloads. */
  lemma DefensiveExitsUnreachable(c: Setup, run: seq<World>, i: nat, p: Pid)
    requires Behaviour(c, run) && i < |run| && p in run[i].procs
    ensures run[i].procs[p].pc != Raised(SaveRefused) && run[i].procs[p].pc != Raised(NotReloaded)
  {
    hide Behaviour, Load, Invariant;
    AlwaysInvariant(c, run, i);
    InvariantAt(c, run[i], p);
  }

  /** A process never asks the Teacher again until its last failed classification is `retryTime` old. */
  lemma FailedAttemptsAreSpaced(c: Setup, run: seq<World>, i: nat, p: Pid)
    requires Behaviour(c, run) && i < |run| && At(run[i], p, Classifying) && run[i].procs[p].lastFailure.Some?
    ensures run[i].clock >= run[i].procs[p].lastFailure.value + c.retryTime
  {
    hide Behaviour, Load, Invariant;
    AlwaysInvariant(c, run, i);
    InvariantAt(c, run[i], p);
  }

  // ---------------------------------------------------------------- every result is reachable

  function Sole(file: Option<Content>, lock: Option<Pid>, pc: Pc): World {
    World(file, [], lock, 0, map[0 := Process(pc, None, None, if pc.Idle? || pc.Discovering? then Pending else Listed)])
  }

  lemma StepIsNext(c: Setup, w: World, w': World, p: Pid)
    requires c.batchSize > 0 && StepOf(c, w, w', p)
    ensures Next(c, w, w')
  {
  }

  /** One process, no file, and a Teacher that states a ledger. */
  function Solo(c: Setup, rows: seq<Entry>, content: Content, graph: Graph): seq<World> {
    [Sole(None, None, Idle), Sole(None, None, Discovering), Sole(None, None, Loading), Sole(None, None, Checking),
     Sole(None, None, Waiting),
     Sole(None, Some(0), Reloading), Sole(None, Some(0), Seeking), Sole(None, Some(0), Classifying),
     Sole(None, Some(0), Saving(AsRaw(GraphFromLedger(rows, c.site.names)), rows)),
     Sole(Some(content), Some(0), Rereading), Sole(Some(content), None, Returned(graph))]
  }

  lemma SoloStarts(c: Setup)
    requires WellFormedSetup(c)
    ensures Next(c, Sole(None, None, Idle), Sole(None, None, Discovering))
    ensures Next(c, Sole(None, None, Discovering), Sole(None, None, Loading))
    ensures Next(c, Sole(None, None, Loading), Sole(None, None, Checking))
    ensures Next(c, Sole(None, None, Checking), Sole(None, None, Waiting))
  {
    hide Loadable, Next;
    assert Call(c, Sole(None, None, Idle), Sole(None, None, Discovering), 0);
    StepIsNext(c, Sole(None, None, Idle), Sole(None, None, Discovering), 0);
    assert Discover(c, Sole(None, None, Discovering), Sole(None, None, Loading), 0);
    StepIsNext(c, Sole(None, None, Discovering), Sole(None, None, Loading), 0);
    assert FirstLoad(c, Sole(None, None, Loading), Sole(None, None, Checking), 0);
    StepIsNext(c, Sole(None, None, Loading), Sole(None, None, Checking), 0);
    assert Check(c, Sole(None, None, Checking), Sole(None, None, Waiting), 0);
    StepIsNext(c, Sole(None, None, Checking), Sole(None, None, Waiting), 0);
  }

  lemma SoloEnters(c: Setup)
    requires WellFormedSetup(c)
    ensures Next(c, Sole(None, None, Waiting), Sole(None, Some(0), Reloading))
    ensures Next(c, Sole(None, Some(0), Reloading), Sole(None, Some(0), Seeking))
    ensures Next(c, Sole(None, Some(0), Seeking), Sole(None, Some(0), Classifying))
  {
    hide Loadable, UsableProvenance, Next;
    assert Acquire(c, Sole(None, None, Waiting), Sole(None, Some(0), Reloading), 0);
    StepIsNext(c, Sole(None, None, Waiting), Sole(None, Some(0), Reloading), 0);
    assert SecondLoad(c, Sole(None, Some(0), Reloading), Sole(None, Some(0), Seeking), 0);
    StepIsNext(c, Sole(None, Some(0), Reloading), Sole(None, Some(0), Seeking), 0);
    assert EarliestUsable(c.site, c.legacyHash, Directory(c, Sole(None, Some(0), Seeking)), None);
    assert Seek(c, Sole(None, Some(0), Seeking), Sole(None, Some(0), Classifying), 0);
    StepIsNext(c, Sole(None, Some(0), Seeking), Sole(None, Some(0), Classifying), 0);
  }

  lemma SoloClassifies(c: Setup, rows: seq<Entry>)
    requires WellFormedSetup(c) && ValidLedger(rows, c.site.names)
    ensures Next(c, Sole(None, Some(0), Classifying),
                 Sole(None, Some(0), Saving(AsRaw(GraphFromLedger(rows, c.site.names)), rows)))
  {
    hide GraphFromLedger, Classifier.Run, ValidLedger, Classifier.AsReply, Classifier.States, Next, Load, SaveResult,
      EarliestUsable;
    var replies: nat -> Classifier.Reply := n => Classifier.Answer(Classifier.AsReply(rows));
    assert forall n :: Classifier.States(replies(n), c.site.names, rows) by {
      Classifier.AsReplyStates(rows, c.site.names);
    }
    Classifier.FaithfulTeacher(replies, rows, c.site.names, c.batchSize);
    assert Classify(c, Sole(None, Some(0), Classifying),
                    Sole(None, Some(0), Saving(AsRaw(GraphFromLedger(rows, c.site.names)), rows)), 0);
    StepIsNext(c, Sole(None, Some(0), Classifying),
               Sole(None, Some(0), Saving(AsRaw(GraphFromLedger(rows, c.site.names)), rows)), 0);
  }

  lemma SoloSaves(c: Setup, rows: seq<Entry>, content: Content, graph: Graph)
    requires WellFormedSetup(c)
    requires SaveResult(c.site, AsRaw(GraphFromLedger(rows, c.site.names)), AsRows(rows), Some([]), 0) == Some(content)
    requires Load(c.site, Some(content)) == Some(graph)
    ensures Next(c, Sole(None, Some(0), Saving(AsRaw(GraphFromLedger(rows, c.site.names)), rows)),
                 Sole(Some(content), Some(0), Rereading))
    ensures Next(c, Sole(Some(content), Some(0), Rereading), Sole(Some(content), None, Returned(graph)))
  {
    hide GraphFromLedger, SaveResult, Load, Next, Classifier.Run, EarliestUsable;
    assert Save(c, Sole(None, Some(0), Saving(AsRaw(GraphFromLedger(rows, c.site.names)), rows)),
                Sole(Some(content), Some(0), Rereading), 0, 0);
    StepIsNext(c, Sole(None, Some(0), Saving(AsRaw(GraphFromLedger(rows, c.site.names)), rows)),
               Sole(Some(content), Some(0), Rereading), 0);
    assert Reread(c, Sole(Some(content), Some(0), Rereading), Sole(Some(content), None, Returned(graph)), 0);
    StepIsNext(c, Sole(Some(content), Some(0), Rereading), Sole(Some(content), None, Returned(graph)), 0);
  }

  /** Conversely every complete ledger has a run that returns its audited graph. */
  lemma EveryLedgerCanBeReturned(c: Setup, rows: seq<Entry>) returns (run: seq<World>)
    requires WellFormedSetup(c) && ValidLedger(rows, c.site.names)
    ensures Behaviour(c, run)
    ensures At(run[|run| - 1], 0, Returned(AuditedGraph(c.site.basis, rows, c.site.names)))
  {
    hide Next, ValidLedger, AuditedGraph, GraphFromLedger, Load, SaveResult, PayloadOf;
    var graph := AuditedGraph(c.site.basis, rows, c.site.names);
    var content := Stored(PayloadOf(c.site, rows, [], 0));
    EitherGraphSavesTheSame(c.site, rows, 0);
    SavedReloads(c.site, rows);
    run := Solo(c, rows, content, graph);
    SoloStarts(c);
    SoloEnters(c);
    SoloClassifies(c, rows);
    SoloSaves(c, rows, content, graph);
  }

  lemma SavedReloads(site: Site, rows: seq<Entry>)
    requires ValidLedger(rows, site.names) && site.names != [] && Distinct(site.names)
    ensures Load(site, Some(Stored(PayloadOf(site, rows, [], 0)))) == Some(AuditedGraph(site.basis, rows, site.names))
  {
    hide Load, PayloadOf, AuditedGraph, Accepts, ValidLedger;
    OwnGraphsAccepted(site, rows);
    ValidateIdentity(rows, site.names);
    SaveThenLoad(site, AsRaw(AuditedGraph(site.basis, rows, site.names)), AsRows(rows), Some([]), 0);
  }
}
