/**
 Saving and strictly reloading a dependency cache (src/live_mcp/dependency_cache_store.py). Hashes
 and identities are opaque values; a file holds whatever some writer left there.
 */
module CacheStore {
  import opened Common
  import opened Ledger
  import opened RelationAudit

  /** Everything a payload must agree on with the running code: versions, server, schema hash,
      Teacher identity, prompt, source and policy labels, the optional output-field hash. */
  datatype Identity = Identity(
    cacheVersion: nat, semanticsVersion: nat, server: nat, schemaHash: nat, contractHash: nat,
    teacher: nat, promptHash: nat, graphSource: nat, rawGraphSource: nat,
    reviewPolicy: nat, tieBreakPolicy: nat, outputHash: Option<nat>)

  datatype Counts = Counts(supported: nat, refuted: nat, insufficient: nat)

  datatype RawAudits = NoAuditList | AuditList(audits: seq<Audit>)

  /** An independent review of one pair. */
  datatype Review = Review(pair: Pair, disagrees: bool, detail: nat)

  datatype RawReviews = NoReviewList | ReviewList(reviews: seq<Review>)

  /** A decoded cache file; any field may hold anything, and there may be keys that no save writes. */
  datatype Payload = Payload(
    identity: Identity,
    toolNames: Option<seq<Tool>>,
    toolCount: int,
    graph: RawGraph,
    rawGraph: RawGraph,
    ledger: RawLedger,
    relationAudits: RawAudits,
    relationCounts: Option<Counts>,
    expectedPairs: int,
    classifiedPairs: int,
    relationAuditedPairs: int,
    classificationComplete: bool,
    relationAuditComplete: bool,
    pairAudits: RawReviews,
    auditedPairs: int,
    reviewDisagreements: int,
    auditComplete: bool,
    createdAt: nat,
    otherKeys: map<nat, nat>)

  datatype Content = Unreadable | Stored(payload: Payload)

  /** One running consumer: its identity, the server's tool list, the local audit facts. */
  datatype Site = Site(identity: Identity, names: seq<Tool>, basis: Basis)

  /** `sorted(names)` of a list that may repeat. */
  function SortedNames(names: seq<Tool>): seq<Tool> {
    if names == [] then [] else Insert(names[0], SortedNames(names[1..]))
  }

  function Insert(t: Tool, sorted: seq<Tool>): seq<Tool> {
    if sorted == [] || t <= sorted[0] then [t] + sorted else [sorted[0]] + Insert(t, sorted[1..])
  }

  function PairCount(n: nat): nat {
    n * (n - 1) / 2
  }

  function CountVerdicts(audits: seq<Audit>): Counts {
    if audits == [] then Counts(0, 0, 0)
    else
      var c := CountVerdicts(audits[1..]);
      match audits[0].verdict
      case Supported => c.(supported := c.supported + 1)
      case Refuted => c.(refuted := c.refuted + 1)
      case Insufficient => c.(insufficient := c.insufficient + 1)
  }

  // ---------------------------------------------------------------- save

  /** The reviews a save was given, once validated; None when they do not validate, and empty when there
      are none. */
  type Reviews = Option<seq<Review>>

  function Disagreements(reviews: seq<Review>): nat {
    if reviews == [] then 0 else (if reviews[0].disagrees then 1 else 0) + Disagreements(reviews[1..])
  }

  /** What a save accepts: a complete ledger, optional reviews that validate, and a valid graph whose
      normal form is the raw or the audited graph of that ledger. */
  predicate Accepts(site: Site, graph: RawGraph, ledger: RawLedger, reviews: Reviews) {
    && reviews.Some?
    && ValidateLedger(ledger, site.names).Some?
    && ValidGraph(graph, site.names)
    && var rows := ValidateLedger(ledger, site.names).value;
       Normalize(graph, site.names) in {GraphFromLedger(rows, site.names), AuditedGraph(site.basis, rows, site.names)}
  }

  function PayloadOf(site: Site, rows: seq<Entry>, reviews: seq<Review>, now: nat): Payload {
    var audits := AuditsOf(site.basis, rows);
    Payload(site.identity, Some(SortedNames(site.names)), |site.names|,
            AsRaw(EligibleGraph(rows, audits, site.names)), AsRaw(GraphFromLedger(rows, site.names)), AsRows(rows),
            AuditList(audits), Some(CountVerdicts(audits)), |rows|, |rows|, |audits|, true, true,
            ReviewList(reviews), |reviews|, Disagreements(reviews), |reviews| == |rows|, now, map[])
  }

  // ---------------------------------------------------------------- load

  function LedgerIn(site: Site, p: Payload): Option<seq<Entry>> {
    ValidateLedger(p.ledger, site.names)
  }

  predicate ClassificationComplete(site: Site, p: Payload) {
    && p.classificationComplete
    && p.expectedPairs == PairCount(|site.names|) && p.classifiedPairs == PairCount(|site.names|)
    && LedgerIn(site, p).Some? && |LedgerIn(site, p).value| == PairCount(|site.names|)
  }

  predicate RelationComplete(site: Site, p: Payload)
    requires LedgerIn(site, p).Some?
  {
    var audits := AuditsOf(site.basis, LedgerIn(site, p).value);
    && p.relationAudits == AuditList(audits)
    && p.relationAuditedPairs == PairCount(|site.names|)
    && p.relationAuditComplete
    && p.relationCounts == Some(CountVerdicts(audits))
    && ValidGraph(p.graph, site.names)
    && p.graph == AsRaw(EligibleGraph(LedgerIn(site, p).value, audits, site.names))
  }

  predicate ContractMatches(site: Site, p: Payload)
    requires LedgerIn(site, p).Some?
  {
    && p.identity == site.identity
    && p.toolNames == Some(SortedNames(site.names)) && p.toolCount == |site.names|
    && p.rawGraph == AsRaw(GraphFromLedger(LedgerIn(site, p).value, site.names))
  }

  predicate Loadable(site: Site, c: Content) {
    && c.Stored?
    && ClassificationComplete(site, c.payload) && RelationComplete(site, c.payload) && ContractMatches(site, c.payload)
  }

  /** `_load_dependency_cache`: nothing, or the audited graph stored in the file. */
  function Load(site: Site, file: Option<Content>): Option<Graph> {
    if file.Some? && Loadable(site, file.value)
    then Some(AuditedGraph(site.basis, LedgerIn(site, file.value.payload).value, site.names))
    else None
  }

  /** Whatever bytes are in the file, what loads is stored there verbatim, is a valid graph, and is
      the audited graph of a complete canonical ledger. */
  lemma LoadIsAudited(site: Site, file: Option<Content>)
    requires Load(site, file).Some?
    ensures file.Some? && file.value.Stored? && file.value.payload.graph == AsRaw(Load(site, file).value)
    ensures ValidGraph(AsRaw(Load(site, file).value), site.names)
    ensures exists rows :: ValidLedger(rows, site.names) &&
                           Load(site, file).value == AuditedGraph(site.basis, rows, site.names)
  {
    hide ValidGraph, AuditsOf, EligibleGraph, ValidateLedger, GraphFromLedger, ValidLedger;
    ValidateExactly(file.value.payload.ledger, site.names);
    var rows := LedgerIn(site, file.value.payload).value;
    assert ValidLedger(rows, site.names);
  }

  // ---------------------------------------------------------------- how many pairs

  lemma {:induction false} ExpectedPairCount(names: seq<Tool>)
    requires Distinct(names)
    ensures |ExpectedPairs(names)| == PairCount(|names|)
  {
    hide PairCount, PairsWith;
    if names != [] {
      var k := |names| - 1;
      var init, last := names[..k], names[k];
      assert names == init + [last];
      ExpectedPairCount(init);
      ExpectedPairsStep(init, last);
      PairsWithCount(init, last);
      PairsWithAreNew(init, last);
      PairCountStep(k);
    } else {
      assert ExpectedPairs(names) == {};
      assert PairCount(0) == 0 by { PairCountZero(); }
    }
  }

  lemma PairsWithAreNew(init: seq<Tool>, last: Tool)
    requires Distinct(init + [last])
    ensures ExpectedPairs(init) !! PairsWith(init, last)
  {
    forall i | 0 <= i < |init| ensures init[i] != last {
      assert (init + [last])[i] == init[i] && (init + [last])[|init|] == last;
    }
  }

  lemma PairCountZero()
    ensures PairCount(0) == 0
  {
  }

  lemma PairCountStep(k: nat)
    ensures PairCount(k + 1) == PairCount(k) + k
  {
    EvenProduct(k);
    EvenProduct(k + 1);
    assert (k + 1) * k == k * (k - 1) + 2 * k;
  }

  lemma {:induction false} EvenProduct(n: nat)
    ensures n * (n - 1) % 2 == 0
  {
    if n > 1 {
      EvenProduct(n - 1);
      assert n * (n - 1) == (n - 1) * (n - 2) + 2 * (n - 1);
    }
  }

  function PairsWith(names: seq<Tool>, t: Tool): set<Pair> {
    set s | s in names :: SortPair(s, t)
  }

  lemma ExpectedPairsStep(init: seq<Tool>, last: Tool)
    requires Distinct(init + [last])
    ensures ExpectedPairs(init + [last]) == ExpectedPairs(init) + PairsWith(init, last)
  {
    var names := init + [last];
    assert Distinct(init) && last !in init by {
      assert forall i | 0 <= i < |init| :: names[i] == init[i] && names[i] != names[|init|];
      assert forall i, j | 0 <= i < j < |init| :: names[i] != names[j];
    }
    NoRepeat(names);
    NoRepeat(init);
    forall p: Pair ensures p in ExpectedPairs(names) <==> p in ExpectedPairs(init) + PairsWith(init, last) {
      if p in PairsWith(init, last) {
        var s :| s in init && p == SortPair(s, last);
      }
      if p in ExpectedPairs(names) && p !in ExpectedPairs(init) {
        if p.0 == last { assert p == SortPair(p.1, last); } else { assert p == SortPair(p.0, last); }
      }
    }
  }

  lemma {:induction false} PairsWithCount(names: seq<Tool>, t: Tool)
    requires Distinct(names + [t])
    ensures |PairsWith(names, t)| == |names|
  {
    if names != [] {
      var k := |names| - 1;
      var init, last := names[..k], names[k];
      assert names == init + [last];
      forall i | 0 <= i < |names| ensures names[i] != t && (i < k ==> names[i] != last) {
        assert (names + [t])[i] == names[i] && (names + [t])[k] == last && (names + [t])[|names|] == t;
      }
      forall i, j | 0 <= i < j < |init + [t]| ensures (init + [t])[i] != (init + [t])[j] {
        assert (names + [t])[i] == names[i] && (j < k ==> (names + [t])[j] == names[j]);
      }
      PairsWithCount(init, t);
      assert PairsWith(names, t) == PairsWith(init, t) + {SortPair(last, t)};
      assert SortPair(last, t) !in PairsWith(init, t) by {
        assert forall s | s in init :: s != last;
      }
    }
  }

  lemma {:induction false} AscendingCount(ps: seq<Pair>)
    requires PairsAscending(ps)
    ensures |Elems(ps)| == |ps|
  {
    if ps != [] {
      var k := |ps| - 1;
      AscendingCount(ps[..k]);
      assert ps == ps[..k] + [ps[k]];
      AppendElems(ps[..k], ps[k]);
      assert ps[k] !in ps[..k] by { assert forall i | 0 <= i < k :: PairLess(ps[i], ps[k]); }
      assert ps[k] !in Elems(ps[..k]);
    }
  }

  /** A complete ledger over distinct tools has n(n-1)/2 rows. */
  lemma LedgerSize(rows: seq<Entry>, names: seq<Tool>)
    requires ValidLedger(rows, names) && Distinct(names)
    ensures |rows| == PairCount(|names|)
  {
    ExpectedPairCount(names);
    AscendingCount(Pairs(rows));
    assert |Pairs(rows)| == |rows|;
  }

  // ---------------------------------------------------------------- save, then load

  lemma AuditedGraphIsValid(site: Site, rows: seq<Entry>)
    requires site.names != [] && Distinct(site.names)
    ensures ValidGraph(AsRaw(AuditedGraph(site.basis, rows, site.names)), site.names)
    ensures ValidGraph(AsRaw(GraphFromLedger(rows, site.names)), site.names)
  {
    hide ValidGraph, AuditsOf, EligibleRows, Distinct;
    var audits := AuditsOf(site.basis, rows);
    NormalizedIsValid(AsRaw(Appended(rows, site.names)), site.names);
    NormalizedIsValid(AsRaw(Appended(EligibleRows(rows, set a | a in audits && a.eligible :: a.raw.pair),
                                     site.names)), site.names);
  }

  /** Every accepted save reloads, as exactly the audited graph of the saved ledger. */
  lemma SaveThenLoad(site: Site, graph: RawGraph, ledger: RawLedger, reviews: Reviews, now: nat)
    requires Accepts(site, graph, ledger, reviews)
    ensures var rows := ValidateLedger(ledger, site.names).value;
            Load(site, Some(Stored(PayloadOf(site, rows, reviews.value, now))))
            == Some(AuditedGraph(site.basis, rows, site.names))
  {
    hide ValidGraph, AuditsOf, EligibleGraph, GraphFromLedger, ValidLedger, Normalize, CountVerdicts, SortedNames,
      PairCount, Distinct,
      ValidateLedger, AsRows, AsRaw;
    var rows := ValidateLedger(ledger, site.names).value;
    assert site.names != [] && Distinct(site.names) by { ValidGraphNames(graph, site.names); }
    ValidateExactly(ledger, site.names);
    ValidateIdentity(rows, site.names);
    LedgerSize(rows, site.names);
    AuditedGraphIsValid(site, rows);
    assert |AuditsOf(site.basis, rows)| == |rows| by { AuditsCount(site.basis, rows); }
  }

  /** The payload with what a save writes about reviews, the time, and any other keys, taken from another. */
  function WithUncheckedOf(p: Payload, q: Payload): Payload {
    p.(pairAudits := q.pairAudits, auditedPairs := q.auditedPairs, reviewDisagreements := q.reviewDisagreements,
       auditComplete := q.auditComplete, createdAt := q.createdAt, otherKeys := q.otherKeys)
  }

  /** The reload looks at everything a save writes except the reviews, their counts and the time, and at no other
      key: a file loads exactly when, with these overwritten and its ledger rows laid out as a save does, it is
      what a save of its own ledger would have written. */
  lemma LoadsExactlyWhatSavesWrite(site: Site, p: Payload, reviews: seq<Review>, now: nat)
    ensures Load(site, Some(Stored(p))).Some? <==>
            && LedgerIn(site, p).Some? && site.names != [] && Distinct(site.names)
            && var rows := LedgerIn(site, p).value;
               var written := PayloadOf(site, rows, reviews, now);
               WithUncheckedOf(p.(ledger := AsRows(rows)), written) == written
  {
    hide ValidGraph, AuditsOf, EligibleGraph, GraphFromLedger, ValidLedger, Normalize, CountVerdicts, SortedNames,
      PairCount, Distinct,
      ValidateLedger, AsRows, AsRaw, Disagreements;
    if LedgerIn(site, p).Some? {
      var rows := LedgerIn(site, p).value;
      ValidateExactly(p.ledger, site.names);
      AuditsCount(site.basis, rows);
      if site.names != [] && Distinct(site.names) {
        LedgerSize(rows, site.names);
        AuditedGraphIsValid(site, rows);
      } else if ValidGraph(p.graph, site.names) {
        ValidGraphNames(p.graph, site.names);
      }
    }
  }

  /** Those fields are not protected: whatever they say, the file loads or not as before, to the same graph. */
  lemma ReviewsAreNotProtected(site: Site, p: Payload, q: Payload)
    ensures Load(site, Some(Stored(WithUncheckedOf(p, q)))) == Load(site, Some(Stored(p)))
  {
    hide ValidateLedger, AuditsOf, EligibleGraph, GraphFromLedger, ValidGraph, SortedNames, CountVerdicts, PairCount;
  }

  lemma AuditsCount(b: Basis, rows: seq<Entry>)
    ensures |AuditsOf(b, rows)| == |rows|
  {
  }

  lemma ValidGraphNames(graph: RawGraph, names: seq<Tool>)
    requires ValidGraph(graph, names)
    ensures names != [] && Distinct(names)
  {
    var t :| t in graph.nodes;
    assert t in Elems(names);
  }

  /** A complete ledger is accepted with its own raw graph and with its own audited graph; this is
      what a fresh classification or a reused raw ledger hands to the save. */
  lemma OwnGraphsAccepted(site: Site, rows: seq<Entry>)
    requires ValidLedger(rows, site.names) && site.names != [] && Distinct(site.names)
    ensures Accepts(site, AsRaw(GraphFromLedger(rows, site.names)), AsRows(rows), Some([]))
    ensures Accepts(site, AsRaw(AuditedGraph(site.basis, rows, site.names)), AsRows(rows), Some([]))
  {
    hide ValidGraph, AuditsOf, EligibleRows, ValidateLedger, Normalize, Distinct, AsRaw, Canonical;
    ValidateIdentity(rows, site.names);
    AuditedGraphIsValid(site, rows);
    var eligible := EligibleRows(rows, set a | a in AuditsOf(site.basis, rows) && a.eligible :: a.raw.pair);
    GraphKeys(rows, site.names);
    GraphKeys(eligible, site.names);
    NormalizeIdempotent(GraphFromLedger(rows, site.names), site.names);
    NormalizeIdempotent(GraphFromLedger(eligible, site.names), site.names);
  }

  /** Passing the raw graph or the audited graph leaves the same file. */
  lemma EitherGraphSavesTheSame(site: Site, rows: seq<Entry>, now: nat)
    requires ValidLedger(rows, site.names) && site.names != [] && Distinct(site.names)
    ensures SaveResult(site, AsRaw(GraphFromLedger(rows, site.names)), AsRows(rows), Some([]), now) ==
            SaveResult(site, AsRaw(AuditedGraph(site.basis, rows, site.names)), AsRows(rows), Some([]), now) ==
            Some(Stored(PayloadOf(site, rows, [], now)))
  {
    hide Accepts, PayloadOf, ValidLedger, Distinct;
    OwnGraphsAccepted(site, rows);
    ValidateIdentity(rows, site.names);
  }

  function SaveResult(site: Site, graph: RawGraph, ledger: RawLedger, reviews: Reviews, now: nat): Option<Content> {
    if Accepts(site, graph, ledger, reviews)
    then Some(Stored(PayloadOf(site, ValidateLedger(ledger, site.names).value, reviews.value, now)))
    else None
  }

  /** The cache file of one site. A save either replaces the content or leaves it alone. */
  class CacheFile {
    var content: Option<Content>

    constructor (initial: Option<Content>)
      ensures content == initial
    {
      content := initial;
    }

    method Save(site: Site, graph: RawGraph, ledger: RawLedger, reviews: Reviews, now: nat) returns (saved: bool)
      modifies this
      ensures saved == Accepts(site, graph, ledger, reviews)
      ensures content == if saved then SaveResult(site, graph, ledger, reviews, now) else old(content)
    {
      hide ValidGraph, AuditsOf, EligibleGraph, GraphFromLedger, Normalize, ValidateLedger;
      var rows := ValidatePairClassifications(ledger, site.names);
      if rows.None? || reviews.None? { return false; }
      var normalized := NormalizeCachedGraph(graph, site.names);
      var raw := GraphFromLedger(rows.value, site.names);
      var derived := AuditedGraph(site.basis, rows.value, site.names);
      if !ValidGraph(graph, site.names) || normalized !in {raw, derived} { return false; }
      content := Some(Stored(PayloadOf(site, rows.value, reviews.value, now)));
      return true;
    }

    /** Whatever the file holds, what is returned is stored in it verbatim, is a valid graph, and is the
        audited graph of a complete ledger. */
    method Reload(site: Site) returns (graph: Option<Graph>)
      ensures graph == Load(site, content)
      ensures graph.Some? ==>
                && content.Some? && content.value.Stored? && content.value.payload.graph == AsRaw(graph.value)
                && ValidGraph(AsRaw(graph.value), site.names)
                && exists rows :: ValidLedger(rows, site.names) &&
                                  graph.value == AuditedGraph(site.basis, rows, site.names)
    {
      hide ValidGraph, AuditsOf, EligibleGraph, GraphFromLedger, ValidateLedger, ValidLedger, SortedNames,
        CountVerdicts, PairCount;
      if content.None? || content.value.Unreadable? { return None; }
      var p := content.value.payload;
      var ledger := ValidatePairClassifications(p.ledger, site.names);
      if ledger.None? { return None; }
      var rows := ledger.value;
      var expected := PairCount(|site.names|);
      var complete :=
        p.classificationComplete && p.expectedPairs == expected && p.classifiedPairs == expected && |rows| == expected;
      var audits := AuditsOf(site.basis, rows);
      var raw := GraphFromLedger(rows, site.names);
      var derived := EligibleGraph(rows, audits, site.names);
      var related :=
        && p.relationAudits == AuditList(audits) && p.relationAuditedPairs == expected && p.relationAuditComplete
        && p.relationCounts == Some(CountVerdicts(audits))
        && ValidGraph(p.graph, site.names) && p.graph == AsRaw(derived);
      var matches :=
        && p.identity == site.identity && p.toolNames == Some(SortedNames(site.names))
        && p.toolCount == |site.names| && p.rawGraph == AsRaw(raw);
      graph := if complete && related && matches then Some(derived) else None;
      if graph.Some? { LoadIsAudited(site, content); }
    }
  }

  // ---------------------------------------------------------------- raw provenance

  /** A file of the cache directory, with its name. */
  datatype Candidate = Candidate(name: nat, content: Content)

  /** The raw ledger of a file stays usable across audit changes while the schema identity (current,
      or the legacy hash of the version the file records), Teacher and prompt are unchanged. */
  predicate UsableProvenance(site: Site, legacyHash: nat -> nat, c: Content) {
    && c.Stored?
    && var p := c.payload;
       && LedgerIn(site, p).Some? && |LedgerIn(site, p).value| == PairCount(|site.names|)
       && p.identity.server == site.identity.server
       && p.identity.schemaHash in {site.identity.schemaHash, legacyHash(p.identity.semanticsVersion)}
       && p.toolNames == Some(SortedNames(site.names))
       && p.identity.teacher == site.identity.teacher && p.identity.promptHash == site.identity.promptHash
       && p.identity.rawGraphSource == site.identity.rawGraphSource && p.identity.outputHash == site.identity.outputHash
       && p.classificationComplete
       && p.expectedPairs == PairCount(|site.names|) && p.classifiedPairs == PairCount(|site.names|)
       && p.rawGraph == AsRaw(GraphFromLedger(LedgerIn(site, p).value, site.names))
  }

  /** Undated files (time 0) come last, then the older file, then the smaller name. */
  predicate Earlier(a: Candidate, b: Candidate)
    requires a.content.Stored? && b.content.Stored?
  {
    var s, t := a.content.payload.createdAt, b.content.payload.createdAt;
    if s == t then a.name <= b.name else t == 0 || (s != 0 && s < t)
  }

  /** The earliest usable file of the directory, if any is usable. */
  ghost predicate EarliestUsable(site: Site, legacyHash: nat -> nat, files: seq<Candidate>, found: Option<Candidate>) {
    match found
    case None => forall f :: f in files ==> !UsableProvenance(site, legacyHash, f.content)
    case Some(best) =>
      && best in files && UsableProvenance(site, legacyHash, best.content)
      && forall f :: f in files && UsableProvenance(site, legacyHash, f.content) ==> Earlier(best, f)
  }

  /** `_load_raw_dependency_provenance`. */
  method LoadRawProvenance(site: Site, legacyHash: nat -> nat, files: seq<Candidate>) returns (found: Option<Candidate>)
    ensures EarliestUsable(site, legacyHash, files, found)
  {
    hide LedgerIn, GraphFromLedger, SortedNames;
    found := None;
    for i := 0 to |files|
      invariant EarliestUsable(site, legacyHash, files[..i], found)
    {
      assert files[..i + 1] == files[..i] + [files[i]];
      if UsableProvenance(site, legacyHash, files[i].content) {
        if found.None? || !Earlier(found.value, files[i]) { found := Some(files[i]); }
      }
    }
    assert files[..|files|] == files;
  }

  /** Reused provenance is a complete canonical ledger with its own raw graph, so its save is accepted. */
  lemma ProvenanceIsAccepted(site: Site, legacyHash: nat -> nat, c: Content)
    requires UsableProvenance(site, legacyHash, c) && site.names != [] && Distinct(site.names)
    ensures ValidLedger(LedgerIn(site, c.payload).value, site.names)
    ensures Accepts(site, c.payload.rawGraph, AsRows(LedgerIn(site, c.payload).value), Some([]))
  {
    hide Accepts, ValidLedger, ValidateLedger, GraphFromLedger, Distinct;
    ValidateExactly(c.payload.ledger, site.names);
    OwnGraphsAccepted(site, LedgerIn(site, c.payload).value);
  }

  /** The payload with all that a raw ledger's reuse does not look at taken from another. */
  function WithAuditsOf(p: Payload, q: Payload): Payload {
    WithUncheckedOf(p, q).(
    identity := q.identity.(server := p.identity.server, teacher := p.identity.teacher,
    promptHash := p.identity.promptHash, rawGraphSource := p.identity.rawGraphSource,
    outputHash := p.identity.outputHash),
    toolCount := q.toolCount, graph := q.graph, relationAudits := q.relationAudits,
    relationCounts := q.relationCounts, relationAuditedPairs := q.relationAuditedPairs,
    relationAuditComplete := q.relationAuditComplete)
  }

  /** A file's raw ledger can be reused exactly when the file, but for its audit and its versions, is what a save of
      that ledger would have written, under the current schema hash or the older one of its own version. */
  lemma ProvenanceExactly(site: Site, legacyHash: nat -> nat, p: Payload, reviews: seq<Review>, now: nat)
    requires site.names != [] && Distinct(site.names)
    ensures UsableProvenance(site, legacyHash, Stored(p)) <==>
            && LedgerIn(site, p).Some?
            && p.identity.schemaHash in {site.identity.schemaHash, legacyHash(p.identity.semanticsVersion)}
            && var rows := LedgerIn(site, p).value;
               var written := PayloadOf(site, rows, reviews, now);
               WithAuditsOf(p.(ledger := AsRows(rows)), written) == written
  {
    hide AuditsOf, EligibleGraph, GraphFromLedger, ValidLedger, CountVerdicts, SortedNames, PairCount, Distinct,
      ValidateLedger, AsRows, AsRaw, Disagreements;
    if LedgerIn(site, p).Some? {
      ValidateExactly(p.ledger, site.names);
      LedgerSize(LedgerIn(site, p).value, site.names);
    }
  }

  /** So a file that loads can also be reused, when the audit has changed since. */
  lemma LoadedIsUsable(site: Site, legacyHash: nat -> nat, file: Option<Content>)
    requires site.names != [] && Distinct(site.names) && Load(site, file).Some?
    ensures UsableProvenance(site, legacyHash, file.value)
  {
    hide AuditsOf, EligibleGraph, GraphFromLedger, ValidLedger, CountVerdicts, SortedNames, PairCount, Distinct,
      ValidateLedger, AsRows, AsRaw, Disagreements, UsableProvenance, Load, PayloadOf;
    LoadedIsStored(site, file);
    var p := file.value.payload;
    LoadsExactlyWhatSavesWrite(site, p, [], 0);
    var rows := LedgerIn(site, p).value;
    AsWritten(site, p, PayloadOf(site, rows, [], 0), rows);
    ProvenanceExactly(site, legacyHash, p, [], 0);
  }

  lemma LoadedIsStored(site: Site, file: Option<Content>)
    requires Load(site, file).Some?
    ensures file.Some? && file.value.Stored? && Load(site, file) == Load(site, Some(Stored(file.value.payload)))
  {
    hide ValidateLedger, AuditsOf, EligibleGraph, GraphFromLedger, ValidGraph, SortedNames, CountVerdicts, PairCount;
  }

  lemma AsWritten(site: Site, p: Payload, written: Payload, rows: seq<Entry>)
    requires WithUncheckedOf(p.(ledger := AsRows(rows)), written) == written
    requires written == PayloadOf(site, rows, [], 0)
    ensures WithAuditsOf(p.(ledger := AsRows(rows)), written) == written
    ensures p.identity.schemaHash == site.identity.schemaHash
  {
    hide AuditsOf, EligibleGraph, GraphFromLedger, CountVerdicts, SortedNames, AsRows, AsRaw;
  }

  // ---------------------------------------------------------------- what a save accepts and counts

  /** The graph, as given, has the edge. */
  predicate Draws(g: RawGraph, s: Tool, t: Tool, rel: Relation) {
    Name(t) in Group(NodeEdges(g, s), rel)
  }

  /** The valid graph has exactly the edges of the other. */
  ghost predicate DrawsAs(g: RawGraph, names: seq<Tool>, h: Graph) {
    forall s, t, rel :: s in names && rel != NoRelation ==> (Draws(g, s, t, rel) <==> Edge(h, s, t, rel))
  }

  lemma NormalizesTo(g: RawGraph, names: seq<Tool>, h: Graph)
    requires ValidGraph(g, names) && Canonical(h, names)
    ensures Normalize(g, names) == h <==> DrawsAs(g, names, h)
  {
    hide Normalize, ValidGraph;
    NormalizeCanonical(g, names);
    forall s, t, rel | s in names && rel != NoRelation
      ensures Draws(g, s, t, rel) <==> Edge(Normalize(g, names), s, t, rel)
    {
      NormalizeKeepsValidEdges(g, names, s, t, rel);
    }
    if DrawsAs(g, names, h) {
      forall s, t, rel | rel != NoRelation ensures Edge(Normalize(g, names), s, t, rel) <==> Edge(h, s, t, rel) {
        assert s !in names ==> s !in Elems(names);
      }
      CanonicalUnique(Normalize(g, names), h, names);
    }
  }

  /** A save is accepted exactly with a complete ledger, reviews that validate, and a valid graph whose edges are those
      of the ledger's raw graph, or those of them that survive the audit. */
  lemma AcceptsExactly(site: Site, graph: RawGraph, ledger: RawLedger, reviews: Reviews)
    ensures Accepts(site, graph, ledger, reviews) <==>
            && reviews.Some? && ValidateLedger(ledger, site.names).Some? && ValidGraph(graph, site.names)
            && var rows := ValidateLedger(ledger, site.names).value;
               || DrawsAs(graph, site.names, GraphFromLedger(rows, site.names))
               || DrawsAs(graph, site.names, AuditedGraph(site.basis, rows, site.names))
  {
    hide ValidGraph, GraphFromLedger, AuditedGraph, ValidateLedger, Normalize, DrawsAs, Canonical;
    if ValidateLedger(ledger, site.names).Some? && ValidGraph(graph, site.names) {
      var rows := ValidateLedger(ledger, site.names).value;
      BothCanonical(site, rows);
      NormalizesTo(graph, site.names, GraphFromLedger(rows, site.names));
      NormalizesTo(graph, site.names, AuditedGraph(site.basis, rows, site.names));
    }
  }

  lemma BothCanonical(site: Site, rows: seq<Entry>)
    ensures Canonical(GraphFromLedger(rows, site.names), site.names)
    ensures Canonical(AuditedGraph(site.basis, rows, site.names), site.names)
  {
    hide Canonical, AuditsOf, EligibleRows, Normalize;
    var eligible := EligibleRows(rows, set a | a in AuditsOf(site.basis, rows) && a.eligible :: a.raw.pair);
    NormalizeCanonical(AsRaw(Appended(rows, site.names)), site.names);
    NormalizeCanonical(AsRaw(Appended(eligible, site.names)), site.names);
  }

  function WithVerdict(audits: seq<Audit>, v: AuditVerdict): set<nat> {
    set i: nat | i < |audits| && audits[i].verdict == v
  }

  lemma {:induction false} CountsNext(audits: seq<Audit>, a: Audit)
    ensures var before, after := CountVerdicts(audits), CountVerdicts(audits + [a]);
            && after.supported == before.supported + (if a.verdict == Supported then 1 else 0)
            && after.refuted == before.refuted + (if a.verdict == Refuted then 1 else 0)
            && after.insufficient == before.insufficient + (if a.verdict == Insufficient then 1 else 0)
  {
    if audits != [] {
      CountsNext(audits[1..], a);
      assert (audits + [a])[1..] == audits[1..] + [a];
    }
  }

  lemma VerdictsNext(audits: seq<Audit>, a: Audit, v: AuditVerdict)
    ensures |WithVerdict(audits + [a], v)| == |WithVerdict(audits, v)| + if a.verdict == v then 1 else 0
  {
    var n := |audits|;
    assert WithVerdict(audits + [a], v) == WithVerdict(audits, v) + if a.verdict == v then {n} else {};
  }

  /** The counts are those of the audits with each verdict. */
  lemma {:induction false} CountsExactly(audits: seq<Audit>)
    ensures CountVerdicts(audits).supported == |WithVerdict(audits, Supported)|
    ensures CountVerdicts(audits).refuted == |WithVerdict(audits, Refuted)|
    ensures CountVerdicts(audits).insufficient == |WithVerdict(audits, Insufficient)|
  {
    if audits != [] {
      hide CountVerdicts, WithVerdict;
      var init, last := audits[..|audits| - 1], audits[|audits| - 1];
      assert audits == init + [last];
      CountsExactly(init);
      CountsNext(init, last);
      VerdictsNext(init, last, Supported);
      VerdictsNext(init, last, Refuted);
      VerdictsNext(init, last, Insufficient);
    }
  }

  predicate Ordered(s: seq<Tool>) {
    forall i, j :: 0 <= i < j < |s| ==> s[i] <= s[j]
  }

  /** The names are all there, as often as listed, in order. */
  lemma {:induction false} SortedNamesExactly(names: seq<Tool>)
    ensures multiset(SortedNames(names)) == multiset(names) && Ordered(SortedNames(names))
  {
    if names != [] {
      hide Insert, Ordered;
      SortedNamesExactly(names[1..]);
      InsertKeeps(names[0], SortedNames(names[1..]));
      InsertOrders(names[0], SortedNames(names[1..]));
      assert names == [names[0]] + names[1..];
    }
  }

  lemma {:induction false} InsertKeeps(t: Tool, sorted: seq<Tool>)
    ensures multiset(Insert(t, sorted)) == multiset(sorted) + multiset{t}
  {
    if sorted != [] {
      assert sorted == [sorted[0]] + sorted[1..];
      if t > sorted[0] { InsertKeeps(t, sorted[1..]); }
    }
  }

  lemma {:induction false} InsertOrders(t: Tool, sorted: seq<Tool>)
    requires Ordered(sorted)
    ensures Ordered(Insert(t, sorted))
  {
    if sorted != [] && t > sorted[0] {
      var tail := sorted[1..];
      var rest := Insert(t, tail);
      InsertOrders(t, tail);
      InsertKeeps(t, tail);
      forall k | 0 <= k < |rest| ensures sorted[0] <= rest[k] {
        assert rest[k] in multiset(rest);
        assert rest[k] == t || rest[k] in multiset(tail);
        if rest[k] != t { var m :| 0 <= m < |tail| && tail[m] == rest[k]; }
      }
      OrderedFrom(sorted[0], rest);
    }
  }

  lemma OrderedFrom(t: Tool, rest: seq<Tool>)
    requires Ordered(rest) && forall k :: 0 <= k < |rest| ==> t <= rest[k]
    ensures Ordered([t] + rest)
  {
  }

  function DisagreeAt(reviews: seq<Review>): set<nat> {
    set i: nat | i < |reviews| && reviews[i].disagrees
  }

  /** The number of disagreements that a save writes is the number of reviews that disagree. */
  lemma {:induction false} DisagreementsExactly(reviews: seq<Review>)
    ensures Disagreements(reviews) == |DisagreeAt(reviews)|
    decreases |reviews|
  {
    if reviews != [] {
      var k := |reviews| - 1;
      DisagreementsExactly(reviews[..k]);
      DisagreementsNext(reviews[..k], reviews[k]);
      assert reviews == reviews[..k] + [reviews[k]];
      assert DisagreeAt(reviews) == DisagreeAt(reviews[..k]) + if reviews[k].disagrees then {k} else {};
    }
  }

  lemma {:induction false} DisagreementsNext(reviews: seq<Review>, r: Review)
    ensures Disagreements(reviews + [r]) == Disagreements(reviews) + if r.disagrees then 1 else 0
  {
    if reviews != [] {
      DisagreementsNext(reviews[1..], r);
      assert (reviews + [r])[1..] == reviews[1..] + [r];
    }
  }
}
