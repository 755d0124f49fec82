/**
 The transactional tool server (src/live_mcp/server_base.py:15-155): requests over named sessions,
 each tool call a transaction on its own session. Handlers are arbitrary state transformers that
 may mutate, replace or delete any session, return anything, or raise.
 */
module SessionServer {
  import opened Common
  import opened StateDelta

  type Sid = string
  type Args = nat
  type Sessions = map<Sid, Json>

  /** A step from a container to what it holds. */
  datatype Place = Key(key: string) | Index(index: nat)

  /** What a handler does after changing the sessions: raise, return something that is not a dictionary, or
      return a dictionary that may lack its two required fields. That dictionary may be one that the session
      itself holds, even the session. `Escapes` is an exception, such as SystemExit, that is no Exception. */
  datatype HandlerResult =
    | RaisesKeyError
    | RaisesOther
    | Escapes
    | ReturnsOther
    | Returns(success: Option<bool>, stateChanged: Option<bool>, body: nat)
    | ReturnsPart(place: seq<Place>)

  type Handler = (Sid, Args, Sessions) -> (Sessions, HandlerResult)

  datatype ErrorType = UnknownTool | PreconditionFailed | ExecutionError

  datatype Body = Content(id: nat) | Part(part: Json)

  datatype CallResult =
    | Refused(error: ErrorType)
    | Passed(success: bool, stateChanged: bool, body: Body, delta: set<string>)

  datatype Request =
    | Healthcheck | Shutdown | ListTools | OtherMethod
    | Reset(sid: Sid, seed: int, profile: nat)
    | Close(sid: Sid)
    | GetState(sid: Sid)
    | Call(sid: Sid, name: Tool, args: Args)

  /** `Raised` is an exception out of the request handler: capacity, an unknown session, a rollback that itself
      failed, or the handler's own that nothing catches. */
  datatype Response =
    | Acknowledged | Tools | UnknownMethod
    | StateOf(state: Json)
    | CallResponse(result: CallResult)
    | Raised(reason: Failure)

  datatype Failure = CapacityExceeded | UnknownSession | RollbackFailed | Escaped

  const MAX_SESSIONS: nat := 500

  /** Fixed parts of a server. `roots` lists the state roots a tool may change, when its semantics
      are known; `coerce` is what dict.update makes of a value that is not a dictionary; `truthy` tells which
      scalars count as true, and `listed` is how a set of paths is listed. */
  datatype Server = Server(
    handlers: map<Tool, Handler>,
    roots: map<Tool, set<string>>,
    seeder: (Sid, int, nat) -> map<string, Json>,
    coerce: Json -> Option<map<string, Json>>,
    truthy: nat -> bool,
    listed: set<string> -> seq<Json>)

  // ---------------------------------------------------------------- one call

  datatype Verdict = Commit(result: CallResult) | Abort(error: ErrorType) | Escape

  /** What a state holds at a place. */
  function At(j: Json, place: seq<Place>): Option<Json> {
    if place == [] then Some(j)
    else
      match place[0]
      case Key(k) => if j.Dict? && k in j.fields then At(j.fields[k], place[1..]) else None
      case Index(i) => if (j.List? || j.Tuple?) && i < |j.items| then At(j.items[i], place[1..]) else None
  }

  /** The key that a passed call's answer gets. */
  const MARK: string := "state_delta_paths"

  predicate HoldsAnswer(j: Json, place: seq<Place>) {
    At(j, place).Some? && At(j, place).value.Dict?
  }

  /** The state with the mark added to the dictionary at a place. */
  function Marked(j: Json, place: seq<Place>, mark: Json): Json
    requires HoldsAnswer(j, place)
  {
    if place == [] then Dict(j.fields[MARK := mark])
    else
      match place[0]
      case Key(k) => Dict(j.fields[k := Marked(j.fields[k], place[1..], mark)])
      case Index(i) => j.(items := j.items[i := Marked(j.items[i], place[1..], mark)])
  }

  function Paths(server: Server, delta: set<string>): Json {
    List(if delta == {} then [] else server.listed(delta))
  }

  predicate Truth(server: Server, j: Json) {
    match j
    case Atom(_, value) => server.truthy(value)
    case List(items) => items != []
    case Tuple(items) => items != []
    case Set(_, members) => members != {}
    case Dict(fields) => fields != map[]
  }

  function Field(server: Server, fields: map<string, Json>, k: string): Option<bool> {
    if k in fields then Some(Truth(server, fields[k])) else None
  }

  /** The two required fields of an answer, wherever it is held. */
  datatype Answer = NoAnswer | Answer(success: Option<bool>, stateChanged: Option<bool>)

  function AnswerOf(server: Server, sid: Sid, after: Sessions, r: HandlerResult): Answer {
    match r
    case Returns(success, changed, _) => Answer(success, changed)
    case ReturnsPart(place) =>
      if sid in after && HoldsAnswer(after[sid], place) then
        var fields := At(after[sid], place).value.fields;
        Answer(Field(server, fields, "success"), Field(server, fields, "state_changed"))
      else NoAnswer
    case _ => NoAnswer
  }

  predicate Complete(a: Answer) {
    a.Answer? && a.success.Some? && a.stateChanged.Some?
  }

  /** What a passed call returns: its answer with the paths added. */
  function BodyOf(server: Server, sid: Sid, after: Sessions, r: HandlerResult, delta: set<string>): Body
    requires Complete(AnswerOf(server, sid, after, r))
  {
    if r.ReturnsPart? then Part(Marked(At(after[sid], r.place).value, [], Paths(server, delta))) else Content(r.body)
  }

  /** The checks between the handler's return and the commit, in source order. */
  function Judge(server: Server, name: Tool, before: Json, sid: Sid, after: Sessions, r: HandlerResult)
      : (verdict: Verdict)
    ensures verdict.Commit? ==> verdict.result.Passed?
  {
    var answer := AnswerOf(server, sid, after, r);
    if r.RaisesKeyError? then Abort(PreconditionFailed)
    else if r.RaisesOther? then Abort(ExecutionError)
    else if r.Escapes? then Escape
    else if answer.NoAnswer? then Abort(ExecutionError)
    else if answer.success.None? || answer.stateChanged.None? then Abort(ExecutionError)
    else if sid !in after then Abort(PreconditionFailed)
    else
      var delta := Delta(before, after[sid]);
      var actual := delta != {};
      if !answer.success.value && actual then Abort(ExecutionError)
      else if actual != answer.stateChanged.value then Abort(ExecutionError)
      else if name in server.roots && !(ChangedRoots(before, after[sid]) <= server.roots[name])
      then Abort(ExecutionError)
      else
        var paths := Rendered(before, after[sid]);
        Commit(Passed(answer.success.value, answer.stateChanged.value, BodyOf(server, sid, after, r, paths), paths))
  }

  /** Writing the paths into an answer that the session holds writes them into the session. */
  function Committed(server: Server, sid: Sid, after: Sessions, r: HandlerResult, delta: set<string>): Sessions {
    if r.ReturnsPart? && sid in after && HoldsAnswer(after[sid], r.place)
    then after[sid := Marked(after[sid], r.place, Paths(server, delta))]
    else after
  }

  /** `_rollback_session`: clear and refill the slot's dictionary, or replace what is not one. */
  function Rollback(server: Server, sessions: Sessions, sid: Sid, before: Json): (Sessions, bool) {
    if sid in sessions && sessions[sid].Dict? then
      if before.Dict? then (sessions[sid := before], true)
      else
        var filled := server.coerce(before);
        (sessions[sid := Dict(if filled.Some? then filled.value else map[])], filled.Some?)
    else (sessions[sid := before], true)
  }

  function CallTool(server: Server, sessions: Sessions, sid: Sid, name: Tool, args: Args): (Sessions, Response) {
    if name !in server.handlers then (sessions, CallResponse(Refused(UnknownTool)))
    else if sid !in sessions then (sessions, CallResponse(Refused(PreconditionFailed)))
    else
      var (after, r) := server.handlers[name](sid, args, sessions);
      match Judge(server, name, sessions[sid], sid, after, r)
      case Commit(result) => (Committed(server, sid, after, r, result.delta), CallResponse(result))
      case Escape => (after, Raised(Escaped))
      case Abort(error) =>
        var (restored, ok) := Rollback(server, after, sid, sessions[sid]);
        (restored, if ok then CallResponse(Refused(error)) else Raised(RollbackFailed))
  }

  function Handle(server: Server, sessions: Sessions, request: Request): (Sessions, Response) {
    match request
    case Healthcheck => (sessions, Acknowledged)
    case Shutdown => (sessions, Acknowledged)
    case ListTools => (sessions, Tools)
    case OtherMethod => (sessions, UnknownMethod)
    case Reset(sid, seed, profile) =>
      if sid !in sessions && |sessions| >= MAX_SESSIONS then (sessions, Raised(CapacityExceeded))
      else (sessions[sid := Dict(server.seeder(sid, seed, profile))], Acknowledged)
    case Close(sid) => (sessions - {sid}, Acknowledged)
    case GetState(sid) => if sid in sessions then (sessions, StateOf(sessions[sid]))
                          else (sessions, Raised(UnknownSession))
    case Call(sid, name, args) => CallTool(server, sessions, sid, name, args)
  }

  class StatefulToolServer {
    const server: Server
    var sessions: Sessions

    constructor (server: Server)
      ensures this.server == server && sessions == map[]
    {
      this.server := server;
      sessions := map[];
    }

    method HandleRequest(request: Request) returns (response: Response)
      modifies this
      ensures (sessions, response) == Handle(server, old(sessions), request)
    {
      match request {
        case Healthcheck => return Acknowledged;
        case Shutdown => return Acknowledged;
        case ListTools => return Tools;
        case OtherMethod => return UnknownMethod;
        case Reset(sid, seed, profile) =>
          if sid !in sessions && |sessions| >= MAX_SESSIONS { return Raised(CapacityExceeded); }
          sessions := sessions[sid := Dict(server.seeder(sid, seed, profile))];
          return Acknowledged;
        case Close(sid) =>
          sessions := sessions - {sid};
          return Acknowledged;
        case GetState(sid) =>
          if sid !in sessions { return Raised(UnknownSession); }
          return StateOf(sessions[sid]);
        case Call(sid, name, args) =>
          response := RunTool(sid, name, args);
      }
    }

    /** `_call_tool`. */
    method RunTool(sid: Sid, name: Tool, args: Args) returns (response: Response)
      modifies this
      ensures (sessions, response) == CallTool(server, old(sessions), sid, name, args)
    {
      hide Judge, Committed;
      if name !in server.handlers { return CallResponse(Refused(UnknownTool)); }
      if sid !in sessions { return CallResponse(Refused(PreconditionFailed)); }
      var before := sessions[sid];
      var (after, r) := server.handlers[name](sid, args, sessions);
      sessions := after;
      var verdict := Judge(server, name, before, sid, sessions, r);
      if verdict.Escape? { return Raised(Escaped); }
      if verdict.Commit? {
        sessions := Committed(server, sid, sessions, r, verdict.result.delta);
        return CallResponse(verdict.result);
      }
      var ok := RestoreSession(sid, before);
      return if ok then CallResponse(Refused(verdict.error)) else Raised(RollbackFailed);
    }

    method RestoreSession(sid: Sid, snapshot: Json) returns (ok: bool)
      modifies this
      ensures (sessions, ok) == Rollback(server, old(sessions), sid, snapshot)
    {
      if sid in sessions && sessions[sid].Dict? {
        if snapshot.Dict? {
          sessions := sessions[sid := snapshot];
          return true;
        }
        var filled := server.coerce(snapshot);
        sessions := sessions[sid := Dict(if filled.Some? then filled.value else map[])];
        return filled.Some?;
      }
      sessions := sessions[sid := snapshot];
      return true;
    }
  }

  // ---------------------------------------------------------------- every call is a transaction

  /** Either nothing the server can see has changed, and the session is as before unless the call passed
      as unchanged; or the call succeeded, declared the change, and changed something, within its
      allowed roots when those are known. */
  ghost predicate Transactional(server: Server, sid: Sid, name: Tool, before: Json, after: Sessions,
                                response: Response) {
    && sid in after
    && if Unchanged(before, after[sid]) then
         after[sid] == before || (PassedWith(response, false) && response.result.delta == {})
       else
         && PassedWith(response, true) && response.result.success && response.result.delta != {}
         && (name in server.roots ==> ChangedRoots(before, after[sid]) <= server.roots[name])
  }

  predicate PassedWith(response: Response, stateChanged: bool) {
    response.CallResponse? && response.result.Passed? && response.result.stateChanged == stateChanged
  }

  lemma JudgeCommits(server: Server, name: Tool, before: Json, sid: Sid, after: Sessions, r: HandlerResult)
    requires Judge(server, name, before, sid, after, r).Commit?
    ensures var result := Judge(server, name, before, sid, after, r).result;
            && sid in after && result.Passed?
            && (result.stateChanged <==> !Unchanged(before, after[sid]))
            && (result.delta != {} <==> !Unchanged(before, after[sid]))
            && (result.stateChanged ==> result.success)
            && (name in server.roots ==> ChangedRoots(before, after[sid]) <= server.roots[name])
  {
    hide Delta, ChangedRoots, Unchanged, AnswerOf, BodyOf;
    DeltaEmptyIffUnchanged(before, after[sid]);
    var delta := Delta(before, after[sid]);
    if p :| p in delta { assert SameType(before, after[sid]) ==> Join(p) in Rendered(before, after[sid]); }
    if Unchanged(before, after[sid]) { UnchangedSameType(before, after[sid]); }
  }

  /** A complete, honest and permitted answer to a call. */
  ghost predicate Honest(server: Server, name: Tool, before: Json, sid: Sid, after: Sessions, r: HandlerResult) {
    var answer := AnswerOf(server, sid, after, r);
    && Complete(answer) && sid in after
    && (answer.stateChanged.value <==> !Unchanged(before, after[sid]))
    && (answer.stateChanged.value ==> answer.success.value)
    && (name in server.roots ==> ChangedRoots(before, after[sid]) <= server.roots[name])
  }

  /** The handler could not find what it needed, or closed its own session. */
  predicate Missing(server: Server, sid: Sid, after: Sessions, r: HandlerResult) {
    r.RaisesKeyError? || (Complete(AnswerOf(server, sid, after, r)) && sid !in after)
  }

  /** What a passed call answers. */
  ghost function ResultOf(server: Server, before: Json, sid: Sid, after: Sessions, r: HandlerResult): CallResult
    requires sid in after && Complete(AnswerOf(server, sid, after, r))
  {
    var answer, paths := AnswerOf(server, sid, after, r), Rendered(before, after[sid]);
    Passed(answer.success.value, answer.stateChanged.value, BodyOf(server, sid, after, r, paths), paths)
  }

  lemma JudgeExactly(server: Server, name: Tool, before: Json, sid: Sid, after: Sessions, r: HandlerResult)
    ensures Judge(server, name, before, sid, after, r) ==
            if Honest(server, name, before, sid, after, r) then Commit(ResultOf(server, before, sid, after, r))
            else if r.Escapes? then Escape
            else Abort(if Missing(server, sid, after, r) then PreconditionFailed else ExecutionError)
  {
    hide Delta, ChangedRoots, Rendered, Unchanged, BodyOf;
    if sid in after { DeltaEmptyIffUnchanged(before, after[sid]); }
  }

  /** A call passes exactly when the handler was honest, and then the handler's sessions and answer stand, with
      the paths added to the answer; otherwise, if its exception is caught, the session is put back and the
      answer says whether something was missing. */
  lemma PassesExactly(server: Server, sessions: Sessions, sid: Sid, name: Tool, args: Args)
    requires sid in sessions && sessions[sid].Dict? && name in server.handlers
    ensures var (after, r) := server.handlers[name](sid, args, sessions);
            var (final, response) := CallTool(server, sessions, sid, name, args);
            if Honest(server, name, sessions[sid], sid, after, r) then
              && response == CallResponse(ResultOf(server, sessions[sid], sid, after, r))
              && final == Committed(server, sid, after, r, response.result.delta)
            else if r.Escapes? then
              final == after && response == Raised(Escaped)
            else
              && final == after[sid := sessions[sid]]
              && response == CallResponse(Refused(if Missing(server, sid, after, r) then PreconditionFailed
                                                  else ExecutionError))
  {
    hide Judge, Honest, Missing, Rendered, Unchanged, Committed, AnswerOf, BodyOf;
    var (after, r) := server.handlers[name](sid, args, sessions);
    JudgeExactly(server, name, sessions[sid], sid, after, r);
  }

  /** What the handler does in this call. */
  function Outcome(server: Server, sessions: Sessions, sid: Sid, name: Tool, args: Args): (Sessions, HandlerResult)
    requires name in server.handlers
  {
    server.handlers[name](sid, args, sessions)
  }

  /** The handler's exception, if it raises one, is caught. */
  predicate Caught(server: Server, sessions: Sessions, sid: Sid, name: Tool, args: Args) {
    name in server.handlers ==> !Outcome(server, sessions, sid, name, args).1.Escapes?
  }

  /** The handler's answer is a dictionary of its own. */
  predicate AnswersApart(server: Server, sessions: Sessions, sid: Sid, name: Tool, args: Args) {
    name in server.handlers ==> !Outcome(server, sessions, sid, name, args).1.ReturnsPart?
  }

  /** A call on a session holding a dictionary, whose exceptions are caught and whose answer is not held by the
      session, is a transaction and never raises; the response says stateChanged exactly when the state visibly
      changed. */
  lemma CallIsTransactional(server: Server, sessions: Sessions, sid: Sid, name: Tool, args: Args)
    requires sid in sessions && sessions[sid].Dict?
    requires Caught(server, sessions, sid, name, args) && AnswersApart(server, sessions, sid, name, args)
    ensures var (after, response) := CallTool(server, sessions, sid, name, args);
            && Transactional(server, sid, name, sessions[sid], after, response)
            && response.CallResponse?
            && (PassedWith(response, true) <==> !Unchanged(sessions[sid], after[sid]))
  {
    hide Judge, ChangedRoots, Unchanged;
    UnchangedReflexive(sessions[sid]);
    if name in server.handlers {
      var (after, r) := Outcome(server, sessions, sid, name, args);
      var verdict := Judge(server, name, sessions[sid], sid, after, r);
      JudgeExactly(server, name, sessions[sid], sid, after, r);
      if verdict.Commit? { JudgeCommits(server, name, sessions[sid], sid, after, r); }
    }
  }

  // ---------------------------------------------------------------- exactly when a call is undone

  /** The dictionary at a place already has an empty list for its mark. */
  predicate EmptyMark(j: Json, place: seq<Place>)
    requires HoldsAnswer(j, place)
  {
    MARK in At(j, place).value.fields && At(j, place).value.fields[MARK] == List([])
  }

  lemma {:induction false} MarkedEmpty(j: Json, place: seq<Place>)
    requires HoldsAnswer(j, place) && EmptyMark(j, place)
    ensures Marked(j, place, List([])) == j
  {
    if place == [] {
      assert j.fields[MARK := List([])] == j.fields;
    } else {
      match place[0]
      case Key(k) =>
        MarkedEmpty(j.fields[k], place[1..]);
        assert j.fields[k := j.fields[k]] == j.fields;
      case Index(i) =>
        MarkedEmpty(j.items[i], place[1..]);
        assert j.items[i := j.items[i]] == j.items;
    }
  }

  /** A state that compares equal to one before and after its mark was emptied had an empty mark. */
  lemma {:induction false} LooseMark(before: Json, after: Json, place: seq<Place>)
    requires HoldsAnswer(after, place) && Loose(before, after) && Loose(before, Marked(after, place, List([])))
    ensures EmptyMark(after, place)
    decreases place
  {
    var marked := Marked(after, place, List([]));
    if place == [] {
      assert MARK in marked.fields && MARK in before.fields;
      assert Loose(before.fields[MARK], List([])) && Loose(before.fields[MARK], after.fields[MARK]);
    } else {
      match place[0]
      case Key(k) => LooseMark(before.fields[k], after.fields[k], place[1..]);
      case Index(i) => LooseMark(before.items[i], after.items[i], place[1..]);
    }
  }

  lemma {:induction false} UnchangedIsLoose(before: Json, after: Json)
    requires Unchanged(before, after)
    ensures Loose(before, after)
    decreases before
  {
    if before.Dict? {
      forall k | k in before.fields ensures Loose(before.fields[k], after.fields[k]) {
        UnchangedIsLoose(before.fields[k], after.fields[k]);
      }
    }
  }

  /** The handler answers, with a dictionary that the session holds, that nothing changed; the empty list of paths
      written into that dictionary is a change of its own. */
  ghost predicate MarksItself(server: Server, sessions: Sessions, sid: Sid, name: Tool, args: Args)
    requires sid in sessions
  {
    name in server.handlers &&
    var (after, r) := Outcome(server, sessions, sid, name, args);
    && Honest(server, name, sessions[sid], sid, after, r) && Unchanged(sessions[sid], after[sid])
    && r.ReturnsPart? && !EmptyMark(after[sid], r.place)
  }

  /** The handler answered that nothing changed, as the server sees it, but retyped a list, a tuple or a set. */
  ghost predicate RetypesQuietly(server: Server, sessions: Sessions, sid: Sid, name: Tool, args: Args)
    requires sid in sessions
  {
    name in server.handlers &&
    var (after, r) := Outcome(server, sessions, sid, name, args);
    && Honest(server, name, sessions[sid], sid, after, r)
    && Unchanged(sessions[sid], after[sid]) && Retyped(sessions[sid], after[sid])
  }

  /** The state an honest handler that reports no change is left with. */
  lemma QuietState(server: Server, before: Json, sid: Sid, name: Tool, after: Sessions, r: HandlerResult)
    requires before.Dict? && Honest(server, name, before, sid, after, r) && Unchanged(before, after[sid])
    ensures var delta := ResultOf(server, before, sid, after, r).delta;
            var final := Committed(server, sid, after, r, delta);
            && sid in final
            && (Unchanged(before, final[sid]) <==> !(r.ReturnsPart? && !EmptyMark(after[sid], r.place)))
            && (Unchanged(before, final[sid]) ==> final[sid] == after[sid])
  {
    hide Unchanged, Loose, ChangedRoots, Delta, Marked, EmptyMark, BodyOf;
    DeltaEmptyIffUnchanged(before, after[sid]);
    UnchangedSameType(before, after[sid]);
    assert Rendered(before, after[sid]) == {};
    if r.ReturnsPart? {
      var marked := Marked(after[sid], r.place, List([]));
      if EmptyMark(after[sid], r.place) { MarkedEmpty(after[sid], r.place); }
      if Unchanged(before, marked) {
        UnchangedIsLoose(before, after[sid]);
        UnchangedIsLoose(before, marked);
        LooseMark(before, after[sid], r.place);
      }
    }
  }

  /** A call answers, and leaves no visible change unless it passes as one. */
  ghost predicate Undone(sid: Sid, before: Json, after: Sessions, response: Response) {
    response.CallResponse? && sid in after && (PassedWith(response, true) || Unchanged(before, after[sid]))
  }

  /** It leaves no change at all unless it passes as one. */
  ghost predicate StrictlyUndone(sid: Sid, before: Json, after: Sessions, response: Response) {
    response.CallResponse? && sid in after && (PassedWith(response, true) || after[sid] == before)
  }

  /** A call never raises and leaves no visible change unless it passes as one, exactly if its handler's exceptions
      are caught and its answer of no change is not a dictionary that the session holds. */
  lemma UndoneExactly(server: Server, sessions: Sessions, sid: Sid, name: Tool, args: Args)
    requires sid in sessions && sessions[sid].Dict?
    ensures var (after, response) := CallTool(server, sessions, sid, name, args);
            Undone(sid, sessions[sid], after, response) <==>
            Caught(server, sessions, sid, name, args) && !MarksItself(server, sessions, sid, name, args)
  {
    hide Judge, ChangedRoots, Unchanged, Delta, Committed, EmptyMark, BodyOf, Rendered, AnswerOf, CallTool;
    UnchangedReflexive(sessions[sid]);
    if name in server.handlers {
      var (after, r) := Outcome(server, sessions, sid, name, args);
      PassesExactly(server, sessions, sid, name, args);
      if sid in after { CommittedSlot(server, sid, after, r); }
      if Honest(server, name, sessions[sid], sid, after, r) {
        assert !r.Escapes? by { AnswersDoNotEscape(server, sid, after, r); }
        if Unchanged(sessions[sid], after[sid]) { QuietState(server, sessions[sid], sid, name, after, r); }
      }
    } else {
      UnknownTools(server, sessions, sid, name, args);
    }
  }

  lemma UnknownTools(server: Server, sessions: Sessions, sid: Sid, name: Tool, args: Args)
    requires name !in server.handlers
    ensures CallTool(server, sessions, sid, name, args) == (sessions, CallResponse(Refused(UnknownTool)))
  {
  }

  lemma CommittedSlot(server: Server, sid: Sid, after: Sessions, r: HandlerResult)
    requires sid in after
    ensures forall delta :: sid in Committed(server, sid, after, r, delta)
  {
    hide Marked;
  }

  lemma AnswersDoNotEscape(server: Server, sid: Sid, after: Sessions, r: HandlerResult)
    requires Complete(AnswerOf(server, sid, after, r))
    ensures !r.Escapes?
  {
  }

  /** A call never raises and leaves the very state it found unless it passes as a change, exactly if moreover its
      handler does not quietly retype a list, a tuple or a set. */
  lemma StrictlyTransactionalExactly(server: Server, sessions: Sessions, sid: Sid, name: Tool, args: Args)
    requires sid in sessions && sessions[sid].Dict?
    ensures var (after, response) := CallTool(server, sessions, sid, name, args);
            StrictlyUndone(sid, sessions[sid], after, response) <==>
            && Caught(server, sessions, sid, name, args) && !MarksItself(server, sessions, sid, name, args)
            && !RetypesQuietly(server, sessions, sid, name, args)
  {
    hide Judge, ChangedRoots, Unchanged, Retyped, Delta, Committed, EmptyMark, BodyOf, Rendered, AnswerOf, CallTool;
    UnchangedReflexive(sessions[sid]);
    UndoneExactly(server, sessions, sid, name, args);
    if name in server.handlers {
      var (after, r) := Outcome(server, sessions, sid, name, args);
      PassesExactly(server, sessions, sid, name, args);
      if Honest(server, name, sessions[sid], sid, after, r) && Unchanged(sessions[sid], after[sid]) {
        QuietState(server, sessions[sid], sid, name, after, r);
        UnchangedReflexive(after[sid]);
        if !Retyped(sessions[sid], after[sid]) { UnchangedIsEqual(sessions[sid], after[sid]); }
      }
    } else {
      UnknownTools(server, sessions, sid, name, args);
    }
  }

  /** Put a list, of equal truth values, in place of a session's. */
  function Retyper(key: string, list: Json): Handler {
    (sid: Sid, args: Args, sessions: Sessions) => (sessions[sid := Dict(map[key := list])],
                                                   Returns(Some(false), Some(false), 0))
  }

  /** Such a handler exists: it reports failure without a change, and its retyped list stays. */
  lemma RetypedListStays(server: Server, sid: Sid, name: Tool, args: Args, key: string, i: nat, b: nat, v: nat)
    requires i != b
    ensures var before := Dict(map[key := List([Atom(i, v)])]);
            var s := WithHandler(server, name, Retyper(key, List([Atom(b, v)])));
            var (after, response) := CallTool(s, map[sid := before], sid, name, args);
            && RetypesQuietly(s, map[sid := before], sid, name, args)
            && sid in after && after[sid] != before && PassedWith(response, false) && !response.result.success
  {
    hide Judge, Unchanged, Retyped, Delta, ChangedRoots, Rendered;
    var before := Dict(map[key := List([Atom(i, v)])]);
    var s := WithHandler(server, name, Retyper(key, List([Atom(b, v)])));
    var after := Dict(map[key := List([Atom(b, v)])]);
    RetypedListIsMissed(key, i, b, v);
    DeltaEmptyIffUnchanged(before, after);
    NoDeltaNoRoots(before, after);
    PassesExactly(s, map[sid := before], sid, name, args);
  }

  lemma NoDeltaNoRoots(before: Json, after: Json)
    requires before.Dict? && after.Dict? && Delta(before, after) == {}
    ensures ChangedRoots(before, after) == {}
  {
    hide Delta;
  }

  /** A handler that answers with its session. */
  function SelfAnswering(): Handler {
    (sid: Sid, args: Args, sessions: Sessions) => (sessions, ReturnsPart([]))
  }

  /** A session that can be such an answer: a success without a change. */
  function SelfAnswer(): Json {
    Dict(map["success" := List([List([])]), "state_changed" := List([])])
  }

  /** The call passes as unchanged, and the session has a field more, whatever roots the tool may change. */
  lemma SelfAnswerStays(server: Server, sid: Sid, name: Tool, args: Args)
    ensures var s := WithHandler(server, name, SelfAnswering());
            var (after, response) := CallTool(s, map[sid := SelfAnswer()], sid, name, args);
            && MarksItself(s, map[sid := SelfAnswer()], sid, name, args)
            && PassedWith(response, false) && after == map[sid := Dict(SelfAnswer().fields[MARK := List([])])]
            && FieldChanged(SelfAnswer(), after[sid], MARK) && Chargeable(SelfAnswer(), after[sid], MARK)
  {
    hide Judge, Unchanged, Delta, ChangedRoots, Rendered, AnswerOf, SelfAnswer, HoldsAnswer, EmptyMark, CallTool,
      BodyOf, Paths;
    var before := SelfAnswer();
    var s := WithHandler(server, name, SelfAnswering());
    UnchangedReflexive(before);
    DeltaEmptyIffUnchanged(before, before);
    SelfAnswerIs(server, sid);
    SelfAnswerIs(s, sid);
    NoDeltaNoRoots(before, before);
    NothingRendered(before);
    PassesExactly(s, map[sid := before], sid, name, args);
  }

  lemma SelfAnswerIs(server: Server, sid: Sid)
    ensures var j := SelfAnswer();
            && j.Dict? && MARK !in j.fields && '.' !in MARK && MARK != ""
            && AnswerOf(server, sid, map[sid := j], ReturnsPart([])) == Answer(Some(true), Some(false))
            && HoldsAnswer(j, []) && !EmptyMark(j, []) && Paths(server, {}) == List([])
            && Marked(j, [], List([])) == Dict(j.fields[MARK := List([])])
  {
    var j := SelfAnswer();
    assert "success" in j.fields && "state_changed" in j.fields && MARK !in j.fields;
  }

  lemma NothingRendered(j: Json)
    ensures Rendered(j, j) == {}
  {
    hide Delta;
    UnchangedReflexive(j);
    DeltaEmptyIffUnchanged(j, j);
    UnchangedSameType(j, j);
  }

  /** A handler that empties its session and then exits. */
  function Exiting(): Handler {
    (sid: Sid, args: Args, sessions: Sessions) => (sessions[sid := Dict(map[])], Escapes)
  }

  /** Its exception leaves the request handler, and the session stays empty. */
  lemma ExitIsNotUndone(server: Server, sessions: Sessions, sid: Sid, name: Tool, args: Args)
    requires sid in sessions
    ensures var s := WithHandler(server, name, Exiting());
            && !Caught(s, sessions, sid, name, args)
            && CallTool(s, sessions, sid, name, args) == (sessions[sid := Dict(map[])], Raised(Escaped))
  {
  }

  // ---------------------------------------------------------------- what a committed call may change

  /** The field of the session that an answer is marked in. */
  predicate MarkedIn(server: Server, sessions: Sessions, sid: Sid, name: Tool, args: Args, k: string) {
    name in server.handlers &&
    var r := Outcome(server, sessions, sid, name, args).1;
    r.ReturnsPart? && if r.place == [] then k == MARK else r.place[0] == Key(k)
  }

  lemma MarkedElsewhere(j: Json, place: seq<Place>, mark: Json, k: string)
    requires HoldsAnswer(j, place) && j.Dict? && if place == [] then k != MARK else place[0] != Key(k)
    ensures var m := Marked(j, place, mark);
            m.Dict? && (k in m.fields <==> k in j.fields) && (k in j.fields ==> m.fields[k] == j.fields[k])
  {
  }

  lemma MarkedIsDict(j: Json, place: seq<Place>, mark: Json)
    requires HoldsAnswer(j, place)
    ensures Marked(j, place, mark).Dict? <==> j.Dict?
  {
  }

  /** A call that answers changed no field that can be charged, unless it may, or unless the answer is held in
      that very field. */
  lemma CommittedFieldsAreAllowed(server: Server, sessions: Sessions, sid: Sid, name: Tool, args: Args, k: string)
    requires sid in sessions && sessions[sid].Dict? && name in server.roots
    requires var (after, response) := CallTool(server, sessions, sid, name, args);
             && response.CallResponse? && sid in after && after[sid].Dict?
             && FieldChanged(sessions[sid], after[sid], k) && Chargeable(sessions[sid], after[sid], k)
    ensures k in server.roots[name] || MarkedIn(server, sessions, sid, name, args, k)
  {
    hide CallTool, ChangedRoots, Unchanged, Marked, BodyOf, Delta, Rendered, Join, Root;
    var before := sessions[sid];
    UnchangedReflexive(before);
    var final := CallTool(server, sessions, sid, name, args).0;
    if name !in server.handlers {
      UnknownTools(server, sessions, sid, name, args);
      UnchangedFields(before, before);
    } else if !MarkedIn(server, sessions, sid, name, args, k) {
      PassesExactly(server, sessions, sid, name, args);
      var (after, r) := Outcome(server, sessions, sid, name, args);
      if Honest(server, name, before, sid, after, r) {
        var delta := ResultOf(server, before, sid, after, r).delta;
        if r.ReturnsPart? {
          MarkedIsDict(after[sid], r.place, Paths(server, delta));
          MarkedElsewhere(after[sid], r.place, Paths(server, delta), k);
        }
        ChargeableIsCharged(before, after[sid], k);
      } else {
        UnchangedFields(before, before);
      }
    }
  }

  /** When every changed field can be charged, charges within the allowed roots mean changes within them. */
  lemma AllChangesAllowed(before: Json, after: Json, allowed: set<string>)
    requires before.Dict? && after.Dict? && ChangedRoots(before, after) <= allowed
    requires forall k :: FieldChanged(before, after, k) ==> Chargeable(before, after, k)
    ensures forall k :: FieldChanged(before, after, k) ==> k in allowed
  {
    hide ChangedRoots, FieldChanged, Chargeable;
    RootsExactly(before, after);
  }

  /** The dictionary is needed: on any other state a handler that puts a dictionary in its slot and
      raises leaves it there. */
  function Clobber(): Handler {
    (sid: Sid, args: Args, sessions: Sessions) => (sessions[sid := Dict(map[])], RaisesOther)
  }

  function WithHandler(server: Server, name: Tool, h: Handler): Server {
    server.(handlers := server.handlers[name := h])
  }

  ghost predicate TransactionalUnder(server: Server, sessions: Sessions, sid: Sid, name: Tool, args: Args, h: Handler)
    requires sid in sessions
  {
    var s := WithHandler(server, name, h);
    var (after, response) := CallTool(s, sessions, sid, name, args);
    Caught(s, sessions, sid, name, args) && AnswersApart(s, sessions, sid, name, args) ==>
      Transactional(s, sid, name, sessions[sid], after, response)
  }

  /** For one session state, calls of every handler whose exceptions are caught and whose answer is its own are
      transactional exactly when the state is a dictionary. */
  lemma TransactionalIffDictionary(server: Server, sessions: Sessions, sid: Sid, name: Tool, args: Args)
    requires sid in sessions
    ensures sessions[sid].Dict? <==> forall h: Handler :: TransactionalUnder(server, sessions, sid, name, args, h)
  {
    hide Judge, Transactional, CallTool, Caught, AnswersApart;
    if sessions[sid].Dict? {
      forall h: Handler
        ensures TransactionalUnder(server, sessions, sid, name, args, h)
      {
        var s := WithHandler(server, name, h);
        if Caught(s, sessions, sid, name, args) && AnswersApart(s, sessions, sid, name, args) {
          CallIsTransactional(s, sessions, sid, name, args);
        }
      }
    } else {
      ClobberBreaks(WithHandler(server, name, Clobber()), sessions, sid, name, args);
      assert !TransactionalUnder(server, sessions, sid, name, args, Clobber());
    }
  }

  lemma ClobberBreaks(server: Server, sessions: Sessions, sid: Sid, name: Tool, args: Args)
    requires sid in sessions && !sessions[sid].Dict? && name in server.handlers && server.handlers[name] == Clobber()
    ensures var (after, response) := CallTool(server, sessions, sid, name, args);
            && !Transactional(server, sid, name, sessions[sid], after, response)
            && Caught(server, sessions, sid, name, args) && AnswersApart(server, sessions, sid, name, args)
  {
  }

  /** A handler that puts a list in place of its session and says so. */
  function Replacer(): Handler {
    (sid: Sid, args: Args, sessions: Sessions) => (sessions[sid := List([])], Returns(Some(true), Some(true), 0))
  }

  /** The call answers, and leaves something else than a dictionary. */
  ghost predicate LeavesDictionary(server: Server, sessions: Sessions, sid: Sid, name: Tool, args: Args, h: Handler) {
    var (after, response) := CallTool(WithHandler(server, name, h), sessions, sid, name, args);
    response.CallResponse? && (sid !in after || !after[sid].Dict?)
  }

  /** Some handler of the tool can answer and turn its session into something else than a dictionary exactly when
      the tool's roots are unknown or include the root itself. */
  lemma NonDictionaryExactly(server: Server, sessions: Sessions, sid: Sid, name: Tool, args: Args)
    requires sid in sessions && sessions[sid].Dict?
    ensures (exists h: Handler :: LeavesDictionary(server, sessions, sid, name, args, h))
            <==> (name in server.roots ==> "<root>" in server.roots[name])
  {
    hide CallTool, Unchanged, ChangedRoots, Judge, Rendered, Marked, BodyOf;
    var before := sessions[sid];
    if h: Handler :| LeavesDictionary(server, sessions, sid, name, args, h) {
      var s := WithHandler(server, name, h);
      PassesExactly(s, sessions, sid, name, args);
      var (after, r) := Outcome(s, sessions, sid, name, args);
      assert Honest(s, name, before, sid, after, r);
      var delta := ResultOf(s, before, sid, after, r).delta;
      if r.ReturnsPart? { MarkedIsDict(after[sid], r.place, Paths(s, delta)); }
      NotDictionary(before, after[sid]);
    }
    if name in server.roots ==> "<root>" in server.roots[name] {
      var s := WithHandler(server, name, Replacer());
      NotDictionary(before, List([]));
      PassesExactly(s, sessions, sid, name, args);
      assert LeavesDictionary(server, sessions, sid, name, args, Replacer());
    }
  }

  lemma NotDictionary(before: Json, after: Json)
    requires before.Dict? && !after.Dict?
    ensures !Unchanged(before, after) && ChangedRoots(before, after) == {"<root>"}
  {
    RootOfPlain("<root>", "");
    assert "<root>" + "" == "<root>";
    assert Rendered(before, after) == {"<root>"};
  }

  // ---------------------------------------------------------------- session isolation

  /** What a session-local handler sees and leaves. */
  ghost predicate SameSlot(sid: Sid, s: Sessions, t: Sessions) {
    (sid in s <==> sid in t) && (sid in s ==> s[sid] == t[sid])
  }

  /** A handler that reads and writes only its own session. */
  ghost predicate Local(h: Handler) {
    && (forall sid, args, s, other :: other != sid ==> SameSlot(other, s, h(sid, args, s).0))
    && (forall sid, args, s, t :: SameSlot(sid, s, t) ==>
          SameSlot(sid, h(sid, args, s).0, h(sid, args, t).0) && h(sid, args, s).1 == h(sid, args, t).1)
  }

  ghost predicate LocalServer(server: Server) {
    forall name :: name in server.handlers ==> Local(server.handlers[name])
  }

  /** The request names the session. */
  predicate About(request: Request, sid: Sid) {
    match request
    case Reset(s, _, _) => s == sid
    case Close(s) => s == sid
    case GetState(s) => s == sid
    case Call(s, _, _) => s == sid
    case _ => false
  }

  lemma CallElsewhere(server: Server, sessions: Sessions, sid: Sid, name: Tool, args: Args, other: Sid)
    requires LocalServer(server) && other != sid
    ensures SameSlot(other, sessions, CallTool(server, sessions, sid, name, args).0)
  {
    hide Judge;
    if name in server.handlers && sid in sessions {
      assert Local(server.handlers[name]);
      assert SameSlot(other, sessions, server.handlers[name](sid, args, sessions).0);
    }
  }

  /** Requests about other sessions leave a session alone. */
  lemma OthersDoNotTouch(server: Server, sessions: Sessions, request: Request, sid: Sid)
    requires LocalServer(server) && !About(request, sid)
    ensures SameSlot(sid, sessions, Handle(server, sessions, request).0)
  {
    hide CallTool, LocalServer;
    if request.Call? { CallElsewhere(server, sessions, request.sid, request.name, request.args, sid); }
  }

  lemma JudgeDependsOnSlot(server: Server, name: Tool, before: Json, sid: Sid, s: Sessions, t: Sessions,
                           r: HandlerResult)
    requires SameSlot(sid, s, t)
    ensures Judge(server, name, before, sid, s, r) == Judge(server, name, before, sid, t, r)
  {
    hide Delta, ChangedRoots, Rendered, Marked;
  }

  lemma CallDependsOnSlot(server: Server, sid: Sid, name: Tool, args: Args, s: Sessions, t: Sessions)
    requires LocalServer(server) && SameSlot(sid, s, t)
    ensures SameSlot(sid, CallTool(server, s, sid, name, args).0, CallTool(server, t, sid, name, args).0)
    ensures CallTool(server, s, sid, name, args).1 == CallTool(server, t, sid, name, args).1
  {
    hide Judge;
    if name in server.handlers && sid in s {
      assert Local(server.handlers[name]);
      var (s1, r) := server.handlers[name](sid, args, s);
      var (t1, q) := server.handlers[name](sid, args, t);
      JudgeDependsOnSlot(server, name, s[sid], sid, s1, t1, r);
    }
  }

  /** A request about a session depends on nothing but its slot, capacity apart. */
  lemma OwnRequestDependsOnSlot(server: Server, request: Request, sid: Sid, s: Sessions, t: Sessions)
    requires LocalServer(server) && SameSlot(sid, s, t) && About(request, sid)
    requires Handle(server, s, request).1 != Raised(CapacityExceeded)
    requires Handle(server, t, request).1 != Raised(CapacityExceeded)
    ensures SameSlot(sid, Handle(server, s, request).0, Handle(server, t, request).0)
    ensures Handle(server, s, request).1 == Handle(server, t, request).1
  {
    hide CallTool, LocalServer;
    if request.Call? { CallDependsOnSlot(server, sid, request.name, request.args, s, t); }
  }

  /** Sessions and responses after a trace of requests. */
  function Serve(server: Server, sessions: Sessions, trace: seq<Request>): (r: (Sessions, seq<Response>))
    ensures |r.1| == |trace|
  {
    if trace == [] then (sessions, [])
    else
      var k := |trace| - 1;
      var (s, responses) := Serve(server, sessions, trace[..k]);
      var (t, response) := Handle(server, s, trace[k]);
      (t, responses + [response])
  }

  function Projected(trace: seq<Request>, sid: Sid): seq<Request> {
    if trace == [] then []
    else
      var k := |trace| - 1;
      Projected(trace[..k], sid) + if About(trace[k], sid) then [trace[k]] else []
  }

  /** Responses to the requests about one session. */
  function ResponsesTo(trace: seq<Request>, responses: seq<Response>, sid: Sid): seq<Response>
    requires |trace| == |responses|
  {
    if trace == [] then []
    else
      var k := |trace| - 1;
      ResponsesTo(trace[..k], responses[..k], sid) + if About(trace[k], sid) then [responses[k]] else []
  }

  ghost predicate NeverRefused(responses: seq<Response>) {
    forall r :: r in responses ==> r != Raised(CapacityExceeded)
  }

  lemma AloneNeverRefused(server: Server, t: Sessions, request: Request, sid: Sid)
    requires LocalServer(server) && About(request, sid) && t.Keys <= {sid}
    ensures Handle(server, t, request).1 != Raised(CapacityExceeded)
    ensures Handle(server, t, request).0.Keys <= {sid}
  {
    hide CallTool, LocalServer;
    if request.Call? {
      var u := CallTool(server, t, sid, request.name, request.args).0;
      forall other | other in u ensures other == sid {
        if other != sid { CallElsewhere(server, t, sid, request.name, request.args, other); }
      }
      CallNeverCapacity(server, t, sid, request.name, request.args);
    }
    if request.Reset? && sid !in t {
      assert t.Keys == {};
      assert |t| == |t.Keys| == 0;
    }
  }

  lemma CallNeverCapacity(server: Server, t: Sessions, sid: Sid, name: Tool, args: Args)
    ensures CallTool(server, t, sid, name, args).1 != Raised(CapacityExceeded)
  {
    hide Judge;
  }

  /** Session isolation over whole runs: unless one of its resets is refused for capacity, a session
      answers and ends exactly as if it had been alone on the server. */
  lemma {:induction false} SessionIsolation(server: Server, trace: seq<Request>, sid: Sid)
    requires LocalServer(server)
    requires NeverRefused(ResponsesTo(trace, Serve(server, map[], trace).1, sid))
    ensures SameSlot(sid, Serve(server, map[], trace).0, Serve(server, map[], Projected(trace, sid)).0)
    ensures ResponsesTo(trace, Serve(server, map[], trace).1, sid) == Serve(server, map[], Projected(trace, sid)).1
    ensures Serve(server, map[], Projected(trace, sid)).0.Keys <= {sid}
  {
    hide Handle, LocalServer, About, SameSlot;
    if trace == [] {
      assert SameSlot(sid, map[], map[]) by { SlotReflexive(sid, map[]); }
    } else {
      var k := |trace| - 1;
      var (s, responses) := Serve(server, map[], trace[..k]);
      var (s', response) := Handle(server, s, trace[k]);
      assert (responses + [response])[..k] == responses;
      var before := ResponsesTo(trace[..k], responses, sid);
      assert NeverRefused(before) by {
        assert forall r :: r in before ==> r in ResponsesTo(trace, responses + [response], sid);
      }
      SessionIsolation(server, trace[..k], sid);
      var t := Serve(server, map[], Projected(trace[..k], sid)).0;
      if About(trace[k], sid) {
        assert response in ResponsesTo(trace, responses + [response], sid);
        AloneNeverRefused(server, t, trace[k], sid);
        OwnRequestDependsOnSlot(server, trace[k], sid, s, t);
        var p := Projected(trace[..k], sid);
        assert (p + [trace[k]])[..|p|] == p;
      } else {
        OthersDoNotTouch(server, s, trace[k], sid);
        SlotTransitive(sid, s, s', t);
        assert Projected(trace, sid) == Projected(trace[..k], sid);
        assert ResponsesTo(trace, responses + [response], sid) == before;
      }
    }
  }

  lemma SlotReflexive(sid: Sid, s: Sessions)
    ensures SameSlot(sid, s, s)
  {
  }

  lemma SlotTransitive(sid: Sid, s: Sessions, s': Sessions, t: Sessions)
    requires SameSlot(sid, s, s') && SameSlot(sid, s, t)
    ensures SameSlot(sid, s', t)
  {
  }

  /** Alone on the server a session is never refused. */
  lemma {:induction false} AloneIsServed(server: Server, trace: seq<Request>, sid: Sid)
    requires LocalServer(server)
    ensures Serve(server, map[], Projected(trace, sid)).0.Keys <= {sid}
    ensures NeverRefused(Serve(server, map[], Projected(trace, sid)).1)
  {
    hide Handle, LocalServer, About;
    if trace != [] {
      var k := |trace| - 1;
      AloneIsServed(server, trace[..k], sid);
      var p := Projected(trace[..k], sid);
      if About(trace[k], sid) {
        AloneNeverRefused(server, Serve(server, map[], p).0, trace[k], sid);
        assert (p + [trace[k]])[..|p|] == p;
      } else {
        assert Projected(trace, sid) == p;
      }
    }
  }

  /** Isolation is exact: a session answers as if it were alone if and only if there is room at each of its
      resets, that is if none of them is refused, and then it also ends as if alone. */
  lemma IsolationExactly(server: Server, trace: seq<Request>, sid: Sid)
    requires LocalServer(server)
    ensures var (shared, responses) := Serve(server, map[], trace);
            var (alone, own) := Serve(server, map[], Projected(trace, sid));
            && (NeverRefused(ResponsesTo(trace, responses, sid)) <==> ResponsesTo(trace, responses, sid) == own)
            && (RoomAtResets(server, trace, sid) <==> ResponsesTo(trace, responses, sid) == own)
            && (RoomAtResets(server, trace, sid) ==> SameSlot(sid, shared, alone))
  {
    hide LocalServer, Serve, Projected, ResponsesTo, NeverRefused, SameSlot, RoomAtResets;
    AloneIsServed(server, trace, sid);
    RoomExactly(server, trace, sid);
    if NeverRefused(ResponsesTo(trace, Serve(server, map[], trace).1, sid)) { SessionIsolation(server, trace, sid); }
  }

  /** At each of its resets the session is live, or there is room for one more. */
  ghost predicate RoomAtResets(server: Server, trace: seq<Request>, sid: Sid) {
    forall i :: 0 <= i < |trace| && trace[i].Reset? && trace[i].sid == sid ==> RoomAt(server, trace[..i], sid)
  }

  ghost predicate RoomAt(server: Server, before: seq<Request>, sid: Sid) {
    var live := Serve(server, map[], before).0;
    sid in live || |live| < MAX_SESSIONS
  }

  lemma RefusedExactly(server: Server, sessions: Sessions, request: Request)
    ensures Handle(server, sessions, request).1 == Raised(CapacityExceeded)
            <==> request.Reset? && request.sid !in sessions && |sessions| >= MAX_SESSIONS
  {
    hide CallTool;
    if request.Call? { CallNeverCapacity(server, sessions, request.sid, request.name, request.args); }
  }

  /** None of a session's resets is refused if and only if there is room at each of them. */
  lemma {:induction false} RoomExactly(server: Server, trace: seq<Request>, sid: Sid)
    ensures NeverRefused(ResponsesTo(trace, Serve(server, map[], trace).1, sid)) <==> RoomAtResets(server, trace, sid)
  {
    hide Handle, RoomAt;
    if trace != [] {
      var k := |trace| - 1;
      RoomExactly(server, trace[..k], sid);
      var (s, responses) := Serve(server, map[], trace[..k]);
      var response := Handle(server, s, trace[k]).1;
      assert (responses + [response])[..k] == responses;
      RefusedExactly(server, s, trace[k]);
      assert RoomAt(server, trace[..k], sid) <==>
               sid in s || |s| < MAX_SESSIONS by { RoomAtIs(server, trace[..k], sid); }
      assert forall i :: 0 <= i < k ==> trace[..k][..i] == trace[..i];
      var own := ResponsesTo(trace[..k], responses, sid);
      assert NeverRefused(own + if About(trace[k], sid) then [response] else [])
             <==> NeverRefused(own) && (About(trace[k], sid) ==> response != Raised(CapacityExceeded)) by {
        NeverRefusedNext(own, response);
        assert own + [] == own;
      }
    }
  }

  lemma RoomAtIs(server: Server, before: seq<Request>, sid: Sid)
    ensures var live := Serve(server, map[], before).0;
            RoomAt(server, before, sid) <==> sid in live || |live| < MAX_SESSIONS
  {
  }

  lemma NeverRefusedNext(responses: seq<Response>, r: Response)
    ensures NeverRefused(responses + [r]) <==> NeverRefused(responses) && r != Raised(CapacityExceeded)
  {
    assert r in responses + [r];
    assert forall x :: x in responses ==> x in responses + [r];
  }

  /** The identifiers that were ever reset. */
  function ResetIds(trace: seq<Request>): set<Sid> {
    if trace == [] then {}
    else
      var last := trace[|trace| - 1];
      ResetIds(trace[..|trace| - 1]) + if last.Reset? then {last.sid} else {}
  }

  lemma {:induction false} LiveWereReset(server: Server, trace: seq<Request>)
    requires LocalServer(server)
    ensures Serve(server, map[], trace).0.Keys <= ResetIds(trace)
  {
    hide Handle, LocalServer;
    if trace != [] {
      var k := |trace| - 1;
      LiveWereReset(server, trace[..k]);
      LiveKeys(server, Serve(server, map[], trace[..k]).0, trace[k]);
    }
  }

  lemma {:induction false} ResetIdsGrow(trace: seq<Request>, i: nat)
    requires i <= |trace|
    ensures ResetIds(trace[..i]) <= ResetIds(trace)
    ensures forall j :: i <= j < |trace| && trace[j].Reset? ==> trace[j].sid in ResetIds(trace)
  {
    if i == |trace| {
      assert trace[..i] == trace;
    } else {
      var k := |trace| - 1;
      ResetIdsGrow(trace[..k], i);
      assert trace[..k][..i] == trace[..i];
    }
  }

  /** If a trace resets at most MAX_SESSIONS different sessions, every one of them is isolated. */
  lemma FewSessionsAreIsolated(server: Server, trace: seq<Request>, sid: Sid)
    requires LocalServer(server) && |ResetIds(trace)| <= MAX_SESSIONS
    ensures ResponsesTo(trace, Serve(server, map[], trace).1, sid) == Serve(server, map[], Projected(trace, sid)).1
    ensures SameSlot(sid, Serve(server, map[], trace).0, Serve(server, map[], Projected(trace, sid)).0)
  {
    hide LocalServer, Serve, Projected, ResponsesTo, NeverRefused, SameSlot, ResetIds;
    forall i: nat | i < |trace| && trace[i].Reset? && trace[i].sid == sid ensures RoomAt(server, trace[..i], sid) {
      var live := Serve(server, map[], trace[..i]).0;
      LiveWereReset(server, trace[..i]);
      ResetIdsGrow(trace, i);
      assert |live| == |live.Keys|;
      if sid !in live {
        SubsetSize(live.Keys + {sid}, ResetIds(trace));
        assert |live.Keys + {sid}| == |live.Keys| + 1;
      }
    }
    IsolationExactly(server, trace, sid);
  }

  /** A refusal shows: the reset a full server refuses is served when the session is alone. */
  lemma RefusalIsVisible(server: Server, trace: seq<Request>, sid: Sid, i: nat)
    requires LocalServer(server) && i < |trace| && trace[i].Reset? && trace[i].sid == sid
    requires !RoomAt(server, trace[..i], sid)
    ensures Serve(server, map[], trace).1[i] == Raised(CapacityExceeded)
    ensures ResponsesTo(trace, Serve(server, map[], trace).1, sid) != Serve(server, map[], Projected(trace, sid)).1
  {
    hide Handle, LocalServer, ResponsesTo, Projected, NeverRefused;
    IsolationExactly(server, trace, sid);
    ServedAt(server, trace, i);
    RefusedExactly(server, Serve(server, map[], trace[..i]).0, trace[i]);
  }

  lemma {:induction false} ServedAt(server: Server, trace: seq<Request>, i: nat)
    requires i < |trace|
    ensures Serve(server, map[], trace).1[i] == Handle(server, Serve(server, map[], trace[..i]).0, trace[i]).1
  {
    hide Handle;
    var k := |trace| - 1;
    if i < k {
      ServedAt(server, trace[..k], i);
      assert trace[..k][..i] == trace[..i];
    }
  }

  // ---------------------------------------------------------------- liveness of sessions

  lemma CallKeepsSessions(server: Server, sessions: Sessions, sid: Sid, name: Tool, args: Args)
    requires LocalServer(server)
    ensures var (after, response) := CallTool(server, sessions, sid, name, args);
            after.Keys <= sessions.Keys && (response != Raised(Escaped) ==> after.Keys == sessions.Keys)
  {
    hide Judge, LocalServer, Marked;
    var (after, response) := CallTool(server, sessions, sid, name, args);
    if name in server.handlers && sid in sessions {
      var (s1, r) := server.handlers[name](sid, args, sessions);
      if Judge(server, name, sessions[sid], sid, s1, r).Commit? {
        JudgeCommits(server, name, sessions[sid], sid, s1, r);
      }
      assert response != Raised(Escaped) ==> sid in after;
    }
    forall other | other != sid ensures other in after <==> other in sessions {
      CallElsewhere(server, sessions, sid, name, args, other);
    }
  }

  /** A reset that is accepted adds its session and a close removes it; an exception that escapes may cost some; and
      nothing else changes which are alive. */
  ghost predicate LiveAfter(sessions: Sessions, request: Request, after: Sessions, response: Response) {
    if request.Reset? && response == Acknowledged then after.Keys == sessions.Keys + {request.sid}
    else if request.Close? then after.Keys == sessions.Keys - {request.sid}
    else if request.Call? && response == Raised(Escaped) then after.Keys <= sessions.Keys
    else after.Keys == sessions.Keys
  }

  /** The sessions alive after a request: one more after an accepted reset, one less after a close,
      the same ones after anything else, tool calls included, but for one whose exception escapes. */
  lemma LiveSessions(server: Server, sessions: Sessions, request: Request)
    requires LocalServer(server)
    ensures var (after, response) := Handle(server, sessions, request);
            LiveAfter(sessions, request, after, response)
    ensures |sessions| <= MAX_SESSIONS ==> |Handle(server, sessions, request).0| <= MAX_SESSIONS
  {
    hide CallTool, LocalServer, Handle;
    LiveKeys(server, sessions, request);
    var after := Handle(server, sessions, request).0;
    assert |after| == |after.Keys| && |sessions| == |sessions.Keys|;
    if after.Keys <= sessions.Keys {
      SubsetSize(after.Keys, sessions.Keys);
    } else {
      RefusedWhenFull(server, sessions, request);
    }
  }

  lemma RefusedWhenFull(server: Server, sessions: Sessions, request: Request)
    requires request.Reset? && request.sid !in sessions && Handle(server, sessions, request).1 == Acknowledged
    ensures |sessions| < MAX_SESSIONS
  {
  }

  lemma LiveKeys(server: Server, sessions: Sessions, request: Request)
    requires LocalServer(server)
    ensures var (after, response) := Handle(server, sessions, request);
            LiveAfter(sessions, request, after, response)
  {
    hide CallTool, LocalServer;
    if request.Call? { CallKeepsSessions(server, sessions, request.sid, request.name, request.args); }
  }

  lemma {:induction false} SubsetSize(a: set<Sid>, b: set<Sid>)
    requires a <= b
    ensures |a| <= |b|
    decreases |a|
  {
    if x :| x in a { SubsetSize(a - {x}, b - {x}); }
  }

  /** Over every run from an empty server, at most MAX_SESSIONS sessions are live. */
  lemma {:induction false} CapacityIsKept(server: Server, trace: seq<Request>)
    requires LocalServer(server)
    ensures |Serve(server, map[], trace).0| <= MAX_SESSIONS
  {
    hide Handle, LocalServer;
    if trace != [] {
      var k := |trace| - 1;
      CapacityIsKept(server, trace[..k]);
      LiveSessions(server, Serve(server, map[], trace[..k]).0, trace[k]);
    }
  }

  /** On a session that is not live nothing but a reset has an effect: reading it raises, calling a known tool on it
      says that it is missing, calling an unknown tool says that, and closing it is acknowledged. */
  lemma NotLive(server: Server, sessions: Sessions, request: Request, sid: Sid)
    requires sid !in sessions && About(request, sid) && !request.Reset?
    ensures var (after, response) := Handle(server, sessions, request);
            && after == sessions
            && (request.GetState? ==> response == Raised(UnknownSession))
            && (request.Close? ==> response == Acknowledged)
            && (request.Call? && request.name in server.handlers ==>
                  response == CallResponse(Refused(PreconditionFailed)))
            && (request.Call? && request.name !in server.handlers ==> response == CallResponse(Refused(UnknownTool)))
  {
    hide Judge;
    if request.Close? { assert sessions - {sid} == sessions; }
  }

  /** A session that is not live reappears only through session/reset. */
  lemma {:induction false} OnlyResetRevives(server: Server, sessions: Sessions, trace: seq<Request>, sid: Sid)
    requires LocalServer(server) && sid !in sessions
    requires forall i :: 0 <= i < |trace| ==> !(trace[i].Reset? && trace[i].sid == sid)
    ensures sid !in Serve(server, sessions, trace).0
  {
    hide Handle, LocalServer;
    if trace != [] {
      var k := |trace| - 1;
      OnlyResetRevives(server, sessions, trace[..k], sid);
      LiveSessions(server, Serve(server, sessions, trace[..k]).0, trace[k]);
    }
  }

  /** A freshly seeded session reads back as seeded, whatever is done to other sessions in between. */
  lemma {:induction false} SeededStateSurvives(server: Server, sessions: Sessions, sid: Sid, seed: int, profile: nat,
                                               trace: seq<Request>)
    requires LocalServer(server) && Handle(server, sessions, Reset(sid, seed, profile)).1 == Acknowledged
    requires forall i :: 0 <= i < |trace| ==> !About(trace[i], sid)
    ensures var after := Serve(server, Handle(server, sessions, Reset(sid, seed, profile)).0, trace).0;
            Handle(server, after, GetState(sid)).1 == StateOf(Dict(server.seeder(sid, seed, profile)))
  {
    hide LocalServer, About, CallTool;
    if trace != [] {
      var k := |trace| - 1;
      SeededStateSurvives(server, sessions, sid, seed, profile, trace[..k]);
      OthersDoNotTouch(server, Serve(server, Handle(server, sessions, Reset(sid, seed, profile)).0, trace[..k]).0,
                       trace[k], sid);
    }
  }
}
