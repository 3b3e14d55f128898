/** The audit protocol on top of the framed log, as one machine: audit calls in any threads, each system call of their
    appends, and what every state of every run keeps. */
module AuditedLog {
  import opened Basics
  import opened Records
  import opened LineCodec
  import opened Events
  import F = FramedLog
  import P = AuditProtocol

  datatype Ending = Ending(outcome: Outcome, fields: Fields)

  /** What the callers asked of one operation: its intent, and the one outcome that was tried. */
  datatype Asked = Asked(event: Text, actor: Text, fields: Fields, ending: Option<Ending>)

  /** One audit log whose sink is one durable stream. `pending` has the audit calls whose append is under way, by the
      thread they run in; `asked` remembers what was asked and decides nothing. */
  datatype State = State(audit: P.State, log: F.State, pending: map<F.Tid, P.Action>, asked: map<Text, Asked>)

  /** A system call that decides nothing; an audit call that has built its record and hands it to the sink; the system
      call that decides a thread's append, and so its audit call; or an audit call that never reaches the file,
      because the facade, the clock or the encoder refused it. */
  datatype Action =
    | Quiet(step: F.Action)
    | Append(tid: F.Tid, sink: F.SinkId, line: bytes, call: P.Action)
    | Decide(step: F.Action, answer: P.SinkAnswer)
    | Local(call: P.Action)

  /** The append that an audit call makes. */
  ghost function Made(c: P.Config, s: P.State, call: P.Action): Option<P.Attempt>
    requires P.ConfigOk(c) && P.OpsOk(s) && P.Enabled(c, s, call)
  {
    match call
    case Intent(event, actor, fields, id, clock, sink) =>
      P.IntentStep(c, c.registry[event], actor, fields, P.Fresh(id), clock, sink).attempt
    case Finalise(id, outcome, fields, clock, sink) =>
      P.FinaliseStep(c, s.ops[id], id, outcome, fields, clock, sink).attempt
    case Exit(id, exc, clock, sink) =>
      P.ExitStep(c, s.ops[id], id, exc, clock, sink).attempt
  }

  /** The same call, once the sink has answered. */
  function Answered(call: P.Action, answer: P.SinkAnswer): P.Action {
    call.(sink := answer)
  }

  /** `append` returned exactly if the attempt was COMPLETE, and wrote exactly if the whole line is in the file. */
  predicate Answers(a: F.Attempt, p: P.Attempt) {
    && p.record == a.record
    && (p.answer.Returns? <==> a.result == F.Complete)
    && (P.Wrote(p) <==> F.IsFramed(a))
  }

  /** A call on this operation is in its append: one thread at a time uses a handle. */
  ghost predicate Busy(s: State, id: Text) {
    exists t :: t in s.pending && s.pending[t].id == id
  }

  /** The call can be made, and makes an append. */
  ghost predicate Appends(c: P.Config, s: P.State, call: P.Action) {
    P.ConfigOk(c) && P.OpsOk(s) && P.Enabled(c, s, call) && Made(c, s, call).Some?
  }

  ghost predicate Enabled(c: P.Config, s: State, a: Action)
    requires P.ConfigOk(c) && P.OpsOk(s.audit)
  {
    match a
    case Quiet(step) => !step.Submit? && F.Enabled(s.log, step) && F.Next(s.log, step).history == s.log.history
    case Append(t, sink, line, call) =>
      && Appends(c, s.audit, call) && !Busy(s, call.id)
      && F.Enabled(s.log, F.Submit(t, sink, Made(c, s.audit, call).value.record, line))
    case Decide(step, answer) =>
      && F.Enabled(s.log, step) && !step.Close? && step.tid in s.pending
      && P.Enabled(c, s.audit, Answered(s.pending[step.tid], answer))
      && exists a :: F.Next(s.log, step).history == s.log.history + [a] && Answers(a, P.Attempt(a.record, answer))
    case Local(call) =>
      && P.Enabled(c, s.audit, call) && !Busy(s, call.id)
      && (Made(c, s.audit, call).Some? ==> !P.Wrote(Made(c, s.audit, call).value))
  }

  /** What is remembered of a call: an intent as it is, and the outcome that an open operation is ended with. */
  ghost function Remember(s: P.State, asked: map<Text, Asked>, call: P.Action): map<Text, Asked> {
    match call
    case Intent(event, actor, fields, id, _, _) => asked[id := Asked(event, actor, fields, None)]
    case Finalise(id, outcome, fields, _, _) => Ended(s, asked, id, Some(Ending(outcome, fields)))
    case Exit(id, exc, _, _) => Ended(s, asked, id, if exc.Some? then Some(Ending(INDETERMINATE, [])) else None)
  }

  ghost function Ended(s: P.State, asked: map<Text, Asked>, id: Text, ending: Option<Ending>): map<Text, Asked> {
    if id in asked && id in s.ops && s.ops[id].state == P.Open && ending.Some?
    then asked[id := asked[id].(ending := ending)] else asked
  }

  ghost function Next(c: P.Config, s: State, a: Action): State
    requires P.ConfigOk(c) && P.OpsOk(s.audit) && Enabled(c, s, a)
  {
    match a
    case Quiet(step) => s.(log := F.Next(s.log, step))
    case Append(t, sink, line, call) =>
      s.(log := F.Next(s.log, F.Submit(t, sink, Made(c, s.audit, call).value.record, line)),
         pending := s.pending[t := call], asked := Remember(s.audit, s.asked, call))
    case Decide(step, answer) =>
      s.(audit := P.Next(c, s.audit, Answered(s.pending[step.tid], answer)), log := F.Next(s.log, step),
         pending := s.pending - {step.tid})
    case Local(call) => s.(audit := P.Next(c, s.audit, call), asked := Remember(s.audit, s.asked, call))
  }

  ghost function Exec(c: P.Config, s: State, run: seq<Action>): (r: Option<State>)
    requires P.ConfigOk(c) && P.OpsOk(s.audit)
    ensures r.Some? ==> P.OpsOk(r.value.audit)
  {
    if run == [] then Some(s)
    else
      match Exec(c, s, run[..|run| - 1])
      case None => None
      case Some(mid) =>
        if Enabled(c, mid, run[|run| - 1]) then
          NextOk(c, mid, run[|run| - 1]);
          Some(Next(c, mid, run[|run| - 1]))
        else None
  }

  lemma {:induction false} NextOk(c: P.Config, s: State, a: Action)
    requires P.ConfigOk(c) && P.OpsOk(s.audit) && Enabled(c, s, a)
    ensures P.OpsOk(Next(c, s, a).audit)
  {
    hide P.ConfigOk, P.OpsOk, F.Next, F.Enabled, P.Next, Made, Remember;
    match a
    case Decide(step, answer) => P.NextOpsOk(c, s.audit, Answered(s.pending[step.tid], answer));
    case Local(call) => P.NextOpsOk(c, s.audit, call);
    case _ =>
  }

  // ---- the invariant: protocol and log agree --------------------------------

  ghost predicate Agree(f: seq<F.Attempt>, w: seq<P.Attempt>) {
    |f| == |w| && forall i :: 0 <= i < |f| ==> Answers(f[i], w[i])
  }

  /** The protocol's traces, the log's framing, and the appends that reached the file in both. */
  ghost predicate Tracks(s: State, init: bytes) {
    && P.OpsOk(s.audit)
    && (forall id :: P.TraceOk(s.audit, id))
    && F.Inv(s.log, init) && s.log.fsync
    && Agree(F.Framed(s.log.history), P.Written(s.audit.trace))
  }

  /** The record a thread is bringing into the file. */
  function Carried(s: F.State, t: F.Tid): Option<Record> {
    match F.PhaseOf(s, t)
    case Waiting(_, record, _) => Some(record)
    case Writing(_, record, _, _) => Some(record)
    case Syncing(_, record, _) => Some(record)
    case _ => None
  }

  /** A thread carries a record exactly while its audit call is pending, and it is the record that call builds. */
  ghost predicate ThreadOk(c: P.Config, s: State, t: F.Tid) {
    && (Carried(s.log, t).Some? <==> t in s.pending)
    && (t in s.pending ==> && Appends(c, s.audit, s.pending[t])
                           && Carried(s.log, t) == Some(Made(c, s.audit, s.pending[t]).value.record))
  }

  /** Different threads carry calls on different operations. */
  ghost predicate Apart(pending: map<F.Tid, P.Action>) {
    forall t, u :: t in pending && u in pending && t != u ==> pending[t].id != pending[u].id
  }

  ghost predicate Threads(c: P.Config, s: State) {
    (forall t: F.Tid :: ThreadOk(c, s, t)) && Apart(s.pending)
  }

  // ---- the invariant: records say what was asked ----------------------------

  /** `r` says what was asked of its operation, and nothing else. */
  ghost predicate Says(c: P.Config, asked: map<Text, Asked>, r: Record) {
    && r.kind.Audit? && r.kind.operationId.Some? && r.kind.operationId.value in asked
    && SaysAsked(c, asked[r.kind.operationId.value], r)
  }

  ghost predicate SaysAsked(c: P.Config, a: Asked, r: Record)
    requires r.kind.Audit?
  {
    && a.event in c.registry && r.application == c.application && r.emitter == c.emitter && r.event == a.event
    && c.registry[a.event].category == Some(r.kind.category) && r.kind.actor == a.actor
    && r.message == Render(c.registry[a.event], r.fields, c.show)
    && match r.kind.stage
       case INTENT => && r.kind.outcome == None && r.fields == Select(c.registry[a.event].fields, a.fields)
                      && Passes(c.registry[a.event].fields, a.fields, false)
       case OUTCOME => && a.ending.Some? && r.kind.outcome == Some(a.ending.value.outcome)
                       && r.fields == Select(c.registry[a.event].fields, a.ending.value.fields)
                       && Passes(c.registry[a.event].fields, a.ending.value.fields, true)
       case COMPLETE => false
  }

  /** A handle is of the event and actor its intent asked for, and while it is open no outcome was asked for. */
  ghost predicate HandleAsked(c: P.Config, s: State, id: Text) {
    id in s.audit.ops ==>
      && id in s.asked && s.asked[id].event in c.registry
      && s.audit.ops[id].schema == c.registry[s.asked[id].event] && s.audit.ops[id].actor == s.asked[id].actor
      && (s.audit.ops[id].state == P.Open && !Busy(s, id) ==> s.asked[id].ending.None?)
  }

  ghost predicate CallAsked(s: State, call: P.Action) {
    call.Intent? ==> call.id in s.asked && s.asked[call.id] == Asked(call.event, call.actor, call.fields, None)
  }

  /** Every record that was handed to the sink, decided or not. */
  ghost predicate RecordsSay(c: P.Config, asked: map<Text, Asked>, trace: seq<P.Attempt>, log: F.State) {
    && (forall i :: 0 <= i < |trace| ==> Says(c, asked, trace[i].record))
    && forall t :: Carried(log, t).Some? ==> Says(c, asked, Carried(log, t).value)
  }

  ghost predicate CallsAsked(s: State) {
    forall t :: t in s.pending ==> CallAsked(s, s.pending[t])
  }

  ghost predicate HandlesAsked(c: P.Config, s: State) {
    forall id :: HandleAsked(c, s, id)
  }

  ghost predicate AskedKnown(s: State) {
    forall id :: id in s.asked ==> id in s.audit.used || Busy(s, id)
  }

  ghost predicate Faithful(c: P.Config, s: State) {
    RecordsSay(c, s.asked, s.audit.trace, s.log) && CallsAsked(s) && HandlesAsked(c, s) && AskedKnown(s)
  }

  ghost predicate Inv(c: P.Config, s: State, init: bytes) {
    P.ConfigOk(c) && Tracks(s, init) && Threads(c, s) && Faithful(c, s)
  }

  // ---- what a call leaves alone -------------------------------------------

  lemma {:induction false} MadeIsAppended(c: P.Config, s: P.State, call: P.Action)
    requires P.ConfigOk(c) && P.OpsOk(s) && P.Enabled(c, s, call)
    ensures P.Next(c, s, call).trace == P.Appended(s.trace, Made(c, s, call))
  {
    hide P.ConfigOk, P.IntentStep, P.FinaliseStep, P.ExitStep;
  }

  /** Calls on other operations neither disturb a call nor the record it builds. */
  lemma {:induction false} OtherCall(c: P.Config, s: P.State, call: P.Action, other: P.Action)
    requires P.ConfigOk(c) && P.OpsOk(s) && P.Enabled(c, s, call) && Appends(c, s, other) && call.id != other.id
    ensures Appends(c, P.Next(c, s, call), other)
    ensures Made(c, P.Next(c, s, call), other) == Made(c, s, other)
  {
    hide P.ConfigOk, P.IntentStep, P.FinaliseStep, P.ExitStep, P.OpsOk;
    P.NextOpsOk(c, s, call);
  }

  /** What the sink answers does not change what it was handed. */
  lemma {:induction false} AnsweredMade(c: P.Config, s: P.State, call: P.Action, answer: P.SinkAnswer)
    requires Appends(c, s, call)
    ensures P.Enabled(c, s, Answered(call, answer))
    ensures Made(c, s, Answered(call, answer)) == Some(P.Attempt(Made(c, s, call).value.record, answer))
  {
    hide P.ConfigOk, P.BuildRecord;
  }

  lemma {:induction false} OpsAfter(c: P.Config, s: P.State, call: P.Action, id: Text)
    requires P.ConfigOk(c) && P.OpsOk(s) && P.Enabled(c, s, call)
    ensures id != call.id ==> (id in P.Next(c, s, call).ops <==> id in s.ops)
    ensures id != call.id && id in s.ops ==> P.Next(c, s, call).ops[id] == s.ops[id]
    ensures s.used <= P.Next(c, s, call).used && (call.Intent? ==> call.id in P.Next(c, s, call).used)
    ensures P.Next(c, s, call).used <= s.used + {call.id}
  {
    hide P.ConfigOk, P.IntentStep, P.FinaliseStep, P.ExitStep;
  }

  /** The handle after a call on it: of the same event and actor, and no longer open once an outcome was tried. */
  lemma {:induction false} HandleAfter(c: P.Config, s: P.State, call: P.Action)
    requires P.ConfigOk(c) && P.OpsOk(s) && P.Enabled(c, s, call) && (call.Intent? ==> call.id !in s.ops)
    ensures var s' := P.Next(c, s, call);
            call.id in s'.ops ==>
              if call.Intent? then
                s'.ops[call.id].schema == c.registry[call.event] && s'.ops[call.id].actor == call.actor
              else
                && s'.ops[call.id].schema == s.ops[call.id].schema && s'.ops[call.id].actor == s.ops[call.id].actor
                && (s'.ops[call.id].state == P.Open ==> s.ops[call.id].state == P.Open && call.Exit? && call.exc.None?)
                && (s.ops[call.id].state == P.Finalised ==> s'.ops[call.id].state == P.Finalised)
    ensures s.ops.Keys <= P.Next(c, s, call).ops.Keys
  {
    hide P.ConfigOk, P.BuildRecord, SchemaOk;
  }

  // ---- keeping track --------------------------------------------------------

  lemma {:induction false} WrittenAppended(t: seq<P.Attempt>, a: Option<P.Attempt>)
    ensures P.Written(P.Appended(t, a)) == P.Written(t) + if a.Some? && P.Wrote(a.value) then [a.value] else []
  {
    if a.Some? {
      assert (t + [a.value])[..|t|] == t;
    }
  }

  lemma {:induction false} CallTraces(c: P.Config, s: P.State, call: P.Action)
    requires P.ConfigOk(c) && P.OpsOk(s) && P.Enabled(c, s, call)
    requires forall id :: P.TraceOk(s, id)
    ensures P.OpsOk(P.Next(c, s, call)) && forall id :: P.TraceOk(P.Next(c, s, call), id)
    ensures P.Written(P.Next(c, s, call).trace) ==
            P.Written(s.trace) + (if Made(c, s, call).Some? && P.Wrote(Made(c, s, call).value)
                                  then [Made(c, s, call).value] else [])
  {
    hide P.TraceOk, P.OpsOk, P.Next, P.ConfigOk, P.Enabled, Made, P.Written;
    P.NextOpsOk(c, s, call);
    forall id ensures P.TraceOk(P.Next(c, s, call), id) {
      P.StepTrace(c, s, call, id);
    }
    MadeIsAppended(c, s, call);
    WrittenAppended(s.trace, Made(c, s, call));
  }

  lemma {:induction false} LogTracks(s: F.State, step: F.Action, init: bytes)
    requires F.Inv(s, init) && s.fsync && F.Enabled(s, step)
    ensures F.Inv(F.Next(s, step), init) && F.Next(s, step).fsync
  {
    F.StepInv(s, step, init);
    hide F.Inv;
  }

  lemma {:induction false} DecideAgrees(h: seq<F.Attempt>, w: seq<P.Attempt>, a: F.Attempt, p: P.Attempt)
    requires Agree(F.Framed(h), w) && Answers(a, p)
    ensures Agree(F.Framed(h + [a]), w + if P.Wrote(p) then [p] else [])
  {
    hide F.Framed;
    F.Snoc(h, a);
  }

  lemma {:induction false} SubmitQuiet(s: F.State, t: F.Tid, sink: F.SinkId, record: Record, line: bytes)
    requires F.Enabled(s, F.Submit(t, sink, record, line))
    ensures var s' := F.Next(s, F.Submit(t, sink, record, line));
            && s'.history == s.history && Carried(s, t) == None && Carried(s', t) == Some(record)
            && forall u :: u != t ==> Carried(s', u) == Carried(s, u)
  {
    hide F.Encodes;
  }

  /** A call that decides nothing leaves every thread with the record it had. */
  lemma {:induction false} QuietCarries(s: F.State, step: F.Action, t: F.Tid)
    requires F.Enabled(s, step) && !step.Submit? && F.Next(s, step).history == s.history
    ensures Carried(F.Next(s, step), t) == Carried(s, t)
  {
    hide F.Encodes;
  }

  /** The call that decides an attempt takes the record from its thread. */
  lemma {:induction false} DecideCarries(s: F.State, step: F.Action, a: F.Attempt)
    requires F.Enabled(s, step) && !step.Close? && F.Next(s, step).history == s.history + [a]
    ensures Carried(s, step.tid) == Some(a.record) && Carried(F.Next(s, step), step.tid) == None
    ensures forall u :: u != step.tid ==> Carried(F.Next(s, step), u) == Carried(s, u)
  {
    hide F.Encodes;
    assert F.Next(s, step).history != s.history;
    assert (s.history + [a])[|s.history|] == a;
  }

  lemma {:induction false} DecideTracks(c: P.Config, s: State, step: F.Action, answer: P.SinkAnswer, init: bytes)
    requires Inv(c, s, init) && Enabled(c, s, Decide(step, answer))
    ensures Tracks(Next(c, s, Decide(step, answer)), init)
  {
    hide P.TraceOk, P.OpsOk, P.Next, P.ConfigOk, P.Enabled, F.Next, F.Enabled, F.Inv, Made, P.Written, F.Framed,
         Answers,
         Faithful, Carried;
    var t := step.tid;
    var call := s.pending[t];
    var a :| F.Next(s.log, step).history == s.log.history + [a] && Answers(a, P.Attempt(a.record, answer));
    LogTracks(s.log, step, init);
    DecideCarries(s.log, step, a);
    assert ThreadOk(c, s, t);
    AnsweredMade(c, s.audit, call, answer);
    CallTraces(c, s.audit, Answered(call, answer));
    DecideAgrees(s.log.history, P.Written(s.audit.trace), a, P.Attempt(a.record, answer));
  }

  lemma {:induction false} StepTracks(c: P.Config, s: State, a: Action, init: bytes)
    requires Inv(c, s, init) && Enabled(c, s, a)
    ensures Tracks(Next(c, s, a), init)
  {
    hide P.TraceOk, P.OpsOk, P.Next, P.ConfigOk, P.Enabled, F.Next, F.Enabled, F.Inv, Made, P.Written, F.Framed,
         Answers,
         Faithful, Threads, Remember, Busy;
    match a
    case Quiet(step) => LogTracks(s.log, step, init);
    case Append(t, sink, line, call) =>
      SubmitQuiet(s.log, t, sink, Made(c, s.audit, call).value.record, line);
      LogTracks(s.log, F.Submit(t, sink, Made(c, s.audit, call).value.record, line), init);
    case Decide(step, answer) => DecideTracks(c, s, step, answer, init);
    case Local(call) => CallTraces(c, s.audit, call);
  }

  // ---- keeping threads and calls together -----------------------------------

  lemma {:induction false} QuietThreads(c: P.Config, s: State, step: F.Action)
    requires P.OpsOk(s.audit) && P.ConfigOk(c) && Threads(c, s) && Enabled(c, s, Quiet(step))
    ensures Threads(c, Next(c, s, Quiet(step)))
  {
    var s' := Next(c, s, Quiet(step));
    hide P.ConfigOk, P.OpsOk, P.Enabled, Made, F.Next, F.Enabled, Carried, Appends;
    forall t: F.Tid ensures ThreadOk(c, s', t) {
      assert ThreadOk(c, s, t);
      QuietCarries(s.log, step, t);
    }
  }

  lemma {:induction false} AppendApart(s: State, t: F.Tid, call: P.Action)
    requires Apart(s.pending) && !Busy(s, call.id)
    ensures Apart(s.pending[t := call])
  {
  }

  lemma {:induction false} AppendThread(c: P.Config, s: State, t: F.Tid, sink: F.SinkId, line: bytes, call: P.Action,
                                        u: F.Tid)
    requires P.OpsOk(s.audit) && P.ConfigOk(c) && Enabled(c, s, Append(t, sink, line, call)) && ThreadOk(c, s, u)
    ensures ThreadOk(c, Next(c, s, Append(t, sink, line, call)), u)
  {
    SubmitQuiet(s.log, t, sink, Made(c, s.audit, call).value.record, line);
    hide P.ConfigOk, P.OpsOk, P.Enabled, Made, F.Next, F.Enabled, Carried, Remember, Busy;
  }

  lemma {:induction false} AppendThreads(c: P.Config, s: State, t: F.Tid, sink: F.SinkId, line: bytes, call: P.Action)
    requires P.OpsOk(s.audit) && P.ConfigOk(c) && Threads(c, s) && Enabled(c, s, Append(t, sink, line, call))
    ensures Threads(c, Next(c, s, Append(t, sink, line, call)))
  {
    hide P.ConfigOk, P.OpsOk, ThreadOk, Made, F.Next, F.Enabled, Remember, Busy, Apart, Appends;
    AppendApart(s, t, call);
    forall u: F.Tid ensures ThreadOk(c, Next(c, s, Append(t, sink, line, call)), u) {
      assert ThreadOk(c, s, u);
      AppendThread(c, s, t, sink, line, call, u);
    }
  }

  /** A call that is made leaves the calls pending in other threads as they were. */
  lemma {:induction false} OthersPending(c: P.Config, s: State, call: P.Action, t: F.Tid)
    requires P.OpsOk(s.audit) && P.ConfigOk(c) && P.Enabled(c, s.audit, call)
    requires ThreadOk(c, s, t) && (t in s.pending ==> s.pending[t].id != call.id)
    ensures ThreadOk(c, s.(audit := P.Next(c, s.audit, call)), t)
  {
    hide P.ConfigOk, P.OpsOk, P.Enabled, Made, Carried, P.Next;
    P.NextOpsOk(c, s.audit, call);
    if t in s.pending {
      OtherCall(c, s.audit, call, s.pending[t]);
    }
  }

  lemma {:induction false} LocalThreads(c: P.Config, s: State, call: P.Action)
    requires P.OpsOk(s.audit) && P.ConfigOk(c) && Threads(c, s) && Enabled(c, s, Local(call))
    ensures Threads(c, Next(c, s, Local(call)))
  {
    var s' := Next(c, s, Local(call));
    hide P.ConfigOk, P.OpsOk, P.Enabled, Made, Carried, Appends, Remember, P.Next;
    forall t: F.Tid ensures ThreadOk(c, s', t) {
      assert ThreadOk(c, s, t);
      OthersPending(c, s, call, t);
    }
  }

  lemma {:induction false} DecideThread(c: P.Config, s: State, step: F.Action, answer: P.SinkAnswer, t: F.Tid)
    requires P.OpsOk(s.audit) && P.ConfigOk(c) && Enabled(c, s, Decide(step, answer))
    requires ThreadOk(c, s, t) && (t in s.pending && t != step.tid ==> s.pending[t].id != s.pending[step.tid].id)
    ensures ThreadOk(c, Next(c, s, Decide(step, answer)), t)
  {
    hide P.ConfigOk, P.OpsOk, P.Enabled, Made, Carried, Appends, P.Next, F.Next, F.Enabled, Answers;
    var a :| F.Next(s.log, step).history == s.log.history + [a] && Answers(a, P.Attempt(a.record, answer));
    DecideCarries(s.log, step, a);
    if t != step.tid {
      OthersPending(c, s, Answered(s.pending[step.tid], answer), t);
    }
  }

  lemma {:induction false} DecideThreads(c: P.Config, s: State, step: F.Action, answer: P.SinkAnswer)
    requires P.OpsOk(s.audit) && P.ConfigOk(c) && Threads(c, s) && Enabled(c, s, Decide(step, answer))
    ensures Threads(c, Next(c, s, Decide(step, answer)))
  {
    var s' := Next(c, s, Decide(step, answer));
    assert Apart(s'.pending);
    hide P.ConfigOk, P.OpsOk, ThreadOk, P.Next, F.Next, Enabled, Next;
    forall t: F.Tid ensures ThreadOk(c, s', t) {
      assert ThreadOk(c, s, t);
      DecideThread(c, s, step, answer, t);
    }
  }

  lemma {:induction false} StepThreads(c: P.Config, s: State, a: Action, init: bytes)
    requires Inv(c, s, init) && Enabled(c, s, a)
    ensures Threads(c, Next(c, s, a))
  {
    hide P.ConfigOk, P.OpsOk, Threads, Next, Enabled, Faithful;
    match a
    case Quiet(step) => QuietThreads(c, s, step);
    case Append(t, sink, line, call) => AppendThreads(c, s, t, sink, line, call);
    case Decide(step, answer) => DecideThreads(c, s, step, answer);
    case Local(call) => LocalThreads(c, s, call);
  }

  // ---- keeping records faithful ----------------------------------------------

  /** What was asked is never forgotten or changed; an ending is only added. */
  ghost predicate Recalls(asked: map<Text, Asked>, asked': map<Text, Asked>) {
    forall id :: id in asked ==>
      && id in asked' && asked'[id].(ending := asked[id].ending) == asked[id]
      && (asked[id].ending.Some? ==> asked'[id].ending == asked[id].ending)
  }

  lemma {:induction false} SaysStill(c: P.Config, asked: map<Text, Asked>, asked': map<Text, Asked>, r: Record)
    requires Says(c, asked, r) && Recalls(asked, asked')
    ensures Says(c, asked', r)
  {
  }

  lemma {:induction false} RememberRecalls(c: P.Config, s: State, call: P.Action)
    requires Faithful(c, s) && P.Enabled(c, s.audit, call) && !Busy(s, call.id)
    ensures Recalls(s.asked, Remember(s.audit, s.asked, call))
    ensures forall id :: id in Remember(s.audit, s.asked, call) <==> id in s.asked || (call.Intent? && id == call.id)
    ensures forall id :: id != call.id && id in s.asked ==> Remember(s.audit, s.asked, call)[id] == s.asked[id]
  {
    assert HandleAsked(c, s, call.id);
    hide RecordsSay, CallsAsked, HandlesAsked, Busy;
  }

  lemma {:induction false} IntentSays(c: P.Config, s: State, call: P.Action)
    requires call.Intent? && Appends(c, s.audit, call)
    ensures Says(c, Remember(s.audit, s.asked, call), Made(c, s.audit, call).value.record)
  {
    P.BuildsExactly(c, c.registry[call.event], call.actor, INTENT, call.id, None, call.fields, call.clock);
    hide P.BuildRecord, Select, Passes, Render, ActorOk, SchemaOk, P.ConfigOk, OperationIdOk, OutcomeOk, P.OpsOk;
  }

  /** The ending that a call gives an open operation. */
  ghost function EndingOf(call: P.Action): Option<Ending> {
    match call
    case Finalise(_, outcome, fields, _, _) => Some(Ending(outcome, fields))
    case Exit(_, exc, _, _) => if exc.Some? then Some(Ending(INDETERMINATE, [])) else None
    case _ => None
  }

  lemma {:induction false} OutcomeMade(c: P.Config, s: P.State, call: P.Action)
    requires !call.Intent? && Appends(c, s, call)
    ensures EndingOf(call).Some? && s.ops[call.id].state == P.Open
    ensures var op, e := s.ops[call.id], EndingOf(call).value;
            SchemaOk(op.schema)
            && P.BuildRecord(c, op.schema, op.actor, OUTCOME, call.id, Some(e.outcome), e.fields, call.clock) ==
               Ok(Made(c, s, call).value.record)
  {
    hide P.BuildRecord, SchemaOk, P.ConfigOk;
  }

  lemma {:induction false} OutcomeSays(c: P.Config, s: State, call: P.Action)
    requires !call.Intent? && Appends(c, s.audit, call) && HandleAsked(c, s, call.id)
    ensures Says(c, Remember(s.audit, s.asked, call), Made(c, s.audit, call).value.record)
  {
    OutcomeMade(c, s.audit, call);
    var op, e := s.audit.ops[call.id], EndingOf(call).value;
    P.BuildsExactly(c, op.schema, op.actor, OUTCOME, call.id, Some(e.outcome), e.fields, call.clock);
    hide P.BuildRecord, Select, Passes, Render, ActorOk, SchemaOk, P.ConfigOk, OperationIdOk, OutcomeOk, P.OpsOk, Made,
         Busy;
  }

  /** A call that makes an append builds a record that says what is remembered of it. */
  lemma {:induction false} MadeSays(c: P.Config, s: State, call: P.Action)
    requires Appends(c, s.audit, call) && (!call.Intent? ==> HandleAsked(c, s, call.id))
    ensures Says(c, Remember(s.audit, s.asked, call), Made(c, s.audit, call).value.record)
  {
    hide Says, Remember, HandleAsked, Made;
    if call.Intent? { IntentSays(c, s, call); } else { OutcomeSays(c, s, call); }
  }

  lemma {:induction false} StillSay(c: P.Config, asked: map<Text, Asked>, asked': map<Text, Asked>,
                                    trace: seq<P.Attempt>, log: F.State)
    requires RecordsSay(c, asked, trace, log) && Recalls(asked, asked')
    ensures RecordsSay(c, asked', trace, log)
  {
    hide Carried, Says;
    forall r | Says(c, asked, r) ensures Says(c, asked', r) {
      SaysStill(c, asked, asked', r);
    }
  }

  lemma {:induction false} QuietFaithful(c: P.Config, s: State, step: F.Action)
    requires P.OpsOk(s.audit) && P.ConfigOk(c) && Faithful(c, s) && Enabled(c, s, Quiet(step))
    ensures Faithful(c, Next(c, s, Quiet(step)))
  {
    var s' := Next(c, s, Quiet(step));
    hide P.ConfigOk, P.OpsOk, P.Enabled, Made, F.Next, F.Enabled, Carried, Says;
    forall t ensures Carried(s'.log, t) == Carried(s.log, t) {
      QuietCarries(s.log, step, t);
    }
    assert forall id :: Busy(s', id) == Busy(s, id);
    hide Busy;
    forall id ensures HandleAsked(c, s', id) {
      assert HandleAsked(c, s, id);
    }
  }

  lemma {:induction false} BusyAppend(s: State, s': State, t: F.Tid, call: P.Action)
    requires t !in s.pending && s'.pending == s.pending[t := call]
    ensures forall id :: Busy(s', id) <==> Busy(s, id) || id == call.id
  {
    forall id | Busy(s, id) ensures Busy(s', id) {
      var u :| u in s.pending && s.pending[u].id == id;
      assert u in s'.pending && s'.pending[u].id == id;
    }
    assert t in s'.pending && s'.pending[t].id == call.id;
  }

  /** What is remembered of a call touches no other operation, and leaves its own event, actor and fields. */
  lemma {:induction false} RememberHandles(c: P.Config, s: State, call: P.Action, s': State)
    requires HandlesAsked(c, s) && Recalls(s.asked, s'.asked) && s'.audit == s.audit
    requires forall id :: id != call.id && id in s.asked ==> s'.asked[id] == s.asked[id]
    requires Busy(s', call.id) && forall id :: Busy(s, id) ==> Busy(s', id)
    ensures HandlesAsked(c, s')
  {
    hide Busy;
    forall id ensures HandleAsked(c, s', id) {
      assert HandleAsked(c, s, id);
    }
  }

  lemma {:induction false} AppendCalls(s: State, s': State, t: F.Tid, call: P.Action)
    requires CallsAsked(s) && !Busy(s, call.id) && s'.pending == s.pending[t := call]
    requires s'.asked == Remember(s.audit, s.asked, call)
    ensures CallsAsked(s')
  {
    forall u | u in s'.pending ensures CallAsked(s', s'.pending[u]) {
      if u != t {
        assert CallAsked(s, s.pending[u]);
      }
    }
  }

  lemma {:induction false} ThreadSays(c: P.Config, asked: map<Text, Asked>, trace: seq<P.Attempt>, log: F.State,
                                      log': F.State,
                                      t: F.Tid)
    requires RecordsSay(c, asked, trace, log)
    requires Carried(log', t).Some? ==> Says(c, asked, Carried(log', t).value)
    requires forall u :: u != t ==> Carried(log', u) == Carried(log, u)
    ensures RecordsSay(c, asked, trace, log')
  {
    hide Carried, Says;
  }

  lemma {:induction false} AppendSays(c: P.Config, s: State, t: F.Tid, sink: F.SinkId, line: bytes, call: P.Action)
    requires P.OpsOk(s.audit) && P.ConfigOk(c) && Enabled(c, s, Append(t, sink, line, call))
    requires Faithful(c, s)
    ensures var s' := Next(c, s, Append(t, sink, line, call)); RecordsSay(c, s'.asked, s'.audit.trace, s'.log)
  {
    var s' := Next(c, s, Append(t, sink, line, call));
    SubmitQuiet(s.log, t, sink, Made(c, s.audit, call).value.record, line);
    assert HandleAsked(c, s, call.id);
    hide P.ConfigOk, P.OpsOk, P.Enabled, Made, F.Next, F.Enabled, Carried, Says, Busy, Remember, Recalls, HandlesAsked,
         AskedKnown, CallsAsked, RecordsSay, HandleAsked;
    MadeSays(c, s, call);
    RememberRecalls(c, s, call);
    StillSay(c, s.asked, s'.asked, s.audit.trace, s.log);
    ThreadSays(c, s'.asked, s.audit.trace, s.log, s'.log, t);
  }

  lemma {:induction false} AppendFaithful(c: P.Config, s: State, t: F.Tid, sink: F.SinkId, line: bytes, call: P.Action)
    requires P.OpsOk(s.audit) && P.ConfigOk(c) && Faithful(c, s) && t !in s.pending
    requires Enabled(c, s, Append(t, sink, line, call))
    ensures Faithful(c, Next(c, s, Append(t, sink, line, call)))
  {
    var s' := Next(c, s, Append(t, sink, line, call));
    hide P.ConfigOk, P.OpsOk, P.Enabled, Made, F.Next, F.Enabled, Busy, Remember, RecordsSay;
    AppendSays(c, s, t, sink, line, call);
    RememberRecalls(c, s, call);
    BusyAppend(s, s', t, call);
    hide Recalls, HandlesAsked, CallsAsked;
    AppendCalls(s, s', t, call);
    RememberHandles(c, s, call, s');
  }

  lemma {:induction false} BusyDecide(s: State, s': State, t: F.Tid)
    requires t in s.pending && Apart(s.pending) && s'.pending == s.pending - {t}
    ensures forall id :: Busy(s', id) <==> Busy(s, id) && id != s.pending[t].id
  {
    forall id | Busy(s, id) && id != s.pending[t].id ensures Busy(s', id) {
      var u :| u in s.pending && s.pending[u].id == id;
      assert u in s'.pending && s'.pending[u].id == id;
    }
  }

  /** Handles still are what their intents asked for after a call that was remembered before it is made. */
  lemma {:induction false} CallHandles(c: P.Config, s: State, call: P.Action, s': State)
    requires P.ConfigOk(c) && P.OpsOk(s.audit) && P.Enabled(c, s.audit, call) && s'.audit == P.Next(c, s.audit, call)
    requires forall id :: P.TraceOk(s.audit, id)
    requires forall id :: id != call.id ==> HandleAsked(c, s, id)
    requires forall id :: id != call.id && id in s.asked ==> id in s'.asked && s'.asked[id] == s.asked[id]
    requires forall id :: id != call.id ==> (Busy(s', id) <==> Busy(s, id))
    requires call.Intent? ==>
               && call.id in s'.asked
               && s'.asked[call.id] == Asked(call.event, call.actor, call.fields, None)
    requires !call.Intent? ==>
               && call.id in s'.asked && s'.asked[call.id].event in c.registry
               && s.audit.ops[call.id].schema == c.registry[s'.asked[call.id].event]
               && s.audit.ops[call.id].actor == s'.asked[call.id].actor
               && (s'.audit.ops[call.id].state == P.Open ==> s'.asked[call.id].ending.None?)
    ensures HandlesAsked(c, s')
  {
    hide P.ConfigOk, P.OpsOk, Busy, P.HandleTrace, P.OrphanTrace, P.Of, P.Next;
    assert P.TraceOk(s.audit, call.id);
    assert call.Intent? ==> call.id !in s.audit.ops;
    HandleAfter(c, s.audit, call);
    forall id ensures HandleAsked(c, s', id) {
      if id != call.id {
        OpsAfter(c, s.audit, call, id);
        assert HandleAsked(c, s, id);
      }
    }
  }

  lemma {:induction false} TraceSays(c: P.Config, asked: map<Text, Asked>, trace: seq<P.Attempt>, log: F.State,
                                     a: Option<P.Attempt>)
    requires RecordsSay(c, asked, trace, log) && (a.Some? ==> Says(c, asked, a.value.record))
    ensures RecordsSay(c, asked, P.Appended(trace, a), log)
  {
    hide Carried, Says;
  }

  lemma {:induction false} DecideSays(c: P.Config, s: State, step: F.Action, answer: P.SinkAnswer)
    requires P.OpsOk(s.audit) && P.ConfigOk(c) && Faithful(c, s) && Threads(c, s) && Enabled(c, s, Decide(step, answer))
    ensures var s' := Next(c, s, Decide(step, answer)); RecordsSay(c, s'.asked, s'.audit.trace, s'.log)
  {
    var t := step.tid;
    var call := s.pending[t];
    assert ThreadOk(c, s, t);
    hide P.ConfigOk, P.OpsOk, P.Enabled, Made, Carried, Says, P.Next, F.Next, F.Enabled, Answers, HandlesAsked,
         AskedKnown,
         CallsAsked, Threads;
    var a :| F.Next(s.log, step).history == s.log.history + [a] && Answers(a, P.Attempt(a.record, answer));
    DecideCarries(s.log, step, a);
    AnsweredMade(c, s.audit, call, answer);
    MadeIsAppended(c, s.audit, Answered(call, answer));
    assert Says(c, s.asked, Made(c, s.audit, call).value.record);
    hide RecordsSay, ThreadOk;
    TraceSays(c, s.asked, s.audit.trace, s.log, Made(c, s.audit, Answered(call, answer)));
    var s' := Next(c, s, Decide(step, answer));
    ThreadSays(c, s.asked, s'.audit.trace, s.log, s'.log, t);
  }

  /** The handle of a pending call is no longer open once the call is decided. */
  lemma {:induction false} DecidedHandle(c: P.Config, s: State, call: P.Action, answer: P.SinkAnswer)
    requires Appends(c, s.audit, call) && !call.Intent? && P.Enabled(c, s.audit, Answered(call, answer))
    ensures call.id in P.Next(c, s.audit, Answered(call, answer)).ops
    ensures P.Next(c, s.audit, Answered(call, answer)).ops[call.id].state != P.Open
  {
    hide P.ConfigOk, P.BuildRecord, SchemaOk;
  }

  lemma {:induction false} DecideHandles(c: P.Config, s: State, step: F.Action, answer: P.SinkAnswer)
    requires P.OpsOk(s.audit) && P.ConfigOk(c) && Faithful(c, s) && Threads(c, s) && Enabled(c, s, Decide(step, answer))
    requires forall id :: P.TraceOk(s.audit, id)
    ensures var s' := Next(c, s, Decide(step, answer)); HandlesAsked(c, s') && CallsAsked(s')
  {
    var s' := Next(c, s, Decide(step, answer));
    var t := step.tid;
    var call := s.pending[t];
    assert ThreadOk(c, s, t) && HandleAsked(c, s, call.id) && CallAsked(s, call);
    hide P.ConfigOk, P.OpsOk, P.Enabled, Made, Carried, Says, P.Next, F.Next, F.Enabled, Answers, RecordsSay,
         AskedKnown,
         P.TraceOk, ThreadOk;
    BusyDecide(s, s', t);
    assert forall u :: u in s'.pending ==> CallAsked(s, s.pending[u]) && CallAsked(s', s'.pending[u]);
    hide Busy, CallsAsked, CallAsked;
    if !call.Intent? {
      DecidedHandle(c, s, call, answer);
    }
    assert !call.Intent? ==> call.id in s.audit.ops by { assert P.Enabled(c, s.audit, call); }
    CallHandles(c, s, Answered(call, answer), s');
  }

  lemma {:induction false} DecideKnown(c: P.Config, s: State, step: F.Action, answer: P.SinkAnswer)
    requires P.OpsOk(s.audit) && P.ConfigOk(c) && AskedKnown(s) && Threads(c, s) && Enabled(c, s, Decide(step, answer))
    requires forall id :: P.TraceOk(s.audit, id)
    ensures AskedKnown(Next(c, s, Decide(step, answer)))
  {
    var s' := Next(c, s, Decide(step, answer));
    var call := Answered(s.pending[step.tid], answer);
    hide P.ConfigOk, P.OpsOk, Made, P.Next, F.Next, F.Enabled, Answers, P.HandleTrace, P.OrphanTrace, P.Of, ThreadOk;
    BusyDecide(s, s', step.tid);
    hide Busy;
    OpsAfter(c, s.audit, call, call.id);
    assert P.TraceOk(s.audit, call.id);
    assert call.id in s'.audit.used;
  }

  lemma {:induction false} DecideFaithful(c: P.Config, s: State, step: F.Action, answer: P.SinkAnswer)
    requires P.OpsOk(s.audit) && P.ConfigOk(c) && Faithful(c, s) && Threads(c, s) && Enabled(c, s, Decide(step, answer))
    requires forall id :: P.TraceOk(s.audit, id)
    ensures Faithful(c, Next(c, s, Decide(step, answer)))
  {
    DecideSays(c, s, step, answer);
    DecideHandles(c, s, step, answer);
    DecideKnown(c, s, step, answer);
    hide P.OpsOk, P.ConfigOk, Threads, Enabled, Next, RecordsSay, HandlesAsked, CallsAsked, AskedKnown, P.TraceOk;
  }

  lemma {:induction false} LocalSays(c: P.Config, s: State, call: P.Action)
    requires P.OpsOk(s.audit) && P.ConfigOk(c) && Faithful(c, s) && Enabled(c, s, Local(call))
    ensures var s' := Next(c, s, Local(call)); RecordsSay(c, s'.asked, s'.audit.trace, s'.log)
  {
    var s' := Next(c, s, Local(call));
    assert HandleAsked(c, s, call.id);
    RememberRecalls(c, s, call);
    hide P.ConfigOk, P.OpsOk, P.Enabled, Made, Says, P.Next, Remember, Recalls, HandlesAsked, AskedKnown, CallsAsked,
         RecordsSay, HandleAsked, Busy;
    if Made(c, s.audit, call).Some? {
      MadeSays(c, s, call);
    }
    StillSay(c, s.asked, s'.asked, s.audit.trace, s.log);
    MadeIsAppended(c, s.audit, call);
    TraceSays(c, s'.asked, s.audit.trace, s.log, Made(c, s.audit, call));
  }

  /** A call by itself leaves its handle as it is remembered. */
  lemma {:induction false} LocalHandle(c: P.Config, s: State, call: P.Action)
    requires P.ConfigOk(c) && P.OpsOk(s.audit) && P.Enabled(c, s.audit, call) && !call.Intent?
    requires HandleAsked(c, s, call.id) && !Busy(s, call.id)
    ensures var asked := Remember(s.audit, s.asked, call);
            && call.id in asked && asked[call.id].event in c.registry
            && s.audit.ops[call.id].schema == c.registry[asked[call.id].event]
            && s.audit.ops[call.id].actor == asked[call.id].actor
            && call.id in P.Next(c, s.audit, call).ops
            && (P.Next(c, s.audit, call).ops[call.id].state == P.Open ==> asked[call.id].ending.None?)
  {
    HandleAfter(c, s.audit, call);
    hide P.ConfigOk, P.OpsOk, P.Next, Busy;
  }

  lemma {:induction false} LocalHandles(c: P.Config, s: State, call: P.Action)
    requires P.OpsOk(s.audit) && P.ConfigOk(c) && Faithful(c, s) && Apart(s.pending) && Enabled(c, s, Local(call))
    requires forall id :: P.TraceOk(s.audit, id)
    ensures var s' := Next(c, s, Local(call)); HandlesAsked(c, s') && CallsAsked(s')
  {
    var s' := Next(c, s, Local(call));
    assert HandleAsked(c, s, call.id);
    assert forall id :: HandleAsked(c, s, id);
    assert forall id :: Busy(s', id) == Busy(s, id);
    RememberRecalls(c, s, call);
    forall u | u in s'.pending ensures CallAsked(s', s'.pending[u]) {
      assert CallAsked(s, s.pending[u]);
      assert Busy(s, s.pending[u].id);
    }
    hide P.ConfigOk, P.OpsOk, Made, P.Next, RecordsSay, AskedKnown, P.TraceOk, Busy, Recalls, CallsAsked;
    if call.Intent? {
      assert s'.asked[call.id] == Asked(call.event, call.actor, call.fields, None);
    } else {
      LocalHandle(c, s, call);
    }
    hide Remember;
    CallHandles(c, s, call, s');
  }

  lemma {:induction false} LocalFaithful(c: P.Config, s: State, call: P.Action)
    requires P.OpsOk(s.audit) && P.ConfigOk(c) && Faithful(c, s) && Apart(s.pending) && Enabled(c, s, Local(call))
    requires forall id :: P.TraceOk(s.audit, id)
    ensures Faithful(c, Next(c, s, Local(call)))
  {
    LocalSays(c, s, call);
    LocalHandles(c, s, call);
    RememberRecalls(c, s, call);
    OpsAfter(c, s.audit, call, call.id);
    hide P.OpsOk, P.ConfigOk, RecordsSay, HandlesAsked, CallsAsked, P.TraceOk, Made, P.Next, Remember, Recalls;
    assert forall id :: Busy(Next(c, s, Local(call)), id) == Busy(s, id);
  }

  lemma {:induction false} AppendIdle(c: P.Config, s: State, t: F.Tid, sink: F.SinkId, line: bytes, call: P.Action)
    requires P.OpsOk(s.audit) && P.ConfigOk(c) && Threads(c, s) && Enabled(c, s, Append(t, sink, line, call))
    ensures t !in s.pending
  {
    assert ThreadOk(c, s, t);
    SubmitQuiet(s.log, t, sink, Made(c, s.audit, call).value.record, line);
    hide P.ConfigOk, P.OpsOk, F.Enabled, Made, Busy, Carried;
  }

  lemma {:induction false} StepFaithful(c: P.Config, s: State, a: Action, init: bytes)
    requires Inv(c, s, init) && Enabled(c, s, a)
    ensures Faithful(c, Next(c, s, a))
  {
    hide P.ConfigOk, P.OpsOk, P.TraceOk, Faithful, Next, F.Inv, Agree, ThreadOk, Enabled;
    match a
    case Quiet(step) => QuietFaithful(c, s, step);
    case Append(t, sink, line, call) =>
      AppendIdle(c, s, t, sink, line, call);
      AppendFaithful(c, s, t, sink, line, call);
    case Decide(step, answer) => DecideFaithful(c, s, step, answer);
    case Local(call) => LocalFaithful(c, s, call);
  }

  /** Every step of every thread keeps the log framed, the protocol's traces, their agreement, and each record saying
      what was asked. */
  lemma {:induction false} StepInv(c: P.Config, s: State, a: Action, init: bytes)
    requires Inv(c, s, init) && Enabled(c, s, a)
    ensures Inv(c, Next(c, s, a), init)
  {
    hide P.ConfigOk, Tracks, Threads, Faithful, Next, Enabled;
    StepTracks(c, s, a, init);
    StepThreads(c, s, a, init);
    StepFaithful(c, s, a, init);
  }

  /** A fresh audit log over a fresh durable stream whose file held `init`. */
  ghost predicate Initial(s: State, init: bytes) {
    s.audit == P.START && F.Initial(s.log, init) && s.log.fsync && s.pending == map[] && s.asked == map[]
  }

  lemma {:induction false} StartInv(c: P.Config, s: State, init: bytes)
    requires P.ConfigOk(c) && Initial(s, init)
    ensures Inv(c, s, init)
  {
    F.InitialInv(s.log, init);
    hide F.Inv, P.ConfigOk, Says;
    assert F.Framed([]) == [] && P.Written([]) == [];
    assert forall id :: P.Of([], id) == [];
  }

  lemma {:induction false} RunInv(c: P.Config, s: State, run: seq<Action>, s': State, init: bytes)
    requires P.ConfigOk(c) && Initial(s, init) && Exec(c, s, run) == Some(s')
    ensures Inv(c, s', init)
  {
    assert P.OpsOk(s.audit);
    hide P.ConfigOk, Inv, Next, Enabled, P.OpsOk;
    if run == [] {
      StartInv(c, s, init);
    } else {
      var mid := Exec(c, s, run[..|run| - 1]).value;
      RunInv(c, s, run[..|run| - 1], mid, init);
      StepInv(c, mid, run[|run| - 1], init);
    }
  }

  /** A system call decides at most one attempt. */
  lemma {:induction false} DecidesAtMostOne(s: F.State, step: F.Action)
    requires F.Enabled(s, step) && !step.Submit?
    ensures var s' := F.Next(s, step);
            s'.history == s.history || (!step.Close? && exists a :: s'.history == s.history + [a])
  {
    hide F.Encodes;
    if F.Next(s, step).history != s.history {
      var a := F.Next(s, step).history[|s.history|];
      assert F.Next(s, step).history == s.history + [a];
    }
  }

  /** An answer that fits how the attempt ended. */
  function AnswerTo(a: F.Attempt): P.SinkAnswer {
    if a.result == F.Complete then P.Returns else P.Raises(P.Raised(PersistenceError, 0), F.IsFramed(a))
  }

  lemma {:induction false} DecisionPossible(c: P.Config, s: State, step: F.Action, a: F.Attempt)
    requires P.ConfigOk(c) && P.OpsOk(s.audit) && !step.Close? && F.Enabled(s.log, step) && ThreadOk(c, s, step.tid)
    requires F.Next(s.log, step).history == s.log.history + [a]
    ensures Enabled(c, s, Decide(step, AnswerTo(a)))
  {
    DecideCarries(s.log, step, a);
    hide P.ConfigOk, P.OpsOk, F.Next, F.Enabled, P.Enabled, Made, Carried;
    AnsweredMade(c, s.audit, s.pending[step.tid], AnswerTo(a));
    assert Answers(a, P.Attempt(a.record, AnswerTo(a)));
  }

  /** Joining the protocol to the log takes no behaviour from the log: in every reachable state each system call that is
      possible there, however it ends, is possible here. */
  lemma {:induction false} SystemCallsFree(c: P.Config, s: State, step: F.Action, init: bytes)
    requires Inv(c, s, init) && F.Enabled(s.log, step) && !step.Submit?
    ensures exists a :: Enabled(c, s, a) && Next(c, s, a).log == F.Next(s.log, step)
  {
    assert P.OpsOk(s.audit);
    DecidesAtMostOne(s.log, step);
    if F.Next(s.log, step).history == s.log.history {
      hide P.ConfigOk, P.OpsOk, Tracks, Faithful, Threads, F.Next, F.Enabled;
      assert Enabled(c, s, Quiet(step)) && Next(c, s, Quiet(step)).log == F.Next(s.log, step);
    } else {
      var a :| F.Next(s.log, step).history == s.log.history + [a];
      assert ThreadOk(c, s, step.tid);
      hide P.ConfigOk, P.OpsOk, Tracks, Faithful, Threads, F.Next, F.Enabled, Enabled, ThreadOk;
      DecisionPossible(c, s, step, a);
      assert Next(c, s, Decide(step, AnswerTo(a))).log == F.Next(s.log, step);
    }
  }
}
