/**
  Every interleaving of callers, the single reader, timeouts, write failures and
  Close over one `Station`.  A step is one mutex section, one channel operation,
  or one local choice; the reader and the callers keep their own program counters.
 */
module MultiplexRuns {
  import opened Common
  import opened Bridge
  import opened Multiplex

  datatype CallOutcome = Got(result: MuxResult) | TimedOut | WriteError

  /** Where a registered Evaluate call stands. */
  datatype Caller = Writing | WriteFailed | Waiting | Expired | Done(outcome: CallOutcome)

  /** Where readLoop stands; `Draining` is failFatal between its mutex section and its last send. */
  datatype Reader = Reading | Sending(id: string, result: MuxResult) | Failing(error: MuxError)
                  | Draining(left: set<string>, error: MuxError) | Stopped

  datatype Closer = ByReader | ByClose

  /** `requests`, `sent`, `log`, `drained` and `closedBy` are history only; no step is guarded by them. */
  datatype World = World(
    st: Station, callers: map<string, Caller>, inbox: map<string, seq<MuxResult>>, reader: Reader,
    requests: map<string, StationRequest>, sent: map<string, seq<MuxResult>>, log: seq<Line>,
    drained: set<string>, closedBy: Option<Closer>)

  datatype Step =
    | Register(id: string, request: StationRequest, valid: bool)
    | WriteOk(id: string) | WriteFails(id: string) | DropUnwritten(id: string)
    | Receive(id: string) | Expire(id: string) | DropExpired(id: string)
    | Read(line: Line) | EndOfOutput | Send | FailFatal | DrainSend(id: string) | DrainEnd
    | CloseStation

  const Opened := World(Station(true, false, None, map[], {}, {}), map[], map[], Reading, map[], map[], [], {}, None)

  predicate CallerAt(w: World, id: string, c: Caller) {
    id in w.callers && w.callers[id] == c
  }

  /** A send needs room in the capacity-1 channel. */
  predicate HasRoom(w: World, id: string) {
    id in w.inbox && |w.inbox[id]| < 1
  }

  predicate Enabled(w: World, s: Step) {
    match s
    case Register(_, _, _) => true
    case WriteOk(id) => CallerAt(w, id, Writing)
    case WriteFails(id) => CallerAt(w, id, Writing)
    case DropUnwritten(id) => CallerAt(w, id, WriteFailed)
    case Receive(id) => CallerAt(w, id, Waiting) && id in w.inbox && w.inbox[id] != []
    case Expire(id) => CallerAt(w, id, Waiting)
    case DropExpired(id) => CallerAt(w, id, Expired)
    case Read(_) => w.reader == Reading
    case EndOfOutput => w.reader == Reading
    case Send => w.reader.Sending? && HasRoom(w, w.reader.id)
    case FailFatal => w.reader.Failing?
    case DrainSend(id) => w.reader.Draining? && id in w.reader.left && HasRoom(w, id)
    case DrainEnd => w.reader.Draining? && w.reader.left == {}
    case CloseStation => true
  }

  function Deliver(w: World, id: string, r: MuxResult): World
    requires id in w.inbox
  {
    w.(inbox := w.inbox[id := w.inbox[id] + [r]],
       sent := w.sent[id := (if id in w.sent then w.sent[id] else []) + [r]])
  }

  function Next(w: World, s: Step): World
    requires Enabled(w, s)
  {
    match s
    case Register(id, request, valid) =>
      if RegisterRefusal(w.st, id, valid).Fail? then w
      else w.(st := Registered(w.st, id, request), callers := w.callers[id := Writing],
              inbox := w.inbox[id := []], requests := w.requests[id := request], sent := w.sent[id := []])
    case WriteOk(id) => w.(callers := w.callers[id := Waiting])
    case WriteFails(id) => w.(callers := w.callers[id := WriteFailed])
    case DropUnwritten(id) => w.(st := PendingRemoved(w.st, id, false), callers := w.callers[id := Done(WriteError)])
    case Receive(id) => w.(callers := w.callers[id := Done(Got(w.inbox[id][0]))],
                           inbox := w.inbox[id := w.inbox[id][1..]])
    case Expire(id) => w.(callers := w.callers[id := Expired])
    case DropExpired(id) => w.(st := PendingRemoved(w.st, id, true), callers := w.callers[id := Done(TimedOut)])
    case Read(line) =>
      w.(st := Dispatched(w.st, line), log := w.log + [line],
         reader := match DispatchOf(w.st, line)
                   case Ignore => Reading
                   case Fatal(e) => Failing(e)
                   case Answer(id, r) => Sending(id, r))
    case EndOfOutput => w.(reader := Failing(OutputClosed))
    case Send => Deliver(w, w.reader.id, w.reader.result).(reader := Reading)
    case FailFatal =>
      if w.st.closed then w.(reader := Stopped)
      else w.(st := FatallyClosed(w.st, w.reader.error), reader := Draining(w.st.pending.Keys, w.reader.error),
              drained := w.st.pending.Keys, closedBy := Some(ByReader))
    case DrainSend(id) =>
      Deliver(w, id, Failed(w.reader.error)).(reader := Draining(w.reader.left - {id}, w.reader.error))
    case DrainEnd => w.(reader := Stopped)
    case CloseStation =>
      w.(st := w.st.(closed := true), closedBy := if w.closedBy.None? then Some(ByClose) else w.closedBy)
  }

  /** `w'` is reached from `w` by taking `steps` in order, each of them enabled. */
  ghost predicate Runs(w: World, steps: seq<Step>, w': World)
    decreases |steps|
  {
    if steps == [] then w' == w
    else Enabled(w, steps[0]) && Runs(Next(w, steps[0]), steps[1..], w')
  }

  ghost predicate Reachable(w: World) {
    exists steps :: Runs(Opened, steps, w)
  }

  // ---- the invariant ----

  /** The reader has taken the request out of `pending` and still owes it a message. */
  predicate InHand(w: World, id: string) {
    (w.reader.Sending? && w.reader.id == id) || (w.reader.Draining? && id in w.reader.left)
  }

  /** Some line read so far carried this id and decodes to `r` for this request. */
  ghost predicate FromLine(log: seq<Line>, id: string, request: StationRequest, r: MuxResult) {
    exists k :: 0 <= k < |log| && log[k].Line? && log[k].requestId == id && ResultOf(log[k], request) == r
  }

  /** A message is what some line with that id decodes to, or the error of the drain that took the request. */
  ghost predicate Justified(w: World, id: string, r: MuxResult)
    requires id in w.requests
  {
    || FromLine(w.log, id, w.requests[id], r)
    || (id in w.drained && r.Failed? && w.st.readerErr == Some(r.error))
  }

  ghost predicate Shape(w: World) {
    && w.st.started && "" !in w.st.seen
    && w.callers.Keys == w.inbox.Keys == w.requests.Keys == w.sent.Keys == w.st.seen
    && w.st.pending.Keys <= w.st.seen && w.st.abandoned <= w.st.seen
    && w.st.pending.Keys !! w.st.abandoned
    && (w.reader.Sending? ==> w.reader.id in w.st.seen && Justified(w, w.reader.id, w.reader.result))
    && (w.reader.Draining? ==>
          && w.reader.left <= w.drained && w.closedBy == Some(ByReader)
          && w.st.readerErr == Some(w.reader.error))
    && w.drained <= w.st.seen
    && (w.st.closed <==> w.closedBy.Some?)
    && (w.closedBy == Some(ByReader) ==>
          && w.st.pending == map[] && w.st.readerErr.Some?
          && (w.reader.Draining? || w.reader.Stopped?))
    && (w.closedBy != Some(ByReader) ==> w.drained == {} && w.st.readerErr.None?)
    && (w.reader.Stopped? ==> w.st.closed)
  }

  predicate Known(w: World, id: string) {
    id in w.st.seen && id in w.callers && id in w.inbox && id in w.requests && id in w.sent
  }

  ghost predicate PerRequest(w: World, id: string)
    requires Known(w, id)
  {
    && |w.sent[id]| <= 1
    && (w.inbox[id] == [] || w.inbox[id] == w.sent[id])
    && (forall r | r in w.sent[id] :: Justified(w, id, r))
    && (id in w.st.pending || id in w.st.abandoned || InHand(w, id) ==> w.sent[id] == [])
    && (id in w.st.pending || id in w.st.abandoned ==> !InHand(w, id))
    && (id in w.st.pending ==> w.st.pending[id] == w.requests[id] && !w.callers[id].Done?)
    && (id in w.st.abandoned ==> w.callers[id] == Done(TimedOut))
    && (w.callers[id].Writing? || w.callers[id].Waiting? ==>
          id in w.st.pending || InHand(w, id) || (w.sent[id] != [] && w.inbox[id] == w.sent[id]))
    && (w.callers[id].Done? && w.callers[id].outcome.Got? ==> w.sent[id] == [w.callers[id].outcome.result])
    && (id in w.drained ==> InHand(w, id) || (w.st.readerErr.Some? && w.sent[id] == [Failed(w.st.readerErr.value)]))
  }

  ghost predicate Inv(w: World) {
    Shape(w) && forall id | id in w.st.seen :: PerRequest(w, id)
  }

  /** Requests, messages sent, and the drain of `w` survive into `w'`, whose log extends `w`'s. */
  ghost predicate HistoryKept(w: World, w': World) {
    && w.log <= w'.log
    && (forall id | id in w.requests :: id in w'.requests && w'.requests[id] == w.requests[id])
    && (w.drained != {} ==> w.st.readerErr == w'.st.readerErr && w.drained <= w'.drained)
  }

  lemma JustifiedKept(w: World, w': World, id: string, r: MuxResult)
    requires HistoryKept(w, w') && id in w.requests && Justified(w, id, r)
    ensures Justified(w', id, r)
  {
    if FromLine(w.log, id, w.requests[id], r) {
      var k :| 0 <= k < |w.log| && w.log[k].Line? && w.log[k].requestId == id
        && ResultOf(w.log[k], w.requests[id]) == r;
      assert w'.log[k] == w.log[k];
    }
  }

  /** A request no step touches stays as it was. */
  lemma Untouched(w: World, w': World, id: string)
    requires Known(w, id) && Known(w', id) && PerRequest(w, id) && HistoryKept(w, w')
    requires w'.sent[id] == w.sent[id] && w'.inbox[id] == w.inbox[id] && w'.callers[id] == w.callers[id]
    requires (id in w'.st.pending <==> id in w.st.pending) && (id in w'.st.abandoned <==> id in w.st.abandoned)
    requires id in w.st.pending ==> w'.st.pending[id] == w.st.pending[id]
    requires InHand(w', id) <==> InHand(w, id)
    requires id in w'.drained <==> id in w.drained
    ensures PerRequest(w', id)
  {
    forall r | r in w'.sent[id] ensures Justified(w', id, r) { JustifiedKept(w, w', id, r); }
  }

  lemma ReaderStillJustified(w: World, w': World)
    requires Shape(w) && HistoryKept(w, w') && w'.reader == w.reader
    ensures w.reader.Sending? ==> w.reader.id in w'.requests && Justified(w', w.reader.id, w.reader.result)
  {
    if w.reader.Sending? { JustifiedKept(w, w', w.reader.id, w.reader.result); }
  }

  // Evaluate's steps

  lemma RegisterKeepsShape(w: World, s: Step)
    requires Shape(w) && s.Register?
    ensures Shape(Next(w, s)) && HistoryKept(w, Next(w, s))
  {
    var w' := Next(w, s);
    assert HistoryKept(w, w');
    ReaderStillJustified(w, w');
  }

  lemma RegisterKeepsRequest(w: World, s: Step, id: string)
    requires Shape(w) && s.Register? && HistoryKept(w, Next(w, s))
    requires Known(w, id) ==> PerRequest(w, id)
    requires Known(Next(w, s), id)
    ensures PerRequest(Next(w, s), id)
  {
    if Known(w, id) {
      Untouched(w, Next(w, s), id);
    }
  }

  /** The caller's own steps, other than registering. */
  predicate CallerStep(s: Step) {
    s.WriteOk? || s.WriteFails? || s.Receive? || s.Expire? || s.DropUnwritten? || s.DropExpired?
  }

  lemma CallerStepKeepsShape(w: World, s: Step)
    requires Shape(w) && CallerStep(s) && Enabled(w, s)
    ensures Shape(Next(w, s)) && HistoryKept(w, Next(w, s)) && s.id in w.st.seen
  {
    var w' := Next(w, s);
    assert HistoryKept(w, w');
    ReaderStillJustified(w, w');
  }

  lemma CallerStepKeepsRequest(w: World, s: Step, id: string)
    requires CallerStep(s) && Enabled(w, s) && HistoryKept(w, Next(w, s))
    requires Known(w, id) && PerRequest(w, id)
    ensures Known(Next(w, s), id) && PerRequest(Next(w, s), id)
  {
    var w' := Next(w, s);
    if id != s.id {
      Untouched(w, w', id);
    } else {
      forall r | r in w'.sent[id] ensures Justified(w', id, r) { JustifiedKept(w, w', id, r); }
    }
  }

  // the reader's steps, and Close

  lemma ReadKeepsShape(w: World, line: Line)
    requires Shape(w) && w.reader == Reading
    requires line.Line? && line.requestId in w.st.pending ==> PerRequest(w, line.requestId)
    ensures Shape(Next(w, Read(line))) && HistoryKept(w, Next(w, Read(line)))
  {
    var w' := Next(w, Read(line));
    assert w'.log[|w.log|] == line;
    assert HistoryKept(w, w');
    if w'.reader.Sending? {
      assert FromLine(w'.log, w'.reader.id, w'.requests[w'.reader.id], w'.reader.result);
    }
  }

  lemma ReadKeepsRequest(w: World, line: Line, id: string)
    requires Shape(w) && w.reader == Reading && HistoryKept(w, Next(w, Read(line)))
    requires Known(w, id) && PerRequest(w, id)
    ensures Known(Next(w, Read(line)), id) && PerRequest(Next(w, Read(line)), id)
  {
    var w' := Next(w, Read(line));
    if line.Garbled? || id != line.requestId {
      Untouched(w, w', id);
    } else {
      forall r | r in w'.sent[id] ensures Justified(w', id, r) { JustifiedKept(w, w', id, r); }
    }
  }

  lemma SendKeepsShape(w: World, s: Step)
    requires Shape(w) && (s.Send? || s.DrainSend?) && Enabled(w, s)
    ensures Shape(Next(w, s)) && HistoryKept(w, Next(w, s))
  {
  }

  lemma SendKeepsRequest(w: World, s: Step, id: string)
    requires Shape(w) && (s.Send? || s.DrainSend?) && Enabled(w, s) && HistoryKept(w, Next(w, s))
    requires Known(w, id) && PerRequest(w, id)
    ensures Known(Next(w, s), id) && PerRequest(Next(w, s), id)
  {
    var w' := Next(w, s);
    var to := if s.Send? then w.reader.id else s.id;
    if id != to {
      Untouched(w, w', id);
    } else {
      var r := if s.Send? then w.reader.result else Failed(w.reader.error);
      assert Justified(w, id, r);
      JustifiedKept(w, w', id, r);
      assert w'.sent[id] == [r];
    }
  }

  /** failFatal's mutex section, the end of output, the end of the drain, and Close. */
  predicate ClosingStep(s: Step) {
    s.FailFatal? || s.EndOfOutput? || s.DrainEnd? || s.CloseStation?
  }

  lemma ClosingKeepsShape(w: World, s: Step)
    requires Shape(w) && ClosingStep(s) && Enabled(w, s)
    ensures Shape(Next(w, s)) && HistoryKept(w, Next(w, s))
  {
    var w' := Next(w, s);
    assert HistoryKept(w, w');
    if s.CloseStation? { ReaderStillJustified(w, w'); }
  }

  lemma ClosingKeepsRequest(w: World, s: Step, id: string)
    requires Shape(w) && ClosingStep(s) && Enabled(w, s) && HistoryKept(w, Next(w, s))
    requires Known(w, id) && PerRequest(w, id)
    ensures Known(Next(w, s), id) && PerRequest(Next(w, s), id)
  {
    var w' := Next(w, s);
    if s.FailFatal? {
      forall r | r in w'.sent[id] ensures Justified(w', id, r) { JustifiedKept(w, w', id, r); }
    } else {
      Untouched(w, w', id);
    }
  }

  lemma StepKeepsShape(w: World, s: Step)
    requires Inv(w) && Enabled(w, s)
    ensures Shape(Next(w, s)) && HistoryKept(w, Next(w, s))
  {
    if s.Register? { RegisterKeepsShape(w, s); }
    else if CallerStep(s) { CallerStepKeepsShape(w, s); }
    else if s.Read? { ReadKeepsShape(w, s.line); }
    else if s.Send? || s.DrainSend? { SendKeepsShape(w, s); }
    else { ClosingKeepsShape(w, s); }
  }

  lemma StepKeepsRequest(w: World, s: Step, id: string)
    requires Shape(w) && Enabled(w, s) && HistoryKept(w, Next(w, s))
    requires Known(w, id) ==> PerRequest(w, id)
    requires Known(Next(w, s), id)
    ensures PerRequest(Next(w, s), id)
  {
    if s.Register? { RegisterKeepsRequest(w, s, id); }
    else if CallerStep(s) { CallerStepKeepsRequest(w, s, id); }
    else if s.Read? { ReadKeepsRequest(w, s.line, id); }
    else if s.Send? || s.DrainSend? { SendKeepsRequest(w, s, id); }
    else { ClosingKeepsRequest(w, s, id); }
  }

  lemma StepKeepsInv(w: World, s: Step)
    requires Inv(w) && Enabled(w, s)
    ensures Inv(Next(w, s))
  {
    StepKeepsShape(w, s);
    var w' := Next(w, s);
    forall id | id in w'.st.seen ensures PerRequest(w', id) {
      StepKeepsRequest(w, s, id);
    }
  }

  lemma {:induction false} RunKeepsInv(w: World, steps: seq<Step>, w': World)
    requires Inv(w) && Runs(w, steps, w')
    ensures Inv(w')
    decreases |steps|
  {
    if steps != [] {
      StepKeepsInv(w, steps[0]);
      RunKeepsInv(Next(w, steps[0]), steps[1..], w');
    }
  }

  lemma ReachableInv(w: World)
    requires Reachable(w)
    ensures Inv(w)
  {
    var steps :| Runs(Opened, steps, w);
    RunKeepsInv(Opened, steps, w);
  }

  // ---- what every interleaving guarantees ----

  /**
    The three maps agree, each request is sent at most one message over its
    whole life, and whoever must send next finds room: no reader send blocks.
   */
  lemma NoReaderSendBlocks(w: World)
    requires Reachable(w)
    ensures w.st.pending.Keys !! w.st.abandoned && w.st.pending.Keys + w.st.abandoned <= w.st.seen
    ensures forall id | id in w.st.seen :: id in w.sent && |w.sent[id]| <= 1 && id in w.inbox && |w.inbox[id]| <= 1
    ensures w.reader.Sending? ==> Enabled(w, Send) && w.inbox[w.reader.id] == []
    ensures w.reader.Draining? ==> forall id | id in w.reader.left :: Enabled(w, DrainSend(id))
  {
    ReachableInv(w);
    forall id | id in w.st.seen ensures id in w.sent && |w.sent[id]| <= 1 && id in w.inbox && |w.inbox[id]| <= 1 {
      assert PerRequest(w, id);
    }
    if w.reader.Sending? { assert PerRequest(w, w.reader.id); }
    if w.reader.Draining? {
      forall id | id in w.reader.left ensures Enabled(w, DrainSend(id)) { assert PerRequest(w, id); }
    }
  }

  /** A decision reaches a caller only from a line with the caller's own id, and it answers the caller's own request. */
  lemma ReturnedDecisionIsCallersOwn(w: World, id: string)
    requires Reachable(w) && id in w.callers
    requires w.callers[id].Done? && w.callers[id].outcome.Got? && w.callers[id].outcome.result.Delivered?
    ensures id in w.requests && Answers(w.requests[id], w.callers[id].outcome.result.decision)
    ensures exists k :: && 0 <= k < |w.log| && w.log[k].Line? && w.log[k].requestId == id && w.log[k].response.Value?
                        && w.log[k].response.value == ResponseEnvelope(id, w.callers[id].outcome.result.decision)
  {
    ReachableInv(w);
    assert PerRequest(w, id);
    var r := w.callers[id].outcome.result;
    assert r in w.sent[id];
    assert FromLine(w.log, id, w.requests[id], r);
    var k :| 0 <= k < |w.log| && w.log[k].Line? && w.log[k].requestId == id && ResultOf(w.log[k], w.requests[id]) == r;
    DeliveredIsBound(w.log[k], w.requests[id]);
  }

  lemma IdsInUse(w: World)
    requires Reachable(w)
    ensures w.st.started && "" !in w.st.seen && w.st.pending.Keys <= w.st.seen && w.st.abandoned <= w.st.seen
    ensures w.st.closed || w.st.readerErr.None?
  {
    ReachableInv(w);
  }

  /** Only a valid call with a new id on an open station is admitted; then its id is pending and its caller writes. */
  lemma AdmittedIffNew(w: World, id: string, request: StationRequest, valid: bool)
    requires Reachable(w)
    ensures var w' := Next(w, Register(id, request, valid));
            if id != "" && valid && !w.st.closed && id !in w.st.seen
            then w'.st.pending == w.st.pending[id := request] && CallerAt(w', id, Writing) && id in w'.st.seen
            else w' == w
  {
    hide Reachable;
    IdsInUse(w);
  }

  lemma FatalLines(w: World, line: Line)
    requires w.reader == Reading && "" !in w.st.pending && "" !in w.st.abandoned
    ensures var w' := Next(w, Read(line));
            && (w'.reader.Failing? <==>
                line.Garbled? || (line.requestId !in w.st.pending && line.requestId !in w.st.abandoned))
            && (w'.reader.Failing? ==> w'.st == w.st)
            && (w'.reader.Failing? ==>
                  w'.reader.error == if line.Garbled? then UndecodableHeader
                                     else if line.requestId == "" then Unbound(line.protocol)
                                     else UnknownRequestId(line.requestId))
  {
    if line.Line? && line.requestId !in w.st.pending {
      assert w.st.pending - {line.requestId} == w.st.pending;
    }
  }

  /**
    A line is fatal exactly when it is garbled or its id is neither awaited nor
    abandoned, as an empty or never used id is; on an open station the close that
    follows takes every pending request.
   */
  lemma FatalIffUnexpected(w: World, line: Line)
    requires Reachable(w) && w.reader == Reading
    ensures Next(w, Read(line)).reader.Failing? <==>
              line.Garbled? || (line.requestId !in w.st.pending && line.requestId !in w.st.abandoned)
    ensures line.Line? && (line.requestId == "" || line.requestId !in w.st.seen) ==>
              Next(w, Read(line)).reader.Failing?
    ensures Next(w, Read(line)).reader.Failing? ==>
              Next(w, Read(line)).reader.error ==
              if line.Garbled? then UndecodableHeader
              else if line.requestId == "" then Unbound(line.protocol)
              else UnknownRequestId(line.requestId)
    ensures Next(w, Read(line)).reader.Failing? && !w.st.closed ==>
              var w' := Next(w, Read(line));
              && Next(w', FailFatal).reader == Draining(w.st.pending.Keys, w'.reader.error)
              && Next(w', FailFatal).st.closed
  {
    IdsInUse(w);
    FatalLines(w, line);
    hide Reachable, DispatchOf, Dispatched;
  }

  /** The answer a caller is waiting for reaches it: read, sent and received, each step enabled when its turn comes. */
  lemma AnswerReachesCaller(w: World, id: string, line: Line, d: Decision)
    requires Reachable(w) && w.reader == Reading && CallerAt(w, id, Waiting) && id in w.st.pending
    requires line.Line? && line.protocol == ResponseEnvelopeProtocol && line.requestId == id
    requires line.response == Value(ResponseEnvelope(id, d)) && Answers(w.st.pending[id], d)
    ensures var sending := Next(w, Read(line));
            && Enabled(sending, Send) && Next(sending, Send).reader == Reading
            && Enabled(Next(sending, Send), Receive(id))
            && CallerAt(Next(Next(sending, Send), Receive(id)), id, Done(Got(Delivered(d))))
  {
    PendingInboxEmpty(w, id);
    DeliveredIsBound(line, w.st.pending[id]);
    hide Reachable, Answers, ResultOf;
  }

  lemma PendingInboxEmpty(w: World, id: string)
    requires Reachable(w) && id in w.st.pending
    ensures id in w.inbox && w.inbox[id] == [] && id !in w.st.abandoned && id != ""
  {
    ReachableInv(w);
    assert PerRequest(w, id);
  }

  /** The response to a call that expired is tolerated; the response to a call that was never written is fatal. */
  lemma ExpiredIsTolerated(w: World, id: string, line: Line)
    requires Reachable(w) && w.reader == Reading && id in w.st.pending && line.Line? && line.requestId == id
    ensures CallerAt(w, id, Expired) ==> Next(Next(w, DropExpired(id)), Read(line)).reader == Reading
    ensures CallerAt(w, id, WriteFailed) ==>
              Next(Next(w, DropUnwritten(id)), Read(line)).reader == Failing(UnknownRequestId(id))
  {
    PendingInboxEmpty(w, id);
    hide Reachable, ResultOf;
  }

  /** A late response to an abandoned request is dropped: nothing but `abandoned` and the history changes. */
  lemma LateResponseDropped(w: World, line: Line)
    requires Reachable(w) && w.reader == Reading && line.Line? && line.requestId in w.st.abandoned
    ensures Next(w, Read(line)) ==
              w.(st := w.st.(abandoned := w.st.abandoned - {line.requestId}), log := w.log + [line])
    ensures CallerAt(w, line.requestId, Done(TimedOut))
  {
    ReachableInv(w);
    assert PerRequest(w, line.requestId);
  }

  /** The id was used, and no response to it is awaited or tolerated any more. */
  predicate Settled(w: World, id: string) {
    id in w.st.seen && id !in w.st.pending && id !in w.st.abandoned
  }

  lemma SettledStep(w: World, s: Step, id: string)
    requires Enabled(w, s) && Settled(w, id)
    ensures Settled(Next(w, s), id)
  {
  }

  lemma {:induction false} SettledForEver(w: World, steps: seq<Step>, w': World, id: string)
    requires Runs(w, steps, w') && Settled(w, id)
    ensures Settled(w', id)
    decreases |steps|
  {
    if steps != [] {
      SettledStep(w, steps[0], id);
      SettledForEver(Next(w, steps[0]), steps[1..], w', id);
    }
  }

  /** Tolerance is spent once: any second line with that id, however much later, is fatal. */
  lemma SecondLateResponseIsFatal(w: World, line: Line, steps: seq<Step>, w': World, again: Line)
    requires Reachable(w) && w.reader == Reading && line.Line? && line.requestId in w.st.abandoned
    requires Runs(Next(w, Read(line)), steps, w')
    requires again.Line? && again.requestId == line.requestId
    ensures DispatchOf(w'.st, again) == Fatal(UnknownRequestId(line.requestId))
  {
    ReachableInv(w);
    SettledForEver(Next(w, Read(line)), steps, w', line.requestId);
  }

  /** The reader has closed the station: no dispatching, no admission. */
  predicate ReaderClosed(w: World) {
    w.closedBy == Some(ByReader) && w.st.closed && (w.reader.Draining? || w.reader.Stopped?)
  }

  lemma DrainedStep(w: World, s: Step)
    requires Enabled(w, s) && ReaderClosed(w)
    ensures ReaderClosed(Next(w, s))
    ensures Next(w, s).drained == w.drained && Next(w, s).st.readerErr == w.st.readerErr
    ensures w.st.pending == map[] ==> Next(w, s).st.pending == map[]
  {
  }

  lemma {:induction false} DrainedForEver(w: World, steps: seq<Step>, w': World)
    requires Runs(w, steps, w') && ReaderClosed(w)
    ensures ReaderClosed(w') && w'.drained == w.drained && w'.st.readerErr == w.st.readerErr
    ensures w.st.pending == map[] ==> w'.st.pending == map[]
    decreases |steps|
  {
    if steps != [] {
      DrainedStep(w, steps[0]);
      DrainedForEver(Next(w, steps[0]), steps[1..], w');
    }
  }

  lemma DrainStep(w: World, id: string)
    requires Inv(w) && w.reader.Draining? && id in w.reader.left
    ensures Enabled(w, DrainSend(id)) && Inv(Next(w, DrainSend(id)))
    ensures Next(w, DrainSend(id)).reader == Draining(w.reader.left - {id}, w.reader.error)
  {
    assert PerRequest(w, id);
    hide PerRequest, Shape;
    StepKeepsInv(w, DrainSend(id));
  }

  /** The drain never gets stuck: from any point of it the reader can go on to stop. */
  lemma {:induction false} DrainCompletes(w: World) returns (steps: seq<Step>, w': World)
    requires Inv(w) && w.reader.Draining?
    ensures Runs(w, steps, w') && w'.reader.Stopped?
    decreases |w.reader.left|
  {
    hide Inv;
    if w.reader.left == {} {
      w' := Next(w, DrainEnd);
      steps := [DrainEnd];
      NoSteps(w');
      OneStep(w, DrainEnd, [], steps, w');
    } else {
      var id :| id in w.reader.left;
      DrainStep(w, id);
      hide Next, Enabled;
      var rest: seq<Step>;
      rest, w' := DrainCompletes(Next(w, DrainSend(id)));
      steps := [DrainSend(id)] + rest;
      OneStep(w, DrainSend(id), rest, steps, w');
    }
  }

  lemma DrainedRequestGotTheError(w: World, id: string)
    requires Inv(w) && id in w.drained
    ensures id in w.sent && w.st.readerErr.Some?
    ensures w.reader.Stopped? ==> w.sent[id] == [Failed(w.st.readerErr.value)]
    ensures CallerGot(w, id) ==> w.callers[id].outcome.result == Failed(w.st.readerErr.value)
  {
    assert PerRequest(w, id);
  }

  /**
    failFatal on an open station: from then on `pending` is empty for ever and no
    call is admitted; and when the reader has stopped, every request that was
    pending has been sent exactly one message, that error.
   */
  lemma FatalCloseDrains(w: World, steps: seq<Step>, w': World)
    requires Reachable(w) && w.reader.Failing? && !w.st.closed
    requires Runs(Next(w, FailFatal), steps, w')
    ensures w'.st.pending == map[] && w'.st.closed && w'.st.readerErr == Some(w.reader.error)
    ensures forall id, valid :: RegisterRefusal(w'.st, id, valid).Fail?
    ensures w'.reader.Stopped? ==> forall id | id in w.st.pending ::
              id in w'.sent && w'.sent[id] == [Failed(w.reader.error)]
    ensures forall id | id in w.st.pending && CallerGot(w', id) ::
              w'.callers[id].outcome.result == Failed(w.reader.error)
  {
    var v := Next(w, FailFatal);
    assert ReaderClosed(v) && v.drained == w.st.pending.Keys && v.st.pending == map[];
    DrainedForEver(v, steps, w');
    assert Inv(w') by {
      ReachableInv(w);
      StepKeepsInv(w, FailFatal);
      RunKeepsInv(v, steps, w');
    }
    forall id | id in w.st.pending
      ensures id in w'.sent && (w'.reader.Stopped? ==> w'.sent[id] == [Failed(w.reader.error)])
      ensures CallerGot(w', id) ==> w'.callers[id].outcome.result == Failed(w.reader.error)
    {
      DrainedRequestGotTheError(w', id);
    }
  }

  predicate CallerGot(w: World, id: string) {
    id in w.callers && w.callers[id].Done? && w.callers[id].outcome.Got?
  }

  /**
    After the reader has stopped, a waiting caller finds a message exactly when
    its request is no longer pending; the reader's own close leaves none pending.
   */
  lemma StoppedReaderLeavesNoOneWaiting(w: World, id: string)
    requires Reachable(w) && w.reader.Stopped? && CallerAt(w, id, Waiting)
    ensures Enabled(w, Receive(id)) <==> id !in w.st.pending
    ensures w.closedBy == Some(ByReader) ==> Enabled(w, Receive(id))
  {
    ReachableInv(w);
    assert PerRequest(w, id);
  }

  /** The reader is gone and has left nothing for this request. */
  predicate Stranded(w: World, id: string) {
    w.reader.Stopped? && w.st.closed && w.st.started && id in w.st.seen && id in w.inbox && w.inbox[id] == []
  }

  lemma StrandedStep(w: World, s: Step, id: string)
    requires Enabled(w, s) && Stranded(w, id)
    ensures Stranded(Next(w, s), id)
  {
  }

  lemma {:induction false} StaysStranded(w: World, steps: seq<Step>, w': World, id: string)
    requires Runs(w, steps, w') && Stranded(w, id)
    ensures Stranded(w', id)
    decreases |steps|
  {
    if steps != [] {
      StrandedStep(w, steps[0], id);
      StaysStranded(Next(w, steps[0]), steps[1..], w', id);
    }
  }

  /** A request still pending when the reader has stopped never receives a message, whatever happens next. */
  lemma PendingAfterStopIsStranded(w: World, steps: seq<Step>, w': World, id: string)
    requires Reachable(w) && w.reader.Stopped? && id in w.st.pending && Runs(w, steps, w')
    ensures !Enabled(w', Receive(id))
  {
    ReachableInv(w);
    assert PerRequest(w, id);
    StaysStranded(w, steps, w', id);
  }

  lemma NoSteps(w: World)
    ensures Runs(w, [], w)
  {
  }

  lemma ReachedBy(w: World, steps: seq<Step>)
    requires Runs(Opened, steps, w)
    ensures Reachable(w)
  {
  }

  lemma OneStep(w: World, step: Step, rest: seq<Step>, all: seq<Step>, w': World)
    requires Enabled(w, step) && Runs(Next(w, step), rest, w') && all == [step] + rest
    ensures Runs(w, all, w')
  {
    hide Next, Enabled;
    assert all[1..] == rest;
  }

  /**
    Close first, and failFatal then returns early: this caller waits for a message
    that no continuation ever sends.
   */
  lemma CloseCanStrandACaller(request: StationRequest) returns (w: World)
    ensures Reachable(w) && w.reader.Stopped? && w.closedBy == Some(ByClose)
    ensures CallerAt(w, "a", Waiting) && "a" in w.st.pending
    ensures forall steps, w' | Runs(w, steps, w') :: !Enabled(w', Receive("a"))
  {
    hide Runs, Reachable;
    var steps := [Register("a", request, true), WriteOk("a"), CloseStation, EndOfOutput, FailFatal];
    var w1 := Next(Opened, steps[0]);
    var w2 := Next(w1, steps[1]);
    var w3 := Next(w2, steps[2]);
    var w4 := Next(w3, steps[3]);
    w := Next(w4, steps[4]);
    NoSteps(w);
    OneStep(w4, steps[4], [], [steps[4]], w);
    OneStep(w3, steps[3], [steps[4]], [steps[3], steps[4]], w);
    OneStep(w2, steps[2], [steps[3], steps[4]], [steps[2], steps[3], steps[4]], w);
    OneStep(w1, steps[1], [steps[2], steps[3], steps[4]], [steps[1], steps[2], steps[3], steps[4]], w);
    OneStep(Opened, steps[0], [steps[1], steps[2], steps[3], steps[4]], steps, w);
    ReachedBy(w, steps);
    forall more, w' | Runs(w, more, w') ensures !Enabled(w', Receive("a")) {
      PendingAfterStopIsStranded(w, more, w', "a");
    }
  }
}
