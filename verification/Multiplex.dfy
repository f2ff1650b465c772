/**
  The request-correlated station multiplexer (internal/lifetrastation/multiplex.go).

  `MultiplexProcess` is the shared object: each method is one mutex section of
  the source, or a loop of channel sends, and is proved against a function on
  `Station`, the object's abstract value.
 */
module Multiplex {
  import opened Common
  import opened Bridge

  const ResponseEnvelopeProtocol := "lifetra.station.response-envelope.v0.2"
  const MuxErrorProtocol := "lifetra.station.error.v0.2"

  datatype MuxError =
    | CommandRequired | AlreadyStarted | LaunchFailed
    | ClosedAfter(reason: MuxError) | Closed | NotStarted | RequestIdRequired | InvalidRequest | RequestIdReused
    | UndecodableHeader | Unbound(protocol: string) | UnknownRequestId(id: string) | OutputClosed
    | UndecodableEnvelope | TrailingInput | EnvelopeIdMismatch | Unbindable(why: BridgeError)
    | StationError(text: string) | UnspecifiedStationError | UnexpectedProtocol(protocol: string)

  /** What travels on a caller's capacity-1 result channel. */
  datatype MuxResult = Delivered(decision: Decision) | Failed(error: MuxError)

  datatype ResponseEnvelope = ResponseEnvelope(requestId: string, decision: Decision)

  /** Strict decoding of one line: wrong shape, more than one JSON value, or a value. */
  datatype Strict<+T> = BadShape | Trailing | Value(value: T)

  /** One output line: its lenient header, and what each strict decoder makes of it. */
  datatype Line =
    | Garbled
    | Line(protocol: string, requestId: string, response: Strict<ResponseEnvelope>, failure: Strict<string>)

  datatype Station = Station(
    started: bool, closed: bool, readerErr: Option<MuxError>,
    pending: map<string, StationRequest>, seen: set<string>, abandoned: set<string>)

  // ---- the mutex sections, as functions on the abstract value ----

  /** First section of Evaluate: why registration is refused, if it is. */
  function RegisterRefusal(s: Station, id: string, valid: bool): Outcome<MuxError> {
    if id == "" then Fail(RequestIdRequired)
    else if !valid then Fail(InvalidRequest)
    else if !s.started then Fail(NotStarted)
    else if s.closed then
      (if s.readerErr.Some? then Fail(ClosedAfter(s.readerErr.value)) else Fail(Closed))
    else if id in s.seen then Fail(RequestIdReused)
    else Pass
  }

  function Registered(s: Station, id: string, request: StationRequest): Station {
    s.(seen := s.seen + {id}, pending := s.pending[id := request])
  }

  function PendingRemoved(s: Station, id: string, abandon: bool): Station {
    if id !in s.pending then s
    else s.(pending := s.pending - {id}, abandoned := if abandon then s.abandoned + {id} else s.abandoned)
  }

  /** What the dispatcher does after its mutex section. */
  datatype Dispatch = Ignore | Fatal(error: MuxError) | Answer(id: string, result: MuxResult)

  function Dispatched(s: Station, line: Line): Station {
    if line.Garbled? then s
    else if line.requestId in s.abandoned then s.(abandoned := s.abandoned - {line.requestId})
    else s.(pending := s.pending - {line.requestId})
  }

  function DispatchOf(s: Station, line: Line): Dispatch {
    if line.Garbled? then Fatal(UndecodableHeader)
    else if line.requestId in s.abandoned then Ignore
    else if line.requestId == "" then Fatal(Unbound(line.protocol))
    else if line.requestId !in s.pending then Fatal(UnknownRequestId(line.requestId))
    else Answer(line.requestId, ResultOf(line, s.pending[line.requestId]))
  }

  /** The message a matched line produces for the request that was waiting. */
  function ResultOf(line: Line, request: StationRequest): MuxResult
    requires line.Line?
  {
    if line.protocol == ResponseEnvelopeProtocol then
      match line.response
      case BadShape => Failed(UndecodableEnvelope)
      case Trailing => Failed(TrailingInput)
      case Value(envelope) =>
        if envelope.requestId != line.requestId then Failed(EnvelopeIdMismatch)
        else
          match ValidateBinding(request, envelope.decision)
          case Fail(why) => Failed(Unbindable(why))
          case Pass => Delivered(envelope.decision)
    else if line.protocol == MuxErrorProtocol then
      match line.failure
      case BadShape => Failed(UndecodableEnvelope)
      case Trailing => Failed(TrailingInput)
      case Value(text) => Failed(if text == "" then UnspecifiedStationError else StationError(text))
    else Failed(UnexpectedProtocol(line.protocol))
  }

  function FatallyClosed(s: Station, err: MuxError): Station {
    if s.closed then s else s.(closed := true, readerErr := Some(err), pending := map[])
  }

  /** A message carries a decision exactly when the line is a well-formed response under its own id that answers. */
  lemma DeliveredIsBound(line: Line, request: StationRequest)
    requires line.Line?
    ensures ResultOf(line, request).Delivered? <==>
              && line.protocol == ResponseEnvelopeProtocol
              && line.response.Value?
              && line.response.value.requestId == line.requestId
              && Answers(request, line.response.value.decision)
    ensures ResultOf(line, request).Delivered? ==> ResultOf(line, request).decision == line.response.value.decision
  {
    if line.response.Value? { BindsIffAnswers(request, line.response.value.decision); }
  }

  /** A line that carries no decision becomes the error it reports, or the reason it is none. */
  lemma FailureIs(line: Line, request: StationRequest)
    requires line.Line?
    ensures line.protocol == MuxErrorProtocol && line.failure.Value? ==>
              ResultOf(line, request) ==
              Failed(if line.failure.value == "" then UnspecifiedStationError else StationError(line.failure.value))
    ensures line.protocol == MuxErrorProtocol && !line.failure.Value? ==>
              ResultOf(line, request) in {Failed(UndecodableEnvelope), Failed(TrailingInput)}
    ensures line.protocol != MuxErrorProtocol && line.protocol != ResponseEnvelopeProtocol ==>
              ResultOf(line, request) == Failed(UnexpectedProtocol(line.protocol))
    ensures line.protocol == ResponseEnvelopeProtocol && line.response.Value? ==>
              line.response.value.requestId != line.requestId ==> ResultOf(line, request) == Failed(EnvelopeIdMismatch)
  {
  }

  /** Why a call is refused: the first of these that holds. */
  lemma RefusalsInOrder(s: Station, id: string, valid: bool)
    ensures var r := RegisterRefusal(s, id, valid);
            && (id == "" ==> r == Fail(RequestIdRequired))
            && (id != "" && !valid ==> r == Fail(InvalidRequest))
            && (id != "" && valid && !s.started ==> r == Fail(NotStarted))
            && (id != "" && valid && s.started && s.closed ==>
                  r == Fail(match s.readerErr case None => Closed case Some(why) => ClosedAfter(why)))
            && (id != "" && valid && s.started && !s.closed && id in s.seen ==> r == Fail(RequestIdReused))
  {
  }

  /** The shared station object.  Methods run with the mutex held; channel buffers are kept per request id. */
  class MultiplexProcess {
    var started: bool
    var closed: bool
    var readerErr: Option<MuxError>
    var pending: map<string, StationRequest>
    var seen: set<string>
    var abandoned: set<string>
    var channels: map<string, seq<MuxResult>>

    function View(): Station
      reads this
    {
      Station(started, closed, readerErr, pending, seen, abandoned)
    }

    constructor ()
      ensures View() == Station(false, false, None, map[], {}, {}) && channels == map[]
    {
      started, closed, readerErr := false, false, None;
      pending, seen, abandoned, channels := map[], {}, {}, map[];
    }

    /** `launches`: the pipes are opened and the command is started. */
    method Start(command: string, launches: bool) returns (r: Outcome<MuxError>)
      modifies this
      ensures r == if command == "" then Fail(CommandRequired)
                   else if old(started) then Fail(AlreadyStarted)
                   else if !launches then Fail(LaunchFailed) else Pass
      ensures View() == if r.Fail? then old(View())
                        else old(View()).(started := true, pending := map[], seen := {}, abandoned := {})
      ensures channels == old(channels)
    {
      if command == "" { return Fail(CommandRequired); }
      if started { return Fail(AlreadyStarted); }
      if !launches { return Fail(LaunchFailed); }
      started := true;
      pending, seen, abandoned := map[], {}, {};
      return Pass;
    }

    method Register(id: string, request: StationRequest, valid: bool) returns (r: Outcome<MuxError>)
      modifies this
      ensures r.Pass? <==> id != "" && valid && old(started) && !old(closed) && id !in old(seen)
      ensures r == old(RegisterRefusal(View(), id, valid))
      ensures r.Fail? ==> View() == old(View()) && channels == old(channels)
      ensures r.Pass? ==> View() == Registered(old(View()), id, request) && channels == old(channels)[id := []]
    {
      if id == "" { return Fail(RequestIdRequired); }
      if !valid { return Fail(InvalidRequest); }
      if !started { return Fail(NotStarted); }
      if closed {
        if readerErr.Some? { return Fail(ClosedAfter(readerErr.value)); }
        return Fail(Closed);
      }
      if id in seen { return Fail(RequestIdReused); }
      seen := seen + {id};
      pending := pending[id := request];
      channels := channels[id := []];
      return Pass;
    }

    method RemovePending(id: string, abandon: bool)
      modifies this
      ensures View() == PendingRemoved(old(View()), id, abandon) && channels == old(channels)
    {
      if id in pending {
        pending := pending - {id};
        if abandon {
          abandoned := abandoned + {id};
        }
      }
    }

    /** dispatchLine up to the channel send: classification and the mutex section. */
    method DispatchLine(line: Line) returns (d: Dispatch)
      modifies this
      ensures d == DispatchOf(old(View()), line)
      ensures View() == Dispatched(old(View()), line) && channels == old(channels)
    {
      if line.Garbled? { return Fatal(UndecodableHeader); }
      if line.requestId in abandoned {
        abandoned := abandoned - {line.requestId};
        return Ignore;
      }
      var entry: Option<StationRequest> := None;
      if line.requestId in pending {
        entry := Some(pending[line.requestId]);
      }
      pending := pending - {line.requestId};
      if line.requestId == "" { return Fatal(Unbound(line.protocol)); }
      if entry.None? { return Fatal(UnknownRequestId(line.requestId)); }
      var result := Decode(line, entry.value);
      return Answer(line.requestId, result);
    }

    /**
      A decision comes out exactly of a well-formed response under its own id that
      is bound to the request, and then it answers that request; any other line
      becomes an error for the same caller.
     */
    static method Decode(line: Line, request: StationRequest) returns (result: MuxResult)
      requires line.Line?
      ensures result == ResultOf(line, request)
      ensures result.Delivered? <==>
                && line.protocol == ResponseEnvelopeProtocol && line.response.Value?
                && line.response.value.requestId == line.requestId
                && Answers(request, line.response.value.decision)
      ensures result.Delivered? ==> result.decision == line.response.value.decision
    {
      DeliveredIsBound(line, request);
      if line.protocol == ResponseEnvelopeProtocol {
        if line.response.BadShape? { return Failed(UndecodableEnvelope); }
        if line.response.Trailing? { return Failed(TrailingInput); }
        var envelope := line.response.value;
        if envelope.requestId != line.requestId { return Failed(EnvelopeIdMismatch); }
        var bound := ValidateBinding(request, envelope.decision);
        if bound.Fail? { return Failed(Unbindable(bound.error)); }
        return Delivered(envelope.decision);
      } else if line.protocol == MuxErrorProtocol {
        if line.failure.BadShape? { return Failed(UndecodableEnvelope); }
        if line.failure.Trailing? { return Failed(TrailingInput); }
        var text := line.failure.value;
        if text == "" { return Failed(UnspecifiedStationError); }
        return Failed(StationError(text));
      }
      return Failed(UnexpectedProtocol(line.protocol));
    }

    /** failFatal: closes an open station once, then sends the error to every request it took out of `pending`. */
    method FailFatal(err: MuxError)
      requires pending.Keys <= channels.Keys
      modifies this
      ensures View() == FatallyClosed(old(View()), err)
      ensures old(closed) ==> View() == old(View())
      ensures !old(closed) ==> closed && readerErr == Some(err) && pending == map[]
      ensures channels.Keys == old(channels).Keys
      ensures forall id | id in channels ::
                channels[id] == old(channels)[id] + (if !old(closed) && id in old(pending) then [Failed(err)] else [])
    {
      if closed { return; }
      closed := true;
      readerErr := Some(err);
      var drained := pending;
      pending := map[];
      var left := drained.Keys;
      while left != {}
        invariant left <= drained.Keys
        invariant View() == FatallyClosed(old(View()), err)
        invariant channels.Keys == old(channels).Keys
        invariant forall id | id in channels ::
                    channels[id] == old(channels)[id] + (if id in drained && id !in left then [Failed(err)] else [])
        decreases |left|
      {
        var id :| id in left;
        channels := channels[id := channels[id] + [Failed(err)]];
        left := left - {id};
      }
    }

    /** The mutex section of Close: it marks the station closed and leaves `pending` alone. */
    method Close()
      modifies this
      ensures View() == if old(started) then old(View()).(closed := true) else old(View())
      ensures channels == old(channels)
    {
      if !started { return; }
      closed := true;
    }
  }
}
