/** The in-memory negotiation API: a map from session id to session, the
    create/get/delete handlers, and the streaming handler that runs the
    negotiation once and turns what it yields into server-sent events.
    The generated uuid, the configured API key, the clock and the
    completion service are parameters. */
module Sessions {
  import opened Common
  import opened Types
  import Agents
  import Negotiation

  /** The `sessions` map. */
  type SessionMap = map<string, NegotiationSession>

  /** Every session is stored under its own id. */
  predicate WellKeyed(s: SessionMap) {
    forall k :: k in s ==> s[k].id == k
  }

  // ---------------------------------------------------------------------
  // POST /negotiate

  /** The JSON body as received: any field may be missing. */
  datatype CreateBody = CreateBody(
    buyer_requirement: Option<string>,
    buyer_prompt: Option<string>,
    max_payment: Option<real>,
    seller_info: Option<string>,
    seller_proof: Option<string>,
    seller_prompt: Option<string>,
    model: Option<string>)

  /** The handler refuses a body whose requirement, info or budget is falsy. */
  predicate CreateBodyAccepted(body: CreateBody) {
    Truthy(body.buyer_requirement) && Truthy(body.seller_info) && TruthyNumber(body.max_payment)
  }

  const MissingFields: string := "Missing required fields: buyer_requirement, seller_info, max_payment"
  const NotFound: string := "Session not found"

  /** POST /negotiate: stores a fresh pending session under `id` (the
      generated uuid) holding the body as its request, and answers with the
      id; a body missing a required field is refused with 400 and nothing is
      stored. An existing entry under the same id is replaced. */
  function CreateSession(s: SessionMap, id: string, body: CreateBody, now: string): (r: (SessionMap, Response<string>))
    ensures !CreateBodyAccepted(body) ==> r.1 == Error(400, MissingFields) && r.0 == s
    ensures CreateBodyAccepted(body) ==> r.1 == Ok(id)
    ensures r.1.Ok? ==>
      && id in r.0
      && r.0[id].id == id && r.0[id].createdAt == now
      && r.0[id].status == SessionPending && r.0[id].messages == [] && r.0[id].outcome.None?
      && r.0[id].request.buyer_requirement == body.buyer_requirement.value
      && r.0[id].request.seller_info == body.seller_info.value
      && r.0[id].request.max_payment == body.max_payment.value
      && r.0[id].request.buyer_prompt == body.buyer_prompt
      && r.0[id].request.seller_proof == body.seller_proof
      && r.0[id].request.seller_prompt == body.seller_prompt
      && r.0[id].request.model == body.model
    // no other session is touched
    ensures forall k :: k != id ==> (k in r.0 <==> k in s) && (k in s ==> r.0[k] == s[k])
    ensures WellKeyed(s) ==> WellKeyed(r.0)
  {
    if !CreateBodyAccepted(body) then
      (s, Error(400, MissingFields))
    else
      var request := NegotiationRequest(body.buyer_requirement.value, body.buyer_prompt, body.max_payment.value,
        body.seller_info.value, body.seller_proof, body.seller_prompt, body.model);
      (s[id := NegotiationSession(id, request, [], SessionPending, None, now)], Ok(id))
  }

  // ---------------------------------------------------------------------
  // GET /negotiate/:id

  /** What the status endpoint shows of a session. */
  datatype SessionReply = SessionReply(
    id: string,
    status: SessionStatus,
    messages: seq<AgentMessage>,
    outcome: Option<NegotiationOutcome>)

  /** GET /negotiate/:id: the session's id, status, messages and outcome, or
      404 when there is no such session. */
  function GetSession(s: SessionMap, id: string): (r: Response<SessionReply>)
    ensures r.Error? <==> id !in s
    ensures r.Error? ==> r == Error(404, NotFound)
    ensures r.Ok? ==>
      && r.body.status == s[id].status && r.body.messages == s[id].messages
      && r.body.outcome == s[id].outcome
    ensures r.Ok? && WellKeyed(s) ==> r.body.id == id
  {
    if id !in s then Error(404, NotFound)
    else
      var session := s[id];
      Ok(SessionReply(session.id, session.status, session.messages, session.outcome))
  }

  /** A freshly created session reads back as pending, empty and undecided. */
  lemma GetAfterCreate(s: SessionMap, id: string, body: CreateBody, now: string)
    requires CreateBodyAccepted(body)
    ensures GetSession(CreateSession(s, id, body, now).0, id) == Ok(SessionReply(id, SessionPending, [], None))
  {
  }

  // ---------------------------------------------------------------------
  // GET /negotiate/:id/stream

  /** One server-sent event. */
  datatype SseEvent =
    | MessageSse(message: AgentMessage)
    | DoneSse(outcome: NegotiationOutcome)
    | ErrorSse(text: string)

  /** The stream handler's answer: a refusal before anything runs (with the
      stored outcome when the session is already completed), or the events
      of one run. */
  datatype StreamReply =
    | Refused(code: int, error: string, outcome: Option<NegotiationOutcome>)
    | Streamed(events: seq<SseEvent>)

  /** The fixed text in front of the error message of a failed run. */
  const ErrorPrefix: string := "Error during negotiation: "

  /** The outcome recorded when the run throws: a REJECT without a price
      whose reasoning is the fixed prefix followed by the error message. */
  function ErrorOutcome(message: string): (o: NegotiationOutcome)
    ensures o.decision == Reject && o.price.None?
    ensures o.reasoning == ErrorPrefix + message
  {
    NegotiationOutcome(Reject, None, ErrorPrefix + message)
  }

  /** The error message can be read back from the recorded outcome, so two
      different failures are never recorded alike. */
  lemma ErrorOutcomeKeepsMessage(message: string)
    ensures ErrorOutcome(message).reasoning[..|ErrorPrefix|] == ErrorPrefix
    ensures ErrorOutcome(message).reasoning[|ErrorPrefix|..] == message
  {
    assert (ErrorPrefix + message)[|ErrorPrefix|..] == message;
  }

  /** The guards of the stream handler, in order: unknown id, completed
      session, running session, missing API key. `None` lets the run start. */
  function StreamGuard(s: SessionMap, id: string, apiKey: Option<string>): (r: Option<StreamReply>)
    ensures r.None? <==> id in s && s[id].status == SessionPending && Truthy(apiKey)
    ensures id !in s ==> r == Some(Refused(404, NotFound, None))
    ensures id in s && s[id].status == SessionCompleted ==>
      r == Some(Refused(400, "Session already completed", s[id].outcome))
    ensures id in s && s[id].status == SessionRunning ==> r == Some(Refused(400, "Session already running", None))
    ensures id in s && s[id].status == SessionPending && !Truthy(apiKey) ==>
      r == Some(Refused(500, "PHALA_API_KEY not configured", None))
  {
    if id !in s then Some(Refused(404, NotFound, None))
    else if s[id].status == SessionCompleted then Some(Refused(400, "Session already completed", s[id].outcome))
    else if s[id].status == SessionRunning then Some(Refused(400, "Session already running", None))
    else if !Truthy(apiKey) then Some(Refused(500, "PHALA_API_KEY not configured", None))
    else assert s[id].status.SessionPending?; None
  }

  /** The synchronous part of the stream handler: the guards, then the
      status flip to `running` before the stream opens. Only a pending
      session moves to running, and nothing else changes. */
  function StartSession(s: SessionMap, id: string, apiKey: Option<string>): (r: (SessionMap, Option<StreamReply>))
    ensures r.1 == StreamGuard(s, id, apiKey)
    ensures r.1.Some? ==> r.0 == s
    ensures r.1.None? ==>
      && id in s && s[id].status == SessionPending
      && id in r.0 && r.0[id] == s[id].(status := SessionRunning)
    ensures forall k :: (k in r.0 <==> k in s) && (k in s && k != id ==> r.0[k] == s[k])
    ensures forall k :: k in s && r.0[k].status == SessionRunning ==>
      s[k].status == SessionRunning || (k == id && s[k].status == SessionPending)
  {
    match StreamGuard(s, id, apiKey)
    case Some(refusal) => (s, Some(refusal))
    case None => (s[id := s[id].(status := SessionRunning)], None)
  }

  /** The event written for an item the run yields. */
  function SseOf(e: Negotiation.Event): SseEvent {
    match e
    case MessageEvent(m) => MessageSse(m)
    case OutcomeEvent(o) => DoneSse(o)
  }

  /** The messages carried by a run of message events. */
  function MessagesOf(events: seq<SseEvent>): (msgs: seq<AgentMessage>)
    requires forall i :: 0 <= i < |events| ==> events[i].MessageSse?
    ensures |msgs| == |events|
    ensures forall i :: 0 <= i < |events| ==> events[i] == MessageSse(msgs[i])
  {
    seq(|events|, i requires 0 <= i < |events| => events[i].message)
  }

  /** The events written for a run: what the run yields, each as its event,
      followed by an `error` event if the run threw. */
  function StreamEvents(msgs: seq<AgentMessage>, outcome: Option<NegotiationOutcome>, error: Option<string>)
    : (events: seq<SseEvent>)
    requires outcome.Some? <==> error.None?
    ensures |events| == |msgs| + 1
    ensures forall i :: 0 <= i < |msgs| ==> events[i] == MessageSse(msgs[i])
    ensures outcome.Some? ==> events[|msgs|] == DoneSse(outcome.value)
    ensures error.Some? ==> events[|msgs|] == ErrorSse(error.value)
  {
    var yielded := Negotiation.Yielded(msgs, outcome);
    var written := seq(|yielded|, i requires 0 <= i < |yielded| => SseOf(yielded[i]));
    if error.Some? then written + [ErrorSse(error.value)] else written
  }

  /** The closing events of a stream carry the messages of the run. */
  lemma ClosingEventSplits(msgs: seq<AgentMessage>, outcome: Option<NegotiationOutcome>, error: Option<string>)
    requires outcome.Some? <==> error.None?
    ensures var events := StreamEvents(msgs, outcome, error);
      && (forall i :: 0 <= i < |events| - 1 ==> events[i].MessageSse?)
      && MessagesOf(events[..|events| - 1]) == msgs
  {
    var events := StreamEvents(msgs, outcome, error);
    assert forall i :: 0 <= i < |msgs| ==> events[..|msgs|][i] == MessageSse(msgs[i]);
  }

  /** The session once the stream is over: as the run left it, or, after a
      throw, completed with the error REJECT. */
  function SessionAfterRun(run: Negotiation.Run): (session: NegotiationSession)
    requires run.outcome.Some? <==> run.error.None?
    requires run.outcome.Some? ==> run.session.status == SessionCompleted && run.session.outcome == run.outcome
    ensures session.status == SessionCompleted
    ensures run.outcome.Some? ==> session == run.session
    ensures run.error.Some? ==> session == run.session.(status := SessionCompleted, outcome := Some(ErrorOutcome(run.error.value)))
  {
    if run.error.Some? then run.session.(status := SessionCompleted, outcome := Some(ErrorOutcome(run.error.value)))
    else run.session
  }

  /** GET /negotiate/:id/stream: after the guards, marks the session running
      and runs the negotiation on it. Every yielded message becomes a
      `message` event and is kept in the session; the outcome becomes a
      `done` event. If the run throws, an `error` event ends the stream and
      the session is completed with an error REJECT. Either way a session
      that was streamed ends completed with an outcome, so it can never be
      streamed again. */
  method StreamSession(s: SessionMap, id: string, apiKey: Option<string>,
                       sellerAnswers: nat -> Agents.Completion, buyerAnswers: nat -> Agents.Completion,
                       clock: nat -> string, fmt: real -> string)
    returns (s': SessionMap, r: StreamReply)
    ensures StreamGuard(s, id, apiKey).Some? ==> r == StreamGuard(s, id, apiKey).value && s' == s
    ensures r.Streamed? <==> StreamGuard(s, id, apiKey).None?
    // only the streamed session changes
    ensures r.Streamed? ==> id in s' && s' == s[id := s'[id]]
    ensures r.Streamed? ==>
      && s'[id].id == s[id].id && s'[id].request == s[id].request && s'[id].createdAt == s[id].createdAt
      && s'[id].status == SessionCompleted && s'[id].outcome.Some?
    // message events first, then exactly one closing event
    ensures r.Streamed? ==>
      && 0 < |r.events| <= Negotiation.MaxTurns + 2
      && (forall i :: 0 <= i < |r.events| - 1 ==> r.events[i].MessageSse?)
      && !r.events[|r.events| - 1].MessageSse?
    ensures r.Streamed? ==>
      var msgs := MessagesOf(r.events[..|r.events| - 1]);
      && s'[id].messages == s[id].messages + msgs
      && Negotiation.FromAnswers(msgs, sellerAnswers, buyerAnswers, clock)
    // the closing event reports the recorded outcome
    ensures r.Streamed? && r.events[|r.events| - 1].DoneSse? ==>
      s'[id].outcome == Some(r.events[|r.events| - 1].outcome)
    ensures r.Streamed? && r.events[|r.events| - 1].ErrorSse? ==>
      s'[id].outcome == Some(ErrorOutcome(r.events[|r.events| - 1].text))
    // a second stream of the same session is refused
    ensures r.Streamed? ==>
      forall key :: StreamGuard(s', id, key) == Some(Refused(400, "Session already completed", s'[id].outcome))
    ensures WellKeyed(s) ==> WellKeyed(s')
  {
    var (started, refusal) := StartSession(s, id, apiKey);
    if refusal.Some? {
      return s, refusal.value;
    }
    var run := Negotiation.RunNegotiation(started[id], sellerAnswers, buyerAnswers, clock, fmt);
    s', r := FinishStream(s, id, apiKey, run, sellerAnswers, buyerAnswers, clock);
  }

  /** The stream once the run is over: its events, and the session as the
      run left it. */
  method FinishStream(s: SessionMap, id: string, apiKey: Option<string>, run: Negotiation.Run,
                      sellerAnswers: nat -> Agents.Completion, buyerAnswers: nat -> Agents.Completion,
                      clock: nat -> string)
    returns (s': SessionMap, r: StreamReply)
    requires StreamGuard(s, id, apiKey).None?
    requires var started := StartSession(s, id, apiKey).0[id];
      run.session == started.(messages := started.messages + run.messages,
                              status := run.session.status, outcome := run.session.outcome)
    requires run.outcome.Some? <==> run.error.None?
    requires run.outcome.Some? ==> run.session.status == SessionCompleted && run.session.outcome == run.outcome
    requires |run.messages| <= Negotiation.MaxTurns + 1
    requires Negotiation.FromAnswers(run.messages, sellerAnswers, buyerAnswers, clock)
    ensures r.Streamed? <==> StreamGuard(s, id, apiKey).None?
    // only the streamed session changes
    ensures r.Streamed? ==> id in s' && s' == s[id := s'[id]]
    ensures r.Streamed? ==>
      && s'[id].id == s[id].id && s'[id].request == s[id].request && s'[id].createdAt == s[id].createdAt
      && s'[id].status == SessionCompleted && s'[id].outcome.Some?
    // message events first, then exactly one closing event
    ensures r.Streamed? ==>
      && 0 < |r.events| <= Negotiation.MaxTurns + 2
      && (forall i :: 0 <= i < |r.events| - 1 ==> r.events[i].MessageSse?)
      && !r.events[|r.events| - 1].MessageSse?
    ensures r.Streamed? ==>
      var msgs := MessagesOf(r.events[..|r.events| - 1]);
      && s'[id].messages == s[id].messages + msgs
      && Negotiation.FromAnswers(msgs, sellerAnswers, buyerAnswers, clock)
    // the closing event reports the recorded outcome
    ensures r.Streamed? && r.events[|r.events| - 1].DoneSse? ==>
      s'[id].outcome == Some(r.events[|r.events| - 1].outcome)
    ensures r.Streamed? && r.events[|r.events| - 1].ErrorSse? ==>
      s'[id].outcome == Some(ErrorOutcome(r.events[|r.events| - 1].text))
    // a second stream of the same session is refused
    ensures r.Streamed? ==>
      forall key :: StreamGuard(s', id, key) == Some(Refused(400, "Session already completed", s'[id].outcome))
    ensures WellKeyed(s) ==> WellKeyed(s')
  {
    var events := StreamEvents(run.messages, run.outcome, run.error);
    ClosingEventSplits(run.messages, run.outcome, run.error);
    var final := SessionAfterRun(run);
    s' := s[id := final];
    r := Streamed(events);
  }

  // ---------------------------------------------------------------------
  // DELETE /negotiate/:id

  /** DELETE /negotiate/:id: removes the session, or answers 404 when there
      is none. */
  function DeleteSession(s: SessionMap, id: string): (r: (SessionMap, Response<bool>))
    ensures r.1.Ok? <==> id in s
    ensures r.1.Ok? ==> r.1.body
    ensures r.1.Error? ==> r.1 == Error(404, NotFound) && r.0 == s
    ensures id !in r.0
    ensures forall k :: k != id ==> (k in r.0 <==> k in s) && (k in s ==> r.0[k] == s[k])
    ensures WellKeyed(s) ==> WellKeyed(r.0)
  {
    if id in s then (s - {id}, Ok(true)) else (s, Error(404, NotFound))
  }

  /** A deleted session is gone: reading it and deleting it again both
      answer 404. */
  lemma GoneAfterDelete(s: SessionMap, id: string)
    ensures var s' := DeleteSession(s, id).0;
      && GetSession(s', id) == Error(404, NotFound)
      && DeleteSession(s', id).1 == Error(404, NotFound)
      && StreamGuard(s', id, None) == Some(Refused(404, NotFound, None))
  {
  }

  /** A freshly created session can be streamed once a key is configured. */
  lemma CreatedSessionStreams(s: SessionMap, id: string, body: CreateBody, now: string, apiKey: Option<string>)
    requires CreateBodyAccepted(body) && Truthy(apiKey)
    ensures StreamGuard(CreateSession(s, id, body, now).0, id, apiKey).None?
  {
  }
}
