/** The records the system stores and exchanges: negotiation instances with
    their status, transcript rows, decisions, and the request/session/message
    shapes of the in-memory negotiation variant. */
module Types {
  import opened Common

  /** Lifecycle status of an instance. */
  datatype InstanceStatus = Created | Committed | Running | Completed | Failed

  /** A terminal decision of the buyer. */
  datatype Decision = Accept | Reject

  /** One negotiation unit as stored in the `instances` table. Absent columns
      (SQL NULL) are `None`. */
  datatype Instance = Instance(
    id: string,
    status: InstanceStatus,
    // buyer side, set at creation
    buyer_address: string,
    buyer_requirement: string,
    buyer_prompt: Option<string>,
    max_payment: real,
    // seller side, set at commit
    seller_address: Option<string>,
    seller_info: Option<string>,
    seller_proof: Option<string>,
    seller_prompt: Option<string>,
    // run configuration
    model: string,
    max_turns: int,
    // outcome
    outcome: Option<Decision>,
    final_price: Option<real>,
    outcome_reasoning: Option<string>,
    // timestamps (ISO-8601 text)
    created_at: string,
    committed_at: Option<string>,
    started_at: Option<string>,
    completed_at: Option<string>)

  /** Body accepted when a buyer creates an instance. */
  datatype CreateInstanceInput = CreateInstanceInput(
    buyer_requirement: string,
    buyer_prompt: Option<string>,
    max_payment: real,
    model: Option<string>,
    max_turns: Option<int>)

  /** Body accepted when a seller commits to an instance. */
  datatype CommitInstanceInput = CommitInstanceInput(
    seller_info: string,
    seller_proof: string,
    seller_prompt: Option<string>)

  /** Which side authored a transcript entry. */
  datatype Agent = BuyerSide | SellerSide

  /** One persisted transcript row of the `messages` table. */
  datatype Message = Message(
    id: int,
    instance_id: string,
    turn: int,
    agent: Agent,
    content: string,
    created_at: string)

  /** The decision that ends a negotiation; `price` only accompanies ACCEPT
      when produced by the decision parser. */
  datatype NegotiationOutcome = NegotiationOutcome(decision: Decision, price: Option<real>, reasoning: string)

  /** The request body of the in-memory variant; the three fields the create
      handler insists on are plain values, everything else may be absent. */
  datatype NegotiationRequest = NegotiationRequest(
    buyer_requirement: string,
    buyer_prompt: Option<string>,
    max_payment: real,
    seller_info: string,
    seller_proof: Option<string>,
    seller_prompt: Option<string>,
    model: Option<string>)

  /** One message yielded by the negotiation loop. */
  datatype AgentMessage = AgentMessage(turn: int, agent: Agent, content: string, timestamp: string)

  /** "pending", "running" and "completed" of the in-memory variant. */
  datatype SessionStatus = SessionPending | SessionRunning | SessionCompleted

  /** A negotiation session of the in-memory variant. */
  datatype NegotiationSession = NegotiationSession(
    id: string,
    request: NegotiationRequest,
    messages: seq<AgentMessage>,
    status: SessionStatus,
    outcome: Option<NegotiationOutcome>,
    createdAt: string)

  /** The text the source uses for each status. */
  function StatusName(s: InstanceStatus): string {
    match s
    case Created => "created"
    case Committed => "committed"
    case Running => "running"
    case Completed => "completed"
    case Failed => "failed"
  }

  /** Recognises one of the five status names, exactly as written. */
  function ParseStatus(t: string): (r: Option<InstanceStatus>)
    ensures r.Some? ==> StatusName(r.value) == t
  {
    if t == "created" then Some(Created)
    else if t == "committed" then Some(Committed)
    else if t == "running" then Some(Running)
    else if t == "completed" then Some(Completed)
    else if t == "failed" then Some(Failed)
    else None
  }

  /** Every status name is recognised as that status. */
  lemma StatusNameRoundTrip(s: InstanceStatus)
    ensures ParseStatus(StatusName(s)) == Some(s)
  {
  }
}
