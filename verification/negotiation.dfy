/** The negotiation turn loop. The seller opens; then, while fewer than ten
    turns have been played, the buyer answers the latest seller message and,
    unless the buyer's answer carries a decision, the seller answers it.
    Every message is appended to the session before it is yielded. Without a
    decision the run ends with a turn-limit REJECT after eleven messages.

    The answers of the completion service are oracles: `sellerAnswers(k)` is
    the answer to the seller's k-th call (0 being the opening) and
    `buyerAnswers(k)` the answer to the buyer's k-th call. `clock(t)` is the
    timestamp given to the message of turn `t`. */
module Negotiation {
  import opened Common
  import opened Types
  import opened Agents
  import DecisionParser

  const MaxTurns: nat := 10
  const TurnLimitReasoning: string := "Maximum negotiation turns reached without agreement"

  /** An item the run yields: a message, or the final outcome. */
  datatype Event = MessageEvent(message: AgentMessage) | OutcomeEvent(outcome: NegotiationOutcome)

  /** The result of a run: the session afterwards, the messages produced (in
      order), the outcome yielded last, or the error that ended the run, and
      both agents' final state. */
  datatype Run = Run(
    session: NegotiationSession,
    messages: seq<AgentMessage>,
    outcome: Option<NegotiationOutcome>,
    error: Option<string>,
    buyer: Buyer,
    seller: Seller)

  /** The outcome forced when the turn limit is reached. */
  function TurnLimitOutcome(): NegotiationOutcome {
    NegotiationOutcome(Reject, None, TurnLimitReasoning)
  }

  /** The side speaking at turn `t` (turns count from 1). */
  function SpeakerOf(t: nat): Agent {
    if t % 2 == 1 then SellerSide else BuyerSide
  }

  /** The service answer behind the message at index `i` (turn `i + 1`). */
  function AnswerFor(i: nat, sellerAnswers: nat -> Completion, buyerAnswers: nat -> Completion): Completion {
    if i % 2 == 0 then sellerAnswers(i / 2) else buyerAnswers(i / 2)
  }

  /** The messages are the answers of the oracles in turn order: message `i`
      has turn `i + 1`, the side of that turn, the streamed text of its
      answer and the clock's time. */
  predicate FromAnswers(msgs: seq<AgentMessage>, sellerAnswers: nat -> Completion, buyerAnswers: nat -> Completion,
                        clock: nat -> string)
  {
    forall i :: 0 <= i < |msgs| ==>
      && AnswerFor(i, sellerAnswers, buyerAnswers).Stream?
      && msgs[i] == AgentMessage(i + 1, SpeakerOf(i + 1),
                                 StreamText(AnswerFor(i, sellerAnswers, buyerAnswers).chunks), clock(i + 1))
  }

  /** The buyer's decision parser for a given budget. */
  function Decider(maxPayment: real, fmt: real -> string): string -> Option<NegotiationOutcome> {
    content => DecisionParser.ParseDecision(content, maxPayment, fmt)
  }

  /** None of the buyer messages among the first `n` carries a decision. */
  predicate Undecided(msgs: seq<AgentMessage>, n: nat, decide: string -> Option<NegotiationOutcome>)
    requires n <= |msgs|
  {
    forall i :: 0 <= i < n && i % 2 == 1 ==> decide(msgs[i].content).None?
  }

  /** How the buyer sees message `i`: seller messages as tagged user turns,
      its own as assistant turns. */
  function BuyerEntry(m: AgentMessage, i: nat): ChatMessage {
    if i % 2 == 0 then ChatMessage(User, SellerTag + m.content) else ChatMessage(Assistant, m.content)
  }

  /** How the seller sees message `i`: its own as assistant turns, buyer
      messages as tagged user turns. */
  function SellerEntry(m: AgentMessage, i: nat): ChatMessage {
    if i % 2 == 0 then ChatMessage(Assistant, m.content) else ChatMessage(User, BuyerTag + m.content)
  }

  /** `h` is the buyer's view of the first `|h|` messages. */
  predicate BuyerSaw(h: seq<ChatMessage>, msgs: seq<AgentMessage>) {
    |h| <= |msgs| && forall i :: 0 <= i < |h| ==> h[i] == BuyerEntry(msgs[i], i)
  }

  /** `h` is the seller's view of the first `|h|` messages. */
  predicate SellerSaw(h: seq<ChatMessage>, msgs: seq<AgentMessage>) {
    |h| <= |msgs| && forall i :: 0 <= i < |h| ==> h[i] == SellerEntry(msgs[i], i)
  }

  /** What the run yields, in order. */
  function Yielded(msgs: seq<AgentMessage>, outcome: Option<NegotiationOutcome>): (r: seq<Event>)
    ensures |r| == |msgs| + (if outcome.Some? then 1 else 0)
    ensures forall i :: 0 <= i < |msgs| ==> r[i] == MessageEvent(msgs[i])
    ensures outcome.Some? ==> r[|r| - 1] == OutcomeEvent(outcome.value)
  {
    if |msgs| == 0 then (match outcome case Some(o) => [OutcomeEvent(o)] case None => [])
    else [MessageEvent(msgs[0])] + Yielded(msgs[1..], outcome)
  }

  /** A finished run yields exactly one outcome, and yields it last. */
  lemma OutcomeYieldedOnceAndLast(msgs: seq<AgentMessage>, o: NegotiationOutcome)
    ensures var ev := Yielded(msgs, Some(o));
      && ev[|ev| - 1] == OutcomeEvent(o)
      && forall i :: 0 <= i < |ev| - 1 ==> ev[i].MessageEvent?
  {
  }

  // ---------------------------------------------------------------------
  // The step facts the loop relies on

  /** Turns alternate: the successor of an odd count is even and vice versa. */
  lemma NextParity(n: nat)
    ensures (n + 1) % 2 == (if n % 2 == 0 then 1 else 0)
    ensures n > 0 ==> (n - 1) % 2 == (if n % 2 == 0 then 1 else 0)
  {
  }

  /** The buyer's view grows by the entry for the next message. */
  lemma BuyerSawGrows(h: seq<ChatMessage>, msgs: seq<AgentMessage>, x: ChatMessage)
    requires BuyerSaw(h, msgs) && |h| < |msgs| && x == BuyerEntry(msgs[|h|], |h|)
    ensures BuyerSaw(h + [x], msgs)
  {
    var h' := h + [x];
    forall i | 0 <= i < |h'| ensures h'[i] == BuyerEntry(msgs[i], i) {
      if i < |h| {
        assert h'[i] == h[i];
      }
    }
  }

  /** The seller's view grows by the entry for the next message. */
  lemma SellerSawGrows(h: seq<ChatMessage>, msgs: seq<AgentMessage>, x: ChatMessage)
    requires SellerSaw(h, msgs) && |h| < |msgs| && x == SellerEntry(msgs[|h|], |h|)
    ensures SellerSaw(h + [x], msgs)
  {
    var h' := h + [x];
    forall i | 0 <= i < |h'| ensures h'[i] == SellerEntry(msgs[i], i) {
      if i < |h| {
        assert h'[i] == h[i];
      }
    }
  }

  /** A view of all messages stays a view when a message is appended. */
  lemma SawAppend(hb: seq<ChatMessage>, hs: seq<ChatMessage>, msgs: seq<AgentMessage>, m: AgentMessage)
    requires BuyerSaw(hb, msgs) && SellerSaw(hs, msgs)
    ensures BuyerSaw(hb, msgs + [m]) && SellerSaw(hs, msgs + [m])
  {
    var msgs' := msgs + [m];
    assert forall i :: 0 <= i < |msgs| ==> msgs'[i] == msgs[i];
  }

  /** The oracle reading extends by one message. */
  lemma FromAnswersExtends(msgs: seq<AgentMessage>, sa: nat -> Completion, ba: nat -> Completion, clock: nat -> string,
                           m: AgentMessage)
    requires FromAnswers(msgs, sa, ba, clock)
    requires AnswerFor(|msgs|, sa, ba).Stream?
    requires m == AgentMessage(|msgs| + 1, SpeakerOf(|msgs| + 1), StreamText(AnswerFor(|msgs|, sa, ba).chunks), clock(|msgs| + 1))
    ensures FromAnswers(msgs + [m], sa, ba, clock)
  {
    var msgs' := msgs + [m];
    assert forall i :: 0 <= i < |msgs| ==> msgs'[i] == msgs[i];
  }

  /** Appending a message keeps earlier buyer messages undecided; a seller
      message, or an undecided buyer message, keeps them all undecided. */
  lemma UndecidedAppend(msgs: seq<AgentMessage>, m: AgentMessage, decide: string -> Option<NegotiationOutcome>)
    requires Undecided(msgs, |msgs|, decide)
    ensures Undecided(msgs + [m], |msgs|, decide)
    ensures (|msgs| % 2 == 0 || decide(m.content).None?) ==> Undecided(msgs + [m], |msgs| + 1, decide)
  {
    var msgs' := msgs + [m];
    assert forall i :: 0 <= i < |msgs| ==> msgs'[i] == msgs[i];
    assert msgs'[|msgs|] == m;
  }

  /** The only odd count that has reached the turn limit without passing one more turn. */
  lemma LastTurn(n: nat)
    requires n % 2 == 1 && MaxTurns <= n <= MaxTurns + 1
    ensures n == MaxTurns + 1
  {
  }

  // ---------------------------------------------------------------------
  // The loop

  /** How a run that got past the opening ends: the messages come from the
      oracles, at most eleven of them; exactly one of an outcome and an error;
      an error is the failed answer behind the next message, after no
      decision and before the turn limit, so never after eleven messages; an outcome after a buyer message is that message's decision,
      the first one; otherwise it is the turn-limit REJECT after eleven
      undecided messages. */
  predicate Ended(msgs: seq<AgentMessage>, outcome: Option<NegotiationOutcome>, error: Option<string>,
                  sellerAnswers: nat -> Completion, buyerAnswers: nat -> Completion, clock: nat -> string,
                  maxPayment: real, fmt: real -> string)
  {
    && FromAnswers(msgs, sellerAnswers, buyerAnswers, clock)
    && |msgs| <= MaxTurns + 1
    && (outcome.Some? <==> error.None?)
    && (error.Some? ==>
          && |msgs| <= MaxTurns
          && AnswerFor(|msgs|, sellerAnswers, buyerAnswers) == Failure(error.value)
          && Undecided(msgs, |msgs|, Decider(maxPayment, fmt)))
    && (outcome.Some? && |msgs| % 2 == 0 ==>
          && 0 < |msgs|
          && Undecided(msgs, |msgs| - 1, Decider(maxPayment, fmt))
          && outcome == Decider(maxPayment, fmt)(msgs[|msgs| - 1].content))
    && (outcome.Some? && |msgs| % 2 == 1 ==>
          && |msgs| == MaxTurns + 1
          && Undecided(msgs, |msgs|, Decider(maxPayment, fmt))
          && outcome == Some(TurnLimitOutcome()))
  }

  /** A run that reaches eleven messages always ends with the turn-limit
      REJECT: no error and no decision can end it there. */
  lemma EndedAtTurnLimit(msgs: seq<AgentMessage>, outcome: Option<NegotiationOutcome>, error: Option<string>,
                         sellerAnswers: nat -> Completion, buyerAnswers: nat -> Completion, clock: nat -> string,
                         maxPayment: real, fmt: real -> string)
    requires Ended(msgs, outcome, error, sellerAnswers, buyerAnswers, clock, maxPayment, fmt)
    requires |msgs| == MaxTurns + 1
    ensures error.None? && outcome == Some(TurnLimitOutcome())
  {
    assert error.None? by { assert !(|msgs| <= MaxTurns); }
    ElevenIsOdd(|msgs|);
  }

  /** The turn limit ends on a seller message: eleven is odd. */
  lemma ElevenIsOdd(n: nat)
    requires n == MaxTurns + 1
    ensures n % 2 == 1
  {
  }

  /** The state between turns: the messages so far come from the oracles and
      each agent's history is its view of the messages, the side that spoke
      last having seen all of them and the other all but the last. */
  predicate Synced(msgs: seq<AgentMessage>, buyer: Buyer, seller: Seller,
                   sellerAnswers: nat -> Completion, buyerAnswers: nat -> Completion, clock: nat -> string,
                   maxPayment: real)
  {
    && 0 < |msgs|
    && FromAnswers(msgs, sellerAnswers, buyerAnswers, clock)
    && buyer.maxPayment == maxPayment
    && BuyerSaw(buyer.history, msgs) && SellerSaw(seller.history, msgs)
    && |buyer.history| == (if |msgs| % 2 == 1 then |msgs| - 1 else |msgs|)
    && |seller.history| == (if |msgs| % 2 == 1 then |msgs| else |msgs| - 1)
  }

  /** The buyer's half of a round: it answers the latest seller message; the
      answer is the next message and carries the buyer's decision, if any. */
  method BuyerTurn(msgs: seq<AgentMessage>, buyer: Buyer, seller: Seller,
                   sellerAnswers: nat -> Completion, buyerAnswers: nat -> Completion, clock: nat -> string,
                   maxPayment: real, fmt: real -> string)
    returns (msgs': seq<AgentMessage>, buyer': Buyer, outcome: Option<NegotiationOutcome>, error: Option<string>)
    requires Synced(msgs, buyer, seller, sellerAnswers, buyerAnswers, clock, maxPayment) && |msgs| % 2 == 1
    ensures error.Some? ==>
      && msgs' == msgs && outcome.None?
      && AnswerFor(|msgs|, sellerAnswers, buyerAnswers) == Failure(error.value)
      && BuyerSaw(buyer'.history, msgs) && |buyer'.history| == |msgs|
    ensures error.None? ==>
      && |msgs'| == |msgs| + 1 && msgs' == msgs + [msgs'[|msgs|]]
      && outcome == Decider(maxPayment, fmt)(msgs'[|msgs|].content)
      && Synced(msgs', buyer', seller, sellerAnswers, buyerAnswers, clock, maxPayment)
  {
    NextParity(|msgs|);
    var lastSeller := msgs[|msgs| - 1].content;
    var b := BuyerRespond(buyer, lastSeller, buyerAnswers(|msgs| / 2), fmt);
    var asked := ChatMessage(User, SellerTag + lastSeller);
    assert asked == BuyerEntry(msgs[|msgs| - 1], |msgs| - 1);
    BuyerSawGrows(buyer.history, msgs, asked);
    buyer' := b.step.agent;
    if b.step.reply.Threw? {
      return msgs, buyer', None, Some(b.step.reply.message);
    }
    var turn := |msgs| + 1;
    var m := AgentMessage(turn, BuyerSide, b.step.reply.content, clock(turn));
    FromAnswersExtends(msgs, sellerAnswers, buyerAnswers, clock, m);
    SawAppend(buyer.history + [asked], seller.history, msgs, m);
    msgs' := msgs + [m];
    BuyerSawGrows(buyer.history + [asked], msgs', ChatMessage(Assistant, m.content));
    assert buyer'.history == buyer.history + [asked] + [ChatMessage(Assistant, m.content)];
    outcome := b.outcome;
    error := None;
  }

  /** The seller's half of a round: it answers the buyer's latest message. */
  method SellerTurn(msgs: seq<AgentMessage>, buyer: Buyer, seller: Seller,
                    sellerAnswers: nat -> Completion, buyerAnswers: nat -> Completion, clock: nat -> string,
                    maxPayment: real)
    returns (msgs': seq<AgentMessage>, seller': Seller, error: Option<string>)
    requires Synced(msgs, buyer, seller, sellerAnswers, buyerAnswers, clock, maxPayment) && |msgs| % 2 == 0
    ensures error.Some? ==>
      && msgs' == msgs
      && AnswerFor(|msgs|, sellerAnswers, buyerAnswers) == Failure(error.value)
      && SellerSaw(seller'.history, msgs) && |seller'.history| == |msgs|
    ensures error.None? ==>
      && |msgs'| == |msgs| + 1 && msgs' == msgs + [msgs'[|msgs|]]
      && Synced(msgs', buyer, seller', sellerAnswers, buyerAnswers, clock, maxPayment)
  {
    NextParity(|msgs|);
    var lastBuyer := msgs[|msgs| - 1].content;
    var s := SellerRespond(seller, lastBuyer, sellerAnswers(|msgs| / 2));
    var told := ChatMessage(User, BuyerTag + lastBuyer);
    assert told == SellerEntry(msgs[|msgs| - 1], |msgs| - 1);
    SellerSawGrows(seller.history, msgs, told);
    seller' := s.agent;
    if s.reply.Threw? {
      return msgs, seller', Some(s.reply.message);
    }
    var turn := |msgs| + 1;
    var m := AgentMessage(turn, SellerSide, s.reply.content, clock(turn));
    FromAnswersExtends(msgs, sellerAnswers, buyerAnswers, clock, m);
    SawAppend(buyer.history, seller.history + [told], msgs, m);
    msgs' := msgs + [m];
    SellerSawGrows(seller.history + [told], msgs', ChatMessage(Assistant, m.content));
    assert seller'.history == seller.history + [told] + [ChatMessage(Assistant, m.content)];
    error := None;
  }

  /** The rounds after the opening, up to the turn limit: the buyer answers,
      a decision ends the run, otherwise the seller answers. */
  method Rounds(msgs: seq<AgentMessage>, buyer: Buyer, seller: Seller,
                sellerAnswers: nat -> Completion, buyerAnswers: nat -> Completion, clock: nat -> string,
                maxPayment: real, fmt: real -> string)
    returns (msgs': seq<AgentMessage>, buyer': Buyer, seller': Seller,
             outcome: Option<NegotiationOutcome>, error: Option<string>)
    requires Synced(msgs, buyer, seller, sellerAnswers, buyerAnswers, clock, maxPayment)
    requires Undecided(msgs, |msgs|, Decider(maxPayment, fmt))
    requires |msgs| % 2 == 1 && |msgs| <= MaxTurns + 1
    ensures |msgs| <= |msgs'|
    ensures Ended(msgs', outcome, error, sellerAnswers, buyerAnswers, clock, maxPayment, fmt)
    ensures BuyerSaw(buyer'.history, msgs') && |msgs'| <= |buyer'.history| + 1
    ensures SellerSaw(seller'.history, msgs') && |msgs'| <= |seller'.history| + 1
  {
    var decide := Decider(maxPayment, fmt);
    msgs', buyer', seller' := msgs, buyer, seller;
    while |msgs'| < MaxTurns
      invariant |msgs'| % 2 == 1 && |msgs| <= |msgs'| <= MaxTurns + 1
      invariant Synced(msgs', buyer', seller', sellerAnswers, buyerAnswers, clock, maxPayment)
      invariant Undecided(msgs', |msgs'|, decide)
      decreases MaxTurns - |msgs'|
    {
      var afterBuyer, afterSeller;
      afterBuyer, buyer', outcome, error :=
        BuyerTurn(msgs', buyer', seller', sellerAnswers, buyerAnswers, clock, maxPayment, fmt);
      if error.Some? {
        return;
      }
      UndecidedAppend(msgs', afterBuyer[|msgs'|], decide);
      msgs' := afterBuyer;
      if outcome.Some? {
        return;
      }
      afterSeller, seller', error :=
        SellerTurn(msgs', buyer', seller', sellerAnswers, buyerAnswers, clock, maxPayment);
      if error.Some? {
        return;
      }
      UndecidedAppend(msgs', afterSeller[|msgs'|], decide);
      msgs' := afterSeller;
    }
    LastTurn(|msgs'|);
    outcome, error := Some(TurnLimitOutcome()), None;
  }

  /** `runNegotiation`. On success the outcome is the first decision the
      buyer's answers carry, or the turn-limit REJECT after eleven messages;
      on an error nothing is yielded after the messages already produced and
      the session's status and outcome are untouched. */
  method RunNegotiation(session: NegotiationSession, sellerAnswers: nat -> Completion, buyerAnswers: nat -> Completion,
                        clock: nat -> string, fmt: real -> string) returns (r: Run)
    // every message is appended to the session, in the order yielded
    ensures r.session == session.(messages := session.messages + r.messages,
                                  status := r.session.status, outcome := r.session.outcome)
    // turns 1, 2, 3, ... alternate seller/buyer, carry the oracles' answers and
    // end in an error, the first decision or the turn limit
    ensures Ended(r.messages, r.outcome, r.error, sellerAnswers, buyerAnswers, clock, session.request.max_payment, fmt)
    ensures r.error.Some? ==> r.session.status == session.status && r.session.outcome == session.outcome
    ensures r.outcome.Some? ==> r.session.status == SessionCompleted && r.session.outcome == r.outcome
    // each agent was handed the other's latest message, and nothing else
    ensures BuyerSaw(r.buyer.history, r.messages) && |r.messages| <= |r.buyer.history| + 1
    ensures SellerSaw(r.seller.history, r.messages) && |r.messages| <= |r.seller.history| + 1
  {
    var req := session.request;
    var buyer := NewBuyer(req.buyer_prompt, req.buyer_requirement, req.max_payment, fmt);
    var seller := NewSeller(req.seller_prompt, req.seller_info, TemplateText(req.seller_proof));
    r := Negotiate(session, buyer, seller, sellerAnswers, buyerAnswers, clock, fmt);
  }

  /** The run once both agents exist: the seller's opening, then the rounds. */
  method Negotiate(session: NegotiationSession, buyer: Buyer, seller: Seller,
                   sellerAnswers: nat -> Completion, buyerAnswers: nat -> Completion,
                   clock: nat -> string, fmt: real -> string) returns (r: Run)
    requires buyer.history == [] && buyer.maxPayment == session.request.max_payment
    requires seller.history == []
    ensures r.session == session.(messages := session.messages + r.messages,
                                  status := r.session.status, outcome := r.session.outcome)
    ensures Ended(r.messages, r.outcome, r.error, sellerAnswers, buyerAnswers, clock, session.request.max_payment, fmt)
    ensures r.error.Some? ==> r.session.status == session.status && r.session.outcome == session.outcome
    ensures r.outcome.Some? ==> r.session.status == SessionCompleted && r.session.outcome == r.outcome
    ensures BuyerSaw(r.buyer.history, r.messages) && |r.messages| <= |r.buyer.history| + 1
    ensures SellerSaw(r.seller.history, r.messages) && |r.messages| <= |r.seller.history| + 1
  {
    var req := session.request;
    var buyer, seller := buyer, seller;

    // the seller opens
    var opening := SellerOpening(seller, sellerAnswers(0));
    seller := opening.agent;
    if opening.reply.Threw? {
      assert Undecided([], 0, Decider(req.max_payment, fmt));
      return Run(session, [], None, Some(opening.reply.message), buyer, seller);
    }
    var first := AgentMessage(1, SellerSide, opening.reply.content, clock(1));
    OpeningSynced(first, buyer, seller, sellerAnswers, buyerAnswers, clock, req.max_payment, fmt);

    var msgs, outcome, error;
    msgs, buyer, seller, outcome, error :=
      Rounds([first], buyer, seller, sellerAnswers, buyerAnswers, clock, req.max_payment, fmt);
    var status := if outcome.Some? then SessionCompleted else session.status;
    var finalOutcome := if outcome.Some? then outcome else session.outcome;
    r := Run(session.(messages := session.messages + msgs, status := status, outcome := finalOutcome),
             msgs, outcome, error, buyer, seller);
  }

  /** The state after the opening message. */
  lemma OpeningSynced(first: AgentMessage, buyer: Buyer, seller: Seller,
                      sellerAnswers: nat -> Completion, buyerAnswers: nat -> Completion, clock: nat -> string,
                      maxPayment: real, fmt: real -> string)
    requires sellerAnswers(0).Stream?
    requires first == AgentMessage(1, SellerSide, StreamText(sellerAnswers(0).chunks), clock(1))
    requires buyer.history == [] && buyer.maxPayment == maxPayment
    requires seller.history == [ChatMessage(Assistant, first.content)]
    ensures Synced([first], buyer, seller, sellerAnswers, buyerAnswers, clock, maxPayment)
    ensures Undecided([first], 1, Decider(maxPayment, fmt))
  {
    FromAnswersExtends([], sellerAnswers, buyerAnswers, clock, first);
    assert [] + [first] == [first];
    SellerSawGrows([], [first], ChatMessage(Assistant, first.content));
  }
}
