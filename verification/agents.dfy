/** The two language-model agents. Each keeps a system prompt and a
    conversation history; every completion request sends the system prompt
    followed by the whole history. The model's streamed answer is an oracle
    input: a sequence of chunks, each carrying a piece of text or nothing, or
    a failure. */
module Agents {
  import opened Common
  import opened Types
  import DecisionParser

  datatype Role = System | User | Assistant

  /** One entry of a chat-completion request. */
  datatype ChatMessage = ChatMessage(role: Role, content: string)

  /** What the completion service does with one request: stream chunks (a
      chunk whose delta has no content is `None`) or fail with a message. */
  datatype Completion = Stream(chunks: seq<Option<string>>) | Failure(message: string)

  /** The result of one agent call: the full text and the tokens handed to
      the token callback, or the error the call threw. */
  datatype Reply = Replied(content: string, emitted: seq<string>) | Threw(message: string)

  /** An agent after one call, with the request it sent. */
  datatype Step<A> = Step(agent: A, request: seq<ChatMessage>, reply: Reply)

  datatype Seller = Seller(systemPrompt: string, history: seq<ChatMessage>)

  datatype Buyer = Buyer(systemPrompt: string, maxPayment: real, history: seq<ChatMessage>)

  /** The buyer's reply together with the decision parsed from it. */
  datatype BuyerStep = BuyerStep(step: Step<Buyer>, outcome: Option<NegotiationOutcome>)

  const DefaultBuyerPrompt: string :=
    "You are a buyer agent evaluating information for purchase in a prediction market context.\n\n"
    + "Your goal is to determine if the seller's information is valuable enough to pay for.\n\n"
    + "Guidelines:\n"
    + "- Ask clarifying questions to assess credibility and specificity\n"
    + "- Consider: Is this actionable? Is the source credible? Is the timing relevant?\n"
    + "- You can negotiate on price\n"
    + "- After sufficient evaluation (usually 3-5 exchanges), make a final decision\n\n"
    + "When ready to decide, respond with EXACTLY this format on its own line:\n"
    + "DECISION: ACCEPT $[amount] - [one sentence reasoning]\n"
    + "or\n"
    + "DECISION: REJECT - [one sentence reasoning]\n\n"
    + "Do not include the DECISION line until you are ready to conclude."

  const DefaultSellerPrompt: string :=
    "You are a seller agent presenting valuable information to a potential buyer.\n\n"
    + "Your goal is to convince the buyer that your information is worth purchasing, "
    + "without revealing the core details that would eliminate the need to pay.\n\n"
    + "Guidelines:\n"
    + "- Present the value proposition clearly\n"
    + "- Provide enough context to establish credibility without giving away the key insight\n"
    + "- Answer questions about source credibility, timing, and relevance\n"
    + "- Reference your supporting evidence when relevant\n"
    + "- Negotiate on price if the buyer pushes back\n\n"
    + "Be persuasive but honest. Do not fabricate details about your information or evidence."

  /** The user turn of the seller's opening request. */
  const OpeningInstruction: string :=
    "Begin by presenting your information offering to the buyer. "
    + "Establish why it's valuable without revealing the specific details."

  const SellerTag: string := "[SELLER]: "
  const BuyerTag: string := "[BUYER]: "

  // ---------------------------------------------------------------------
  // System prompts

  /** The buyer's system prompt: the custom prompt when non-empty (else the
      default), then the requirement and the budget. `fmt` stands for
      JavaScript's number-to-text conversion. */
  function BuyerSystemPrompt(customPrompt: Option<string>, requirement: string, maxPayment: real,
                             fmt: real -> string): (r: string)
    ensures var base := OrDefault(customPrompt, DefaultBuyerPrompt);
      && |base| + 15 + |requirement| <= |r|
      && r[..|base|] == base
      && r[|base|..|base| + 15] == "\n\nRequirement: "
      && r[|base| + 15..|base| + 15 + |requirement|] == requirement
      && r[|base| + 15 + |requirement|..] == "\nMaximum Budget: $" + fmt(maxPayment)
  {
    BuyerPromptOn(OrDefault(customPrompt, DefaultBuyerPrompt), requirement, "\nMaximum Budget: $" + fmt(maxPayment))
  }

  /** The buyer's prompt laid out on a given base prompt. */
  function BuyerPromptOn(base: string, requirement: string, budget: string): (r: string)
    ensures |base| + 15 + |requirement| + |budget| == |r|
    ensures r[..|base|] == base
    ensures r[|base|..|base| + 15] == "\n\nRequirement: "
    ensures r[|base| + 15..|base| + 15 + |requirement|] == requirement
    ensures r[|base| + 15 + |requirement|..] == budget
  {
    var r := base + "\n\nRequirement: " + requirement + budget;
    assert r == base + ("\n\nRequirement: " + (requirement + budget));
    r
  }

  /** The seller's system prompt: the custom prompt when non-empty (else the
      default), then the confidential information and the evidence. */
  function SellerSystemPrompt(customPrompt: Option<string>, info: string, proof: string): (r: string)
    ensures var base := OrDefault(customPrompt, DefaultSellerPrompt);
      var head := "\n\nYour Information (CONFIDENTIAL - do not reveal specifics):\n";
      var mid := "\n\nSupporting Evidence:\n";
      var a := |base| + |head|;
      && a + |info| + |mid| + |proof| == |r|
      && r[..|base|] == base
      && r[|base|..a] == head
      && r[a..a + |info|] == info
      && r[a + |info|..a + |info| + |mid|] == mid
      && r[a + |info| + |mid|..] == proof
  {
    SellerPromptOn(OrDefault(customPrompt, DefaultSellerPrompt), info, proof)
  }

  /** The seller's prompt laid out on a given base prompt. */
  function SellerPromptOn(base: string, info: string, proof: string): (r: string)
    ensures var head := "\n\nYour Information (CONFIDENTIAL - do not reveal specifics):\n";
      var mid := "\n\nSupporting Evidence:\n";
      var a := |base| + |head|;
      && a + |info| + |mid| + |proof| == |r|
      && r[..|base|] == base
      && r[|base|..a] == head
      && r[a..a + |info|] == info
      && r[a + |info|..a + |info| + |mid|] == mid
      && r[a + |info| + |mid|..] == proof
  {
    base + "\n\nYour Information (CONFIDENTIAL - do not reveal specifics):\n" + info
      + "\n\nSupporting Evidence:\n" + proof
  }

  /** A custom buyer prompt replaces the default only when it is non-empty. */
  lemma BuyerPromptChoice(customPrompt: Option<string>, requirement: string, maxPayment: real, fmt: real -> string)
    ensures Truthy(customPrompt) ==>
      BuyerSystemPrompt(customPrompt, requirement, maxPayment, fmt)[..|customPrompt.value|] == customPrompt.value
    ensures !Truthy(customPrompt) ==>
      BuyerSystemPrompt(customPrompt, requirement, maxPayment, fmt) == BuyerSystemPrompt(None, requirement, maxPayment, fmt)
  {
    if !Truthy(customPrompt) {
      assert OrDefault(customPrompt, DefaultBuyerPrompt) == OrDefault(None, DefaultBuyerPrompt);
    }
  }

  /** A custom seller prompt replaces the default only when it is non-empty. */
  lemma SellerPromptChoice(customPrompt: Option<string>, info: string, proof: string)
    ensures Truthy(customPrompt) ==>
      SellerSystemPrompt(customPrompt, info, proof)[..|customPrompt.value|] == customPrompt.value
    ensures !Truthy(customPrompt) ==>
      SellerSystemPrompt(customPrompt, info, proof) == SellerSystemPrompt(None, info, proof)
  {
    if !Truthy(customPrompt) {
      assert OrDefault(customPrompt, DefaultSellerPrompt) == OrDefault(None, DefaultSellerPrompt);
    }
  }

  function NewBuyer(customPrompt: Option<string>, requirement: string, maxPayment: real, fmt: real -> string): (b: Buyer)
    ensures b.history == [] && b.maxPayment == maxPayment
  {
    Buyer(BuyerSystemPrompt(customPrompt, requirement, maxPayment, fmt), maxPayment, [])
  }

  function NewSeller(customPrompt: Option<string>, info: string, proof: string): (s: Seller)
    ensures s.history == []
  {
    Seller(SellerSystemPrompt(customPrompt, info, proof), [])
  }

  // ---------------------------------------------------------------------
  // Token accumulation

  /** `chunk.choices[0]?.delta?.content || ""`. */
  function TokenOf(chunk: Option<string>): string {
    OrDefault(chunk, "")
  }

  /** The text of each chunk, in order. */
  function TokensOf(chunks: seq<Option<string>>): (ts: seq<string>)
    ensures |ts| == |chunks|
    ensures forall i :: 0 <= i < |chunks| ==> ts[i] == TokenOf(chunks[i])
  {
    if |chunks| == 0 then [] else TokensOf(chunks[..|chunks| - 1]) + [TokenOf(chunks[|chunks| - 1])]
  }

  /** The tokens handed to the token callback: the non-empty ones, in order. */
  function NonEmptyTokens(chunks: seq<Option<string>>): (ts: seq<string>)
    ensures |ts| <= |chunks|
    ensures forall i :: 0 <= i < |ts| ==> ts[i] != ""
  {
    if |chunks| == 0 then []
    else
      var t := TokenOf(chunks[|chunks| - 1]);
      NonEmptyTokens(chunks[..|chunks| - 1]) + (if t == "" then [] else [t])
  }

  /** The full text of a streamed answer. */
  function StreamText(chunks: seq<Option<string>>): string {
    Concat(TokensOf(chunks))
  }

  /** Skipping the empty tokens does not change the concatenated text: what
      the callback sees adds up to the returned text. */
  lemma {:induction false} CallbackSeesFullText(chunks: seq<Option<string>>)
    ensures Concat(NonEmptyTokens(chunks)) == StreamText(chunks)
  {
    if |chunks| > 0 {
      var init := chunks[..|chunks| - 1];
      var t := TokenOf(chunks[|chunks| - 1]);
      var kept := if t == "" then [] else [t];
      assert Concat(kept) == t by {
        assert [t][..0] == [];
      }
      assert StreamText(chunks) == StreamText(init) + t by {
        var ts := TokensOf(chunks);
        assert ts[..|ts| - 1] == TokensOf(init);
      }
      assert Concat(NonEmptyTokens(chunks)) == Concat(NonEmptyTokens(init)) + t by {
        ConcatAppend(NonEmptyTokens(init), kept);
      }
      CallbackSeesFullText(init);
    }
  }

  /** The `for await` loop over the stream: appends every token to the full
      text and hands the non-empty ones to the callback. */
  method Accumulate(chunks: seq<Option<string>>) returns (full: string, emitted: seq<string>)
    ensures full == StreamText(chunks)
    ensures emitted == NonEmptyTokens(chunks)
    ensures Concat(emitted) == full
  {
    full := "";
    emitted := [];
    var i := 0;
    while i < |chunks|
      invariant 0 <= i <= |chunks|
      invariant full == StreamText(chunks[..i])
      invariant emitted == NonEmptyTokens(chunks[..i])
    {
      var token := TokenOf(chunks[i]);
      assert chunks[..i + 1][..i] == chunks[..i];
      full := full + token;
      if token != "" {
        emitted := emitted + [token];
      }
      i := i + 1;
    }
    assert chunks[..i] == chunks;
    CallbackSeesFullText(chunks);
  }

  /** The reply an agent call produces from the service's answer. */
  function ReplyOf(c: Completion): (r: Reply)
    ensures c.Stream? <==> r.Replied?
    ensures r.Replied? ==> Concat(r.emitted) == r.content && r.content == StreamText(c.chunks)
    ensures r.Threw? ==> r.message == c.message
  {
    match c
    case Stream(chunks) =>
      CallbackSeesFullText(chunks);
      Replied(StreamText(chunks), NonEmptyTokens(chunks))
    case Failure(m) => Threw(m)
  }

  // ---------------------------------------------------------------------
  // Calls

  /** `openingStatement`: the request holds only the system prompt and the
      opening instruction; only the answer is kept in the history. */
  function SellerOpening(s: Seller, answer: Completion): (r: Step<Seller>)
    ensures r.request == [ChatMessage(System, s.systemPrompt), ChatMessage(User, OpeningInstruction)]
    ensures r.reply == ReplyOf(answer)
    ensures r.agent.systemPrompt == s.systemPrompt
    ensures r.reply.Replied? ==> r.agent.history == s.history + [ChatMessage(Assistant, r.reply.content)]
    ensures r.reply.Threw? ==> r.agent == s
  {
    var request := [ChatMessage(System, s.systemPrompt), ChatMessage(User, OpeningInstruction)];
    var reply := ReplyOf(answer);
    match reply
    case Replied(content, _) => Step(s.(history := s.history + [ChatMessage(Assistant, content)]), request, reply)
    case Threw(_) => Step(s, request, reply)
  }

  /** `respond` of the seller: the tagged buyer message is kept even when the
      call fails; the answer follows it on success. */
  function SellerRespond(s: Seller, buyerMessage: string, answer: Completion): (r: Step<Seller>)
    ensures var asked := ChatMessage(User, BuyerTag + buyerMessage);
      && r.request == [ChatMessage(System, s.systemPrompt)] + s.history + [asked]
      && r.reply == ReplyOf(answer)
      && r.agent.systemPrompt == s.systemPrompt
      && (r.reply.Replied? ==> r.agent.history == s.history + [asked, ChatMessage(Assistant, r.reply.content)])
      && (r.reply.Threw? ==> r.agent.history == s.history + [asked])
  {
    var pushed := s.history + [ChatMessage(User, BuyerTag + buyerMessage)];
    var request := [ChatMessage(System, s.systemPrompt)] + pushed;
    var reply := ReplyOf(answer);
    match reply
    case Replied(content, _) => Step(s.(history := pushed + [ChatMessage(Assistant, content)]), request, reply)
    case Threw(_) => Step(s.(history := pushed), request, reply)
  }

  /** The history bookkeeping of the buyer's `respond`: as the seller's,
      with the seller tag. */
  function BuyerExchange(b: Buyer, sellerMessage: string, answer: Completion): (r: Step<Buyer>)
    ensures var asked := ChatMessage(User, SellerTag + sellerMessage);
      && r.request == [ChatMessage(System, b.systemPrompt)] + b.history + [asked]
      && r.reply == ReplyOf(answer)
      && r.agent.systemPrompt == b.systemPrompt && r.agent.maxPayment == b.maxPayment
      && (r.reply.Replied? ==> r.agent.history == b.history + [asked, ChatMessage(Assistant, r.reply.content)])
      && (r.reply.Threw? ==> r.agent.history == b.history + [asked])
  {
    var pushed := b.history + [ChatMessage(User, SellerTag + sellerMessage)];
    var request := [ChatMessage(System, b.systemPrompt)] + pushed;
    var reply := ReplyOf(answer);
    match reply
    case Replied(content, _) => Step(b.(history := pushed + [ChatMessage(Assistant, content)]), request, reply)
    case Threw(_) => Step(b.(history := pushed), request, reply)
  }

  /** `respond` of the buyer: the exchange, and the answer handed to the
      decision parser with the buyer's budget. */
  function BuyerRespond(b: Buyer, sellerMessage: string, answer: Completion, fmt: real -> string): (r: BuyerStep)
    ensures r.step == BuyerExchange(b, sellerMessage, answer)
    ensures r.step.reply.Replied? ==> r.outcome == DecisionParser.ParseDecision(r.step.reply.content, b.maxPayment, fmt)
    ensures r.step.reply.Threw? ==> r.outcome.None?
  {
    var step := BuyerExchange(b, sellerMessage, answer);
    match step.reply
    case Replied(content, _) => BuyerStep(step, DecisionParser.ParseDecision(content, b.maxPayment, fmt))
    case Threw(_) => BuyerStep(step, None)
  }

  // ---------------------------------------------------------------------
  // History shape

  /** Entries alternate between the roles `first` and `second`, starting with `first`. */
  predicate Alternates(h: seq<ChatMessage>, first: Role, second: Role) {
    forall i :: 0 <= i < |h| ==> h[i].role == (if i % 2 == 0 then first else second)
  }

  /** The seller after a successful opening and the given successful exchanges. */
  function SellerAfter(s: Seller, opening: seq<Option<string>>, exchanges: seq<(string, seq<Option<string>>)>): Seller
    decreases |exchanges|
  {
    if |exchanges| == 0 then SellerOpening(s, Stream(opening)).agent
    else
      var last := exchanges[|exchanges| - 1];
      SellerRespond(SellerAfter(s, opening, exchanges[..|exchanges| - 1]), last.0, Stream(last.1)).agent
  }

  /** Two entries in the roles that come next keep a history alternating. */
  lemma AppendPairAlternates(h: seq<ChatMessage>, first: Role, second: Role, x: ChatMessage, y: ChatMessage)
    requires Alternates(h, first, second)
    requires if |h| % 2 == 0 then x.role == first && y.role == second else x.role == second && y.role == first
    ensures Alternates(h + [x, y], first, second)
  {
    var h' := h + [x, y];
    forall i | 0 <= i < |h'| ensures h'[i].role == (if i % 2 == 0 then first else second) {
      if i < |h| {
        assert h'[i] == h[i];
      }
    }
  }

  /** After the opening and k answered messages, a fresh seller's history has
      1 + 2k entries alternating assistant/user, starting with the assistant. */
  lemma {:induction false} SellerHistoryShape(s: Seller, opening: seq<Option<string>>,
                                              exchanges: seq<(string, seq<Option<string>>)>)
    requires s.history == []
    ensures var h := SellerAfter(s, opening, exchanges).history;
      |h| == 1 + 2 * |exchanges| && Alternates(h, Assistant, User)
    decreases |exchanges|
  {
    if |exchanges| > 0 {
      var k := |exchanges| - 1;
      var last := exchanges[k];
      var prev := SellerAfter(s, opening, exchanges[..k]);
      assert |prev.history| == 1 + 2 * k && Alternates(prev.history, Assistant, User) by {
        SellerHistoryShape(s, opening, exchanges[..k]);
      }
      var r := SellerRespond(prev, last.0, Stream(last.1));
      var x, y := ChatMessage(User, BuyerTag + last.0), ChatMessage(Assistant, r.reply.content);
      assert SellerAfter(s, opening, exchanges).history == prev.history + [x, y];
      assert |prev.history| % 2 == 1;
      AppendPairAlternates(prev.history, Assistant, User, x, y);
    }
  }

  /** The buyer after the given successful exchanges. */
  function BuyerAfter(b: Buyer, exchanges: seq<(string, seq<Option<string>>)>): Buyer
    decreases |exchanges|
  {
    if |exchanges| == 0 then b
    else
      var last := exchanges[|exchanges| - 1];
      BuyerExchange(BuyerAfter(b, exchanges[..|exchanges| - 1]), last.0, Stream(last.1)).agent
  }

  /** After k answered messages, a fresh buyer's history has 2k entries
      alternating user/assistant, starting with the tagged seller message. */
  lemma {:induction false} BuyerHistoryShape(b: Buyer, exchanges: seq<(string, seq<Option<string>>)>)
    requires b.history == []
    ensures var h := BuyerAfter(b, exchanges).history;
      |h| == 2 * |exchanges| && Alternates(h, User, Assistant)
    decreases |exchanges|
  {
    if |exchanges| > 0 {
      var k := |exchanges| - 1;
      var last := exchanges[k];
      var prev := BuyerAfter(b, exchanges[..k]);
      assert |prev.history| == 2 * k && Alternates(prev.history, User, Assistant) by {
        BuyerHistoryShape(b, exchanges[..k]);
      }
      var r := BuyerExchange(prev, last.0, Stream(last.1));
      var x, y := ChatMessage(User, SellerTag + last.0), ChatMessage(Assistant, r.reply.content);
      assert BuyerAfter(b, exchanges).history == prev.history + [x, y];
      assert |prev.history| % 2 == 0;
      AppendPairAlternates(prev.history, User, Assistant, x, y);
    }
  }
}
