/**
 * The scripted chatbot page: a keyword-driven reply function and the message
 * list that grows by one user message on send and one bot message when the
 * simulated typing delay has passed.
 */
module ChatBot {
  import opened Wrappers
  import opened JsText

  datatype Sender = User | Bot

  /** One entry of the `messages` list; the time text is supplied by the caller. */
  datatype ChatMessage = ChatMessage(id: nat, text: string, sender: Sender, timestamp: string)

  const Greeting: string := "Hello! I'm your AI assistant. How can I help you today?"

  /** The ten canned replies used when no keyword matches. */
  const Responses: seq<string> := [
    "That's interesting! Can you tell me more about that?",
    "I understand your question. Here's what I can help you with...",
    "Based on your query, I'd recommend checking your dashboard for detailed analytics.",
    "Great question! Let me help you with that information.",
    "I'm here to assist you with your business analytics and data insights.",
    "Thank you for your message. Is there anything specific about your sales data you'd like to know?",
    "I can help you analyze your profit margins and sales performance.",
    "Would you like me to explain any specific metrics from your uploaded data?",
    "I'm designed to help with business queries and data analysis.",
    "Feel free to ask me about your products, sales, or profit analysis!"
  ]

  const SalesReply: string := "I can see you're interested in sales data. Your dashboard shows comprehensive sales analytics with interactive charts."
  const ProfitReply: string := "Profit analysis is crucial for business growth. Check the Profit tab for detailed margin calculations."
  const ProductReply: string := "Product performance can be viewed in your dashboard. Each product row is clickable for detailed insights."
  const HelpReply: string := "I'm here to help! You can ask me about sales, profits, products, or any data-related questions."

  /** The keyword pairs, in the order the replies are tried. */
  const SalesKeywords: seq<string> := ["sales", "revenue"]
  const ProfitKeywords: seq<string> := ["profit", "margin"]
  const ProductKeywords: seq<string> := ["product", "item"]
  const HelpKeywords: seq<string> := ["help", "assist"]

  /** `lower.includes(a) || lower.includes(b)` for a keyword pair. */
  predicate MentionsPair(lower: string, pair: seq<string>)
    requires |pair| == 2
  {
    Contains(lower, pair[0]) || Contains(lower, pair[1])
  }

  /** True when none of the four keyword pairs occurs in the lower-cased text. */
  predicate NoKeyword(lower: string) {
    && !MentionsPair(lower, SalesKeywords)
    && !MentionsPair(lower, ProfitKeywords)
    && !MentionsPair(lower, ProductKeywords)
    && !MentionsPair(lower, HelpKeywords)
  }

  /** `Math.floor(random * responses.length)` for a draw `random` in [0, 1). */
  function FallbackIndex(random: real): (i: nat)
    requires 0.0 <= random < 1.0
    ensures i < |Responses|
    ensures i as real <= random * 10.0 < i as real + 1.0
  {
    (random * 10.0).Floor
  }

  /** The if-chain of `getRandomResponse` on the already lower-cased message. */
  function ReplyTo(lowerMessage: string, random: real): (r: string)
    requires 0.0 <= random < 1.0
    ensures r in [SalesReply, ProfitReply, ProductReply, HelpReply] || r in Responses
  {
    if MentionsPair(lowerMessage, SalesKeywords) then SalesReply
    else if MentionsPair(lowerMessage, ProfitKeywords) then ProfitReply
    else if MentionsPair(lowerMessage, ProductKeywords) then ProductReply
    else if MentionsPair(lowerMessage, HelpKeywords) then HelpReply
    else Responses[FallbackIndex(random)]
  }

  /**
   * `getRandomResponse(userMessage)` with the value of `Math.random()` passed
   * in as `random`: the message is lower-cased, then matched.
   */
  function GetRandomResponse(userMessage: string, random: real): (r: string)
    requires 0.0 <= random < 1.0
    ensures r in [SalesReply, ProfitReply, ProductReply, HelpReply] || r in Responses
  {
    ReplyTo(ToLower(userMessage), random)
  }

  /**
   * The sales pair is tried first: a message that mentions sales gets the
   * sales reply whatever else it mentions, so "sales and profit" gets it too.
   */
  lemma SalesTakesPriority(userMessage: string, random: real)
    requires 0.0 <= random < 1.0
    requires Contains(ToLower(userMessage), "sales")
    ensures GetRandomResponse(userMessage, random) == SalesReply
  {
  }

  /** Each later reply is given only when every earlier pair is absent. */
  lemma ReplyPriority(userMessage: string, random: real)
    requires 0.0 <= random < 1.0
    ensures var lower := ToLower(userMessage);
            var r := GetRandomResponse(userMessage, random);
            && (MentionsPair(lower, SalesKeywords) ==> r == SalesReply)
            && (!MentionsPair(lower, SalesKeywords) && MentionsPair(lower, ProfitKeywords) ==> r == ProfitReply)
            && ((!MentionsPair(lower, SalesKeywords) && !MentionsPair(lower, ProfitKeywords)
                 && MentionsPair(lower, ProductKeywords)) ==> r == ProductReply)
            && ((!MentionsPair(lower, SalesKeywords) && !MentionsPair(lower, ProfitKeywords)
                 && !MentionsPair(lower, ProductKeywords) && MentionsPair(lower, HelpKeywords)) ==> r == HelpReply)
  {
  }

  /** The message is lower-cased before matching, so its letter case never changes the reply. */
  lemma ReplyIgnoresCase(userMessage: string, random: real)
    requires 0.0 <= random < 1.0
    ensures GetRandomResponse(ToLower(userMessage), random) == GetRandomResponse(userMessage, random)
  {
    ToLowerIdempotent(userMessage);
  }

  /** A keyword written in any letter case in the message is matched. */
  lemma {:induction false} KeywordInAnyCase(userMessage: string, keyword: string)
    requires Contains(userMessage, keyword)
    ensures Contains(ToLower(userMessage), ToLower(keyword))
  {
    ContainsToLower(userMessage, keyword);
  }

  /** Without a keyword the reply is the drawn canned response, always one of the ten. */
  lemma FallbackIsCanned(userMessage: string, random: real)
    requires 0.0 <= random < 1.0
    requires NoKeyword(ToLower(userMessage))
    ensures GetRandomResponse(userMessage, random) == Responses[FallbackIndex(random)]
    ensures GetRandomResponse(userMessage, random) in Responses
  {
  }

  /** Every canned response is drawn by the tenth of the unit interval that starts at i/10. */
  lemma FallbackReachesEvery(userMessage: string, i: nat, random: real)
    requires NoKeyword(ToLower(userMessage))
    requires i < |Responses|
    requires i as real / 10.0 <= random < (i + 1) as real / 10.0
    ensures GetRandomResponse(userMessage, random) == Responses[i]
  {
    assert i as real <= random * 10.0 < i as real + 1.0;
    assert FallbackIndex(random) == i;
  }

  /** Message ids are 1, 2, 3, ... in list order. */
  predicate NumberedFromOne(messages: seq<ChatMessage>) {
    forall i :: 0 <= i < |messages| ==> messages[i].id == i + 1
  }

  /** Appending a message whose id is the new length keeps the numbering. */
  lemma AppendKeepsNumbering(messages: seq<ChatMessage>, m: ChatMessage)
    requires NumberedFromOne(messages)
    ensures NumberedFromOne(messages + [m]) <==> m.id == |messages| + 1
  {
    assert (messages + [m])[|messages|] == m;
  }

  /** Numbered lists have pairwise distinct ids, which the page uses as element keys. */
  lemma NumberedIdsDistinct(messages: seq<ChatMessage>, i: nat, j: nat)
    requires NumberedFromOne(messages)
    requires i < j < |messages|
    ensures messages[i].id != messages[j].id
  {
  }

  /**
   * The session invariant on values: ids numbered from one, the greeting
   * never removed, and while a reply is pending the last message is the user's.
   */
  predicate WellNumbered(messages: seq<ChatMessage>, isTyping: bool) {
    && NumberedFromOne(messages)
    && |messages| >= 1
    && (isTyping ==> messages[|messages| - 1].sender == User)
  }

  /** A sent user message with the next id keeps the invariant, now typing. */
  lemma SendKeepsNumbering(messages: seq<ChatMessage>, isTyping: bool, m: ChatMessage)
    requires WellNumbered(messages, isTyping)
    requires m.id == |messages| + 1 && m.sender == User
    ensures WellNumbered(messages + [m], true)
  {
    AppendKeepsNumbering(messages, m);
  }

  /** A reply with the next id keeps the invariant, no longer typing. */
  lemma ReplyKeepsNumbering(messages: seq<ChatMessage>, isTyping: bool, m: ChatMessage)
    requires WellNumbered(messages, isTyping)
    requires m.id == |messages| + 1
    ensures WellNumbered(messages + [m], false)
  {
    AppendKeepsNumbering(messages, m);
  }

  /**
   * What the `setTimeout` callback closes over: the id it will give the bot
   * message (`messages.length + 2` at send time) and the text that was sent.
   */
  datatype PendingReply = PendingReply(id: nat, userText: string)

  /** The page's `messages`, `inputMessage` and `isTyping` state. */
  class ChatSession {
    var messages: seq<ChatMessage>
    var inputMessage: string
    var isTyping: bool

    /**
     * Ids are numbered from one; while a reply is pending the last message
     * is the user's.
     */
    ghost predicate Valid()
      reads this
    {
      WellNumbered(messages, isTyping)
    }

    /** The initial list: the bot greeting with id 1, stamped `now`. */
    constructor(now: string)
      ensures messages == [ChatMessage(1, Greeting, Bot, now)]
      ensures inputMessage == "" && !isTyping
      ensures Valid()
    {
      messages := [ChatMessage(1, Greeting, Bot, now)];
      inputMessage := "";
      isTyping := false;
    }

    /** The text box's `onChange`. */
    method SetInputMessage(value: string)
      modifies this
      ensures inputMessage == value
      ensures messages == old(messages) && isTyping == old(isTyping)
      ensures old(Valid()) ==> Valid()
    {
      inputMessage := value;
    }

    /** The disabled condition of the send button: no send while typing or on blank input. */
    function CanSend(): (b: bool)
      reads this
      ensures b <==> !isTyping && !AllSpace(inputMessage)
    {
      TrimEmptyIffAllSpace(inputMessage);
      !isTyping && Trim(inputMessage) != ""
    }

    /**
     * `handleSendMessage` up to the timer: blank input changes nothing;
     * otherwise one user message is appended, the input is cleared, typing
     * starts, and the timer's pending reply is returned.
     */
    method HandleSendMessage(now: string) returns (pending: Option<PendingReply>)
      modifies this
      ensures AllSpace(old(inputMessage)) ==>
                pending == None && messages == old(messages)
                && inputMessage == old(inputMessage) && isTyping == old(isTyping)
      ensures !AllSpace(old(inputMessage)) ==>
                && messages == old(messages) + [ChatMessage(|old(messages)| + 1, old(inputMessage), User, now)]
                && inputMessage == "" && isTyping
                && pending == Some(PendingReply(|old(messages)| + 2, old(inputMessage)))
      ensures old(Valid()) ==> Valid()
    {
      TrimEmptyIffAllSpace(inputMessage);
      if Trim(inputMessage) == "" {
        return None;
      }
      var userMessage := ChatMessage(|messages| + 1, inputMessage, User, now);
      pending := Some(PendingReply(|messages| + 2, inputMessage));
      if WellNumbered(messages, isTyping) {
        SendKeepsNumbering(messages, isTyping, userMessage);
      }
      messages := messages + [userMessage];
      inputMessage := "";
      isTyping := true;
    }

    /**
     * The timer callback: one bot message with the pending id and the reply
     * to the sent text is appended and typing stops. When nothing else was
     * appended since the send, the numbering is kept.
     */
    method DeliverReply(p: PendingReply, random: real, now: string)
      requires 0.0 <= random < 1.0
      modifies this
      ensures messages == old(messages) + [ChatMessage(p.id, GetRandomResponse(p.userText, random), Bot, now)]
      ensures !isTyping && inputMessage == old(inputMessage)
      ensures old(Valid()) && p.id == |old(messages)| + 1 ==> Valid()
    {
      var botResponse := ChatMessage(p.id, GetRandomResponse(p.userText, random), Bot, now);
      if WellNumbered(messages, isTyping) && p.id == |messages| + 1 {
        ReplyKeepsNumbering(messages, isTyping, botResponse);
      }
      messages := messages + [botResponse];
      isTyping := false;
    }
  }

  /**
   * A send followed by its own reply, with no other event in between, adds
   * exactly the user message and the bot reply with consecutive ids and
   * keeps the numbering.
   */
  method SendThenReply(session: ChatSession, random: real, sentAt: string, repliedAt: string)
    returns (sent: bool)
    requires session.Valid()
    requires 0.0 <= random < 1.0
    modifies session
    ensures sent <==> !AllSpace(old(session.inputMessage))
    ensures sent ==> session.messages == old(session.messages) + [
              ChatMessage(|old(session.messages)| + 1, old(session.inputMessage), User, sentAt),
              ChatMessage(|old(session.messages)| + 2, GetRandomResponse(old(session.inputMessage), random), Bot, repliedAt)]
    ensures !sent ==> session.messages == old(session.messages)
    ensures session.Valid()
  {
    var pending := session.HandleSendMessage(sentAt);
    sent := pending.Some?;
    if pending.Some? {
      session.DeliverReply(pending.value, random, repliedAt);
    }
  }
}
