/** The `/chat` request handler and the `sessionData` map it mutates.

    Each session is an object holding the memory string and the conversation
    array; the handler looks it up (creating it on first sight), pushes the
    user turn, sends the windowed conversation behind a system prompt to the
    completion API, pushes the raw reply, then updates the memory from the
    `#DATA` block and answers with the cleaned text.

    The completion call, `JSON.parse` and the Telegram send are parameters of
    the handler; the session cookie and the freshly minted id are inputs. */
module ChatServer {
  import opened Wrappers
  import opened Strings
  import opened DataBlock
  import opened Prompt
  import opened Handoff

  /** JavaScript falsiness (`!v`) of a value that is a string when it is
      there: absent or the empty string. Used for the request's message and
      its session cookie. */
  predicate Falsy(v: Option<string>) {
    v.None? || v.value == ""
  }

  /** The two errors the handler answers with. */
  datatype Failure = NoMessage | CompletionFailed

  /** The `error` text of each failure. */
  function ErrorText(f: Failure): (text: string)
    ensures text != ""
  {
    match f
    case NoMessage => "No message provided"
    case CompletionFailed => "Failed to get response from OpenAI"
  }

  /** The JSON body of the HTTP response: `{response}` or `{error}`. */
  datatype ResponseBody = Response(text: string) | Error(failure: Failure)

  /** What the handler answers: the status, the body, the `sessionId` cookie
      it sets (if any), and what happened to the handoff. */
  datatype ChatResult = ChatResult(status: nat, body: ResponseBody, setCookie: Option<string>, handoff: HandoffResult)

  /** The session id of a request: the cookie when it is set and non-empty,
      otherwise the newly minted one. */
  function SessionKey(cookie: Option<string>, minted: string): (key: string)
    ensures Falsy(cookie) ==> key == minted
    ensures !Falsy(cookie) ==> key == cookie.value
  {
    if Falsy(cookie) then minted else cookie.value
  }

  /** What one turn does to a session: the response status, body and handoff,
      and the session's new memory and conversation. */
  datatype TurnEffect = TurnEffect(status: nat, body: ResponseBody, handoff: HandoffResult,
                                   memory: string, conversation: seq<Message>)

  /** Steps 8 to 11 once the completion returned `reply`: the raw reply is
      pushed onto the windowed conversation log1, the memory is taken from its
      `#DATA` block, and the cleaned text goes through the forward step. */
  function Replied(memory0: string, log1: seq<Message>, reply: string,
                   parseJson: string -> Option<Booking>,
                   send: string -> bool): TurnEffect
  {
    var e := ExtractData(reply, memory0);
    var o := Forward(e.text, e.memory, parseJson, send);
    TurnEffect(200, Response(o.text), o.handoff, e.memory, Window(log1 + [Message(Assistant, reply)]))
  }

  /** Steps 3 to 11 for a session holding memory0 and conversation log0: the
      user turn is pushed and windowed, the prompt carries memory0, a failed
      completion is answered with a 500, and a reply is handled as Replied
      says. */
  function Respond(instructions: string, memory0: string, log0: seq<Message>, userMessage: string,
                   complete: seq<Message> -> Option<string>,
                   parseJson: string -> Option<Booking>,
                   send: string -> bool): (t: TurnEffect)
    ensures 0 < |t.conversation| <= WindowLimit
  {
    var log1 := Window(log0 + [Message(User, userMessage)]);
    match complete(AssemblePrompt(instructions, memory0, log1))
    case None => TurnEffect(500, Error(CompletionFailed), NotRequested, memory0, log1)
    case Some(reply) => Replied(memory0, log1, reply, parseJson, send)
  }

  /** Pushing onto a window of one to four turns keeps the previous last turn
      right before the new one. */
  lemma WindowKeepsLastTwo(log: seq<Message>, turn: Message)
    requires 0 < |log| <= WindowLimit
    ensures var w := Window(log + [turn]);
            && 2 <= |w| <= WindowLimit
            && w[|w| - 2] == log[|log| - 1] && w[|w| - 1] == turn
  {
  }

  /** After a reply the conversation ends with the user turn and the raw
      reply; the memory is the body of the reply's `#DATA` block, or stays as
      it was when there is none, in which case the response is the reply put
      through the forward step untouched. */
  lemma RepliedOutcome(memory0: string, log1: seq<Message>, reply: string,
                       parseJson: string -> Option<Booking>, send: string -> bool)
    requires 0 < |log1| <= WindowLimit
    ensures var t := Replied(memory0, log1, reply, parseJson, send);
            && t.status == 200 && t.body.Response?
            && 2 <= |t.conversation| <= WindowLimit
            && t.conversation[|t.conversation| - 2] == log1[|log1| - 1]
            && t.conversation[|t.conversation| - 1] == Message(Assistant, reply)
            && (Exec(reply).None? ==> t.memory == memory0 && t.body.text == Forward(reply, memory0, parseJson, send).text)
            && (Exec(reply).Some? ==> t.memory == Body(reply, Exec(reply).value))
  {
    WindowKeepsLastTwo(log1, Message(Assistant, reply));
  }

  /** A failed completion is answered with a 500; the memory is kept and the
      user turn stays the last stored turn. */
  lemma RespondFailed(instructions: string, memory0: string, log0: seq<Message>, userMessage: string,
                      complete: seq<Message> -> Option<string>,
                      parseJson: string -> Option<Booking>, send: string -> bool)
    requires complete(AssemblePrompt(instructions, memory0, Window(log0 + [Message(User, userMessage)]))).None?
    ensures var t := Respond(instructions, memory0, log0, userMessage, complete, parseJson, send);
            && t.status == 500 && t.body == Error(CompletionFailed) && t.handoff == NotRequested
            && t.memory == memory0 && t.conversation[|t.conversation| - 1] == Message(User, userMessage)
  {
  }

  /** A completion that returns a reply is answered with a 200, and the last
      two stored turns are the user turn and the raw reply. */
  lemma RespondReplied(instructions: string, memory0: string, log0: seq<Message>, userMessage: string,
                       complete: seq<Message> -> Option<string>,
                       parseJson: string -> Option<Booking>, send: string -> bool)
    requires complete(AssemblePrompt(instructions, memory0, Window(log0 + [Message(User, userMessage)]))).Some?
    ensures var t := Respond(instructions, memory0, log0, userMessage, complete, parseJson, send);
            var reply := complete(AssemblePrompt(instructions, memory0, Window(log0 + [Message(User, userMessage)]))).value;
            && t.status == 200
            && t.conversation[|t.conversation| - 2] == Message(User, userMessage)
            && t.conversation[|t.conversation| - 1] == Message(Assistant, reply)
  {
    var log1 := Window(log0 + [Message(User, userMessage)]);
    var reply := complete(AssemblePrompt(instructions, memory0, log1)).value;
    assert Respond(instructions, memory0, log0, userMessage, complete, parseJson, send)
           == Replied(memory0, log1, reply, parseJson, send);
    RepliedOutcome(memory0, log1, reply, parseJson, send);
  }

  /** A turn answers 500 exactly when the completion fails. */
  lemma RespondOutcome(instructions: string, memory0: string, log0: seq<Message>, userMessage: string,
                       complete: seq<Message> -> Option<string>,
                       parseJson: string -> Option<Booking>, send: string -> bool)
    ensures Respond(instructions, memory0, log0, userMessage, complete, parseJson, send).status == 500
            <==> complete(AssemblePrompt(instructions, memory0, Window(log0 + [Message(User, userMessage)]))).None?
  {
    if complete(AssemblePrompt(instructions, memory0, Window(log0 + [Message(User, userMessage)]))).None? {
      RespondFailed(instructions, memory0, log0, userMessage, complete, parseJson, send);
    } else {
      RespondReplied(instructions, memory0, log0, userMessage, complete, parseJson, send);
    }
  }

  /** Steps 10 and 11 in the statement form of app.js:540-563 (the `if`,
      the `try` whose two exits both return, and the final return), proved
      equal to the value-level `Forward`: when the text still holds the
      marker, its first occurrence is removed and the rest trimmed, the
      memory is parsed and its summary sent; the response text is the cleaned
      text either way, or the text untouched when there is no marker. */
  method RelaySummary(text: string, memory: string, parseJson: string -> Option<Booking>, send: string -> bool)
    returns (response: string, handoff: HandoffResult)
    ensures Outcome(response, handoff) == Forward(text, memory, parseJson, send)
  {
    if Contains(text, ForwardMarker) {
      var cleanedResponse := Trim(RemoveFirst(text, ForwardMarker));
      var parsed := parseJson(memory);
      if parsed.None? {
        return cleanedResponse, SummaryFailed;
      }
      var summary := Summary(parsed.value);
      var sent := send(summary);
      return cleanedResponse, if sent then Delivered(summary) else NotDelivered(summary);
    }
    return text, NotRequested;
  }

  /** One visitor's entry of `sessionData`: the JSON memory string and the
      conversation array, both updated in place by the handler. Every push
      is windowed, so (by WindowPush) the conversation is always the last
      min(4, n) of the n turns ever pushed. */
  class Session {
    var memory: string
    var conversation: seq<Message>

    /** The entry created for an unknown session id. */
    constructor ()
      ensures memory == DefaultMemory && conversation == []
    {
      memory := DefaultMemory;
      conversation := [];
    }

    /** `conversation.push(turn)` followed by the `while (length > 4) shift()` loop. */
    method Push(turn: Message)
      modifies this
      ensures conversation == Window(old(conversation) + [turn])
      ensures |conversation| <= WindowLimit && conversation[|conversation| - 1] == turn
      ensures memory == old(memory)
    {
      ghost var pushed := conversation + [turn];
      conversation := conversation + [turn];
      while |conversation| > WindowLimit
        invariant |conversation| <= |pushed|
        invariant conversation == pushed[|pushed| - |conversation|..]
        invariant |conversation| >= WindowLimit || conversation == pushed
        invariant memory == old(memory)
        decreases |conversation|
      {
        conversation := conversation[1..];
      }
    }

    /** Steps 3 to 11 of the handler on this session object: the session
        ends up as Respond says. */
    method Converse(instructions: string, userMessage: string,
                    complete: seq<Message> -> Option<string>,
                    parseJson: string -> Option<Booking>,
                    send: string -> bool)
      returns (status: nat, body: ResponseBody, handoff: HandoffResult)
      modifies this
      ensures var t := Respond(instructions, old(memory), old(conversation), userMessage, complete, parseJson, send);
              && status == t.status && body == t.body && handoff == t.handoff
              && memory == t.memory && conversation == t.conversation
    {
      var currentMemory := memory;

      // 3) and 4) Push the user turn and roll the window.
      Push(Message(User, userMessage));

      // 5) and 6) The system prompt, then the conversation.
      var finalMessages := AssemblePrompt(instructions, currentMemory, conversation);

      // 7) The completion call; a failure is answered with a 500.
      var completion := complete(finalMessages);
      if completion.None? {
        return 500, Error(CompletionFailed), NotRequested;
      }

      // 8) to 11)
      status, body, handoff := Absorb(completion.value, parseJson, send);
    }

    /** Steps 8 to 11 once the completion returned `aiResponse`: the session
        ends up as Replied says. */
    method Absorb(aiResponse: string, parseJson: string -> Option<Booking>, send: string -> bool)
      returns (status: nat, body: ResponseBody, handoff: HandoffResult)
      modifies this
      ensures TurnEffect(status, body, handoff, memory, conversation)
              == Replied(old(memory), old(conversation), aiResponse, parseJson, send)
    {
      var reply := aiResponse;

      // 8) Push the raw reply and roll the window.
      Push(Message(Assistant, reply));

      // 9) The #DATA block: new memory, and the block cut out of the text.
      var text := reply;
      var found := Exec(reply);
      if found.Some? {
        memory := Body(reply, found.value);
        text := Trim(Excise(reply, found.value));
      }
      assert ExtractData(reply, old(memory)) == Extraction(text, memory);

      // 10) and 11) The handoff, then the response.
      var response;
      response, handoff := RelaySummary(text, memory, parseJson, send);
      status, body := 200, Response(response);
    }
  }

  /** `sessionData`: session id to session object. Distinct ids hold distinct
      objects, since every entry is created by its own `set`. */
  class SessionStore {
    /** `baseSystemPrompt`: opaque instruction text for the model. */
    const instructions: string
    var sessions: map<string, Session>
    /** The id each stored object was created for; that it exists says that
        distinct ids hold distinct objects. */
    ghost var keyOf: map<Session, string>

    ghost predicate Valid()
      reads this
    {
      forall k :: k in sessions ==> sessions[k] in keyOf && keyOf[sessions[k]] == k
    }

    constructor (instructions: string)
      ensures Valid() && this.instructions == instructions && sessions == map[]
    {
      this.instructions := instructions;
      sessions := map[];
      keyOf := map[];
    }

    /** Step 2: the entry of `key`, created with the default memory and an
        empty conversation on first sight. No other entry is touched. */
    method Open(key: string) returns (entry: Session)
      requires Valid()
      modifies this
      ensures Valid()
      ensures sessions == old(sessions)[key := entry]
      ensures key in old(sessions) ==> entry == old(sessions[key]) && keyOf == old(keyOf)
      ensures key !in old(sessions) ==>
                && keyOf == old(keyOf)[entry := key] && fresh(entry)
                && entry.memory == DefaultMemory && entry.conversation == []
    {
      if key !in sessions {
        entry := new Session();
        sessions := sessions[key := entry];
        keyOf := keyOf[entry := key];
      } else {
        entry := sessions[key];
      }
    }

    /** The `/chat` handler for one request. `complete` stands for the
        completion API (None when the call throws), `parseJson` for
        `JSON.parse` (None when it throws), `send` for the Telegram send
        (false when it is rejected). Only the entry of this request's session
        may change: no other session object is touched. */
    method Chat(message: Option<string>, cookie: Option<string>, minted: string,
                complete: seq<Message> -> Option<string>,
                parseJson: string -> Option<Booking>,
                send: string -> bool)
      returns (res: ChatResult)
      requires Valid()
      modifies this, if !Falsy(message) && SessionKey(cookie, minted) in sessions
                     then {sessions[SessionKey(cookie, minted)]} else {}
      ensures Valid()
      // A missing or empty message is refused before any session work.
      ensures Falsy(message) ==>
                res == ChatResult(400, Error(NoMessage), None, NotRequested) && sessions == old(sessions)
      // The session of this request exists afterwards: the old entry, or a
      // fresh one; every other id keeps its entry.
      ensures !Falsy(message) ==>
                var key := SessionKey(cookie, minted);
                && res.setCookie == (if Falsy(cookie) then Some(minted) else None)
                && key in sessions && sessions == old(sessions)[key := sessions[key]]
                && (key in old(sessions) ==> sessions[key] == old(sessions[key]))
                && (key !in old(sessions) ==> fresh(sessions[key]))
      // The turn itself runs on the memory and conversation the session held
      // before the request (the defaults for a new session).
      ensures !Falsy(message) ==>
                var key := SessionKey(cookie, minted);
                var memory0 := if key in old(sessions) then old(sessions[key].memory) else DefaultMemory;
                var log0 := if key in old(sessions) then old(sessions[key].conversation) else [];
                var t := Respond(instructions, memory0, log0, message.value, complete, parseJson, send);
                && res == ChatResult(t.status, t.body, res.setCookie, t.handoff)
                && sessions[key].memory == t.memory
                && sessions[key].conversation == t.conversation
    {
      if Falsy(message) {
        return ChatResult(400, Error(NoMessage), None, NotRequested);
      }

      // 1) Session id: the cookie, or a minted id that is set as the cookie.
      var sessionId := SessionKey(cookie, minted);
      var setCookie := if Falsy(cookie) then Some(minted) else None;

      // 2) Create the entry on first sight.
      var dataObj := Open(sessionId);
      ghost var memory0 := dataObj.memory;
      ghost var log0 := dataObj.conversation;
      assert memory0 == if sessionId in old(sessions) then old(sessions[sessionId].memory) else DefaultMemory;
      assert log0 == if sessionId in old(sessions) then old(sessions[sessionId].conversation) else [];

      // 3) to 11) The turn on the session object.
      var status, body, handoff := dataObj.Converse(instructions, message.value, complete, parseJson, send);
      res := ChatResult(status, body, setCookie, handoff);
    }
  }
}
