/** The study assistant's transcript (components/ChatAssistant.tsx): the send
    guard, the outgoing text with its note context, the history handed to the
    model, and the one model message that answers each accepted send. The
    awaited call is split in two steps: BeginSend up to the request, and
    CompleteSend with the reply the service gave. */
module Chat {
  import opened Types
  import opened Text

  /** One `{ text }` part of a history entry. */
  datatype Part = Part(text: string)

  /** `{ role, parts }`, the shape the chat service takes as history. */
  datatype HistoryEntry = HistoryEntry(role: Role, parts: seq<Part>)

  /** What handleSend passes to the chat service. */
  datatype ChatRequest = ChatRequest(message: string, history: seq<HistoryEntry>)

  /** How the awaited call ends: a reply (`None` for an undefined text), or a
      thrown error. */
  datatype ChatReply = Replied(text: Option<string>) | Failed

  const Fallback := "I'm sorry, I couldn't process that."
  const ConnectionError := "An error occurred. Check your connection."

  /** `messages.map(m => ({ role: m.role, parts: [{ text: m.text }] }))`. */
  function History(messages: seq<ChatMessage>): (h: seq<HistoryEntry>)
    ensures |h| == |messages|
    ensures forall i :: 0 <= i < |h| ==> h[i].role == messages[i].role && h[i].parts == [Part(messages[i].text)]
  {
    if messages == [] then [] else [HistoryEntry(messages[0].role, [Part(messages[0].text)])] + History(messages[1..])
  }

  /** Reading the transcript back out of a history: the first part of each entry. */
  function Transcript(h: seq<HistoryEntry>): (m: seq<ChatMessage>)
    ensures |m| == |h|
  {
    if h == [] then []
    else [ChatMessage(h[0].role, if h[0].parts == [] then "" else h[0].parts[0].text)] + Transcript(h[1..])
  }

  /** The history loses nothing: the transcript can be read back from it. */
  lemma {:induction false} HistoryRoundTrip(messages: seq<ChatMessage>)
    ensures Transcript(History(messages)) == messages
  {
    if messages != [] {
      HistoryRoundTrip(messages[1..]);
      assert History(messages)[1..] == History(messages[1..]);
    }
  }

  const ContextPrefix := "\n\n[Context from current note: \""

  /** `contextText`: the note's title and content, or nothing without a note. */
  function ContextSuffix(note: Option<Note>): (r: string)
    ensures note.None? <==> r == ""
    ensures note.Some? ==> ContextPrefix <= r && |note.value.content| <= |r| && r[|r| - |note.value.content|..] == note.value.content
  {
    match note
    case None => ""
    case Some(n) => ContextPrefix + n.title + "\"]: " + n.content
  }

  /** `userMessage + contextText`, the text sent to the service. */
  function Outgoing(message: string, note: Option<Note>): (r: string)
    ensures message <= r
    ensures note.None? <==> r == message
    ensures note.Some? ==> |message| + |ContextPrefix| <= |r| && r[|message|..|message| + |ContextPrefix|] == ContextPrefix
    ensures note.Some? ==> Includes(r, note.value.title) && Includes(r, note.value.content)
  {
    if note.Some? then OutgoingWithNote(message, note.value); message + ContextSuffix(note)
    else message + ContextSuffix(note)
  }

  lemma OutgoingWithNote(message: string, n: Note)
    ensures var r := message + ContextSuffix(Some(n));
      && |message| + |ContextPrefix| <= |r|
      && r[|message|..|message| + |ContextPrefix|] == ContextPrefix
      && Includes(r, n.title) && Includes(r, n.content)
  {
    var r := message + ContextSuffix(Some(n));
    var at := |message| + |ContextPrefix|;
    assert r == message + ContextPrefix + n.title + "\"]: " + n.content;
    assert n.title <= r[at..];
    assert n.content <= r[|r| - |n.content|..];
  }

  /** The text of the model message: the reply when it is non-empty, the
      fallback for an empty or undefined reply, the error text on failure. */
  function ReplyText(reply: ChatReply): (t: string)
    ensures t != ""
    ensures reply.Failed? ==> t == ConnectionError
    ensures reply.Replied? && reply.text.Some? && reply.text.value != "" ==> t == reply.text.value
    ensures reply.Replied? && (reply.text.None? || reply.text.value == "") ==> t == Fallback
  {
    match reply
    case Failed => ConnectionError
    case Replied(Some(s)) => if s != "" then s else Fallback
    case Replied(None) => Fallback
  }

  /** The transcript alternates: user messages at even positions, model
      messages at odd ones. */
  predicate Alternates(messages: seq<ChatMessage>)
  {
    forall i :: 0 <= i < |messages| ==> messages[i].role == (if i % 2 == 0 then User else Model)
  }

  /** One user message and then one model message keep the alternation. */
  lemma AlternatesExtend(messages: seq<ChatMessage>, m: ChatMessage)
    requires Alternates(messages)
    requires m.role == (if |messages| % 2 == 0 then User else Model)
    ensures Alternates(messages + [m])
  {
  }

  class ChatSession {
    var messages: seq<ChatMessage>
    var input: string
    var isLoading: bool

    /** Every accepted send is answered before the next one is accepted: the
        transcript alternates, and a request is pending exactly when the last
        message is the user's. */
    predicate Valid()
      reads this
    {
      Alternates(messages) && (isLoading <==> |messages| % 2 == 1)
    }

    constructor ()
      ensures Valid() && messages == [] && input == "" && !isLoading
    {
      messages := [];
      input := "";
      isLoading := false;
    }

    /** The input box's onChange. */
    method EditInput(text: string)
      modifies this`input
      ensures input == text
    {
      input := text;
    }

    /** handleSend up to the awaited call: refuse a blank input or a second
        request; otherwise clear the input, append the trimmed user message,
        mark the request pending and build it from the transcript as it was. */
    method BeginSend(contextNote: Option<Note>) returns (request: Option<ChatRequest>)
      modifies this`input, this`messages, this`isLoading
      ensures IsBlank(old(input)) || old(isLoading) ==>
        request.None? && input == old(input) && messages == old(messages) && isLoading == old(isLoading)
      ensures !IsBlank(old(input)) && !old(isLoading) ==>
        && request == Some(ChatRequest(Outgoing(Trim(old(input)), contextNote), History(old(messages))))
        && input == ""
        && messages == old(messages) + [ChatMessage(User, Trim(old(input)))]
        && isLoading
      ensures old(Valid()) ==> Valid()
    {
      var trimmed := NonBlankTrim(input);
      if trimmed.None? || isLoading {
        request := None;
        return;
      }
      var userMessage := trimmed.value;
      var history := History(messages);
      var sent := messages + [ChatMessage(User, userMessage)];
      if Alternates(messages) && |messages| % 2 == 0 {
        AlternatesExtend(messages, ChatMessage(User, userMessage));
        assert Alternates(sent) && |sent| % 2 == 1;
      }
      input := "";
      messages := sent;
      isLoading := true;
      request := Some(ChatRequest(Outgoing(userMessage, contextNote), history));
    }

    /** handleSend after the awaited call: exactly one model message, then
        the pending flag is cleared whatever the outcome. */
    method CompleteSend(reply: ChatReply)
      modifies this`messages, this`isLoading
      ensures messages == old(messages) + [ChatMessage(Model, ReplyText(reply))]
      ensures !isLoading
      ensures old(Valid()) && old(isLoading) ==> Valid()
    {
      if Alternates(messages) && |messages| % 2 == 1 {
        AlternatesExtend(messages, ChatMessage(Model, ReplyText(reply)));
      }
      messages := messages + [ChatMessage(Model, ReplyText(reply))];
      isLoading := false;
    }
  }
}
