/**
 * The `Chat` component: the transcript `messages`, the text field `input`
 * and the `isLoading` flag. `handleSubmit` runs in two steps separated by the
 * `await` on the chat call: `Begin` (checks, appends the user message, clears
 * the field, sets loading, and issues the request) and `Complete` (appends the
 * reply or the fixed error notice, clears loading). `handleClearChat` empties
 * the transcript. Both completion and clear update `messages` from its value at
 * the time they run.
 */
module Chat {
  import opened Wrappers
  import opened JsString
  import opened Ollama

  /** The assistant message shown in place of a failed reply. */
  const ErrorNotice := "Sorry, I encountered an error. Please make sure Ollama is running."

  datatype ChatState = ChatState(messages: seq<Message>, input: string, isLoading: bool)

  /** The state on mount: no messages, an empty field, not loading. */
  const Initial := ChatState([], "", false)

  /** The state after the submit's synchronous part, and the chat request it issued, if any. */
  datatype Submission = Submission(state: ChatState, request: Option<ChatRequest>)

  /** The content of the assistant message a settled chat call produces. */
  function ReplyContent(reply: Result<string, string>): (content: string)
    ensures reply.Ok? ==> content == reply.value
    ensures reply.Err? ==> content == ErrorNotice
  {
    match reply
    case Ok(text) => text
    case Err(_) => ErrorNotice
  }

  /** Typing in the field (its `onChange`). */
  function EditInput(s: ChatState, text: string): (r: ChatState)
    ensures r.input == text && r.messages == s.messages && r.isLoading == s.isLoading
  {
    s.(input := text)
  }

  /**
   * The synchronous part of `handleSubmit`. A blank field or a request in
   * flight makes it a no-op. Otherwise exactly one user message holding the
   * trimmed text is appended, the field is cleared, loading is set, and the
   * chat call is given the whole prior transcript followed by that message.
   */
  function Begin(s: ChatState, model: string): (r: Submission)
    ensures r.request.Some? <==> !IsBlank(s.input) && !s.isLoading
    ensures r.request.None? ==> r.state == s
    ensures r.request.Some? ==>
      r.state.messages == s.messages + [Message(User, Trim(s.input))] &&
      r.state.input == "" && r.state.isLoading &&
      r.request.value == ChatRequest(model, r.state.messages, false)
  {
    TrimSpec(s.input);
    if Trim(s.input) == "" || s.isLoading then Submission(s, None)
    else
      var userMessage := Message(User, Trim(s.input));
      Submission(ChatState(s.messages + [userMessage], "", true),
                 Some(ChatCall(s.messages + [userMessage], model)))
  }

  /**
   * The part of `handleSubmit` after the chat call settles: exactly one
   * assistant message is appended to the transcript as it is now (the reply,
   * or the fixed notice on failure), and loading is cleared whatever the outcome.
   */
  function Complete(s: ChatState, reply: Result<string, string>): (r: ChatState)
    ensures r.messages == s.messages + [Message(Assistant, ReplyContent(reply))]
    ensures !r.isLoading && r.input == s.input
  {
    ChatState(s.messages + [Message(Assistant, ReplyContent(reply))], s.input, false)
  }

  /** `handleClearChat`: the transcript is emptied, nothing else changes. */
  function Clear(s: ChatState): (r: ChatState)
    ensures r.messages == [] && r.input == s.input && r.isLoading == s.isLoading
  {
    s.(messages := [])
  }

  /** One turn of the conversation: the user types `text`, submits, and the call settles with `reply`. */
  datatype Turn = Turn(text: string, reply: Result<string, string>)

  /** A turn as the component runs it; a rejected submit issues no call and so never completes. */
  function Step(s: ChatState, model: string, turn: Turn): ChatState {
    var begun := Begin(EditInput(s, turn.text), model);
    if begun.request.Some? then Complete(begun.state, turn.reply) else begun.state
  }

  /** A sequence of turns, with no clear in between. */
  function Converse(s: ChatState, model: string, turns: seq<Turn>): ChatState
    decreases |turns|
  {
    if turns == [] then s
    else Step(Converse(s, model, turns[..|turns| - 1]), model, turns[|turns| - 1])
  }

  /** The messages a sequence of accepted turns adds: user then assistant, turn after turn. */
  function Transcript(turns: seq<Turn>): seq<Message>
    decreases |turns|
  {
    if turns == [] then []
    else
      var t := turns[|turns| - 1];
      Transcript(turns[..|turns| - 1]) + [Message(User, Trim(t.text)), Message(Assistant, ReplyContent(t.reply))]
  }

  /** Turns whose text is not blank, so that every submit is accepted. */
  predicate Substantive(turns: seq<Turn>) {
    forall i :: 0 <= i < |turns| ==> !IsBlank(turns[i].text)
  }

  /**
   * Every accepted turn appends its user message and then its assistant
   * message to the transcript, and leaves nothing loading.
   */
  lemma {:induction false} ConverseAppends(s: ChatState, model: string, turns: seq<Turn>)
    requires !s.isLoading && Substantive(turns)
    ensures Converse(s, model, turns).messages == s.messages + Transcript(turns)
    ensures !Converse(s, model, turns).isLoading
    decreases |turns|
  {
    if turns != [] {
      var init, t := turns[..|turns| - 1], turns[|turns| - 1];
      assert Substantive(init) by {
        forall i | 0 <= i < |init| ensures !IsBlank(init[i].text) {
          assert init[i] == turns[i];
        }
      }
      assert !IsBlank(t.text);
      ConverseAppends(s, model, init);
      var before := Converse(s, model, init);
      var u, a := Message(User, Trim(t.text)), Message(Assistant, ReplyContent(t.reply));
      var begun := Begin(EditInput(before, t.text), model);
      assert begun.state.messages == before.messages + [u];
      var after := Complete(begun.state, t.reply);
      assert after == Converse(s, model, turns);
      assert Transcript(turns) == Transcript(init) + [u, a];
      calc {
        after.messages;
        (before.messages + [u]) + [a];
        (s.messages + Transcript(init)) + [u] + [a];
        s.messages + (Transcript(init) + [u, a]);
      }
    }
  }

  /** A transcript of N turns has 2N messages, alternating user and assistant, holding exactly what was sent and received. */
  lemma {:induction false} TranscriptShape(turns: seq<Turn>)
    ensures |Transcript(turns)| == 2 * |turns|
    ensures forall i :: 0 <= i < |turns| ==>
      Transcript(turns)[2 * i] == Message(User, Trim(turns[i].text)) &&
      Transcript(turns)[2 * i + 1] == Message(Assistant, ReplyContent(turns[i].reply))
    decreases |turns|
  {
    if turns != [] {
      var n := |turns| - 1;
      var init, t := turns[..n], turns[n];
      TranscriptShape(init);
      var T0 := Transcript(init);
      var T := Transcript(turns);
      assert T == T0 + [Message(User, Trim(t.text)), Message(Assistant, ReplyContent(t.reply))];
      forall i | 0 <= i < |turns|
        ensures T[2 * i] == Message(User, Trim(turns[i].text))
        ensures T[2 * i + 1] == Message(Assistant, ReplyContent(turns[i].reply))
      {
        if i < n {
          assert turns[i] == init[i];
          assert T[2 * i] == T0[2 * i] && T[2 * i + 1] == T0[2 * i + 1];
        }
      }
    }
  }

  /**
   * From a fresh component and with no clears, N completed submits leave 2N
   * messages alternating user and assistant, and each request carried the
   * whole transcript before it.
   */
  lemma AlternatingTranscript(model: string, turns: seq<Turn>)
    requires Substantive(turns)
    ensures var s := Converse(Initial, model, turns);
      |s.messages| == 2 * |turns| && !s.isLoading &&
      forall i :: 0 <= i < |turns| ==>
        s.messages[2 * i] == Message(User, Trim(turns[i].text)) &&
        s.messages[2 * i + 1] == Message(Assistant, ReplyContent(turns[i].reply))
  {
    ConverseAppends(Initial, model, turns);
    TranscriptShape(turns);
    assert [] + Transcript(turns) == Transcript(turns);
  }

  /**
   * The next request after N turns carries the full history, with no
   * truncation, and goes to the model selected now: turns run against an
   * earlier model stay in the transcript.
   */
  lemma FullHistorySent(earlier: string, model: string, turns: seq<Turn>, text: string)
    requires Substantive(turns) && !IsBlank(text)
    ensures Begin(EditInput(Converse(Initial, earlier, turns), text), model).request
         == Some(ChatRequest(model, Transcript(turns) + [Message(User, Trim(text))], false))
  {
    ConverseAppends(Initial, earlier, turns);
    assert [] + Transcript(turns) == Transcript(turns);
  }

  /**
   * The component's state never depends on the model: switching the model
   * between turns changes only where the requests go.
   */
  lemma {:induction false} ConverseModelIndependent(s: ChatState, a: string, b: string, turns: seq<Turn>)
    ensures Converse(s, a, turns) == Converse(s, b, turns)
    decreases |turns|
  {
    if turns != [] {
      var init, t := turns[..|turns| - 1], turns[|turns| - 1];
      ConverseModelIndependent(s, a, b, init);
      var before := EditInput(Converse(s, a, init), t.text);
      assert Begin(before, a).state == Begin(before, b).state;
      assert Begin(before, a).request.Some? == Begin(before, b).request.Some?;
    }
  }

  /** Submitting the same state under two models differs only in the request's `model`. */
  lemma BeginModelIndependent(s: ChatState, a: string, b: string)
    ensures Begin(s, a).state == Begin(s, b).state
    ensures Begin(s, a).request.Some? == Begin(s, b).request.Some?
    ensures Begin(s, a).request.Some? ==> Begin(s, b).request == Some(Begin(s, a).request.value.(model := b))
  {
  }

  /**
   * A clear while the call is in flight does not stop the completion: it
   * appends to the emptied transcript, which then holds only the assistant
   * message.
   */
  lemma ClearDuringRequest(s: ChatState, model: string, reply: Result<string, string>)
    requires Begin(s, model).request.Some?
    ensures Complete(Clear(Begin(s, model).state), reply).messages == [Message(Assistant, ReplyContent(reply))]
    ensures !Complete(Clear(Begin(s, model).state), reply).isLoading
  {
  }

  /** The component's state cells and the handlers that update them. */
  class ChatView {
    var messages: seq<Message>
    var input: string
    var isLoading: bool

    function State(): ChatState
      reads this
    {
      ChatState(messages, input, isLoading)
    }

    constructor ()
      ensures State() == Initial
    {
      messages := [];
      input := "";
      isLoading := false;
    }

    /** The text field's `onChange`. */
    method ChangeInput(text: string)
      modifies this
      ensures State() == EditInput(old(State()), text)
    {
      input := text;
    }

    /**
     * `handleSubmit` up to the `await`, with the `model` prop as it is at that
     * moment; `request` is what is passed to `chat`, if anything.
     */
    method BeginSubmit(model: string) returns (request: Option<ChatRequest>)
      modifies this
      ensures Submission(State(), request) == Begin(old(State()), model)
    {
      if Trim(input) == "" || isLoading {
        return None;
      }
      var userMessage := Message(User, Trim(input));
      var conversation := messages + [userMessage];
      messages := conversation;
      input := "";
      isLoading := true;
      request := Some(ChatCall(conversation, model));
    }

    /** `handleSubmit` after the `await`, with the settled result of `chat`. */
    method CompleteSubmit(reply: Result<string, string>)
      modifies this
      ensures State() == Complete(old(State()), reply)
    {
      var content := match reply
        case Ok(text) => text
        case Err(_) => ErrorNotice;
      messages := messages + [Message(Assistant, content)];
      isLoading := false;
    }

    /** `handleClearChat`. */
    method ClearChat()
      modifies this
      ensures State() == Clear(old(State()))
    {
      messages := [];
    }
  }
}
