/**
 * The client of the model-serving HTTP API (`ollamaService`): the outcome
 * contracts of `listModels` and `chat`, and the line splitter of
 * `streamChat`, which turns a newline-delimited JSON stream into reply
 * fragments. HTTP exchanges are inputs here; `JSON.parse` is the parameter
 * `parse`.
 */
module Ollama {
  import opened Wrappers
  import opened JsString

  datatype Role = User | Assistant | System

  /** One entry of a conversation. */
  datatype Message = Message(role: Role, content: string)

  /** The body posted to the chat endpoint. */
  datatype ChatRequest = ChatRequest(model: string, messages: seq<Message>, stream: bool)

  /** How an HTTP exchange ended: a transport or status failure, or a decoded body. */
  datatype HttpOutcome<T> = Failed | Received(body: T)

  /** The parts of the model-list body that are read: `models[].name`, when `models` is present. */
  datatype ModelTag = ModelTag(name: string)
  datatype TagsBody = TagsBody(models: Option<seq<ModelTag>>)

  /** The part of a chat reply that is read: `message`, when present. */
  datatype ChatBody = ChatBody(message: Option<Message>)

  /** The one error `chat` fails with, whatever went wrong. */
  const ChatFailure := "Failed to chat with Ollama"

  /** The one error `streamChat` fails with, whatever went wrong. */
  const StreamFailure := "Failed to stream from Ollama"

  /**
   * `listModels` never fails: a failed exchange or a body without a model
   * list gives no models, otherwise the model names in the server's order.
   */
  function ListModels(response: HttpOutcome<TagsBody>): (names: seq<string>)
    ensures response.Failed? ==> names == []
    ensures response.Received? && response.body.models.None? ==> names == []
    ensures response.Received? && response.body.models.Some? ==>
      var tags := response.body.models.value;
      |names| == |tags| && forall i :: 0 <= i < |tags| ==> names[i] == tags[i].name
  {
    match response
    case Failed => []
    case Received(TagsBody(None)) => []
    case Received(TagsBody(Some(tags))) => seq(|tags|, i requires 0 <= i < |tags| => tags[i].name)
  }

  /** The request `chat` posts: the whole conversation, not streamed. */
  function ChatCall(messages: seq<Message>, model: string): ChatRequest {
    ChatRequest(model, messages, false)
  }

  /**
   * `chat` settles with the reply's `message.content`, or rejects with the
   * single fixed error when the exchange failed or the body has no message.
   */
  function Chat(response: HttpOutcome<ChatBody>): (reply: Result<string, string>)
    ensures reply.Ok? <==> response.Received? && response.body.message.Some?
    ensures reply.Ok? ==> reply.value == response.body.message.value.content
    ensures reply.Err? ==> reply.error == ChatFailure
  {
    match response
    case Received(ChatBody(Some(message))) => Ok(message.content)
    case _ => Err(ChatFailure)
  }

  /** What `JSON.parse` followed by `data.message?.content` gives for one line. */
  datatype ParseResult = Invalid | Parsed(content: Option<string>)

  /**
   * The fragment one complete line contributes: nothing for a blank line,
   * nothing for a line that does not parse, and otherwise the line's message
   * content when it is present and non-empty.
   */
  function LineFragment(parse: string -> ParseResult, line: string): (fragment: Option<string>)
    ensures IsBlank(line) ==> fragment == None
    ensures parse(line).Invalid? ==> fragment == None
    ensures fragment.Some? ==> fragment.value != "" && parse(line) == Parsed(fragment)
    ensures (!IsBlank(line) && parse(line).Parsed? && parse(line).content.Some? &&
             parse(line).content.value != "") ==> fragment == parse(line).content
  {
    TrimSpec(line);
    if Trim(line) == "" then None
    else
      match parse(line)
      case Parsed(Some(content)) => if content != "" then Some(content) else None
      case _ => None
  }

  function AsSeq(fragment: Option<string>): seq<string> {
    match fragment
    case None => []
    case Some(f) => [f]
  }

  /** The fragments a sequence of complete lines yields, line by line in order. */
  function Emit(parse: string -> ParseResult, lines: seq<string>): (fragments: seq<string>)
    decreases |lines|
  {
    if lines == [] then []
    else Emit(parse, lines[..|lines| - 1]) + AsSeq(LineFragment(parse, lines[|lines| - 1]))
  }

  /** The fragments of all complete lines of `text`; its unterminated trailing piece yields nothing. */
  function Fragments(parse: string -> ParseResult, text: string): seq<string> {
    Emit(parse, LeadingPieces(text))
  }

  /** Everything read from the connection, in order. */
  function Concat(chunks: seq<string>): string
    decreases |chunks|
  {
    if chunks == [] then "" else Concat(chunks[..|chunks| - 1]) + chunks[|chunks| - 1]
  }

  /** One more line adds its own fragment, if any, at the end. */
  lemma EmitSnoc(parse: string -> ParseResult, lines: seq<string>, line: string)
    ensures Emit(parse, lines + [line]) == Emit(parse, lines) + AsSeq(LineFragment(parse, line))
  {
    assert (lines + [line])[..|lines|] == lines;
  }

  lemma ConcatSnoc(chunks: seq<string>, i: nat)
    requires i < |chunks|
    ensures Concat(chunks[..i + 1]) == Concat(chunks[..i]) + chunks[i]
  {
    assert chunks[..i + 1][..i] == chunks[..i];
  }

  lemma EmitStep(parse: string -> ParseResult, lines: seq<string>, j: nat)
    requires j < |lines|
    ensures Emit(parse, lines[..j + 1]) == Emit(parse, lines[..j]) + AsSeq(LineFragment(parse, lines[j]))
  {
    assert lines[..j + 1][..j] == lines[..j];
  }

  /** Lines are handled independently and in order. */
  lemma {:induction false} EmitAppend(parse: string -> ParseResult, a: seq<string>, b: seq<string>)
    ensures Emit(parse, a + b) == Emit(parse, a) + Emit(parse, b)
    decreases |b|
  {
    if b == [] {
      assert a + b == a;
    } else {
      var b', l := b[..|b| - 1], b[|b| - 1];
      assert b == b' + [l];
      assert a + b == (a + b') + [l];
      EmitAppend(parse, a, b');
      EmitSnoc(parse, a + b', l);
      EmitSnoc(parse, b', l);
    }
  }

  /**
   * A line that yields nothing (blank, unparsable, or without content) does
   * not stop the lines after it from being processed.
   */
  lemma SkippedLineHarmless(parse: string -> ParseResult, before: seq<string>, line: string, after: seq<string>)
    requires LineFragment(parse, line) == None
    ensures Emit(parse, before + [line] + after) == Emit(parse, before) + Emit(parse, after)
  {
    EmitAppend(parse, before + [line], after);
    EmitSnoc(parse, before, line);
  }

  /**
   * The buffer carried across reads loses nothing: the complete lines, joined
   * by line feeds, then a line feed and the buffer, give back the text read.
   */
  lemma BufferReconstructs(text: string)
    ensures LeadingPieces(text) == [] ==> TrailingPiece(text) == text
    ensures LeadingPieces(text) != [] ==>
      JoinLines(LeadingPieces(text)) + "\n" + TrailingPiece(text) == text
  {
    var L, t := LeadingPieces(text), TrailingPiece(text);
    JoinSplitLines(text);
    assert SplitLines(text) == L + [t];
    if L == [] {
      assert L + [t] == [t];
    } else {
      JoinLinesSnoc(L, t);
    }
  }

  /**
   * Reading `b` after `a` yields the fragments of `a` followed by those of
   * `a`'s unterminated trailing piece read together with `b`: this is why the
   * buffer can stand in for everything read so far.
   */
  lemma FragmentsAppend(parse: string -> ParseResult, a: string, b: string)
    ensures Fragments(parse, a + b) == Fragments(parse, a) + Fragments(parse, TrailingPiece(a) + b)
    ensures TrailingPiece(a + b) == TrailingPiece(TrailingPiece(a) + b)
  {
    SplitLinesAppend(a, b);
    EmitAppend(parse, LeadingPieces(a), LeadingPieces(TrailingPiece(a) + b));
  }

  /**
   * There is no flush when the stream ends: text after the final line feed
   * yields nothing, even when it is a complete JSON object.
   */
  lemma UnterminatedTextIgnored(parse: string -> ParseResult, text: string, rest: string)
    requires IsLine(rest)
    ensures Fragments(parse, text + rest) == Fragments(parse, text)
  {
    var t := TrailingPiece(text);
    SplitLinesAppend(text, rest);
    assert IsLine(t + rest);
    SplitLinesOfLine(t + rest);
    assert LeadingPieces(text) + [] == LeadingPieces(text);
  }

  /**
   * The inner loop of `streamChat` over the complete lines of one read: each
   * line in order yields its fragment, if any.
   */
  method HandleLines(parse: string -> ParseResult, lines: seq<string>) returns (yielded: seq<string>)
    ensures yielded == Emit(parse, lines)
  {
    yielded := [];
    for j := 0 to |lines|
      invariant yielded == Emit(parse, lines[..j])
    {
      var line := lines[j];
      EmitStep(parse, lines, j);
      if Trim(line) != "" {
        match parse(line) {
          case Parsed(Some(content)) =>
            if content != "" {
              yielded := yielded + [content];
            }
          case _ =>
        }
      }
    }
    assert lines[..|lines|] == lines;
  }

  /**
   * `streamChat` once the POST has been answered: `chunks` are the decoded
   * reads, and `interrupted` says whether the request or a read failed after
   * them. The fragments are those of the complete lines of everything read,
   * so they depend only on the concatenation of the chunks and not on where
   * the reads split it; what is left in the buffer is never yielded.
   */
  method StreamChat(parse: string -> ParseResult, chunks: seq<string>, interrupted: bool)
    returns (fragments: seq<string>, failure: Option<string>, unflushed: string)
    ensures fragments == Fragments(parse, Concat(chunks))
    ensures unflushed == TrailingPiece(Concat(chunks)) && IsLine(unflushed)
    ensures failure == (if interrupted then Some(StreamFailure) else None)
  {
    fragments := [];
    var buffer := "";
    for i := 0 to |chunks|
      invariant buffer == TrailingPiece(Concat(chunks[..i]))
      invariant fragments == Fragments(parse, Concat(chunks[..i]))
    {
      ghost var consumed := Concat(chunks[..i]);
      buffer := buffer + chunks[i];
      var pieces := SplitLines(buffer);
      buffer := pieces[|pieces| - 1];
      var lines := pieces[..|pieces| - 1];
      assert lines == LeadingPieces(TrailingPiece(consumed) + chunks[i]);
      var yielded := HandleLines(parse, lines);
      fragments := fragments + yielded;
      FragmentsAppend(parse, consumed, chunks[i]);
      ConcatSnoc(chunks, i);
    }
    assert chunks[..|chunks|] == chunks;
    unflushed := buffer;
    failure := if interrupted then Some(StreamFailure) else None;
  }
}
