# Ollama chat client — verified model

A Dafny model of the logic in a browser chat client for a local Ollama
model server. The model covers three parts of the client.

- **`ollamaService`** (`src/services/ollama.ts`, module `Ollama`). `listModels`
  never fails and degrades to an empty list. `chat` returns the reply text or
  fails with one fixed error. `streamChat` buffers a newline-delimited JSON
  stream across reads and yields one fragment per complete line that carries
  non-empty message content. HTTP exchanges are inputs (`HttpOutcome`).
  `JSON.parse`, followed by reading `message?.content`, is the parameter
  `parse: string -> ParseResult`.
- **The `Chat` component** (`src/components/Chat.tsx`, module `Chat`). Its state
  cells are `messages`, `input` and `isLoading`. `handleSubmit` is split at its
  `await` into `Begin` and `Complete`. `handleClearChat` is `Clear`. Class
  `ChatView` holds the cells and updates them in place. Each of its methods is
  proved equal to the matching transition function, and the lemmas are stated
  about those functions.
- **The `App` component** (`src/App.tsx`, module `App`). `loadModels` goes from
  loading to ready, with the first model selected, or to an error. Its two steps
  are `StartLoad` and `FinishLoad`. The model picker is `SelectModel`. The chat
  view is rendered when `!isLoading && !error`. Class `AppView` holds the cells.

Module `JsString` models the JavaScript built-ins the code relies on:
`trim` (with ECMAScript's whitespace set), `split('\n')`, and the matching
`join('\n')`. Module `Wrappers` holds `Option` and `Result`.

## Model

| member | source | states |
|---|---|---|
| `JsString.TrimSpec` | src/services/ollama.ts:101 | `trim` gives the empty string exactly for blank text. Otherwise its result neither starts nor ends with whitespace, and it is what is left after a blank prefix and a blank suffix are cut off. |
| `JsString.TrimSurrounded` | src/components/Chat.tsx:25-29 | Reference description of `trim`: text that does not start or end with whitespace, wrapped in any blanks, trims back to exactly that text. |
| `JsString.TrimIdempotent` | src/components/Chat.tsx:27-30 | The stored user content is already trimmed: trimming it again changes nothing. |
| `JsString.TrailingPiece` | src/services/ollama.ts:98 | The piece kept back as the buffer never contains a line feed. |
| `JsString.LeadingPieces` | src/services/ollama.ts:97-100 | None of the complete lines handed to the line loop contains a line feed. |
| `JsString.SplitLines` | src/services/ollama.ts:97-98 | `split('\n')` always gives at least one piece. Its last piece, the one `pop()` takes, is the text after the last line feed. No piece contains a line feed. |
| `JsString.TrailingPieceIsSuffix` | src/services/ollama.ts:96-98 | The new buffer is exactly the text after the last line feed of old buffer ++ chunk: a suffix, preceded by a line feed unless it is the whole text. |
| `JsString.JoinSplitLines` | src/services/ollama.ts:97 | Splitting loses nothing: joining the pieces with line feeds gives back the text. |
| `JsString.SplitJoinLines` | src/services/ollama.ts:97 | The converse: newline-free pieces, joined and then split, come back unchanged. |
| `JsString.SplitLinesAppend` | src/services/ollama.ts:95-98 | Splitting `a + b` keeps the complete lines of `a` and splits `a`'s trailing piece again together with `b`. |
| `Ollama.ListModels` | src/services/ollama.ts:69-77 | `listModels` never fails. A failed exchange or a body without `models` gives `[]`. Otherwise it gives the model names, in the server's order. |
| `Ollama.Chat` | src/services/ollama.ts:51-64 | `chat` settles with `message.content` exactly when the exchange succeeded and the body has a message. Otherwise it rejects with the single fixed error. |
| `Ollama.LineFragment` | src/services/ollama.ts:101-109 | A blank line yields nothing. A line that fails to parse yields nothing. A parsed line yields exactly its non-empty `message.content`, and nothing when that is missing or empty. |
| `Ollama.EmitAppend` | src/services/ollama.ts:100-111 | Lines are handled independently and in order: the fragments of `a + b` are those of `a` followed by those of `b`. |
| `Ollama.SkippedLineHarmless` | src/services/ollama.ts:102-109 | A line that yields nothing, whether blank, unparsable or without content, does not stop the later lines from yielding theirs. |
| `Ollama.BufferReconstructs` | src/services/ollama.ts:96-100 | The complete lines joined with line feeds, then a line feed and the new buffer, reconstruct old buffer ++ chunk. |
| `Ollama.FragmentsAppend` | src/services/ollama.ts:95-111 | Reading `b` after `a` yields the fragments of `a` and then those of `a`'s trailing piece read together with `b`. This is why the buffer can stand in for everything read so far. |
| `Ollama.UnterminatedTextIgnored` | src/services/ollama.ts:98-112 | No flush: text after the last line feed yields nothing, even when it is a complete JSON object. |
| `Ollama.HandleLines` | src/services/ollama.ts:100-111 | The inner loop over one read's complete lines yields exactly the fragments of those lines, in order. |
| `Ollama.StreamChat` | src/services/ollama.ts:82-117 | The fragments are those of the complete lines of the concatenated reads, so they do not depend on where reads split the stream. The final buffer is the unterminated rest, which is never yielded. A failed request or read ends in the fixed stream error. |
| `Chat.ReplyContent` | src/components/Chat.tsx:39-51 | The assistant message holds the reply on success and the fixed notice on failure. |
| `Chat.EditInput` | src/components/Chat.tsx:105 | Typing replaces `input` and changes nothing else. |
| `Chat.Begin` | src/components/Chat.tsx:22-37 | Submit is a no-op exactly when the input is blank or a request is in flight. Otherwise it appends one `user` message with the trimmed input, clears `input` and sets `isLoading`. The request carries the model and the prior transcript plus that message, not streamed. |
| `Chat.Complete` | src/components/Chat.tsx:39-54 | Completion appends exactly one `assistant` message to the current transcript: the reply, or the fixed notice. `isLoading` becomes false whatever the outcome. |
| `Chat.Clear` | src/components/Chat.tsx:57-59 | Clear empties `messages` and leaves `input` and `isLoading` unchanged. |
| `Chat.ConverseAppends` | src/components/Chat.tsx:32-51 | With no clears in between, each accepted turn appends its user message and then its assistant message, and leaves nothing loading. |
| `Chat.TranscriptShape` | src/components/Chat.tsx:32-51 | N turns give 2N messages. Message 2i is the user text of turn i and message 2i+1 is its reply or notice. |
| `Chat.AlternatingTranscript` | src/components/Chat.tsx:9-54 | From a fresh component with no clears, N completed submits leave 2N messages, alternating user and assistant, with exactly the content sent and received. |
| `Chat.FullHistorySent` | src/components/Chat.tsx:37 | After N turns, the next request carries the whole transcript plus the new message, with no truncation. It goes to the model selected now, even when the earlier turns used another model. |
| `Chat.ConverseModelIndependent` | src/components/Chat.tsx:22-54 | The `model` prop never affects the component's state: the same turns under any models leave the same messages, field and loading flag. The picker (src/App.tsx:54) can change the prop while `Chat` stays mounted, and the transcript survives the switch. |
| `Chat.BeginModelIndependent` | src/components/Chat.tsx:25-37 | A submit under two different models makes the same state change. When a request is issued, the two requests differ only in `model`. |
| `Chat.ClearDuringRequest` | src/components/Chat.tsx:44-58 | A clear while a request is in flight leaves a transcript holding only the assistant message once the request completes. |
| `Chat.ChatView.constructor` | src/components/Chat.tsx:9-11 | The component starts with no messages, an empty field, and nothing loading. |
| `Chat.ChatView.ChangeInput` | src/components/Chat.tsx:105 | The field's `onChange` performs `EditInput` on the state cells. |
| `Chat.ChatView.BeginSubmit` | src/components/Chat.tsx:22-37 | `handleSubmit` up to the `await` performs `Begin` on the cells, with the `model` prop as it is at that moment. It returns the request passed to `chat`. |
| `Chat.ChatView.CompleteSubmit` | src/components/Chat.tsx:39-54 | `handleSubmit` after the `await` performs `Complete` on the cells. |
| `Chat.ChatView.ClearChat` | src/components/Chat.tsx:57-59 | `handleClearChat` performs `Clear` on the cells. |
| `App.StartLoad` | src/App.tsx:16-18 | Starting `loadModels` sets loading and clears the error. Models and selection are kept. |
| `App.FinishLoad` | src/App.tsx:19-31 | A non-empty list sets `models` and selects its first entry. An empty list sets the "no models" error, and a rejection sets the connection error; in both cases models and selection are kept. Loading ends in every case. |
| `App.SelectModel` | src/App.tsx:54 | The picker changes only `selectedModel`. |
| `App.LoadDecidesView` | src/App.tsx:16-31 | After a load, the error is unset exactly when the list is non-empty. `Chat` (line 69) is shown exactly then, with the first model. Otherwise the retry view (lines 41-47) is shown, and the two never show together. |
| `App.ConnectErrorUnreachable` | src/App.tsx:27-28 | Because `listModels` never rejects, the connection error is never set. An unreachable server ends in the "no models" error. |
| `App.RetryIdempotent` | src/App.tsx:44 | Retrying when the server gives the same answer leaves the same state. |
| `App.TransitionsKeepConsistent` | src/App.tsx:21-54 | Every transition keeps this invariant: whenever `Chat` is shown, its model is one the server listed (given that the picker offers only listed models). |
| `App.AppView.constructor` | src/App.tsx:7-10 | The initial state has no models, `"llama2"` selected, loading on, and no error. |
| `App.AppView.BeginLoad` | src/App.tsx:16-18 | `loadModels` up to the `await` performs `StartLoad` on the cells. |
| `App.AppView.CompleteLoad` | src/App.tsx:19-31 | `loadModels` after the `await` performs `FinishLoad` on the cells. |
| `App.AppView.Select` | src/App.tsx:54 | The picker's `onChange` performs `SelectModel` on the cells. |

Three definitions have no row of their own. Each one's meaning is stated by the rows that use it:

- `Ollama.ChatCall` is the body `chat` posts (src/services/ollama.ts:53-57). It is stated under `Chat.Begin` and `Chat.FullHistorySent`.
- `App.ShowsRetry` is the error view with its retry button (src/App.tsx:39-47). It is stated under `App.LoadDecidesView`.
- `App.LoadModels` is one whole run of `loadModels` (src/App.tsx:16-31), which the retry button re-runs. It is stated under `App.LoadDecidesView`, `App.ConnectErrorUnreachable` and `App.RetryIdempotent`.

## Left out

- HTTP requests (axios) and the endpoint URL: the outcome of each exchange is an input (`HttpOutcome`, `ListOutcome`, the `Result` given to `Complete`).
- `generate` (src/services/ollama.ts:33-46): the UI never uses it, and it has no logic beyond one request.
- `JSON.parse` and property access on its result: these are the `parse` parameter. A parsed `null`, where reading `message` throws, counts as `Invalid`, because the same `catch` swallows it. A parsed number, string or boolean has no `message`, so it is `Parsed(None)`. Either way the line yields nothing.
- `chunk.toString()`: chunks are already-decoded strings. A multi-byte character split across two reads is not modelled.
- JavaScript strings are UTF-16 code units, but the model uses Unicode scalar values (Dafny `char`). `trim` and `split` agree on the characters involved.
- `Ollama.Chat`: when the reply has a `message` without `content`, the source returns `undefined` rather than failing. The model takes `content` to be a string. The same applies to `ListModels` when a model entry has no `name`.
- `Ollama.LineFragment`: when `message.content` is truthy but not a string, as in `{"message":{"content":42}}`, the source yields that value unchanged. `ParseResult` carries only string content, so such values are not modelled.
- `Ollama.StreamChat`: the fragments of one read are appended after that read's lines are handled (`HandleLines`), not one `yield` at a time. The yielded sequence is the same, but a consumer that stops early is not modelled.
- The connection error of `streamChat` is modelled as arriving after all successful reads (`interrupted`). A failure before any read is the case with no chunks.
- React rendering, JSX, `scrollToBottom`/`useEffect` and the `disabled` attributes of the input and buttons: these are presentation. Only the render conditions of `App` (lines 39-47 and 69) are modelled.
- `console.error` logging: it has no effect on state.
- async scheduling: each `await` is a split between two transitions. Interleavings are expressed by applying transitions in any order (see `Chat.ClearDuringRequest`); no event loop is modelled.
