# Chat page core, modelled in Dafny

The Text_lab chat page (`src/pages/chat.py`) is a Streamlit page. It forwards
a conversation to a locally running Ollama model server and streams the reply
back. Around its UI and process plumbing sits a small deterministic core, and
this project models that core and proves properties of it:

- `extract_model_name`: normalises one entry of the server's local model
  listing to a model identifier through a first-match cascade over entry
  shapes (module `ModelName`, `model_name.dfy`).
- The prompt loop of `generate_response`: renders the ordered history of
  `{role, content}` messages as one flat text prompt that ends with the
  `Assistant:` cue (module `Prompt`, `prompt.dfy`).
- `response_generator` and the tail of `generate_response`: keep the chunk
  responses that arrive before the first `done` chunk, join them the way
  `st.write_stream` does, and strip the join with Python's `str.strip()`
  (module `Stream`, `stream.dfy`).
- `main`: session defaults, the pull decision against the local listing,
  and one conversational turn. Session state is an explicit value passed in
  and returned (module `Chat`, `chat.dfy`).

The model server, the widgets and Python's `str()` are inputs:

- `Backend.listing` is the listing's `models` list, or `None` when listing
  raised.
- `Backend.generate` is the chunk stream for a model and a prompt, or `None`
  when generation raised.
- `Backend.repr` stands for `str(entry)`.
- `Interaction.pick` is the selector's reported index, and
  `Interaction.userText` is the chat input's value.
- The pull is the output `RunOutcome.pulled`, the identifier that would be
  passed to `ollama.pull`.

`wrappers.dfy` holds the `Option` type used for absent session keys and
failed calls. `joins.dfy` (module `Joins`) holds the one generic join of a
list of pieces, defined from the front and from the back, which both the
prompt and the streamed reply use.

Three behaviours of the code are easy to misread, and the model follows the
code in each:

- **Generation errors are not caught.** Nothing surrounds the
  `ollama.generate` call (lines 174-176), so an exception there ends the
  rerun after line 170 has already appended the user message, in place, to
  the session's history. `Chat.Turn` models this, and
  `Chat.FailedGenerationLeavesUnansweredMessage` shows the result: the next
  turn's history holds two user messages in a row.
- **Roles are arbitrary strings.** The branch at lines 53-56 labels every role other than
  `"user"` as the assistant, so the model keeps roles as strings rather than
  a two-valued type.
- **Newlines are not replaced.** The comments beside the generator (lines
  59 and 64) speak of replacing newlines with spaces, but line 65 yields
  each `chunk.response` unchanged. The model follows the code, and
  `Stream.ReplyKeepsInnerText` states it for every chunk stream: the reply
  is a contiguous piece of the joined fragments with only whitespace
  around it.

## Model

| member | source | states |
|---|---|---|
| `ModelName.ExtractModelName` | src/pages/chat.py:27-40 | the result is a string unless it came from a dictionary's `"name"` or a non-empty sequence's first element; a string entry is returned unchanged; an unclassified object yields its string representation |
| `ModelName.ExtractIsFirstMatch` | src/pages/chat.py:27-40 | some rule of the priority list (model attribute, `name` key, plain string, first element, fallback) applies to every entry, so the normaliser is total; its result is the value of the earliest applicable rule |
| `ModelName.NonStringModelFallsBack` | src/pages/chat.py:27-40 | a record whose `model` attribute is not a string falls through to the string-representation fallback |
| `ModelName.EmptySequenceFallsBack` | src/pages/chat.py:37-40 | an empty tuple or list falls to the string-representation fallback |
| `ModelName.FirstElementUnchecked` | src/pages/chat.py:37-38 | a non-empty tuple or list yields its first element whatever its type |
| `Prompt.Label` | src/pages/chat.py:53-56 | the user label is chosen exactly when the role is `"user"`; every other role gets the assistant label |
| `Prompt.BuildPrompt` | src/pages/chat.py:51-57 | the rendering loop produces the prompt for the whole history, which always ends with `Assistant:` |
| `Prompt.PromptShape` | src/pages/chat.py:51-57 | the prompt is one segment per message, front to back in history order, followed by the cue; for an empty history it is exactly `Assistant:` |
| `Prompt.SegmentAt` | src/pages/chat.py:52-56 | message `i` appears unaltered right after the rendered lines of the messages before it |
| `Prompt.PromptLength` | src/pages/chat.py:52-57 | the prompt's length is the sum over messages of label length + content length + 1, plus 10 |
| `Prompt.PromptLineBreaks` | src/pages/chat.py:52-57 | the prompt has one line break per message besides those inside contents, and none after the cue |
| `Prompt.FirstTurnPrompt` | src/pages/chat.py:51-57 | a one-message user history renders as `User: <text>`, a line break, and `Assistant:` |
| `Prompt.ForgedSegment` | src/pages/chat.py:53-56 | a user content that embeds a line break and the assistant label renders as a user line followed by an assistant line |
| `Prompt.PromptIsAmbiguous` | src/pages/chat.py:52-57 | contents are not escaped, so two different histories render the same prompt |
| `Stream.KeptFragments` | src/pages/chat.py:60-65 | the yielded fragments are, in order, the responses of the chunks strictly before the first `done` chunk; the one after them, if any, is `done` |
| `Stream.DoneCutsStream` | src/pages/chat.py:61-63 | the `done` chunk's own text and everything after it are dropped |
| `Stream.NoDoneKeepsAll` | src/pages/chat.py:61-65 | without a `done` chunk every response is yielded |
| `Stream.TrimStartSpec` | src/pages/chat.py:71 | trimming the start removes only a whitespace prefix and stops at a non-whitespace character |
| `Stream.TrimEndSpec` | src/pages/chat.py:71 | trimming the end removes only a whitespace suffix and stops at a non-whitespace character |
| `Stream.StripSpec` | src/pages/chat.py:71 | the stripped text is a substring with only whitespace around it, and it neither starts nor ends with whitespace |
| `Stream.StripUnique` | src/pages/chat.py:71 | any string meeting that description is the stripped text, so the description defines `strip()` |
| `Stream.StripIdempotent` | src/pages/chat.py:71 | stripping a stripped text changes nothing |
| `Stream.CollectReply` | src/pages/chat.py:60-71 | the generator loop with its early exit, the join and the strip compute the stripped join of the kept fragments, which never starts or ends with whitespace |
| `Stream.ReplyKeepsInnerText` | src/pages/chat.py:59-71 | for every chunk stream the reply occurs in the joined fragments as one contiguous piece with only whitespace around it, so inner text and line breaks are kept and only the ends are trimmed |
| `Chat.LocalModelNames` | src/pages/chat.py:134-140 | a failed listing gives no names; otherwise there is one normalised name per entry, in listing order |
| `Chat.PullIffAbsent` | src/pages/chat.py:134-143 | a pull is requested exactly when no listed entry normalises to the selected model; a failed listing always requests one |
| `Chat.PullForRecordListing` | src/pages/chat.py:134-143 | for a listing of model records, a pull is requested exactly when no record's `model` is the selected name |
| `Chat.Turn` | src/pages/chat.py:166-179 | no input leaves the history as it was; input appends the user message and then, unless generation raised, one assistant message carrying the reply streamed for the prompt of the extended history; earlier entries stay unchanged |
| `Chat.Run` | src/pages/chat.py:123-179 | a well-formed session never hits the selector's index error and stays well-formed; otherwise both session keys are set, and a pull of exactly the selected model is requested iff the model is absent locally |
| `Chat.FreshSessionDefaults` | src/pages/chat.py:123-158 | the first render of a fresh session selects `gemma3:12b` and starts an empty history |
| `Chat.SubmittedTurnAppendsTwo` | src/pages/chat.py:168-179 | a submitted message with a successful generation extends the history by exactly the user message and the assistant's stripped reply |
| `Chat.EmptyInputKeepsHistory` | src/pages/chat.py:157-168 | an empty or missing input leaves the history unchanged |
| `Chat.InstalledModelNotPulled` | src/pages/chat.py:115-143 | in a well-formed session, picking `llama3.2:latest` while it is listed locally selects it without an index error and requests no pull |
| `Chat.MissingModelPulledOnce` | src/pages/chat.py:134-149 | with a failed or empty listing the selected model is pulled, once, under its own identifier |
| `Chat.TurnPreservesAlternation` | src/pages/chat.py:168-179 | a completed turn keeps a user/assistant-alternating history alternating |
| `Chat.ConversationInvariant` | src/pages/chat.py:168-179 | while generation never raises, the history is append-only, grows by two per submitted input, and stays alternating with an assistant message last |
| `Chat.FailedGenerationLeavesUnansweredMessage` | src/pages/chat.py:170-179 | a raising generation leaves the user message in the history without a reply, so the next turn breaks alternation |

## Left out

- `ensure_ollama_server` (lines 9-21) is left out. It checks for and starts a process and sleeps, which is operating-system I/O.
- Page configuration, the CSS string, the history display (lines 161-163) and all Streamlit widgets are left out as UI. The selector and chat input become `Interaction`, and `st.session_state` becomes `SessionState`.
- `ollama.list`, `ollama.pull` and `ollama.generate` are foreign calls and become inputs. A pull's success or failure only changes a notice, so it is not modelled.
- The internals of `st.write_stream` are left out. Its result is taken to be the concatenation of the yielded strings (`Stream.Concat`).
- Python's `str(entry)` is not interpreted. It is the parameter `repr`.
- `ModelName.ExtractModelName` models entry shapes as a closed set of disjoint kinds. A subclass that is both a record with `model` and a tuple, or both a string and a dictionary, is not represented. A user-defined `__eq__` is not represented either.
- Dictionary keys are modelled as strings. Only the key `"name"` is ever looked up.
- An exception while normalising the listing is treated as a failed listing. The code catches it the same way and uses an empty names list.
- An exception raised part-way through a stream is modelled as the whole generation raising. The history is the same either way.
- `Stream.IsSpace` fixes the whitespace set to the characters Python's `str.isspace()` accepts.
- `Chat.Run` models the selector by the index it reports. Streamlit's own widget-state bookkeeping is not modelled.
