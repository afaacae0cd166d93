/** One rerun of the chat page's `main` (src/pages/chat.py): session
    defaults, the pull decision against the local model listing, and one
    conversational turn. Session state is an explicit value passed in and
    returned; the model server and the widgets are inputs. */
module Chat {
  import opened Wrappers
  import opened ModelName
  import opened Prompt
  import opened Stream

  /** The models the page offers, in selector order. */
  const AvailableModels: seq<string> :=
    ["gemma3:12b", "deepseek-r1:8b", "llama3.2:latest", "llama3.1:latest", "mistral:latest"]

  /** The two session keys the page reads and writes; `None` is a key not
      yet set in this session. */
  datatype SessionState = SessionState(selectedModel: Option<string>, messages: Option<seq<Message>>)

  /** The state of a session nobody has rendered the page in yet. */
  const FreshSession: SessionState := SessionState(None, None)

  /** The stored selection, when there is one, is one the selector offers.
      This page only ever stores such a value. */
  predicate WellFormed(st: SessionState)
  {
    st.selectedModel.Some? ==> st.selectedModel.value in AvailableModels
  }

  /** What the model server answers during one rerun. `listing` is the
      `models` list of the local listing, or `None` when listing raised;
      `generate` gives the chunk stream for a model and a prompt, or `None`
      when generation raised; `repr` is Python's `str` on listing entries. */
  datatype Backend = Backend(
    listing: Option<seq<PyValue>>,
    generate: (string, string) -> Option<seq<Chunk>>,
    repr: Repr)

  /** What the user did in the widgets: `pick` is the index the model
      selector reports when the user changed it (`None`: it reports the
      stored selection); `userText` is what the chat input returned. */
  datatype Interaction = Interaction(pick: Option<nat>, userText: Option<string>)

  /** The two ways a rerun stops early. */
  datatype Failure =
    | UnknownSelection   // the stored selection is not an option, so the index lookup raises
    | GenerationFailed   // the generation call raised; nothing catches it

  /** The session after the rerun, the model pulled (if any), and how the
      rerun stopped early (if it did). */
  datatype RunOutcome = RunOutcome(state: SessionState, pulled: Option<string>, failure: Option<Failure>)

  /** The identifiers the local listing normalises to; a failed listing
      yields none. */
  function LocalModelNames(listing: Option<seq<PyValue>>, repr: Repr): (names: seq<PyValue>)
    ensures listing.None? ==> names == []
    ensures listing.Some? ==> |names| == |listing.value|
    ensures listing.Some? ==> forall i :: 0 <= i < |names| ==> names[i] == ExtractModelName(listing.value[i], repr)
  {
    match listing
    case None => []
    case Some(entries) => seq(|entries|, i requires 0 <= i < |entries| => ExtractModelName(entries[i], repr))
  }

  /** Whether the selected model has to be pulled before chatting. */
  predicate NeedsPull(model: string, listing: Option<seq<PyValue>>, repr: Repr)
  {
    Str(model) !in LocalModelNames(listing, repr)
  }

  /** A pull is requested exactly when no listed entry normalises to the
      selected model; a failed listing always requests one. */
  lemma PullIffAbsent(model: string, listing: Option<seq<PyValue>>, repr: Repr)
    ensures listing.None? ==> NeedsPull(model, listing, repr)
    ensures listing.Some? ==>
              (NeedsPull(model, listing, repr) <==>
               forall i :: 0 <= i < |listing.value| ==> ExtractModelName(listing.value[i], repr) != Str(model))
  {
  }

  /** For a listing of the client library's model records, a pull is
      requested exactly when no record's `model` attribute is the selected
      name. */
  lemma PullForRecordListing(model: string, entries: seq<PyValue>, repr: Repr)
    requires forall i :: 0 <= i < |entries| ==> entries[i].Record? && entries[i].model.Str?
    ensures NeedsPull(model, Some(entries), repr) <==>
            forall i :: 0 <= i < |entries| ==> entries[i].model.s != model
  {
    PullIffAbsent(model, Some(entries), repr);
  }

  /** The outcome of the chat part of a rerun: the history afterwards and
      whether generation raised. */
  datatype TurnOutcome = TurnOutcome(history: seq<Message>, failed: bool)

  /** Python's truthiness of the chat input: `None` and "" are false. */
  predicate Submitted(userText: Option<string>)
  {
    userText.Some? && userText.value != ""
  }

  /** The turn: without input nothing changes; with input the user message
      is appended, the prompt for the extended history is sent, and the
      stripped reply is appended as the assistant's message. When generation
      raises, the user message stays appended and no reply follows. */
  function Turn(history: seq<Message>, model: string, userText: Option<string>,
                generate: (string, string) -> Option<seq<Chunk>>): (t: TurnOutcome)
    ensures !Submitted(userText) ==> t == TurnOutcome(history, false)
    ensures Submitted(userText) ==> |t.history| == |history| + (if t.failed then 1 else 2)
    ensures Submitted(userText) ==> t.history[..|history| + 1] == history + [Message("user", userText.value)]
    ensures Submitted(userText) && !t.failed ==>
              var prompt := RenderPrompt(history + [Message("user", userText.value)]);
              generate(model, prompt).Some?
              && t.history[|history| + 1] == Message("assistant", Reply(generate(model, prompt).value))
    ensures t.failed <==>
              Submitted(userText) && generate(model, RenderPrompt(history + [Message("user", userText.value)])).None?
  {
    if !Submitted(userText) then TurnOutcome(history, false)
    else
      var asked := history + [Message("user", userText.value)];
      match generate(model, RenderPrompt(asked))
      case None => TurnOutcome(asked, true)
      case Some(chunks) => TurnOutcome(asked + [Message("assistant", Reply(chunks))], false)
  }

  /** One rerun of the page. */
  function Run(st: SessionState, ui: Interaction, backend: Backend): (out: RunOutcome)
    requires ui.pick.Some? ==> ui.pick.value < |AvailableModels|
    ensures WellFormed(st) ==> out.failure != Some(UnknownSelection)
    ensures WellFormed(st) ==> WellFormed(out.state)
    ensures out.failure != Some(UnknownSelection) ==>
              && out.state.selectedModel.Some?
              && out.state.messages.Some?
              && (out.pulled.Some? <==> NeedsPull(out.state.selectedModel.value, backend.listing, backend.repr))
              && (out.pulled.Some? ==> out.pulled.value == out.state.selectedModel.value)
    ensures out.failure == Some(UnknownSelection) ==> out.state == st && out.pulled.None?
  {
    var stored := st.selectedModel.GetOr(AvailableModels[0]);
    if stored !in AvailableModels then
      RunOutcome(st, None, Some(UnknownSelection))
    else
      var model := if ui.pick.Some? then AvailableModels[ui.pick.value] else stored;
      var pulled := if NeedsPull(model, backend.listing, backend.repr) then Some(model) else None;
      var history := st.messages.GetOr([]);
      var t := Turn(history, model, ui.userText, backend.generate);
      RunOutcome(SessionState(Some(model), Some(t.history)), pulled,
                 if t.failed then Some(GenerationFailed) else None)
  }

  /** The first render of a fresh session selects the first offered model
      and starts an empty history. */
  lemma FreshSessionDefaults(backend: Backend)
    ensures var out := Run(FreshSession, Interaction(None, None), backend);
            out.state == SessionState(Some("gemma3:12b"), Some([])) && out.failure.None?
  {
  }

  /** A rerun with a message keeps the earlier history unchanged and appends
      exactly the user message and the assistant's stripped reply, the reply
      being the one streamed for the prompt of the extended history. */
  lemma SubmittedTurnAppendsTwo(st: SessionState, ui: Interaction, backend: Backend)
    requires ui.pick.Some? ==> ui.pick.value < |AvailableModels|
    requires WellFormed(st) && Submitted(ui.userText)
    ensures var out := Run(st, ui, backend);
            var history := st.messages.GetOr([]);
            var model := out.state.selectedModel.value;
            var asked := history + [Message("user", ui.userText.value)];
            var chunks := backend.generate(model, RenderPrompt(asked));
            chunks.Some? ==>
              out.failure.None? && out.state.messages == Some(asked + [Message("assistant", Reply(chunks.value))])
  {
  }

  /** A rerun without a message leaves the history as it was (an absent
      history becomes the empty one). */
  lemma EmptyInputKeepsHistory(st: SessionState, ui: Interaction, backend: Backend)
    requires ui.pick.Some? ==> ui.pick.value < |AvailableModels|
    requires WellFormed(st) && !Submitted(ui.userText)
    ensures Run(st, ui, backend).state.messages == Some(st.messages.GetOr([]))
    ensures Run(st, ui, backend).failure.None?
  {
  }

  /** A selection already installed locally is not pulled. */
  lemma InstalledModelNotPulled(st: SessionState, ui: Interaction, entries: seq<PyValue>,
                                generate: (string, string) -> Option<seq<Chunk>>, repr: Repr)
    requires WellFormed(st) && ui.pick == Some(2)
    requires Record(Str("llama3.2:latest")) in entries
    ensures Run(st, ui, Backend(Some(entries), generate, repr)).failure != Some(UnknownSelection)
    ensures Run(st, ui, Backend(Some(entries), generate, repr)).state.selectedModel == Some("llama3.2:latest")
    ensures Run(st, ui, Backend(Some(entries), generate, repr)).pulled.None?
  {
  }

  /** A missing selection is pulled once, under its own identifier. */
  lemma MissingModelPulledOnce(st: SessionState, ui: Interaction, backend: Backend)
    requires ui.pick.Some? ==> ui.pick.value < |AvailableModels|
    requires WellFormed(st)
    requires backend.listing.None? || backend.listing == Some([])
    ensures var out := Run(st, ui, backend);
            out.pulled == out.state.selectedModel && out.pulled.Some?
  {
  }

  /** The conversation alternates user and assistant messages, starting
      with the user. */
  predicate Alternating(h: seq<Message>)
  {
    forall i :: 0 <= i < |h| ==> h[i].role == (if i % 2 == 0 then "user" else "assistant")
  }

  /** The history after a sequence of turns with the same model. */
  function Converse(history: seq<Message>, model: string, inputs: seq<Option<string>>,
                    generate: (string, string) -> Option<seq<Chunk>>): seq<Message>
    decreases |inputs|
  {
    if |inputs| == 0 then history
    else Converse(Turn(history, model, inputs[0], generate).history, model, inputs[1..], generate)
  }

  /** How many of the inputs were submitted messages. */
  function SubmittedCount(inputs: seq<Option<string>>): nat
  {
    if |inputs| == 0 then 0 else (if Submitted(inputs[0]) then 1 else 0) + SubmittedCount(inputs[1..])
  }

  /** Generation never raises for this model. */
  ghost predicate NeverFails(model: string, generate: (string, string) -> Option<seq<Chunk>>)
  {
    forall prompt :: generate(model, prompt).Some?
  }

  /** A completed turn keeps an alternating history alternating. */
  lemma TurnPreservesAlternation(history: seq<Message>, model: string, userText: Option<string>,
                                 generate: (string, string) -> Option<seq<Chunk>>)
    requires Alternating(history) && |history| % 2 == 0
    requires !Turn(history, model, userText, generate).failed
    ensures var h := Turn(history, model, userText, generate).history;
            Alternating(h) && |h| % 2 == 0
  {
    var h := Turn(history, model, userText, generate).history;
    if Submitted(userText) {
      var n := |history|;
      var asked := history + [Message("user", userText.value)];
      assert h[..n + 1] == asked;
      assert |h| == n + 2 && h[n + 1].role == "assistant";
      forall i | 0 <= i < |h|
        ensures h[i].role == (if i % 2 == 0 then "user" else "assistant")
      {
        if i <= n {
          assert h[i] == asked[i];
        }
      }
    }
  }

  /** When generation never raises, the history only grows, by two messages
      per submitted input, and an alternating history stays alternating:
      after every completed turn the last message is the assistant's. */
  lemma {:induction false} ConversationInvariant(history: seq<Message>, model: string, inputs: seq<Option<string>>,
                                                 generate: (string, string) -> Option<seq<Chunk>>)
    requires NeverFails(model, generate)
    ensures var h := Converse(history, model, inputs, generate);
            && |h| == |history| + 2 * SubmittedCount(inputs)
            && h[..|history|] == history
            && (Alternating(history) && |history| % 2 == 0 ==> Alternating(h) && |h| % 2 == 0)
    decreases |inputs|
  {
    if |inputs| > 0 {
      var t := Turn(history, model, inputs[0], generate);
      assert !t.failed by {
        if Submitted(inputs[0]) {
          assert generate(model, RenderPrompt(history + [Message("user", inputs[0].value)])).Some?;
        }
      }
      ConversationInvariant(t.history, model, inputs[1..], generate);
      var h := Converse(history, model, inputs, generate);
      assert h == Converse(t.history, model, inputs[1..], generate);
      assert t.history[..|history|] == history;
      assert h[..|history|] == h[..|t.history|][..|history|];
      if Alternating(history) && |history| % 2 == 0 {
        TurnPreservesAlternation(history, model, inputs[0], generate);
      }
    }
  }

  /** Generation failures break that invariant: the user message of the
      failed turn stays in the history with no reply after it, so the next
      submitted message follows it directly and the history holds two user
      messages in a row. */
  lemma FailedGenerationLeavesUnansweredMessage(history: seq<Message>, model: string, text: string, again: string,
                                                generate: (string, string) -> Option<seq<Chunk>>,
                                                next: (string, string) -> Option<seq<Chunk>>)
    requires text != "" && again != ""
    requires generate(model, RenderPrompt(history + [Message("user", text)])).None?
    ensures var t := Turn(history, model, Some(text), generate);
            && t.failed && t.history == history + [Message("user", text)]
            && !Alternating(Turn(t.history, model, Some(again), next).history)
  {
    var t := Turn(history, model, Some(text), generate);
    var h := Turn(t.history, model, Some(again), next).history;
    var n := |history|;
    assert h[..n + 2] == t.history + [Message("user", again)];
    assert h[n].role == h[..n + 2][n].role == "user";
    assert h[n + 1].role == h[..n + 2][n + 1].role == "user";
  }
}
