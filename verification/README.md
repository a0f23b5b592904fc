# pyqt-openai: conversation history, response dispatch and input validators

A Dafny model of the sequential logic inside the PyQt OpenAI chat client.
The rest of the client is widget construction. The model covers four areas:

- **Conversation history** (`ConvHistory`, `conv_history.dfy`). The window
  keeps its chats in `conv_history.json` as a list of `{id, title, conv_data}`
  records. Adding, looking up, updating and deleting records are modelled as
  pure functions over a `seq<Conversation>`. Ids are allocated as the largest
  id plus one, or 0 for an empty list. Lookup takes the first record with the
  id and fails with `IndexError` when there is none. Deletion is modelled as the
  source's loop of `list.remove` calls and is proved equal to an
  order-preserving filter.
- **Response dispatch**. `OpenAIThread.run` (`OpenAIThread`,
  `openai_thread.dfy`) maps the outcome of the provider call to the list of
  `replyGenerated(text, isUser, isStream, isImage)` emissions. The outcome is
  an input: a whole reply, a chunk stream, or an exception. Any exception other
  than the two caught kinds escapes. `LlamaIndexThread.run`
  (`LlamaIndexThread`, `llama_index_thread.dfy`) maps a response and a
  stop-flag oracle to its `replyGenerated` / `streamFinished` emissions and
  the final message container. The oracle gives one boolean per loop
  iteration.
- **Request building** (`ChatRequest`, `chat_request.dfy`). `__chat` builds
  one of three argument shapes from the AI-type index and the model name. The
  settings slots feed those arguments. The Top-P slot writes `__topp` instead
  of `__top_p`, so completion requests always carry `top_p` 1.0. The model
  keeps that behaviour as written and proves it.
- **Validators** (`KeyShortcut`, `key_shortcut.dfy`; `PromptGroupName`,
  `prompt_group_name.dfy`). These are the key-code labels and the
  `Ctrl+Alt+Shift+Meta+Key` shortcut text of the shortcut line edit, and the
  acceptance test for a new prompt-group name. That test is Python's
  `re.search('^[a-zA-Z_0-9]+$', …)` plus a check that the name is not already
  in use.

`base.dfy` holds the shared `Option` type.

Some definitions carry no contract of their own and are used by the members
below:

- `ConvHistory.TitleGiven` and `ConvHistory.UnitGiven` are Python truthiness
  of the optional title and message in `__updateConv`
  (`pyqt_openai/main.py:727-729`): `None` and the empty value are false.
- `ChatRequest.Initial` holds the settings `__initVal` starts from
  (`pyqt_openai/main.py:113-120`).
- `PromptGroupName.Opened` is the dialog after `__initUi`: an empty name and
  an enabled OK button (`pyqt_openai/prompt_gen_widget/promptGroupInputDialog.py:23-31`).

Four behaviours of the code are easy to miss. The model follows the code:

- A successful chat stream from `OpenAIThread` emits only streamed chunks. It
  emits no terminal event; the end of the reply is signalled only by the
  thread finishing (`OpenAIThread.ChatStreamTrace`).
- A user stop in `LlamaIndexThread` with the stream argument set emits
  `streamFinished` twice. The first carries "stopped by user"; the container
  then ends with "stop" (`LlamaIndexThread.UserStopTrace`).
- History writes are not all-or-nothing: the file is opened for writing
  before the lookup that may fail. This is I/O and is left out.
- The prompt-group dialog opens with an empty name and OK enabled: only a
  text change runs `__setAccept` (`PromptGroupName.ButtonFollowsLastEdit`).

## Model

| member | source | states |
|---|---|---|
| ConvHistory.MaxId | pyqt_openai/main.py:701 | the key of `max(lst, key=id)` bounds every id in the non-empty list and is one of them |
| ConvHistory.NextId | pyqt_openai/main.py:701 | the new id is 0 for an empty list, otherwise exceeds every existing id and is one more than an existing id |
| ConvHistory.AddConv | pyqt_openai/main.py:694-707 | adding appends exactly one record `{id, "New Chat", []}` at the end under an id not yet present; earlier records are unchanged and in order |
| ConvHistory.AddKeepsIdsUnique | pyqt_openai/main.py:701-702 | if ids were unique before an add, they are unique after |
| ConvHistory.FirstIndex | pyqt_openai/main.py:716 | the lookup finds the first record with the id, and finds none exactly when no record has it |
| ConvHistory.ChangeConv | pyqt_openai/main.py:711-717 | selecting a conversation yields the messages of the first record with that id; an absent id fails with IndexError |
| ConvHistory.UpdateConv | pyqt_openai/main.py:720-731 | an absent id fails; otherwise only the first record with the id changes: title replaced only for a non-empty title, message appended last only for a non-empty unit |
| ConvHistory.UpdateKeepsIds | pyqt_openai/main.py:726-730 | an update never changes the ids present or their order |
| ConvHistory.AddThenAppend | pyqt_openai/main.py:699-730 | a message sent to a just-added conversation lands in that record alone, which becomes `{id, "New Chat", [msg]}` |
| ConvHistory.RemoveFirst | pyqt_openai/main.py:742 | `list.remove` fails exactly when the element is absent; otherwise it removes the first element equal to it and keeps the others in order |
| ConvHistory.RemoveFirstMultiset | pyqt_openai/main.py:742 | a successful `list.remove` takes away exactly one copy of the element and nothing else |
| ConvHistory.RemoveEach | pyqt_openai/main.py:741-742 | when the `for obj in obj_to_delete: lst.remove(obj)` loop succeeds it has removed one element per object |
| ConvHistory.RemoveEachSucceeds | pyqt_openai/main.py:741-742 | the loop raises ValueError exactly when the objects, counted with repetition, are not all in the list |
| ConvHistory.RemoveEachMultiset | pyqt_openai/main.py:741-742 | a successful loop takes away exactly one copy of each removed object and nothing else |
| ConvHistory.Doomed | pyqt_openai/main.py:740 | `obj_to_delete` holds exactly the records of the list whose id is listed |
| ConvHistory.DoomedPartition | pyqt_openai/main.py:740 | the filter keeps every duplicate: its records and the unlisted ones together make up the list, counted with repetition |
| ConvHistory.DoomedAppend | pyqt_openai/main.py:740 | the filter keeps list order: filtering a concatenation is concatenating the filtered parts |
| ConvHistory.RemovalIsFilter | pyqt_openai/main.py:740-742 | the `lst.remove` loop over the filtered records never fails and leaves exactly the records whose id is not listed, in order |
| ConvHistory.DeleteConv | pyqt_openai/main.py:733-743 | deleting gives the order-preserving filter of the records whose id is not listed |
| ConvHistory.SurvivorsAppend | pyqt_openai/main.py:740-742 | deletion acts on each part of a split list separately, so the remaining records keep their relative order |
| ConvHistory.DeleteRemovesExactlyListed | pyqt_openai/main.py:740-742 | after a delete no record has a listed id, and every record with an unlisted id is still present |
| ConvHistory.DeleteIgnoresAbsentIds | pyqt_openai/main.py:740 | listing an id that no record carries changes nothing |
| ConvHistory.DeleteKeepsIdsUnique | pyqt_openai/main.py:740-742 | deleting keeps unique ids unique |
| ChatRequest.BuildArgs | pyqt_openai/main.py:564-601 | index 0 with a chat model gives `[system, assistant = browser text, user = input]` plus the stream flag; index 0 otherwise gives completion arguments from the settings; index 1 gives `{prompt, n = 1, size = "1024x1024"}`; any other index gives the empty argument |
| ChatRequest.Apply | pyqt_openai/main.py:627-647 | each settings slot writes its own attribute and no other; the Top-P slot writes the stray `__topp`; the remember-conversation checkbox slot writes only the settings file, so no slot touches `__top_p` or `__remember_past_conv` |
| ChatRequest.ApplyAll | pyqt_openai/main.py:550-551 | a sequence of signals changes nothing when empty, and toggling the remember-conversation checkbox never changes the flag `__chat` reads, so the toggle has no effect until restart |
| ChatRequest.ApplyAllLast | pyqt_openai/main.py:627-647 | signals take effect in the order they fire: the settings after a sequence are its last signal applied to the settings before it |
| ChatRequest.TopPNeverChanges | pyqt_openai/main.py:631-647 | no sequence of settings signals changes `__top_p`, because the Top-P slot writes `__topp` |
| ChatRequest.CompletionTopPIsInitial | pyqt_openai/main.py:587-595 | every completion request built after any settings changes carries `top_p` 1.0 |
| ChatRequest.TemperatureReachesRequest | pyqt_openai/main.py:631-632 | by contrast, the last temperature set is the one the settings hold |
| OpenAIThread.Handle | pyqt_openai/main.py:99-103 | only InvalidRequestError and RateLimitError are caught: the first maps to the fixed safety message, the second to the error text between the red-paragraph opening and the usage and billing links; both have all flags false |
| OpenAIThread.Raise | pyqt_openai/main.py:99-103 | an exception keeps the emissions made so far; a caught one adds exactly the reply its handler emits, any other adds nothing and escapes |
| OpenAIThread.StreamReplies | pyqt_openai/main.py:61-69 | the streaming loop emits at most one reply per chunk, each streamed, not from the user, not an image, with non-empty text |
| OpenAIThread.StreamRepliesAppend | pyqt_openai/main.py:61-65 | emissions of concatenated chunk lists are the concatenated emissions, so chunk order is kept |
| OpenAIThread.StreamRepliesSingle | pyqt_openai/main.py:62-69 | a chunk with non-empty content emits `(text, False, True, False)` once; a chunk with empty or missing content emits nothing |
| OpenAIThread.StreamRepliesCount | pyqt_openai/main.py:61-65 | the number of streamed emissions equals the number of chunks with text |
| OpenAIThread.Strip | pyqt_openai/main.py:78 | the completion text is the slice left after dropping Python whitespace at both ends |
| OpenAIThread.Run | pyqt_openai/main.py:52-103 | an index other than 0 and 1, or an unknown endpoint, emits nothing; only exceptions of other kinds escape; no emission is flagged as from the user |
| OpenAIThread.ChatStreamTrace | pyqt_openai/main.py:55-69 | a complete chat stream emits the texts of the chunks with text, in chunk order, all flagged as streamed, and nothing else |
| OpenAIThread.ChatReplyTrace | pyqt_openai/main.py:70-72 | a non-streamed chat reply is exactly one emission `(content, False, False, False)` |
| OpenAIThread.CompletionTrace | pyqt_openai/main.py:73-90 | a successful completion is exactly one three-argument emission of the stripped text |
| OpenAIThread.ImageTrace | pyqt_openai/main.py:91-98 | an image request is exactly one emission `(url, False, False, True)` |
| OpenAIThread.ErrorTrace | pyqt_openai/main.py:52-103 | an exception from the chat call, the completion call or the image call, or from a stream after its chunks, keeps what was streamed and adds the handler's reply when caught; any other kind escapes with nothing added |
| OpenAIThread.RunAtMostOnePlain | pyqt_openai/main.py:52-103 | every run makes at most one emission that is not a streamed chunk, and only as its last emission |
| LlamaIndexThread.ErrorHtml | pyqt_openai/chat_widget/llamaIndexThread.py:53 | the error content is the message wrapped in a red paragraph, opened by `<p style="color:red">` and closed by `</p>` |
| LlamaIndexThread.NewThread | pyqt_openai/chat_widget/llamaIndexThread.py:14-20 | construction sets the role to "assistant" and clears the stop flag, leaving content and reason alone |
| LlamaIndexThread.Stop | pyqt_openai/chat_widget/llamaIndexThread.py:25-26 | `stop()` raises the flag and changes nothing else |
| LlamaIndexThread.Observed | pyqt_openai/chat_widget/llamaIndexThread.py:25-34 | the loop sees a stop whenever `stop()` ran before the run; past the oracle's end only that flag counts |
| LlamaIndexThread.StopBeforeLoop | pyqt_openai/chat_widget/llamaIndexThread.py:25-37 | a `stop()` before the first chunk streams nothing: the loop emits only `streamFinished` ("stopped by user") |
| LlamaIndexThread.StreamLoop | pyqt_openai/chat_widget/llamaIndexThread.py:33-38 | the loop changes the container only on a user stop, where the reason becomes "stopped by user"; it ends in an exception only by the generator raising |
| LlamaIndexThread.Fail | pyqt_openai/chat_widget/llamaIndexThread.py:51-54 | on an exception, the reason becomes "Error", the content the red error paragraph, and one non-streamed reply of that content is added |
| LlamaIndexThread.Finish | pyqt_openai/chat_widget/llamaIndexThread.py:45-50 | the ending adds exactly one emission after the loop's: with the stream argument set it is `streamFinished`, carrying the container with reason "stop", with it clear a non-streamed reply of the content, and the reason is "stop"; a missing "stream" key instead adds one non-streamed reply of the red error paragraph, with reason "Error" and the role kept |
| LlamaIndexThread.Run | pyqt_openai/chat_widget/llamaIndexThread.py:28-54 | every run emits something, keeps the role, and ends with reason "stop" or "Error"; when `get_response` raises, the run is exactly one non-streamed reply of the red error paragraph with reason "Error" |
| LlamaIndexThread.LoopCharacterized | pyqt_openai/chat_widget/llamaIndexThread.py:33-38 | the loop streams the chunks before the first observed stop, in order and unchanged, followed by one "stopped by user" `streamFinished` if a stop was seen |
| LlamaIndexThread.StreamedAreChunkPrefix | pyqt_openai/chat_widget/llamaIndexThread.py:33-38 | the streamed texts of any run form a prefix of the response's chunks |
| LlamaIndexThread.UserStopTrace | pyqt_openai/chat_widget/llamaIndexThread.py:34-48 | a stop first seen at chunk k streams k chunks, then `streamFinished` ("stopped by user"), then a second `streamFinished` ("stop"), and the container ends with "stop" |
| LlamaIndexThread.NormalRunOneTerminal | pyqt_openai/chat_widget/llamaIndexThread.py:45-50 | with no stop and no exception there is exactly one terminal emission: `streamFinished` if the stream argument is set, otherwise a non-streamed reply; the reason is "stop" |
| LlamaIndexThread.PlainResponseTrace | pyqt_openai/chat_widget/llamaIndexThread.py:39-50 | a whole response becomes the content and, with the stream argument off, is emitted once with reason "stop" |
| LlamaIndexThread.ExceptionTrace | pyqt_openai/chat_widget/llamaIndexThread.py:51-54 | a generator that raises after streaming all its chunks keeps them, then adds one non-streamed error reply; the reason ends as "Error" |
| LlamaIndexThread.MissingStreamKeyAfterStream | pyqt_openai/chat_widget/llamaIndexThread.py:33-54 | after a complete stream with no stop, a missing "stream" key keeps the streamed chunks and adds one non-streamed error reply, with reason "Error" |
| LlamaIndexThread.MissingStreamKeyIsError | pyqt_openai/chat_widget/llamaIndexThread.py:47 | when the arguments have no "stream" key, the KeyError turns a normal run into the error reply |
| KeyShortcut.SpecialKeysRange | pyqt_openai/widgets/showingKeyUserInputLineEdit.py:52-79 | every named key is Space or lies in Qt's function-key block |
| KeyShortcut.KeyText | pyqt_openai/widgets/showingKeyUserInputLineEdit.py:48-90 | the table takes precedence; an unlisted printable ASCII code yields its own character; an unlisted code from 0x100 to 0x10FFFF yields its upper-cased character; exactly the other codes yield None |
| KeyShortcut.SpaceIsNamed | pyqt_openai/widgets/showingKeyUserInputLineEdit.py:73 | Space (0x20) is labelled "Space", not " " |
| KeyShortcut.UnlabelledKeys | pyqt_openai/widgets/showingKeyUserInputLineEdit.py:81-90 | codes 0x00 to 0x1F and 0x7F to 0xFF, and the bare Shift, Control, Meta and Alt keys, yield None |
| KeyShortcut.ModifierNames | pyqt_openai/widgets/showingKeyUserInputLineEdit.py:35-42 | the modifier parts name exactly the held modifiers, each at most once, in the order Ctrl, Alt, Shift, Meta |
| KeyShortcut.PartsCount | pyqt_openai/widgets/showingKeyUserInputLineEdit.py:33-44 | the parts list has one entry per held modifier among the four, plus one |
| KeyShortcut.Shortcut | pyqt_openai/widgets/showingKeyUserInputLineEdit.py:33-45 | joining with "+" gives "Ctrl+" if held, then "Alt+", "Shift+" and "Meta+", followed by the key text as the last part |
| KeyShortcut.KeyPress | pyqt_openai/widgets/showingKeyUserInputLineEdit.py:24-46 | a key with no label leaves the shortcut and the text unchanged; otherwise both become the modifier prefix followed by the key text |
| KeyShortcut.TextShowsShortcut | pyqt_openai/widgets/showingKeyUserInputLineEdit.py:45-46 | after any sequence of key presses the displayed text equals the stored shortcut |
| KeyShortcut.UnlabelledKeysKeepEmpty | pyqt_openai/widgets/showingKeyUserInputLineEdit.py:22-32 | starting from the empty shortcut, a sequence of keys without labels leaves it empty |
| PromptGroupName.Search | pyqt_openai/prompt_gen_widget/promptGroupInputDialog.py:56 | a greedy left-to-right scan finds a match exactly when the text is one or more word characters, optionally followed by one final newline |
| PromptGroupName.Names | pyqt_openai/prompt_gen_widget/promptGroupInputDialog.py:57 | the names are the second field of each row, in row order |
| PromptGroupName.Accept | pyqt_openai/prompt_gen_widget/promptGroupInputDialog.py:55-59 | `__setAccept` computes True exactly when the pattern matches, including a word with one final newline, and the text equals no stored name |
| PromptGroupName.TextChanged | pyqt_openai/prompt_gen_widget/promptGroupInputDialog.py:24 | setting the same text again changes nothing, because no `textChanged` fires; a different text is stored and OK becomes `__setAccept` of it |
| PromptGroupName.Edit | pyqt_openai/prompt_gen_widget/promptGroupInputDialog.py:24 | after a run of edits the dialog shows the last text; edits that never change the text leave the dialog as it was |
| PromptGroupName.EditKeepsAccept | pyqt_openai/prompt_gen_widget/promptGroupInputDialog.py:24 | once OK shows `__setAccept` of the current text, further edits keep it so |
| PromptGroupName.ButtonFollowsLastEdit | pyqt_openai/prompt_gen_widget/promptGroupInputDialog.py:23-31 | until the text first differs from the empty name the dialog is as opened, with OK enabled although `__setAccept` would reject the empty name; from then on OK shows `__setAccept` of the current text |
| PromptGroupName.EmptyRejected | pyqt_openai/prompt_gen_widget/promptGroupInputDialog.py:56 | `__setAccept` computes False for the empty text |
| PromptGroupName.ExistingNameRejected | pyqt_openai/prompt_gen_widget/promptGroupInputDialog.py:57-58 | a text that is case-sensitively equal to a name from either group list disables OK |
| PromptGroupName.NonWordCharRejected | pyqt_openai/prompt_gen_widget/promptGroupInputDialog.py:56 | any character outside the ASCII class, such as an accented letter, disables OK unless it is a final newline |
| PromptGroupName.TrailingNewline | pyqt_openai/prompt_gen_widget/promptGroupInputDialog.py:56 | "abc\n" is accepted because `$` matches before a final newline; "abc\n\n" is not |
| PromptGroupName.DependsOnlyOnNames | pyqt_openai/prompt_gen_widget/promptGroupInputDialog.py:57-58 | the decision depends only on the text and the set of stored names |
| PromptGroupName.NameInRows | pyqt_openai/prompt_gen_widget/promptGroupInputDialog.py:57-58 | a name is in the names list exactly when some row carries it |

## Left out

- File I/O of the history: reading and writing `conv_history.json` and the
  `conv.json` lines of the completion branch. The store is a value in memory.
  The source is not atomic: a failed lookup in `__updateConv` leaves the file
  truncated. The model does not describe the file at all.
- The `conv.json` read in `__chat` when "remember past conversation" is on
  (`pyqt_openai/main.py:568-573`). Its lines never reach the arguments, but
  the read can raise and abort `__chat` before any argument is built.
  `__initVal` writes the file as `{}` with no newline (line 155). The
  completion branch appends `json.dumps(conv) + '\n'` (lines 87-88). So
  after the first remembered completion, line 1 reads `{}{...}` and
  `json.loads` raises on every later index-0 request. A missing file raises
  too. `ChatRequest.BuildArgs` describes only a `__chat` whose read
  succeeds. JSON parsing and the file are not modelled.
- `print(id_lst)` in `__deleteConv` (`pyqt_openai/main.py:734`) writes to
  the console only.
- Network and foreign code. `openai.*` calls are inputs. So are the
  llama-index wrapper's response and `getModelEndpoint`, which is not part of
  this model. The `requests.get` key checks, TTS and database access are not
  modelled.
- Concurrency. `QThread`, signal delivery and the cross-thread stop flag are
  not modelled. Stop is an oracle of flag values read by the loop. Emissions
  carry a snapshot of the message container. In the source the receiver gets
  the shared object, which may change after emission.
- Floating point: `round(v, 2)` in the settings slots is not modelled.
  Settings values are taken as already-rounded reals. Window opacity and the
  thumbnail zoom are also left out.
- The `/v1/completions` branch emits three arguments on a four-argument
  signal. The model records it as a distinct `ThreeArgEmit` event. What Qt
  does with it is unspecified. If the binding rejects the short emit, it
  raises `TypeError` inside `run` (`pyqt_openai/main.py:90`), which no clause
  catches. The model's `escaped` field ignores this, so
  `OpenAIThread.CompletionTrace` reports no escape.
- `print(finish_reason)` in the streaming loop has no observable effect in the
  model.
- Malformed provider payloads (missing `choices`, `data` or `url` keys) are
  not modelled. Provider outcomes are well-formed by construction.
- OpenAIThread.Strip: whitespace is Python's `str.isspace` set, written out
  as code points.
- KeyShortcut.KeyText: `chr(key).upper()` is the parameter `upper`, because
  Unicode case mapping is not modelled. Surrogate code points 0xD800 to 0xDFFF
  are not Dafny characters, so their label is whatever `upper` returns.
- KeyShortcut.KeyPress: the key code and the modifier flags are inputs. Qt's
  swap of Ctrl and Meta on macOS is not modelled.
- PromptGroupName.Accept: database rows are reduced to `(id, name)`. The
  queries themselves are not modelled.
- Widget construction and pure UI files: thumbnail view, circle profile
  image, DALL-E home, prompt generator (clipboard), voice settings, chat unit
  widget, chat import type dialog. The remaining `main.py` plumbing is also
  left out: fine-tuning subprocesses, tray icon and close dialog.
- The prompt-entry name dialog delegates its decision to
  `is_prompt_entry_name_valid`, which is not part of this model.
- The side effects of `__chat` besides the arguments are not modelled:
  disabling the line edit, adding a conversation when the browser is new, and
  starting the thread.
