# Chat store, stream framing and view rules of a Next.js chat client

This project models the core of a chat web application in Dafny and proves
properties of that model. The application talks to OpenAI-compatible models,
keeps a forest of message versions per conversation, groups chats into
projects, and lets the user pin assistants. The model covers four parts.

- **The conversation store** (`src/context/chat-context.jsx`). Each conversation keeps
  `allMessages`, a forest of messages. `parentId` links a message to its parent, and
  `siblingIds` lists its other versions. `activePath` is the branch on screen, and
  `messages` is the visible transcript derived from it. The model covers:
  - the operations that add, fork, resubmit and switch versions;
  - the request lifecycle that streams an answer into a thinking placeholder, including
    the controller table and `streamingIds`;
  - pinning, the assistant lists and the project lists.

  The store is the class `Store.ChatStore`. Each method states its whole new state as a
  pure `Snapshot` function of the old one. The message-forest rules live in module
  `Forest`, the conversation operations in `Conversations`, and the assistant and
  project lists in `Catalog`.
- **The stream protocol between server and client.** The server side (`src/app/api/chat/route.js`)
  produces the frames:
  - a `__JSON_START__{sources}__JSON_END__` frame first;
  - reasoning wrapped in `__THINKING_START__` and `__THINKING_END__`;
  - the answer text.

  It also chooses the client and the model, and maps the history into prompt messages
  (`Framing`, `Routing`). The client side reads the frames back in its read loop
  (`Decoder`). `RoundTrip` proves the two halves fit together: each frame read as one
  chunk gives back the answer and the reasoning the model sent.
- **View rules of the screens.** The chat screen covers version arrows, error display,
  the send guard and the model lock (`ChatInterface`). The sidebar covers the chat
  list, the project list and folding (`Sidebar`). The project page covers its chat
  list, renaming and mock files (`ProjectView`). Other screens:
  - the date picker (`DatePicker`);
  - the shared-chat page (`SharePage`);
  - the assistant browser (`ExploreModal`);
  - the assistant editor (`EditAssistant`).
- **Shared pieces.** These are JavaScript string and array semantics: `indexOf`,
  `split`, `trim`, `replace`, `toString`, stable `sort`, and `filter` (`Text`, `Sorting`,
  `Base`).

Clocks, random ids, `JSON.parse`, `JSON.stringify`, `atob`, `FileReader` and
locale formatting are parameters of the operations that use them. Code that
is written as a loop over mutable variables is modelled as a `method` with a
loop, proved equal to a specification function. This covers the client's read
loop, the server's frame loop, the calendar grid and the store's update loop.

One place where the documentation of the system and its code disagree: the
documentation says thinking markers split across network chunks are
reassembled. The code tests each chunk on its own, and the model follows the
code (`Decoder.SplitMarkerIsText`).

## Model

| member | source | states |
|---|---|---|
| Forest.Find | src/context/chat-context.jsx:171 | `find` by id returns a stored message with that id that no earlier stored message shares, and nothing exactly when no message has the id |
| Forest.Visible | src/context/chat-context.jsx:171 | the visible transcript has at most one message per path entry, each a stored message whose id is on the path |
| Forest.VisibleAppend | src/context/chat-context.jsx:171 | the transcript of a path is the transcripts of its parts joined in order, so the path's order is kept |
| Forest.VisibleEntry | src/context/chat-context.jsx:171 | one path entry shows the message its id finds, and nothing when no message has it: misses are dropped |
| Forest.NotThinking | src/context/chat-context.jsx:499 | the history sent with a request holds exactly the visible messages that are not thinking |
| Forest.NotThinkingAppend | src/context/chat-context.jsx:499 | the history of a transcript is the histories of its parts joined in order, so the transcript's order is kept |
| Forest.FindAppend | src/context/chat-context.jsx:481-483 | appending messages with new ids changes no earlier lookup |
| Forest.VisibleOfChain | src/context/chat-context.jsx:171 | on a sound path, every entry is found, so the transcript has one message per path entry |
| Forest.AppendLeaf | src/context/chat-context.jsx:468-482 | storing a fresh leaf below a stored parent keeps the forest sound and deletes nothing |
| Forest.ForkOk | src/context/chat-context.jsx:536-564 | forking a stored message into a new version keeps the forest sound, links the new id into every member of the version group, and deletes nothing |
| Forest.ForkFind | src/context/chat-context.jsx:556-561 | after a fork an older id still finds its message with the same parent; only its sibling list changes, gaining the new id exactly when the message is in the forked version group |
| Conversations.TitleFrom | src/context/chat-context.jsx:376 | the title is the text itself up to 30 characters, else its first 30 characters followed by `...` |
| Conversations.CreateConversation | src/context/chat-context.jsx:339-394 | the conversation is well formed, has id `Date.now()`, is not pinned and stores the assistant and the model; a request starts exactly when the trimmed first message is non-empty or a file is attached; its title is the first 30 characters of the message (with `...` when longer), else the file name, else "New Chat"; without a request the conversation is empty and titled "New Chat" |
| Conversations.OpeningShown | src/context/chat-context.jsx:349-391 | a new conversation shows the question and its placeholder; only the question goes into the request |
| Conversations.ContinueChat | src/context/chat-context.jsx:425-448 | a shared transcript becomes a well-formed linear conversation with one visible message per shared one, each keeping every field but its id, links and timestamp, and a timestamp it had; an empty title becomes "Continued Chat" |
| Conversations.RestoredShown | src/context/chat-context.jsx:428-440 | the restored ids `1..n` form a sound forest whose path shows every message in order |
| Conversations.AddMessage | src/context/chat-context.jsx:450-524 | nothing stored is deleted; a request starts exactly for a user message and carries the new history; the first user message of an empty conversation names it |
| Conversations.TailOrNullIsTail | src/context/chat-context.jsx:454 | on a sound conversation `activePath[length - 1] \|\| null` is the path's tail |
| Conversations.AddMessageSound | src/context/chat-context.jsx:450-524 | with fresh clock ids the conversation stays sound, and the path grows by exactly the question and, for a user, its thinking reply below it |
| Conversations.RegenerateResponse | src/context/chat-context.jsx:526-598 | nothing is deleted, a request with the new history starts, and the path keeps its length after a fork and grows by one after an append |
| Conversations.RegenerateSound | src/context/chat-context.jsx:526-598 | with a fresh id the conversation stays sound |
| Conversations.RegenerateFork | src/context/chat-context.jsx:536-564 | regenerating an answer puts a new thinking version in its version group, in its place at the end of the path |
| Conversations.RegenerateAppend | src/context/chat-context.jsx:565-580 | otherwise a thinking answer is appended below the last path entry |
| Conversations.ResubmitMessage | src/context/chat-context.jsx:774-838 | an unknown message id changes nothing; otherwise nothing is deleted, a request with the new history starts, and the path is cut before the message and continues with the new version and its thinking answer |
| Conversations.ResubmitSound | src/context/chat-context.jsx:774-838 | resubmitting a message on the path keeps the conversation sound; the path runs to the original's parent, then the new version, then its thinking answer |
| Conversations.SwitchMessageVersion | src/context/chat-context.jsx:731-772 | the stored messages are untouched; the path is cut before the message and rebuilt from the target |
| Conversations.Descent | src/context/chat-context.jsx:749-760 | the walk starts at the id, steps each time to the newest child, and stops at an entry with no children; an empty id gives an empty walk |
| Conversations.NewestIsLastStored | src/context/chat-context.jsx:751-756 | the child the walk takes is the last stored message with that parent |
| Conversations.ChainNoDup | src/context/chat-context.jsx:749-760 | storage positions strictly increase along a path, so no id appears twice on it and the walk ends |
| Conversations.SwitchSound | src/context/chat-context.jsx:731-772 | switching to a version keeps the conversation sound, keeps the path up to the branch point, puts the chosen version in the message's place and runs down to a leaf |
| Conversations.SwitchIdempotent | src/context/chat-context.jsx:731-772 | switching again to the version now shown changes nothing |
| Store.ErrorText | src/context/chat-context.jsx:319 | the error text starts with `**Error:**` and carries the error message whenever that is non-empty |
| Store.Touched | src/context/chat-context.jsx:165-331 | each lifecycle update keeps ids and links; a message that is not thinking only ever receives stream text; opening or stopping clears `isThinking`; only the path's tail gets text |
| Store.ApplyAllPointwise | src/context/chat-context.jsx:165-331 | a series of updates rewrites each stored message on its own and leaves the other fields of the conversation alone |
| Store.ApplyAllWellFormed | src/context/chat-context.jsx:165-331 | lifecycle updates keep a well-formed conversation well formed, on the same path |
| Store.VisibleTouched | src/context/chat-context.jsx:168-172 | recomputing the visible list after an update gives the old visible list with each message updated |
| Store.UpdateConversation | src/context/chat-context.jsx:166-176 | only conversations with that id are updated; the others are kept in place |
| Store.UpdateAllPointwise | src/context/chat-context.jsx:143-337 | a request's updates reach every conversation with its id, and no other |
| Store.UpdateAllSound | src/context/chat-context.jsx:143-337 | a request's updates keep every stored conversation well formed |
| Store.DropConversation | src/context/chat-context.jsx:600-605 | exactly the conversations with another id remain |
| Store.TogglePinned | src/context/chat-context.jsx:607-611 | `isPinned` flips for conversations with that id, and everything else is kept |
| Store.TogglePinnedTwice | src/context/chat-context.jsx:607-611 | pinning twice is no change |
| Store.UpdatesMissDeleted | src/context/chat-context.jsx:600-605 | deleting a conversation does not stop its request, but that request's later updates change nothing |
| Store.RefusalMessage | src/context/chat-context.jsx:156-159 | the refusal message is never empty and is the server's error text when there is one |
| Store.NothingThinks | src/context/chat-context.jsx:165-179 | once the response opens no message is thinking, and stream updates start none |
| Store.CutOffIgnored | src/context/chat-context.jsx:292-331 | a failure after the response opened changes nothing: the partial answer stays, in either buffering mode |
| Store.EarlyFailureShown | src/context/chat-context.jsx:156-159 | a refusal or failed fetch turns a thinking tail into the error text; an early abort only stops it thinking; nothing else changes |
| Store.ReplayShows | src/context/chat-context.jsx:270-289 | text updates on the tail leave it holding the last text shown |
| Store.StreamedAnswerStored | src/context/chat-context.jsx:143-337 | for the server's frames of a completed stream, the thinking placeholder ends up holding exactly the model's answer and reasoning: with the opening chunk buffered once (the corrected loop), and for the loop as written when the search found no sources |
| Store.StreamShown | src/context/chat-context.jsx:165-289 | after a completed stream the placeholder holds the last text the read loop showed and no longer thinks |
| Store.StreamedAnswerLeaks | src/context/chat-context.jsx:193-289 | as written, when the search found sources and the model sent any text, the placeholder holds the start marker and the sources payload in front of the model's answer, with the model's reasoning |
| Store.StopSettles | src/context/chat-context.jsx:706-729 | after `stopResponse` the aborted request's own error handling changes nothing |
| Store.Respond | src/context/chat-context.jsx:149-331 | the request's try and catch blocks give the conversation list that its update sequence describes, for the read loop as written (`AsWritten`) or corrected |
| Store.ReadLoop | src/context/chat-context.jsx:186-290 | the read loop applies, chunk by chunk, exactly the updates the decoder asks for, in the given buffering mode |
| Store.ShowAll | src/context/chat-context.jsx:270-289 | the updates of one chunk are applied in order |
| Store.Dedupe | src/context/chat-context.jsx:147 | `[...new Set(xs)]` holds the same values, once each |
| Store.DedupeDistinct | src/context/chat-context.jsx:147 | a list without repeats is its own set |
| Store.RegisteredTracked | src/context/chat-context.jsx:145-147 | registering a request keeps the controller table and `streamingIds` in step, and marks the conversation in both |
| Store.UnregisteredTracked | src/context/chat-context.jsx:333-336 | the `finally` block keeps them in step and removes the conversation from both |
| Store.RequestLeavesTable | src/context/chat-context.jsx:143-337 | whatever a request does to the conversations, afterwards the table and the list are the old ones without its conversation |
| Store.ChatStore.constructor | src/context/chat-context.jsx:8-16 | the provider starts with every list empty and nothing active |
| Store.ChatStore.Begin | src/context/chat-context.jsx:145-147 | the request is registered and the store stays valid |
| Store.ChatStore.Settle | src/context/chat-context.jsx:333-336 | the request is unregistered and the store stays valid |
| Store.ChatStore.FetchResponse | src/context/chat-context.jsx:143-337 | register, then apply the reply's updates (decoded as written or corrected) to that conversation only, then unregister; the store stays valid, and sound when it was |
| Store.ChatStore.StopResponse | src/context/chat-context.jsx:706-729 | acts exactly when a controller is registered: it is removed with the streaming mark, and the conversation's thinking messages stop thinking; otherwise nothing changes; a sound store stays sound |
| Store.ChatStore.CreateConversation | src/context/chat-context.jsx:339-394 | the new conversation goes first and is selected; soundness is kept |
| Store.ChatStore.ContinueChat | src/context/chat-context.jsx:425-448 | the restored conversation goes first and is selected; soundness is kept |
| Store.ChatStore.StartAssistantChat | src/context/chat-context.jsx:396-423 | the id is the name's slug, a dash and the random part; the assistant is upserted into the pinned list; an empty chat is selected |
| Store.ChatStore.DeleteConversation | src/context/chat-context.jsx:600-605 | the conversation goes and is deselected when it was active; soundness is kept |
| Store.ChatStore.TogglePinConversation | src/context/chat-context.jsx:607-611 | only the pin flags change |
| Store.ChatStore.AddProjectAssistant | src/context/chat-context.jsx:613-634 | upserted into the custom list and refreshed in the pinned list |
| Store.ChatStore.RemoveProjectAssistant | src/context/chat-context.jsx:636-638 | the custom list loses that id, nothing else changes |
| Store.ChatStore.RemoveActiveAssistant | src/context/chat-context.jsx:640-642 | the pinned list loses that id, nothing else changes |
| Store.ChatStore.CreateProject | src/context/chat-context.jsx:644-657 | an empty project with id `Date.now()` goes first and is selected, and no chat is |
| Store.ChatStore.UpdateProject | src/context/chat-context.jsx:659-661 | only the project list changes, by the merge |
| Store.ChatStore.DeleteProject | src/context/chat-context.jsx:663-668 | the project goes and is deselected when it was selected |
| Store.ChatStore.AddChatToProject | src/context/chat-context.jsx:670-680 | only the project list changes |
| Store.ChatStore.RemoveChatFromProject | src/context/chat-context.jsx:682-690 | only the project list changes |
| Store.Slug | src/context/chat-context.jsx:408 | the slug holds only `a-z`, `0-9` and `-` |
| Store.SlugIdempotent | src/context/chat-context.jsx:408 | a slug is its own slug |
| Catalog.FindAssistant | src/context/chat-context.jsx:615 | `findIndex` gives the first entry with the id, or -1 when there is none |
| Catalog.UpsertStores | src/context/chat-context.jsx:613-623 | after an upsert the assistant is stored, every entry with another id is kept, and nothing else is added |
| Catalog.UpsertIds | src/context/chat-context.jsx:613-623 | the stored ids are the old ones plus the assistant's |
| Catalog.UpsertDistinct | src/context/chat-context.jsx:613-623 | distinct ids stay distinct |
| Catalog.UpsertIdempotent | src/context/chat-context.jsx:613-623 | saving the same assistant twice stores it once |
| Catalog.Refresh | src/context/chat-context.jsx:624-633 | a pinned assistant is replaced, and an unpinned one is not added |
| Catalog.DropAssistant | src/context/chat-context.jsx:636-642 | exactly the entries with another id remain, in order |
| Catalog.WithChat | src/context/chat-context.jsx:670-680 | the named project lists the chat afterwards and keeps its earlier ids in front, without introducing a repeat; other projects and fields are untouched |
| Catalog.WithChatIdempotent | src/context/chat-context.jsx:670-680 | adding a listed chat changes nothing |
| Catalog.WithoutChat | src/context/chat-context.jsx:682-690 | the named project keeps exactly its other chat ids; other projects and fields are untouched |
| Catalog.WithoutUndoesWith | src/context/chat-context.jsx:670-690 | removing a chat after adding it is only removing it |
| Catalog.UpdateProject | src/context/chat-context.jsx:659-661 | projects with the id get the merged fields; the others are kept |
| Catalog.DropProject | src/context/chat-context.jsx:663-668 | exactly the projects with another id remain |
| Decoder.Run | src/context/chat-context.jsx:186-290 | the read loop, from empty accumulators, as a function of the chunks |
| Decoder.RunAppend | src/context/chat-context.jsx:186-290 | reading two chunk lists in a row is reading the first, then the second from where it stopped |
| Decoder.RunOne | src/context/chat-context.jsx:188-289 | reading one chunk is one step of the loop |
| Decoder.SameWithoutStart | src/context/chat-context.jsx:193-201 | chunks holding no start marker are read the same whether the opening chunk is buffered once or as written |
| Decoder.ReadChunk | src/context/chat-context.jsx:188-289 | the loop body on the loop's own variables equals one `Step` |
| Decoder.StartJson | src/context/chat-context.jsx:193-201 | opening a JSON block on the loop's variables equals the model's branch |
| Decoder.EndJson | src/context/chat-context.jsx:203-246 | closing a JSON block on the loop's variables equals the model's branch |
| Decoder.ReadText | src/context/chat-context.jsx:249-289 | a chunk outside a JSON block on the loop's variables equals the model's branch |
| Decoder.Decode | src/context/chat-context.jsx:186-290 | the loop over the delivered chunks ends with the state and updates of `Run` |
| Decoder.WritesOnlyMarkerFree | src/context/chat-context.jsx:249-289 | text is written for a chunk exactly when the loop is outside a JSON block and the chunk holds no marker; the chunk is then routed whole |
| Decoder.ClosingEndsBlock | src/context/chat-context.jsx:203-246 | a chunk with an end marker ends the JSON block whatever the parse gives, and asks for the sources at most |
| Decoder.MarkerFreeRun | src/context/chat-context.jsx:264-289 | marker-free chunks are routed as one text, with one text update per chunk |
| Decoder.SplitMarkerIsText | src/context/chat-context.jsx:249-262 | a thinking marker split over two chunks lands in the answer text |
| Decoder.StartWins | src/context/chat-context.jsx:250-255 | the start marker is tested first, and everything after it goes to the reasoning |
| Decoder.EndMarkerKeptAsReasoning | src/context/chat-context.jsx:250-255 | a chunk holding the start marker and then the end marker leaves the end marker in the reasoning |
| Decoder.StepCases | src/context/chat-context.jsx:193-289 | what each branch does to the flags, the buffer and the updates |
| Decoder.BufferNeverCleared | src/context/chat-context.jsx:193-246 | `jsonBuffer` is never cleared: what it held stays at its front |
| Decoder.TrailingTextNotShown | src/context/chat-context.jsx:256-262 | text after a closing thinking marker in a final chunk reaches the answer but no update shows it |
| Decoder.ProducerFrameSplits | src/app/api/chat/route.js:150-153 | the server's sources frame splits at its markers into the payload |
| Decoder.CloseFrame | src/context/chat-context.jsx:205-208 | closing on the buffered payload parses exactly the payload and routes nothing |
| Decoder.JsonFrameOnce | src/context/chat-context.jsx:193-246 | with the opening chunk buffered once, a whole sources frame yields its sources and writes no text |
| Decoder.JsonFrameLeaks | src/context/chat-context.jsx:193-246 | as written, the same frame also writes its text before the end marker, start marker included, into the answer |
| Decoder.LeakWitness | src/context/chat-context.jsx:193-246 | the frame around `{}` meets the leak's hypotheses, with `__JSON_START__{}` as the leaked text |
| Framing.ReasoningOf | src/app/api/chat/route.js:158 | the reasoning is empty exactly when both reasoning fields are |
| Framing.WiresAppend | src/app/api/chat/route.js:145-185 | the text of two frame lists is the text of each, joined |
| Framing.StreamResponse | src/app/api/chat/route.js:145-185 | the `start` loop enqueues exactly the texts of `Produce`, and ends in `controller.error` exactly when the model stream threw |
| Framing.SendDelta | src/app/api/chat/route.js:157-173 | one delta is sent as its frames, and a thinking run is open afterwards exactly when it carried reasoning |
| Framing.SentStep | src/app/api/chat/route.js:156-174 | sending a delta extends what was sent by that delta's frames |
| Framing.DeltaNested | src/app/api/chat/route.js:160-169 | one delta's frames fit the thinking state and leave a run open exactly when it had reasoning |
| Framing.EmitNested | src/app/api/chat/route.js:155-174 | the frames of the first `n` deltas are nested, and a run is open after them exactly when delta `n - 1` had reasoning |
| Framing.ProduceBalanced | src/app/api/chat/route.js:145-185 | markers alternate start before end, reasoning is sent only inside a run, and a completed stream leaves none open |
| Framing.SourcesFirst | src/app/api/chat/route.js:150-153 | the sources frame is sent first, once, and exactly when the search found something |
| Framing.ContentLast | src/app/api/chat/route.js:171-173 | within a delta the content comes last, and only when non-empty |
| RoundTrip.StepFrame | src/context/chat-context.jsx:186-290 | the loop, buffering the opening chunk once, does on each server frame what the frame means |
| RoundTrip.RunFrames | src/context/chat-context.jsx:186-290 | a readable run of frames is read frame by frame, and the loop never ends inside a JSON block |
| RoundTrip.ShownTracksState | src/context/chat-context.jsx:270-289 | what the store was last shown is the loop's final answer and reasoning |
| RoundTrip.DeltaDecoded | src/app/api/chat/route.js:157-173 | one delta's frames put its content in the answer, or, with reasoning, its reasoning and content in the reasoning |
| RoundTrip.ProduceReadable | src/app/api/chat/route.js:145-185 | a response of marker-free deltas and a clean payload is readable by the loop |
| RoundTrip.RoundTrip | src/app/api/chat/route.js:145-185 | the server's stream read one frame per chunk gives the model's answer and reasoning, shows them last, and asks for the sources first and only then |
| RoundTrip.NoSourcesAsWritten | src/app/api/chat/route.js:145-185 | with no sources the server sends no start marker, so the loop as written reads the stream exactly as the corrected one does |
| RoundTrip.WiresWithSources | src/app/api/chat/route.js:150-153 | with sources the first chunk on the wire is the sources frame, and the rest is the deltas' frames |
| RoundTrip.FirstFrameAsWritten | src/context/chat-context.jsx:193-246 | as written, the sources frame in one chunk asks for the sources and leaves the start marker and the payload in the answer, with the block closed |
| RoundTrip.LeadingFrameAsWritten | src/context/chat-context.jsx:186-290 | as written, reading the sources frame and then more chunks is the leak followed by reading the rest from the leaked state |
| RoundTrip.RunAsWritten | src/context/chat-context.jsx:186-290 | as written, the server's stream with sources reads as the sources request followed by the frame-by-frame reading of the deltas after the leak |
| RoundTrip.RestFromLeak | src/app/api/chat/route.js:155-185 | after the leak, the deltas' frames add the model's answer behind the leaked text and the reasoning beside it, end outside a JSON block, and leave the final text as the last one shown |
| RoundTrip.LeakOutcome | src/context/chat-context.jsx:186-290 | the sources request in front of the rest's updates changes neither the final state nor what is shown last |
| RoundTrip.RoundTripAsWritten | src/context/chat-context.jsx:186-290 | as written, with sources the answer is the start marker and the payload followed by the model's answer; the reasoning is the model's; the sources are still asked for first |
| RoundTrip.LeakShownAsWritten | src/context/chat-context.jsx:270-289 | as written, with sources and any model text, the store is last shown the leaked answer and the model's reasoning |
| Routing.StripPrefix | src/app/api/chat/route.js:41 | `replace('openai/', '')` on a prefixed name drops the prefix |
| Routing.SelectClient | src/app/api/chat/route.js:25-46 | the default model is `gpt-5-nano`; client and final name follow the key rules; the prefix is dropped only for the OpenAI client |
| Routing.SystemRole | src/app/api/chat/route.js:48 | the role is `developer` exactly when the final name starts with `o`, else `system` |
| Routing.PrefixedRole | src/app/api/chat/route.js:25-48 | a name kept with its `openai/` prefix always gets `developer` |
| Routing.SystemPrompt | src/app/api/chat/route.js:97-100 | the prompt is the fixed instructions, then the project section, then the search section, each present only when non-empty |
| Routing.PlainPrompt | src/app/api/chat/route.js:97-100 | with neither section the prompt is the fixed instructions alone |
| Routing.IsVision | src/app/api/chat/route.js:49-58 | a vision model is one whose lower-cased name contains a vision marker |
| Routing.VisionIgnoresCase | src/app/api/chat/route.js:49-58 | upper-casing an ASCII name does not change the test |
| Routing.LlamaMarkersSubsumed | src/app/api/chat/route.js:49-58 | the two Llama markers add nothing beyond `vision` |
| Routing.MapMessage | src/app/api/chat/route.js:101-139 | the role is kept; a plain message keeps its text; an image message gets an image part exactly when the model is a vision model |
| Routing.PdfPreviewOnly | src/app/api/chat/route.js:123-127 | a PDF's prompt depends only on the first 100 characters of its data |
| Routing.FileInlined | src/app/api/chat/route.js:128-133 | other files are inlined whole, followed by the user's question |
| Routing.ErrorStatus | src/app/api/chat/route.js:199 | the status is never 0: the error's own status, or 500 when it has none or has 0 |
| Sorting.SortBySorted | src/components/sidebar.jsx:241-247 | the stable sort orders its result whenever the comparison is a total preorder |
| Sorting.SortByKeepsTies | src/components/project-view.jsx:241 | when every pair ties, the stable sort keeps the order |
| Sorting.SortStringsCanonical | src/components/chat-interface.jsx:648 | default `sort()` gives the same array for any arrangement of the same strings |
| ChatInterface.Versions | src/components/chat-interface.jsx:648 | the sorted versions are the message and its siblings, rearranged into default string order |
| ChatInterface.Position | src/components/chat-interface.jsx:649 | `indexOf` finds the message's first place among its sorted versions |
| ChatInterface.Navigate | src/components/chat-interface.jsx:644-664 | no control without siblings; otherwise both arrows lead to versions of the message, and the label `k/n` has `1 <= k <= n` with the message at place `k` of the sorted versions |
| ChatInterface.ArrowsMove | src/components/chat-interface.jsx:644-664 | with distinct versions, either arrow leaves the message |
| ChatInterface.ArrowsInverse | src/components/chat-interface.jsx:813-833 | within one version group the left arrow undoes the right arrow, and the other way round |
| ChatInterface.StoredArrowsInverse | src/components/chat-interface.jsx:644-664 | in a sound forest the arrows of the version reached bring the screen back |
| ChatInterface.Shown | src/components/chat-interface.jsx:746 | a message that is not an error is rendered as it is; an error loses its mark and the white space around the rest |
| ChatInterface.FailureShown | src/components/chat-interface.jsx:675 | a failed request's text is drawn as an error showing the error message, or the fixed apology when that is empty |
| ChatInterface.GeneratingWhileRequested | src/components/chat-interface.jsx:125 | a conversation shows as generating from registration until the request's `finally`, and other conversations are unaffected |
| ChatInterface.Send | src/components/chat-interface.jsx:276-320 | blank text with no file does nothing; a file over 10 MB is refused; an unreadable file is refused; otherwise the message is added to a real active conversation and creates one when there is none |
| ChatInterface.ActiveAssistant | src/components/chat-interface.jsx:127 | the assistant found is pinned and has the conversation's assistant id, and one is found whenever such an id is pinned |
| ChatInterface.ActiveModel | src/components/chat-interface.jsx:171-178 | a locked assistant's own model wins when the menu lists it; otherwise the user's choice |
| Sidebar.ProjectChatIds | src/components/sidebar.jsx:233-236 | the set holds exactly the chat ids some project lists |
| Sidebar.Unfiled | src/components/sidebar.jsx:240 | exactly the chats with a user message that no project lists |
| Sidebar.UnfiledAppend | src/components/sidebar.jsx:240 | the filter of a list is the filters of its parts joined in order, so the chats keep their order |
| Sidebar.TodayChats | src/components/sidebar.jsx:239-247 | exactly the chats with a user message that no project lists |
| Sidebar.TodayChatsOrdered | src/components/sidebar.jsx:241-247 | over dated chats, a pinned chat is never below an unpinned one, and a newer one is never below an older one with the same pin status |
| Sidebar.ToggleSection | src/components/sidebar.jsx:223-225 | the key flips, a missing key reading as false, and other keys are kept |
| Sidebar.ToggleSectionTwice | src/components/sidebar.jsx:223-225 | toggling twice restores the sections |
| Sidebar.ListProjects | src/components/sidebar.jsx:418-472 | with more than four projects and the list folded, the first four are shown with "Show N more" for the rest; otherwise all are shown, with "Show less" beyond four; no button when collapsed |
| Sidebar.ShowMoreReveals | src/components/sidebar.jsx:441-445 | "Show N more" reveals exactly the N hidden projects |
| ProjectView.ProjectChats | src/components/project-view.jsx:238-241 | the page lists exactly the conversations its chat ids find |
| ProjectView.FindConversation | src/components/project-view.jsx:239 | `find` gives a conversation with that id, and nothing exactly when none has it |
| ProjectView.Resolve | src/components/project-view.jsx:238-240 | each chat id is looked up and misses are dropped: the result holds exactly the conversations some chat id finds, and no more entries than chat ids |
| ProjectView.ProjectChatsNewestFirst | src/components/project-view.jsx:241 | with every `updatedAt` set, the chats are newest first |
| ProjectView.ProjectChatsUndated | src/components/project-view.jsx:238-241 | without `updatedAt`, the list keeps the order of the chat ids |
| ProjectView.Rename | src/components/project-view.jsx:184-189 | an update is sent exactly when the input is not blank and differs from the name; it carries the trimmed input |
| ProjectView.RenameStored | src/components/project-view.jsx:184-189 | a stored name is never blank and never starts or ends with white space; the project keeps its other fields |
| ProjectView.RenameSettles | src/components/project-view.jsx:184-189 | submitting the stored name again sends nothing |
| ProjectView.AddFile | src/components/project-view.jsx:198-205 | a file is appended under id `Date.now()` exactly when the prompt gave a non-empty name |
| ProjectView.RemoveFile | src/components/project-view.jsx:207-211 | exactly the files with another id remain |
| ProjectView.RemoveUndoesAdd | src/components/project-view.jsx:198-211 | removing a file just added under a fresh id restores the list |
| ProjectView.CreatesChatGuard | src/components/project-view.jsx:215 | a chat is started exactly when the trimmed input is non-empty and nothing is being submitted |
| ProjectView.ProjectSend | src/components/project-view.jsx:114-152 | the chat screen's guard applies, and a message always creates a new conversation |
| ProjectView.SendToProject | src/components/project-view.jsx:114-152 | when the guard passes, the conversation is created and filed under the project, and the request `createConversation` starts is returned; otherwise the store is unchanged and no request starts |
| ProjectView.FiledChatLeavesSidebar | src/components/sidebar.jsx:239-240 | a chat filed under a project leaves the sidebar's chat list |
| DatePicker.DaysInMonth | src/components/date-picker.jsx:31-32 | a month has 28 to 31 days |
| DatePicker.Weekday | src/components/date-picker.jsx:33 | `getDay()` is a weekday `0..6` |
| DatePicker.Grid | src/components/date-picker.jsx:27-45 | blanks up to the weekday of the 1st, then each day of the month in order |
| DatePicker.DaysOfMonth | src/components/date-picker.jsx:27-45 | the two push loops build exactly `Grid` |
| DatePicker.GridColumns | src/components/date-picker.jsx:27-45 | every day lands in the column of its weekday, within six rows |
| DatePicker.Shifted | src/components/date-picker.jsx:61-67 | `new Date(year, month + delta)` gives a month index `0..11`, counted `delta` months on, with the year rolled over |
| DatePicker.PrevMonth | src/components/date-picker.jsx:61-63 | the month before, rolling over into the previous year from January |
| DatePicker.NextMonth | src/components/date-picker.jsx:65-67 | the month after, rolling over into the next year from December |
| DatePicker.MonthArrowsInverse | src/components/date-picker.jsx:61-67 | the two arrows undo each other |
| DatePicker.WithYear | src/components/date-picker.jsx:69-71 | the chosen year, with the calendar moved by twelve months per year of difference |
| DatePicker.WithYearShifts | src/components/date-picker.jsx:69-71 | choosing a year is the same as moving the month arrows by twelve months per year of difference |
| DatePicker.Years | src/components/date-picker.jsx:80 | twenty years, entry `i` being ten years back plus `i` |
| DatePicker.YearsAround | src/components/date-picker.jsx:79-80 | twenty consecutive years from ten back, with the current year among them |
| DatePicker.Selected | src/components/date-picker.jsx:47-51 | the text handed on is the date part of the ISO string, and the popup closes |
| DatePicker.Today | src/components/date-picker.jsx:53-59 | the calendar shows today's month, today is handed on as a picked day would be, and the popup closes |
| DatePicker.DisplayDate | src/components/date-picker.jsx:73-77 | with a locale format that never yields empty text, the field is empty exactly when no date is selected; a selected date shows its locale text |
| DatePicker.PickedDayShown | src/components/date-picker.jsx:47-50 | after a day of years 0..9999 is picked, the field shows the locale text of the date the handed-on text reads back as |
| DatePicker.IsoRoundTrip | src/components/date-picker.jsx:49 | for years 0..9999 the text is ten characters that read back as the date |
| DatePicker.SelectionDistinguishes | src/components/date-picker.jsx:49 | for years 0..9999, different days hand back different text |
| SharePage.EscapeDigits | src/app/share/page.js:87-89 | a code below 256 escapes to `%` and its two lower-case hex digits |
| SharePage.EscapeRoundTrip | src/app/share/page.js:87-89 | on `atob` output the escape is exact percent-encoding: decoding it gives back every byte |
| SharePage.EscapeInjective | src/app/share/page.js:87-89 | different binary strings escape differently |
| SharePage.Classify | src/app/share/page.js:83-85 | a chat link exactly when the hash starts with `#data=`, a seed link with `#seed=`, and the data is the rest |
| SharePage.Decode | src/app/share/page.js:81-121 | a good chat link shows the chat, drops the seed and names the tab; a good seed link shows the seed and drops the chat; a bad link or no link sets the matching error, and nothing clears an error |
| SharePage.DecodeKeepsOne | src/app/share/page.js:81-121 | the page never holds both a chat and a seed after a good link |
| SharePage.FreshPageShows | src/app/share/page.js:81-187 | on a fresh page a good chat link shows the transcript when its value is truthy and the spinner otherwise; a good seed link likewise shows the start page or the spinner |
| SharePage.View | src/app/share/page.js:130-187 | the error screen shows exactly when an error is set; the start page shows exactly for a truthy seed without an error; the transcript only for a truthy chat; the spinner exactly when there is no error and no truthy seed |
| SharePage.StickyError | src/app/share/page.js:81-131 | as written, once an error is set a later good link still shows the error |
| SharePage.DecodeCorrected | src/app/share/page.js:81-121 | with the correction, a link that decodes clears an earlier error |
| SharePage.LastLinkDecides | src/app/share/page.js:123-187 | with the correction, the last fragment alone decides the screen |
| SharePage.StickyErrorWitness | src/app/share/page.js:123-131 | after `#x` then a good chat link: as written the error screen, corrected the transcript |
| ExploreModal.TogglePin | src/components/explore-modal.jsx:49-55 | the assistant's pinned status flips; unpinning keeps the other entries, and pinning appends it at the end |
| ExploreModal.TogglePinTwice | src/components/explore-modal.jsx:49-55 | pressing twice restores the pinned status; an unpinned assistant leaves the list exactly as it was |
| ExploreModal.ToggleAssistantPin | src/components/explore-modal.jsx:49-55 | only the pinned list of the store changes |
| ExploreModal.TabAssistants | src/components/explore-modal.jsx:106-120 | Pinned shows exactly the pinned list, Mine and Private the user's own, Public the built-in ones, and any other tab none |
| ExploreModal.FeaturedHaveNoMenu | src/components/explore-modal.jsx:139 | no built-in assistant offers the edit/delete menu |
| ExploreModal.ToggleMenu | src/components/explore-modal.jsx:144 | the menu of that card opens exactly when it was not open, and only that menu can be open |
| ExploreModal.ToggleMenuTwice | src/components/explore-modal.jsx:144 | pressing twice leaves that menu open only if it was open before |
| EditAssistant.InitialForm | src/components/edit-assistant-view.jsx:37-41 | without an assistant the form is empty with the user default model; with one, name, description, instructions and actions are the assistant's, and the model is its own or the user default when empty |
| EditAssistant.ToggleAction | src/components/edit-assistant-view.jsx:71-77 | a selected action is removed and an unselected one appended |
| EditAssistant.ToggleActionTwice | src/components/edit-assistant-view.jsx:71-77 | toggling twice restores whether the action is selected |
| EditAssistant.SelectedModel | src/components/edit-assistant-view.jsx:59 | the entry shown is on the menu; it is the model's entry when listed, else the first |
| EditAssistant.UnknownModelShowsDefault | src/components/edit-assistant-view.jsx:45-59 | an unlisted model shows as "User Default" |
| EditAssistant.Saved | src/components/edit-assistant-view.jsx:79-95 | saving happens exactly when the name is not blank; the form's fields are stored, `new` becomes a clock id, and `updatedAt` is set |
| EditAssistant.SavedIdNotNew | src/components/edit-assistant-view.jsx:84 | a saved assistant never keeps the placeholder id |
| EditAssistant.SaveReopens | src/components/edit-assistant-view.jsx:37-95 | reopening the editor on a saved assistant shows the form that was saved |
| EditAssistant.Save | src/components/edit-assistant-view.jsx:79-95 | the record is upserted into the user's assistants and refreshed where pinned |
| EditAssistant.Delete | src/components/edit-assistant-view.jsx:97-102 | an assistant that was never saved leaves the store alone; otherwise it is removed from the user's assistants |
| EditAssistant.StartChat | src/components/edit-assistant-view.jsx:104-109 | only a saved assistant starts a chat: its id is the name's slug, a dash and the random part; the assistant is upserted into the pinned list and an empty chat for it goes first and is selected |
| Text.IndexOf | src/context/chat-context.jsx:802 | `indexOf` is -1 exactly when the pattern is absent, and otherwise its first occurrence |
| Text.Before | src/context/chat-context.jsx:205-206 | `split(sep)[0]` is a prefix of the text; it is the whole text without a separator, and is followed by the separator otherwise |
| Text.SplitSecond | src/context/chat-context.jsx:252-253 | `split(sep)[1] \|\| ''` is the text between the first and second separators, and empty without a separator |
| Text.ReplaceFirst | src/context/chat-context.jsx:206 | `replace` with a string pattern changes only the first occurrence, and nothing when the pattern is absent |
| Text.Take | src/app/api/chat/route.js:126 | `substring(0, n)` is a prefix of length `n`, or the whole text when shorter |
| Text.TrimSpec | src/components/chat-interface.jsx:277 | `trim()` is the inner part of the text, with only white space around it, and it neither starts nor ends with white space |
| Text.TrimEmptyIffBlank | src/components/chat-interface.jsx:277 | `trim()` is empty exactly when every character is white space |
| Text.NatToStringInjective | src/context/chat-context.jsx:469 | different clock readings print as different ids |
| Base.SliceTo | src/context/chat-context.jsx:803 | `slice(0, end)` is a prefix of the list; its length is `end` clamped to the list, counted from the back when `end` is negative |
| Base.SliceDropsLast | src/context/chat-context.jsx:803 | for a message not on the path (`indexOf` gives `-1`) the slice drops exactly the last entry of a non-empty path |

## Left out

- Network, `fetch`, `ReadableStream`, `TextDecoder` and the model SDK. A reply is a list of string chunks and an optional failure. The server's model stream is a list of deltas plus a flag saying whether it completed.
- `TextDecoder` may re-split multi-byte characters across chunks. The model takes chunks as given, and markers split across chunks are not reassembled, as in the code.
- `localStorage` hydration and persistence (`src/context/chat-context.jsx:18-67`). They are browser I/O. The store starts from the empty state of `useState`.
- The web search step of the server (`src/app/api/chat/route.js:60-92`). The Tavily call is a foreign service, so its sources and context text are parameters.
- `editMessage` (`src/context/chat-context.jsx:692-704`). No screen in the modelled views calls it. It is a one-line content replacement with no invariant beyond those of `Store.Touched`.
- Concurrent requests on one conversation and React's batching of state updates. Each request's updates are applied in order, as one sequence.
- Clock readings (`Date.now()`), random id parts and `crypto` are parameters. Soundness lemmas require the clock ids to be fresh, which the code assumes.
- `toISOString` works in UTC while the calendar uses local time, and the model takes the date as given. `toLocaleDateString` is a parameter. The Date constructor's mapping of years 0 to 99 onto 1900 to 1999 is not modelled.
- DatePicker.IsoRoundTrip: proved only for years 0..9999, where `toISOString` writes four digits. The six-digit signed years are produced but not read back.
- DatePicker.SelectionDistinguishes: proved only for years 0..9999, because it reads the text back through the round trip above.
- The JSON `null` payload on the share page (`parsed.title` throwing inside the `try`) is folded into the parse parameter. Each screen's scroll position, focus and animation state are also left out.
- `handleCreateProjectChat` (`src/components/project-view.jsx:213-236`) passes no model, so the store's defaults apply. The model covers only its guard, in `ProjectView.CreatesChatGuard`.
- The display fields (icons, colours, descriptions) of the built-in assistants of the Public tab are not modelled. Only their ids matter to the rules.
- Sidebar.TodayChatsOrdered: the ordering is proved only for chats that can be dated. For a chat with neither a last-message time nor `updatedAt`, the comparator yields `NaN`, which `sort` reads as a tie. Mixed with real comparisons that makes the comparator inconsistent, so the engine decides the order; the model keeps such a chat in place, and no ordering is stated for it.
- ProjectView.ProjectChatsNewestFirst: the ordering is proved only when every chat has `updatedAt`. The store never sets `updatedAt` on a conversation, and `ProjectView.ProjectChatsUndated` covers that case: the list keeps the order of the project's chat ids.
- Conversations.SwitchMessageVersion: requires parents to be stored before their children. Every operation of the store keeps that order. On a forest that breaks it, the source's `while (currentId)` loop may never end.
- Strings are sequences of Unicode code points, while JavaScript strings are UTF-16 code units. Lengths and cuts differ for characters outside the Basic Multilingual Plane: the 30-character title cut (`Conversations.TitleFrom`), the 100-character PDF preview (`Text.Take`) and the default `sort()` order (`Sorting.LexLe`) are stated on code points.
- Case mapping is ASCII only (`Text.ToLower`, `Text.ToUpper`, `Store.Slug`). JavaScript's `toLowerCase` and `toUpperCase` also map non-ASCII letters, such as the dotless `ı` to `I`.
- Routing.VisionIgnoresCase: proved only for ASCII names. Under full Unicode case mapping it fails: `vısıon` with dotless `ı` is not a vision name, but its upper case `VISION` is.
- Integers are unbounded. Clock values, file sizes and indices never approach JavaScript's 2^53 limit in these operations.

## Findings

| source | as written | input that shows it | evidently intended | confidence | as-written member | corrected member |
|---|---|---|---|---|---|---|
| src/context/chat-context.jsx:193-246 | the chunk that opens a JSON block is appended to `jsonBuffer`, and the closing test then splits `jsonBuffer + chunk`. When a whole sources frame arrives in one chunk, the chunk counts twice, and the text before its end marker is routed into the answer | one chunk `__JSON_START__{}__JSON_END__` outside any block: `{}` has no `sources` field, so nothing is set, and `__JSON_START__{}` is written into the answer; with real sources the search's frame, sent as one chunk by the server, leaves `__JSON_START__` and the payload in front of the stored answer | the frame yields its sources and writes no text | not executed | Decoder.JsonFrameLeaks, Decoder.LeakWitness, RoundTrip.RoundTripAsWritten, Store.StreamedAnswerLeaks | Decoder.JsonFrameOnce, RoundTrip.RoundTrip, Store.StreamedAnswerStored |
| src/app/share/page.js:81-131 | `handleDecode` sets an error on a bad fragment, but no branch clears it. The error screen takes priority, so a good link pasted later (the reason for the `hashchange` listener) is never shown | fragment `#x`, then `#data=e30` (the object `{}`): the error screen stays | a fragment that decodes replaces the error with the chat or the seed page | not executed | SharePage.StickyError, SharePage.StickyErrorWitness | SharePage.DecodeCorrected, SharePage.LastLinkDecides |
