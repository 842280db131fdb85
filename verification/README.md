# Lite-LLM-Chat, modelled in Dafny

Lite-LLM-Chat is a chat application for several large-language-model
providers. Its pieces are:

- **The backend.** A FastAPI server stores chat sessions and their
  messages in a database. It forwards each conversation to the selected
  provider. It relays the provider's answer to the client as server-sent
  events, one `data: {...}` JSON object per event. It then stores the
  answer. Images the answer links to are downloaded to `/uploads`.
- **The providers.** OpenAI-compatible services, Mistral, Doubao, Groq and
  Google Gemini sit behind one registry.
- **The terminal console.** It talks to the same HTTP API.
- **The browser client.** It keeps the conversation, the per-provider
  settings and the streamed reply in React state.

This project models that core as Dafny modules, one per source file. It
proves what each part promises.

The relay forwards every provider chunk once, in order, and the text it
accumulates is the text the client was sent; the answer it stores is that
text with its image links localised once more. The terminal reader yields the `data:` payloads of complete
lines and stops at `[DONE]`, passing error chunks on (the console stops at
the first error). The browser reader yields the payloads of complete
blank-line-delimited events, skips `[DONE]`, and stops after a chunk whose
`error` or `done` is set. The session endpoints page, order, truncate and
delete rows as documented. The provider adapters build requests and read
responses field by field. The browser client's conversation updates
accumulate the streamed reply into the last message and leave earlier
messages untouched.

The database is a class with two tables held as sequences, plus a clock
that ticks on each timestamp write. The browser conversation and the
terminal console are classes whose methods change their fields. Everything
that is only computed is modelled as functions with lemmas.

Some things the code receives from outside are parameters of the model:

- the network;
- the providers' replies;
- JSON parsing;
- image downloads;
- the clock text;
- the user's input.

## Model

| member | source | states |
|---|---|---|
| ChatHelpers.EnsureList | backend/routers/chat_helpers.py:10-18 | None stays None; a list is kept; a string is its JSON parse, else a one-element list, or an empty list for the empty string |
| ChatHelpers.EnsureListEmpty | backend/routers/chat_helpers.py:13-17 | the empty string becomes an empty list when the parser rejects it |
| ChatHelpers.FormatApiContent | backend/routers/chat_helpers.py:53-75 | with no media the content is the bare text; otherwise a text part and then one part per image, video and audio URL, in order |
| ChatHelpers.ImageExt | backend/routers/chat_helpers.py:31-36 | `.jpg` exactly when the content type mentions jpeg, `.webp` when it mentions webp and not jpeg, `.png` otherwise |
| ChatHelpers.SaveRemoteImageSpec | backend/routers/chat_helpers.py:21-50 | the URL changes exactly when the download succeeded, and then it is `/uploads/<name><ext>` |
| ChatHelpers.SaveRemoteImage | backend/routers/chat_helpers.py:21-50 | the result is the URL itself, or, for a saved download, a path under `/uploads/` |
| ChatHelpers.MatchAtShape | backend/routers/chat_helpers.py:165 | a match of the image pattern is `![image](` + an http(s) URL without `)` + `)` |
| ChatHelpers.MatchAtFinds | backend/routers/chat_helpers.py:165 | every such reference at a position is found there, with its URL |
| ChatHelpers.FindImageUrls | backend/routers/chat_helpers.py:165-166 | every URL `re.finditer` yields is an http or https URL |
| ChatHelpers.NoBangNoMatch | backend/routers/chat_helpers.py:180-181 | text without `![` holds no match, so the fast exit of the streaming helper loses nothing |
| ChatHelpers.LocalRefsNoMatch | backend/routers/chat_helpers.py:165 | text without `![image](http` holds no match |
| ChatHelpers.LocalPathsUnderUploads | backend/routers/chat_helpers.py:168-174 | at most one found path per matched reference, each under `/uploads/` |
| ChatHelpers.LocalPathsEmpty | backend/routers/chat_helpers.py:172-174 | no path is found exactly when no image was saved |
| ChatHelpers.NothingSavedKeepsText | backend/routers/chat_helpers.py:169-173 | when no download succeeds, the text is unchanged |
| ChatHelpers.LocalizeMarkdownImages | backend/routers/chat_helpers.py:164-176 | the loop replaces every saved URL throughout the text, in match order, and collects the saved paths |
| ChatHelpers.LocalizeLocalIsNoOp | backend/routers/chat_helpers.py:164-176 | text whose references are all local is returned as it is, and nothing is downloaded |
| ChatHelpers.LocalizeStreamingContent | backend/routers/chat_helpers.py:179-193 | the same replacement; `modified` holds exactly when some image was saved |
| ChatHelpers.LocalizedRefsShowsEveryPath | backend/routers/chat_helpers.py:164-176 | corrected version: every saved path appears in the text as a whole `![image](path)` reference |
| ChatHelpers.LocalizedRefsKeepsUnsaved | backend/routers/chat_helpers.py:164-176 | corrected version: when nothing is saved, the text is unchanged |
| ChatHelpers.PrefixUrlBreaksReference | backend/routers/chat_helpers.py:173 | as written: with one URL a prefix of another, the second reference is broken, yet its path is still reported |
| ChatHelpers.PrefixDocByReference | backend/routers/chat_helpers.py:164-176 | corrected version: the same text has each reference replaced by its own path |
| ChatHelpers.LocalizedRefs | backend/routers/chat_helpers.py:164-176 | corrected version, reference by reference: text without `!` is kept as it is |
| ChatHelpers.LocalizedRefsIdempotent | backend/routers/chat_helpers.py:164-176 | corrected version: when no saved file name contains `!`, localising twice gives the same text as localising once |
| ChatHelpers.AsWrittenNotIdempotent | backend/routers/chat_helpers.py:164-176 | as written: a reference whose URL holds a nested `![image](` is rewritten once and then again on a second pass, which reports one more saved path; the corrected version leaves the same text fixed |
| ChatRelay.Localize | backend/routers/chat_helpers.py:164-176 | the as-written rewriting the endpoint applies; text without `![` is returned unchanged, as the streaming helper's fast exit assumes |
| ChatRelay.UnmodifiedKept | backend/routers/chat.py:165-172 | content that localising does not modify is forwarded and stored as it is |
| ChatRelay.StepConsistent | backend/routers/chat.py:156-186 | one loop iteration keeps the accumulated text equal to the content and reasoning forwarded so far |
| ChatRelay.RunConsistent | backend/routers/chat.py:147-186 | the same after any number of iterations |
| ChatRelay.RunStopped | backend/routers/chat.py:148-179 | after a disconnect, the end of the stream, a cancellation or an error chunk, later chunks change nothing |
| ChatRelay.Relay | backend/routers/chat.py:143-203 | the relay loop, which localises each content chunk with the as-written streaming helper, computes the specification `Finish(Run(steps))`; on every exit the `finally` block closes the provider stream, and after a disconnect it cancels the pending fetch |
| ChatRelay.ForwardChunk | backend/routers/chat.py:156-186 | one arrived chunk is handled as one step of the specification: content localised and accumulated, reasoning accumulated, the chunk forwarded, and the loop ended by an error chunk |
| ChatRelay.RelaySpec | backend/routers/chat.py:143-203 | the accumulated text is the forwarded content; at most one event per step; only the last event can end the stream, and it does exactly after an error chunk or a provider exception; the provider stream is open while the loop runs and closed however it ends, and a pending fetch is cancelled exactly when the client went away |
| ChatRelay.RunLength | backend/routers/chat.py:147-186 | each iteration emits at most one event |
| ChatRelay.RunAllData | backend/routers/chat.py:163-186 | a stream of chunks without errors is forwarded chunk by chunk, in order, each once |
| ChatRouter.IncomingData | backend/routers/chat.py:73-83 | only user and system messages are kept, never more than the request holds |
| ChatRouter.IncomingDataAppend | backend/routers/chat.py:73-83 | the filter works message by message and keeps the order |
| ChatRouter.BuildApiMessages | backend/routers/chat.py:85-104 | the optional system prompt first, then the stored history, then the new turns, each with its role and its formatted content |
| ChatRouter.StoredRoundTrip | backend/routers/chat.py:106-118 | a turn's media lists are read back unchanged from the stored row |
| ChatRouter.PersistTurns | backend/routers/chat.py:106-123 | the new turns are appended as rows of the session, in order; the session's `updated_at` moves only when there are some |
| ChatRouter.SaveAnswer | backend/routers/chat.py:208-224 | a committed answer adds one assistant row and moves the session to the answering provider and model; a failed commit changes nothing |
| ChatRouter.StatusCode | backend/routers/chat.py:41-64 | 404 exactly for an unknown session, 400 exactly for an unknown provider, 500 otherwise |
| ChatRouter.OpenSession | backend/routers/chat.py:35-55 | a given session id is looked up; without one a new session with a fresh id and the given or clock title is committed |
| ChatRouter.Generate | backend/routers/chat.py:127-227 | the stream opens with the session id; then the setup error, or the relayed events and, when the commit fails, one save error; the answer is stored exactly when the stream ended normally with content and the commit succeeded, and its text is the as-written localisation of the accumulated content |
| ChatRouter.AnswerAtOnce | backend/routers/chat.py:236-285 | a provider error and an empty answer give a 500 and write nothing; otherwise one assistant row holding the as-written localisation of the reply is written and returned |
| ChatRouter.SavedStreamClean | backend/routers/chat.py:205-224 | a stored streamed answer was sent without an error, and the relay's accumulated text, which is localised again before it is stored, is the content the client received |
| ChatRouter.RespondStreaming | backend/routers/chat.py:125-234 | the streaming branch meets the response contract `Responded`: a stored answer is the as-written localisation of the content the client was sent |
| ChatRouter.RespondAtOnce | backend/routers/chat.py:236-285 | the immediate branch meets the same contract |
| ChatRouter.Respond | backend/routers/chat.py:125-285 | either branch, as the request's `stream` flag selects, with the as-written localisation in both |
| ChatRouter.Converse | backend/routers/chat.py:66-285 | the upstream messages are the optional system prompt, the session's stored history and the new turns, each formatted as `format_api_content` does; the new turns are stored before the provider is called; at most one assistant row follows them |
| ChatRouter.StoreAndRespond | backend/routers/chat.py:106-285 | the turns are committed first and stay committed whatever the provider does; the answer written is the as-written localisation |
| ChatRouter.ChatCompletion | backend/routers/chat.py:25-285 | an unknown session gives 404 and an unknown provider 400, and neither stores a message nor sends anything upstream; otherwise the upstream messages are the system prompt, the history before the call and the new turns, and the endpoint converses as above |
| ProviderKwargs.OptKeysComplete | backend/routers/chat_helpers.py:88-159 | every optional setting is among the twenty-nine keys the function tests |
| ProviderKwargs.CleanLimit | backend/routers/chat_helpers.py:128-139 | the pixel limit keeps exactly the bounds that are set, with their values |
| ProviderKwargs.BaseKwargsSpec | backend/routers/chat_helpers.py:79-86 | the six sampling keys are always present with the request's values, and no optional key is |
| ProviderKwargs.BuildProviderKwargs | backend/routers/chat_helpers.py:78-161 | the six sampling keys always; each optional key exactly when the request sets it, with its value |
| Database.FindSession | backend/routers/sessions.py:60 | the index of the row with the id, or None exactly when no row has it |
| Database.NextRowIdFresh | backend/database.py:24 | a new primary key is larger than every existing one, so ids stay ascending |
| Database.KeepMessages | backend/routers/sessions.py:219-221 | a bulk delete keeps only rows that pass the test, never more rows than there were |
| Database.KeepMessagesMembers | backend/routers/sessions.py:219-221 | a row survives exactly when it was there and passes the test |
| Database.KeepMessagesAppend | backend/routers/sessions.py:219-221 | filtering works row by row |
| Database.KeepMessagesCommute | backend/routers/sessions.py:232-233 | two filters give the same table in either order |
| Database.KeepMessagesAll | backend/routers/sessions.py:219-221 | a filter every row passes deletes nothing |
| Database.KeepMessagesChronological | backend/routers/sessions.py:68-73 | filtering keeps rows in creation order |
| Database.MessagesOf | backend/routers/sessions.py:68-73 | a session's messages all belong to it |
| Database.BelowBoundKept | backend/routers/sessions.py:219-221 | truncating from an id above every row deletes nothing |
| Database.TruncationKeepsPrefix | backend/routers/sessions.py:219-221 | truncating a session's history keeps a prefix of it, and every removed message has an id at or above the bound |
| Database.SessionsExcept | backend/routers/sessions.py:193 | removing a session keeps exactly the other rows |
| Database.SessionsExceptAscending | backend/routers/sessions.py:193 | removing a session keeps the ids ascending |
| Database.Db.constructor | backend/database.py:20-52 | both tables start empty |
| Database.Db.Tick | backend/database.py:28-29 | each timestamp write reads a later time than any before |
| Database.Db.InsertSession | backend/database.py:20-29 | a new session row gets the next id and the current time for both timestamps; nothing else changes |
| Database.Db.InsertMessage | backend/database.py:35-49 | a new message row gets the next id and the current time; nothing else changes |
| Database.Db.DeleteSession | backend/routers/sessions.py:193 | the session row goes and no other session row changes; its messages are removed by the caller, as the cascade at backend/database.py line 32 does |
| Database.Db.DeleteMessages | backend/routers/sessions.py:219-221 | the message table becomes the rows that pass the test |
| Database.Db.Clear | backend/routers/sessions.py:232-234 | both tables become empty |
| Database.Db.UpdateSession | backend/database.py:29 | one session row is replaced by a row with the same id |
| SessionsRouter.InsertByRecency | backend/routers/sessions.py:27 | inserting a row into a sorted list adds exactly that row |
| SessionsRouter.ByRecency | backend/routers/sessions.py:27 | the sessions ordered by `updated_at`, newest first, are a permutation of the table |
| SessionsRouter.InsertByRecencySorted | backend/routers/sessions.py:27 | insertion keeps the newest-first order |
| SessionsRouter.ByRecencySorted | backend/routers/sessions.py:27 | the ordering really is newest first |
| SessionsRouter.Window | backend/routers/sessions.py:28-29 | `offset(skip).limit(limit)` is a contiguous slice starting at the offset, never longer than the limit |
| SessionsRouter.WindowTiles | backend/routers/sessions.py:28-29 | consecutive pages tile the list, and no offset and no limit give the whole list |
| SessionsRouter.PageSpec | backend/routers/sessions.py:25-31 | a page is newest first, holds at most `limit` sessions, and each of them is stored |
| SessionsRouter.GetSessions | backend/routers/sessions.py:16-46 | one summary per session of the page, in order, with that session's message count |
| SessionsRouter.ResponseMedia | backend/routers/sessions.py:85-86 | a list stays a list, a missing value stays missing, and the empty string becomes an empty list |
| SessionsRouter.ResponseMediaAgrees | backend/routers/sessions.py:85-86 | the detail endpoint reads media as the chat helper does, and fails exactly on non-empty text that does not parse |
| SessionsRouter.DetailChronological | backend/routers/sessions.py:68-73 | a session's messages come in creation order |
| SessionsRouter.GetSessionDetail | backend/routers/sessions.py:49-99 | 404 exactly for an unknown session; otherwise the session with its message count and every message in order |
| SessionsRouter.CreateSession | backend/routers/sessions.py:102-132 | one new row with the next id and the given title, provider and model; the count is 0 |
| SessionsRouter.UpdateSession | backend/routers/sessions.py:135-171 | 404 for an unknown session; otherwise a non-empty title replaces the old one and `updated_at` moves; nothing else changes |
| SessionsRouter.DeleteSession | backend/routers/sessions.py:174-194 | 404 for an unknown session; otherwise the session and its messages are deleted, and nothing else |
| SessionsRouter.DeleteSessionSpec | backend/routers/sessions.py:193 | after the delete the session is gone and has no messages; other sessions' histories are unchanged |
| SessionsRouter.TruncateSession | backend/routers/sessions.py:197-224 | 404 for an unknown session; otherwise the session's messages with id at or above the bound are deleted and `updated_at` moves |
| SessionsRouter.TruncateSpec | backend/routers/sessions.py:219-221 | the history kept is a prefix of the old one, everything removed was at or after the bound, and other sessions keep their histories |
| SessionsRouter.DeleteAllSessions | backend/routers/sessions.py:227-234 | both tables become empty |
| RequestModels.Violations | backend/models.py:101-131 | at most one validation error per constrained field |
| RequestModels.ViolationsSpec | backend/models.py:101-131 | the errors are exactly the fields that fail their constraint |
| RequestModels.ValidIffNoViolations | backend/models.py:101-131 | a body is accepted exactly when it has no validation error |
| RequestModels.Defaults | backend/models.py:110-115 | a request with only its messages streams by default |
| RequestModels.DefaultsValid | backend/models.py:101-115 | the defaults satisfy every constraint, so such a request is accepted exactly when every message role is user, assistant or system |
| ProviderRegistry.RegistryWellFormed | backend/provider_registry.py:62-64 | the registry holds one entry, filed under its provider's own id |
| ProviderRegistry.Lookup | backend/provider_registry.py:92-93 | a dictionary lookup: None exactly when no entry has the key, otherwise the entry's provider |
| ProviderRegistry.GetProviderSpec | backend/provider_registry.py:92-93 | a provider is found exactly for `deepseek`, and its id is the one asked for |
| ProviderRegistry.GetProvider | backend/provider_registry.py:92-93 | nothing is found exactly when no registry entry has the id, and a provider found has that id |
| ProviderRegistry.ListProviders | backend/provider_registry.py:67-76 | one descriptor per registered provider, in registry order |
| ProviderRegistry.ProviderModelsNameTheirProvider | backend/provider_registry.py:45-59 | every listed model names its provider, and no id is listed twice |
| ProviderRegistry.ListModels | backend/provider_registry.py:79-89 | a named provider's models, nothing for an unknown name, and every provider's models in order when no name is given |
| ProviderRegistry.ListingsAgree | backend/provider_registry.py:79-89 | the full listing is DeepSeek's two models, `deepseek-chat` then `deepseek-reasoner` |
| ProviderBase.Despaced | backend/providers/base.py:54 | every `-`, `_` and `/` becomes a space, and no other character changes |
| ProviderBase.DespacedIsReplace | backend/providers/base.py:54 | that is the same as the three chained `str.replace` calls |
| ProviderBase.FormatModelNameShape | backend/providers/base.py:46-55 | a display name has no `-`, `_` or `/`, no leading or trailing blank, and single spaces between words |
| ProviderBase.FormatModelName | backend/providers/base.py:46-55 | a display name holds no `-`, `_` or `/` |
| ProviderBase.FormatModelNameFirstWord | backend/providers/base.py:46-55 | an id starting with a letter gives a name whose first word starts with that letter in upper case |
| ProviderBase.ListModels | backend/providers/base.py:72-94 | the client's ids, or the fallback ids when it has none, without the skipped ones, in order, each described by its formatted name and the provider id |
| ProviderBase.DescribeModels | backend/providers/base.py:84-94 | the filtering and describing loop keeps exactly the ids not skipped, in order |
| ProviderBase.KeptSnoc | backend/providers/base.py:85-87 | the filter decides id by id |
| ProviderBase.DefaultWithoutModelsIsEmpty | backend/providers/base.py:96-102 | a provider with neither client ids nor a fallback lists nothing |
| ProviderBase.DefaultKeepsAll | backend/providers/base.py:96-98 | by default no id is skipped |
| ProviderBase.GroqSkipsWhisper | backend/providers/groq.py:15-16 | Groq skips exactly the ids whose lower-case form contains `whisper` |
| ProviderBase.GroqFallbackKept | backend/providers/groq.py:18-22 | both Groq fallback models survive the filter |
| ProviderBase.DoubaoType | backend/providers/doubao.py:45-55 | a Doubao model is described as one of the five model types |
| ProviderBase.DoubaoIdsStartWithLetter | backend/providers/doubao.py:16-38 | every Doubao id starts with a letter, so its name has a first word |
| ProviderBase.ListDoubaoModels | backend/providers/doubao.py:15-64 | the twenty-one Doubao models in order, each with its formatted name and its `<first word>'s <type>` description |
| ProviderBase.SeedanceIsReasoning | backend/providers/doubao.py:46-51 | a Seedance model that is neither Seedream nor vision is a reasoning model |
| ProviderBase.SeedreamWins | backend/providers/doubao.py:46-47 | any id mentioning `seedream` is an image generation model, whatever else it mentions |
| OpenAICompat.FirstTruthySpec | backend/providers/openai_base.py:43-49 | the first non-empty value of the probes, or the empty string exactly when none is non-empty |
| OpenAICompat.Reasoning | backend/providers/openai_base.py:37-49 | `reasoning_content`, else `reasoning`, else `thought`, taking the first non-empty one; the empty string for no message |
| OpenAICompat.ExtractReasoning | backend/providers/openai_base.py:37-49 | the probing loop returns that value |
| OpenAICompat.DeltaEvents | backend/providers/openai_base.py:94-105 | a delta yields at most a reasoning event and then a content event, never a terminal one |
| OpenAICompat.StreamedEndsOnce | backend/providers/openai_base.py:76-111 | the stream ends with exactly one terminal event: `done`, or `error` exactly when the call failed |
| OpenAICompat.ContentOfAppend | backend/providers/openai_base.py:94-105 | the content of a stream is the content of its parts, concatenated |
| OpenAICompat.DeltaEventsContent | backend/providers/openai_base.py:103-105 | a delta's events carry exactly its content |
| OpenAICompat.StreamKeepsContent | backend/providers/openai_base.py:76-111 | the streamed content is the deltas' content in order, with nothing lost or added |
| OpenAICompat.StreamChat | backend/providers/openai_base.py:76-111 | the streaming loop yields exactly the specified events |
| OpenAICompat.Chat | backend/providers/openai_base.py:51-74 | a reply with a choice succeeds, with the first choice's content, or the empty string, and its reasoning; a failure or no choice raises `API error: ...` |
| OpenAICompat.ListModels | backend/providers/openai_base.py:113-120 | the listed ids, or nothing when the call fails |
| Mistral.Split | backend/providers/mistral_client.py:17-43 | no content and non-list objects give nothing; a string is all text |
| Mistral.ExtractReasoningAndText | backend/providers/mistral_client.py:17-43 | the loop over parts returns the thinking texts and the text parts, each concatenated in order |
| Mistral.SplitAppend | backend/providers/mistral_client.py:27-43 | both outputs are concatenations part by part |
| Mistral.IgnoredPart | backend/providers/mistral_client.py:28-41 | a part that is neither thinking nor text changes neither output |
| Mistral.FinalReasoning | backend/providers/mistral_client.py:80-84 | the structured reasoning when there is any, else the reasoning fields of the delta |
| Mistral.DeltaEvents | backend/providers/mistral_client.py:79-89 | a delta yields at most a reasoning event and then a content event, never a terminal one |
| Mistral.StreamChat | backend/providers/mistral_client.py:64-95 | the streaming loop yields exactly the specified events |
| Mistral.StreamEndsOnce | backend/providers/mistral_client.py:64-95 | the stream ends with exactly one terminal event, `error` exactly when the call failed |
| Mistral.Chat | backend/providers/mistral_client.py:45-62 | a reply with a choice succeeds, with the text and the reasoning of the first choice; a failure or no choice raises `Mistral API error: ...` |
| GeminiConfig.BareName | backend/providers/gemini_config.py:32 | the name without one leading `models/`, and the whole name when there is none |
| GeminiConfig.AnyPrefix | backend/providers/gemini_config.py:33 | true exactly when the name starts with one of the prefixes |
| GeminiConfig.ShouldEnableThinking | backend/providers/gemini_config.py:27-33 | thinking is on exactly when the lower-cased model mentions `thinking` or its bare name starts with one of the eighteen listed models |
| GeminiConfig.ModelsPrefixIgnored | backend/providers/gemini_config.py:35-46 | a leading `models/` changes none of the thinking-level, Imagen and Gemini-image answers |
| GeminiConfig.ThinkingLevelOfPrefix | backend/providers/gemini_config.py:35-37 | a bare name starting with `gemini-3` supports a thinking level |
| GeminiConfig.NoThinkingLevelAt | backend/providers/gemini_config.py:35-37 | a bare name that differs from `gemini-3` in some of its first eight characters, in either case, does not |
| GeminiConfig.ListedThinkingLevels | backend/providers/gemini_config.py:6-37 | of the thinking-config models, exactly the three `gemini-3` entries support a thinking level |
| GeminiConfig.ImageModelKinds | backend/providers/gemini_config.py:39-46 | a name mentions `image` exactly when it is an Imagen or a Gemini image model, and it is never both |
| GeminiConfig.ImagenMentionsImage | backend/providers/gemini_config.py:39-46 | an Imagen model mentions `image`, yet is never a Gemini image model |
| GeminiConfig.BuildImagenConfig | backend/providers/gemini_config.py:48-58 | the number of images exactly when it is given, each text option exactly when it is non-empty, and no other key |
| GeminiConfig.Modality | backend/providers/gemini_config.py:81-85 | a kept modality is `IMAGE` or `TEXT` |
| GeminiConfig.Normalized | backend/providers/gemini_config.py:79-85 | every kept modality is `IMAGE` or `TEXT`, never more than given |
| GeminiConfig.NormalizedAppend | backend/providers/gemini_config.py:80-85 | modalities are normalised one at a time, in order |
| GeminiConfig.NormalizedMembers | backend/providers/gemini_config.py:80-85 | a value is kept exactly when some given modality strips and upper-cases to it |
| GeminiConfig.NormalizedKeeps | backend/providers/gemini_config.py:83-85 | `IMAGE` and `TEXT` are kept as they are |
| GeminiConfig.NormalizedIdempotent | backend/providers/gemini_config.py:76-86 | normalising twice changes nothing more |
| GeminiConfig.NormalizeResponseModalities | backend/providers/gemini_config.py:76-86 | no modalities or none kept gives None; otherwise the kept ones in order |
| GeminiConfig.MergedMembers | backend/providers/gemini_config.py:123-132 | a tool is merged exactly when it was passed alone or inside a list |
| GeminiConfig.MergeTools | backend/providers/gemini_config.py:123-132 | the merge loop returns the tools flattened in order, or None when there are none |
| GeminiConfig.GetSafetySettings | backend/providers/gemini_config.py:134-144 | None exactly for an empty threshold; otherwise the five harm categories in order, each with the threshold |
| GeminiMessages.GeminiRole | backend/providers/gemini_messages.py:13-25 | `model` exactly for a role that lower-cases to `assistant`, `user` for every other role |
| GeminiMessages.PartOf | backend/providers/gemini_messages.py:30-123 | a text part keeps its text and a non-empty signature; an uploaded image, video or audio that can be read becomes inline data whose base64 decodes to the file's bytes, and only such a part does |
| GeminiMessages.Signed | backend/providers/gemini_messages.py:124-125 | for a model message with signatures, the first part carries the first signature; no other part changes |
| GeminiMessages.Converted | backend/providers/gemini_messages.py:21-131 | the message's Gemini role, and a string content becomes one text part |
| GeminiMessages.Contents | backend/providers/gemini_messages.py:12-131 | at most one content per message, each with role `user` or `model` |
| GeminiMessages.Instruction | backend/providers/gemini_messages.py:133 | the system texts joined by newlines and stripped, None when that is empty; a list-valued system content makes the join fail |
| GeminiMessages.ConvertParts | backend/providers/gemini_messages.py:29-123 | the loop over parts converts each part in order and drops the ones that give nothing |
| GeminiMessages.ConvertMessage | backend/providers/gemini_messages.py:21-131 | the conversion of one message, as specified |
| GeminiMessages.MessagesToContentsAndSystem | backend/providers/gemini_messages.py:8-134 | the contents of the non-system messages in order, and the system instruction; fails exactly when the instruction cannot be joined |
| GeminiMessages.ContentsAppend | backend/providers/gemini_messages.py:12-131 | messages are converted one by one, keeping the order |
| GeminiMessages.SystemMessageInvisible | backend/providers/gemini_messages.py:16-19 | a system message adds no content |
| GeminiMessages.OtherMessageKept | backend/providers/gemini_messages.py:21-131 | any other message adds exactly its own converted content, in place |
| GeminiClient.ShouldEnableThinking | backend/providers/gemini_client.py:52-53 | thinking is on exactly when the model name itself starts with one of the eighteen listed models |
| GeminiClient.PrefixesAreBare | backend/providers/gemini_client.py:16-35 | no listed model is empty or starts with `m`, so none matches a `models/` name |
| GeminiClient.ThinkingNarrowerThanMixin | backend/providers/gemini_client.py:52-53 | whenever this client turns thinking on, the shared configuration helper does too |
| GeminiClient.ModelsNameNotThinking | backend/providers/gemini_client.py:52-53 | `models/gemini-2.5-pro` gets no thinking here, although the configuration helper gives it thinking |
| GeminiClient.RequestConfig | backend/providers/gemini_client.py:138-154 | the request configuration carries the temperature, token limit and system instruction, and a thinking configuration (include thoughts, unlimited budget) exactly when thinking is on |
| GeminiClient.Contents | backend/providers/gemini_client.py:60-80 | at most one content per message, each a single text part with role `user` or `model` |
| GeminiClient.MessagesToContentsAndSystem | backend/providers/gemini_client.py:56-83 | the conversion loop returns the specified contents and system instruction |
| GeminiClient.ContentsAppend | backend/providers/gemini_client.py:60-80 | messages are converted one by one, in order |
| GeminiClient.SystemMessageInvisible | backend/providers/gemini_client.py:64-67 | a system message adds no content |
| GeminiClient.ContentsAgreeWithMixin | backend/providers/gemini_client.py:56-83 | on plain-text messages this conversion gives the same contents as the multimodal one in gemini_messages.py |
| GeminiClient.InstructionAgreesWithMixin | backend/providers/gemini_client.py:82 | and the same system instruction |
| GeminiClient.CandidateEvents | backend/providers/gemini_client.py:162-170 | a chunk yields a reasoning event exactly when it has reasoning and a content event exactly when it has text, reasoning first, never a terminal event |
| GeminiClient.StreamChat | backend/providers/gemini_client.py:128-175 | the streaming loop yields exactly the specified events |
| GeminiClient.StreamEndsOnce | backend/providers/gemini_client.py:128-175 | the stream ends with exactly one terminal event, `error` exactly when the call failed |
| GeminiClient.Chat | backend/providers/gemini_client.py:177-215 | the text and reasoning of the first candidate, empty for no candidate; a failure raises `Gemini API error: ...` |
| GeminiClient.ModelIds | backend/providers/gemini_client.py:220-225 | only non-empty ids are listed |
| GeminiClient.ListModels | backend/providers/gemini_client.py:217-229 | the loop returns those ids, or nothing when the listing fails |
| GeminiClient.ListedIdsRoundTrip | backend/providers/gemini_client.py:221-225 | models named `models/<id>` list as exactly their ids, in order |
| GeminiResponse.CollectSignatures | backend/providers/gemini_response.py:12-21 | the loop over a candidate's parts collects each truthy signature, bytes base64-encoded, in order |
| GeminiResponse.ExtractThoughtSignatures | backend/providers/gemini_response.py:6-22 | the signatures of every candidate, in order |
| GeminiResponse.PartSignaturesAppend | backend/providers/gemini_response.py:12-21 | signatures are collected part by part |
| GeminiResponse.SignaturesAppend | backend/providers/gemini_response.py:9-21 | and candidate by candidate |
| GeminiResponse.BytesSignature | backend/providers/gemini_response.py:17-18 | a bytes signature is reported as its base64 text, which decodes back to the bytes |
| GeminiResponse.UnsignedPart | backend/providers/gemini_response.py:16 | a part without a truthy signature contributes nothing |
| GeminiResponse.UrlsMember | backend/providers/gemini_response.py:74-81 | the URLs seen are exactly the non-empty URLs of the entries |
| GeminiResponse.DedupSpec | backend/providers/gemini_response.py:74-82 | deduplication keeps the set of URLs, keeps the first entry for each URL, and keeps them in order of first appearance |
| GeminiResponse.DedupUnique | backend/providers/gemini_response.py:74-82 | the kept entries have non-empty, pairwise distinct URLs |
| GeminiResponse.Deduplicate | backend/providers/gemini_response.py:74-82 | the deduplication loop computes that sequence |
| GeminiResponse.EmptyStringItemDropped | backend/providers/gemini_response.py:78-79 | entries without a URL are all dropped |
| GeminiResponse.ChunkEntry | backend/providers/gemini_response.py:45-72 | a grounding chunk gives an entry exactly when it has a URL; the web URL wins over the chunk's own; the title falls back through the web title, the web URL, the chunk title and the URL; content only when present |
| GeminiResponse.CollectChunks | backend/providers/gemini_response.py:45-72 | the loop over chunks collects their entries in order |
| GeminiResponse.ExtractSearchResults | backend/providers/gemini_response.py:24-82 | the deduplicated entries of every candidate's grounding chunks |
| GeminiResponse.ItemEntry | backend/providers/gemini_response.py:119-133 | a string item is its own URL and title; a record needs a URL, its title falls back to the URL, and its status becomes the content; anything else is skipped |
| GeminiResponse.CollectItems | backend/providers/gemini_response.py:118-133 | the loop over URL items collects their entries in order |
| GeminiResponse.ExtractUrlContextResults | backend/providers/gemini_response.py:84-143 | the deduplicated entries of every candidate's URL-context metadata |
| GeminiResponse.CandidateMetadataFirst | backend/providers/gemini_response.py:98-104 | a candidate's own metadata is used whatever the response-level metadata holds |
| GeminiResponse.ResponseMetadataFallback | backend/providers/gemini_response.py:104 | a candidate without metadata uses the response-level metadata |
| GeminiResponse.ExtractTextAndReasoning | backend/providers/gemini_response.py:145-176 | the loop over the first candidate's parts returns the concatenated text and the newline-joined reasoning |
| GeminiResponse.TextsSpec | backend/providers/gemini_response.py:158-169 | only non-empty texts are collected, and none exactly when no part of that kind has text |
| GeminiResponse.TextAndReasoningEmpty | backend/providers/gemini_response.py:145-176 | the text is empty exactly when the first candidate has no non-thought text part, and likewise for the reasoning |
| GeminiResponse.PartKindSeparated | backend/providers/gemini_response.py:163-169 | a thought part never reaches the text, and a text part never reaches the reasoning |
| GeminiResponse.ContentAppend | backend/providers/gemini_response.py:172 | the text of a candidate is the text of its parts, concatenated in order |
| GeminiMedia.ExtractUrl | backend/providers/gemini_media.py:13-24 | corrected `_extract_url`: the image URL's `url` then `uri`, or the image URL itself, and otherwise the image's own `url` |
| GeminiMedia.ExtractUrlAgrees | backend/providers/gemini_media.py:13-24 | the corrected reading agrees with the code as written except for a dict without `image_url`, and treats dicts and SDK objects alike |
| GeminiMedia.DictUrlIgnored | backend/providers/gemini_media.py:15-18 | as written, a dict image with only its own `url` is shown as nothing; the corrected reading shows it |
| GeminiMedia.UrlsOf | backend/providers/gemini_media.py:26 | one URL per image, in order |
| GeminiMedia.LinksSpec | backend/providers/gemini_media.py:27 | one `![image](url)` link for each non-empty URL, and none exactly when every URL is empty |
| GeminiMedia.FormatImageMarkdownSpec | backend/providers/gemini_media.py:9-27 | the Markdown is empty exactly when no image has a URL, and it shows a link for every image that has one |
| GeminiMedia.ExtractUrlAsWritten | backend/providers/gemini_media.py:13-23 | as written: a dict without `image_url` gives the empty string; any URL found is one of the image's own strings (image_url's `url` or `uri`, image_url itself, or the image's `url`) |
| GeminiMedia.FormatImageMarkdown | backend/providers/gemini_media.py:9-27 | corrected reading: the Markdown is empty exactly when no image has a URL |
| GeminiMedia.FormatImageMarkdownAsWritten | backend/providers/gemini_media.py:9-27 | as written: the same Markdown as the corrected reading whenever no image is a dict without `image_url` |
| GeminiMedia.PartImage | backend/providers/gemini_media.py:52-75 | a part gives an image exactly when its inline bytes, or its base64 text decoded, are non-empty; the MIME type is kept |
| GeminiMedia.CollectImages | backend/providers/gemini_media.py:51-75 | the loop over parts collects their images in order |
| GeminiMedia.ExtractInlineImages | backend/providers/gemini_media.py:45-76 | the images of every candidate, in order |
| GeminiMedia.EncodedImageRoundTrip | backend/providers/gemini_media.py:67-75 | inline data sent as base64 text gives back the encoded bytes |
| GeminiMedia.ImagesAppend | backend/providers/gemini_media.py:48-75 | images are collected candidate by candidate |
| GeminiMedia.Extension | backend/providers/gemini_media.py:32-36 | the guessed extension of the MIME type when there is one, `.png` otherwise |
| GeminiMedia.SaveGeneratedImage | backend/providers/gemini_media.py:29-43 | no bytes give the empty path and no file; otherwise the bytes are written to `gemini_imagen_<hex><ext>` and the path is `/uploads/` plus that name |
| GeminiMedia.UploadPathOfSaved | backend/providers/gemini_media.py:43 | a saved path lies under `/uploads/`, where the message converter looks for files |
| GeminiMedia.SavedImageInlinesBack | backend/providers/gemini_media.py:29-43 | an image saved and later sent back in a message is inlined as base64 that decodes to the same bytes |
| Base64.ValueOf | backend/providers/gemini_response.py:18 | a base64 digit's value is below 64 and maps back to the digit |
| Base64.EncodeLength | backend/providers/gemini_response.py:18 | the encoding of n bytes has 4 * ceil(n / 3) characters |
| Base64.DecodeQuad | backend/providers/gemini_media.py:69 | a group of four characters decodes to one to three bytes, three unless it is the last group |
| Base64.DecodeEncode | backend/providers/gemini_media.py:67-71 | decoding the encoding of any bytes gives them back |
| Base64.Encode | backend/providers/gemini_response.py:18 | padding `=` appears only among the last two characters |
| Base64.Decode | backend/providers/gemini_media.py:69 | a decoded text has a length that is a multiple of four, and at most three bytes per four characters |
| TerminalPayload.KeyNamesDistinct | terminal/api_client.py:252-269 | two payload keys with the same JSON name are the same key, so the payload is a well-formed object |
| TerminalPayload.TurnsOf | terminal/api_client.py:255 | the message list keeps the order and the role and content of every message, and nothing else |
| TerminalPayload.BuildPayload | terminal/api_client.py:215-232 | provider, model, messages, stream and temperature are always sent; session id, message provider, message model, token limit and title are sent exactly when they are truthy, with their own value |
| TerminalApi.BaseUrl | terminal/api_client.py:63-64 | the base address is the configured one with every trailing `/` removed, and ends in no `/` |
| TerminalApi.Url | terminal/api_client.py:76-78 | an endpoint address is the base address followed by `/api/v1` and the path |
| TerminalApi.UrlIgnoresTrailingSlash | terminal/api_client.py:63-78 | configuring the base with an extra trailing `/` gives the same endpoint addresses |
| TerminalApi.LinesAtFirst | terminal/api_client.py:280-281 | the buffer is cut at its first newline: the first line comes first, the rest is read after it |
| TerminalApi.LinesWithoutNewline | terminal/api_client.py:280 | text without a newline yields no line |
| TerminalApi.LinesAppend | terminal/api_client.py:275-281 | the lines of text received in two parts, the first ending in a newline, are the lines of each part in order |
| TerminalApi.LinesAreSplitPieces | terminal/api_client.py:280-281 | the complete lines are the pieces between newlines, without the last unterminated piece |
| TerminalApi.Payload | terminal/api_client.py:282-290 | a payload exists only for a line starting with `data:` once trailing carriage returns are removed, and it is non-empty and starts with no whitespace |
| TerminalApi.LineOutcomeCases | terminal/api_client.py:283-297 | a line stops the stream exactly when its payload is `[DONE]`, and delivers a value exactly when it has another payload that parses, the value being the parse |
| TerminalApi.CarriageReturnIgnored | terminal/api_client.py:282 | a trailing carriage return changes nothing about a line |
| TerminalApi.PayloadOfData | terminal/api_client.py:285-290 | the payload of `data:` + body is the body without trailing carriage returns and leading whitespace, or none when that is empty |
| TerminalApi.SpaceAfterColonIgnored | terminal/api_client.py:288 | a space after `data:` does not change the payload |
| TerminalApi.LeadingSpaceIgnored | terminal/api_client.py:288 | leading whitespace of the payload is dropped |
| TerminalApi.Events | terminal/api_client.py:280-297 | the lines yield no more values than there are lines |
| TerminalApi.ThenStep | terminal/api_client.py:283-297 | a skipped line adds nothing, a `[DONE]` line ends the stream with what was delivered so far, a delivered line adds its value |
| TerminalApi.StreamAtFirst | terminal/api_client.py:280-297 | the stream is the outcome of its first line followed by the stream of the rest |
| TerminalApi.StreamAtNewline | terminal/api_client.py:280-282 | cutting at the first newline of the buffer, whatever arrives later, reads the same stream |
| TerminalApi.EventsAppend | terminal/api_client.py:280-297 | reading two runs of lines delivers the first run's values, then, unless the first run stopped, the second run's |
| TerminalApi.EventsArePayloads | terminal/api_client.py:283-297 | the delivered values are the parses of the data lines in order, up to the first `[DONE]`; all of them when there is none |
| TerminalApi.TrailingTextIgnored | terminal/api_client.py:273-297 | text after the last newline when the body ends delivers nothing |
| TerminalApi.StreamAppend | terminal/api_client.py:273-281 | how the body is cut into chunks at line ends does not change what is delivered |
| TerminalApi.DoneEndsStream | terminal/api_client.py:291-292 | after a `[DONE]` line nothing more is delivered and the stream ends |
| TerminalApi.ReadLine | terminal/api_client.py:282-297 | reading one line gives that line's outcome |
| TerminalApi.TakeLine | terminal/api_client.py:280-297 | taking one line from the buffer shortens it and keeps what is delivered from the whole body unchanged |
| TerminalApi.TakeLines | terminal/api_client.py:280-297 | the inner loop leaves no newline in the buffer unless it stopped, and what it delivered plus what the rest delivers is what the buffer delivers |
| TerminalApi.ChatStream | terminal/api_client.py:271-297 | with status 200 the values yielded are those of the whole body read as lines, however it is cut into chunks, up to the first `[DONE]`; with any other status nothing is yielded |
| TerminalConsole.Parts | terminal/chat_console.py:251-252 | a command splits into one to three words, the first being the command word |
| TerminalConsole.StreamMode | terminal/chat_console.py:343-351 | a mode turns streaming on exactly for `on`, `true`, `yes`, `1` and off exactly for `off`, `false`, `no`, `0`, in any case |
| TerminalConsole.KindOf | terminal/chat_console.py:255-378 | each command word selects its own branch, `/stop`, `/exit` and `/quit` the exit branch |
| TerminalConsole.ExitWords | terminal/chat_console.py:255-256 | the console stops exactly on an exit word, and then changes nothing |
| TerminalConsole.Dispatch | terminal/chat_console.py:249-256 | `handle_command` answers False exactly for an exit word, and then changes nothing |
| TerminalConsole.StreamCommand | terminal/chat_console.py:339-351 | `/stream` with an on word enables streaming, with an off word disables it, and otherwise changes nothing |
| TerminalConsole.OnlyStreamSetsStreaming | terminal/chat_console.py:249-380 | no command but `/stream` changes the streaming setting |
| TerminalConsole.TemperatureInRange | terminal/chat_console.py:353-365 | only `/temp` changes the temperature, to the parsed number and only when it lies in [0, 2], so the temperature stays in range |
| TerminalConsole.ModelFromCatalogueOrSession | terminal/chat_console.py:231-247 | the current provider and model change only to an entry of the model catalogue, or to a loaded session's own |
| TerminalConsole.SessionClearedOnlyByDelete | terminal/chat_console.py:289-302 | the current session is dropped only by a successful `/delete` of its own id |
| TerminalConsole.CatalogueKept | terminal/chat_console.py:249-380 | no command changes the model catalogue or the token limit |
| TerminalConsole.Read | terminal/chat_console.py:150-182 | the loop reads every chunk, or stops right after the first one carrying an error |
| TerminalConsole.ReadAtFirstError | terminal/chat_console.py:178-182 | the loop reads up to and including the first error chunk |
| TerminalConsole.ReadAll | terminal/chat_console.py:150-182 | without an error chunk every chunk is read |
| TerminalConsole.OneMoreChunk | terminal/chat_console.py:160-175 | one more chunk appends its content and its `reasoning_content` and takes one step of session tracking |
| TerminalConsole.ReadCount | terminal/chat_console.py:150-182 | the number of chunks read and the error flag agree with where the first error chunk is |
| TerminalConsole.ReadStopsAtError | terminal/chat_console.py:178-182 | chunks after the first error chunk change nothing |
| TerminalConsole.ContentAppend | terminal/chat_console.py:168-171 | the content of two runs of chunks is the content of each in order |
| TerminalConsole.ThinkingOnlyFromReasoningContent | terminal/chat_console.py:174-175 | thinking text comes only from `reasoning_content`, so chunks without that key leave it empty |
| TerminalConsole.NoIdKeepsSession | terminal/chat_console.py:161-165 | chunks without a session id never reload the session |
| TerminalConsole.TrackedAfterId | terminal/chat_console.py:161 | once a truthy session id was seen, later ids are ignored |
| TerminalConsole.TrackedFromFirst | terminal/chat_console.py:160-165 | session tracking is a fold over the chunks |
| TerminalConsole.RelayStreamCountsTwo | terminal/chat_console.py:184-193 | a stream without error whose first chunk names the current session raises its message count by exactly two |
| TerminalConsole.ErrorMeansNoCount | terminal/chat_console.py:178-193 | after an error chunk the error flag is set and the session is only what tracking up to the error left, with no count added |
| TerminalConsole.ChatConsole.constructor | terminal/chat_console.py:20-43 | no session, provider `deepseek`, model `deepseek-chat`, streaming on, temperature 0.7, no token limit, empty catalogue |
| TerminalConsole.ChatConsole.Initialize | terminal/chat_console.py:45-69 | start-up succeeds exactly when providers and models are available, and then selects the first model |
| TerminalConsole.ChatConsole.SwitchModel | terminal/chat_console.py:231-247 | a switch succeeds exactly when the pair is in the catalogue, and only then changes provider and model |
| TerminalConsole.ChatConsole.CreateSession | terminal/chat_console.py:76-93 | a new session, titled by the argument or the clock, becomes current exactly when the backend creates it |
| TerminalConsole.ChatConsole.LoadSession | terminal/chat_console.py:95-115 | loading succeeds exactly when the session exists, and then takes its provider and model |
| TerminalConsole.ChatConsole.HandleCommand | terminal/chat_console.py:249-380 | the new console state and the keep-going answer are those of the command's branch |
| TerminalConsole.ChatConsole.Apply | terminal/chat_console.py:258-375 | a command branch changes the console state as its effect says |
| TerminalConsole.ChatConsole.HandleStreamingResponse | terminal/chat_console.py:141-193 | the content, thinking text, error flag and session are those of the stream read up to its first error; no setting changes |
| WebApiClient.Url | frontend/src/api/apiClient.ts:13-15 | an endpoint address is the base address followed by `/api/v1` and the path |
| WebApiClient.UrlAgreesWithTerminal | frontend/src/api/apiClient.ts:9-15 | the browser and terminal clients build the same address exactly when the base has no trailing `/`, since only the terminal client removes it |
| WebApiClient.SepLen | frontend/src/api/apiClient.ts:157-160 | a separator found at a position is two to four line-break characters ending in a line feed |
| WebApiClient.SepLenIsLongestSeparator | frontend/src/api/apiClient.ts:157-160 | the separator is `\r?\n\r?\n`, taken with its optional carriage returns |
| WebApiClient.FindSep | frontend/src/api/apiClient.ts:157 | the search finds the first position where a separator starts, or none when there is none |
| WebApiClient.FieldNames | frontend/src/api/apiClient.ts:164-166 | the field test is `startsWith('data:')` and the end marker is exactly `[DONE]` |
| WebApiClient.DataIsTrimmedPayload | frontend/src/api/apiClient.ts:161-166 | a payload comes only from an event starting with `data:` once trimmed; it is trimmed, non-empty and not `[DONE]` |
| WebApiClient.Deliver | frontend/src/api/apiClient.ts:164-173 | at most one chunk per event, and only the last chunk yielded can carry an error or done flag, after which nothing more is read |
| WebApiClient.StepKeepsEnding | frontend/src/api/apiClient.ts:167-170 | a chunk with an error or done flag ends the stream right after it is yielded |
| WebApiClient.FramesAt | frontend/src/api/apiClient.ts:157-162 | an event is the text before the first separator, and the buffer continues after that separator |
| WebApiClient.DeliverFirst | frontend/src/api/apiClient.ts:158-178 | the events are handled in order, the first one first |
| WebApiClient.UnfinishedEventIgnored | frontend/src/api/apiClient.ts:150-152 | text without a separator left when the body ends yields nothing |
| WebApiClient.FramesHoldNoSeparator | frontend/src/api/apiClient.ts:157-162 | no event holds a separator |
| WebApiClient.FramedEvent | frontend/src/api/apiClient.ts:157-162 | an event followed by `\n\n` or `\r\n\r\n` is cut off whole |
| WebApiClient.FramesOfFramed | frontend/src/api/apiClient.ts:157-162 | events the server writes, each followed by a blank line, are read back as those events |
| WebApiClient.DataOfFrame | frontend/src/api/apiClient.ts:164-166 | the payload of an event `data: ` + payload is that payload |
| WebApiClient.BufferedEvent | frontend/src/api/apiClient.ts:158-178 | taking the first event out of the buffer, whatever arrives later, reads the same stream |
| WebApiClient.ThenStep | frontend/src/api/apiClient.ts:164-173 | a skipped event adds nothing, a yielded chunk is added, and one with an error or done flag ends the stream |
| WebApiClient.ReadEvent | frontend/src/api/apiClient.ts:164-173 | handling one event gives that event's chunk, if any |
| WebApiClient.TakeEvent | frontend/src/api/apiClient.ts:158-178 | one pass of the inner loop shortens the buffer and keeps what the whole body yields unchanged |
| WebApiClient.TakeEvents | frontend/src/api/apiClient.ts:157-178 | the inner loop leaves no separator in the buffer unless it stopped, and what it yielded plus what the rest yields is what the buffer yields |
| WebApiClient.ChatStream | frontend/src/api/apiClient.ts:134-184 | a non-OK status or a missing body is an error naming the status, before anything is yielded; otherwise the chunks are those of the whole body, however it is cut |
| WebApiClient.ReadBody | frontend/src/api/apiClient.ts:145-179 | the chunks yielded are those of the concatenated body read as events |
| ChatSettings.SplitTrim | frontend/src/hooks/useChatSettings.ts:115 | one piece per comma-separated part, in order, each trimmed |
| ChatSettings.SplitTrimPieces | frontend/src/hooks/useChatSettings.ts:115 | the untrimmed parts joined with commas give the text back, and every piece is trimmed and holds no comma |
| ChatSettings.ParseStop | frontend/src/hooks/useChatSettings.ts:115 | no stop list exactly for a missing or empty string, otherwise the trimmed comma-separated pieces, empty ones kept |
| ChatSettings.GetAfterSet | frontend/src/hooks/useChatSettings.ts:124-308 | a slot's setter changes that slot and no other |
| ChatSettings.SlotFor | frontend/src/hooks/useChatSettings.ts:117-121 | the Seedream slot exactly for a Doubao model mentioning `seedream` in any case, the Seedance slot exactly for another one mentioning `seedance`, the DeepSeek slot exactly for `deepseek` and for a provider without a slot of its own |
| ChatSettings.DispatchAgrees | frontend/src/hooks/useChatSettings.ts:310-441 | `getCurrentSettings`, `activeSettings` and `handleSettingsChange` pick the same slot for every provider and model, although only the first tests `deepseek` by name |
| ChatSettings.IsSeedream | frontend/src/hooks/useChatSettings.ts:117-118 | only a Doubao model is a Seedream model |
| ChatSettings.IsSeedance | frontend/src/hooks/useChatSettings.ts:120-121 | only a Doubao model is a Seedance model |
| ChatSettings.SeedModelsIgnoreCase | frontend/src/hooks/useChatSettings.ts:117-121 | both tests ignore the case of the model id |
| ChatSettings.CurrentSlot | frontend/src/hooks/useChatSettings.ts:310-348 | the if-chain of `getCurrentSettings` picks the slot `SlotFor` names |
| ChatSettings.ActiveSlot | frontend/src/hooks/useChatSettings.ts:365-441 | the if-chain of `activeSettings` and `handleSettingsChange` picks the same slot |
| ChatSettings.GetCurrentSettings | frontend/src/hooks/useChatSettings.ts:310-348 | the Seedream and Seedance settings as stored; any other slot's with its stop string parsed |
| ChatSettings.ActiveSettings | frontend/src/hooks/useChatSettings.ts:365-400 | the settings stored in the selected slot |
| ChatSettings.HandleSettingsChange | frontend/src/hooks/useChatSettings.ts:415-441 | the selected slot holds the new settings and every other slot is unchanged |
| ChatSettings.SeedSlotsAreDoubao | frontend/src/hooks/useChatSettings.ts:117-121 | only a Doubao model uses the Seedream or Seedance slot; any other provider uses its own slot or DeepSeek's |
| ChatSettings.WithParsedStop | frontend/src/hooks/useChatSettings.ts:318-347 | every field but `stop` is kept; `stop` becomes the parsed list, and is absent when the string is missing or empty |
| ChatSettings.ChangeIsReadBack | frontend/src/hooks/useChatSettings.ts:365-444 | after a change the panel shows the new settings, the next request uses them (stop parsed outside the Doubao media slots), and no other slot changes |
| ChatSettings.CurrentIsActive | frontend/src/hooks/useChatSettings.ts:310-399 | a request uses the settings the panel shows, changed only in the stop field outside the two Doubao media slots |
| ChatMessages.AppendTurn | frontend/src/hooks/useChatMessages.ts:59-72 | sending appends exactly two messages to the list: the user message with its content and media, then an empty assistant placeholder |
| ChatMessages.MergeContent | frontend/src/hooks/useChatMessages.ts:212-214 | the new content extends the current content and ends with the incoming text, and is never longer than both together |
| ChatMessages.Apply | frontend/src/hooks/useChatMessages.ts:206-246 | a content update merges the content, a reasoning update appends to the thought process (from empty), a results update appends to the search results (from none); nothing else of the message changes |
| ChatMessages.UpdateLast | frontend/src/hooks/useChatMessages.ts:208-218 | an updater changes only the last message, and only when it is an assistant message |
| ChatMessages.ReplaceLast | frontend/src/hooks/useChatMessages.ts:189-196 | the generated message replaces the last message only when it is an assistant message; the rest is kept |
| ChatMessages.Apologize | frontend/src/hooks/useChatMessages.ts:259-275 | the fixed apology replaces a last assistant message, or is appended otherwise; the messages before it are kept |
| ChatMessages.ApplyChunk | frontend/src/hooks/useChatMessages.ts:206-246 | a chunk changes only the last message |
| ChatMessages.UpdatersCompose | frontend/src/hooks/useChatMessages.ts:206-246 | the three updaters a chunk queues amount to one update of the reply |
| ChatMessages.ChunkKeepsRole | frontend/src/hooks/useChatMessages.ts:215-242 | a chunk never changes the reply's role |
| ChatMessages.ChunkReasoning | frontend/src/hooks/useChatMessages.ts:221-232 | a chunk appends its non-empty reasoning to the thought process |
| ChatMessages.ChunkResults | frontend/src/hooks/useChatMessages.ts:234-246 | a chunk appends its search results after the existing ones |
| ChatMessages.ChunkContent | frontend/src/hooks/useChatMessages.ts:206-219 | a chunk merges its non-empty content into the reply |
| ChatMessages.Consume | frontend/src/hooks/useChatMessages.ts:199-252 | the stream loop keeps the list's length and every message but the last |
| ChatMessages.Handled | frontend/src/hooks/useChatMessages.ts:248-251 | the chunks handled are a prefix of the stream that ends at its first error chunk, or all of it |
| ChatMessages.StopsAtFirstError | frontend/src/hooks/useChatMessages.ts:248-251 | the loop stops exactly when some chunk carries an error, and chunks after the first such one change nothing |
| ChatMessages.SessionAdoptedOnce | frontend/src/hooks/useChatMessages.ts:200-204 | a session id already held is kept; otherwise the first truthy id a chunk offers is adopted |
| ChatMessages.ReplyGrows | frontend/src/hooks/useChatMessages.ts:206-218 | the reply stays an assistant message and its content only grows |
| ChatMessages.MergeAllGrows | frontend/src/hooks/useChatMessages.ts:212-214 | merging any run of contents keeps the starting content as a prefix |
| ChatMessages.ConsumeReply | frontend/src/hooks/useChatMessages.ts:199-252 | the stream changes only the reply, which becomes the reply folded over the chunks and stays an assistant message |
| ChatMessages.ReplyAccumulates | frontend/src/hooks/useChatMessages.ts:206-246 | after the stream the reply's thought process is all reasoning in order, its results all results in order, and its content all contents merged |
| ChatMessages.FinalReplyAccumulates | frontend/src/hooks/useChatMessages.ts:206-246 | the folded reply holds all reasoning, all results and the merged content, in chunk order |
| ChatMessages.FinalReasoning | frontend/src/hooks/useChatMessages.ts:221-232 | the folded thought process is the old one followed by every reasoning delta in order |
| ChatMessages.FinalResults | frontend/src/hooks/useChatMessages.ts:234-246 | the folded results are the old ones followed by every chunk's results in order |
| ChatMessages.FinalContent | frontend/src/hooks/useChatMessages.ts:206-219 | the folded content is every content merged in order |
| ChatMessages.MergeAllAppend | frontend/src/hooks/useChatMessages.ts:206-219 | merging two runs of contents is merging the first, then the second |
| ChatMessages.SnapshotsKeepLast | frontend/src/hooks/useChatMessages.ts:212-213 | when each content extends the previous one (snapshots) the reply ends as the last snapshot |
| ChatMessages.DeltasConcatenate | frontend/src/hooks/useChatMessages.ts:214 | when no content extends what came before (deltas) the reply is the concatenation |
| ChatMessages.DeltaAppends | frontend/src/hooks/useChatMessages.ts:212-214 | incoming text that does not start with the current content is appended |
| ChatMessages.TitleFor | frontend/src/hooks/useChatMessages.ts:120-121 | a title is sent exactly when there is no session, and it is the first 50 characters of the content |
| ChatMessages.SplitSetting | frontend/src/hooks/useChatMessages.ts:146-149 | a set text setting is sent as its comma-separated pieces, trimmed; an unset one not at all |
| ChatMessages.WebSearchPlugin | frontend/src/hooks/useChatMessages.ts:101-108 | the plugin is `web` with engine, result count and prompt each present exactly when set, and nothing else |
| ChatMessages.ReasoningConfig | frontend/src/hooks/useChatMessages.ts:87-93 | the reasoning object is sent exactly when an effort or a summary is set, and holds only those two |
| ChatMessages.ImageConfig | frontend/src/hooks/useChatMessages.ts:94-100 | the image configuration is sent exactly when an aspect ratio or a size is set, and holds only those two |
| ChatMessages.ResponseFormat | frontend/src/hooks/useChatMessages.ts:79-86 | the response format is sent exactly when it is set and parses as JSON |
| ChatMessages.PassThrough | frontend/src/hooks/useChatMessages.ts:122-179 | the plain settings are copied as they are, each present exactly when set, and no other key |
| ChatMessages.BuildRequest | frontend/src/hooks/useChatMessages.ts:115-180 | the request holds the one new user message; it streams unless the model is a Gemini `imagen-` model; the session id is sent when truthy and the title exactly when it is not; the web plugin exactly when web search is on |
| ChatMessages.StreamedTurn | frontend/src/hooks/useChatMessages.ts:199-253 | a stream that ends or stops at an error leaves the history, the user message and the placeholder folded over the chunks, its content being all contents merged from empty |
| ChatMessages.FailedTurnApologizes | frontend/src/hooks/useChatMessages.ts:254-276 | a stream that throws without an error chunk leaves the history, the user message and the fixed apology |
| ChatMessages.EditTarget | frontend/src/hooks/useChatMessages.ts:301-302 | editing acts exactly on an existing user message |
| ChatMessages.RefreshTarget | frontend/src/hooks/useChatMessages.ts:324-330 | refreshing acts exactly on an assistant message preceded by a user message, and resends that user message |
| ChatMessages.RefreshTakesOldPlace | frontend/src/hooks/useChatMessages.ts:339-340 | the resent question takes its old place, with the messages before it kept and a placeholder after it |
| ChatMessages.Conversation.constructor | frontend/src/hooks/useChatMessages.ts:34-36 | no messages, not loading, no controller |
| ChatMessages.Conversation.StopGeneration | frontend/src/hooks/useChatMessages.ts:40-46 | with a controller, stopping drops it and ends loading; the messages never change |
| ChatMessages.Conversation.Reset | frontend/src/hooks/useChatMessages.ts:350-352 | the list becomes empty |
| ChatMessages.Conversation.ApplySessionMessages | frontend/src/hooks/useChatMessages.ts:354-356 | the list becomes the session's messages, or empty when there are none |
| ChatMessages.Conversation.SendMessage | frontend/src/hooks/useChatMessages.ts:55-297 | without provider or model nothing happens; otherwise the built request is sent, the list and session id are the turn's outcome, and loading ends |
| ChatMessages.Conversation.TakeGenerated | frontend/src/hooks/useChatMessages.ts:181-197 | the Imagen reply's message replaces the placeholder and its session id is adopted when none is held |
| ChatMessages.ImagenAsWrittenShowsNothing | frontend/src/hooks/useChatMessages.ts:181-196 | as written: the client answers `null`, so the turn keeps its empty placeholder and adopts no session id |
| ChatMessages.ImagenShowsGenerated | frontend/src/hooks/useChatMessages.ts:181-196 | corrected version: the generated message takes the placeholder's place and the response's session id is adopted |
| ChatMessages.Conversation.TakeStream | frontend/src/hooks/useChatMessages.ts:198-276 | the list and session id are those of the stream, or the apology when it throws |
| ChatMessages.Conversation.Finish | frontend/src/hooks/useChatMessages.ts:277-285 | loading ends, the controller is dropped, and the list is refreshed from the session when there is one |
| ChatMessages.Conversation.StreamInto | frontend/src/hooks/useChatMessages.ts:199-252 | the loop's list, stop flag and session id are those of the fold over the chunks |
| ChatMessages.Conversation.CutAndResend | frontend/src/hooks/useChatMessages.ts:304-317 | after stopping, a stored message in a session is cut only once the truncation resolves; the list is cut to the given length and the question resent |
| ChatMessages.Conversation.EditMessage | frontend/src/hooks/useChatMessages.ts:299-320 | only a user message is edited; the list is cut before it and the new content is sent with its images |
| ChatMessages.Conversation.RefreshMessage | frontend/src/hooks/useChatMessages.ts:322-348 | only an assistant reply to a user message is refreshed; the list is cut before the question, which is sent again |
| ImageUrl.Backend | frontend/src/components/chat/utils.ts:5 | the configured backend address unless missing or empty, otherwise `http://localhost:8000`; never empty |
| ImageUrl.CleanBase | frontend/src/components/chat/utils.ts:6 | exactly one trailing `/` is removed, and only when there is one |
| ImageUrl.FullImageUrl | frontend/src/components/chat/utils.ts:1-8 | addresses starting with `http` or `data:` are kept; any other is the cleaned base, one `/`, and the path without its own leading `/` |
| ImageUrl.CleanKeepsScheme | frontend/src/components/chat/utils.ts:6 | removing the trailing `/` keeps an `http` scheme |
| ImageUrl.ResolvedIsFixed | frontend/src/components/chat/utils.ts:1-8 | with an `http` backend, resolving a resolved address changes nothing |
| ImageUrl.DefaultIsFixed | frontend/src/components/chat/utils.ts:1-8 | with the default backend, resolving is idempotent |

## Left out

- Concurrency in the relay: the `asyncio` task that fetches the next chunk, the 0.5-second wait and the disconnect polling are modelled as a `Disconnect` step in the chunk sequence. The `finally` block is the `closed` and `pendingCancelled` fields set by `Finish`. After a disconnect the model counts the fetch as still pending; that it may have completed in the meantime, which makes the cancel a no-op, is not modelled, and neither is an `aclose` that raises, which the source ignores.
- Network, SDKs and files are oracles: provider clients are the sequences of chunks they yield plus the exception they raise; image downloads are `fetch`; uploaded media on disk is a `MediaReader`; the backend as the terminal console sees it is `Env`.
- UUIDs are part of the `fetch` reply and of the saved-image parameters, so the same URL is saved under the same name on every call; a fresh name per call is not modelled.
- The wall clock is a counter in the database that moves forward at each timestamp; the clock text of default titles is a parameter.
- SQLAlchemy, engine setup and the `init_db` migration of `database.py` are not part of this model; the two tables are sequences of rows.
- SessionsRouter.ByRecency: rows with equal `updated_at` keep their insertion order; SQL leaves their order unspecified.
- JSON parsing is the oracle `parse` (or `validJson`); JSON values other than the ones each reader expects (objects with string, number and list fields) are not modelled, nor are `null` values in chunk fields.
- Base64.Decode: accepts only canonical padded input; Python's non-strict decoder also skips characters outside the alphabet, so such strings decode there and do not here.
- MIME type guessing (`mimetypes`) is part of the `MediaReader` and download oracles.
- Floating point: temperatures and penalties are `real`; NaN, infinities and rounding are not modelled, so `float('nan')` in `/temp` is just a rejected value.
- Case mapping covers ASCII only, and whitespace is the six ASCII characters space, tab, LF, CR, VT and FF: Python's `str.split`/`str.strip` also remove the separators \x1c–\x1f, which JavaScript's `trim` does not, and both remove the Unicode spaces; Python's `str.lower`, `str.title`, `str.split` and `str.strip` and JavaScript's `trim` and `toLowerCase` also handle the rest of Unicode.
- Stream chunks are decoded text: the terminal reader's per-chunk UTF-8 decoding with `errors='ignore'` drops a multi-byte character split between two chunks, and the browser's `TextDecoder` is not modelled either.
- The terminal client's non-streaming `chat` reply, its other endpoints (health check, providers, models, session list and detail) and the console's display-only commands (`/help`, `/clear`, `/sessions`, `/providers`, `/models`, `/info`) are left out, as is `send_message` and `_handle_non_streaming_response`; they print or pass data through.
- The abort signal: `chatStream` ignores the signal `useChatMessages.ts` passes, so the `AbortError` branch cannot be reached from a stream and is not modelled.
- The Imagen path: `apiClient.chat` takes messages, provider and model, but the hook passes it a whole request (see Findings); the model takes the typed response the hook reads as the parameter `generated`, and the as-written call is the value `None`.
- `apiClient.truncateSession` is not defined in `apiClient.ts`; the hook's call is the parameter `truncated` (whether the call resolves), and its effect on the server is the `SessionsRouter.TruncateSession` model.
- `loadSessions`, `setCurrentSessionId` and other React wiring are left out; only the session id the hook ends with is modelled.
- The initial values of the twelve settings slots are constants and are not modelled; settings values are text, numbers, flags or lists, and nested objects such as `image_pixel_limit` are opaque.
- Message fields the hook only passes through (`provider`, `model`, `created_at`) are not modelled.
- GeminiConfig: `_normalize_imagen_config`, `_normalize_image_config`, `_normalize_media_resolution`, `_build_tools` and `_build_url_context_tool` build SDK objects by reflection and are not part of this model.
- `_extract_reasoning_from_response` and `_extract_regular_text_from_response` in `gemini_response.py` are projections of `_extract_text_and_reasoning` and are not modelled apart.
- The `chat` and `stream_chat` delegation of `BaseLLMProvider` passes the client's results through unchanged; the clients themselves are the modules above.
- ChatHelpers.LocalizeMarkdownImages: no idempotence is claimed for the rewriting as written, because it does not hold. ChatHelpers.AsWrittenNotIdempotent gives a reply that a second pass rewrites again and that reports one more saved path; the save step at backend/routers/chat.py:210 is such a second pass over already localised chunks. Idempotence is proved only for the per-reference rewriting (ChatHelpers.LocalizedRefsIdempotent), and only when no saved file name contains `!`.
- ChatMessages.TitleFor: the title is the first 50 characters counted as Unicode scalar values; JavaScript's `substring(0, 50)` counts UTF-16 code units, so a title with characters outside the Basic Multilingual Plane is cut shorter there, possibly inside a surrogate pair.
- GeminiResponse.Truthy: a `url_context_metadata` that is not a list (`NotAList`) counts as truthy. A falsy non-list value such as `0`, `""` or `{}` would make Python fall back to the response-level metadata; the model does not distinguish it.
- The cross-module type mismatches are not modelled as failures: each function gets the typed input its body reads (for example, the request fields `_build_provider_kwargs` reads but `ChatRequest` does not declare).

## Findings

The endpoints (ChatRelay.Relay, ChatRouter.Generate, ChatRouter.AnswerAtOnce) are modelled with the image rewriting as written, so their contracts describe what the code does; the corrected per-reference rewriting, ChatHelpers.LocalizedRefs, carries the intended properties on its own.

| source | as written | input that shows it | evidently intended | confidence | as-written member | corrected member |
|---|---|---|---|---|---|---|
| backend/routers/chat_helpers.py:173 | `content.replace(original_url, local_path)` replaces the URL everywhere in the text, including inside a longer URL of a later reference | `![image](http://a)![image](http://ab)` with both downloads succeeding: the second reference becomes `/uploads/u1.pngb`, yet `/uploads/u2.png` is still reported as found | each reference is rewritten to its own saved path | high, not executed | ChatHelpers.PrefixUrlBreaksReference | ChatHelpers.PrefixDocByReference |
| backend/providers/gemini_media.py:15-18 | a dict image without `image_url` gets `{}`, which is a dict, so its own `url` is never read | `{"url": "http://x/y.png"}` gives no Markdown link | fall back to the image's own `url`, as the SDK-object path does | high, not executed | GeminiMedia.DictUrlIgnored | GeminiMedia.FormatImageMarkdownSpec |
| frontend/src/hooks/useChatMessages.ts:182 | `apiClient.chat(request)` passes the whole request object as the `messages` argument of `chat` (frontend/src/api/apiClient.ts:185-204); `messages.map` throws a TypeError inside its `try`, so the call returns `null` | any Gemini `imagen-` model: the reply placeholder stays empty and no session id is adopted | call `apiClient.chat` with the request's messages, provider, model, session id and title, so the generated message replaces the placeholder | high, not executed | ChatMessages.ImagenAsWrittenShowsNothing | ChatMessages.ImagenShowsGenerated |
