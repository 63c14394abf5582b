# RAG chat: the question pipeline

A model of the question pipeline of the `RagChat` component in `src/ragChat.jsx`. The user types a question, may attach a PDF, picks a response language and presses *Ask*. `sendQuery` then does the following in order:

1. It validates the trimmed question. If the question is blank and no file is attached, it stops here and changes nothing.
2. It puts the user's entry on the transcript.
3. It clears the question box and marks the component busy (`loading`).
4. It uploads the attached file through `uploadFile`. If the upload fails, a bot entry `File upload failed.` is appended and the component becomes idle again. The call stops there, and the file stays attached.
5. It sends the question `Respond in <language>: <question>` to the answering service.
6. It appends the bot's reply.
7. It marks the component idle and detaches the file, whatever the reply was.

Each network request is replaced by an abstract reply:

- `IngestReply` is `Ingested` or `IngestFailed`.
- `QueryReply` is `Answered(answer)`, where the answer is a string or absent, or `QueryFailed`.

With those replies fixed, one call of `sendQuery` is a pure function from the session state to a `Run`. A `Run` holds:

- the final state;
- the state at the moment the upload step began;
- whether an ingestion request was made;
- the question sent, if any.

The files:

- `wrappers.dfy` — `Option`, for the component's nullable values.
- `text.dfy` — `String.prototype.trim`, using the exact whitespace set of ECMAScript (WhiteSpace and LineTerminator). The module proves that `Trim` is the unique cut with no whitespace at either end, and that it is idempotent.
- `rag_chat.dfy` — the session state and the language list. It also holds the steps of `sendQuery` (`Begin`, `UploadFile`, `QuestionFor`, `QueryStep`) and `SendQuery` itself.
- `conversation.dfy` — a session as a sequence of user actions, each replayed through the component. The actions are typing, picking a language, attaching a file and asking. The module proves invariants that hold after any number of actions:
  - the component is idle between actions;
  - the transcript only grows;
  - the transcript is a sequence of user/bot exchanges;
  - each question sent starts with the instruction for the language selected when it is sent.

  It also proves the initial-language finding below.

Facts about the code that shape the model:

- The component keeps one optional `file`.
- `sendQuery` has no busy check: the Enter key calls it whatever the value of `loading`.
- Bot entries have the role `bot`.
- Entries carry no `sources`.

## Model

| member | source | states |
|---|---|---|
| `Text.Trim` | src/ragChat.jsx:47 | `query.trim()` cuts the leading and trailing ECMAScript whitespace and nothing else. The result is the infix at `Lead(s)`, with only whitespace before and after it and none at its own ends. It is empty exactly when the query is all whitespace. |
| `Text.TrimUnique` | src/ragChat.jsx:47 | Any cut of a string with whitespace-only margins and no whitespace at its own ends is the one `Trim` returns. So the trimmed question is determined by the draft alone. |
| `Text.TrimIdempotent` | src/ragChat.jsx:47 | Trimming an already trimmed question changes nothing. |
| `RagChat.UserText` | src/ragChat.jsx:55-58 | The user's entry is never empty. It is the trimmed question when that is non-empty, and otherwise the placeholder `Ask something about the uploaded PDF`. |
| `RagChat.BotText` | src/ragChat.jsx:84-95 | The bot's entry is never empty. A truthy `answer` is shown verbatim. An absent or empty `answer` gives `No response from API`. A failed request gives `Something went wrong while fetching response.` |
| `RagChat.UploadFile` | src/ragChat.jsx:22-43 | A request is posted exactly when a file is attached. The step succeeds exactly when no file is attached or the request succeeds. Only the transcript can change: nothing is appended on success, and exactly one bot entry `File upload failed.` is appended on failure. |
| `RagChat.Begin` | src/ragChat.jsx:54-61 | Once validation passes, the old transcript is a prefix of the new one. The new transcript has exactly one more entry, the user's entry. The question box is empty, `loading` is true, and the language and file are unchanged. |
| `RagChat.QuestionFor` | src/ragChat.jsx:70 | The question is the instruction `Respond in <language>: `, with the language verbatim, followed by the trimmed question, or `Summarize the uploaded PDF` when that is blank. |
| `RagChat.QueryStep` | src/ragChat.jsx:72-99 | The query step appends exactly one bot entry, the text for the reply, and keeps the old transcript as a prefix. Afterwards `loading` is false and the file is detached, whatever the reply. |
| `RagChat.SendQuery` | src/ragChat.jsx:46-100 | The call does nothing exactly when the draft is all whitespace and no file is attached. In that case there is no request, no new entry and no state change. Otherwise: (a) the state when the upload begins has the user's entry appended, an empty box and `loading` true; (b) an upload is posted exactly when a file is attached; (c) the question is sent exactly when there is no file or the upload succeeded, and it is the `QuestionFor` text. The transcript keeps its old prefix and gains exactly the user entry and one bot entry: the upload-failure text, or the reply's text when the question was sent. `loading` ends false. The file is cleared when the question was sent and kept when the upload failed. The language never changes. |
| `RagChat.PlainExchange` | src/ragChat.jsx:46-100 | With no file attached and a question with no surrounding whitespace, no upload is posted. The question `Respond in <language>: <question>` is sent, for example `Respond in french: Summarize this`. The transcript ends with the question and then the bot's text for the reply. The box is empty, `loading` is false, and nothing else changes. |
| `Conversation.Step` | src/ragChat.jsx:112-201 | Each user action is one handler, and each handler changes only its own field. Typing sets the draft. Picking sets the language to the chosen entry's code. A falsy file pick changes nothing and a real one attaches it. Asking is exactly one `sendQuery` call: its final state and the question it sent. Only asking can touch the transcript or `loading`. |
| `Conversation.StepKeepsIdle` | src/ragChat.jsx:46-100 | One action, from an idle state whose transcript is whole exchanges, leaves such a state and only appends to the transcript. |
| `Conversation.ReplayKeepsIdle` | src/ragChat.jsx:46-100 | After any sequence of actions the component is idle (`loading` false). Its transcript is user/bot pairs, with each user entry before the bot entry it triggered, and the starting transcript is a prefix of it. |
| `Conversation.StepKeepsLanguageOffered` | src/ragChat.jsx:112-122 | One action keeps the selected language one of the selector's codes. A question it sends starts with `Respond in <language>: `, where `<language>` is the language selected when it is sent, which is one of the offered codes. |
| `Conversation.ReplayKeepsLanguageOffered` | src/ragChat.jsx:112-122 | Starting from an offered language, the language after any sequence of actions is still one the selector offers. |
| `Conversation.ReplayQuestionsNameOffered` | src/ragChat.jsx:112-122 | Starting from an offered language, every question sent during any sequence of actions starts with the whole instruction `Respond in <code>: ` for an offered code. |
| `Conversation.SelectorUntouched` | src/ragChat.jsx:70 | While the selector is not used, the language stays what it was. Every question sent starts with `Respond in <that language>: `. |
| `Conversation.InitialLanguageNotOffered` | src/ragChat.jsx:7-17 | The initial language `"en"` is none of the selector's codes. No question starting with `Respond in en: ` names an offered language. |
| `Conversation.EnQuestionsNotOffered` | src/ragChat.jsx:7-17 | A list of questions that all start with `Respond in en: ` contains none that names an offered language. |
| `Conversation.FirstQuestionsAsWritten` | src/ragChat.jsx:7 | From the state as written, and from any state that still has the language `"en"`, every question of a session where the selector is never used goes out as `Respond in en: …`. No such question names an offered language. |
| `Conversation.QuestionsUseOfferedLanguage` | src/ragChat.jsx:7-17 | With the corrected initial state, whose language is the selector's first code, any session has these properties: the component is idle after it, the language is offered, and every question sent starts with `Respond in <code>: ` for an offered code. |

## Left out

- Rendering, layout and CSS classes (src/ragChat.jsx:103-209) are presentation only.
- `fetch`, `FormData`, `res.ok` and `res.json()` are network I/O. They become the abstract replies `IngestReply` and `QueryReply`, so a non-2xx status, a transport error and a body that is not JSON are one failure each.
- `alert` and `console.error` are UI and logging side effects with no effect on the state.
- Drag-and-drop and the hidden file input (`fileInputRef`) are event plumbing. Attaching is the `Attached` action, which models `handleFile`.
- React's asynchronous scheduling and state batching are not modelled. The functional `setMessages` updates are sequential appends, and each `sendQuery` call runs to completion before the next action.
- Overlapping `sendQuery` calls are not modelled. The only guard is the button's `disabled={loading}`, and the Enter key bypasses it. In this sequential model every action arrives while the component is idle (`ReplayKeepsIdle`).
- RagChat.BotText: answers that are truthy non-strings (numbers, objects) are not modelled. `answer` is either a string or absent.
- Text.Trim: it works on Unicode scalar values, not UTF-16 code units. No whitespace character lies outside the Basic Multilingual Plane, so the results agree for well-formed UTF-16. A JavaScript string that contains a lone surrogate has no counterpart in the model.

## Findings

| source | as written | input that shows it | evidently intended | confidence | as-written member | corrected member |
|---|---|---|---|---|---|---|
| src/ragChat.jsx:7 | The initial language is `useState("en")`, but the selector's codes are `english`, `hindi`, `malayalam`, `tamil` and `french`. | Open the component, type `hello` and press Ask without touching the selector. The question sent is `Respond in en: hello`, and no selector entry matches the selected value. | The initial language should be one of the selector's codes, its first entry `english`. | medium; not executed | `Conversation.FirstQuestionsAsWritten` | `Conversation.QuestionsUseOfferedLanguage` |
