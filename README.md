# TUPA Gore Cusco assistant: per-turn session logic

A Dafny model of the decision logic in `app.py`, the Streamlit page that forwards
questions about the TUPA (Texto Único de Procedimientos Administrativos) of the
Gobierno Regional del Cusco to a hosted assistant. The model covers the logic that
runs on each user turn:

- `Classifier` (`classifier.dfy`): the list of clarification phrases
  (`frases_contextuales`) and `es_contextual`. An input is contextual when it is
  present and non-empty and its lower-cased form contains one of the phrases as a
  plain substring.
- `Citations` (`citations.dfy`): `re.sub(r'【\d+:.*?†.*?】', '', text)` for this one
  pattern. `MarkerEnd` says where the pattern matches at a position. `StripFrom`
  scans left to right, drops each match whole and keeps every other character.
- `Session` (`session.dfy`): the four `st.session_state` fields (`messages`,
  `ultima_pregunta`, `thread_id`, `historial_preguntas`) as the class
  `ChatSession`, with these methods:
  - `Submit`: the turn's branch. A clarification request reuses the thread and asks
    about the last question. Any other input is sent as it is, is stored and gets a
    fresh thread.
  - `RecordAnswer`: the reversed scan for the assistant's reply.
  - `HandleTurn`: the whole `if user_input:` block.

  `Submit` is proved against the function `Step`, whose contract states the
  properties of a turn. `FindAnswer` is the selection loop.
- `Common` (`common.dfy`): `Option` and Python truthiness of an optional string.

The remote assistant service is not modelled. The id of a newly created thread and
the thread's message listing are parameters. Points where `app.py` behaves in a way
a reader might not expect, and which the model follows:
- The clarification prompt is `"Responde con más claridad sobre esto: "` followed by
  the last stored question. The follow-up text itself is not included.
- Stripping removes markers only. It does not trim or collapse whitespace.
- Polling has no attempt limit.
- The reply is the last `assistant` entry in the order the listing is given. If the
  service lists newest first, this is the oldest assistant reply in the listing.
  The model takes the order as given.
- `ultima_pregunta` and `historial_preguntas` are updated before
  `threads.create()` is called. If that call raises, the question stays stored, but
  `thread_id` is unchanged and nothing is added to the transcript. The model
  includes this path. After a failure on the first question the next turn starts a
  new topic. After a failure on a later question, `thread_id` still names the
  previous thread, so a follow-up is sent there and asks about the failed question.
- `thread_id` and `user_input` are read for their Python truth value, so `""` counts
  as absent.

## Model

| member | source | states |
|---|---|---|
| Classifier.LowerChar | app.py:76 | `str.lower()` on one character: an ASCII or Latin-1 capital goes 32 code points up to a non-capital, and anything else is unchanged |
| Classifier.ContainsIff | app.py:76 | the substring scan (`p in s`) is true exactly when the phrase occurs at some index of the text |
| Classifier.ContextualIff | app.py:69-76 | `es_contextual` is false for a missing or empty input; otherwise it is true exactly when some listed phrase occurs in the lower-cased input |
| Classifier.UpperCaseFollowUpIsContextual | app.py:69-76 | case is ignored: "NO ENTENDÍ nada" is contextual |
| Classifier.ShortInputNotContextual | app.py:69-76 | no input shorter than the shortest phrase (five characters) is contextual |
| Classifier.SubstringMatchIsLoose | app.py:69-76 | matching is by substring, not by word: "Quiero una Explicación" is contextual because it contains "explica" |
| Citations.DigitsEnd | app.py:122 | `\d+` ends at the first non-digit: everything before it is an ASCII digit |
| Citations.ScanTo | app.py:122 | a lazy `.*?` before `†` or `】` ends at the first occurrence of that character or of a newline, and nothing it passes is either |
| Citations.MarkerEndSound | app.py:122 | a marker found at i has the pattern's shape: an opening bracket, one or more digits, a colon, a gap without newline or dagger, a dagger, a gap without newline or closing bracket, and a closing bracket, which ends the marker |
| Citations.MarkerEndComplete | app.py:122 | wherever any split of the pattern with newline-free gaps fits at i, a marker is found there, and it ends no later than that split does |
| Citations.StripIsSubsequence | app.py:122 | the stripped reply is a subsequence of the reply, so it is never longer |
| Citations.StripWithoutOpen | app.py:122 | a reply without an opening bracket comes back unchanged |
| Citations.StripKeepsPlainPrefix | app.py:122 | text before the next opening bracket is kept verbatim |
| Citations.MarkerHasNoNewline | app.py:122 | a removed marker contains no newline |
| Citations.StripKeepsNewlines | app.py:122 | stripping keeps every newline of the reply |
| Citations.StripExample | app.py:122 | "Hola 【1:x†y】mundo" becomes "Hola mundo" |
| Citations.StripNewlineBeforeDagger | app.py:122 | "【1:x\n†y】" is kept whole because `.` does not match a newline |
| Citations.StripNewlineBeforeClose | app.py:122 | "【1:x†y\n】" is kept whole for the same reason |
| Session.ReusesThreadInValidState | app.py:79 | in a state reached while the service calls return, a follow-up reuses the thread exactly when it is contextual and the thread id is set and not "" |
| Session.Step | app.py:78-89 | with no input nothing changes and nothing is sent. A turn that sends a prompt appends exactly ("usuario", input); a turn that sends none leaves the transcript alone. A clarification request with history and a thread keeps thread, history and last question, and its prompt is the fixed prefix plus the last history entry. Any other input becomes the last question and is appended to the history. If the thread is created, that input is the prompt and the thread is the fresh one. If creation raises, nothing is sent and the thread is unchanged. Consistency is always preserved, and validity unless the turn calls `threads.create()` and it raises |
| Session.StepsAppendOnly | app.py:78-89 | over any run of turns the transcript and history only grow at the end, the history grows by at most one per turn, consistency is preserved, and validity is preserved when no turn's thread creation raises |
| Session.FailedThreadCreation | app.py:82-89 | a first question whose thread creation raises is stored, with no thread and no transcript entry. That state is consistent but not valid. The next input from it starts a new topic |
| Session.LaterFailedCreationMisroutesFollowUp | app.py:79-89 | after a first question gets thread t1 and a later new question's thread creation raises, that question is stored but `thread_id` stays t1; a following contextual input is sent to t1 with the prompt asking about the failed question |
| Session.NewTopicIsolation | app.py:82-87 | a new question after any turn replaces the thread with the new id and appends itself to the history after the earlier turn's question, if that turn added one |
| Session.FindAnswer | app.py:119-124 | the scan of the reversed listing returns the last assistant message in list order, and returns none exactly when no message is from the assistant |
| Session.NewestFirstListingPicksOlderReply | app.py:115-124 | in the listing [assistant new, user q, assistant old], the only last assistant entry is `old` |
| Session.ChatSession.constructor | app.py:57-61 | the initial state: empty transcript, `ultima_pregunta` "", no thread, empty history. It is valid |
| Session.ChatSession.Submit | app.py:78-89 | the new fields and the returned prompt are those `Step` gives for the old fields, with no precondition. Consistency is kept, and validity is kept unless the turn calls `threads.create()` and it raises |
| Session.ChatSession.RecordAnswer | app.py:119-124 | appends ("asistente", stripped text of the last assistant message) when there is one and leaves the transcript alone otherwise. No other field changes |
| Session.ChatSession.HandleTurn | app.py:78-124 | the fields and prompt are those of `Step`. When a prompt was sent and the later calls returned a listing, the transcript gains the recorded reply, if there is one; otherwise it is `Step`'s transcript |

## Left out

- Page configuration, CSS, logo, title and rendering of the transcript (app.py:14-52, 129-131): display only.
- Reading the API key and assistant id from `st.secrets` (app.py:8-9): environment configuration.
- The calls to the assistant service (thread creation, message creation, run creation, run retrieval, message listing, app.py:86, 91-100, 104-107, 115-117). These are network calls. Their results are parameters of `Submit`, `RecordAnswer` and `HandleTurn`: the new thread id, or None when `threads.create()` raises, and the listing, or None when a call after line 89 raises. Which exception is raised, and how Streamlit reports it, is not modelled.
- The polling loop with `time.sleep(1)` and `st.error` (app.py:102-113). It blocks on remote state and has no attempt limit, so it need not end. On both `completed` and `failed` the code goes on to list messages. `HandleTurn` therefore records the reply whatever the run's status was.
- Classifier.LowerChar: models `str.lower()` only for ASCII and Latin-1 capitals. Other Unicode case mappings are not modelled, including those that change the length of the string.
- Citations.DigitsEnd: `\d` is read as the ASCII digits 0-9, while Python's `re` also accepts other Unicode decimal digits.
- Only the first content block of an assistant message is read (`msg.content[0].text.value`). The model gives each message a single text, so it does not model a message whose first block is not text.
- A reset of the session: `app.py` has none. The state lives until the browser session ends.
