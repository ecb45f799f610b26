/**
 * The per-turn session logic of app.py: the four `st.session_state` fields, the
 * choice between reusing the current thread for a clarification request and
 * starting a fresh thread for a new question, and the recording of the
 * assistant's reply. The remote assistant service is not modelled: the id of a
 * freshly created thread and the listing of a thread's messages are parameters.
 */
module Session {
  import opened Common
  import Classifier
  import Citations

  /** The speaker tag of a transcript entry: "usuario" or "asistente". */
  datatype Speaker = Usuario | Asistente

  /** One message of the listing returned by the assistant service for a thread. */
  datatype ApiMessage = ApiMessage(role: string, text: string)

  /** The fixed opening of the prompt sent for a clarification request. */
  const ClarifyPrefix: string := "Responde con más claridad sobre esto: "

  /** The session fields `messages`, `ultima_pregunta`, `thread_id`, `historial_preguntas`. */
  datatype State = State(
    messages: seq<(Speaker, string)>,
    ultimaPregunta: string,
    threadId: Option<string>,
    historial: seq<string>)

  /** The state set up on the first run of the script in a browser session. */
  const Initial: State := State([], "", None, [])

  /** What every reachable state satisfies, even after a service call has raised: the
      last question is the last history entry ("" before any), and a thread is set only
      once there is history. */
  ghost predicate Consistent(s: State)
  {
    (s.historial == [] ==> s.ultimaPregunta == "" && s.threadId == None) &&
    (s.historial != [] ==> s.ultimaPregunta == s.historial[|s.historial| - 1])
  }

  /** What every state reachable while the service calls return satisfies: besides
      Consistent, there is a thread exactly when there is history, and every history
      entry was recorded as a user message. */
  ghost predicate ValidState(s: State)
  {
    Consistent(s) &&
    (s.historial != [] ==> s.threadId.Some?) &&
    (forall j :: 0 <= j < |s.historial| ==> (Usuario, s.historial[j]) in s.messages)
  }

  /** The condition under which a turn reuses the current thread: the input is contextual,
      the history is non-empty and `thread_id` is set (and, as Python reads it, not ""). */
  predicate ReusesThread(s: State, input: Option<string>)
  {
    Classifier.IsContextual(input) && s.historial != [] && Truthy(s.threadId)
  }

  /** The turn takes the new-topic branch and so calls `threads.create()`. */
  predicate CreatesThread(s: State, input: Option<string>)
  {
    Truthy(input) && !ReusesThread(s, input)
  }

  /** In a valid state the history test is implied by the thread test: a follow-up is
      answered in the current thread exactly when it is contextual and that thread's id
      is not "". */
  lemma ReusesThreadInValidState(s: State, input: Option<string>)
    requires ValidState(s)
    ensures ReusesThread(s, input) <==> Classifier.IsContextual(input) && s.threadId.Some? && s.threadId != Some("")
  {
  }

  /** The result of one turn: the new state and the prompt sent to the assistant
      (None when there was no input, or when creating the thread raised). */
  datatype Outcome = Outcome(next: State, prompt: Option<string>)

  /** One user turn (the `if user_input:` block up to the transcript append). `freshThread`
      is what `threads.create()` gives if it is called: the new thread's id, or None when
      the call raises, which ends the script run after `ultima_pregunta` and
      `historial_preguntas` have been updated. */
  function Step(s: State, input: Option<string>, freshThread: Option<string>): (r: Outcome)
    // no input: nothing changes and nothing is sent
    ensures !Truthy(input) ==> r.next == s && r.prompt == None
    // a turn with input that gets as far as sending records exactly the user's own text,
    // after what was there; one that does not leaves the transcript alone
    ensures Truthy(input) && r.prompt.Some? ==> r.next.messages == s.messages + [(Usuario, input.value)]
    ensures r.prompt.None? ==> r.next.messages == s.messages
    // a clarification request keeps thread, history and last question, and asks about
    // the last question without repeating the follow-up
    ensures Truthy(input) && ReusesThread(s, input) ==>
      r.next.threadId == s.threadId && r.next.historial == s.historial &&
      r.next.ultimaPregunta == s.ultimaPregunta &&
      r.prompt == Some(ClarifyPrefix + s.historial[|s.historial| - 1])
    // any other input becomes the last question and joins the history, even when the
    // thread cannot be created; it is sent unchanged in the fresh thread when it can
    ensures Truthy(input) && !ReusesThread(s, input) ==>
      r.next.ultimaPregunta == input.value &&
      |r.next.historial| == |s.historial| + 1 && r.next.historial[..|s.historial|] == s.historial &&
      r.next.historial[|s.historial|] == input.value &&
      (freshThread.Some? ==> r.prompt == input && r.next.threadId == freshThread) &&
      (freshThread.None? ==> r.prompt == None && r.next.threadId == s.threadId)
    // with no history yet, even a clarification request starts a new topic
    ensures Truthy(input) && s.historial == [] && freshThread.Some? ==> r.prompt == input
    ensures Consistent(s) ==> Consistent(r.next)
    ensures ValidState(s) && (freshThread.Some? || !CreatesThread(s, input)) ==> ValidState(r.next)
  {
    if !Truthy(input) then Outcome(s, None)
    else
      var user := input.value;
      if ReusesThread(s, input) then
        var referencia := s.historial[|s.historial| - 1];
        Outcome(s.(messages := s.messages + [(Usuario, user)]), Some(ClarifyPrefix + referencia))
      else
        var stored := s.(ultimaPregunta := user, historial := s.historial + [user]);
        match freshThread
        case None => Outcome(stored, None)
        case Some(id) =>
          Outcome(stored.(threadId := Some(id), messages := s.messages + [(Usuario, user)]), Some(user))
  }

  /** A run of turns, each with its input and what `threads.create()` would give. */
  function Steps(s: State, turns: seq<(Option<string>, Option<string>)>): State
    decreases |turns|
  {
    if turns == [] then s
    else Steps(Step(s, turns[0].0, turns[0].1).next, turns[1..])
  }

  /** No turn of the run calls `threads.create()` and sees it raise. */
  ghost predicate NoFailedCreation(s: State, turns: seq<(Option<string>, Option<string>)>)
    decreases |turns|
  {
    turns == [] ||
    ((turns[0].1.Some? || !CreatesThread(s, turns[0].0)) &&
     NoFailedCreation(Step(s, turns[0].0, turns[0].1).next, turns[1..]))
  }

  /** Over any run of turns the transcript and the history only grow at the end, the state
      stays consistent, and it stays valid while every thread creation succeeds. */
  lemma {:induction false} StepsAppendOnly(s: State, turns: seq<(Option<string>, Option<string>)>)
    ensures s.messages <= Steps(s, turns).messages
    ensures s.historial <= Steps(s, turns).historial
    ensures |Steps(s, turns).historial| <= |s.historial| + |turns|
    ensures Consistent(s) ==> Consistent(Steps(s, turns))
    ensures ValidState(s) && NoFailedCreation(s, turns) ==> ValidState(Steps(s, turns))
    decreases |turns|
  {
    if turns != [] {
      var t := Step(s, turns[0].0, turns[0].1).next;
      StepsAppendOnly(t, turns[1..]);
      assert s.historial <= t.historial;
    }
  }

  /** When creating the thread raises on a later question, `thread_id` still names the
      previous thread while the failed question is the last history entry: a follow-up is
      then sent to the old thread and asks about a question that thread never received. */
  lemma LaterFailedCreationMisroutesFollowUp(q1: string, q2: string, f: string, t1: string)
    requires q1 != "" && q2 != "" && t1 != ""
    requires !Classifier.IsContextual(Some(q2)) && Classifier.IsContextual(Some(f))
    ensures var s1 := Step(Initial, Some(q1), Some(t1)).next;
      var s2 := Step(s1, Some(q2), None).next;
      var r := Step(s2, Some(f), None);
      s2 == State([(Usuario, q1)], q2, Some(t1), [q1, q2]) &&
      r.next.threadId == Some(t1) && r.prompt == Some(ClarifyPrefix + q2)
  {
  }

  /** Two new questions in a row open two threads, and both questions join the history. */
  lemma NewTopicIsolation(s: State, a: string, b: string, idA: string, idB: string)
    requires a != "" && b != "" && !Classifier.IsContextual(Some(b))
    ensures var t := Step(Step(s, Some(a), Some(idA)).next, Some(b), Some(idB)).next;
      t.threadId == Some(idB) && t.historial == (if ReusesThread(s, Some(a)) then s.historial + [b] else s.historial + [a, b])
  {
  }

  /** When creating the thread raises on the first turn, the question is already stored but
      there is no thread and no transcript entry; the next turn, even a follow-up, is then
      taken as a new question. */
  lemma FailedThreadCreation(q: string, next: string, id: string)
    requires q != "" && next != ""
    ensures Step(Initial, Some(q), None) == Outcome(State([], q, None, [q]), None)
    ensures Consistent(State([], q, None, [q])) && !ValidState(State([], q, None, [q]))
    ensures Step(State([], q, None, [q]), Some(next), Some(id)) ==
      Outcome(State([(Usuario, next)], next, Some(id), [q, next]), Some(next))
  {
  }

  /** The role the service gives the assistant's own messages. */
  predicate IsAssistant(m: ApiMessage)
  {
    m.role == "assistant"
  }

  /** Index k is the last assistant message of the listing. */
  ghost predicate IsLastAssistant(listing: seq<ApiMessage>, k: nat)
  {
    k < |listing| && IsAssistant(listing[k]) &&
    forall j :: k < j < |listing| ==> !IsAssistant(listing[j])
  }

  /** The scan of `reversed(messages.data)` that stops at the first assistant message:
      it finds the last assistant message in listing order, or reports that there is none. */
  method FindAnswer(listing: seq<ApiMessage>) returns (k: Option<nat>)
    ensures k.Some? ==> IsLastAssistant(listing, k.value)
    ensures k.None? <==> forall j :: 0 <= j < |listing| ==> !IsAssistant(listing[j])
  {
    var n := |listing|;
    while n > 0
      invariant 0 <= n <= |listing|
      invariant forall j :: n <= j < |listing| ==> !IsAssistant(listing[j])
      decreases n
    {
      n := n - 1;
      if IsAssistant(listing[n]) {
        return Some(n);
      }
    }
    return None;
  }

  /** A listing given newest first, as the service lists a thread by default: the scan
      picks the older of the two assistant replies, the one at the end of the listing. */
  lemma NewestFirstListingPicksOlderReply(listing: seq<ApiMessage>, newer: string, question: string, older: string)
    requires listing == [ApiMessage("assistant", newer), ApiMessage("user", question), ApiMessage("assistant", older)]
    ensures IsLastAssistant(listing, 2) && listing[2].text == older
    ensures forall k: nat :: IsLastAssistant(listing, k) ==> k == 2
  {
  }

  /** `st.session_state`, held by the caller for one browser session. */
  class ChatSession {
    var messages: seq<(Speaker, string)>
    var ultimaPregunta: string
    var threadId: Option<string>
    var historialPreguntas: seq<string>

    /** The four fields as one value. */
    function Snapshot(): State
      reads this
    {
      State(messages, ultimaPregunta, threadId, historialPreguntas)
    }

    /** The initial session state. */
    constructor ()
      ensures Snapshot() == Initial && ValidState(Snapshot())
    {
      messages := [];
      ultimaPregunta := "";
      threadId := None;
      historialPreguntas := [];
    }

    /** One user turn: classify, pick or replace the thread, and record the user's text.
        Returns the prompt to send; None when there was no input or when `threads.create()`
        raised (`freshThread == None`), which leaves the question stored but the thread unchanged
        and nothing recorded. */
    method Submit(input: Option<string>, freshThread: Option<string>) returns (prompt: Option<string>)
      modifies this
      ensures Outcome(Snapshot(), prompt) == Step(old(Snapshot()), input, freshThread)
      ensures old(Consistent(Snapshot())) ==> Consistent(Snapshot())
      ensures old(ValidState(Snapshot())) && (freshThread.Some? || !CreatesThread(old(Snapshot()), input)) ==>
        ValidState(Snapshot())
    {
      prompt := None;
      if Truthy(input) {
        var userInput := input.value;
        var contextual := Classifier.IsContextual(input);
        if contextual && historialPreguntas != [] && Truthy(threadId) {
          var referencia := historialPreguntas[|historialPreguntas| - 1];
          prompt := Some(ClarifyPrefix + referencia);
        } else {
          ultimaPregunta := userInput;
          historialPreguntas := historialPreguntas + [userInput];
          if freshThread.None? {
            return None;
          }
          prompt := Some(userInput);
          threadId := freshThread;
        }
        messages := messages + [(Usuario, userInput)];
      }
    }

    /** Record the assistant's reply from the thread's message listing: the last assistant
        message, with its citation markers stripped, or nothing when there is none. */
    method RecordAnswer(listing: seq<ApiMessage>)
      modifies this`messages
      ensures (forall j :: 0 <= j < |listing| ==> !IsAssistant(listing[j])) ==>
        messages == old(messages)
      ensures forall k: nat :: IsLastAssistant(listing, k) ==>
        messages == old(messages) + [(Asistente, Citations.StripCitations(listing[k].text))]
      ensures Consistent(Snapshot()) == old(Consistent(Snapshot()))
      ensures old(ValidState(Snapshot())) ==> ValidState(Snapshot())
    {
      var k := FindAnswer(listing);
      if k.Some? {
        forall k': nat | IsLastAssistant(listing, k') ensures k' == k.value { }
        var respuesta := Citations.StripCitations(listing[k.value].text);
        messages := messages + [(Asistente, respuesta)];
      }
    }

    /** The whole `if user_input:` block: submit the turn, and when a prompt was sent,
        record the reply found in the listing the service returns afterwards. `listing` is
        None when one of the later service calls raised, which ends the run there. */
    method HandleTurn(input: Option<string>, freshThread: Option<string>, listing: Option<seq<ApiMessage>>)
      returns (prompt: Option<string>)
      modifies this
      ensures !Truthy(input) ==> Snapshot() == old(Snapshot()) && prompt == None
      ensures
        var r := Step(old(Snapshot()), input, freshThread);
        prompt == r.prompt && ultimaPregunta == r.next.ultimaPregunta &&
        threadId == r.next.threadId && historialPreguntas == r.next.historial &&
        (r.prompt.None? || listing.None? ==> messages == r.next.messages) &&
        (r.prompt.Some? && listing.Some? ==>
          ((forall j :: 0 <= j < |listing.value| ==> !IsAssistant(listing.value[j])) ==>
             messages == r.next.messages) &&
          (forall k: nat :: IsLastAssistant(listing.value, k) ==>
             messages == r.next.messages + [(Asistente, Citations.StripCitations(listing.value[k].text))]))
      ensures old(Consistent(Snapshot())) ==> Consistent(Snapshot())
      ensures old(ValidState(Snapshot())) && (freshThread.Some? || !CreatesThread(old(Snapshot()), input)) ==>
        ValidState(Snapshot())
    {
      prompt := Submit(input, freshThread);
      if prompt.Some? && listing.Some? {
        RecordAnswer(listing.value);
      }
    }
  }
}
