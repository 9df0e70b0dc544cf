/** The question-and-answer side of `src/rag/engine.py`: extracting the
    answer and its sources from the chain's output, and the interactive
    session driven by the lines the user types. The chain itself (retrieval
    and the language model) is an oracle. */
module Engine {
  import opened Wrappers
  import opened Strings

  datatype Document = Document(pageContent: string)

  /** The dictionary the question-answering chain returns: its text entries
      and, when present, its "source_documents" entry. */
  datatype ChainOutput = ChainOutput(texts: map<string, string>, sourceDocuments: Option<seq<Document>>)

  datatype EngineError = MissingKey(key: string)

  datatype Interpretation = Interpretation(answer: string, sources: seq<string>, runId: string)

  /** `[doc.page_content for doc in docs]` */
  function PageContents(docs: seq<Document>): seq<string> {
    if docs == [] then [] else [docs[0].pageContent] + PageContents(docs[1..])
  }

  /** The contents come in the documents' order, one for each document. */
  lemma {:induction false} PageContentsAt(docs: seq<Document>)
    ensures |PageContents(docs)| == |docs|
    ensures forall i :: 0 <= i < |docs| ==> PageContents(docs)[i] == docs[i].pageContent
  {
    if docs != [] {
      PageContentsAt(docs[1..]);
      assert forall i :: 1 <= i < |docs| ==> PageContents(docs)[i] == PageContents(docs[1..])[i - 1];
    }
  }

  /** The answer, sources and run id `interpret_query` returns for one chain
      output; a missing key raises, as the dictionary lookup does. */
  function InterpretQuery(output: ChainOutput, runId: string): Result<Interpretation, EngineError> {
    if "result" !in output.texts && "answer" !in output.texts then
      Err(MissingKey("answer"))
    else
      var answer := if "result" in output.texts then output.texts["result"] else output.texts["answer"];
      match output.sourceDocuments
      case None => Err(MissingKey("source_documents"))
      case Some(docs) => Ok(Interpretation(answer, PageContents(docs), runId))
  }

  /** `interpret_query` answers exactly when the output has an answer entry
      and source documents: the "result" entry if there is one, otherwise the
      "answer" entry, with one source per document, in order. */
  lemma InterpretQuerySpec(output: ChainOutput, runId: string)
    ensures var r := InterpretQuery(output, runId);
      && (r.Ok? <==> ("result" in output.texts || "answer" in output.texts) && output.sourceDocuments.Some?)
      && (!("result" in output.texts || "answer" in output.texts) ==> r == Err(MissingKey("answer")))
      && (("result" in output.texts || "answer" in output.texts) && output.sourceDocuments.None? ==>
            r == Err(MissingKey("source_documents")))
      && (r.Ok? ==> r.value.runId == runId)
      && (r.Ok? && "result" in output.texts ==> r.value.answer == output.texts["result"])
      && (r.Ok? && "result" !in output.texts ==> r.value.answer == output.texts["answer"])
      && (r.Ok? ==> |r.value.sources| == |output.sourceDocuments.value|)
      && (r.Ok? ==> forall i :: 0 <= i < |r.value.sources| ==>
            r.value.sources[i] == output.sourceDocuments.value[i].pageContent)
  {
    if output.sourceDocuments.Some? {
      PageContentsAt(output.sourceDocuments.value);
    }
  }

  /** The run metadata passed with the chain call: the user id only when one
      was given and it is not empty. */
  function RunMetadata(userId: Option<string>): (m: map<string, string>)
    ensures "user_id" in m <==> userId.Some? && userId.value != ""
    ensures "user_id" in m ==> m["user_id"] == userId.value
    ensures forall key :: key in m ==> key == "user_id"
  {
    if userId.Some? && userId.value != "" then map["user_id" := userId.value] else map[]
  }

  /** The answers for which no feedback is asked. */
  const NonAnswers: seq<string> := ["i don't know.", "i don't know", ""]

  predicate IsInformative(answer: string) {
    Lower(Strip(answer)) !in NonAnswers
  }

  /** A blank answer, or the model's "I don't know." in any letter case and
      with any surrounding whitespace, is not informative. */
  lemma {:induction false} NonAnswersAreNotInformative(answer: string)
    requires AllSpace(answer) || Lower(Strip(answer)) == "i don't know." || Lower(Strip(answer)) == "i don't know"
    ensures !IsInformative(answer)
  {
    StripShape(answer);
    if AllSpace(answer) {
      assert Strip(answer) == [];
      assert Lower(Strip(answer)) == [];
      assert NonAnswers[2] == [];
    } else {
      assert NonAnswers[0] == "i don't know." && NonAnswers[1] == "i don't know";
    }
  }

  /** A reply typed at a y/n prompt, after `.strip().lower()`. */
  datatype Answer = Yes | No | MenuWord | Other

  function AnswerOf(text: string): Answer {
    var answer := Lower(Strip(text));
    if answer == "y" then Yes else if answer == "n" then No else if answer == "menu" then MenuWord else Other
  }

  lemma AnswerOfSpec(text: string)
    ensures AnswerOf(text) == Yes <==> Lower(Strip(text)) == "y"
    ensures AnswerOf(text) == No <==> Lower(Strip(text)) == "n"
    ensures AnswerOf(text) == MenuWord <==> Lower(Strip(text)) == "menu"
  {
  }

  /** The score a feedback reply logs: "y" is 1, "n" is 0, and anything else
      logs nothing. */
  function FeedbackScore(reply: string): Option<nat> {
    match AnswerOf(reply)
    case Yes => Some(1)
    case No => Some(0)
    case _ => None
  }

  lemma FeedbackScoreSpec(reply: string)
    ensures FeedbackScore(reply) == Some(1) <==> Lower(Strip(reply)) == "y"
    ensures FeedbackScore(reply) == Some(0) <==> Lower(Strip(reply)) == "n"
    ensures FeedbackScore(reply).None? <==> Lower(Strip(reply)) != "y" && Lower(Strip(reply)) != "n"
  {
  }

  // ---------------------------------------------------------------------
  // The interactive session as a state machine over the input events.

  /** One `input()`: a typed line, or Ctrl-C (KeyboardInterrupt). Running
      out of events is end of input (EOFError). */
  datatype Event = Line(text: string) | Interrupt

  /** What `log_feedback` does with a score: it returns, it raises, or the
      user presses Ctrl-C while it is in flight. */
  datatype LogOutcome = LogSucceeds | LogRaises | LogInterrupted

  /** What the chain and the feedback service do for one query: the chain's
      output, or None when `interpret_query` raises before returning;
      whether the user presses Ctrl-C while the vector-store probe or the
      chain call is in flight (its output is then discarded); the run id;
      and what logging the feedback does. */
  datatype Reply = Reply(output: Option<ChainOutput>, interrupted: bool, runId: string, log: LogOutcome)

  datatype FeedbackEntry = FeedbackEntry(runId: string, score: nat)

  /** A query begun: the pending question, with the user id passed along. */
  datatype Query = Query(question: string, userId: Option<string>)

  /** How a session ends: a returned code, or the end-of-input error that
      propagates out of `run_interactive_session`. */
  datatype SessionEnd = Returned(code: string) | InputExhausted

  /** The prompt the session waits at. */
  datatype Phase =
    | AwaitQuestion
    | AwaitUserId(question: string)
    | AwaitFeedback(runId: string, log: LogOutcome)
    | AwaitContinue
    | AwaitErrorChoice

  datatype SessionState = SessionState(phase: Phase, feedback: seq<FeedbackEntry>, queries: seq<Query>)

  /** A whole session: how it ended, how many events it read, the feedback it
      logged and the queries it made. */
  datatype SessionRun = SessionRun(end: SessionEnd, consumed: nat, feedback: seq<FeedbackEntry>, queries: seq<Query>)

  /** A step either goes on, or returns `code` with the queries and the
      feedback of `state`. */
  datatype Transition = Next(state: SessionState) | Stop(code: string, state: SessionState)

  const Initial := SessionState(AwaitQuestion, [], [])

  /** The query for `question` is answered by the next reply; where the
      session goes depends on whether it raised and on the answer. */
  function AfterQuery(st: SessionState, question: string, userId: Option<string>, replies: nat -> Reply): SessionState {
    var reply := replies(|st.queries|);
    var queries := st.queries + [Query(question, userId)];
    var next := if reply.output.None? then AwaitErrorChoice
      else match InterpretQuery(reply.output.value, reply.runId)
        case Err(_) => AwaitErrorChoice
        case Ok(interpretation) =>
          if IsInformative(interpretation.answer) then AwaitFeedback(reply.runId, reply.log)
          else AwaitQuestion;
    SessionState(next, st.feedback, queries)
  }

  /** The user id typed at the prompt: None when it is blank. */
  function UserIdOf(text: string): Option<string> {
    var userId := Strip(text);
    if userId == [] then None else Some(userId)
  }

  /** A user id of whitespace only is passed on as None; any other is passed
      on stripped. */
  lemma UserIdOfSpec(text: string)
    ensures UserIdOf(text) == None <==> AllSpace(text)
    ensures UserIdOf(text) != None ==> UserIdOf(text) == Some(Strip(text)) && Strip(text) != []
  {
    StripShape(text);
  }

  /** Where a query leads: to the feedback prompt exactly when the chain
      answered with all the entries `interpret_query` reads and the answer is
      informative, to the error prompt exactly when the chain or the
      extraction raised, and otherwise back to the question prompt. The
      query is recorded in either case. */
  lemma AfterQuerySpec(st: SessionState, question: string, userId: Option<string>, replies: nat -> Reply)
    ensures var next := AfterQuery(st, question, userId, replies);
      var reply := replies(|st.queries|);
      && next.queries == st.queries + [Query(question, userId)]
      && next.feedback == st.feedback
      && (next.phase == AwaitErrorChoice <==>
            reply.output.None? || InterpretQuery(reply.output.value, reply.runId).Err?)
      && (next.phase.AwaitFeedback? <==>
            && reply.output.Some? && InterpretQuery(reply.output.value, reply.runId).Ok?
            && IsInformative(InterpretQuery(reply.output.value, reply.runId).value.answer))
      && (next.phase.AwaitFeedback? ==> next.phase == AwaitFeedback(reply.runId, reply.log))
      && (next.phase.AwaitFeedback? || next.phase == AwaitErrorChoice || next.phase == AwaitQuestion)
  {
  }

  /** The feedback prompt's state after `score` was logged for its run. */
  function Logged(st: SessionState, score: nat): SessionState
    requires st.phase.AwaitFeedback?
  {
    SessionState(AwaitContinue, st.feedback + [FeedbackEntry(st.phase.runId, score)], st.queries)
  }

  /** One transition, on one event. */
  function Step(st: SessionState, event: Event, replies: nat -> Reply): Transition {
    match event
    case Interrupt => Stop("menu", st)
    case Line(text) =>
      match st.phase
      case AwaitQuestion =>
        var question := Strip(text);
        if question == [] then Next(st)
        else if AnswerOf(text) == MenuWord then Stop("menu", st)
        else Next(st.(phase := AwaitUserId(question)))
      case AwaitUserId(question) =>
        // The query is counted even when Ctrl-C cuts its remote call short.
        var after := AfterQuery(st, question, UserIdOf(text), replies);
        if replies(|st.queries|).interrupted then Stop("menu", after) else Next(after)
      case AwaitFeedback(runId, log) =>
        var score := FeedbackScore(text);
        if score.None? then Next(st)
        else if log == LogRaises then Next(st.(phase := AwaitErrorChoice))
        else if log == LogInterrupted then Stop("menu", st)
        else Next(Logged(st, score.value))
      case AwaitContinue =>
        var answer := AnswerOf(text);
        if answer == No then Stop("menu", st)
        else if answer == Yes then Next(st.(phase := AwaitQuestion))
        else Next(st)
      case AwaitErrorChoice =>
        var choice := AnswerOf(text);
        if choice == No then Stop("exit", st)
        else if choice == MenuWord then Stop("menu", st)
        else if choice == Yes then Next(st.(phase := AwaitQuestion))
        else Next(st)
  }

  /** The session from state `st`, reading `events` from position `i` on. */
  function Run(st: SessionState, events: seq<Event>, i: nat, replies: nat -> Reply): SessionRun
    requires i <= |events|
    decreases |events| - i
  {
    if i == |events| then SessionRun(InputExhausted, i, st.feedback, st.queries)
    else match Step(st, events[i], replies)
      case Stop(code, last) => SessionRun(Returned(code), i + 1, last.feedback, last.queries)
      case Next(next) => Run(next, events, i + 1, replies)
  }

  /** `run_interactive_session` on the given input events. */
  function Session(events: seq<Event>, replies: nat -> Reply): SessionRun {
    Run(Initial, events, 0, replies)
  }

  /** The session stopped with `code` by the event before position `i`. */
  function Stopped(st: SessionState, code: string, i: nat): SessionRun {
    SessionRun(Returned(code), i, st.feedback, st.queries)
  }

  /** One event at the question prompt. */
  lemma QuestionStep(st: SessionState, events: seq<Event>, i: nat, replies: nat -> Reply)
    requires i < |events| && st.phase == AwaitQuestion
    ensures Run(st, events, i, replies) ==
      if events[i].Interrupt? then Stopped(st, "menu", i + 1)
      else if Strip(events[i].text) == [] then Run(st, events, i + 1, replies)
      else if AnswerOf(events[i].text) == MenuWord then Stopped(st, "menu", i + 1)
      else Run(st.(phase := AwaitUserId(Strip(events[i].text))), events, i + 1, replies)
  {
  }

  /** One event at the user id prompt. */
  lemma UserIdStep(st: SessionState, events: seq<Event>, i: nat, replies: nat -> Reply)
    requires i < |events| && st.phase.AwaitUserId?
    ensures Run(st, events, i, replies) ==
      if events[i].Interrupt? then Stopped(st, "menu", i + 1)
      else if replies(|st.queries|).interrupted then
        Stopped(AfterQuery(st, st.phase.question, UserIdOf(events[i].text), replies), "menu", i + 1)
      else Run(AfterQuery(st, st.phase.question, UserIdOf(events[i].text), replies), events, i + 1, replies)
  {
  }

  /** One event at the feedback prompt. */
  lemma FeedbackStep(st: SessionState, events: seq<Event>, i: nat, replies: nat -> Reply)
    requires i < |events| && st.phase.AwaitFeedback?
    ensures Run(st, events, i, replies) ==
      if events[i].Interrupt? then Stopped(st, "menu", i + 1)
      else if FeedbackScore(events[i].text).None? then Run(st, events, i + 1, replies)
      else if st.phase.log == LogRaises then Run(st.(phase := AwaitErrorChoice), events, i + 1, replies)
      else if st.phase.log == LogInterrupted then Stopped(st, "menu", i + 1)
      else Run(Logged(st, FeedbackScore(events[i].text).value), events, i + 1, replies)
  {
  }

  /** One event at the continue prompt. */
  lemma ContinueStep(st: SessionState, events: seq<Event>, i: nat, replies: nat -> Reply)
    requires i < |events| && st.phase == AwaitContinue
    ensures Run(st, events, i, replies) ==
      if events[i].Interrupt? || AnswerOf(events[i].text) == No then Stopped(st, "menu", i + 1)
      else if AnswerOf(events[i].text) == Yes then Run(st.(phase := AwaitQuestion), events, i + 1, replies)
      else Run(st, events, i + 1, replies)
  {
  }

  /** One event at the error prompt. */
  lemma ErrorChoiceStep(st: SessionState, events: seq<Event>, i: nat, replies: nat -> Reply)
    requires i < |events| && st.phase == AwaitErrorChoice
    ensures Run(st, events, i, replies) ==
      if events[i].Interrupt? then Stopped(st, "menu", i + 1)
      else if AnswerOf(events[i].text) == No then Stopped(st, "exit", i + 1)
      else if AnswerOf(events[i].text) == MenuWord then Stopped(st, "menu", i + 1)
      else if AnswerOf(events[i].text) == Yes then Run(st.(phase := AwaitQuestion), events, i + 1, replies)
      else Run(st, events, i + 1, replies)
  {
  }

  // ---------------------------------------------------------------------
  // What every session does.

  /** A session returns only "menu" or "exit" after reading at least one
      event, never reads past its input, and has read all of it when it ran
      out of input. */
  lemma {:induction false} RunEnds(st: SessionState, events: seq<Event>, i: nat, replies: nat -> Reply)
    requires i <= |events|
    ensures var run := Run(st, events, i, replies);
      && (run.end.Returned? ==> run.end.code == "menu" || run.end.code == "exit")
      && (run.end.Returned? ==> i < run.consumed <= |events|)
      && (run.end == InputExhausted ==> run.consumed == |events|)
    decreases |events| - i
  {
    if i < |events| && Step(st, events[i], replies).Next? {
      RunEnds(Step(st, events[i], replies).state, events, i + 1, replies);
    }
  }

  /** The session only adds to the feedback and the queries it started with. */
  lemma {:induction false} RunExtends(st: SessionState, events: seq<Event>, i: nat, replies: nat -> Reply)
    requires i <= |events|
    ensures st.queries <= Run(st, events, i, replies).queries
    ensures st.feedback <= Run(st, events, i, replies).feedback
    decreases |events| - i
  {
    if i < |events| {
      var next := Step(st, events[i], replies).state;
      assert st.queries <= next.queries && st.feedback <= next.feedback;
      if Step(st, events[i], replies).Next? {
        RunExtends(next, events, i + 1, replies);
      }
    }
  }

  /** A question the session can send: typed before position `i`, stripped,
      not blank and not "menu" in any letter case. */
  predicate AskedQuestion(q: string, events: seq<Event>, i: nat) {
    && q != [] && Strip(q) == q && Lower(q) != "menu"
    && exists k :: 0 <= k < i && k < |events| && events[k].Line? && Strip(events[k].text) == q
  }

  /** A user id passed along is stripped and never blank. */
  predicate AskedUserId(userId: Option<string>) {
    userId.Some? ==> userId.value != [] && Strip(userId.value) == userId.value
  }

  /** What holds of every state the session reaches after reading `i`
      events: every query was typed, every score is 0 or 1, and there is at
      most one feedback entry per query (the one being asked for included). */
  predicate Wellformed(st: SessionState, events: seq<Event>, i: nat) {
    && (forall k :: 0 <= k < |st.queries| ==>
          AskedQuestion(st.queries[k].question, events, i) && AskedUserId(st.queries[k].userId))
    && (st.phase.AwaitUserId? ==> AskedQuestion(st.phase.question, events, i))
    && (forall k :: 0 <= k < |st.feedback| ==> st.feedback[k].score <= 1)
    && |st.feedback| + (if st.phase.AwaitFeedback? then 1 else 0) <= |st.queries|
  }

  lemma AskedQuestionLater(q: string, events: seq<Event>, i: nat, j: nat)
    requires i <= j && AskedQuestion(q, events, i)
    ensures AskedQuestion(q, events, j)
  {
  }

  lemma {:induction false} StepKeepsWellformed(st: SessionState, events: seq<Event>, i: nat, replies: nat -> Reply)
    requires i < |events| && Wellformed(st, events, i)
    ensures Wellformed(Step(st, events[i], replies).state, events, i + 1)
  {
    var next := Step(st, events[i], replies).state;
    forall k | 0 <= k < |st.queries|
      ensures AskedQuestion(st.queries[k].question, events, i + 1)
    {
      AskedQuestionLater(st.queries[k].question, events, i, i + 1);
    }
    match st.phase
    case AwaitQuestion =>
      if next.phase.AwaitUserId? {
        var q := Strip(events[i].text);
        assert next.phase.question == q;
        StripIdempotent(events[i].text);
        assert AnswerOf(events[i].text) != MenuWord;
        assert AskedQuestion(q, events, i + 1);
      }
    case AwaitUserId(q) =>
      AskedQuestionLater(q, events, i, i + 1);
      if events[i].Line? {
        StripIdempotent(events[i].text);
        assert next.queries == st.queries + [Query(q, UserIdOf(events[i].text))];
      }
    case AwaitFeedback(_, _) =>
      if events[i].Line? {
        FeedbackScoreSpec(events[i].text);
      }
    case AwaitContinue =>
    case AwaitErrorChoice =>
  }

  /** Every query the session makes is a question that was typed, stripped,
      not blank and not "menu", with a stripped non-blank user id or none;
      every logged score is 0 or 1; and no query gets two feedback
      entries. */
  lemma {:induction false} RunWellformed(st: SessionState, events: seq<Event>, i: nat, replies: nat -> Reply)
    requires i <= |events| && Wellformed(st, events, i)
    ensures var run := Run(st, events, i, replies);
      && (forall k :: 0 <= k < |run.queries| ==>
            AskedQuestion(run.queries[k].question, events, |events|) && AskedUserId(run.queries[k].userId))
      && (forall k :: 0 <= k < |run.feedback| ==> run.feedback[k].score <= 1)
      && |run.feedback| <= |run.queries|
    decreases |events| - i
  {
    if i == |events| {
      // The session ran out of input in `st`.
    } else if Step(st, events[i], replies).Next? {
      StepKeepsWellformed(st, events, i, replies);
      RunWellformed(Step(st, events[i], replies).state, events, i + 1, replies);
    } else {
      var last := Step(st, events[i], replies).state;
      StepKeepsWellformed(st, events, i, replies);
      forall k | 0 <= k < |last.queries|
        ensures AskedQuestion(last.queries[k].question, events, |events|)
      {
        AskedQuestionLater(last.queries[k].question, events, i + 1, |events|);
      }
    }
  }

  /** A query raises when the chain call raises, the chain's output lacks
      an entry `interpret_query` reads, or logging its feedback raises. */
  predicate Raises(reply: Reply) {
    || reply.output.None?
    || InterpretQuery(reply.output.value, reply.runId).Err?
    || reply.log == LogRaises
  }

  /** Without a query that raises the error prompt is never reached, so the
      session never returns "exit". */
  lemma {:induction false} ExitOnlyAfterError(st: SessionState, events: seq<Event>, i: nat, replies: nat -> Reply)
    requires i <= |events|
    requires st.phase != AwaitErrorChoice && !(st.phase.AwaitFeedback? && st.phase.log == LogRaises)
    requires forall k: nat :: !Raises(replies(k))
    ensures Run(st, events, i, replies).end != Returned("exit")
    decreases |events| - i
  {
    if i < |events| && Step(st, events[i], replies).Next? {
      if st.phase.AwaitUserId? {
        assert !Raises(replies(|st.queries|));
      }
      ExitOnlyAfterError(Step(st, events[i], replies).state, events, i + 1, replies);
    }
  }

  /** Events a prompt ignores leave the session where it was: blank
      questions, feedback other than y/n, and unrecognised replies to the
      continue and error prompts are asked again. */
  lemma {:induction false} IgnoredEventsSkipped(st: SessionState, events: seq<Event>, i: nat, j: nat, replies: nat -> Reply)
    requires i <= j <= |events|
    requires forall k :: i <= k < j ==> Step(st, events[k], replies) == Next(st)
    ensures Run(st, events, i, replies) == Run(st, events, j, replies)
    decreases j - i
  {
    if i < j {
      assert Step(st, events[i], replies) == Next(st);
      IgnoredEventsSkipped(st, events, i + 1, j, replies);
    }
  }

  /** Which lines each prompt asks again for. */
  lemma RepromptedLines(st: SessionState, text: string, replies: nat -> Reply)
    ensures st.phase == AwaitQuestion && Strip(text) == [] ==> Step(st, Line(text), replies) == Next(st)
    ensures st.phase.AwaitFeedback? && Lower(Strip(text)) != "y" && Lower(Strip(text)) != "n" ==>
      Step(st, Line(text), replies) == Next(st)
    ensures st.phase == AwaitContinue && Lower(Strip(text)) != "y" && Lower(Strip(text)) != "n" ==>
      Step(st, Line(text), replies) == Next(st)
    ensures st.phase == AwaitErrorChoice && Lower(Strip(text)) !in ["y", "n", "menu"] ==>
      Step(st, Line(text), replies) == Next(st)
  {
    AnswerOfSpec(text);
  }

  /** Ctrl-C at any prompt returns "menu". */
  lemma InterruptReturnsMenu(st: SessionState, events: seq<Event>, i: nat, replies: nat -> Reply)
    requires i < |events| && events[i] == Interrupt
    ensures Run(st, events, i, replies) == SessionRun(Returned("menu"), i + 1, st.feedback, st.queries)
  {
  }

  /** The session as a whole: it starts with no feedback and no queries. */
  lemma SessionProperties(events: seq<Event>, replies: nat -> Reply)
    ensures var run := Session(events, replies);
      && (run.end.Returned? ==> run.end.code == "menu" || run.end.code == "exit")
      && (run.end.Returned? ==> 0 < run.consumed <= |events|)
      && (run.end == InputExhausted ==> run.consumed == |events|)
      && (forall k :: 0 <= k < |run.queries| ==>
            AskedQuestion(run.queries[k].question, events, |events|) && AskedUserId(run.queries[k].userId))
      && (forall k :: 0 <= k < |run.feedback| ==> run.feedback[k].score <= 1)
      && |run.feedback| <= |run.queries|
      && ((forall k: nat :: !Raises(replies(k))) ==> run.end != Returned("exit"))
  {
    RunEnds(Initial, events, 0, replies);
    RunWellformed(Initial, events, 0, replies);
    if forall k: nat :: !Raises(replies(k)) {
      ExitOnlyAfterError(Initial, events, 0, replies);
    }
  }

  /** What a prompt loop leaves: the finished session, or the state and the
      input position the session goes on from. */
  datatype Prompted = Finished(run: SessionRun) | Moved(state: SessionState, pos: nat)

  /** The prompt loop that started at `pos` in state `st` agrees with `Run`. */
  predicate Continues(st: SessionState, events: seq<Event>, pos: nat, replies: nat -> Reply, p: Prompted)
    requires pos <= |events|
  {
    match p
    case Finished(run) => run == Run(st, events, pos, replies)
    case Moved(next, pos') => pos < pos' <= |events| && Run(st, events, pos, replies) == Run(next, events, pos', replies)
  }

  /** A prompt loop that moved on, followed by one more prompt loop. */
  lemma ContinuesThen(st: SessionState, events: seq<Event>, pos: nat, replies: nat -> Reply, p: Prompted, q: Prompted)
    requires pos <= |events| && Continues(st, events, pos, replies, p) && p.Moved?
    requires Continues(p.state, events, p.pos, replies, q)
    ensures Continues(st, events, pos, replies, q)
  {
  }

  /** "Was this answer helpful? (y/n)": re-asked until the reply is y or n. */
  method AskFeedback(events: seq<Event>, pos: nat, st: SessionState, replies: nat -> Reply) returns (p: Prompted)
    requires pos <= |events| && st.phase.AwaitFeedback?
    ensures Continues(st, events, pos, replies, p)
    ensures p.Moved? ==> p.state.phase == AwaitContinue || p.state.phase == AwaitErrorChoice
  {
    var i := pos;
    while true
      invariant pos <= i <= |events|
      invariant Run(st, events, pos, replies) == Run(st, events, i, replies)
      decreases |events| - i
    {
      if i == |events| {
        return Finished(SessionRun(InputExhausted, i, st.feedback, st.queries));
      }
      FeedbackStep(st, events, i, replies);
      var event := events[i];
      i := i + 1;
      if event.Interrupt? {
        return Finished(SessionRun(Returned("menu"), i, st.feedback, st.queries));
      }
      var score := FeedbackScore(event.text);
      if score.Some? {
        if st.phase.log == LogRaises {
          // log_feedback raised: the error prompt follows.
          return Moved(st.(phase := AwaitErrorChoice), i);
        } else if st.phase.log == LogInterrupted {
          return Finished(SessionRun(Returned("menu"), i, st.feedback, st.queries));
        }
        return Moved(Logged(st, score.value), i);
      }
    }
  }

  /** "Would you like to ask another question? (y/n)" */
  method AskContinue(events: seq<Event>, pos: nat, st: SessionState, replies: nat -> Reply) returns (p: Prompted)
    requires pos <= |events| && st.phase == AwaitContinue
    ensures Continues(st, events, pos, replies, p)
    ensures p.Moved? ==> p.state == st.(phase := AwaitQuestion)
  {
    var i := pos;
    while true
      invariant pos <= i <= |events|
      invariant Run(st, events, pos, replies) == Run(st, events, i, replies)
      decreases |events| - i
    {
      if i == |events| {
        return Finished(SessionRun(InputExhausted, i, st.feedback, st.queries));
      }
      ContinueStep(st, events, i, replies);
      var event := events[i];
      i := i + 1;
      if event.Interrupt? {
        return Finished(SessionRun(Returned("menu"), i, st.feedback, st.queries));
      }
      var answer := AnswerOf(event.text);
      if answer == No {
        return Finished(SessionRun(Returned("menu"), i, st.feedback, st.queries));
      } else if answer == Yes {
        return Moved(st.(phase := AwaitQuestion), i);
      }
    }
  }

  /** "Continue? (y/n/menu)", after a query raised. */
  method AskErrorChoice(events: seq<Event>, pos: nat, st: SessionState, replies: nat -> Reply) returns (p: Prompted)
    requires pos <= |events| && st.phase == AwaitErrorChoice
    ensures Continues(st, events, pos, replies, p)
    ensures p.Moved? ==> p.state == st.(phase := AwaitQuestion)
  {
    var i := pos;
    while true
      invariant pos <= i <= |events|
      invariant Run(st, events, pos, replies) == Run(st, events, i, replies)
      decreases |events| - i
    {
      if i == |events| {
        return Finished(SessionRun(InputExhausted, i, st.feedback, st.queries));
      }
      ErrorChoiceStep(st, events, i, replies);
      var event := events[i];
      i := i + 1;
      if event.Interrupt? {
        return Finished(SessionRun(Returned("menu"), i, st.feedback, st.queries));
      }
      var choice := AnswerOf(event.text);
      if choice == No {
        return Finished(SessionRun(Returned("exit"), i, st.feedback, st.queries));
      } else if choice == MenuWord {
        return Finished(SessionRun(Returned("menu"), i, st.feedback, st.queries));
      } else if choice == Yes {
        return Moved(st.(phase := AwaitQuestion), i);
      }
    }
  }

  /** The user id prompt, the query, and the prompts that follow its answer
      or its error, up to the next question. */
  method AnswerQuery(events: seq<Event>, pos: nat, st: SessionState, replies: nat -> Reply) returns (p: Prompted)
    requires pos <= |events| && st.phase.AwaitUserId?
    ensures Continues(st, events, pos, replies, p)
    ensures p.Moved? ==> p.state.phase == AwaitQuestion
  {
    if pos == |events| {
      return Finished(SessionRun(InputExhausted, pos, st.feedback, st.queries));
    }
    UserIdStep(st, events, pos, replies);
    var event := events[pos];
    if event.Interrupt? {
      return Finished(SessionRun(Returned("menu"), pos + 1, st.feedback, st.queries));
    }
    var next := AfterQuery(st, st.phase.question, UserIdOf(event.text), replies);
    if replies(|st.queries|).interrupted {
      return Finished(SessionRun(Returned("menu"), pos + 1, next.feedback, next.queries));
    }
    p := Moved(next, pos + 1);
    if next.phase.AwaitFeedback? {
      var q := AskFeedback(events, pos + 1, next, replies);
      ContinuesThen(st, events, pos, replies, p, q);
      p := q;
      if p.Moved? && p.state.phase == AwaitContinue {
        q := AskContinue(events, p.pos, p.state, replies);
        ContinuesThen(st, events, pos, replies, p, q);
        p := q;
      }
    }
    if p.Moved? && p.state.phase == AwaitErrorChoice {
      var q := AskErrorChoice(events, p.pos, p.state, replies);
      ContinuesThen(st, events, pos, replies, p, q);
      p := q;
    }
  }

  /** The outer loop of `run_interactive_session`, reading `events` from
      position `start` on; `replies(k)` answers the k-th query. */
  method SessionLoop(events: seq<Event>, start: nat, replies: nat -> Reply) returns (run: SessionRun)
    requires start <= |events|
    ensures run == Run(Initial, events, start, replies)
  {
    var pos := start;
    var st := Initial;
    while true
      invariant start <= pos <= |events| && st.phase == AwaitQuestion
      invariant Run(Initial, events, start, replies) == Run(st, events, pos, replies)
      decreases |events| - pos
    {
      // "User: "
      if pos == |events| {
        return SessionRun(InputExhausted, pos, st.feedback, st.queries);
      }
      QuestionStep(st, events, pos, replies);
      var event := events[pos];
      pos := pos + 1;
      if event.Interrupt? {
        return SessionRun(Returned("menu"), pos, st.feedback, st.queries);
      }
      var question := Strip(event.text);
      if question == [] {
        continue;
      }
      if AnswerOf(event.text) == MenuWord {
        return SessionRun(Returned("menu"), pos, st.feedback, st.queries);
      }
      var p := AnswerQuery(events, pos, st.(phase := AwaitUserId(question)), replies);
      if p.Finished? {
        return p.run;
      }
      st, pos := p.state, p.pos;
    }
  }

  /** The replies for the queries after the first `base` ones. */
  function Shift(replies: nat -> Reply, base: nat): nat -> Reply {
    (k: nat) => replies(base + k)
  }

  /** The engine's state: the documents in its vector store, the feedback
      the feedback service has recorded for it, and how many queries it has
      begun, that is, user ids it has received with a question pending (so
      `replies(k)` answers its k-th query over the whole run of the
      program). A query cut short by Ctrl-C during the vector-store probe,
      before the chain is called, is begun too. */
  class RagEngine {
    var store: seq<Document>
    var feedbackLog: seq<FeedbackEntry>
    var queriesAsked: nat

    /** A new engine over a vector store that already holds `existing`. */
    constructor(existing: seq<Document>)
      ensures store == existing && feedbackLog == [] && queriesAsked == 0
    {
      store := existing;
      feedbackLog := [];
      queriesAsked := 0;
    }

    /** `process_documents`: a failure of the store is reported and
        swallowed. */
    method ProcessDocuments(docs: seq<Document>, addFails: bool)
      modifies this
      ensures store == if addFails then old(store) else old(store) + docs
      ensures feedbackLog == old(feedbackLog) && queriesAsked == old(queriesAsked)
    {
      if !addFails {
        store := store + docs;
      }
    }

    /** `clear_vectorstore` */
    method ClearVectorstore()
      modifies this
      ensures store == []
      ensures feedbackLog == old(feedbackLog) && queriesAsked == old(queriesAsked)
    {
      store := [];
    }

    /** `run_interactive_session` on the input from position `start` on:
        the feedback it logs is recorded and its queries are counted. */
    method RunInteractiveSession(events: seq<Event>, start: nat, replies: nat -> Reply) returns (end: SessionEnd, consumed: nat)
      requires start <= |events|
      modifies this
      ensures var run := Run(Initial, events, start, Shift(replies, old(queriesAsked)));
        && end == run.end && consumed == run.consumed
        && feedbackLog == old(feedbackLog) + run.feedback
        && queriesAsked == old(queriesAsked) + |run.queries|
      ensures store == old(store)
      ensures start <= consumed <= |events|
      ensures end.Returned? ==> end.code == "menu" || end.code == "exit"
    {
      var run := SessionLoop(events, start, Shift(replies, queriesAsked));
      RunEnds(Initial, events, start, Shift(replies, queriesAsked));
      feedbackLog := feedbackLog + run.feedback;
      queriesAsked := queriesAsked + |run.queries|;
      end, consumed := run.end, run.consumed;
    }
  }
}
