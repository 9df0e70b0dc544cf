/** The application shell of `src/main.py`: the bot's start-up checks, the
    guards in front of ingestion and clearing, and the main menu. The
    environment is a map, and the file system, the document loader and the
    remote services are inputs. */
module App {
  import opened Wrappers
  import opened Strings
  import opened Engine

  /** The environment variables the bot refuses to start without. */
  const RequiredVars: seq<string> :=
    ["OPENAI_API_KEY", "PINECONE_API_KEY", "PINECONE_INDEX_NAME", "PINECONE_ENVIRONMENT", "EMBEDDING_MODEL"]

  /** `os.getenv(name)` is truthy: set, and not empty. */
  predicate IsSet(env: map<string, string>, name: string) {
    name in env && env[name] != ""
  }

  /** `[var for var in required if not os.getenv(var)]` */
  function MissingVars(required: seq<string>, env: map<string, string>): seq<string> {
    if required == [] then []
    else (if IsSet(env, required[0]) then [] else [required[0]]) + MissingVars(required[1..], env)
  }

  /** A name is reported missing exactly when it is required and not set. */
  lemma {:induction false} MissingVarsMembers(required: seq<string>, env: map<string, string>)
    ensures forall name :: name in MissingVars(required, env) <==> name in required && !IsSet(env, name)
  {
    if required != [] {
      MissingVarsMembers(required[1..], env);
      assert required == [required[0]] + required[1..];
    }
  }

  /** A single required name is reported, once, exactly when it is not set. */
  lemma MissingVarsSingle(name: string, env: map<string, string>)
    ensures MissingVars([name], env) == if IsSet(env, name) then [] else [name]
  {
    assert [name][1..] == [];
  }

  /** The missing names keep the order of the required list: the report on
      a concatenation is the concatenation of the reports. */
  lemma {:induction false} MissingVarsAppend(a: seq<string>, b: seq<string>, env: map<string, string>)
    ensures MissingVars(a + b, env) == MissingVars(a, env) + MissingVars(b, env)
  {
    if a == [] {
      assert a + b == b;
    } else {
      var head := if IsSet(env, a[0]) then [] else [a[0]];
      assert (a + b)[0] == a[0];
      assert (a + b)[1..] == a[1..] + b;
      assert MissingVars(a + b, env) == head + MissingVars(a[1..] + b, env);
      MissingVarsAppend(a[1..], b, env);
      assert head + (MissingVars(a[1..], env) + MissingVars(b, env)) == (head + MissingVars(a[1..], env)) + MissingVars(b, env);
    }
  }

  /** `LangSmithMonitor()`: a client and the project it reports on. */
  datatype Monitor = LangSmithMonitor(projectName: string)

  const MonitorProject := "engine"

  /** What one call of `ingest_documents` finds: the listing of the data
      directory (None when it does not exist), the document loader's result
      (an error message when it raises), whether adding to the vector store
      fails, and whether Ctrl-C arrives while documents are loaded or added
      (no handler there catches it). */
  datatype IngestInput = IngestInput(dataDir: Option<seq<string>>, loaded: Result<seq<Document>, string>, addFails: bool,
                                     interrupted: bool)

  datatype IngestStatus =
    | EngineMissing
    | NoDocumentsFound
    | LoaderFailed(message: string)
    | NoPdfDocuments
    | Ingested(count: nat)
    | IngestInterrupted

  /** Where `ingest_documents` stops: each guard in turn, a Ctrl-C once
      loading has begun, and the count of loaded documents it hands to the
      engine when all pass. */
  function IngestDecision(engineSet: bool, input: IngestInput): (status: IngestStatus)
    ensures status == EngineMissing <==> !engineSet
    ensures status == NoDocumentsFound <==> engineSet && (input.dataDir.None? || input.dataDir.value == [])
    ensures status == IngestInterrupted <==>
      engineSet && input.dataDir.Some? && input.dataDir.value != [] && input.interrupted
    ensures status.LoaderFailed? <==>
      engineSet && input.dataDir.Some? && input.dataDir.value != [] && !input.interrupted && input.loaded.Err?
    ensures status == NoPdfDocuments <==>
      engineSet && input.dataDir.Some? && input.dataDir.value != [] && !input.interrupted && input.loaded == Ok([])
    ensures status.Ingested? <==>
      && engineSet && input.dataDir.Some? && input.dataDir.value != [] && !input.interrupted
      && input.loaded.Ok? && input.loaded.value != []
    ensures status.Ingested? ==> status.count == |input.loaded.value|
  {
    if !engineSet then EngineMissing
    else if input.dataDir.None? || input.dataDir.value == [] then NoDocumentsFound
    else if input.interrupted then IngestInterrupted
    else match input.loaded
      case Err(message) => LoaderFailed(message)
      case Ok(docs) => if docs == [] then NoPdfDocuments else Ingested(|docs|)
  }

  /** The main menu's options. */
  datatype Command = IngestCmd | InteractiveCmd | MonitoringCmd | ClearCmd | ExitCmd | InvalidCmd

  /** The option a typed line selects, after `.strip()`. */
  function Dispatch(line: string): (c: Command)
    ensures c == IngestCmd <==> Strip(line) == "1"
    ensures c == InteractiveCmd <==> Strip(line) == "2"
    ensures c == MonitoringCmd <==> Strip(line) == "3"
    ensures c == ClearCmd <==> Strip(line) == "4"
    ensures c == ExitCmd <==> Strip(line) == "5"
    ensures c == InvalidCmd <==> Strip(line) !in ["1", "2", "3", "4", "5"]
  {
    var choice := Strip(line);
    if choice == "1" then IngestCmd
    else if choice == "2" then InteractiveCmd
    else if choice == "3" then MonitoringCmd
    else if choice == "4" then ClearCmd
    else if choice == "5" then ExitCmd
    else InvalidCmd
  }

  /** One pass through the menu loop, as the user sees it. */
  datatype Action =
    | Ingest(status: IngestStatus)
    | Interactive(exit: bool)
    | Monitoring
    | Cleared
    | ClearCancelled
    | Quit
    | Invalid(choice: string)

  /** `a` is what option `c` does. */
  predicate Chose(c: Command, a: Action) {
    match c
    case IngestCmd => a.Ingest?
    case InteractiveCmd => a.Interactive?
    case MonitoringCmd => a == Monitoring
    case ClearCmd => a == Cleared || a == ClearCancelled
    case ExitCmd => a == Quit
    case InvalidCmd => a.Invalid?
  }

  /** The passes after which `main` leaves its loop. */
  predicate Stops(a: Action) {
    a == Quit || a == Interactive(true)
  }

  /** How `main` ends: by leaving the loop, or by an exception nothing
      catches (Ctrl-C or end of input at a prompt outside a handler, Ctrl-C
      during an ingestion, or clearing without an engine). */
  datatype MenuEnd = Exited | Crashed

  /** One pass through the menu loop and the position after it, or the
      exception that ended `main` and the position it was raised at. */
  datatype Turn = Turned(action: Action, next: nat) | Raised(next: nat)

  predicate SomeIngested(trace: seq<Action>) {
    exists k :: 0 <= k < |trace| && trace[k].Ingest? && trace[k].status.Ingested?
  }

  lemma SomeIngestedCons(a: Action, rest: seq<Action>)
    ensures SomeIngested([a] + rest) <==> (a.Ingest? && a.status.Ingested?) || SomeIngested(rest)
  {
    var t := [a] + rest;
    assert t[0] == a;
    if SomeIngested(rest) {
      var k :| 0 <= k < |rest| && rest[k].Ingest? && rest[k].status.Ingested?;
      assert t[k + 1] == rest[k];
    }
    if SomeIngested(t) {
      var k :| 0 <= k < |t| && t[k].Ingest? && t[k].status.Ingested?;
      if 0 < k {
        assert t[k] == rest[k - 1];
      }
    }
  }

  /** What the menu loop sees of the bot: whether an engine was built, the
      engine's store, the feedback recorded for it and the number of queries
      it sent (empty without an engine), and `documents_ingested`. */
  datatype BotState = BotState(hasEngine: bool, store: seq<Document>, feedbackLog: seq<FeedbackEntry>,
                               queriesAsked: nat, documentsIngested: bool)

  /** One pass through the loop and the state it leaves. */
  datatype TurnResult = TurnResult(turn: Turn, bot: BotState)

  /** The session option 2 runs on the input from `start` on: the engine's
      next query is answered by `replies(b.queriesAsked)`. */
  function SessionFrom(b: BotState, events: seq<Event>, start: nat, replies: nat -> Reply): SessionRun
    requires start <= |events|
  {
    Run(Initial, events, start, Shift(replies, b.queriesAsked))
  }

  /** One pass through `main`'s loop from position `pos` in state `b`: the
      choice, then what it runs. `Raised` is an exception that leaves
      `main`; it changes nothing. */
  function MenuStep(b: BotState, events: seq<Event>, pos: nat, replies: nat -> Reply, ingest: IngestInput): (r: TurnResult)
    requires pos <= |events|
    ensures pos <= r.turn.next <= |events|
    ensures r.turn.Turned? ==> pos < r.turn.next
    ensures r.turn.Raised? ==> r.bot == b
  {
    if pos == |events| then TurnResult(Raised(pos), b)
    else if events[pos].Interrupt? then TurnResult(Raised(pos + 1), b)
    else
      var next := pos + 1;
      match Dispatch(events[pos].text)
      case IngestCmd =>
        var status := IngestDecision(b.hasEngine, ingest);
        if status == IngestInterrupted then TurnResult(Raised(next), b)
        else
          var store := if status.Ingested? && !ingest.addFails then b.store + ingest.loaded.value else b.store;
          TurnResult(Turned(Ingest(status), next), b.(store := store, documentsIngested := b.documentsIngested || status.Ingested?))
      case InteractiveCmd =>
        if !b.hasEngine then TurnResult(Turned(Interactive(false), next), b)
        else
          var run := SessionFrom(b, events, next, replies);
          RunEnds(Initial, events, next, Shift(replies, b.queriesAsked));
          TurnResult(Turned(Interactive(run.end == Returned("exit")), run.consumed),
                     b.(feedbackLog := b.feedbackLog + run.feedback, queriesAsked := b.queriesAsked + |run.queries|))
      case MonitoringCmd =>
        if next == |events| then TurnResult(Turned(Monitoring, next), b)
        else if events[next].Interrupt? then TurnResult(Raised(next + 1), b)
        else if next + 1 == |events| then TurnResult(Turned(Monitoring, next + 1), b)
        else if events[next + 1].Interrupt? then TurnResult(Raised(next + 2), b)
        else TurnResult(Turned(Monitoring, next + 2), b)
      case ClearCmd =>
        if next == |events| then TurnResult(Raised(next), b)
        else if events[next].Interrupt? then TurnResult(Raised(next + 1), b)
        else if Lower(events[next].text) != "y" then TurnResult(Turned(ClearCancelled, next + 1), b)
        else if !b.hasEngine then TurnResult(Raised(next + 1), b)
        else TurnResult(Turned(Cleared, next + 1), b.(store := []))
      case ExitCmd => TurnResult(Turned(Quit, next), b)
      case InvalidCmd => TurnResult(Turned(Invalid(events[pos].text), next), b)
  }

  /** The pass that read its choice at `start` did what the typed line
      there selects. */
  predicate PassChose(events: seq<Event>, start: nat, action: Action) {
    start < |events| && events[start].Line? && Chose(Dispatch(events[start].text), action)
  }

  /** Every pass reads its choice from a typed line and does what that line
      selects; only an ingestion sets `documents_ingested`, and the engine is
      never replaced. */
  lemma MenuStepChoice(b: BotState, events: seq<Event>, pos: nat, replies: nat -> Reply, ingest: IngestInput)
    requires pos <= |events|
    ensures var r := MenuStep(b, events, pos, replies, ingest);
      && r.bot.hasEngine == b.hasEngine
      && r.bot.documentsIngested ==
           (b.documentsIngested || (r.turn.Turned? && r.turn.action.Ingest? && r.turn.action.status.Ingested?))
      && (r.turn.Turned? ==> PassChose(events, pos, r.turn.action))
      && (r.turn.Turned? && r.turn.action.Invalid? ==> r.turn.action.choice == events[pos].text)
  {
  }

  /** The two lines before position `i` chose option 4 and confirmed it
      with "y". */
  predicate ConfirmedClear(events: seq<Event>, i: nat) {
    && 2 <= i <= |events| && events[i - 2].Line? && Dispatch(events[i - 2].text) == ClearCmd
    && events[i - 1].Line? && Lower(events[i - 1].text) == "y"
  }

  /** The line before position `i` chose option 1. */
  predicate ChoseIngest(events: seq<Event>, i: nat) {
    1 <= i <= |events| && events[i - 1].Line? && Dispatch(events[i - 1].text) == IngestCmd
  }

  /** An exception that leaves `main` can be raised after reading `i`
      events: end of input or Ctrl-C at an unguarded prompt, Ctrl-C during
      an ingestion the engine runs, or confirming the clear without an
      engine. */
  predicate CrashAt(hasEngine: bool, events: seq<Event>, i: nat) {
    || i == |events|
    || (0 < i <= |events| && events[i - 1].Interrupt?)
    || (hasEngine && ChoseIngest(events, i))
    || (!hasEngine && ConfirmedClear(events, i))
  }

  /** A pass raises only where CrashAt allows it. */
  lemma MenuStepRaised(b: BotState, events: seq<Event>, pos: nat, replies: nat -> Reply, ingest: IngestInput)
    requires pos <= |events|
    ensures var r := MenuStep(b, events, pos, replies, ingest);
      r.turn.Raised? ==> CrashAt(b.hasEngine, events, r.turn.next)
  {
    if pos < |events| && events[pos].Line? && Dispatch(events[pos].text) == IngestCmd {
      assert ChoseIngest(events, pos + 1);
    }
  }

  /** Option 1: ingestion ends as IngestDecision says, and the store grows
      by the loaded documents only when the add succeeds; a Ctrl-C while it
      loads or adds leaves `main`. */
  lemma MenuStepIngest(b: BotState, events: seq<Event>, pos: nat, replies: nat -> Reply, ingest: IngestInput)
    requires pos <= |events|
    ensures var r := MenuStep(b, events, pos, replies, ingest);
      r.turn.Turned? && r.turn.action.Ingest? ==>
        && r.turn.action.status == IngestDecision(b.hasEngine, ingest) && r.turn.next == pos + 1
        && r.turn.action.status != IngestInterrupted
        && r.bot.store == (if r.turn.action.status.Ingested? && !ingest.addFails then b.store + ingest.loaded.value else b.store)
        && r.bot.feedbackLog == b.feedbackLog && r.bot.queriesAsked == b.queriesAsked
    ensures ChoseIngest(events, pos + 1) && IngestDecision(b.hasEngine, ingest) == IngestInterrupted ==>
      MenuStep(b, events, pos, replies, ingest) == TurnResult(Raised(pos + 1), b)
  {
  }

  /** Option 2: the session's feedback and queries are recorded, and the
      loop is to stop exactly when the engine's session returned "exit". */
  lemma MenuStepInteractive(b: BotState, events: seq<Event>, pos: nat, replies: nat -> Reply, ingest: IngestInput)
    requires pos <= |events|
    ensures var r := MenuStep(b, events, pos, replies, ingest);
      r.turn.Turned? && r.turn.action.Interactive? ==>
        && pos + 1 <= |events|
        && (r.turn.action.exit <==> b.hasEngine && SessionFrom(b, events, pos + 1, replies).end == Returned("exit"))
        && (b.hasEngine ==>
              var run := SessionFrom(b, events, pos + 1, replies);
              && r.turn.next == run.consumed && r.bot.store == b.store
              && r.bot.feedbackLog == b.feedbackLog + run.feedback
              && r.bot.queriesAsked == b.queriesAsked + |run.queries|)
        && (!b.hasEngine ==> r.turn.next == pos + 1 && r.bot == b)
  {
  }

  /** Option 3 reads the two date prompts, where end of input is caught;
      options 3 and 5 and an invalid choice change nothing. */
  lemma MenuStepMonitoring(b: BotState, events: seq<Event>, pos: nat, replies: nat -> Reply, ingest: IngestInput)
    requires pos <= |events|
    ensures var r := MenuStep(b, events, pos, replies, ingest);
      && (r.turn.Turned? && r.turn.action == Monitoring ==>
            && r.bot == b && r.turn.next <= pos + 3
            && (forall k :: pos < k < r.turn.next ==> events[k].Line?)
            && (r.turn.next < pos + 3 ==> r.turn.next == |events|))
      && (r.turn.Turned? && (r.turn.action == Quit || r.turn.action.Invalid?) ==> r.bot == b && r.turn.next == pos + 1)
  {
  }

  /** No pass loses recorded feedback or queries. */
  lemma MenuStepGrows(b: BotState, events: seq<Event>, pos: nat, replies: nat -> Reply, ingest: IngestInput)
    requires pos <= |events|
    ensures var r := MenuStep(b, events, pos, replies, ingest);
      b.feedbackLog <= r.bot.feedbackLog && b.queriesAsked <= r.bot.queriesAsked
  {
  }

  /** Option 4: only an unstripped, lower-cased "y" empties the store. */
  lemma MenuStepClear(b: BotState, events: seq<Event>, pos: nat, replies: nat -> Reply, ingest: IngestInput)
    requires pos <= |events|
    ensures var r := MenuStep(b, events, pos, replies, ingest);
      r.turn.Turned? && (r.turn.action == Cleared || r.turn.action == ClearCancelled) ==>
        && r.turn.next == pos + 2 && events[pos + 1].Line?
        && (r.turn.action == Cleared <==> Lower(events[pos + 1].text) == "y")
        && r.bot == (if r.turn.action == Cleared then b.(store := []) else b)
  {
  }

  /** A whole run of `main`'s loop: how it ended, one action per pass, the
      position each pass read its choice at, the events read and the state
      left behind. */
  datatype MenuRunResult = MenuRunResult(end: MenuEnd, trace: seq<Action>, starts: seq<nat>, consumed: nat, bot: BotState)

  /** `main`'s loop from position `pos` in state `b`. `replies(k)` answers
      the engine's k-th query, and `ingests(k)` is what the k-th ingestion
      finds, `ingestCount` of them having happened already. */
  function MenuRun(b: BotState, events: seq<Event>, pos: nat, replies: nat -> Reply,
                   ingests: nat -> IngestInput, ingestCount: nat): MenuRunResult
    requires pos <= |events|
    decreases |events| - pos
  {
    var r := MenuStep(b, events, pos, replies, ingests(ingestCount));
    match r.turn
    case Raised(next) => MenuRunResult(Crashed, [], [], next, r.bot)
    case Turned(action, next) =>
      if Stops(action) then MenuRunResult(Exited, [action], [pos], next, r.bot)
      else
        var rest := MenuRun(r.bot, events, next, replies, ingests, if action.Ingest? then ingestCount + 1 else ingestCount);
        MenuRunResult(rest.end, [action] + rest.trace, [pos] + rest.starts, rest.consumed, rest.bot)
  }

  /** MenuRun after one pass whose outcome is `t` and leaves state `b'`. */
  lemma MenuRunStep(b: BotState, events: seq<Event>, pos: nat, replies: nat -> Reply,
                    ingests: nat -> IngestInput, ingestCount: nat, t: Turn, b': BotState)
    requires pos <= |events| && TurnResult(t, b') == MenuStep(b, events, pos, replies, ingests(ingestCount))
    ensures t.next <= |events|
    ensures t.Raised? ==> MenuRun(b, events, pos, replies, ingests, ingestCount) == MenuRunResult(Crashed, [], [], t.next, b')
    ensures t.Turned? && Stops(t.action) ==>
      MenuRun(b, events, pos, replies, ingests, ingestCount) == MenuRunResult(Exited, [t.action], [pos], t.next, b')
    ensures t.Turned? && !Stops(t.action) ==>
      && pos < t.next
      && MenuRun(b, events, pos, replies, ingests, ingestCount) ==
         After([t.action], [pos], MenuRun(b', events, t.next, replies, ingests, if t.action.Ingest? then ingestCount + 1 else ingestCount))
  {
  }

  lemma AfterAfter(trace: seq<Action>, starts: seq<nat>, trace': seq<Action>, starts': seq<nat>, r: MenuRunResult)
    ensures After(trace, starts, After(trace', starts', r)) == After(trace + trace', starts + starts', r)
  {
    assert trace + (trace' + r.trace) == (trace + trace') + r.trace;
    assert starts + (starts' + r.starts) == (starts + starts') + r.starts;
  }

  /** The last pass asked `main` to leave its loop. */
  predicate EndsWithStop(trace: seq<Action>) {
    trace != [] && Stops(trace[|trace| - 1])
  }

  /** No pass but the last asked `main` to leave its loop. */
  predicate NoEarlyStop(trace: seq<Action>) {
    forall k :: 0 <= k < |trace| - 1 ==> !Stops(trace[k])
  }

  /** Each pass read its choice at its start, at or after `pos`, from a
      typed line, and did what that line selects; the starts increase. */
  predicate PassesChose(events: seq<Event>, starts: seq<nat>, trace: seq<Action>, pos: nat) {
    && |starts| == |trace|
    && (forall k :: 0 <= k < |trace| ==> pos <= starts[k] && PassChose(events, starts[k], trace[k]))
    && (forall k :: 0 <= k < |starts| - 1 ==> starts[k] < starts[k + 1])
  }

  /** No pass asked to leave after a session. */
  predicate NoSessionExit(trace: seq<Action>) {
    forall k :: 0 <= k < |trace| ==> trace[k] != Interactive(true)
  }

  lemma TraceCons(a: Action, rest: seq<Action>)
    requires !Stops(a)
    ensures EndsWithStop([a] + rest) <==> EndsWithStop(rest)
    ensures NoEarlyStop(rest) ==> NoEarlyStop([a] + rest)
    ensures NoSessionExit([a] + rest) <==> a != Interactive(true) && NoSessionExit(rest)
  {
    var t := [a] + rest;
    assert t[0] == a;
    assert forall k :: 0 < k < |t| ==> t[k] == rest[k - 1];
    if NoSessionExit(t) {
      forall j | 0 <= j < |rest|
        ensures rest[j] != Interactive(true)
      {
        assert rest[j] == t[j + 1];
      }
    }
  }

  lemma PassesChoseCons(events: seq<Event>, p: nat, a: Action, starts: seq<nat>, trace: seq<Action>, pos: nat, next: nat)
    requires pos <= p < next && PassChose(events, p, a) && PassesChose(events, starts, trace, next)
    ensures PassesChose(events, [p] + starts, [a] + trace, pos)
  {
    var s, t := [p] + starts, [a] + trace;
    assert forall k :: 0 < k < |t| ==> t[k] == trace[k - 1] && s[k] == starts[k - 1];
  }

  /** The loop ends normally exactly after a pass that chose "5", or "2"
      with a session that returned "exit", and no earlier pass stops it. */
  lemma {:induction false} MenuRunEnds(b: BotState, events: seq<Event>, pos: nat, replies: nat -> Reply,
                                       ingests: nat -> IngestInput, ingestCount: nat)
    requires pos <= |events|
    ensures var r := MenuRun(b, events, pos, replies, ingests, ingestCount);
      && pos <= r.consumed <= |events|
      && (r.end == Exited <==> EndsWithStop(r.trace))
      && NoEarlyStop(r.trace)
    decreases |events| - pos
  {
    var r := MenuStep(b, events, pos, replies, ingests(ingestCount));
    MenuRunStep(b, events, pos, replies, ingests, ingestCount, r.turn, r.bot);
    if r.turn.Turned? && !Stops(r.turn.action) {
      var count := if r.turn.action.Ingest? then ingestCount + 1 else ingestCount;
      MenuRunEnds(r.bot, events, r.turn.next, replies, ingests, count);
      TraceCons(r.turn.action, MenuRun(r.bot, events, r.turn.next, replies, ingests, count).trace);
    } else if r.turn.Turned? {
      assert MenuRun(b, events, pos, replies, ingests, ingestCount).trace == [r.turn.action];
    }
  }

  /** `main` crashes only where CrashAt allows it. */
  lemma {:induction false} MenuRunCrash(b: BotState, events: seq<Event>, pos: nat, replies: nat -> Reply,
                                        ingests: nat -> IngestInput, ingestCount: nat)
    requires pos <= |events|
    ensures var r := MenuRun(b, events, pos, replies, ingests, ingestCount);
      r.end == Crashed ==> CrashAt(b.hasEngine, events, r.consumed)
    decreases |events| - pos
  {
    var r := MenuStep(b, events, pos, replies, ingests(ingestCount));
    MenuRunStep(b, events, pos, replies, ingests, ingestCount, r.turn, r.bot);
    if r.turn.Raised? {
      MenuStepRaised(b, events, pos, replies, ingests(ingestCount));
    } else if !Stops(r.turn.action) {
      var count := if r.turn.action.Ingest? then ingestCount + 1 else ingestCount;
      MenuStepChoice(b, events, pos, replies, ingests(ingestCount));
      MenuRunCrash(r.bot, events, r.turn.next, replies, ingests, count);
    }
  }

  /** Every pass read its choice from a typed line, after the previous
      pass, and did what that line selects; the first pass reads at `pos`. */
  lemma {:induction false} MenuRunChoices(b: BotState, events: seq<Event>, pos: nat, replies: nat -> Reply,
                                          ingests: nat -> IngestInput, ingestCount: nat)
    requires pos <= |events|
    ensures var r := MenuRun(b, events, pos, replies, ingests, ingestCount);
      && PassesChose(events, r.starts, r.trace, pos)
      && (r.starts != [] ==> r.starts[0] == pos)
    decreases |events| - pos
  {
    var r := MenuStep(b, events, pos, replies, ingests(ingestCount));
    MenuRunStep(b, events, pos, replies, ingests, ingestCount, r.turn, r.bot);
    MenuStepChoice(b, events, pos, replies, ingests(ingestCount));
    if r.turn.Turned? && !Stops(r.turn.action) {
      var count := if r.turn.action.Ingest? then ingestCount + 1 else ingestCount;
      var rest := MenuRun(r.bot, events, r.turn.next, replies, ingests, count);
      MenuRunChoices(r.bot, events, r.turn.next, replies, ingests, count);
      PassesChoseCons(events, pos, r.turn.action, rest.starts, rest.trace, pos, r.turn.next);
    }
  }

  /** The engine is never replaced, `documents_ingested` records whether
      some pass ingested, the recorded feedback and the query count only
      grow, and without an engine no pass asks to leave after a session. */
  lemma {:induction false} MenuRunState(b: BotState, events: seq<Event>, pos: nat, replies: nat -> Reply,
                                        ingests: nat -> IngestInput, ingestCount: nat)
    requires pos <= |events|
    ensures var r := MenuRun(b, events, pos, replies, ingests, ingestCount);
      && r.bot.hasEngine == b.hasEngine
      && r.bot.documentsIngested == (b.documentsIngested || SomeIngested(r.trace))
      && b.feedbackLog <= r.bot.feedbackLog && b.queriesAsked <= r.bot.queriesAsked
      && (!b.hasEngine ==> NoSessionExit(r.trace))
    decreases |events| - pos
  {
    var r := MenuStep(b, events, pos, replies, ingests(ingestCount));
    MenuRunStep(b, events, pos, replies, ingests, ingestCount, r.turn, r.bot);
    MenuStepChoice(b, events, pos, replies, ingests(ingestCount));
    MenuStepGrows(b, events, pos, replies, ingests(ingestCount));
    MenuStepInteractive(b, events, pos, replies, ingests(ingestCount));
    if r.turn.Turned? {
      if Stops(r.turn.action) {
        SomeIngestedCons(r.turn.action, []);
        assert MenuRun(b, events, pos, replies, ingests, ingestCount).trace == [r.turn.action] + [];
      } else {
        var count := if r.turn.action.Ingest? then ingestCount + 1 else ingestCount;
        var rest := MenuRun(r.bot, events, r.turn.next, replies, ingests, count);
        MenuRunState(r.bot, events, r.turn.next, replies, ingests, count);
        SomeIngestedCons(r.turn.action, rest.trace);
        TraceCons(r.turn.action, rest.trace);
      }
    }
  }

  /** The run `r` with the passes `trace`, read at `starts`, before it. */
  function After(trace: seq<Action>, starts: seq<nat>, r: MenuRunResult): MenuRunResult {
    r.(trace := trace + r.trace, starts := starts + r.starts)
  }

  class HealthCareBot {
    var engine: RagEngine?
    var monitor: Option<Monitor>
    var documentsIngested: bool

    /** `HealthCareBot()`: nothing is built when a required variable is
        missing; otherwise the engine and then the monitor are built, and
        a failure leaves the remaining fields at None. */
    constructor(env: map<string, string>, existing: seq<Document>, engineOk: bool, monitorOk: bool)
      ensures !documentsIngested
      ensures MissingVars(RequiredVars, env) != [] ==> engine == null && monitor == None
      ensures MissingVars(RequiredVars, env) == [] ==>
        (engine != null <==> engineOk) && (monitor != None <==> engineOk && monitorOk)
      ensures engine != null ==>
        fresh(engine) && engine.store == existing && engine.feedbackLog == [] && engine.queriesAsked == 0
      ensures monitor != None ==> monitor == Some(LangSmithMonitor(MonitorProject))
    {
      var missing := MissingVars(RequiredVars, env);
      if missing == [] && engineOk {
        engine := new RagEngine(existing);
        monitor := if monitorOk then Some(LangSmithMonitor(MonitorProject)) else None;
      } else {
        engine := null;
        monitor := None;
      }
      documentsIngested := false;
    }

    /** `ingest_documents` */
    method IngestDocuments(input: IngestInput) returns (status: IngestStatus)
      modifies this, engine
      ensures status == IngestDecision(old(engine) != null, input)
      ensures engine == old(engine) && monitor == old(monitor)
      ensures documentsIngested == (old(documentsIngested) || status.Ingested?)
      ensures engine != null ==>
        && engine.store == (if status.Ingested? && !input.addFails then old(engine.store) + input.loaded.value else old(engine.store))
        && engine.feedbackLog == old(engine.feedbackLog) && engine.queriesAsked == old(engine.queriesAsked)
    {
      if engine == null {
        return EngineMissing;
      }
      if input.dataDir.None? || input.dataDir.value == [] {
        return NoDocumentsFound;
      }
      if input.interrupted {
        // Ctrl-C while loading or adding passes every handler.
        return IngestInterrupted;
      }
      if input.loaded.Err? {
        // The loader raised; the handler reports it.
        return LoaderFailed(input.loaded.error);
      }
      var docs := input.loaded.value;
      if docs == [] {
        return NoPdfDocuments;
      }
      engine.ProcessDocuments(docs, input.addFails);
      documentsIngested := true;
      status := Ingested(|docs|);
    }

    /** `clear_data` with the confirmation typed: only a "y" in either case,
        not stripped, clears; with no engine that raises. */
    method ClearData(confirmation: string) returns (r: Outcome<string>)
      modifies engine
      ensures r.Fail? <==> Lower(confirmation) == "y" && engine == null
      ensures engine != null ==>
        && engine.store == (if Lower(confirmation) == "y" then [] else old(engine.store))
        && engine.feedbackLog == old(engine.feedbackLog) && engine.queriesAsked == old(engine.queriesAsked)
    {
      if Lower(confirmation) == "y" {
        if engine == null {
          return Fail("'NoneType' object has no attribute 'clear_vectorstore'");
        }
        engine.ClearVectorstore();
      }
      r := Pass;
    }

    /** `run_interactive` on the input from position `start` on: "exit"
        is passed on only when the engine's session returned it; a missing
        engine and any error in the session lead back to the menu. */
    method RunInteractive(events: seq<Event>, start: nat, replies: nat -> Reply) returns (exit: bool, next: nat)
      requires start <= |events|
      modifies engine
      ensures start <= next <= |events|
      ensures engine == null ==> !exit && next == start
      ensures engine != null ==>
        var run := Run(Initial, events, start, Shift(replies, old(engine.queriesAsked)));
        && exit == (run.end == Returned("exit")) && next == run.consumed
        && engine.store == old(engine.store)
        && engine.feedbackLog == old(engine.feedbackLog) + run.feedback
        && engine.queriesAsked == old(engine.queriesAsked) + |run.queries|
    {
      if engine == null {
        // The attribute error is caught and reported.
        return false, start;
      }
      var end;
      end, next := engine.RunInteractiveSession(events, start, replies);
      exit := end == Returned("exit");
    }

    /** The bot as the menu loop sees it. */
    function Snapshot(): BotState
      reads this, engine
    {
      if engine == null then BotState(false, [], [], 0, documentsIngested)
      else BotState(true, engine.store, engine.feedbackLog, engine.queriesAsked, documentsIngested)
    }

    /** One pass through `main`'s loop from position `pos`, as MenuStep
        describes it. */
    method MenuTurn(events: seq<Event>, pos: nat, replies: nat -> Reply, ingest: IngestInput) returns (t: Turn)
      requires pos <= |events|
      modifies this, engine
      ensures engine == old(engine) && monitor == old(monitor)
      ensures TurnResult(t, Snapshot()) == MenuStep(old(Snapshot()), events, pos, replies, ingest)
    {
      // "Choose an option (1-5): "
      if pos == |events| {
        return Raised(pos);
      } else if events[pos].Interrupt? {
        return Raised(pos + 1);
      }
      var choice := events[pos].text;
      var next := pos + 1;
      match Dispatch(choice) {
        case IngestCmd =>
          var status := IngestDocuments(ingest);
          if status == IngestInterrupted {
            return Raised(next);
          }
          t := Turned(Ingest(status), next);
        case InteractiveCmd =>
          var exit;
          exit, next := RunInteractive(events, next, replies);
          t := Turned(Interactive(exit), next);
        case MonitoringCmd =>
          // "Start date: " and "End date: "; end of input is caught here,
          // Ctrl-C is not.
          if next < |events| {
            if events[next].Interrupt? {
              return Raised(next + 1);
            }
            next := next + 1;
            if next < |events| {
              if events[next].Interrupt? {
                return Raised(next + 1);
              }
              next := next + 1;
            }
          }
          t := Turned(Monitoring, next);
        case ClearCmd =>
          if next == |events| {
            return Raised(next);
          } else if events[next].Interrupt? {
            return Raised(next + 1);
          }
          var confirmation := events[next].text;
          var r := ClearData(confirmation);
          if r.Fail? {
            return Raised(next + 1);
          }
          t := Turned(if Lower(confirmation) == "y" then Cleared else ClearCancelled, next + 1);
        case ExitCmd =>
          t := Turned(Quit, next);
        case InvalidCmd =>
          t := Turned(Invalid(choice), next);
      }
    }

    /** `main`'s menu loop, reading `events` in order: `replies(k)` answers
        the engine's k-th query and `ingests(k)` is what the k-th ingestion
        finds. It returns how `main` ended, one action per pass through the
        loop, and the number of events read, all as MenuRun says. */
    method RunMenu(events: seq<Event>, replies: nat -> Reply, ingests: nat -> IngestInput)
      returns (end: MenuEnd, trace: seq<Action>, consumed: nat)
      modifies this, engine
      ensures engine == old(engine) && monitor == old(monitor)
      ensures var run := MenuRun(old(Snapshot()), events, 0, replies, ingests, 0);
        && end == run.end && trace == run.trace && consumed == run.consumed && Snapshot() == run.bot
    {
      ghost var whole := MenuRun(Snapshot(), events, 0, replies, ingests, 0);
      ghost var starts: seq<nat> := [];
      consumed := 0;
      trace := [];
      var ingestCount := 0;
      while true
        invariant consumed <= |events|
        invariant engine == old(engine) && monitor == old(monitor)
        invariant whole == After(trace, starts, MenuRun(Snapshot(), events, consumed, replies, ingests, ingestCount))
        decreases |events| - consumed
      {
        ghost var before := Snapshot();
        var t := MenuTurn(events, consumed, replies, ingests(ingestCount));
        MenuRunStep(before, events, consumed, replies, ingests, ingestCount, t, Snapshot());
        if t.Raised? {
          return Crashed, trace, t.next;
        }
        if Stops(t.action) {
          return Exited, trace + [t.action], t.next;
        }
        AfterAfter(trace, starts, [t.action], [consumed], MenuRun(Snapshot(), events, t.next, replies, ingests,
          if t.action.Ingest? then ingestCount + 1 else ingestCount));
        if t.action.Ingest? {
          ingestCount := ingestCount + 1;
        }
        trace, starts, consumed := trace + [t.action], starts + [consumed], t.next;
      }
    }
  }
}
