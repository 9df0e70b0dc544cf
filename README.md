# Health-care RAG bot: index lifecycle, Q&A session and menu shell

This project models three parts of a retrieval-augmented question-answering bot over health-care insurance documents. The bot keeps its document vectors in a Pinecone index, answers questions with a retrieval chain, and is driven from a console menu.

- **Index lifecycle** (`pinecone_utils.dfy`, module `PineconeUtils`). The remote service is a `PineconeClient` object. It holds a registry (a map from index name to dimension, metric and provisioning spec) and a log of the deletes and creates the service carried out.
  - `DeleteExistingIndex`, `CreateNewIndex` and `GetOrCreateIndex` mutate the client as the Python functions do.
  - `CreateNewIndex` first makes a serverless create in the region derived from the environment, then falls back to a create with no spec.
  - `GetOrCreateIndex` is proved to carry out exactly the pure plan `GetOrCreatePlan`. The plan's contract states the protocol:
    - nothing happens when the dimensions match;
    - delete then create on a mismatch when recreation is allowed;
    - a `DimensionMismatch` error carrying both dimensions otherwise;
    - a single create for an absent index.
  - The embedding dimension and the refusal of the serverless spec are inputs.
- **Q&A session** (`engine.dfy`, module `Engine`).
  - `interpret_query`'s extraction of the answer and its sources is `InterpretQuery`.
  - `run_interactive_session` is a state machine over the user's input events. An event is a typed line or Ctrl-C; running out of events is end of input.
  - `Step`/`Run` define the machine. `SessionLoop` and its prompt methods are the nested loops of the source, proved equal to `Run`.
  - The chain and the feedback service are an oracle `replies: nat -> Reply`. For the k-th query it gives:
    - the chain's output, or None when the call raises;
    - whether Ctrl-C arrives while the vector-store probe or the chain call is in flight;
    - the run id;
    - whether logging the feedback returns, raises, or is cut short by Ctrl-C.
  - `RagEngine` is the engine object: its vector store, the feedback the service recorded, and the number of queries it has begun. A query is begun once the user id is read, so one cut short by Ctrl-C during the vector-store probe counts too.
- **Application shell** (`main.dfy`, module `App`).
  - `HealthCareBot` has the fields `engine`, `monitor` and `documentsIngested`.
  - The constructor checks the required environment variables (`MissingVars`).
  - The class also has the guarded `IngestDocuments` and `ClearData`, and `RunInteractive`.
  - `RunMenu`/`MenuTurn` are `main`'s dispatch loop, reading the same event stream as the session. They are proved equal to the pure `MenuRun`/`MenuStep` over a value `BotState`, which holds whether an engine exists, the engine's store, its recorded feedback, its query count and `documents_ingested`.
- **Support modules.**
  - `strings.dfy` (module `Strings`) gives Python's `strip()`, `lower()` and `replace()` with their properties.
  - `wrappers.dfy` gives `Option`, `Result` and `Outcome`.

Where the design description and the code disagree, the model follows the code:
- The description says the interactive layer never lets an unhandled error end the process. In the code, some input errors and every Ctrl-C outside the session escape `main`; this is `MenuEnd.Crashed`. The handlers in `main.py` catch only `Exception`, and `KeyboardInterrupt` is not one.
  - Ctrl-C or end of input at the menu prompt (`src/main.py:130`) escapes.
  - So does Ctrl-C or end of input at the clear confirmation (`src/main.py:108`). `clear_data` has no handler.
  - Ctrl-C at a monitoring date prompt (`src/main.py:141-142`) escapes.
  - End of input at a date prompt does not escape: `EOFError` is caught at `src/main.py:144`, and the loop goes on.
  - Ctrl-C while `ingest_documents` loads or adds documents (`src/main.py:87-94`) escapes. This is `IngestInput.interrupted`.
  - Ctrl-C during `clear_vectorstore` (`src/main.py:112`) or `generate_report` (`src/main.py:66`) would also escape. The model has no input for it; see "Left out".
- Confirming "y" in `clear_data` while no engine was built raises `AttributeError` (`src/main.py:112`), which nothing catches. This is also `MenuEnd.Crashed`.
- The description asks for a literal "y" to clear the data. The code lower-cases the confirmation without stripping it, so "Y" also clears and " y" does not.

## Model

| member | source | states |
|---|---|---|
| Strings.StripShape | src/rag/engine.py:133 | `strip()` never lengthens its input. It returns "" exactly when the input is all whitespace. A non-empty result neither starts nor ends with whitespace. |
| Strings.TrimLeftShape | src/rag/engine.py:133 | What the left strip leaves is a suffix of the input that follows whitespace only and does not start with whitespace. |
| Strings.TrimRightShape | src/rag/engine.py:133 | What the right strip leaves is a prefix of the input that is followed by whitespace only and does not end with whitespace. |
| Strings.StripInfix | src/rag/engine.py:133 | The input is the stripped text with whitespace only on either side. |
| Strings.StripIdempotent | src/rag/engine.py:133 | Stripping twice is stripping once. |
| Strings.Strip | src/rag/engine.py:133 | Python's `str.strip()` with the `isspace` characters. StripShape, TrimLeftShape, TrimRightShape, StripInfix and StripIdempotent state its contract. |
| Strings.Lower | src/storage/pinecone_utils.py:37 | `str.lower()` on ASCII letters. LowerAt and LowerIdempotent state its contract. |
| Strings.ReplaceAll | src/storage/pinecone_utils.py:37 | `str.replace` of every non-overlapping occurrence, left to right. ReplaceWithoutOccurrence, ReplaceCharacters, ReplacePrefixCopied, ReplaceStartOccurrence and ReplaceLeavesNoOccurrence state its contract. |
| Strings.LowerChar | src/storage/pinecone_utils.py:37 | A lowered character is never upper case. An upper-case ASCII letter moves up by 32, and every other character is unchanged. |
| Strings.LowerAt | src/storage/pinecone_utils.py:37 | `lower()` keeps the length and lowers each character in place. |
| Strings.LowerIdempotent | src/rag/engine.py:137 | Lowering twice is lowering once. |
| Strings.ReplaceWithoutOccurrence | src/storage/pinecone_utils.py:37 | `replace` leaves a text without the pattern unchanged. |
| Strings.ReplaceCharacters | src/storage/pinecone_utils.py:37 | Every character `replace` outputs comes from the input or from the replacement. |
| Strings.ReplacePrefixCopied | src/storage/pinecone_utils.py:37 | An output prefix made of characters outside the replacement was copied unchanged from the input. |
| Strings.ReplaceStartOccurrence | src/storage/pinecone_utils.py:37 | When the pattern and the replacement share no character, the output starts with the pattern only if the input does. |
| Strings.ReplaceLeavesNoOccurrence | src/storage/pinecone_utils.py:37 | When the pattern and the replacement share no character, no occurrence of the pattern is left after `replace`. |
| PineconeUtils.Region | src/storage/pinecone_utils.py:37 | The serverless region `environment.lower().replace("gcp", "us-east1")`. RegionHasNoGcp, RegionIsLowerCase and RegionKeepsPlainEnvironment state its contract. |
| PineconeUtils.RegionHasNoGcp | src/storage/pinecone_utils.py:37 | The serverless region never contains "gcp". |
| PineconeUtils.RegionIsLowerCase | src/storage/pinecone_utils.py:37 | The serverless region has no upper-case letter. |
| PineconeUtils.RegionKeepsPlainEnvironment | src/storage/pinecone_utils.py:37 | An environment already in lower case and without "gcp" is used as the region unchanged. |
| PineconeUtils.NewIndex | src/storage/pinecone_utils.py:29-48 | The created index has the given dimension and metric "cosine". It carries a ServerlessSpec("aws", region) when the serverless attempt is accepted, and no spec (so no region) exactly when the attempt was refused and the fallback ran. |
| PineconeUtils.PineconeClient.constructor | src/storage/pinecone_utils.py:13-15 | A client sees the service's existing indexes and has carried out no mutation yet. |
| PineconeUtils.PineconeClient.ListIndexNames | src/storage/pinecone_utils.py:19 | The names listed are exactly the registry's names. |
| PineconeUtils.PineconeClient.DeleteIndex | src/storage/pinecone_utils.py:21 | Deleting a present name removes only that entry and logs one delete. An unknown name fails with nothing changed. |
| PineconeUtils.PineconeClient.CreateIndex | src/storage/pinecone_utils.py:31-48 | The create succeeds exactly when the name is free and the spec is not refused. It then adds exactly that entry and logs one create. A failure says why and changes nothing. |
| PineconeUtils.DeleteExistingIndex | src/storage/pinecone_utils.py:17-23 | It returns true exactly when the name was registered. The registry loses that name and nothing else. One delete is logged exactly when it returns true. |
| PineconeUtils.CreateNewIndex | src/storage/pinecone_utils.py:25-48 | For a free name, whether or not the serverless attempt is refused, the name then maps to the new index (dimension, cosine, spec as in NewIndex). No other entry changes and exactly one create is logged. A taken name fails in both attempts and changes nothing. |
| PineconeUtils.GetOrCreatePlan | src/storage/pinecone_utils.py:72-94 | The only error is a mismatch without recreation, reporting both dimensions. No operation is asked for exactly when the dimensions match. A permitted mismatch is exactly one delete followed by one create of the new index, an absent index gets exactly one create and no delete, and a delete happens in no other case. On success the name maps to the probed dimension and no other name changes. |
| PineconeUtils.GetOrCreateIdempotent | src/storage/pinecone_utils.py:72-81 | After a successful preparation, preparing again for the same model does nothing. |
| PineconeUtils.GetOrCreateOpCounts | src/storage/pinecone_utils.py:81-94 | At most one delete and one create, all on the index's name. A delete is always directly followed by a create, and the last operation creates the new index. |
| PineconeUtils.GetOrCreateIndex | src/storage/pinecone_utils.py:50-96 | The client carries out exactly the plan's operations, in order, and returns the index's name. On the mismatch error the registry and the log are unchanged. |
| Engine.PageContents | src/rag/engine.py:125 | The comprehension over the source documents. PageContentsAt states its contract. |
| Engine.PageContentsAt | src/rag/engine.py:125 | The sources are the documents' page contents, one per document, in order. |
| Engine.InterpretQuerySpec | src/rag/engine.py:124-126 | The extraction succeeds exactly when the output has "result" or "answer" and has source documents. The answer is "result" when present, else "answer". A missing key is reported as the key the lookup raises on. The run id is passed through. |
| Engine.RunMetadata | src/rag/engine.py:122 | The chain call's metadata holds "user_id" exactly when a non-empty user id was given, and holds nothing else. It stands alone: the session records the user id of each query, and this is the metadata the call builds from it. |
| Engine.NonAnswersAreNotInformative | src/rag/engine.py:164 | A blank answer, or "I don't know." or "I don't know" in any case and surrounded by any whitespace, gets no feedback prompt. |
| Engine.AnswerOfSpec | src/rag/engine.py:137 | A reply is classified as yes, no or menu exactly when its stripped lower-case form is "y", "n" or "menu". |
| Engine.FeedbackScoreSpec | src/rag/engine.py:167-169 | "y" scores 1 and "n" scores 0, after strip and lower. Any other reply scores nothing. |
| Engine.UserIdOfSpec | src/rag/engine.py:140 | A user id of whitespace only is passed on as None, and any other is passed on stripped. |
| Engine.AfterQuerySpec | src/rag/engine.py:154-164 | The query is recorded. The error prompt follows exactly when the chain or the extraction raised. The feedback prompt follows exactly when there is an informative answer, and otherwise the next question. |
| Engine.QuestionStep | src/rag/engine.py:133-138 | At the question prompt, a blank line is skipped without asking for a user id, "menu" in any case returns "menu", and any other text asks for the user id. |
| Engine.UserIdStep | src/rag/engine.py:140-198 | The user id line begins a query for the pending question with that user id. Ctrl-C at the prompt returns "menu" with no query begun. Ctrl-C during the probe or the chain call also returns "menu": the query is counted as begun and its result is discarded. |
| Engine.FeedbackStep | src/rag/engine.py:166-198 | At the feedback prompt, y/n logs one score (1 or 0) for the answer's run and moves to the continue prompt. The error prompt follows instead when logging raises. Ctrl-C while logging is in flight returns "menu" with no score recorded. Anything else asks again. |
| Engine.ContinueStep | src/rag/engine.py:174-180 | At the continue prompt, "n" returns "menu", "y" goes to the next question, and anything else asks again. |
| Engine.ErrorChoiceStep | src/rag/engine.py:186-194 | After an error, "n" returns "exit", "menu" returns "menu", "y" goes to the next question, and anything else asks again. |
| Engine.InterruptReturnsMenu | src/rag/engine.py:196-198 | Ctrl-C at any input prompt returns "menu" with the state reached so far. |
| Engine.RunEnds | src/rag/engine.py:128-198 | A session returns only "menu" or "exit", and a returned session has read at least one event and never reads past its input. A session that ran out of events has read all of them. A return on the last event also reads all of them, so the converse does not hold. |
| Engine.RunExtends | src/rag/engine.py:128-198 | A session only appends to the queries and feedback it started with. |
| Engine.RunWellformed | src/rag/engine.py:133-171 | Every query sends a question that was typed, stripped, non-blank and not "menu", with a stripped non-blank user id or none. Every score is 0 or 1, and there are no more feedback entries than queries. |
| Engine.ExitOnlyAfterError | src/rag/engine.py:182-189 | When no chain call, extraction or feedback logging raises, the session never returns "exit". |
| Engine.InterpretQuery | src/rag/engine.py:124-126 | The answer and sources of one chain output, or the missing key the lookup raises on. InterpretQuerySpec and PageContentsAt state its contract. |
| Engine.IsInformative | src/rag/engine.py:164 | An answer gets a feedback prompt unless its stripped lower-case form is one of the non-answers. NonAnswersAreNotInformative states the promised cases. |
| Engine.AnswerOf | src/rag/engine.py:167-187 | Classifies a reply by its `.strip().lower()` form. AnswerOfSpec states the classification. |
| Engine.FeedbackScore | src/rag/engine.py:167-169 | The score a feedback reply logs. FeedbackScoreSpec states it. |
| Engine.UserIdOf | src/rag/engine.py:140-155 | The user id passed to the chain. UserIdOfSpec states it. |
| Engine.AfterQuery | src/rag/engine.py:154-164 | Where one query leads. AfterQuerySpec states it. |
| Engine.Step | src/rag/engine.py:128-198 | One input event at the current prompt. QuestionStep, UserIdStep, FeedbackStep, ContinueStep, ErrorChoiceStep, RepromptedLines and InterruptReturnsMenu state it prompt by prompt. |
| Engine.Run | src/rag/engine.py:128-198 | The session from a state and an input position. RunEnds, RunExtends, RunWellformed, ExitOnlyAfterError and IgnoredEventsSkipped state its properties. SessionLoop is proved equal to it. |
| Engine.Session | src/rag/engine.py:128-198 | `run_interactive_session` from an empty start. SessionProperties states its properties. |
| Engine.IgnoredEventsSkipped | src/rag/engine.py:131-135 | A run of events a prompt ignores leaves the session exactly where it was. |
| Engine.RepromptedLines | src/rag/engine.py:166-194 | The lines each prompt asks again for: blank questions, feedback other than y/n, continue replies other than y/n, and error replies other than y/n/menu. |
| Engine.SessionProperties | src/rag/engine.py:128-198 | The whole session satisfies all of the above, starting from no queries and no feedback. |
| Engine.AskFeedback | src/rag/engine.py:166-171 | The feedback loop agrees with the state machine. It leaves only for the continue prompt or the error prompt. |
| Engine.AskContinue | src/rag/engine.py:174-180 | The continue loop agrees with the state machine. It leaves only for the next question. |
| Engine.AskErrorChoice | src/rag/engine.py:186-194 | The error loop agrees with the state machine. It leaves only for the next question. |
| Engine.AnswerQuery | src/rag/engine.py:140-194 | The user id prompt, the query and the prompts after it agree with the state machine, up to the next question. |
| Engine.SessionLoop | src/rag/engine.py:128-200 | The nested loops return exactly the run of the state machine on the same input: the end, the events read, the feedback and the queries. |
| Engine.RagEngine.constructor | src/rag/engine.py:37-93 | A new engine works on the existing vector store, with no feedback and no queries yet. |
| Engine.RagEngine.ProcessDocuments | src/rag/engine.py:95-101 | The documents are added to the store. A failing add is swallowed and leaves the store as it was. |
| Engine.RagEngine.ClearVectorstore | src/rag/engine.py:103-106 | The store is emptied, and nothing else changes. |
| Engine.RagEngine.RunInteractiveSession | src/rag/engine.py:128-206 | The session runs on the replies for this engine's next queries. Its feedback is appended to the recorded feedback, its queries are counted and the store is untouched. The code is "menu" or "exit". |
| App.IsSet | src/main.py:24 | `os.getenv(var)` is truthy: the variable is present and not empty. |
| App.MissingVars | src/main.py:16-24 | The list comprehension over the required variables. MissingVarsMembers, MissingVarsSingle and MissingVarsAppend state its contract. |
| App.MissingVarsMembers | src/main.py:24 | A variable is reported missing exactly when it is required and unset or empty. |
| App.MissingVarsSingle | src/main.py:24 | A single required variable is reported exactly once when it is unset or empty, and not at all otherwise. |
| App.MissingVarsAppend | src/main.py:24 | The missing variables keep the order of the required list. |
| App.HealthCareBot.constructor | src/main.py:9-46 | documentsIngested starts false. With a variable missing, engine and monitor stay None. Otherwise the engine is built when it can be, the monitor only after the engine, and a monitor failure keeps the engine. |
| App.IngestDecision | src/main.py:71-96 | Ingestion stops without an engine, before loading when the data directory is missing or empty, on a Ctrl-C once loading has begun, on a loader error, and before processing when nothing was loaded. It hands over exactly the loaded documents when all guards pass and no Ctrl-C arrives. |
| App.HealthCareBot.IngestDocuments | src/main.py:71-105 | The outcome is IngestDecision's. documentsIngested becomes true exactly when documents were handed to process_documents, even when the store refused them. The store grows by the documents only when the add succeeds. A Ctrl-C changes nothing. |
| App.HealthCareBot.ClearData | src/main.py:107-115 | The store is emptied only when the lower-cased, unstripped confirmation is "y". Otherwise it is unchanged. "y" without an engine raises. |
| App.HealthCareBot.RunInteractive | src/main.py:48-61 | It returns exit only when an engine exists and its session returned "exit". A missing engine and end of input lead back to the menu. |
| App.Dispatch | src/main.py:130-152 | The stripped choice "1" to "5" selects its option, and anything else is invalid. |
| App.MenuStep | src/main.py:130-152 | One pass of the loop, on the bot's state as a value. No pass reads past the input, a completed pass reads at least its choice, and an exception changes nothing. The lemmas below state each option. |
| App.MenuStepChoice | src/main.py:130-152 | Every completed pass read its choice from a typed line and did what the stripped line selects. An invalid pass keeps the line it rejected. Only an ingestion sets documentsIngested, and the engine is never replaced. |
| App.MenuStepRaised | src/main.py:108-142 | A pass raises only at the end of input, right after a Ctrl-C event, right after choosing option 1 with an engine (a Ctrl-C during ingestion), or right after "y" confirms a clear without an engine. |
| App.MenuStepIngest | src/main.py:132-133 | Option 1 ends as IngestDecision says, and never completes as interrupted. The store grows by the loaded documents exactly when they were handed over and the add succeeds. Feedback and queries are unchanged. A Ctrl-C during loading or adding leaves `main` with nothing changed. |
| App.MenuStepInteractive | src/main.py:134-137 | Option 2 asks to leave the loop exactly when an engine exists and its session returned "exit". With an engine, the position after the pass is where the session stopped reading, the session's feedback is appended and its queries are counted, and the store is unchanged. Without one, nothing changes and nothing more is read. |
| App.MenuStepMonitoring | src/main.py:138-152 | Option 3 reads up to two typed date lines and stops early only at the end of input, which is caught. Options 3 and 5 and an invalid choice change nothing. |
| App.MenuStepClear | src/main.py:107-147 | Option 4 reads one typed confirmation. It clears exactly when the unstripped, lower-cased line is "y", and then the store is emptied. |
| App.MenuStepGrows | src/main.py:130-152 | No pass loses recorded feedback or queries. |
| App.MenuRunEnds | src/main.py:122-152 | The loop never reads past its input. It ends normally exactly when its last pass chose "5", or "2" with a session that returned "exit", and no earlier pass stops it. |
| App.MenuRunCrash | src/main.py:108-142 | `main` crashes only at the end of input, right after a Ctrl-C event, right after choosing option 1 with an engine (a Ctrl-C during ingestion), or right after "y" confirms a clear without an engine. |
| App.MenuRun | src/main.py:122-152 | The whole loop as passes of MenuStep: it stops at the first pass that raises or asks to leave, and the k-th ingestion sees `ingests(k)`. MenuRunEnds, MenuRunCrash, MenuRunChoices and MenuRunState state its properties. |
| App.MenuRunChoices | src/main.py:122-152 | Each pass read its choice from a typed line, later than the previous pass, and did what that line selects. The first pass reads at the start. |
| App.MenuRunState | src/main.py:122-152 | The engine is never replaced, and documentsIngested records whether some pass ingested. Recorded feedback and the query count only grow. Without an engine no pass leaves the loop through option 2. |
| App.HealthCareBot.MenuTurn | src/main.py:130-152 | The pass's outcome and the bot's new state, that is engine presence, store, recorded feedback, query count and documentsIngested, are exactly MenuStep's. The engine and monitor are never replaced. |
| App.HealthCareBot.RunMenu | src/main.py:118-152 | How `main` ends, the actions of its passes, the events read and the bot's final state are exactly MenuRun's from position 0. |

## Left out

- Embeddings, the language model, the retrieval chain and similarity search are foreign services. The `Reply` oracle stands for what they do:
  - what the chain returns;
  - the run id (`uuid4`);
  - what feedback logging does;
  - whether Ctrl-C interrupts a call.
  The chain does not see the question or the metadata in the model, so RunMetadata is not connected to the replies.
- The `retriever("test")` probe (`src/rag/engine.py:144-151`) only prints a note or a warning. Only a Ctrl-C during it is modelled, through `Reply.interrupted`. That flag also covers Ctrl-C during the chain call. In both cases the query is counted as begun and takes its reply from the oracle, although after a probe interrupt `interpret_query` is never called.
- App.MenuStepRaised, App.MenuRunCrash: Ctrl-C during `clear_vectorstore` after a confirmed clear (`src/main.py:112`), and during `generate_report` (`src/main.py:66`), would leave `main`. The model has no input for it: those passes always complete. Ctrl-C during ingestion is modelled.
- App.MenuStepIngest: a Ctrl-C during ingestion leaves the store unchanged. Documents the remote store had already taken are not modelled.
- Printing, logging, traceback output, the prompt template and the tracing decorators are left out.
- `init_pinecone` and the API key are left out: the client is passed in.
- The index dimension is read from the registry rather than from `describe_index_stats`.
- Remote failures other than the refusal of the serverless spec are not modelled: a failing delete, a fallback create refused for another reason, and network errors.
- PineconeUtils.CreateNewIndex: the refused serverless attempt leaves no entry in the client's log, since the service carried out nothing.
- `RagEngine.__init__` (embeddings, vector store, language model, chain) is not modelled step by step. Whether it succeeds is an input of `HealthCareBot.constructor`, and the engine starts from a given store. Its call of `get_or_create_index` is not linked to `GetOrCreateIndex`.
- Engine.RagEngine.ProcessDocuments: a failing add is treated as adding nothing. Partial adds by the remote store are not modelled.
- Engine.RagEngine.ClearVectorstore: a failing remote delete is not modelled.
- Engine.RagEngine.RunInteractiveSession: end of input at the feedback or continue prompt is first caught by the query handler and then met again at the error prompt. The model reports both as the same `InputExhausted` end, which is the outcome the code reaches.
- `run_monitoring` and `src/monitoring/langsmith_monitor.py` are a wrapper over a remote service and `strptime`. Menu option 3 reads its two date lines: end of input there is caught, and a failing report is caught inside `run_monitoring`, so the pass continues. Ctrl-C at a date prompt leaves `main`.
- `src/data_processing/document_loader.py` and `src/config/settings.py` are not part of this model. The data-directory listing and the loader's result are independent inputs of each ingestion, because `main.py` checks `src/../data` while the loader reads `data/tmp`.
- Strings.Lower and Strings.LowerChar lower-case ASCII letters only. Python's full Unicode case mapping is not modelled.
- Python's default arguments (`recreate=True`, the index name and environment from the settings) are passed explicitly.
- `get_qa_chain` and `retriever` are accessors over foreign objects and are left out.
