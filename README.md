# Proxen turn pipeline, modelled in Dafny

Proxen is a chat-style task assistant. The user writes free text. A language
model answers with a JSON reply holding a conversational text, a list of task
actions (`add`, `complete`, `delete`, `help`) and an optional
"waiting for clarification" flag. The app applies the actions to its task list.
This project models the `App` object of `app.js`, from the moment a message is
sent to the moment the reply or an error notice joins the conversation:

- `Tasks` and `ReconcileFacts` (`tasks.dfy`, `reconcile_facts.dfy`) hold the
  task list, the parsed reply and the title matchers `findTask` and
  `findTaskIndex`. `Tasks.Reconcile` states what one reply's actions do, as a
  function on values: it is the specification of `processAIResponse`. The
  lemmas give each action's exact effect. They cover the clarification lock,
  the change-log bookkeeping and the uniqueness of ids when fresh ids are
  supplied.
- `PromptContext` (`context.dfy`) holds the hour bucket, the momentum
  guidance, and the window of the last six conversation entries that goes
  into every prompt.
- `Gateway` (`gateway.dfy`) models `callAI`. Each attempt's outcome (the
  HTTP status, the candidate, its `finishReason` and text) goes through the
  reply checks in the code's order. The code-fence cleanup runs before the
  parser. The retry loop makes at most three requests, stops on a
  400/401/403 tag, and records the back-off delays it waits.
- `ErrorNotices` (`errors.dfy`) models `handleError`'s table from an error
  tag to the notice the user sees.
- `Controller` (`controller.dfy`) models the `App` state as a class with the
  fields of `app.js:2-11`. Its methods are `processAIResponse`,
  `handleError`, `sendMessage`, `startInitialConversation`, the view choice
  of `init` and `saveApiKey`. Each method is proved against the functions
  above and states the whole new state.

The network, `JSON.parse`, the clock, the hour of the day and the random parts
of task ids are parameters. `respond(request, attempt)` gives each attempt's
outcome. `parse` stands for `JSON.parse` (RFC 8259) followed by reading the
reply's fields. `freshId(k)` gives the id of the k-th task created while
applying one reply. `hour`, `now`, `sentAt` and `repliedAt` stand for the
clock. Status codes are the 2xx–5xx classes of section 15 of RFC 9110.

Notes on the code's behaviour, which the model follows:
- The code makes 3 requests in all (`retries = 3`). It also waits the delay
  of the schedule after the third failure before it gives up.
- The code stops retrying when the error *message* contains `API_400`,
  `API_401` or `API_403` anywhere, not only in the tag.
- Only `API_500` and `API_503` get the service notice. Other 5xx statuses,
  like any unknown tag, get the connection notice.
- `startInitialConversation` adds only the greeting's text. It applies
  neither the greeting's actions nor its clarification flag.
- A failed reply whose body is the JSON `null` makes reading its error field
  throw a `TypeError` with no tag. So a 401 or 403 with such a body is
  retried like a dropped connection and ends with the connection notice.

## Model

| member | source | states |
|---|---|---|
| Tasks.FindTask | app.js:1151-1156 | the matched position, when there is one, is a position of the list |
| Tasks.FindTaskIndex | app.js:1158-1162 | the result is -1 or a position of the list |
| Tasks.CompleteTarget | app.js:1151-1156 | a blank hint matches nothing; otherwise the first exact (case-folded) title match wins, and with no exact match the result is the first title containing the hint |
| Tasks.DeleteTarget | app.js:1158-1162 | a blank hint gives -1; otherwise the result is the first title containing the hint, and -1 exactly when no title contains it |
| Tasks.ActiveCount | app.js:873 | the number of open tasks is at most the length of the list |
| Tasks.HelpTasks | app.js:1111-1121 | a `help` action creates one task per step |
| Tasks.Reconcile | app.js:1080-1132 | when the lock is set, the tasks and the counter are unchanged and the change log is empty |
| ReconcileFacts.CompleteEffect | app.js:1093-1100 | `complete` changes only the matched task's `completed`/`completedAt`, adds exactly 1 to the counter and logs the title, and does so only when that task was open; otherwise nothing changes |
| ReconcileFacts.CompletedExactMatchBlocksComplete | app.js:1093-1100 | a completed task that matches exactly makes `complete` a no-op, even when a later open task contains the hint |
| ReconcileFacts.DeleteEffect | app.js:1102-1108 | `delete` removes exactly the matched task; the others keep their order and fields; with no match nothing changes |
| ReconcileFacts.AddEffect | app.js:1082-1091 | `add` appends one open task at the end, with the fresh id and notes defaulting to empty, and logs one `added` entry |
| ReconcileFacts.HelpTasksAt | app.js:1111-1120 | the k-th task of a `help` action has the k-th step as its title, the note `Step k+1`, the k-th fresh id and is open |
| ReconcileFacts.HelpEffect | app.js:1110-1122 | `help` without steps changes nothing; with n steps it appends n tasks in step order and logs n `added` entries |
| ReconcileFacts.OtherEffect | app.js:1081-1122 | an action of an unknown type changes nothing |
| ReconcileFacts.ApplyAllBalances | app.js:1081-1123 | over any sequence of actions, the list grows by the `added` entries less the `deleted` ones, and the counter by the `completed` ones |
| ReconcileFacts.ReconcileAccounts | app.js:1078-1123 | the change log of a reply accounts exactly for the change in list length and in the day's counter |
| ReconcileFacts.ApplyAllKeepsIdsUnique | app.js:1084-1119 | when the supplied ids are fresh, the ids of the list stay pairwise distinct after any sequence of actions |
| ReconcileFacts.EssayHintLookups | app.js:1151-1162 | with titles "Write essay draft" and "Write essay" and the hint "write essay", `findTask` gives position 1 and `findTaskIndex` gives 0 |
| ReconcileFacts.EssayHintScenario | app.js:1093-1108 | so `complete` marks the second task while `delete` removes the first |
| ReconcileFacts.AddScenario | app.js:1082-1091 | adding "Write the essay" to an empty, unlocked list gives exactly that open task and one `added` entry |
| ReconcileFacts.HelpScenario | app.js:1110-1121 | three steps give three tasks noted "Step 1", "Step 2", "Step 3", in order and with distinct ids |
| PromptContext.TimeBuckets | app.js:862-869 | the hours [0,6), [6,12), [12,17), [17,21) and [21,24) map one-to-one onto the five labels |
| PromptContext.MomentumCases | app.js:871-889 | each momentum case holds exactly under its own condition with all earlier conditions false (strong, overwhelming, fresh, late night, not started, normal) |
| PromptContext.VeryLateMeansAfterMidnight | app.js:862-889 | late-night guidance only happens in the after-midnight bucket (the `hour > 23` test is dead) |
| PromptContext.MomentumExamples | app.js:876-879 | 3 completions with 2 open tasks give strong momentum; 0 completions with 9 open tasks give the overload guidance |
| PromptContext.RecentWindow | app.js:902-903 | the window is the last min(6, n) entries of the conversation |
| PromptContext.WindowSlides | app.js:902-903 | appending an entry adds it at the end of the window and, once the window is full, drops the oldest |
| PromptContext.RecentContextEndsWithLast | app.js:902-905 | the context text ends with the newest entry's `User:`/`Assistant:` line |
| PromptContext.RecentContextLines | app.js:902-905 | with single-line messages, the context has one line per entry of the window |
| Gateway.Prepare | app.js:971-977 | the text handed to the parser has no whitespace at either end |
| Gateway.UnfencedUnchanged | app.js:971-977 | text that does not open with a fence reaches the parser unchanged apart from the trim |
| Gateway.FenceRoundTrip | app.js:971-977 | a body wrapped in a leading fence (with or without `json`) and a closing fence reaches the parser as the bare body |
| Gateway.Validate | app.js:936-986 | an accepted reply came with a 2xx status and has a non-empty conversational response |
| Gateway.CheckOrder | app.js:936-986 | the checks run in order: status, candidate present, safety block (before the text check), text present, parse, non-empty response field |
| Gateway.StatusTagIsApiStatus | app.js:940-950 | every failed status gives the tag `API_<status>`, seven characters before the first `|` |
| Gateway.TagInjective | app.js:940-950 | distinct statuses give distinct tags |
| Gateway.FatalIffAuthOrBadRequest | app.js:993-996 | a failed status stops the retries exactly when it is 400, 401 or 403, provided the server's message names none of those tags |
| Gateway.RunCharacterization | app.js:891-1008 | between 1 and 3 requests; every request before the last failed non-fatally; the call returns the last request's result; fewer than 3 requests means success or a fatal error; the waits are the schedule's first delays, one per non-fatal failure |
| Gateway.Retry | app.js:891-1008 | the loop returns what the retry specification gives, with the same attempts, result and waits as above |
| Gateway.CallAI | app.js:891-1008 | every attempt sends the same request, built from the state and the message; an accepted result has a non-empty conversational response |
| Gateway.AcceptedHasReply | app.js:982-986 | any accepted attempt carries a non-empty conversational response |
| Gateway.OutageExhaustsRetries | app.js:891-1007 | a non-2xx status other than 400/401/403 (404, 429, 5xx) on every request gives 3 requests, waits of 1000, 2000 and 4000 ms, and that status's error |
| Gateway.EveryAttemptFails | app.js:895-1007 | the same non-fatal error on every attempt uses up all three requests and all three delays |
| Gateway.BadKeyFailsFast | app.js:942-996 | a 401 or 403 on the first request ends the call after one request, with no wait |
| Gateway.RecoversAfterNetworkError | app.js:895-1002 | a dropped connection and then a good reply give two requests, one 1000 ms wait, and the reply |
| ErrorNotices.StatusNotice | app.js:1016-1054 | the notice for a failed status: 400 format, 401/403 key, 429 rate limit, 500/503 service, every other status the connection notice |
| ErrorNotices.TaggedNotice | app.js:1017-1019 | a message made of a tag, a pipe character and a detail is classified by the tag alone |
| ErrorNotices.CheckNotices | app.js:1038-1050 | the reply-check errors get their own notices whatever their detail text |
| ErrorNotices.UntaggedNotice | app.js:1051-1053 | a message with no pipe character that is not a known tag gets the connection notice |
| ErrorNotices.NullBodyKeyRejection | app.js:936-1007 | a 401 or 403 whose body is the JSON `null` on every request gives 3 requests, all three waits and the TypeError's message, which gets the connection notice |
| ErrorNotices.FatalStatusNotices | app.js:993-1028 | the statuses that stop the retries are exactly those whose notice asks to fix the request or the key |
| Text.TrimEmpty | app.js:629-630 | the input trims to nothing exactly when it is all whitespace |
| Text.ContainsIffOccurs | app.js:1155 | `includes` holds exactly when the hint occurs at some position of the title |
| Text.FieldBeforeJoined | app.js:1017 | splitting a text, a pipe character and more text at the first pipe gives back the first text when it has no pipe |
| Controller.StartView | app.js:65-77 | no key gives the landing view; a key without a name gives the name view; both give the workspace |
| Controller.AcceptApiKey | app.js:170-175 | a key is accepted exactly when its trimmed form is at least 20 characters long, and the trimmed form is what is kept |
| Controller.AcceptedKeyStable | app.js:170-178 | an accepted key has no surrounding whitespace, and entering it again keeps it the same |
| Controller.SentMessageClosesContext | app.js:634-653 | since the user entry is pushed before the call, the request's recent context ends with `User: <message>` |
| Controller.App.constructor | app.js:2-11 | the initial state: landing view, no key or name, empty lists, counter 0, not waiting |
| Controller.App.AddSteps | app.js:1111-1121 | the `help` loop appends exactly the step tasks and `added` entries; nothing else changes |
| Controller.App.Perform | app.js:1081-1122 | one action changes the tasks, counter and change log as the specification function says; nothing else changes |
| Controller.App.ProcessAIResponse | app.js:1071-1149 | the flag is overwritten only when the reply carries it; tasks and counter become the result of Reconcile under the new lock (unchanged while locked); the reply text is appended if non-empty; the interaction time is set; ids stay unique |
| Controller.App.HandleError | app.js:1010-1068 | exactly one error-flagged entry with the tag's notice is appended; nothing else changes |
| Controller.App.SendMessage | app.js:628-667 | whitespace-only input changes nothing; otherwise the user entry is appended before the call; on success the reply is reconciled; on failure the tasks, counter, lock and time are untouched and one error entry follows |
| Controller.App.Deliver | app.js:632-666 | the non-empty branch of sendMessage: user entry, then the call, then reconciliation or the error notice |
| Controller.App.StartInitialConversation | app.js:586-626 | the greeting's text is appended if non-empty, or the error notice on failure; tasks, counter and lock are untouched |
| Controller.App.Init | app.js:65-77 | the first view follows StartView; the greeting is requested exactly in the workspace with an empty conversation, and then the conversation becomes exactly the greeting's text or the error notice of that call |
| Controller.App.SaveApiKey | app.js:169-180 | an accepted key is stored and the name view shown; a rejected one changes nothing |

## Left out

- Rendering and UI: view transitions, modals, the task drawer, suggestion panels, `addMessageToTimeline`, `restoreConversation`, `setStatus` and its 3-second reset timer, the typing indicator and the setup overlay. These are presentation only.
- `loadState`, `saveState` and `reset`. These are localStorage persistence of the whole state; every `saveState()` call is an opaque side effect that is not modelled.
- `runAPITest`. It is a diagnostic dialog that makes live calls, outside the turn pipeline.
- The fixed wording of `getSystemPrompt` and of the prompt frame. Only the parts that vary are modelled, as fields of `Gateway.Request`. The model endpoint URL and the generation settings are constants of the request and are not modelled.
- `fetch`, `res.json()`, `JSON.parse`, `setTimeout`, `Date` and `Math.random` are foreign or nondeterministic. They are parameters. A wait is recorded as its delay in milliseconds.
- Controller.App.SendMessage: one turn finishes before the next starts. In the code the input field stays enabled while a call is in progress, and the Enter key checks only that the text is non-empty. So a second `sendMessage` can start while the first is still retrying. Overlapping turns, with their interleaved history pushes and reconciliations, are not modelled.
- Gateway.CallAI: the hour is one parameter for the whole call, but the code reads the clock again at each attempt.
- Controller.App.ProcessAIResponse: every `Date.now()` and `new Date()` within one reply is the single instant `now`. `createdAt`/`completedAt` are ISO strings in the code and instants here.
- Controller.App.ProcessAIResponse: a reply whose fields have the wrong JSON type is not modelled. Examples are a non-string title, a non-array `steps`, or a non-boolean clarification flag. Such replies can throw part-way through the actions in the code and leave earlier actions applied. The parsed reply here has typed fields.
- Tasks.FindTask: `toLowerCase` folds only the ASCII letters here. Full Unicode case mapping is not modelled.
- Task ids come from the caller as `freshId`. The code's clock-plus-random ids are unique only with high probability, so uniqueness is proved under the assumption that the supplied ids are fresh.
- `console` logging and the technical-detail string of `handleError`, which goes only to the console.
- sw.js is not part of this model. It is service-worker caching of the app's files.
