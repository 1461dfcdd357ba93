/** The `App` object: its `state`, and the operations that change it in
    place — the start-up view choice, saving the API key, the opening
    greeting, sending a message, applying a reply and reporting an error.
    Rendering, persistence and timers are not part of this model. */
module Controller {
  import opened Wrappers
  import opened Text
  import opened Tasks
  import opened PromptContext
  import opened Gateway
  import opened ErrorNotices
  import opened ReconcileFacts

  /** `currentView`: the four screens. */
  datatype View = Landing | ApiKeyView | NameView | Workspace

  /** A stored string the app treats as set: present and not empty. */
  predicate Present(s: Option<string>)
  {
    s.Some? && s.value != ""
  }

  /** `init`'s choice of the first screen: no key means the landing
      screen, a key without a name the name screen, both the workspace. */
  function StartView(apiKey: Option<string>, userName: Option<string>): (v: View)
    ensures v == Landing <==> !Present(apiKey)
    ensures v == NameView <==> Present(apiKey) && !Present(userName)
    ensures v == Workspace <==> Present(apiKey) && Present(userName)
  {
    if !Present(apiKey) then Landing
    else if !Present(userName) then NameView
    else Workspace
  }

  const MinKeyLength: nat := 20

  /** `saveApiKey`'s rule: the trimmed input is kept when it is non-empty
      and at least twenty characters long. */
  function AcceptApiKey(input: string): (r: Option<string>)
    ensures r.Some? <==> |Trim(input)| >= MinKeyLength
    ensures r.Some? ==> r.value == Trim(input)
  {
    var key := Trim(input);
    if key == [] || |key| < MinKeyLength then None else Some(key)
  }

  /** A saved key is saved unchanged when entered again: it has no
      whitespace at its ends and is long enough. */
  lemma AcceptedKeyStable(input: string)
    requires AcceptApiKey(input).Some?
    ensures Trimmed(AcceptApiKey(input).value)
    ensures AcceptApiKey(AcceptApiKey(input).value) == AcceptApiKey(input)
  {
    TrimIdempotent(input);
  }

  /** The message `startInitialConversation` sends; `${null}` renders as
      `null`. */
  function Greeting(userName: Option<string>): string
  {
    "The user just opened the application. Their name is "
    + (if userName.Some? then userName.value else "null")
    + ". Give a natural greeting and ask what needs doing. Be slightly dry but warm. 2-3 sentences."
  }

  /** The entry a reply adds to the conversation: its text, when there is one. */
  function ReplyEntries(response: Response, now: Timestamp): seq<Entry>
  {
    if response.conversationalResponse != "" then [Entry(response.conversationalResponse, Assistant, now, false)] else []
  }

  /** What a finished call adds to the conversation: the reply's text, or
      the notice for the error, marked as an error. */
  function CallEntries(result: Result<Response>, now: Timestamp): seq<Entry>
  {
    if result.Ok? then ReplyEntries(result.value, now) else [Entry(UserMessage(result.error), Assistant, now, true)]
  }

  /** The entry `sendMessage` adds for what the user typed. */
  function UserEntry(message: string, now: Timestamp): Entry
  {
    Entry(message, User, now, false)
  }

  /** The request of a message always carries that message as the last
      line of its recent conversation. */
  lemma SentMessageClosesContext(history: seq<Entry>, message: string, now: Timestamp)
    ensures EndsWith(RecentContext(history + [UserEntry(message, now)]), "User: " + message)
  {
    var e := UserEntry(message, now);
    var h := history + [e];
    RecentContextEndsWithLast(h);
    assert h[|h| - 1] == e;
    assert Line(e) == "User" + ": " + message;
    assert "User" + ": " == "User: ";
  }

  class App {
    var currentView: View
    var apiKey: Option<string>
    var userName: Option<string>
    var tasks: seq<Task>
    var conversationHistory: seq<Entry>
    var lastInteractionTime: Option<Timestamp>
    var completedToday: nat
    var isWaitingForClarification: bool

    /** The initial `state`. */
    constructor ()
      ensures currentView == Landing && apiKey == None && userName == None
      ensures tasks == [] && conversationHistory == [] && lastInteractionTime == None
      ensures completedToday == 0 && !isWaitingForClarification
    {
      currentView := Landing;
      apiKey := None;
      userName := None;
      tasks := [];
      conversationHistory := [];
      lastInteractionTime := None;
      completedToday := 0;
      isWaitingForClarification := false;
    }

    /** One `help` action: a task per step, in step order, each taking the
        next fresh id and the note `Step n`. */
    method AddSteps(steps: seq<string>, freshId: nat -> TaskId, now: Timestamp, created: nat, changes: seq<Change>)
      returns (created': nat, changes': seq<Change>)
      modifies this
      ensures tasks == old(tasks) + HelpTasks(steps, created, freshId, now)
      ensures created' == created + |steps|
      ensures changes' == changes + HelpChanges(steps)
      ensures completedToday == old(completedToday)
      ensures currentView == old(currentView) && apiKey == old(apiKey) && userName == old(userName)
      ensures conversationHistory == old(conversationHistory) && lastInteractionTime == old(lastInteractionTime)
      ensures isWaitingForClarification == old(isWaitingForClarification)
    {
      created' := created;
      changes' := changes;
      var j := 0;
      while j < |steps|
        invariant 0 <= j <= |steps|
        invariant tasks == old(tasks) + HelpTasks(steps[..j], created, freshId, now)
        invariant created' == created + j
        invariant changes' == changes + HelpChanges(steps[..j])
        invariant completedToday == old(completedToday)
        invariant currentView == old(currentView) && apiKey == old(apiKey) && userName == old(userName)
        invariant conversationHistory == old(conversationHistory) && lastInteractionTime == old(lastInteractionTime)
        invariant isWaitingForClarification == old(isWaitingForClarification)
      {
        assert steps[..j + 1][..j] == steps[..j];
        tasks := tasks + [NewTask(freshId(created'), steps[j], StepNote(j), now)];
        changes' := changes' + [Added(steps[j])];
        created' := created' + 1;
        j := j + 1;
      }
      assert steps[..j] == steps;
    }

    /** One iteration of the `forEach` over a reply's actions. */
    method Perform(a: Action, freshId: nat -> TaskId, now: Timestamp, created: nat, changes: seq<Change>)
      returns (created': nat, changes': seq<Change>)
      modifies this
      ensures Ledger(tasks, completedToday, created', changes')
        == Apply(Ledger(old(tasks), old(completedToday), created, changes), a, freshId, now)
      ensures currentView == old(currentView) && apiKey == old(apiKey) && userName == old(userName)
      ensures conversationHistory == old(conversationHistory) && lastInteractionTime == old(lastInteractionTime)
      ensures isWaitingForClarification == old(isWaitingForClarification)
    {
      created' := created;
      changes' := changes;
      match a
      case Add(title, notes) =>
        tasks := tasks + [NewTask(freshId(created), title, NotesOrEmpty(notes), now)];
        changes' := changes + [Added(title)];
        created' := created + 1;
      case Complete(hint) =>
        var found := FindTask(tasks, hint);
        if found.Some? && !tasks[found.value].completed {
          var i := found.value;
          changes' := changes + [Completed(tasks[i].title)];
          tasks := tasks[i := MarkCompleted(tasks[i], now)];
          completedToday := completedToday + 1;
        }
      case Delete(hint) =>
        var i := FindTaskIndex(tasks, hint);
        if i > -1 {
          var deleted := tasks[i];
          tasks := RemoveAt(tasks, i);
          changes' := changes + [Deleted(deleted.title)];
        }
      case Help(steps) =>
        if steps.Some? {
          created', changes' := AddSteps(steps.value, freshId, now, created, changes);
        }
      case Other =>
    }

    /** `processAIResponse(data)`: take the clarification flag when the
        reply carries one; unless the app is then waiting for clarification,
        apply the actions in order; add the reply's text to the
        conversation; stamp the interaction time. Returns the change log. */
    method ProcessAIResponse(data: Response, freshId: nat -> TaskId, now: Timestamp) returns (changes: seq<Change>)
      modifies this
      ensures isWaitingForClarification == Lock(old(isWaitingForClarification), data.isWaitingForClarification)
      ensures
        var l := Reconcile(old(tasks), old(completedToday), isWaitingForClarification, data.actions, freshId, now);
        tasks == l.tasks && completedToday == l.completedToday && changes == l.changes
      ensures conversationHistory == old(conversationHistory) + ReplyEntries(data, now)
      ensures lastInteractionTime == Some(now)
      ensures currentView == old(currentView) && apiKey == old(apiKey) && userName == old(userName)
      ensures UniqueIds(old(tasks)) && FreshFrom(freshId, old(tasks), 0) ==> UniqueIds(tasks)
    {
      if data.isWaitingForClarification.Some? {
        isWaitingForClarification := data.isWaitingForClarification.value;
      }
      changes := [];
      ghost var start := Ledger(tasks, completedToday, 0, []);
      if !isWaitingForClarification {
        var created := 0;
        var k := 0;
        while k < |data.actions|
          invariant 0 <= k <= |data.actions|
          invariant Ledger(tasks, completedToday, created, changes) == ApplyAll(start, data.actions[..k], freshId, now)
          invariant currentView == old(currentView) && apiKey == old(apiKey) && userName == old(userName)
          invariant conversationHistory == old(conversationHistory)
          invariant isWaitingForClarification == Lock(old(isWaitingForClarification), data.isWaitingForClarification)
        {
          assert data.actions[..k + 1][..k] == data.actions[..k];
          created, changes := Perform(data.actions[k], freshId, now, created, changes);
          k := k + 1;
        }
        assert data.actions[..k] == data.actions;
        if UniqueIds(start.tasks) && FreshFrom(freshId, start.tasks, 0) {
          ApplyAllKeepsIdsUnique(start, data.actions, freshId, now);
        }
      }
      if data.conversationalResponse != "" {
        conversationHistory := conversationHistory + [Entry(data.conversationalResponse, Assistant, now, false)];
      }
      lastInteractionTime := Some(now);
    }

    /** `handleError(error)`: the notice for the error's message is added
        to the conversation, marked as an error. */
    method HandleError(message: string, now: Timestamp)
      modifies this
      ensures conversationHistory == old(conversationHistory) + [Entry(UserMessage(message), Assistant, now, true)]
      ensures tasks == old(tasks) && completedToday == old(completedToday)
      ensures isWaitingForClarification == old(isWaitingForClarification) && lastInteractionTime == old(lastInteractionTime)
      ensures currentView == old(currentView) && apiKey == old(apiKey) && userName == old(userName)
    {
      conversationHistory := conversationHistory + [Entry(UserMessage(message), Assistant, now, true)];
    }

    /** `sendMessage()`: an input that trims to nothing is ignored;
        otherwise the trimmed text is delivered. `None` when nothing was
        sent. */
    method SendMessage(input: string, respond: (Request, nat) -> Outcome, parse: string -> ParseOutcome,
                       freshId: nat -> TaskId, hour: Hour, sentAt: Timestamp, repliedAt: Timestamp) returns (v: Option<Verdict>)
      modifies this
      ensures v.None? <==> Trim(input) == []
      ensures v.None? ==> conversationHistory == old(conversationHistory) && tasks == old(tasks)
      ensures v.None? ==> completedToday == old(completedToday) && lastInteractionTime == old(lastInteractionTime)
      ensures v.None? ==> isWaitingForClarification == old(isWaitingForClarification)
      ensures v.Some? ==>
        v.value == Run(Attempts(respond, parse, Ask(old(apiKey), old(userName), old(tasks), old(completedToday), hour, old(conversationHistory) + [UserEntry(Trim(input), sentAt)], Trim(input))), 0, "", [])
      ensures v.Some? ==>
        conversationHistory == old(conversationHistory) + [UserEntry(Trim(input), sentAt)] + CallEntries(v.value.result, repliedAt)
      ensures v.Some? && v.value.result.Ok? ==>
        && isWaitingForClarification == Lock(old(isWaitingForClarification), v.value.result.value.isWaitingForClarification)
        && tasks == Reconcile(old(tasks), old(completedToday), isWaitingForClarification, v.value.result.value.actions, freshId, repliedAt).tasks
        && completedToday == Reconcile(old(tasks), old(completedToday), isWaitingForClarification, v.value.result.value.actions, freshId, repliedAt).completedToday
        && lastInteractionTime == Some(repliedAt)
      ensures v.Some? && v.value.result.Err? ==>
        && tasks == old(tasks) && completedToday == old(completedToday)
        && isWaitingForClarification == old(isWaitingForClarification)
        && lastInteractionTime == old(lastInteractionTime)
      ensures currentView == old(currentView) && apiKey == old(apiKey) && userName == old(userName)
    {
      var message := Trim(input);
      if message == [] {
        return None;
      }
      var verdict := Deliver(message, respond, parse, freshId, hour, sentAt, repliedAt);
      v := Some(verdict);
    }

    /** The rest of `sendMessage()` once the message is known to be
        non-empty: the message joins the conversation and is sent; a reply
        is applied, an error reported. */
    method Deliver(message: string, respond: (Request, nat) -> Outcome, parse: string -> ParseOutcome,
                   freshId: nat -> TaskId, hour: Hour, sentAt: Timestamp, repliedAt: Timestamp) returns (v: Verdict)
      modifies this
      ensures v == Run(Attempts(respond, parse, Ask(old(apiKey), old(userName), old(tasks), old(completedToday), hour, old(conversationHistory) + [UserEntry(message, sentAt)], message)), 0, "", [])
      ensures conversationHistory == old(conversationHistory) + [UserEntry(message, sentAt)] + CallEntries(v.result, repliedAt)
      ensures v.result.Ok? ==>
        && isWaitingForClarification == Lock(old(isWaitingForClarification), v.result.value.isWaitingForClarification)
        && tasks == Reconcile(old(tasks), old(completedToday), isWaitingForClarification, v.result.value.actions, freshId, repliedAt).tasks
        && completedToday == Reconcile(old(tasks), old(completedToday), isWaitingForClarification, v.result.value.actions, freshId, repliedAt).completedToday
        && lastInteractionTime == Some(repliedAt)
      ensures v.result.Err? ==>
        && tasks == old(tasks) && completedToday == old(completedToday)
        && isWaitingForClarification == old(isWaitingForClarification)
        && lastInteractionTime == old(lastInteractionTime)
      ensures currentView == old(currentView) && apiKey == old(apiKey) && userName == old(userName)
    {
      conversationHistory := conversationHistory + [UserEntry(message, sentAt)];
      v := CallAI(apiKey, userName, tasks, completedToday, hour, conversationHistory, message, respond, parse);
      if v.result.Ok? {
        var _ := ProcessAIResponse(v.result.value, freshId, repliedAt);
      } else {
        HandleError(v.result.error, repliedAt);
      }
    }

    /** `startInitialConversation()`: the greeting request is sent; its
        text, when there is one, joins the conversation. Its actions and
        clarification flag are not applied. A failure is reported like any
        other. */
    method StartInitialConversation(respond: (Request, nat) -> Outcome, parse: string -> ParseOutcome, hour: Hour, now: Timestamp)
      returns (v: Verdict)
      modifies this
      ensures v == Run(Attempts(respond, parse, Ask(old(apiKey), old(userName), old(tasks), old(completedToday), hour, old(conversationHistory), Greeting(old(userName)))), 0, "", [])
      ensures conversationHistory == old(conversationHistory) + CallEntries(v.result, now)
      ensures tasks == old(tasks) && completedToday == old(completedToday)
      ensures isWaitingForClarification == old(isWaitingForClarification) && lastInteractionTime == old(lastInteractionTime)
      ensures currentView == old(currentView) && apiKey == old(apiKey) && userName == old(userName)
    {
      var message := Greeting(userName);
      v := CallAI(apiKey, userName, tasks, completedToday, hour, conversationHistory, message, respond, parse);
      if v.result.Ok? {
        var greeting := v.result.value;
        if greeting.conversationalResponse != "" {
          conversationHistory := conversationHistory + [Entry(greeting.conversationalResponse, Assistant, now, false)];
        }
      } else {
        HandleError(v.result.error, now);
      }
    }

    /** The start-up part of `init()` after the state is loaded: show the
        first screen; in the workspace with an empty conversation, ask for
        the greeting. `None` when no greeting was asked for. */
    method Init(respond: (Request, nat) -> Outcome, parse: string -> ParseOutcome, hour: Hour, now: Timestamp)
      returns (v: Option<Verdict>)
      modifies this
      ensures currentView == StartView(old(apiKey), old(userName))
      ensures v.Some? <==> currentView == Workspace && old(conversationHistory) == []
      ensures v.Some? ==>
        v.value == Run(Attempts(respond, parse, Ask(old(apiKey), old(userName), old(tasks), old(completedToday), hour, [], Greeting(old(userName)))), 0, "", [])
      ensures v.Some? ==> conversationHistory == CallEntries(v.value.result, now)
      ensures v.None? ==> conversationHistory == old(conversationHistory)
      ensures tasks == old(tasks) && completedToday == old(completedToday)
      ensures isWaitingForClarification == old(isWaitingForClarification) && lastInteractionTime == old(lastInteractionTime)
      ensures apiKey == old(apiKey) && userName == old(userName)
    {
      currentView := StartView(apiKey, userName);
      if currentView == Workspace && |conversationHistory| == 0 {
        ghost var req := Ask(apiKey, userName, tasks, completedToday, hour, conversationHistory, Greeting(userName));
        assert conversationHistory == [];
        assert req == Ask(old(apiKey), old(userName), old(tasks), old(completedToday), hour, [], Greeting(old(userName)));
        var greeting := StartInitialConversation(respond, parse, hour, now);
        assert greeting == Run(Attempts(respond, parse, req), 0, "", []);
        assert conversationHistory == [] + CallEntries(greeting.result, now) == CallEntries(greeting.result, now);
        v := Some(greeting);
      } else {
        v := None;
      }
    }

    /** `saveApiKey()`: an accepted key is stored and the name screen
        shown; a rejected one changes nothing. */
    method SaveApiKey(input: string) returns (accepted: bool)
      modifies this
      ensures accepted <==> AcceptApiKey(input).Some?
      ensures accepted ==> apiKey == AcceptApiKey(input) && currentView == NameView
      ensures !accepted ==> apiKey == old(apiKey) && currentView == old(currentView)
      ensures userName == old(userName) && tasks == old(tasks) && conversationHistory == old(conversationHistory)
      ensures completedToday == old(completedToday) && lastInteractionTime == old(lastInteractionTime)
      ensures isWaitingForClarification == old(isWaitingForClarification)
    {
      var key := Trim(input);
      if key == [] || |key| < MinKeyLength {
        return false;
      }
      apiKey := Some(key);
      currentView := NameView;
      accepted := true;
    }
  }
}
