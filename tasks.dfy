/** The task list, the structured reply the model sends, the two title
    matchers (`findTask`, `findTaskIndex`) and the meaning of applying one
    reply's actions to the list (the body of `processAIResponse`), stated as
    functions on values. The class in the Controller module runs the same
    steps in place and is proved equal to these functions. */
module Tasks {
  import opened Wrappers
  import opened Text

  /** Milliseconds since the epoch; the ISO strings of `createdAt` and
      `completedAt` name such an instant too. */
  type Timestamp = int

  /** An opaque task id. The app builds it from the clock and `Math.random`,
      so it is supplied from outside here. */
  type TaskId = string

  datatype Task = Task(
    id: TaskId,
    title: string,
    notes: string,
    completed: bool,
    createdAt: Timestamp,
    completedAt: Option<Timestamp>)

  /** One element of the reply's `actions` array. `Other` stands for any
      element whose `type` is none of the four the app knows. */
  datatype Action =
    | Add(title: string, notes: Option<string>)
    | Complete(idMatch: Option<string>)
    | Delete(idMatch: Option<string>)
    | Help(steps: Option<seq<string>>)
    | Other

  /** The parsed reply. A missing or non-array `actions` field is the empty
      sequence: the app skips both alike. */
  datatype Response = Response(
    conversationalResponse: string,
    actions: seq<Action>,
    isWaitingForClarification: Option<bool>)

  /** One entry of the change log (`taskChanges`). */
  datatype Change = Added(description: string) | Completed(description: string) | Deleted(description: string)

  /** The number of tasks not yet completed (`tasks.filter(t => !t.completed).length`). */
  function ActiveCount(tasks: seq<Task>): (n: nat)
    ensures n <= |tasks|
  {
    if tasks == [] then 0
    else ActiveCount(tasks[..|tasks| - 1]) + (if tasks[|tasks| - 1].completed then 0 else 1)
  }

  // ---------------------------------------------------------------------
  // Matching a hint against task titles

  /** A hint the app treats as missing (`!titleSnippet`): absent or empty. */
  predicate Blank(hint: Option<string>)
  {
    hint.None? || hint.value == ""
  }

  predicate TitleIs(t: Task, lower: string)
  {
    Lower(t.title) == lower
  }

  predicate TitleHas(t: Task, lower: string)
  {
    Contains(Lower(t.title), lower)
  }

  /** `Array.prototype.find` / `findIndex`: the first position whose task
      satisfies `p`, or none. */
  function FirstWhere(tasks: seq<Task>, p: Task -> bool): (r: Option<nat>)
    ensures r.Some? ==> r.value < |tasks| && p(tasks[r.value])
    ensures r.Some? ==> forall j :: 0 <= j < r.value ==> !p(tasks[j])
    ensures r.None? ==> forall j :: 0 <= j < |tasks| ==> !p(tasks[j])
  {
    if tasks == [] then None
    else if p(tasks[0]) then Some(0)
    else match FirstWhere(tasks[1..], p)
      case None => None
      case Some(i) => Some(i + 1)
  }

  /** `findTask`: the first task whose lower-cased title equals the
      lower-cased hint, otherwise the first whose title contains it. The
      result is a position, standing for the task object the app mutates. */
  function FindTask(tasks: seq<Task>, hint: Option<string>): (r: Option<nat>)
    ensures r.Some? ==> r.value < |tasks|
  {
    if Blank(hint) then None
    else
      var lower := Lower(hint.value);
      match FirstWhere(tasks, t => TitleIs(t, lower))
      case Some(i) => Some(i)
      case None => FirstWhere(tasks, t => TitleHas(t, lower))
  }

  /** `findTaskIndex`: the first task whose title contains the hint, or -1. */
  function FindTaskIndex(tasks: seq<Task>, hint: Option<string>): (r: int)
    ensures -1 <= r < |tasks|
  {
    if Blank(hint) then -1
    else
      var lower := Lower(hint.value);
      match FirstWhere(tasks, t => TitleHas(t, lower))
      case Some(i) => i
      case None => -1
  }

  /** Complete's target: with a non-blank hint, the first exact title match
      wins; only when no title is equal does the first containing title
      win. A blank hint matches nothing. */
  lemma CompleteTarget(tasks: seq<Task>, hint: Option<string>)
    ensures Blank(hint) ==> FindTask(tasks, hint) == None
    ensures !Blank(hint) && (exists j :: 0 <= j < |tasks| && TitleIs(tasks[j], Lower(hint.value))) ==>
      var r := FindTask(tasks, hint);
      && r.Some?
      && TitleIs(tasks[r.value], Lower(hint.value))
      && forall j :: 0 <= j < r.value ==> !TitleIs(tasks[j], Lower(hint.value))
    ensures !Blank(hint) && (forall j :: 0 <= j < |tasks| ==> !TitleIs(tasks[j], Lower(hint.value))) ==>
      FindTask(tasks, hint) == if FindTaskIndex(tasks, hint) == -1 then None else Some(FindTaskIndex(tasks, hint))
  {
    if !Blank(hint) {
      var lower := Lower(hint.value);
      var p := t => TitleIs(t, lower);
      match FirstWhere(tasks, p)
      case Some(i) =>
      case None =>
        assert forall j :: 0 <= j < |tasks| ==> !p(tasks[j]);
    }
  }

  /** Delete's target: the first task whose title contains a non-blank
      hint; -1 when there is none or the hint is blank. */
  lemma DeleteTarget(tasks: seq<Task>, hint: Option<string>)
    ensures Blank(hint) ==> FindTaskIndex(tasks, hint) == -1
    ensures !Blank(hint) ==>
      var i := FindTaskIndex(tasks, hint);
      && (i == -1 <==> forall j :: 0 <= j < |tasks| ==> !TitleHas(tasks[j], Lower(hint.value)))
      && (i >= 0 ==> TitleHas(tasks[i], Lower(hint.value)))
      && (i >= 0 ==> forall j :: 0 <= j < i ==> !TitleHas(tasks[j], Lower(hint.value)))
  {
    if !Blank(hint) {
      var lower := Lower(hint.value);
      var p := t => TitleHas(t, lower);
      match FirstWhere(tasks, p)
      case Some(i) =>
        assert p(tasks[i]);
      case None =>
        assert forall j :: 0 <= j < |tasks| ==> !p(tasks[j]);
    }
  }

  // ---------------------------------------------------------------------
  // Applying actions

  /** What one pass of the reconciler has produced so far: the task list,
      the day's completion counter, how many tasks this reply has created
      (the index of the next fresh id) and the change log. */
  datatype Ledger = Ledger(tasks: seq<Task>, completedToday: nat, created: nat, changes: seq<Change>)

  function NewTask(id: TaskId, title: string, notes: string, now: Timestamp): Task
  {
    Task(id, title, notes, false, now, None)
  }

  /** `action.notes || ''`. */
  function NotesOrEmpty(notes: Option<string>): string
  {
    if notes.Some? then notes.value else ""
  }

  /** The note of the step at zero-based position `k`: `Step ${k + 1}`. */
  function StepNote(k: nat): string
  {
    "Step " + NatToString(k + 1)
  }

  /** The tasks a `help` action appends, one per step in step order; the
      step at position k gets the fresh id `freshId(base + k)`. */
  function HelpTasks(steps: seq<string>, base: nat, freshId: nat -> TaskId, now: Timestamp): (r: seq<Task>)
    ensures |r| == |steps|
  {
    if steps == [] then []
    else
      var k := |steps| - 1;
      HelpTasks(steps[..k], base, freshId, now) + [NewTask(freshId(base + k), steps[k], StepNote(k), now)]
  }

  function HelpChanges(steps: seq<string>): (r: seq<Change>)
    ensures |r| == |steps|
  {
    if steps == [] then [] else HelpChanges(steps[..|steps| - 1]) + [Added(steps[|steps| - 1])]
  }

  function MarkCompleted(t: Task, now: Timestamp): Task
  {
    t.(completed := true, completedAt := Some(now))
  }

  /** `splice(i, 1)`. */
  function RemoveAt(tasks: seq<Task>, i: nat): seq<Task>
    requires i < |tasks|
  {
    tasks[..i] + tasks[i + 1..]
  }

  /** One iteration of the `forEach` over the reply's actions. */
  function Apply(l: Ledger, a: Action, freshId: nat -> TaskId, now: Timestamp): Ledger
  {
    match a
    case Add(title, notes) =>
      l.(tasks := l.tasks + [NewTask(freshId(l.created), title, NotesOrEmpty(notes), now)],
         created := l.created + 1,
         changes := l.changes + [Added(title)])
    case Complete(hint) =>
      var found := FindTask(l.tasks, hint);
      if found.None? || l.tasks[found.value].completed then l
      else
        var i := found.value;
        l.(tasks := l.tasks[i := MarkCompleted(l.tasks[i], now)],
           completedToday := l.completedToday + 1,
           changes := l.changes + [Completed(l.tasks[i].title)])
    case Delete(hint) =>
      var i := FindTaskIndex(l.tasks, hint);
      if i > -1 then l.(tasks := RemoveAt(l.tasks, i), changes := l.changes + [Deleted(l.tasks[i].title)])
      else l
    case Help(steps) =>
      if steps.None? then l
      else l.(tasks := l.tasks + HelpTasks(steps.value, l.created, freshId, now),
              created := l.created + |steps.value|,
              changes := l.changes + HelpChanges(steps.value))
    case Other => l
  }

  /** The actions applied in order. */
  function ApplyAll(l: Ledger, actions: seq<Action>, freshId: nat -> TaskId, now: Timestamp): Ledger
  {
    if actions == [] then l
    else Apply(ApplyAll(l, actions[..|actions| - 1], freshId, now), actions[|actions| - 1], freshId, now)
  }

  /** The clarification flag after a reply: overwritten only when the reply carries it. */
  function Lock(previous: bool, flag: Option<bool>): bool
  {
    if flag.Some? then flag.value else previous
  }

  /** The tasks, counter and change log after the action phase of one reply,
      given the lock as it stands after the flag update: a locked reply
      applies nothing. */
  function Reconcile(tasks: seq<Task>, completedToday: nat, locked: bool, actions: seq<Action>,
                     freshId: nat -> TaskId, now: Timestamp): (l: Ledger)
    ensures locked ==> l.tasks == tasks && l.completedToday == completedToday && l.changes == []
  {
    var start := Ledger(tasks, completedToday, 0, []);
    if locked then start else ApplyAll(start, actions, freshId, now)
  }
}
