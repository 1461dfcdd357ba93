/** What applying a reply's actions does to the task list, the counter and
    the change log: each action's exact effect, the bookkeeping that ties
    the change log to the list, and the preservation of unique ids. */
module ReconcileFacts {
  import opened Wrappers
  import opened Text
  import opened Tasks

  // ---------------------------------------------------------------------
  // The active-task count, as each kind of change moves it

  lemma ActiveCountAppend(s: seq<Task>, t: Task)
    ensures ActiveCount(s + [t]) == ActiveCount(s) + (if t.completed then 0 else 1)
  {
    assert (s + [t])[..|s|] == s;
  }

  lemma {:induction false} ActiveCountUpdate(s: seq<Task>, i: nat, t: Task)
    requires i < |s|
    ensures ActiveCount(s[i := t]) == ActiveCount(s) - (if s[i].completed then 0 else 1) + (if t.completed then 0 else 1)
    decreases |s|
  {
    var n := |s| - 1;
    if i < n {
      assert s[i := t][..n] == s[..n][i := t];
      ActiveCountUpdate(s[..n], i, t);
    } else {
      assert s[i := t][..n] == s[..n];
    }
  }

  lemma {:induction false} ActiveCountRemove(s: seq<Task>, i: nat)
    requires i < |s|
    ensures ActiveCount(RemoveAt(s, i)) == ActiveCount(s) - (if s[i].completed then 0 else 1)
    decreases |s|
  {
    var n := |s| - 1;
    if i < n {
      assert RemoveAt(s, i) == RemoveAt(s[..n], i) + [s[n]];
      ActiveCountRemove(s[..n], i);
      ActiveCountAppend(RemoveAt(s[..n], i), s[n]);
    } else {
      assert RemoveAt(s, i) == s[..n];
    }
  }

  // ---------------------------------------------------------------------
  // The effect of each action

  /** `complete` changes only the matched task's `completed` and
      `completedAt`, adds one to the counter and logs the title, and only
      when the matched task was still open; otherwise nothing changes. */
  lemma CompleteEffect(l: Ledger, hint: Option<string>, freshId: nat -> TaskId, now: Timestamp)
    ensures
      var l' := Apply(l, Complete(hint), freshId, now);
      var found := FindTask(l.tasks, hint);
      var fires := found.Some? && !l.tasks[found.value].completed;
      && (!fires ==> l' == l)
      && (fires ==>
            var i := found.value;
            && |l'.tasks| == |l.tasks|
            && (forall j :: 0 <= j < |l.tasks| && j != i ==> l'.tasks[j] == l.tasks[j])
            && l'.tasks[i] == l.tasks[i].(completed := true, completedAt := Some(now))
            && l'.completedToday == l.completedToday + 1
            && l'.created == l.created
            && l'.changes == l.changes + [Completed(l.tasks[i].title)]
            && ActiveCount(l'.tasks) + 1 == ActiveCount(l.tasks))
  {
    var found := FindTask(l.tasks, hint);
    if found.Some? && !l.tasks[found.value].completed {
      var i := found.value;
      ActiveCountUpdate(l.tasks, i, MarkCompleted(l.tasks[i], now));
    }
  }

  /** When the first task whose title equals the hint is already completed,
      `complete` does nothing, even if a later open task contains the hint. */
  lemma CompletedExactMatchBlocksComplete(l: Ledger, hint: string, i: nat, freshId: nat -> TaskId, now: Timestamp)
    requires hint != ""
    requires i < |l.tasks| && TitleIs(l.tasks[i], Lower(hint)) && l.tasks[i].completed
    requires forall j :: 0 <= j < i ==> !TitleIs(l.tasks[j], Lower(hint))
    ensures Apply(l, Complete(Some(hint)), freshId, now) == l
  {
    CompleteTarget(l.tasks, Some(hint));
  }

  /** `delete` removes exactly the first task containing the hint; the
      others keep their order and fields. Without a match nothing changes. */
  lemma DeleteEffect(l: Ledger, hint: Option<string>, freshId: nat -> TaskId, now: Timestamp)
    ensures
      var l' := Apply(l, Delete(hint), freshId, now);
      var i := FindTaskIndex(l.tasks, hint);
      && (i == -1 ==> l' == l)
      && (i >= 0 ==>
            && |l'.tasks| == |l.tasks| - 1
            && (forall j :: 0 <= j < i ==> l'.tasks[j] == l.tasks[j])
            && (forall j :: i <= j < |l'.tasks| ==> l'.tasks[j] == l.tasks[j + 1])
            && l'.completedToday == l.completedToday
            && l'.created == l.created
            && l'.changes == l.changes + [Deleted(l.tasks[i].title)]
            && ActiveCount(l'.tasks) + (if l.tasks[i].completed then 0 else 1) == ActiveCount(l.tasks))
  {
    var i := FindTaskIndex(l.tasks, hint);
    if i >= 0 {
      ActiveCountRemove(l.tasks, i);
    }
  }

  /** `add` appends one open task with the fresh id, the title and the notes
      (empty when missing or empty), and logs the title. */
  lemma AddEffect(l: Ledger, title: string, notes: Option<string>, freshId: nat -> TaskId, now: Timestamp)
    ensures
      var l' := Apply(l, Add(title, notes), freshId, now);
      && |l'.tasks| == |l.tasks| + 1
      && l'.tasks[..|l.tasks|] == l.tasks
      && l'.tasks[|l.tasks|] == Task(freshId(l.created), title, NotesOrEmpty(notes), false, now, None)
      && (notes.None? ==> l'.tasks[|l.tasks|].notes == "")
      && l'.completedToday == l.completedToday
      && l'.created == l.created + 1
      && l'.changes == l.changes + [Added(title)]
      && ActiveCount(l'.tasks) == ActiveCount(l.tasks) + 1
  {
    var t := NewTask(freshId(l.created), title, NotesOrEmpty(notes), now);
    ActiveCountAppend(l.tasks, t);
    assert (l.tasks + [t])[..|l.tasks|] == l.tasks;
  }

  /** The k-th task of a `help` action carries the k-th step as its title,
      the note "Step k+1" and the fresh id `freshId(base + k)`. */
  lemma {:induction false} HelpTasksAt(steps: seq<string>, base: nat, freshId: nat -> TaskId, now: Timestamp, k: nat)
    requires k < |steps|
    ensures HelpTasks(steps, base, freshId, now)[k] == Task(freshId(base + k), steps[k], StepNote(k), false, now, None)
    decreases |steps|
  {
    var n := |steps| - 1;
    if k < n {
      HelpTasksAt(steps[..n], base, freshId, now, k);
    }
  }

  lemma {:induction false} HelpChangesAt(steps: seq<string>, k: nat)
    requires k < |steps|
    ensures HelpChanges(steps)[k] == Added(steps[k])
    decreases |steps|
  {
    if k < |steps| - 1 {
      HelpChangesAt(steps[..|steps| - 1], k);
    }
  }

  /** `help` with n steps appends n open tasks in step order with notes
      "Step 1" .. "Step n" and logs one `added` entry per step; without
      steps it changes nothing. */
  lemma HelpEffect(l: Ledger, steps: Option<seq<string>>, freshId: nat -> TaskId, now: Timestamp)
    ensures steps.None? ==> Apply(l, Help(steps), freshId, now) == l
    ensures steps.Some? ==>
      var st := steps.value;
      var l' := Apply(l, Help(steps), freshId, now);
      && |l'.tasks| == |l.tasks| + |st|
      && l'.tasks[..|l.tasks|] == l.tasks
      && (forall k :: 0 <= k < |st| ==>
            l'.tasks[|l.tasks| + k] == Task(freshId(l.created + k), st[k], StepNote(k), false, now, None))
      && |l'.changes| == |l.changes| + |st|
      && l'.changes[..|l.changes|] == l.changes
      && (forall k :: 0 <= k < |st| ==> l'.changes[|l.changes| + k] == Added(st[k]))
      && l'.completedToday == l.completedToday
      && l'.created == l.created + |st|
  {
    if steps.Some? {
      var st := steps.value;
      var l' := Apply(l, Help(steps), freshId, now);
      var added := HelpTasks(st, l.created, freshId, now);
      forall k | 0 <= k < |st|
        ensures l'.tasks[|l.tasks| + k] == Task(freshId(l.created + k), st[k], StepNote(k), false, now, None)
      {
        HelpTasksAt(st, l.created, freshId, now, k);
        assert l'.tasks[|l.tasks| + k] == added[k];
      }
      forall k | 0 <= k < |st| ensures l'.changes[|l.changes| + k] == Added(st[k]) {
        HelpChangesAt(st, k);
      }
      assert l'.tasks[..|l.tasks|] == l.tasks;
      assert l'.changes[..|l.changes|] == l.changes;
    }
  }

  /** An action of unknown type changes nothing. */
  lemma OtherEffect(l: Ledger, freshId: nat -> TaskId, now: Timestamp)
    ensures Apply(l, Other, freshId, now) == l
  {
  }

  // ---------------------------------------------------------------------
  // The change log accounts for every change

  function CountAdded(cs: seq<Change>): nat
  {
    if cs == [] then 0 else CountAdded(cs[..|cs| - 1]) + (if cs[|cs| - 1].Added? then 1 else 0)
  }

  function CountCompleted(cs: seq<Change>): nat
  {
    if cs == [] then 0 else CountCompleted(cs[..|cs| - 1]) + (if cs[|cs| - 1].Completed? then 1 else 0)
  }

  function CountDeleted(cs: seq<Change>): nat
  {
    if cs == [] then 0 else CountDeleted(cs[..|cs| - 1]) + (if cs[|cs| - 1].Deleted? then 1 else 0)
  }

  lemma CountsAppendOne(cs: seq<Change>, c: Change)
    ensures CountAdded(cs + [c]) == CountAdded(cs) + (if c.Added? then 1 else 0)
    ensures CountCompleted(cs + [c]) == CountCompleted(cs) + (if c.Completed? then 1 else 0)
    ensures CountDeleted(cs + [c]) == CountDeleted(cs) + (if c.Deleted? then 1 else 0)
  {
    assert (cs + [c])[..|cs|] == cs;
  }

  /** A `help` action's log is all `added`, one per step. */
  lemma {:induction false} CountsAfterHelp(cs: seq<Change>, steps: seq<string>)
    ensures CountAdded(cs + HelpChanges(steps)) == CountAdded(cs) + |steps|
    ensures CountCompleted(cs + HelpChanges(steps)) == CountCompleted(cs)
    ensures CountDeleted(cs + HelpChanges(steps)) == CountDeleted(cs)
    decreases |steps|
  {
    if steps == [] {
      assert cs + HelpChanges(steps) == cs;
    } else {
      var n := |steps| - 1;
      CountsAfterHelp(cs, steps[..n]);
      assert cs + HelpChanges(steps) == (cs + HelpChanges(steps[..n])) + [Added(steps[n])];
      CountsAppendOne(cs + HelpChanges(steps[..n]), Added(steps[n]));
    }
  }

  /** Three balances between two ledgers: tasks = added - deleted, the
      counter = completed entries, ids used = added entries. */
  predicate Balanced(l: Ledger, l': Ledger)
  {
    && |l'.tasks| + CountDeleted(l'.changes) - CountAdded(l'.changes) == |l.tasks| + CountDeleted(l.changes) - CountAdded(l.changes)
    && l'.completedToday - CountCompleted(l'.changes) == l.completedToday - CountCompleted(l.changes)
    && l'.created - CountAdded(l'.changes) == l.created - CountAdded(l.changes)
  }

  /** A ledger that gained one log entry and the matching change keeps the
      balances. */
  lemma OneEntryBalanced(l: Ledger, l': Ledger, c: Change)
    requires l'.changes == l.changes + [c]
    requires |l'.tasks| + (if c.Deleted? then 1 else 0) == |l.tasks| + (if c.Added? then 1 else 0)
    requires l'.completedToday == l.completedToday + (if c.Completed? then 1 else 0)
    requires l'.created == l.created + (if c.Added? then 1 else 0)
    ensures Balanced(l, l')
  {
    CountsAppendOne(l.changes, c);
  }

  /** Every action keeps the balances. */
  lemma ApplyBalances(l: Ledger, a: Action, freshId: nat -> TaskId, now: Timestamp)
    ensures Balanced(l, Apply(l, a, freshId, now))
  {
    var l' := Apply(l, a, freshId, now);
    match a
    case Add(title, notes) =>
      OneEntryBalanced(l, l', Added(title));
    case Complete(hint) =>
      var found := FindTask(l.tasks, hint);
      if found.Some? && !l.tasks[found.value].completed {
        OneEntryBalanced(l, l', Completed(l.tasks[found.value].title));
      }
    case Delete(hint) =>
      var i := FindTaskIndex(l.tasks, hint);
      if i > -1 {
        OneEntryBalanced(l, l', Deleted(l.tasks[i].title));
      }
    case Help(steps) =>
      if steps.Some? {
        CountsAfterHelp(l.changes, steps.value);
      }
    case Other =>
  }

  lemma {:induction false} ApplyAllBalances(l: Ledger, actions: seq<Action>, freshId: nat -> TaskId, now: Timestamp)
    ensures Balanced(l, ApplyAll(l, actions, freshId, now))
    decreases |actions|
  {
    if actions != [] {
      var n := |actions| - 1;
      ApplyAllBalances(l, actions[..n], freshId, now);
      ApplyBalances(ApplyAll(l, actions[..n], freshId, now), actions[n], freshId, now);
    }
  }

  /** After one reply the list has grown by the `added` entries less the
      `deleted` ones, and the counter by the `completed` ones. */
  lemma ReconcileAccounts(tasks: seq<Task>, completedToday: nat, locked: bool, actions: seq<Action>,
                          freshId: nat -> TaskId, now: Timestamp)
    ensures
      var l := Reconcile(tasks, completedToday, locked, actions, freshId, now);
      && |l.tasks| == |tasks| + CountAdded(l.changes) - CountDeleted(l.changes)
      && l.completedToday == completedToday + CountCompleted(l.changes)
  {
    ApplyAllBalances(Ledger(tasks, completedToday, 0, []), actions, freshId, now);
  }

  // ---------------------------------------------------------------------
  // Ids stay unique when the supplied ids are fresh

  ghost predicate UniqueIds(tasks: seq<Task>)
  {
    forall i, j :: 0 <= i < j < |tasks| ==> tasks[i].id != tasks[j].id
  }

  /** The ids `freshId(k)` for k >= from are pairwise distinct and differ
      from every id already in `tasks`. */
  ghost predicate FreshFrom(freshId: nat -> TaskId, tasks: seq<Task>, from: nat)
  {
    && (forall k, m :: from <= k < m ==> freshId(k) != freshId(m))
    && (forall k, j :: from <= k && 0 <= j < |tasks| ==> freshId(k) != tasks[j].id)
  }

  /** Appending tasks that carry the next fresh ids keeps ids unique. */
  lemma IdsAfterAppend(tasks: seq<Task>, added: seq<Task>, freshId: nat -> TaskId, c: nat)
    requires UniqueIds(tasks) && FreshFrom(freshId, tasks, c)
    requires forall k :: 0 <= k < |added| ==> added[k].id == freshId(c + k)
    ensures UniqueIds(tasks + added) && FreshFrom(freshId, tasks + added, c + |added|)
  {
    var s := tasks + added;
    forall i, j | 0 <= i < j < |s| ensures s[i].id != s[j].id {
      if j < |tasks| {
        assert s[i] == tasks[i] && s[j] == tasks[j];
      } else if i < |tasks| {
        assert s[j].id == freshId(c + (j - |tasks|));
        assert s[i] == tasks[i];
      } else {
        assert s[i].id == freshId(c + (i - |tasks|));
        assert s[j].id == freshId(c + (j - |tasks|));
      }
    }
    forall k, j | c + |added| <= k && 0 <= j < |s| ensures freshId(k) != s[j].id {
      if j < |tasks| {
        assert s[j] == tasks[j];
      } else {
        assert s[j].id == freshId(c + (j - |tasks|));
      }
    }
  }

  /** Rewriting one task without touching its id keeps ids unique. */
  lemma IdsAfterUpdate(tasks: seq<Task>, i: nat, t: Task, freshId: nat -> TaskId, c: nat)
    requires i < |tasks| && t.id == tasks[i].id
    requires UniqueIds(tasks) && FreshFrom(freshId, tasks, c)
    ensures UniqueIds(tasks[i := t]) && FreshFrom(freshId, tasks[i := t], c)
  {
    assert forall j :: 0 <= j < |tasks| ==> tasks[i := t][j].id == tasks[j].id;
  }

  /** Removing one task keeps ids unique. */
  lemma IdsAfterRemove(tasks: seq<Task>, i: nat, freshId: nat -> TaskId, c: nat)
    requires i < |tasks|
    requires UniqueIds(tasks) && FreshFrom(freshId, tasks, c)
    ensures UniqueIds(RemoveAt(tasks, i)) && FreshFrom(freshId, RemoveAt(tasks, i), c)
  {
    var s := RemoveAt(tasks, i);
    assert forall j :: 0 <= j < |s| ==> s[j] == tasks[if j < i then j else j + 1];
  }

  /** A `help` action hands out the next fresh ids, one per step. */
  lemma HelpKeepsIdsUnique(l: Ledger, st: seq<string>, freshId: nat -> TaskId, now: Timestamp)
    requires UniqueIds(l.tasks) && FreshFrom(freshId, l.tasks, l.created)
    ensures
      var l' := Apply(l, Help(Some(st)), freshId, now);
      UniqueIds(l'.tasks) && FreshFrom(freshId, l'.tasks, l'.created) && l'.created >= l.created
  {
    var added := HelpTasks(st, l.created, freshId, now);
    forall k | 0 <= k < |added| ensures added[k].id == freshId(l.created + k) {
      HelpTasksAt(st, l.created, freshId, now, k);
    }
    IdsAfterAppend(l.tasks, added, freshId, l.created);
  }

  lemma ApplyKeepsIdsUnique(l: Ledger, a: Action, freshId: nat -> TaskId, now: Timestamp)
    requires UniqueIds(l.tasks) && FreshFrom(freshId, l.tasks, l.created)
    ensures
      var l' := Apply(l, a, freshId, now);
      UniqueIds(l'.tasks) && FreshFrom(freshId, l'.tasks, l'.created) && l'.created >= l.created
  {
    match a
    case Add(title, notes) =>
      IdsAfterAppend(l.tasks, [NewTask(freshId(l.created), title, NotesOrEmpty(notes), now)], freshId, l.created);
    case Complete(hint) =>
      var found := FindTask(l.tasks, hint);
      if found.Some? && !l.tasks[found.value].completed {
        IdsAfterUpdate(l.tasks, found.value, MarkCompleted(l.tasks[found.value], now), freshId, l.created);
      }
    case Delete(hint) =>
      var i := FindTaskIndex(l.tasks, hint);
      if i > -1 {
        IdsAfterRemove(l.tasks, i, freshId, l.created);
      }
    case Help(steps) =>
      if steps.Some? {
        HelpKeepsIdsUnique(l, steps.value, freshId, now);
      }
    case Other =>
  }

  /** A reply never creates two tasks with one id, as long as the ids handed
      out are fresh. */
  lemma {:induction false} ApplyAllKeepsIdsUnique(l: Ledger, actions: seq<Action>, freshId: nat -> TaskId, now: Timestamp)
    requires UniqueIds(l.tasks) && FreshFrom(freshId, l.tasks, l.created)
    ensures
      var l' := ApplyAll(l, actions, freshId, now);
      UniqueIds(l'.tasks) && FreshFrom(freshId, l'.tasks, l'.created) && l'.created >= l.created
    decreases |actions|
  {
    if actions != [] {
      var n := |actions| - 1;
      ApplyAllKeepsIdsUnique(l, actions[..n], freshId, now);
      ApplyKeepsIdsUnique(ApplyAll(l, actions[..n], freshId, now), actions[n], freshId, now);
    }
  }

  // ---------------------------------------------------------------------
  // Worked examples

  /** With titles "Write essay draft" and "Write essay" and the hint
      "write essay", `complete` looks for the second task (exact match)
      while `delete` looks for the first (first containing title). */
  lemma EssayHintLookups(draft: Task, essay: Task)
    requires draft.title == "Write essay draft" && essay.title == "Write essay"
    ensures FindTask([draft, essay], Some("write essay")) == Some(1)
    ensures FindTaskIndex([draft, essay], Some("write essay")) == 0
  {
    var hint := "write essay";
    assert Lower(hint) == hint;
    assert Lower(draft.title) == "write essay draft";
    assert Lower(essay.title) == hint;
    assert Lower(draft.title) != hint;
    assert Lower(draft.title)[..|hint|] == hint;
    assert TitleHas(draft, hint);
    var tasks := [draft, essay];
    assert FirstWhere(tasks[1..], t => TitleIs(t, hint)) == Some(0);
  }

  /** So completing "write essay" marks the second task, and deleting it
      removes the first. */
  lemma EssayHintScenario(draft: Task, essay: Task, freshId: nat -> TaskId, now: Timestamp)
    requires draft.title == "Write essay draft" && essay.title == "Write essay"
    requires !draft.completed && !essay.completed
    ensures Apply(Ledger([draft, essay], 0, 0, []), Complete(Some("write essay")), freshId, now).tasks
         == [draft, MarkCompleted(essay, now)]
    ensures Apply(Ledger([draft, essay], 0, 0, []), Delete(Some("write essay")), freshId, now).tasks == [essay]
  {
    EssayHintLookups(draft, essay);
    assert RemoveAt([draft, essay], 0) == [essay];
  }

  /** Adding "Write the essay" to an empty, unlocked list gives exactly one
      open task and one `added` entry. */
  lemma AddScenario(freshId: nat -> TaskId, now: Timestamp)
    ensures
      var l := Reconcile([], 0, false, [Add("Write the essay", None)], freshId, now);
      && l.tasks == [Task(freshId(0), "Write the essay", "", false, now, None)]
      && l.changes == [Added("Write the essay")]
      && l.completedToday == 0
  {
    var acts := [Add("Write the essay", None)];
    var start := Ledger([], 0, 0, []);
    assert acts[..0] == [];
    assert ApplyAll(start, acts, freshId, now) == Apply(start, acts[0], freshId, now);
  }

  /** A `help` action with three steps adds three tasks noted "Step 1",
      "Step 2" and "Step 3", with distinct ids when the supply is fresh. */
  lemma HelpScenario(l: Ledger, a: string, b: string, c: string, freshId: nat -> TaskId, now: Timestamp)
    requires FreshFrom(freshId, l.tasks, l.created)
    ensures
      var l' := Apply(l, Help(Some([a, b, c])), freshId, now);
      var n := |l.tasks|;
      && |l'.tasks| == n + 3
      && l'.tasks[n].notes == "Step 1" && l'.tasks[n + 1].notes == "Step 2" && l'.tasks[n + 2].notes == "Step 3"
      && l'.tasks[n].title == a && l'.tasks[n + 1].title == b && l'.tasks[n + 2].title == c
      && l'.tasks[n].id != l'.tasks[n + 1].id && l'.tasks[n + 1].id != l'.tasks[n + 2].id && l'.tasks[n].id != l'.tasks[n + 2].id
  {
    var st := [a, b, c];
    var added := HelpTasks(st, l.created, freshId, now);
    HelpTasksAt(st, l.created, freshId, now, 0);
    HelpTasksAt(st, l.created, freshId, now, 1);
    HelpTasksAt(st, l.created, freshId, now, 2);
    assert NatToString(1) == "1" && NatToString(2) == "2" && NatToString(3) == "3";
    assert StepNote(0) == "Step 1" && StepNote(1) == "Step 2" && StepNote(2) == "Step 3";
  }
}
