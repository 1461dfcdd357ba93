/** The transcript and the state-derived parts of the prompt: the hour
    bucket (`getTimeContext`), the momentum guidance (`getMomentumContext`)
    and the recent-conversation window built inside `callAI`. */
module PromptContext {
  import opened Text
  import opened Tasks

  /** `sender: 'user'` or `sender: 'ai'`. */
  datatype Sender = User | Assistant

  /** One element of `conversationHistory`; `error` is set only on the
      entries `handleError` appends. */
  datatype Entry = Entry(text: string, sender: Sender, timestamp: Timestamp, error: bool)

  /** `new Date().getHours()`. */
  type Hour = h: int | 0 <= h <= 23

  // ---------------------------------------------------------------------
  // Time of day

  datatype TimeOfDay = AfterMidnight | Morning | Afternoon | Evening | LateNight

  function TimeContext(hour: Hour): TimeOfDay
  {
    if hour < 6 then AfterMidnight
    else if hour < 12 then Morning
    else if hour < 17 then Afternoon
    else if hour < 21 then Evening
    else LateNight
  }

  function TimeLabel(t: TimeOfDay): string
  {
    match t
    case AfterMidnight => "Late night (after midnight)"
    case Morning => "Morning"
    case Afternoon => "Afternoon"
    case Evening => "Evening"
    case LateNight => "Late night"
  }

  /** The buckets are [0,6), [6,12), [12,17), [17,21) and [21,24). */
  lemma TimeBuckets(hour: Hour)
    ensures TimeContext(hour) == AfterMidnight <==> hour < 6
    ensures TimeContext(hour) == Morning <==> 6 <= hour < 12
    ensures TimeContext(hour) == Afternoon <==> 12 <= hour < 17
    ensures TimeContext(hour) == Evening <==> 17 <= hour < 21
    ensures TimeContext(hour) == LateNight <==> 21 <= hour
  {
  }

  // ---------------------------------------------------------------------
  // Momentum

  datatype Momentum = StrongMomentum | Overwhelming | FreshStart | VeryLate | NotStarted | NormalPace

  /** First match wins. The source also tests `hour > 23`, which no hour of
      the clock satisfies; it is kept here as written. */
  function MomentumContext(completedToday: nat, tasks: seq<Task>, hour: Hour): Momentum
  {
    var active := ActiveCount(tasks);
    if completedToday >= 3 then StrongMomentum
    else if active > 8 then Overwhelming
    else if active == 0 && completedToday == 0 then FreshStart
    else if hour < 6 || hour > 23 then VeryLate
    else if completedToday == 0 && active > 0 then NotStarted
    else NormalPace
  }

  function MomentumText(m: Momentum): string
  {
    match m
    case StrongMomentum => "User has strong momentum. Acknowledge progress naturally without overdoing praise."
    case Overwhelming => "Task list is getting overwhelming. Suggest prioritization if they seem stuck."
    case FreshStart => "Starting fresh with clean slate. Keep expectations realistic."
    case VeryLate => "Very late night or very early morning. Acknowledge dedication without judgment."
    case NotStarted => "Tasks exist but none completed yet. Encourage starting without pressure."
    case NormalPace => "Normal working pace. Stay matter-of-fact and supportive."
  }

  /** Each guidance case holds exactly under its own condition, with the
      earlier cases' conditions excluded. */
  lemma MomentumCases(completedToday: nat, tasks: seq<Task>, hour: Hour)
    ensures
      var m := MomentumContext(completedToday, tasks, hour);
      var a := ActiveCount(tasks);
      && (m == StrongMomentum <==> completedToday >= 3)
      && (m == Overwhelming <==> completedToday < 3 && a > 8)
      && (m == FreshStart <==> completedToday == 0 && a == 0)
      && (m == VeryLate <==> completedToday < 3 && a <= 8 && (completedToday > 0 || a > 0) && hour < 6)
      && (m == NotStarted <==> completedToday == 0 && 0 < a <= 8 && hour >= 6)
      && (m == NormalPace <==> 0 < completedToday < 3 && a <= 8 && hour >= 6)
  {
  }

  /** Late-night guidance is only given in the after-midnight time bucket. */
  lemma VeryLateMeansAfterMidnight(completedToday: nat, tasks: seq<Task>, hour: Hour)
    ensures MomentumContext(completedToday, tasks, hour) == VeryLate ==> TimeContext(hour) == AfterMidnight
  {
  }

  /** Three completions today give strong momentum whatever the list holds;
      nine open tasks with nothing completed give the overload guidance. */
  lemma MomentumExamples(two: seq<Task>, nine: seq<Task>, hour: Hour)
    requires ActiveCount(two) == 2 && ActiveCount(nine) == 9
    ensures MomentumContext(3, two, hour) == StrongMomentum
    ensures MomentumContext(0, nine, hour) == Overwhelming
  {
  }

  // ---------------------------------------------------------------------
  // The recent-conversation window

  const WindowSize: nat := 6

  /** `conversationHistory.slice(-6)`: the last six entries, or all of them
      when there are fewer. */
  function RecentWindow(history: seq<Entry>): (w: seq<Entry>)
    ensures |w| == if |history| < WindowSize then |history| else WindowSize
    ensures w == history[|history| - |w|..]
  {
    if |history| <= WindowSize then history else history[|history| - WindowSize..]
  }

  /** `${sender === 'user' ? 'User' : 'Assistant'}: ${text}`. */
  function Line(e: Entry): string
  {
    (if e.sender == User then "User" else "Assistant") + ": " + e.text
  }

  /** `lines.join('\n')`. */
  function JoinLines(lines: seq<string>): string
  {
    if lines == [] then ""
    else if |lines| == 1 then lines[0]
    else JoinLines(lines[..|lines| - 1]) + "\n" + lines[|lines| - 1]
  }

  function RecentContext(history: seq<Entry>): string
  {
    var w := RecentWindow(history);
    JoinLines(seq(|w|, k requires 0 <= k < |w| => Line(w[k])))
  }

  /** Appending an entry slides the window: it gains the new entry at the end
      and, once full, loses its oldest. */
  lemma WindowSlides(history: seq<Entry>, e: Entry)
    ensures
      var w := RecentWindow(history);
      RecentWindow(history + [e]) == (if |w| < WindowSize then w else w[1..]) + [e]
  {
    var h := history + [e];
    var w := RecentWindow(history);
    if |history| >= WindowSize {
      assert h[|h| - WindowSize..] == history[|history| - WindowSize + 1..] + [e];
    }
  }

  function CountNewlines(s: string): nat
  {
    if s == [] then 0 else CountNewlines(s[..|s| - 1]) + (if s[|s| - 1] == '\n' then 1 else 0)
  }

  lemma {:induction false} CountNewlinesAppend(a: string, b: string)
    ensures CountNewlines(a + b) == CountNewlines(a) + CountNewlines(b)
    decreases |b|
  {
    if b == [] {
      assert a + b == a;
    } else {
      var n := |b| - 1;
      assert (a + b)[..|a + b| - 1] == a + b[..n];
      CountNewlinesAppend(a, b[..n]);
    }
  }

  /** Joining newline-free lines puts exactly one newline between neighbours. */
  lemma {:induction false} JoinedLineCount(lines: seq<string>)
    requires lines != []
    requires forall k :: 0 <= k < |lines| ==> CountNewlines(lines[k]) == 0
    ensures CountNewlines(JoinLines(lines)) == |lines| - 1
    decreases |lines|
  {
    if |lines| > 1 {
      var n := |lines| - 1;
      JoinedLineCount(lines[..n]);
      CountNewlinesAppend(JoinLines(lines[..n]) + "\n", lines[n]);
      CountNewlinesAppend(JoinLines(lines[..n]), "\n");
    }
  }

  lemma NoNewlineWords()
    ensures CountNewlines("User") == 0 && CountNewlines("Assistant") == 0 && CountNewlines(": ") == 0
  {
    assert "User"[..3] == "Use" && "Use"[..2] == "Us" && "Us"[..1] == "U" && "U"[..0] == [];
    assert "Assistant"[..8] == "Assistan" && "Assistan"[..7] == "Assista" && "Assista"[..6] == "Assist";
    assert "Assist"[..5] == "Assis" && "Assis"[..4] == "Assi" && "Assi"[..3] == "Ass";
    assert "Ass"[..2] == "As" && "As"[..1] == "A" && "A"[..0] == [];
    assert ": "[..1] == ":" && ":"[..0] == [];
  }

  /** A join of lines ends with the last line. */
  lemma JoinEndsWithLast(lines: seq<string>)
    requires lines != []
    ensures EndsWith(JoinLines(lines), lines[|lines| - 1])
  {
    var c := JoinLines(lines);
    var last := lines[|lines| - 1];
    if |lines| > 1 {
      var p := JoinLines(lines[..|lines| - 1]) + "\n";
      assert c == p + last;
      assert c[|c| - |last|..] == last;
    }
  }

  /** The context always ends with the newest entry's line. */
  lemma RecentContextEndsWithLast(history: seq<Entry>)
    requires history != []
    ensures EndsWith(RecentContext(history), Line(history[|history| - 1]))
  {
    var w := RecentWindow(history);
    var lines := seq(|w|, k requires 0 <= k < |w| => Line(w[k]));
    assert w[|w| - 1] == history[|history| - 1];
    assert lines[|lines| - 1] == Line(history[|history| - 1]);
    JoinEndsWithLast(lines);
  }

  /** With newline-free messages, the context holds one line per entry of
      the window. */
  lemma RecentContextLines(history: seq<Entry>)
    requires history != []
    requires forall k :: 0 <= k < |history| ==> CountNewlines(history[k].text) == 0
    ensures CountNewlines(RecentContext(history)) == |RecentWindow(history)| - 1
  {
    var w := RecentWindow(history);
    var lines := seq(|w|, k requires 0 <= k < |w| => Line(w[k]));
    forall k | 0 <= k < |lines| ensures CountNewlines(lines[k]) == 0 {
      var e := w[k];
      assert e == history[|history| - |w| + k];
      var speaker := if e.sender == User then "User" else "Assistant";
      assert lines[k] == speaker + ": " + e.text;
      assert CountNewlines(e.text) == 0;
      NoNewlineWords();
      CountNewlinesAppend(speaker, ": ");
      CountNewlinesAppend(speaker + ": ", e.text);
    }
    JoinedLineCount(lines);
  }
}
