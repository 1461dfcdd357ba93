/** `callAI`: what each attempt gets back from the model endpoint, the
    checks applied to a reply before it is accepted, the markdown-fence
    cleanup before `JSON.parse`, and the retry loop with its back-off
    delays. The network and `JSON.parse` are parameters. */
module Gateway {
  import opened Wrappers
  import opened Text
  import opened Tasks
  import opened PromptContext

  /** `res.status`: fetch reports a status in 200..599. */
  type StatusCode = s: int | 200 <= s <= 599 witness 200

  /** `res.ok`. */
  predicate IsOk(status: StatusCode)
  {
    status <= 299
  }

  /** `data.candidates[0]`: its `finishReason` and its
      `content.parts[0].text`, each possibly missing. */
  datatype Candidate = Candidate(finishReason: Option<string>, text: Option<string>)

  /** The body of a 2xx reply: not JSON at all (`res.json()` rejects with
      `message`), or JSON whose `candidates[0]` may be missing. */
  datatype Body = Unreadable(message: string) | Candidates(first: Option<Candidate>)

  /** What one attempt gets back: fetch rejects; an HTTP reply; or an HTTP
      reply whose body is the JSON `null`. For a failed reply,
      `errorMessage` is `errorData.error?.message`, missing when the body is
      not JSON or is JSON without such a field. A `null` body parses, but
      then reading `.error` of it (failed status) or `.candidates` of it
      (2xx status) throws a `TypeError`, whose message is `typeError`. */
  datatype Outcome =
    | NetworkError(message: string)
    | Reply(status: StatusCode, statusText: string, errorMessage: Option<string>, body: Body)
    | NullBody(status: StatusCode, typeError: string)

  /** `JSON.parse` of the cleaned text read as a reply, or the message of
      the `SyntaxError` it throws. */
  datatype ParseOutcome = Parsed(response: Response) | ParseError(message: string)

  /** What every attempt sends: the key placed in the URL and the parts of
      the prompt that vary — the user's name, the time-of-day label, the
      momentum guidance text, the task list, the day's completion count, the recent
      conversation and the user message. The fixed wording around them is
      not modelled. */
  datatype Request = Request(
    apiKey: Option<string>,
    userName: Option<string>,
    timeOfDay: string,
    momentum: string,
    tasks: seq<Task>,
    completedToday: nat,
    recentContext: string,
    userMessage: string)

  /** The request `callAI` builds from the app's state at the given hour. */
  function Ask(apiKey: Option<string>, userName: Option<string>, tasks: seq<Task>, completedToday: nat,
               hour: Hour, history: seq<Entry>, message: string): Request
  {
    Request(apiKey, userName, TimeLabel(TimeContext(hour)), MomentumText(MomentumContext(completedToday, tasks, hour)),
            tasks, completedToday, RecentContext(history), message)
  }

  // ---------------------------------------------------------------------
  // Error messages

  /** `value || fallback` on a possibly missing string. */
  function Or(value: Option<string>, fallback: string): string
  {
    if value.Some? && value.value != "" then value.value else fallback
  }

  /** `API_${res.status}`. The source spells `API_400` and `API_429` as
      literals in their branches; they are this tag for those statuses. */
  function StatusTag(status: StatusCode): string
  {
    "API_" + NatToString(status)
  }

  /** The text after the `|` in the error thrown for a failed reply. */
  function StatusDetail(status: StatusCode, statusText: string, errorMessage: Option<string>): string
  {
    if status == 400 then "Bad request format: " + Or(errorMessage, "Unknown")
    else if status == 401 || status == 403 then "Authentication failed: " + Or(errorMessage, "Invalid API key")
    else if status == 429 then "Rate limit: " + Or(errorMessage, "Too many requests")
    else if status >= 500 then "Service error: " + Or(errorMessage, "Server unavailable")
    else Or(errorMessage, statusText)
  }

  function StatusError(status: StatusCode, statusText: string, errorMessage: Option<string>): string
  {
    StatusTag(status) + "|" + StatusDetail(status, statusText, errorMessage)
  }

  /** The errors of the reply checks, each a tag and a detail joined by `|`. */
  const EmptyResponse := "EMPTY_RESPONSE" + "|" + "No candidates returned"
  const ContentBlocked := "CONTENT_BLOCKED" + "|" + "Response blocked by safety filters"
  const EmptyText := "EMPTY_TEXT" + "|" + "No text in response"
  const MissingReply := "PARSE_FAILURE" + "|" + "Missing conversational_response field"

  // ---------------------------------------------------------------------
  // Cleaning the model's text

  /** One of the two leading-fence replacements: a leading `fence` and
      the whitespace run after it are dropped. */
  function DropOpening(s: string, fence: string): string
  {
    if StartsWith(s, fence) then TrimStart(s[|fence|..]) else s
  }

  /** The closing-fence replacement: a fence at the very end and the
      whitespace run before it are dropped. */
  function DropClosing(s: string): string
  {
    if EndsWith(s, "```") then TrimEnd(s[..|s| - 3]) else s
  }

  /** The three replacements and the final trim applied to fenced text. */
  function Unfence(t: string): (r: string)
    ensures Trimmed(r)
  {
    Trim(DropClosing(DropOpening(DropOpening(t, "```json"), "```")))
  }

  /** Trim, and when the text opens with a code fence drop a leading
      fence marked `json`, then a leading plain fence, then the closing
      fence, and trim again. */
  function Prepare(text: string): (r: string)
    ensures Trimmed(r)
  {
    var t := Trim(text);
    if StartsWith(t, "```") then Unfence(t) else t
  }

  lemma DropOpeningFence(fence: string, ws: string, rest: string)
    requires AllSpace(ws) && (rest == [] || !IsSpace(rest[0]))
    ensures DropOpening(fence + ws + rest, fence) == rest
  {
    var s := fence + ws + rest;
    assert s[..|fence|] == fence;
    assert s[|fence|..] == ws + rest;
    TrimStartPast(ws, rest);
  }

  lemma DropClosingFence(body: string, ws: string)
    requires AllSpace(ws) && (body == [] || !IsSpace(body[|body| - 1]))
    ensures DropClosing(body + ws + "```") == body
  {
    var s := body + ws + "```";
    assert s[|s| - 3..] == "```";
    assert s[..|s| - 3] == body + ws;
    TrimEndPast(body, ws);
  }

  /** Text that is already trimmed and does not open with a fence is
      handed to the parser unchanged, wherever it sits between whitespace. */
  lemma UnfencedUnchanged(ws1: string, body: string, ws2: string)
    requires AllSpace(ws1) && AllSpace(ws2)
    requires Trimmed(body) && !StartsWith(body, "```")
    ensures Prepare(ws1 + body + ws2) == body
  {
    TrimAround(ws1, body, ws2);
  }

  /** Both opening replacements together drop exactly one opening fence
      and the whitespace after it. */
  lemma OpeningsDropped(open: string, ws: string, inner: string)
    requires inner != [] && !IsSpace(inner[0]) && inner[0] != '`'
    requires open == "```json" || (open == "```" && (ws != [] || inner[0] != 'j'))
    requires AllSpace(ws)
    ensures DropOpening(DropOpening(open + ws + inner, "```json"), "```") == inner
  {
    var t := open + ws + inner;
    DropOpeningFence(open, ws, inner);
    if open == "```json" {
      assert !StartsWith(inner, "```") by {
        assert inner[0] == '`' ==> false;
      }
    } else {
      assert !StartsWith(t, "```json") by {
        assert t[3] == (ws + inner)[0];
      }
    }
  }

  /** Text that opens and closes with a backtick is already trimmed, so
      it goes straight to the fence stripping. */
  lemma PrepareFenced(t: string)
    requires |t| >= 3 && t[..3] == "```" && t[|t| - 1] == '`'
    ensures Prepare(t) == Unfence(t)
  {
    assert Trimmed(t);
    TrimTrimmed(t);
    assert StartsWith(t, "```");
  }

  /** The fence stripping on its own turns a fenced reply into its body. */
  lemma UnfenceFenced(open: string, ws1: string, body: string, ws2: string)
    requires body != [] && Trimmed(body) && body[0] != '`'
    requires open == "```json" || (open == "```" && (ws1 != [] || body[0] != 'j'))
    requires AllSpace(ws1) && AllSpace(ws2)
    ensures Unfence(open + ws1 + body + ws2 + "```") == body
  {
    var inner := body + ws2 + "```";
    assert open + ws1 + body + ws2 + "```" == open + ws1 + inner;
    assert inner[0] == body[0];
    OpeningsDropped(open, ws1, inner);
    DropClosingFence(body, ws2);
    TrimTrimmed(body);
  }

  /** A reply wrapped in a fence (```` ```json ```` or ```` ``` ````, then
      whitespace, the body, whitespace, and ```` ``` ````) is handed to the
      parser as the bare body. */
  lemma FenceRoundTrip(open: string, ws1: string, body: string, ws2: string)
    requires body != [] && Trimmed(body) && body[0] != '`'
    requires open == "```json" || (open == "```" && (ws1 != [] || body[0] != 'j'))
    requires AllSpace(ws1) && AllSpace(ws2)
    ensures Prepare(open + ws1 + body + ws2 + "```") == body
  {
    var t := open + ws1 + body + ws2 + "```";
    assert t[..3] == open[..3] == "```";
    PrepareFenced(t);
    UnfenceFenced(open, ws1, body, ws2);
  }

  // ---------------------------------------------------------------------
  // One attempt

  /** The checks one reply goes through, in the source's order; an `Err`
      carries the message of the `Error` thrown. An accepted reply always
      has a non-empty conversational response and came with a 2xx status. */
  function Validate(o: Outcome, parse: string -> ParseOutcome): (r: Result<Response>)
    ensures r.Ok? ==> r.value.conversationalResponse != ""
    ensures r.Ok? ==> o.Reply? && IsOk(o.status)
  {
    match o
    case NetworkError(m) => Err(m)
    case NullBody(_, m) => Err(m)
    case Reply(status, statusText, errorMessage, body) =>
      if !IsOk(status) then Err(StatusError(status, statusText, errorMessage))
      else match body
        case Unreadable(m) => Err(m)
        case Candidates(first) =>
          if first.None? then Err(EmptyResponse)
          else if first.value.finishReason == Some("SAFETY") || first.value.finishReason == Some("BLOCKED") then
            Err(ContentBlocked)
          else if first.value.text.None? || first.value.text.value == "" then Err(EmptyText)
          else match parse(Prepare(first.value.text.value))
            case ParseError(m) => Err(m)
            case Parsed(response) =>
              if response.conversationalResponse == "" then Err(MissingReply) else Ok(response)
  }

  /** The checks run in order: a failed status is reported whatever the
      body; a missing candidate before anything about it; a safety block
      before a missing text; a missing text before the parser is asked; and
      a parsed reply without text is refused. */
  lemma CheckOrder(o: Outcome, parse: string -> ParseOutcome)
    ensures o.Reply? && !IsOk(o.status) ==>
      Validate(o, parse) == Err(StatusError(o.status, o.statusText, o.errorMessage))
    ensures o.Reply? && IsOk(o.status) && o.body == Candidates(None) ==> Validate(o, parse) == Err(EmptyResponse)
    ensures o.Reply? && IsOk(o.status) && o.body.Candidates? && o.body.first.Some?
            && o.body.first.value.finishReason in {Some("SAFETY"), Some("BLOCKED")} ==>
      Validate(o, parse) == Err(ContentBlocked)
    ensures o.Reply? && IsOk(o.status) && o.body.Candidates? && o.body.first.Some?
            && o.body.first.value.finishReason !in {Some("SAFETY"), Some("BLOCKED")}
            && (o.body.first.value.text.None? || o.body.first.value.text.value == "") ==>
      Validate(o, parse) == Err(EmptyText)
    ensures o.Reply? && IsOk(o.status) && o.body.Candidates? && o.body.first.Some?
            && o.body.first.value.finishReason !in {Some("SAFETY"), Some("BLOCKED")}
            && o.body.first.value.text.Some? && o.body.first.value.text.value != "" ==>
      Validate(o, parse) ==
        match parse(Prepare(o.body.first.value.text.value))
        case ParseError(m) => Err(m)
        case Parsed(response) => if response.conversationalResponse == "" then Err(MissingReply) else Ok(response)
  {
  }

  /** The three tags that end the loop at once. */
  predicate IsFatal(message: string)
  {
    Contains(message, "API_401") || Contains(message, "API_403") || Contains(message, "API_400")
  }

  /** An attempt that ends the loop: a success or a fatal error. */
  predicate Stops(r: Result<Response>)
  {
    r.Ok? || IsFatal(r.error)
  }

  // ---------------------------------------------------------------------
  // The retry loop

  const MaxAttempts: nat := 3
  const Delays: seq<nat> := [1000, 2000, 4000]

  /** How a call ended: the reply or the error thrown, the number of
      requests sent, and the waits (in milliseconds) made between them. */
  datatype Verdict = Verdict(result: Result<Response>, attempts: nat, waits: seq<nat>)

  /** What each attempt of a call gives, by attempt number (from zero). */
  function Attempts(respond: (Request, nat) -> Outcome, parse: string -> ParseOutcome, req: Request): nat -> Result<Response>
  {
    (j: nat) => Validate(respond(req, j), parse)
  }

  /** Every accepted attempt carries a reply to show. */
  lemma AcceptedHasReply(respond: (Request, nat) -> Outcome, parse: string -> ParseOutcome, req: Request, j: nat)
    ensures Attempts(respond, parse, req)(j).Ok? ==> Attempts(respond, parse, req)(j).value.conversationalResponse != ""
  {
    assert Attempts(respond, parse, req)(j) == Validate(respond(req, j), parse);
  }

  /** The loop from attempt `i` on, given what each attempt gives, the
      last error seen and the waits made so far. */
  function Run(attempt: nat -> Result<Response>, i: nat, lastError: string, waits: seq<nat>): Verdict
    decreases MaxAttempts - i
  {
    if i >= MaxAttempts then Verdict(Err(lastError), i, waits)
    else
      var r := attempt(i);
      if r.Ok? then Verdict(r, i + 1, waits)
      else if IsFatal(r.error) then Verdict(r, i + 1, waits)
      else Run(attempt, i + 1, r.error, waits + (if i < |Delays| then [Delays[i]] else []))
  }

  lemma {:induction false} RunFrom(attempt: nat -> Result<Response>, i: nat, lastError: string, waits: seq<nat>)
    requires i <= MaxAttempts
    requires i == MaxAttempts ==> attempt(i - 1) == Err(lastError) && !IsFatal(lastError)
    ensures
      var v := Run(attempt, i, lastError, waits);
      && 1 <= v.attempts <= MaxAttempts
      && (i < MaxAttempts ==> i < v.attempts)
      && (i == MaxAttempts ==> v.attempts == i)
      && v.result == attempt(v.attempts - 1)
      && (forall j :: i <= j < v.attempts - 1 ==> !Stops(attempt(j)))
      && (v.attempts < MaxAttempts ==> Stops(v.result))
    decreases MaxAttempts - i
  {
    if i < MaxAttempts {
      var r := attempt(i);
      if !r.Ok? && !IsFatal(r.error) {
        RunFrom(attempt, i + 1, r.error, waits + [Delays[i]]);
      }
    }
  }

  lemma SliceCons(s: seq<nat>, i: nat, j: nat)
    requires i < j <= |s|
    ensures s[i..j] == [s[i]] + s[i + 1..j]
  {
  }

  /** The waits of the loop from attempt `i` on: one delay of the schedule
      after each attempt that did not end it. */
  lemma {:induction false} RunWaitsFrom(attempt: nat -> Result<Response>, i: nat, lastError: string, waits: seq<nat>)
    requires i <= MaxAttempts
    requires i == MaxAttempts ==> attempt(i - 1) == Err(lastError) && !IsFatal(lastError)
    ensures
      var v := Run(attempt, i, lastError, waits);
      && (Stops(v.result) ==> v.waits == waits + Delays[i..v.attempts - 1])
      && (!Stops(v.result) ==> v.waits == waits + Delays[i..v.attempts])
    decreases MaxAttempts - i
  {
    RunFrom(attempt, i, lastError, waits);
    if i < MaxAttempts {
      var r := attempt(i);
      if !r.Ok? && !IsFatal(r.error) {
        var w := waits + [Delays[i]];
        RunWaitsFrom(attempt, i + 1, r.error, w);
        RunFrom(attempt, i + 1, r.error, w);
        var v := Run(attempt, i + 1, r.error, w);
        if Stops(v.result) {
          SliceCons(Delays, i, v.attempts - 1);
        } else {
          SliceCons(Delays, i, v.attempts);
        }
      }
    }
  }

  /** A call sends between one and three requests; every request before
      the last failed with an error that is not fatal; the call returns what
      the last request gave; fewer than three requests means the last one
      succeeded or failed fatally; and the waits are the first delays of
      the schedule, one after each failure that was not fatal. */
  lemma RunCharacterization(attempt: nat -> Result<Response>)
    ensures
      var v := Run(attempt, 0, "", []);
      && 1 <= v.attempts <= MaxAttempts
      && v.result == attempt(v.attempts - 1)
      && (forall j :: 0 <= j < v.attempts - 1 ==> !Stops(attempt(j)))
      && (v.attempts < MaxAttempts ==> Stops(v.result))
      && v.waits == Delays[..if Stops(v.result) then v.attempts - 1 else v.attempts]
  {
    RunFrom(attempt, 0, "", []);
    RunWaitsFrom(attempt, 0, "", []);
    var v := Run(attempt, 0, "", []);
    assert [] + Delays[0..v.attempts - 1] == Delays[..v.attempts - 1];
    assert [] + Delays[0..v.attempts] == Delays[..v.attempts];
  }

  /** The `for` loop of `callAI` over what each attempt gives: a success
      or a fatal error ends it, any other error is followed by the next
      delay of the schedule, and after the last attempt the last error is
      thrown. */
  method Retry(attempt: nat -> Result<Response>) returns (v: Verdict)
    ensures v == Run(attempt, 0, "", [])
    ensures 1 <= v.attempts <= MaxAttempts
    ensures v.result == attempt(v.attempts - 1)
    ensures forall j :: 0 <= j < v.attempts - 1 ==> !Stops(attempt(j))
    ensures v.attempts < MaxAttempts ==> Stops(v.result)
    ensures v.waits == Delays[..if Stops(v.result) then v.attempts - 1 else v.attempts]
  {
    RunCharacterization(attempt);
    var lastError := "";
    var waits: seq<nat> := [];
    var i := 0;
    while i < MaxAttempts
      invariant 0 <= i <= MaxAttempts
      invariant Run(attempt, 0, "", []) == Run(attempt, i, lastError, waits)
    {
      var r := attempt(i);
      if r.Ok? {
        return Verdict(r, i + 1, waits);
      }
      lastError := r.error;
      if IsFatal(lastError) {
        return Verdict(r, i + 1, waits);
      }
      if i < |Delays| {
        waits := waits + [Delays[i]];
      }
      i := i + 1;
    }
    v := Verdict(Err(lastError), i, waits);
  }

  /** `callAI(userMessage)`: every attempt sends the same request, built
      from the key, the recent conversation and the message, and its reply
      is validated; the loop decides how the call ends. */
  method CallAI(apiKey: Option<string>, userName: Option<string>, tasks: seq<Task>, completedToday: nat,
                hour: Hour, history: seq<Entry>, message: string,
                respond: (Request, nat) -> Outcome, parse: string -> ParseOutcome) returns (v: Verdict)
    ensures v == Run(Attempts(respond, parse, Ask(apiKey, userName, tasks, completedToday, hour, history, message)), 0, "", [])
    ensures v.result.Ok? ==> v.result.value.conversationalResponse != ""
  {
    var req := Ask(apiKey, userName, tasks, completedToday, hour, history, message);
    v := Retry(Attempts(respond, parse, req));
    AcceptedHasReply(respond, parse, req, v.attempts - 1);
  }

  // ---------------------------------------------------------------------
  // What the error messages say

  /** No retry-stopping tag occurs in `s`. */
  predicate NoTag(s: string)
  {
    !Contains(s, "API_400") && !Contains(s, "API_401") && !Contains(s, "API_403")
  }

  lemma NoTagPast(pre: string, rest: string)
    requires forall k :: 0 <= k < |pre| ==> pre[k] != 'A'
    requires NoTag(rest)
    ensures NoTag(pre + rest)
  {
    ContainsPastPrefix(pre, rest, "API_400");
    ContainsPastPrefix(pre, rest, "API_401");
    ContainsPastPrefix(pre, rest, "API_403");
  }

  /** Distinct statuses have distinct tags. */
  lemma TagInjective(a: StatusCode, b: StatusCode)
    ensures StatusTag(a) == StatusTag(b) <==> a == b
  {
    if StatusTag(a) == StatusTag(b) {
      assert NatToString(a) == StatusTag(a)[4..] == StatusTag(b)[4..] == NatToString(b);
      NatToStringInjective(a, b);
    }
  }

  /** The tags the error handler spells as literals. */
  lemma ClientTagLiterals()
    ensures StatusTag(400) == "API_400" && StatusTag(401) == "API_401" && StatusTag(403) == "API_403"
  {
  }

  lemma OtherTagLiterals()
    ensures StatusTag(429) == "API_429" && StatusTag(500) == "API_500" && StatusTag(503) == "API_503"
  {
  }

  /** The tags the error handler names. */
  lemma TagNames(status: StatusCode)
    ensures StatusTag(status) == "API_400" <==> status == 400
    ensures StatusTag(status) == "API_401" <==> status == 401
    ensures StatusTag(status) == "API_403" <==> status == 403
    ensures StatusTag(status) == "API_429" <==> status == 429
    ensures StatusTag(status) == "API_500" <==> status == 500
    ensures StatusTag(status) == "API_503" <==> status == 503
  {
    ClientTagLiterals();
    OtherTagLiterals();
    TagInjective(status, 400);
    TagInjective(status, 401);
    TagInjective(status, 403);
    TagInjective(status, 429);
    TagInjective(status, 500);
    TagInjective(status, 503);
  }

  /** The tag of a failed reply's error names its status. */
  lemma StatusTagIsApiStatus(status: StatusCode, statusText: string, errorMessage: Option<string>)
    ensures FieldBefore(StatusError(status, statusText, errorMessage), '|') == StatusTag(status)
    ensures |StatusTag(status)| == 7
  {
    ThreeDigits(status);
    FieldBeforeJoined(StatusTag(status), '|', StatusDetail(status, statusText, errorMessage));
  }

  /** A failed reply's error ends the loop exactly when the status is 400,
      401 or 403, provided the text after the separator (which carries the
      server's own message) mentions none of the three tags. */
  lemma FatalIffAuthOrBadRequest(status: StatusCode, statusText: string, errorMessage: Option<string>)
    requires NoTag(StatusDetail(status, statusText, errorMessage))
    ensures IsFatal(StatusError(status, statusText, errorMessage)) <==> status == 400 || status == 401 || status == 403
  {
    var tag := StatusTag(status);
    var detail := StatusDetail(status, statusText, errorMessage);
    var s := StatusError(status, statusText, errorMessage);
    TagNames(status);
    ThreeDigits(status);
    var pre := tag[1..] + "|";
    assert forall k :: 0 <= k < |pre| ==> pre[k] != 'A';
    NoTagPast(pre, detail);
    assert s[1..] == pre + detail;
    assert s[..7] == tag;
  }

  // ---------------------------------------------------------------------
  // Worked examples

  /** A service that fails every request with the same non-2xx reply
      other than 400, 401 or 403 (a 404, a 429, any 5xx) is asked three
      times, with waits of one, two and four seconds, and the call fails
      with that reply's error. */
  lemma OutageExhaustsRetries(respond: (Request, nat) -> Outcome, parse: string -> ParseOutcome, req: Request,
                              status: StatusCode, statusText: string, errorMessage: Option<string>, body: Body)
    requires !IsOk(status) && status != 400 && status != 401 && status != 403
    requires NoTag(StatusDetail(status, statusText, errorMessage))
    requires forall j :: respond(req, j) == Reply(status, statusText, errorMessage, body)
    ensures Run(Attempts(respond, parse, req), 0, "", [])
      == Verdict(Err(StatusError(status, statusText, errorMessage)), 3, [1000, 2000, 4000])
  {
    var e := StatusError(status, statusText, errorMessage);
    FatalIffAuthOrBadRequest(status, statusText, errorMessage);
    var attempt := Attempts(respond, parse, req);
    forall j: nat ensures attempt(j) == Err(e) {
      assert respond(req, j) == Reply(status, statusText, errorMessage, body);
    }
    EveryAttemptFails(attempt, e);
  }

  /** Attempts that all fail with the same error that is not fatal use up
      the three requests and every delay. */
  lemma EveryAttemptFails(attempt: nat -> Result<Response>, e: string)
    requires !IsFatal(e)
    requires forall j: nat :: attempt(j) == Err(e)
    ensures Run(attempt, 0, "", []) == Verdict(Err(e), 3, [1000, 2000, 4000])
  {
    RunCharacterization(attempt);
  }

  /** A rejected key (401 or 403) is asked once, with no wait. */
  lemma BadKeyFailsFast(respond: (Request, nat) -> Outcome, parse: string -> ParseOutcome, req: Request,
                        status: StatusCode, statusText: string, errorMessage: Option<string>, body: Body)
    requires status == 401 || status == 403
    requires respond(req, 0) == Reply(status, statusText, errorMessage, body)
    ensures Run(Attempts(respond, parse, req), 0, "", [])
      == Verdict(Err(StatusError(status, statusText, errorMessage)), 1, [])
  {
    TagNames(status);
    ThreeDigits(status);
    var m := StatusError(status, statusText, errorMessage);
    assert m[..7] == StatusTag(status);
    assert IsFatal(m);
  }

  /** A dropped connection followed by a good reply: two requests, one
      wait of one second, and the reply is returned. */
  lemma RecoversAfterNetworkError(respond: (Request, nat) -> Outcome, parse: string -> ParseOutcome, req: Request,
                                  message: string, candidate: Candidate, response: Response)
    requires NoTag(message)
    requires respond(req, 0) == NetworkError(message)
    requires respond(req, 1) == Reply(200, "OK", None, Candidates(Some(candidate)))
    requires candidate.finishReason.None? && candidate.text.Some? && candidate.text.value != ""
    requires parse(Prepare(candidate.text.value)) == Parsed(response) && response.conversationalResponse != ""
    ensures Run(Attempts(respond, parse, req), 0, "", []) == Verdict(Ok(response), 2, [1000])
  {
    var attempt := Attempts(respond, parse, req);
    assert attempt(0) == Err(message);
    assert attempt(1) == Ok(response);
    assert Run(attempt, 0, "", []) == Run(attempt, 1, message, [1000]);
  }
}
