/** `handleError`: the tag before the first `|` of a thrown error's
    message picks the notice shown to the user and appended to the
    conversation. */
module ErrorNotices {
  import opened Wrappers
  import opened Text
  import opened Gateway

  const Fallback := "Something went wrong. "
  const FormatNotice := "Request format issue. This is likely temporary. Try again."
  const KeyNotice := "API key issue. Your key might be invalid or expired. Check settings."
  const RateNotice := "Rate limit reached. Take a breather for a minute."
  const ServiceNotice := "Google AI service is having a moment. Try again shortly."
  const BlockedNotice := "Response was blocked by safety filters. Try rephrasing."
  const EmptyNotice := "Model returned empty response. Try rephrasing or wait a moment."
  const InvalidNotice := "Response format was invalid. Try again."
  const ConnectionNotice := "Connection issue. Check your network and retry."

  /** `error.message.split('|')[0]`. */
  function ErrorType(message: string): string
  {
    FieldBefore(message, '|')
  }

  /** The `switch` on the error type. */
  function NoticeFor(errorType: string): string
  {
    if errorType == "API_400" then FormatNotice
    else if errorType == "API_401" || errorType == "API_403" then KeyNotice
    else if errorType == "API_429" then RateNotice
    else if errorType == "API_500" || errorType == "API_503" then ServiceNotice
    else if errorType == "CONTENT_BLOCKED" then BlockedNotice
    else if errorType == "EMPTY_RESPONSE" || errorType == "EMPTY_TEXT" then EmptyNotice
    else if errorType == "PARSE_FAILURE" then InvalidNotice
    else ConnectionNotice
  }

  /** The notice for an error message; an empty message keeps the initial
      text. */
  function UserMessage(message: string): string
  {
    if message == "" then Fallback else NoticeFor(ErrorType(message))
  }

  /** What a failed reply tells the user: the status alone decides, and
      only 500 and 503 among the server errors get the service notice;
      502, 504 and the other statuses fall to the connection notice. */
  lemma StatusNotice(status: StatusCode, statusText: string, errorMessage: Option<string>)
    ensures UserMessage(StatusError(status, statusText, errorMessage)) ==
      if status == 400 then FormatNotice
      else if status == 401 || status == 403 then KeyNotice
      else if status == 429 then RateNotice
      else if status == 500 || status == 503 then ServiceNotice
      else ConnectionNotice
  {
    StatusTagIsApiStatus(status, statusText, errorMessage);
    StatusTagNotice(status);
  }

  /** The notice of a status tag. */
  lemma StatusTagNotice(status: StatusCode)
    ensures NoticeFor(StatusTag(status)) ==
      if status == 400 then FormatNotice
      else if status == 401 || status == 403 then KeyNotice
      else if status == 429 then RateNotice
      else if status == 500 || status == 503 then ServiceNotice
      else ConnectionNotice
  {
    TagNames(status);
    ThreeDigits(status);
    var t := StatusTag(status);
    assert |t| == 7;
    assert t != "CONTENT_BLOCKED" && t != "EMPTY_RESPONSE" && t != "EMPTY_TEXT" && t != "PARSE_FAILURE";
  }

  /** A message `tag|detail` is classified by `tag` alone. */
  lemma {:induction false} TaggedType(tag: string, detail: string)
    requires '|' !in tag
    ensures ErrorType(tag + "|" + detail) == tag
  {
    FieldBeforeJoined(tag, '|', detail);
  }

  /** A message `tag|detail` gets the notice of `tag`. */
  lemma TaggedNotice(tag: string, detail: string)
    requires tag != "" && '|' !in tag
    ensures UserMessage(tag + "|" + detail) == NoticeFor(tag)
  {
    TaggedType(tag, detail);
  }

  /** The notices of the tags the reply checks use. */
  lemma CheckTagNotices()
    ensures NoticeFor("EMPTY_RESPONSE") == EmptyNotice && NoticeFor("EMPTY_TEXT") == EmptyNotice
    ensures NoticeFor("CONTENT_BLOCKED") == BlockedNotice && NoticeFor("PARSE_FAILURE") == InvalidNotice
  {
  }

  /** The errors the reply checks throw map to their own notices,
      whatever the text after the tag. */
  lemma CheckNotices(detail: string)
    ensures UserMessage("EMPTY_RESPONSE" + "|" + detail) == EmptyNotice
    ensures UserMessage("EMPTY_TEXT" + "|" + detail) == EmptyNotice
    ensures UserMessage("CONTENT_BLOCKED" + "|" + detail) == BlockedNotice
    ensures UserMessage("PARSE_FAILURE" + "|" + detail) == InvalidNotice
  {
    CheckTagNotices();
    TaggedNotice("EMPTY_RESPONSE", detail);
    TaggedNotice("EMPTY_TEXT", detail);
    TaggedNotice("CONTENT_BLOCKED", detail);
    TaggedNotice("PARSE_FAILURE", detail);
  }

  /** A message without a `|` that is not itself a tag (a dropped
      connection, a JSON syntax error) gets the connection notice. */
  lemma UntaggedNotice(message: string)
    requires message != [] && '|' !in message
    requires message !in {"API_400", "API_401", "API_403", "API_429", "API_500", "API_503",
                          "CONTENT_BLOCKED", "EMPTY_RESPONSE", "EMPTY_TEXT", "PARSE_FAILURE"}
    ensures UserMessage(message) == ConnectionNotice
  {
    FieldBeforeWhole(message, '|');
  }

  /** The failed replies that stop the retries at once are exactly those
      whose notice asks to fix the request or the key. */
  lemma FatalStatusNotices(status: StatusCode, statusText: string, errorMessage: Option<string>)
    requires NoTag(StatusDetail(status, statusText, errorMessage))
    ensures IsFatal(StatusError(status, statusText, errorMessage)) <==>
      UserMessage(StatusError(status, statusText, errorMessage)) in {FormatNotice, KeyNotice}
  {
    FatalIffAuthOrBadRequest(status, statusText, errorMessage);
    StatusNotice(status, statusText, errorMessage);
  }

  /** A rejected key whose reply body is the JSON `null` is not treated as a
      rejected key: reading the body throws a `TypeError` without a tag, so
      all three requests are made, every delay is waited, and the user gets
      the connection notice rather than the key notice. */
  lemma NullBodyKeyRejection(respond: (Request, nat) -> Outcome, parse: string -> ParseOutcome, req: Request,
                             status: StatusCode, typeError: string)
    requires status == 401 || status == 403
    requires typeError != [] && '|' !in typeError && NoTag(typeError)
    requires typeError !in {"API_400", "API_401", "API_403", "API_429", "API_500", "API_503",
                            "CONTENT_BLOCKED", "EMPTY_RESPONSE", "EMPTY_TEXT", "PARSE_FAILURE"}
    requires forall j :: respond(req, j) == NullBody(status, typeError)
    ensures Run(Attempts(respond, parse, req), 0, "", []) == Verdict(Err(typeError), 3, [1000, 2000, 4000])
    ensures UserMessage(typeError) == ConnectionNotice
  {
    var attempt := Attempts(respond, parse, req);
    forall j: nat ensures attempt(j) == Err(typeError) {
      assert respond(req, j) == NullBody(status, typeError);
    }
    EveryAttemptFails(attempt, typeError);
    UntaggedNotice(typeError);
  }
}
