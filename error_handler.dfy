/** Jooby's `ErrorHandler`: the one-line log message of an error, the
    default handler that renders an HTML page or a JSON document depending
    on content negotiation, and the chaining of two handlers. */
module ErrorHandler {
  import opened JavaLang

  /** The two media types the default handler offers to `ctx.accept`. */
  datatype MediaType = Html | Json

  /** A `StatusCode`: its number, its reason phrase and the text of its
      `toString()`, whose definition is not part of this model. */
  datatype StatusCode = StatusCode(value: int, reason: string, text: string)

  /** The cause of the error; only its (nullable) message is read. */
  datatype Throwable = Throwable(message: Option<string>)

  /** The web context as an abstract record. `accepted` is what
      `ctx.accept([json, html])` answers for this request (null when
      neither matches); the response part is what the handlers set. */
  datatype Context = Context(
    httpMethod: string,
    path: string,
    accepted: Option<MediaType>,
    responseStarted: bool,
    responseType: Option<MediaType>,
    responseCode: Option<StatusCode>,
    body: Option<string>)

  /** `setResponseType(t)`. */
  function SetResponseType(ctx: Context, t: MediaType): (r: Context)
  {
    ctx.(responseType := Some(t))
  }

  /** `setResponseCode(sc)`. */
  function SetResponseCode(ctx: Context, sc: StatusCode): (r: Context)
  {
    ctx.(responseCode := Some(sc))
  }

  /** `send(body)`: writes the body, which starts the response. */
  function Send(ctx: Context, body: string): (r: Context)
  {
    ctx.(body := Some(body), responseStarted := true)
  }

  // ---------------------------------------------------------------------
  // errorMessage

  /** `errorMessage(ctx, statusCode)`: "METHOD PATH VALUE REASON". */
  function ErrorMessage(ctx: Context, sc: StatusCode): (r: string)
  {
    ctx.httpMethod + " " + ctx.path + " " + IntToString(sc.value) + " " + sc.reason
  }

  /** The text before the first space of `s` and the text after it (all of
      `s` and nothing when it has no space). */
  function SplitAtSpace(s: string): (r: (string, string))
    ensures ' ' !in s ==> r == (s, [])
    ensures ' ' in s ==> |r.0| < |s| && s == r.0 + " " + r.1 && ' ' !in r.0
  {
    if s == [] then ([], [])
    else if s[0] == ' ' then ([], s[1..])
    else
      var (a, b) := SplitAtSpace(s[1..]);
      assert [s[0]] + s[1..] == s;
      ([s[0]] + a, b)
  }

  /** Splitting "a b" at its first space gives back `a` and `b` when `a`
      itself has no space. */
  lemma {:induction false} SplitAtSpaceJoin(a: string, b: string)
    requires ' ' !in a
    ensures SplitAtSpace(a + " " + b) == (a, b)
    decreases |a|
  {
    if a != [] {
      SplitAtSpaceJoin(a[1..], b);
      assert (a + " " + b)[0] == a[0] != ' ';
      assert (a + " " + b)[1..] == a[1..] + " " + b;
      assert [a[0]] + a[1..] == a;
    } else {
      assert (a + " " + b)[1..] == b;
    }
  }

  /** The log line reads back field by field: method, path, the decimal
      status value and the reason, provided method and path hold no
      space (the reason may). */
  lemma ErrorMessageFields(ctx: Context, sc: StatusCode)
    requires ' ' !in ctx.httpMethod && ' ' !in ctx.path
    ensures var (m, rest1) := SplitAtSpace(ErrorMessage(ctx, sc));
            var (p, rest2) := SplitAtSpace(rest1);
            var (v, reason) := SplitAtSpace(rest2);
            m == ctx.httpMethod && p == ctx.path && v == IntToString(sc.value) && reason == sc.reason &&
            (sc.value >= 0 ==> AllDigits(v) && DigitsValue(v) == sc.value)
  {
    var v := IntToString(sc.value);
    assert ' ' !in v;
    var rest2 := v + " " + sc.reason;
    var rest1 := ctx.path + " " + rest2;
    assert ErrorMessage(ctx, sc) == ctx.httpMethod + " " + rest1;
    SplitAtSpaceJoin(ctx.httpMethod, rest1);
    SplitAtSpaceJoin(ctx.path, rest2);
    SplitAtSpaceJoin(v, sc.reason);
    if sc.value >= 0 {
      NatToStringRoundTrip(sc.value);
    }
  }

  // ---------------------------------------------------------------------
  // The HTML page of DEFAULT

  // The pieces of the page, in the order the builder appends them.
  const Doctype := "<!doctype html>\n"
  const HtmlOpen := "<html>\n"
  const HeadOpen := "<head>\n"
  const MetaCharset := "<meta charset=\"utf-8\">\n"
  const StyleOpen := "<style>\n"
  const BodyRule := "body {font-family: \"open sans\",sans-serif; margin-left: 20px;}\n"
  const H1Rule := "h1 {font-weight: 300; line-height: 44px; margin: 25px 0 0 0;}\n"
  const H2Rule := "h2 {font-size: 16px;font-weight: 300; line-height: 44px; margin: 0;}\n"
  const FooterRule := "footer {font-weight: 300; line-height: 44px; margin-top: 10px;}\n"
  const HrRule := "hr {background-color: #f7f7f9;}\n"
  const TraceRule := "div.trace {border:1px solid #e1e1e8; background-color: #f7f7f9;}\n"
  const PRule := "p {padding-left: 20px;}\n"
  const PTabRule := "p.tab {padding-left: 40px;}\n"
  const StyleClose := "</style>\n"
  const TitleOpen := "<title>"
  const TitleClose := "</title>\n"
  const BodyOpen := "<body>\n"
  const H1Open := "<h1>"
  const H1Close := "</h1>\n"
  const Separator := "<hr>\n"
  const MessageOpen := "<h2>message: "
  const StatusOpen := "<h2>status code: "
  const H2Close := "</h2>\n"
  const BodyClose := "</body>\n"
  const HtmlClose := "</html>"

  /** Everything the page holds before the optional message line: the
      style sheet, the status code's text as the title and its reason as
      the heading. */
  function PageHead(sc: StatusCode): (r: string)
  {
    Doctype + HtmlOpen + HeadOpen + MetaCharset + StyleOpen + BodyRule + H1Rule + H2Rule + FooterRule
    + HrRule + TraceRule + PRule + PTabRule + StyleClose
    + TitleOpen + sc.text + TitleClose + BodyOpen + H1Open + sc.reason + H1Close + Separator
  }

  /** The page shows the cause's message when there is one and it is not
      just the status code's own text. */
  predicate ShowsMessage(message: Option<string>, sc: StatusCode) {
    message.Some? && message.value != sc.text
  }

  /** The optional "message:" line. */
  function MessageLine(message: Option<string>, sc: StatusCode): (r: string)
    ensures r == [] <==> !ShowsMessage(message, sc)
    ensures ShowsMessage(message, sc) ==> r == MessageOpen + message.value + H2Close
  {
    if ShowsMessage(message, sc) then MessageOpen + message.value + H2Close else []
  }

  /** The "status code:" line every page has. */
  function StatusLine(sc: StatusCode): (r: string)
  {
    StatusOpen + IntToString(sc.value) + H2Close
  }

  /** The "status code:" line and the closing tags, which end every page. */
  function PageTail(sc: StatusCode): (r: string)
  {
    StatusLine(sc) + BodyClose + HtmlClose
  }

  /** The whole HTML error page. */
  function HtmlPage(message: Option<string>, sc: StatusCode): (r: string)
  {
    PageHead(sc) + MessageLine(message, sc) + PageTail(sc)
  }

  /** The page is the head, then the message line, then the tail. */
  lemma PageParts(message: Option<string>, sc: StatusCode)
    ensures var h := PageHead(sc);
            |h| <= |HtmlPage(message, sc)| &&
            HtmlPage(message, sc)[|h|..] == MessageLine(message, sc) + PageTail(sc)
  {
    var h := PageHead(sc);
    var m := MessageLine(message, sc);
    ConcatAssociative(h, m, PageTail(sc));
    assert (h + (m + PageTail(sc)))[|h|..] == m + PageTail(sc);
  }

  /** The part of the page after the head starts with a "message:" line
      exactly when the message is shown. */
  lemma AfterHead(message: Option<string>, sc: StatusCode)
    ensures var rest := MessageLine(message, sc) + PageTail(sc);
            (StartsWith(rest, MessageOpen) <==> ShowsMessage(message, sc)) &&
            (ShowsMessage(message, sc) ==> StartsWith(rest, MessageOpen + message.value + H2Close))
  {
    var m := MessageLine(message, sc);
    var rest := m + PageTail(sc);
    assert rest[..|m|] == m;
    if !ShowsMessage(message, sc) {
      var v := IntToString(sc.value);
      ConcatAssociative(StatusOpen, v, H2Close);
      ConcatAssociative(StatusOpen, v + H2Close, BodyClose);
      ConcatAssociative(StatusOpen, v + H2Close + BodyClose, HtmlClose);
      assert rest == StatusOpen + (v + H2Close + BodyClose + HtmlClose);
      assert rest[4] == 's';
      assert MessageOpen[4] == 'm';
    }
  }

  /** Right after the head the page has a "message:" line exactly when the
      message is shown; the line holds the message itself. */
  lemma MessageLineIff(message: Option<string>, sc: StatusCode)
    ensures var rest := HtmlPage(message, sc)[|PageHead(sc)|..];
            (StartsWith(rest, MessageOpen) <==> ShowsMessage(message, sc)) &&
            (ShowsMessage(message, sc) ==> StartsWith(rest, MessageOpen + message.value + H2Close))
  {
    PageParts(message, sc);
    AfterHead(message, sc);
  }

  /** Every page ends with the "status code:" line and the closing tags. */
  lemma PageEndsWithStatus(message: Option<string>, sc: StatusCode)
    ensures var p := HtmlPage(message, sc);
            |PageTail(sc)| <= |p| && p[|p| - |PageTail(sc)|..] == PageTail(sc)
  {
    var front := PageHead(sc) + MessageLine(message, sc);
    assert (front + PageTail(sc))[|front|..] == PageTail(sc);
  }

  /** The page only depends on the message through the optional line. */
  lemma PageLength(message: Option<string>, sc: StatusCode)
    ensures |HtmlPage(message, sc)| == |HtmlPage(None, sc)| + |MessageLine(message, sc)|
  {
  }

  // ---------------------------------------------------------------------
  // The JSON document of DEFAULT

  /** The message of the JSON document: the cause's, else the reason. */
  function JsonMessage(cause: Throwable, sc: StatusCode): (r: string)
    ensures cause.message.Some? ==> r == cause.message.value
    ensures cause.message.None? ==> r == sc.reason
  {
    match cause.message
    case Some(m) => m
    case None => sc.reason
  }

  // The fixed parts of the JSON document.
  const JsonOpen := "{\"message\":\""
  const JsonStatusField := "\",\"statusCode\":"
  const JsonReasonField := ",\"reason\":\""
  const JsonClose := "\"}"

  /** `{"message":"M","statusCode":N,"reason":"R"}`. */
  function JsonBody(message: string, sc: StatusCode): (r: string)
  {
    JsonOpen + message + JsonStatusField + IntToString(sc.value) + JsonReasonField + sc.reason + JsonClose
  }

  /** The JSON document begins with the message field, holding the
      message, and ends by closing the reason string and the object. */
  lemma JsonBodyShape(message: string, sc: StatusCode)
    ensures var b := JsonBody(message, sc);
            |JsonOpen| + |message| <= |b| && b[..|JsonOpen|] == JsonOpen &&
            b[|JsonOpen|..|JsonOpen| + |message|] == message &&
            b[|b| - |JsonClose|..] == JsonClose
  {
    var rest := JsonStatusField + IntToString(sc.value) + JsonReasonField + sc.reason;
    var b := JsonBody(message, sc);
    assert b == JsonOpen + message + (rest + JsonClose);
    assert b[..|JsonOpen|] == JsonOpen;
    assert b[|JsonOpen|..|JsonOpen| + |message|] == message;
    assert b[|b| - |JsonClose|..] == JsonClose;
  }

  // ---------------------------------------------------------------------
  // DEFAULT

  /** The HTML branch is taken when negotiation found nothing or html. */
  predicate RendersHtml(ctx: Context) {
    ctx.accepted.None? || ctx.accepted == Some(Html)
  }

  /** What `DEFAULT.apply(ctx, cause, statusCode)` leaves in the context. */
  function Default(ctx: Context, cause: Throwable, sc: StatusCode): (r: Context)
    ensures r.httpMethod == ctx.httpMethod && r.path == ctx.path && r.accepted == ctx.accepted
    ensures r.responseStarted && r.responseCode == Some(sc)
    ensures r.responseType == Some(if RendersHtml(ctx) then Html else Json)
    ensures RendersHtml(ctx) ==> r.body == Some(HtmlPage(cause.message, sc))
    ensures !RendersHtml(ctx) ==> r.body == Some(JsonBody(JsonMessage(cause, sc), sc))
  {
    if RendersHtml(ctx) then
      Send(SetResponseCode(SetResponseType(ctx, Html), sc), HtmlPage(cause.message, sc))
    else
      Send(SetResponseCode(SetResponseType(ctx, Json), sc), JsonBody(JsonMessage(cause, sc), sc))
  }

  /** The page head, appended piece by piece as the builder does. */
  method AppendHead(sc: StatusCode) returns (html: string)
    ensures html == PageHead(sc)
  {
    html := Doctype;
    html := html + HtmlOpen;
    html := html + HeadOpen;
    html := html + MetaCharset;
    html := html + StyleOpen;
    html := html + BodyRule;
    html := html + H1Rule;
    html := html + H2Rule;
    html := html + FooterRule;
    html := html + HrRule;
    html := html + TraceRule;
    html := html + PRule;
    html := html + PTabRule;
    html := html + StyleClose;
    html := html + TitleOpen;
    html := html + sc.text;
    html := html + TitleClose;
    html := html + BodyOpen;
    html := html + H1Open;
    html := html + sc.reason;
    html := html + H1Close;
    html := html + Separator;
  }

  /** The HTML branch's builder: the head, the optional message line, the
      status line and the closing tags. */
  method BuildPage(message: Option<string>, sc: StatusCode) returns (html: string)
    ensures html == HtmlPage(message, sc)
  {
    html := AppendHead(sc);
    ghost var head := html;
    if message.Some? && message.value != sc.text {
      html := html + MessageOpen + message.value + H2Close;
      ConcatAssociative(head, MessageOpen + message.value, H2Close);
      ConcatAssociative(head, MessageOpen, message.value);
    }
    ghost var front := html;
    assert front == head + MessageLine(message, sc);
    html := html + StatusOpen + IntToString(sc.value) + H2Close;
    ConcatAssociative(front, StatusOpen + IntToString(sc.value), H2Close);
    ConcatAssociative(front, StatusOpen, IntToString(sc.value));
    html := html + BodyClose;
    html := html + HtmlClose;
    ConcatAssociative(front, StatusLine(sc), BodyClose);
    ConcatAssociative(front, StatusLine(sc) + BodyClose, HtmlClose);
  }

  /** `DEFAULT`: the log line is left out; the branch sets the response
      type and code and sends the rendered body. */
  method ApplyDefault(ctx: Context, cause: Throwable, sc: StatusCode) returns (out: Context)
    ensures out == Default(ctx, cause, sc)
  {
    var t := ctx.accepted;
    if t.None? || t == Some(Html) {
      var message := cause.message;
      var html := BuildPage(message, sc);
      out := SetResponseType(ctx, Html);
      out := SetResponseCode(out, sc);
      out := Send(out, html);
    } else {
      var message := JsonMessage(cause, sc);
      out := SetResponseType(ctx, Json);
      out := SetResponseCode(out, sc);
      out := Send(out, JsonOpen + message + JsonStatusField + IntToString(sc.value)
                       + JsonReasonField + sc.reason + JsonClose);
    }
  }

  // ---------------------------------------------------------------------
  // then

  /** An error handler: what it leaves in the context. */
  type Handler = (Context, Throwable, StatusCode) -> Context

  /** `DEFAULT` as a handler value. */
  function DefaultHandler(): (h: Handler)
    ensures forall ctx, cause, sc :: h(ctx, cause, sc) == Default(ctx, cause, sc)
  {
    (ctx, cause, sc) => Default(ctx, cause, sc)
  }

  /** `h.then(next)`: `h` always runs; `next` runs on what `h` left only
      when `h` did not start the response. */
  function Then(h: Handler, next: Handler): (r: Handler)
  {
    (ctx, cause, sc) =>
      var c := h(ctx, cause, sc);
      if !c.responseStarted then next(c, cause, sc) else c
  }

  /** `next` runs exactly when the first handler left the response
      unstarted; otherwise the chain's result is the first handler's. */
  lemma ThenRunsNextIff(h: Handler, next: Handler, ctx: Context, cause: Throwable, sc: StatusCode)
    ensures h(ctx, cause, sc).responseStarted ==> Then(h, next)(ctx, cause, sc) == h(ctx, cause, sc)
    ensures !h(ctx, cause, sc).responseStarted ==>
              Then(h, next)(ctx, cause, sc) == next(h(ctx, cause, sc), cause, sc)
  {
  }

  /** Nothing chained after `DEFAULT` ever runs, since it always sends. */
  lemma NothingRunsAfterDefault(next: Handler, ctx: Context, cause: Throwable, sc: StatusCode)
    ensures Then(DefaultHandler(), next)(ctx, cause, sc) == Default(ctx, cause, sc)
  {
  }

  /** Chaining is associative. */
  lemma ThenAssociative(a: Handler, b: Handler, c: Handler, ctx: Context, cause: Throwable, sc: StatusCode)
    ensures Then(Then(a, b), c)(ctx, cause, sc) == Then(a, Then(b, c))(ctx, cause, sc)
  {
  }

  /** A handler that leaves the context alone is a unit of chaining on the
      right, and on the left for a response not yet started. */
  lemma ThenUnit(h: Handler, ctx: Context, cause: Throwable, sc: StatusCode)
    ensures Then(h, (c, e, s) => c)(ctx, cause, sc) == h(ctx, cause, sc)
    ensures !ctx.responseStarted ==> Then((c, e, s) => c, h)(ctx, cause, sc) == h(ctx, cause, sc)
  {
  }
}
