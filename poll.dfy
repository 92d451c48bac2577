/**
 * The per-user poller: one state record per user, the single poll run with its
 * in-flight guard, starting and stopping the continuous schedule, the cached
 * continuous preference, the coalesced `/status` reply and the resume of all
 * continuous users after a restart.
 *
 * Everything the poller asks of the outside world (database reads, the upstream
 * HTTP response, the clock, the HTML parser, the mail sender, `setInterval`
 * and the SHA-1 digest) is an input: one `World` value per call.
 */
module Poll {
  import opened Wrappers
  import opened Text
  import Js
  import Scrape
  import Diff
  import Payload
  import Lists

  // ------------------------------------------------------------ responses

  /** What the upstream POST resolved with; `contentType` is None when the header is missing. */
  datatype Response = Response(status: Option<int>, contentType: Option<string>, data: Js.Value)

  /** `extractIaaiData`'s record: the JSON body, or a text snippet. */
  datatype IaaiData =
    | JsonData(status: Option<int>, contentType: string, json: Js.Value)
    | TextData(status: Option<int>, contentType: string, text: string)

  const TEXT_LIMIT: nat := 8000
  const SUMMARY_TEXT: nat := 600
  const SUMMARY_KEYS: nat := 30

  /** `resp?.headers?.["content-type"] || dflt` */
  function HeaderOr(contentType: Option<string>, dflt: string): string {
    if contentType.None? || contentType.value == "" then dflt else contentType.value
  }

  /** `typeof data === "object"` and truthy: an array or an object. */
  predicate IsObjectLike(v: Js.Value) { v.Arr? || v.Obj? }

  /** `extractIaaiData(resp)` with `maxChars` 8000. */
  function ExtractIaaiData(resp: Response): (r: IaaiData)
    ensures r.status == resp.status && r.contentType == HeaderOr(resp.contentType, "unknown")
    ensures r.JsonData? <==> Contains(HeaderOr(resp.contentType, "unknown"), "application/json") && IsObjectLike(resp.data)
    ensures r.JsonData? ==> r.json == resp.data
    ensures r.TextData? ==> |r.text| <= TEXT_LIMIT
    ensures r.TextData? && resp.data.Str? ==> r.text == Lists.Take(resp.data.s, TEXT_LIMIT)
    ensures r.TextData? && resp.data.Undefined? ==> r.text == ""
    ensures r.TextData? && !resp.data.Str? && !resp.data.Undefined? ==> r.text == Lists.Take(Js.Stringify(resp.data), TEXT_LIMIT)
  {
    var ct := HeaderOr(resp.contentType, "unknown");
    if Contains(ct, "application/json") && IsObjectLike(resp.data) then JsonData(resp.status, ct, resp.data)
    else
      var text := match resp.data
        case Str(s) => s
        case Undefined => ""
        case _ => Js.Stringify(resp.data);
      TextData(resp.status, ct, Lists.Take(text, TEXT_LIMIT))
  }

  /** The record as the status endpoint serialises it (`status ?? null`). */
  function IaaiValue(d: IaaiData): Js.Value {
    match d
    case JsonData(status, ct, json) =>
      Js.Obj([("status", Payload.OfInt(status)), ("contentType", Js.Str(ct)), ("json", json)])
    case TextData(status, ct, text) =>
      Js.Obj([("status", Payload.OfInt(status)), ("contentType", Js.Str(ct)), ("text", Js.Str(text))])
  }

  /** `${resp?.status}`: an absent status prints as "undefined". */
  function StatusText(status: Option<int>): string {
    match status
    case None => "undefined"
    case Some(n) => IntToString(n)
  }

  function SummaryHead(resp: Response): string {
    "IAAI response: HTTP " + StatusText(resp.status) + " (" + HeaderOr(resp.contentType, "unknown") + "), "
  }

  /** `summarizeIaaiResponse(resp)`: a text snippet, the first object keys, or the value's type. */
  function Summarize(resp: Response): (r: string)
    ensures StartsWith(r, SummaryHead(resp))
    ensures resp.data.Str? ==> StartsWith(r, SummaryHead(resp) + "text[0..600]=\"")
    ensures resp.data.Arr? || resp.data.Obj? ==> StartsWith(r, SummaryHead(resp) + "json keys=")
    ensures !(resp.data.Str? || resp.data.Arr? || resp.data.Obj?) ==>
      r == SummaryHead(resp) + "type=" + Js.TypeOf(resp.data)
  {
    var head := SummaryHead(resp);
    var tail := match resp.data
      case Str(s) => "text[0..600]=" + Js.Quote(Lists.Take(s, SUMMARY_TEXT))
      case Arr(_) => "json keys=" + Js.Join(Lists.Take(Js.Keys(resp.data), SUMMARY_KEYS), ", ")
      case Obj(_) => "json keys=" + Js.Join(Lists.Take(Js.Keys(resp.data), SUMMARY_KEYS), ", ")
      case _ => "type=" + Js.TypeOf(resp.data);
    assert (head + tail)[..|head|] == head;
    head + tail
  }

  /** The body is an HTML page: a string whose content type mentions text/html. */
  predicate IsHtml(resp: Response) {
    resp.data.Str? && Contains(HeaderOr(resp.contentType, ""), "text/html")
  }

  // ------------------------------------------------------------ the state

  /** `{ url, payload }` of the last upstream request. */
  datatype Request = Request(url: string, payload: Js.Value)

  /** One user's state record, as a value. */
  datatype Bot = Bot(
    running: bool,
    inFlight: bool,
    lastOutput: Option<string>,
    lastRunAt: Option<int>,
    timer: Option<nat>,
    continuousEnabled: Option<bool>,
    lastContinuousAt: int,
    lastSeen: map<string, Option<string>>,
    lastCount: nat,
    lastStatusAt: int,
    lastStatusJson: Option<Js.Value>,
    lastStatusEtag: Option<string>,
    lastIaaiRequest: Option<Request>,
    lastIaaiResponse: Option<IaaiData>,
    lastUserFilters: Js.Value)

  /** The record `getState` creates for a user it has not seen. */
  function Initial(): (b: Bot)
    ensures !b.running && !b.inFlight && b.timer.None? && b.lastSeen == map[] && b.lastStatusJson.None?
  {
    Bot(false, false, None, None, None, None, 0, map[], 0, 0, None, None, None, None, Js.Null)
  }

  /** A timer is only ever kept for a running bot. */
  predicate Scheduled(b: Bot) { b.timer.Some? ==> b.running }

  /** `st.running && st.timer`: the bot is polling on a schedule. */
  predicate Live(b: Bot) { b.running && b.timer.Some? }

  // ------------------------------------------------------- runOnceForUser

  /** The outside world as one poll run sees it. */
  datatype World = World(
    filters: Try<Js.Value>,                 // the user's filter row (Null when absent), or the query's error
    url: string,                            // the cache-busting request URL
    resp: Try<Response>,                    // the upstream reply, or the transport error
    now: int,                               // the clock once the reply arrived
    pageOf: string -> Scrape.Page,          // the parsed HTML body
    parse: string -> Option<Js.Value>,      // JSON.parse, None when it throws
    user: Try<Js.Value>,                    // the `email, username` row (Undefined when absent)
    send: Try<()>)                          // the mail sender's outcome

  const SKIPPED := "IAAI poll skipped (previous poll still running)"
  const RESULT_LIMIT: nat := 200

  /** `e?.message || "unknown error"` */
  function MessageOr(m: string): string { if m == "" then "unknown error" else m }

  /** The note appended after a poll that found `n > 0` changes. */
  function MailNote(n: nat, user: Js.Value, send: Try<()>): string {
    if !Js.Truthy(Js.Get(user, "email")) then " | user has no email set"
    else match send
      case Ok(_) => " | emailed " + NatToString(n) + " update(s)"
      case Threw(m) => " | email failed: " + MessageOr(m)
  }

  /** `u || {}` and `u || null` */
  function RowOr(u: Js.Value, dflt: Js.Value): Js.Value { if Js.Truthy(u) then u else dflt }

  /** `runOnceForUser`: the new state and what the call returns or throws. */
  function RunOnceSpec(b: Bot, w: World): (Bot, Try<Option<IaaiData>>) {
    if b.inFlight then (b.(lastOutput := Some(SKIPPED)), Ok(b.lastIaaiResponse))
    else
      var run := GuardedRun(b.(inFlight := true), w);
      (run.0.(inFlight := false), run.1)
  }

  /** The body of the `try`: read the filters, post the search, look at the reply. */
  function GuardedRun(b: Bot, w: World): (Bot, Try<Option<IaaiData>>) {
    match w.filters
    case Threw(m) => (b, Threw(m))
    case Ok(u) =>
      var payload := Payload.PayloadValue(Payload.BuildSearches(RowOr(u, Js.Obj([]))));
      var b1 := b.(lastUserFilters := RowOr(u, Js.Null), lastIaaiRequest := Some(Request(w.url, payload)));
      match w.resp
      case Threw(m) => (b1, Threw(m))
      case Ok(resp) => Respond(b1, resp, w)
  }

  /** Record the reply; an HTML page is then scanned for listings. */
  function Respond(b: Bot, resp: Response, w: World): (Bot, Try<Option<IaaiData>>) {
    var b1 := b.(lastRunAt := Some(w.now), lastOutput := Some(Summarize(resp)),
                 lastIaaiResponse := Some(ExtractIaaiData(resp)));
    if IsHtml(resp) then ScanPage(b1, resp.data.s, w) else (b1, Ok(b1.lastIaaiResponse))
  }

  /** Extract the listings, diff them against `lastSeen`, replace it, and note what was mailed. */
  function ScanPage(b: Bot, html: string, w: World): (Bot, Try<Option<IaaiData>>)
    requires b.lastOutput.Some?
  {
    var vehicles := Scrape.Extract(w.pageOf(html), RESULT_LIMIT, w.parse);
    var changes := Diff.Changes(b.lastSeen, vehicles);
    Notify(b.(lastCount := |vehicles|, lastSeen := Diff.NextSeen(vehicles)), |changes|, w)
  }

  /** After `n` changes: nothing to send, the user lookup's error, or the note on what was mailed. */
  function Notify(b: Bot, n: nat, w: World): (Bot, Try<Option<IaaiData>>)
    requires b.lastOutput.Some?
  {
    if n == 0 then (b.(lastOutput := Some(b.lastOutput.value + " | no changes detected")), Ok(b.lastIaaiResponse))
    else match w.user
      case Threw(m) => (b, Threw(m))
      case Ok(user) => (b.(lastOutput := Some(b.lastOutput.value + MailNote(n, user, w.send))), Ok(b.lastIaaiResponse))
  }

  // ------------------------------------------------ startContinuousForUser

  /** The outside world as one start sees it. */
  datatype StartWorld = StartWorld(
    filters: Try<Js.Value>,   // the filter row read before deciding to start
    now: int,                 // the clock when refusing to start
    run: World,               // the immediate first poll
    handle: nat)              // what `setInterval` returns

  const NOT_STARTED := "Not started: no filters saved for this user"

  /** `startContinuousForUser`: the new state and whether it threw. */
  function StartSpec(b: Bot, s: StartWorld): (Bot, Try<()>) {
    if Live(b) then (b, Ok(()))
    else match s.filters
      case Threw(m) => (b, Threw(m))
      case Ok(f) =>
        if !Payload.HasAnyFiltersSet(f) then
          (b.(running := false, timer := None, lastRunAt := Some(s.now), lastOutput := Some(NOT_STARTED)), Ok(()))
        else
          var run := RunOnceSpec(b.(running := true), s.run);
          match run.1
          case Threw(m) => (run.0, Threw(m))
          case Ok(_) => (run.0.(timer := Some(s.handle)), Ok(()))
  }

  /** What the interval callback's `catch` records when a scheduled poll throws. */
  function FailureSpec(b: Bot, now: int, message: string): (r: Bot) {
    var text := "IAAI error: " + MessageOr(message);
    b.(lastRunAt := Some(now), lastOutput := Some(text), lastIaaiResponse := Some(TextData(None, "error", text)))
  }

  /** One firing of the interval: a poll, and on a throw the recorded failure. */
  function TickSpec(b: Bot, w: World, now: int): Bot {
    var run := RunOnceSpec(b, w);
    match run.1
    case Threw(m) => FailureSpec(run.0, now, m)
    case Ok(_) => run.0
  }

  /** `stopContinuousForUser` */
  function StopSpec(b: Bot): Bot {
    b.(running := false, timer := None)
  }

  // ------------------------------------------------ refreshContinuousState

  const CONTINUOUS_MAX_AGE: int := 5000

  /** `getBotContinuous`: the row's flag, false without a row. */
  function ContinuousOf(row: Js.Value): bool {
    Js.Truthy(row) && Js.Truthy(Js.Get(row, "bot_continuous"))
  }

  /** `refreshContinuousState(userId, st)`: the cached flag while fresh, else a database read. */
  function RefreshSpec(b: Bot, now: int, row: Try<Js.Value>): (Bot, Try<bool>) {
    if b.continuousEnabled.Some? && now - b.lastContinuousAt < CONTINUOUS_MAX_AGE then
      (b, Ok(b.continuousEnabled.value))
    else match row
      case Threw(m) => (b, Threw(m))
      case Ok(r) =>
        var enabled := ContinuousOf(r);
        (b.(continuousEnabled := Some(enabled), lastContinuousAt := now), Ok(enabled))
  }

  // --------------------------------------------------------- GET /status

  const STATUS_MIN_INTERVAL: int := 1000

  /** The outside world as one status request sees it. */
  datatype StatusWorld = StatusWorld(
    now: int,
    ifNoneMatch: Option<string>,     // the If-None-Match header, None when absent
    debug: bool,                     // `?debug=1`
    row: Try<Js.Value>,              // the `bot_continuous` row, or the query's error
    sha1Hex: string -> string)       // the hex SHA-1 digest of a string

  /** A 304 with no body, or a JSON body with its ETag header. */
  datatype StatusReply = NotModified | Body(etag: string, json: Js.Value)

  function BoolOrNull(o: Option<bool>): Js.Value {
    match o
    case None => Js.Null
    case Some(x) => Js.Bool(x)
  }

  function RequestValue(r: Option<Request>): Js.Value {
    match r
    case None => Js.Null
    case Some(q) => Js.Obj([("url", Js.Str(q.url)), ("payload", q.payload)])
  }

  function ResponseValue(d: Option<IaaiData>): Js.Value {
    match d
    case None => Js.Null
    case Some(x) => IaaiValue(x)
  }

  /** The status body; the debug fields are spread in only for `debug`. */
  function StatusPayload(b: Bot, continuousEnabled: Option<bool>, debug: bool): (r: Js.Value)
    ensures r.Obj? && Js.Get(r, "ok") == Js.Bool(true)
  {
    var r := Js.Obj([("ok", Js.Bool(true)), ("bot", Js.Obj(BotFields(b, continuousEnabled) + DebugFields(b, debug)))]);
    Js.LookupAt(r.fields, "ok", 0);
    r
  }

  /** The properties every status body reports. */
  function BotFields(b: Bot, continuousEnabled: Option<bool>): seq<(string, Js.Value)> {
    [("running", Js.Bool(b.running)), ("continuousEnabled", BoolOrNull(continuousEnabled)),
     ("lastOutput", Js.OfString(b.lastOutput)), ("lastRunAt", Payload.OfInt(b.lastRunAt))]
  }

  /** The request diagnostics, present only with `debug`. */
  function DebugFields(b: Bot, debug: bool): seq<(string, Js.Value)> {
    if debug then
      [("lastUserFilters", b.lastUserFilters), ("lastIaaiRequest", RequestValue(b.lastIaaiRequest)),
       ("lastIaaiResponse", ResponseValue(b.lastIaaiResponse))]
    else []
  }

  /**
   * The status body reports the live `running` flag, the stored preference, the
   * last output and the last run time.
   */
  lemma StatusBodyFields(b: Bot, continuousEnabled: Option<bool>, debug: bool)
    ensures var bot := Js.Get(StatusPayload(b, continuousEnabled, debug), "bot");
      bot.Obj? &&
      Js.Get(bot, "running") == Js.Bool(b.running) &&
      Js.Get(bot, "continuousEnabled") == BoolOrNull(continuousEnabled) &&
      Js.Get(bot, "lastOutput") == Js.OfString(b.lastOutput) &&
      Js.Get(bot, "lastRunAt") == Payload.OfInt(b.lastRunAt)
  {
    var fields := BotFields(b, continuousEnabled) + DebugFields(b, debug);
    StatusBot(b, continuousEnabled, debug);
    Js.LookupAt(fields, "running", 0);
    Js.LookupAt(fields, "continuousEnabled", 1);
    Js.LookupAt(fields, "lastOutput", 2);
    Js.LookupAt(fields, "lastRunAt", 3);
  }

  /** The request diagnostics are in the status body exactly with `debug`. */
  lemma StatusBodyDebug(b: Bot, continuousEnabled: Option<bool>, debug: bool)
    ensures var bot := Js.Get(StatusPayload(b, continuousEnabled, debug), "bot");
      debug ==>
        Js.Get(bot, "lastUserFilters") == b.lastUserFilters &&
        Js.Get(bot, "lastIaaiRequest") == RequestValue(b.lastIaaiRequest) &&
        Js.Get(bot, "lastIaaiResponse") == ResponseValue(b.lastIaaiResponse)
    ensures var bot := Js.Get(StatusPayload(b, continuousEnabled, debug), "bot");
      !debug ==>
        Js.Get(bot, "lastUserFilters") == Js.Undefined &&
        Js.Get(bot, "lastIaaiRequest") == Js.Undefined &&
        Js.Get(bot, "lastIaaiResponse") == Js.Undefined
  {
    var fields := BotFields(b, continuousEnabled) + DebugFields(b, debug);
    StatusBot(b, continuousEnabled, debug);
    if debug {
      Js.LookupAt(fields, "lastUserFilters", 4);
      Js.LookupAt(fields, "lastIaaiRequest", 5);
      Js.LookupAt(fields, "lastIaaiResponse", 6);
    } else {
      assert fields == BotFields(b, continuousEnabled);
      Js.LookupAbsent(fields, "lastUserFilters");
      Js.LookupAbsent(fields, "lastIaaiRequest");
      Js.LookupAbsent(fields, "lastIaaiResponse");
    }
  }

  lemma StatusBot(b: Bot, continuousEnabled: Option<bool>, debug: bool)
    ensures Js.Get(StatusPayload(b, continuousEnabled, debug), "bot") ==
      Js.Obj(BotFields(b, continuousEnabled) + DebugFields(b, debug))
  {
    var r := StatusPayload(b, continuousEnabled, debug);
    Js.LookupAt(r.fields, "bot", 1);
  }

  /** Within the coalescing window a cached body is served again, and no database read happens. */
  predicate Coalesced(b: Bot, now: int) {
    b.lastStatusJson.Some? && now - b.lastStatusAt < STATUS_MIN_INTERVAL
  }

  /** `GET /api/bot/status` */
  function StatusSpec(b: Bot, s: StatusWorld): (Bot, StatusReply) {
    if Coalesced(b, s.now) then
      if b.lastStatusEtag.Some? && b.lastStatusEtag.value != "" && s.ifNoneMatch == b.lastStatusEtag then (b, NotModified)
      else (b, Body(b.lastStatusEtag.GetOr(""), b.lastStatusJson.value))
    else
      var refreshed := RefreshSpec(b, s.now, s.row);
      var enabled := match refreshed.1 case Ok(e) => Some(e) case Threw(_) => b.continuousEnabled;
      var b1 := refreshed.0;
      var payload := StatusPayload(b1, enabled, s.debug);
      var etag := s.sha1Hex(Js.Stringify(payload));
      var b2 := b1.(lastStatusJson := Some(payload), lastStatusAt := s.now, lastStatusEtag := Some(etag));
      if s.ifNoneMatch == Some(etag) then (b2, NotModified) else (b2, Body(etag, payload))
  }

  // ============================================================ the objects

  /** One user's mutable state record. */
  class BotState {
    var running: bool
    var inFlight: bool
    var lastOutput: Option<string>
    var lastRunAt: Option<int>
    var timer: Option<nat>
    var continuousEnabled: Option<bool>
    var lastContinuousAt: int
    var lastSeen: map<string, Option<string>>
    var lastCount: nat
    var lastStatusAt: int
    var lastStatusJson: Option<Js.Value>
    var lastStatusEtag: Option<string>
    var lastIaaiRequest: Option<Request>
    var lastIaaiResponse: Option<IaaiData>
    var lastUserFilters: Js.Value

    function Snapshot(): Bot
      reads this
    {
      Bot(running, inFlight, lastOutput, lastRunAt, timer, continuousEnabled, lastContinuousAt, lastSeen,
          lastCount, lastStatusAt, lastStatusJson, lastStatusEtag, lastIaaiRequest, lastIaaiResponse, lastUserFilters)
    }

    constructor ()
      ensures Snapshot() == Initial()
    {
      running, inFlight, lastOutput, lastRunAt, timer := false, false, None, None, None;
      continuousEnabled, lastContinuousAt := None, 0;
      lastSeen, lastCount := map[], 0;
      lastStatusAt, lastStatusJson, lastStatusEtag := 0, None, None;
      lastIaaiRequest, lastIaaiResponse, lastUserFilters := None, None, Js.Null;
    }

    /** `runOnceForUser(userId)`; `inFlight` is cleared on every path that set it. */
    method RunOnce(w: World) returns (r: Try<Option<IaaiData>>)
      modifies this
      ensures (Snapshot(), r) == RunOnceSpec(old(Snapshot()), w)
    {
      if inFlight {
        lastOutput := Some(SKIPPED);
        return Ok(lastIaaiResponse);
      }
      inFlight := true;
      r := Guarded(w);
      inFlight := false;
    }

    method Guarded(w: World) returns (r: Try<Option<IaaiData>>)
      modifies this
      ensures (Snapshot(), r) == GuardedRun(old(Snapshot()), w)
    {
      match w.filters {
        case Threw(m) =>
          return Threw(m);
        case Ok(u) =>
          var payload := Payload.BuildIaaiPayload(RowOr(u, Js.Obj([])));
          NoteRequest(RowOr(u, Js.Null), Request(w.url, payload));
          match w.resp {
            case Threw(m) =>
              return Threw(m);
            case Ok(resp) =>
              r := Record(resp, w);
          }
      }
    }

    /** `st.lastUserFilters = ...; st.lastIaaiRequest = ...` */
    method NoteRequest(filters: Js.Value, request: Request)
      modifies this
      ensures Snapshot() == old(Snapshot()).(lastUserFilters := filters, lastIaaiRequest := Some(request))
    {
      lastUserFilters, lastIaaiRequest := filters, Some(request);
    }

    method Record(resp: Response, w: World) returns (r: Try<Option<IaaiData>>)
      modifies this
      ensures (Snapshot(), r) == Respond(old(Snapshot()), resp, w)
    {
      lastRunAt := Some(w.now);
      lastOutput := Some(Summarize(resp));
      lastIaaiResponse := Some(ExtractIaaiData(resp));
      if IsHtml(resp) {
        r := Scan(resp.data.s, w);
      } else {
        r := Ok(lastIaaiResponse);
      }
    }

    method Scan(html: string, w: World) returns (r: Try<Option<IaaiData>>)
      requires lastOutput.Some?
      modifies this
      ensures (Snapshot(), r) == ScanPage(old(Snapshot()), html, w)
    {
      var vehicles := Scrape.ExtractVehiclesFromHtml(w.pageOf(html), RESULT_LIMIT, w.parse);
      var changes, nextSeen := Diff.DiffVehicles(lastSeen, vehicles);
      NoteScan(|vehicles|, nextSeen);
      if |changes| == 0 {
        AppendOutput(" | no changes detected");
        return Ok(lastIaaiResponse);
      }
      match w.user {
        case Threw(m) =>
          return Threw(m);
        case Ok(user) =>
          AppendOutput(MailNote(|changes|, user, w.send));
          return Ok(lastIaaiResponse);
      }
    }

    /** `st.lastCount = vehicles.length; st.lastSeen = nextSeen` */
    method NoteScan(count: nat, seen: map<string, Option<string>>)
      modifies this
      ensures Snapshot() == old(Snapshot()).(lastCount := count, lastSeen := seen)
    {
      lastCount, lastSeen := count, seen;
    }

    /** `st.lastOutput += note` */
    method AppendOutput(note: string)
      requires lastOutput.Some?
      modifies this
      ensures Snapshot() == old(Snapshot()).(lastOutput := Some(old(lastOutput).value + note))
    {
      lastOutput := Some(lastOutput.value + note);
    }

    /** `startContinuousForUser(userId)` */
    method Start(s: StartWorld) returns (r: Try<()>)
      modifies this
      ensures (Snapshot(), r) == StartSpec(old(Snapshot()), s)
    {
      if running && timer.Some? {
        return Ok(());
      }
      match s.filters {
        case Threw(m) =>
          return Threw(m);
        case Ok(f) =>
          if !Payload.HasAnyFiltersSet(f) {
            running := false;
            timer := None;
            lastRunAt := Some(s.now);
            lastOutput := Some(NOT_STARTED);
            return Ok(());
          }
      }
      running := true;
      var run := RunOnce(s.run);
      match run {
        case Threw(m) =>
          return Threw(m);
        case Ok(_) =>
          timer := Some(s.handle);
          return Ok(());
      }
    }

    /** One iteration of the resume loop: start, and record a throw instead of passing it on. */
    method StartForResume(w: StartWorld, now: int) returns (hit: nat)
      modifies this
      ensures (Snapshot(), hit) == ResumeBot(old(Snapshot()), w, now)
    {
      var r := Start(w);
      hit := 0;
      if r.Threw? {
        lastRunAt := Some(now);
        lastOutput := Some(RESUME_FAILED + MessageOr(r.message));
      } else if running && timer.Some? {
        hit := 1;
      }
    }

    /** The interval callback: a scheduled poll whose failure is recorded, not thrown. */
    method Tick(w: World, now: int)
      modifies this
      ensures Snapshot() == TickSpec(old(Snapshot()), w, now)
    {
      var run := RunOnce(w);
      if run.Threw? {
        var text := "IAAI error: " + MessageOr(run.message);
        lastRunAt := Some(now);
        lastOutput := Some(text);
        lastIaaiResponse := Some(TextData(None, "error", text));
      }
    }

    /** `stopContinuousForUser(userId)` */
    method Stop()
      modifies this
      ensures Snapshot() == StopSpec(old(Snapshot()))
    {
      running := false;
      timer := None;
    }

    /** `refreshContinuousState(userId, st)` */
    method RefreshContinuous(now: int, row: Try<Js.Value>) returns (r: Try<bool>)
      modifies this
      ensures (Snapshot(), r) == RefreshSpec(old(Snapshot()), now, row)
    {
      if continuousEnabled.Some? && now - lastContinuousAt < CONTINUOUS_MAX_AGE {
        return Ok(continuousEnabled.value);
      }
      match row {
        case Threw(m) =>
          return Threw(m);
        case Ok(x) =>
          var enabled := ContinuousOf(x);
          continuousEnabled := Some(enabled);
          lastContinuousAt := now;
          return Ok(enabled);
      }
    }

    /** `GET /api/bot/status` */
    method Status(s: StatusWorld) returns (reply: StatusReply)
      modifies this
      ensures (Snapshot(), reply) == StatusSpec(old(Snapshot()), s)
    {
      if lastStatusJson.Some? && s.now - lastStatusAt < STATUS_MIN_INTERVAL {
        if lastStatusEtag.Some? && lastStatusEtag.value != "" && s.ifNoneMatch == lastStatusEtag {
          return NotModified;
        }
        return Body(lastStatusEtag.GetOr(""), lastStatusJson.value);
      }
      var enabled := continuousEnabled;
      var refreshed := RefreshContinuous(s.now, s.row);
      if refreshed.Ok? {
        enabled := Some(refreshed.value);
      }
      var payload := StatusPayload(Snapshot(), enabled, s.debug);
      lastStatusJson := Some(payload);
      lastStatusAt := s.now;
      lastStatusEtag := Some(s.sha1Hex(Js.Stringify(payload)));
      if s.ifNoneMatch == lastStatusEtag {
        return NotModified;
      }
      reply := Body(lastStatusEtag.value, payload);
    }
  }

  // ============================================================ the registry

  const RESUME_FAILED := "Resume failed: "

  /**
   * `resumeContinuousBots`: start every listed user in turn; a start that throws
   * is recorded on that user's state, and the count is of the users whose state
   * ends a successful start running with a timer.
   */
  function ResumeSpec(m: map<int, Bot>, ids: seq<int>, worlds: seq<StartWorld>, nows: seq<int>): (map<int, Bot>, nat)
    requires |worlds| == |ids| && |nows| == |ids|
    decreases |ids|
  {
    if ids == [] then (m, 0)
    else
      var next := ResumeOne(m, ids[0], worlds[0], nows[0]);
      var rest := ResumeSpec(next.0, ids[1..], worlds[1..], nows[1..]);
      (rest.0, rest.1 + next.1)
  }

  /** One user of the resume loop: the new map and whether the user counts. */
  function ResumeOne(m: map<int, Bot>, id: int, w: StartWorld, now: int): (map<int, Bot>, nat) {
    var r := ResumeBot(if id in m then m[id] else Initial(), w, now);
    (m[id := r.0], r.1)
  }

  /** Resuming one id updates the record `getState` returned for it. */
  lemma ResumeOneAt(before: map<int, Bot>, mid: map<int, Bot>, id: int, w: StartWorld, now: int)
    requires mid == before[id := if id in before then before[id] else Initial()]
    ensures ResumeOne(before, id, w, now) == (mid[id := ResumeBot(mid[id], w, now).0], ResumeBot(mid[id], w, now).1)
  {
    var r := ResumeBot(mid[id], w, now);
    assert mid[id] == if id in before then before[id] else Initial();
    assert mid[id := r.0] == before[id := r.0];
  }

  /** Start one record; a throw is recorded on it, and a successful start that leaves it running with a timer counts. */
  function ResumeBot(b: Bot, w: StartWorld, now: int): (Bot, nat) {
    var started := StartSpec(b, w);
    match started.1
    case Threw(msg) => (started.0.(lastRunAt := Some(now), lastOutput := Some(RESUME_FAILED + MessageOr(msg))), 0)
    case Ok(_) => (started.0, if Live(started.0) then 1 else 0)
  }

  lemma ResumeStep(m: map<int, Bot>, ids: seq<int>, worlds: seq<StartWorld>, nows: seq<int>, i: nat)
    requires |worlds| == |ids| && |nows| == |ids| && i < |ids|
    ensures var one := ResumeOne(m, ids[i], worlds[i], nows[i]);
            var rest := ResumeSpec(one.0, ids[i + 1..], worlds[i + 1..], nows[i + 1..]);
            ResumeSpec(m, ids[i..], worlds[i..], nows[i..]) == (rest.0, rest.1 + one.1)
  {
    assert ids[i..][1..] == ids[i + 1..];
    assert worlds[i..][1..] == worlds[i + 1..];
    assert nows[i..][1..] == nows[i + 1..];
  }

  /** The `states` map: one distinct record object per user id. */
  class Registry {
    var states: map<int, BotState>

    ghost predicate Valid()
      reads this
    {
      forall a, b :: a in states && b in states && a != b ==> states[a] != states[b]
    }

    /** Every user's record, as values. */
    ghost function Snaps(): map<int, Bot>
      reads this, states.Values
    {
      map k | k in states :: states[k].Snapshot()
    }

    constructor ()
      ensures Valid() && states == map[]
    {
      states := map[];
    }

    /** `getState(userId)`: the user's record, created on first use. */
    method GetState(userId: int) returns (st: BotState)
      requires Valid()
      modifies this
      ensures Valid()
      ensures userId in states && states[userId] == st
      ensures userId in old(states) ==> states == old(states)
      ensures userId !in old(states) ==> fresh(st) && states == old(states)[userId := st]
      ensures Snaps() == old(Snaps())[userId := if userId in old(states) then old(Snaps())[userId] else Initial()]
    {
      if userId in states {
        st := states[userId];
        assert Snaps() == old(Snaps())[userId := old(Snaps())[userId]];
        return;
      }
      st := new BotState();
      states := states[userId := st];
    }

    /** The body of the resume loop for one user id. */
    method ResumeUser(id: int, w: StartWorld, now: int) returns (hit: nat)
      requires Valid()
      modifies this, states.Values
      ensures Valid()
      ensures forall k :: k in old(states) ==> k in states && states[k] == old(states)[k]
      ensures forall k :: k in states && k !in old(states) ==> fresh(states[k])
      ensures forall o :: o in states.Values ==> o in old(states.Values) || fresh(o)
      ensures (Snaps(), hit) == ResumeOne(old(Snaps()), id, w, now)
    {
      ghost var before := Snaps();
      var st := GetState(id);
      ghost var mid := Snaps();
      assert st.Snapshot() == mid[id];
      hit := st.StartForResume(w, now);
      ghost var after := mid[id := st.Snapshot()];
      assert Snaps().Keys == after.Keys;
      forall k | k in states
        ensures Snaps()[k] == after[k]
      {
        if k != id {
          assert states[k] != st;
        }
      }
      assert Snaps() == after;
      ResumeOneAt(before, mid, id, w, now);
    }

    /** `resumeContinuousBots()`, given the ids the database lists and each start's world. */
    method Resume(userIds: seq<int>, worlds: seq<StartWorld>, nows: seq<int>) returns (resumed: nat)
      requires Valid() && |worlds| == |userIds| && |nows| == |userIds|
      modifies this, states.Values
      ensures Valid()
      ensures (Snaps(), resumed) == ResumeSpec(old(Snaps()), userIds, worlds, nows)
    {
      ghost var goal := ResumeSpec(Snaps(), userIds, worlds, nows);
      resumed := 0;
      for i := 0 to |userIds|
        invariant Valid()
        invariant forall k :: k in old(states) ==> k in states && states[k] == old(states)[k]
        invariant forall k :: k in states && k !in old(states) ==> fresh(states[k])
        invariant forall o :: o in states.Values ==> o in old(states.Values) || fresh(o)
        invariant ResumeSpec(Snaps(), userIds[i..], worlds[i..], nows[i..]).0 == goal.0
        invariant resumed + ResumeSpec(Snaps(), userIds[i..], worlds[i..], nows[i..]).1 == goal.1
      {
        ghost var before := Snaps();
        var hit := ResumeUser(userIds[i], worlds[i], nows[i]);
        resumed := resumed + hit;
        ResumeStep(before, userIds, worlds, nows, i);
      }
    }
  }

  // ============================================================ properties

  /** The fields a poll run never writes: the schedule, the preference cache and the status cache. */
  predicate SameSchedule(a: Bot, b: Bot) {
    a.running == b.running && a.timer == b.timer && a.inFlight == b.inFlight &&
    a.continuousEnabled == b.continuousEnabled && a.lastContinuousAt == b.lastContinuousAt &&
    a.lastStatusAt == b.lastStatusAt && a.lastStatusJson == b.lastStatusJson && a.lastStatusEtag == b.lastStatusEtag
  }

  /** A poll that finds another in flight reads nothing from the world and changes only `lastOutput`. */
  lemma SkippedWhenInFlight(b: Bot, w1: World, w2: World)
    requires b.inFlight
    ensures RunOnceSpec(b, w1) == RunOnceSpec(b, w2)
    ensures RunOnceSpec(b, w1).0 == b.(lastOutput := Some(SKIPPED))
    ensures RunOnceSpec(b, w1).1 == Ok(b.lastIaaiResponse)
  {
  }

  /** Noting the outcome changes only `lastOutput`. */
  lemma NotifyKeeps(b: Bot, n: nat, w: World)
    requires b.lastOutput.Some?
    ensures Notify(b, n, w).0 == b.(lastOutput := Notify(b, n, w).0.lastOutput)
  {
  }

  /** Scanning a page sets the count and `lastSeen` and adds to `lastOutput`, and nothing else. */
  lemma ScanShape(b: Bot, html: string, w: World)
    requires b.lastOutput.Some?
    ensures var r := ScanPage(b, html, w).0;
            var vehicles := Scrape.Extract(w.pageOf(html), RESULT_LIMIT, w.parse);
            r == b.(lastCount := |vehicles|, lastSeen := Diff.NextSeen(vehicles), lastOutput := r.lastOutput)
  {
    var vehicles := Scrape.Extract(w.pageOf(html), RESULT_LIMIT, w.parse);
    var b1 := b.(lastCount := |vehicles|, lastSeen := Diff.NextSeen(vehicles));
    NotifyKeeps(b1, |Diff.Changes(b.lastSeen, vehicles)|, w);
  }

  /** Recording a reply writes the time, the summary and the extracted data, and for a page the scan's fields. */
  lemma RespondShape(b: Bot, resp: Response, w: World)
    ensures var r := Respond(b, resp, w).0;
            r == b.(lastRunAt := Some(w.now), lastIaaiResponse := Some(ExtractIaaiData(resp)), lastOutput := r.lastOutput,
                    lastCount := r.lastCount, lastSeen := r.lastSeen)
    ensures Respond(b, resp, w).0.lastSeen ==
      if IsHtml(resp) then Diff.NextSeen(Scrape.Extract(w.pageOf(resp.data.s), RESULT_LIMIT, w.parse)) else b.lastSeen
  {
    var b1 := b.(lastRunAt := Some(w.now), lastOutput := Some(Summarize(resp)), lastIaaiResponse := Some(ExtractIaaiData(resp)));
    if IsHtml(resp) {
      ScanShape(b1, resp.data.s, w);
    }
  }

  /** The body of the `try` writes only the request, filter and reply fields, and `lastSeen` only for a page. */
  lemma GuardedShape(b: Bot, w: World)
    ensures var r := GuardedRun(b, w).0;
            r == b.(lastUserFilters := r.lastUserFilters, lastIaaiRequest := r.lastIaaiRequest, lastRunAt := r.lastRunAt,
                    lastIaaiResponse := r.lastIaaiResponse, lastOutput := r.lastOutput, lastCount := r.lastCount,
                    lastSeen := r.lastSeen)
    ensures w.filters.Ok? ==> GuardedRun(b, w).0.lastUserFilters == RowOr(w.filters.value, Js.Null)
    ensures w.filters.Ok? ==>
      GuardedRun(b, w).0.lastIaaiRequest == Some(Request(w.url, Payload.PayloadValue(Payload.BuildSearches(RowOr(w.filters.value, Js.Obj([]))))))
    ensures GuardedRun(b, w).0.lastSeen ==
      if w.filters.Ok? && w.resp.Ok? && IsHtml(w.resp.value) then Diff.NextSeen(PolledListings(w)) else b.lastSeen
  {
    if w.filters.Ok? && w.resp.Ok? {
      var u := w.filters.value;
      var payload := Payload.PayloadValue(Payload.BuildSearches(RowOr(u, Js.Obj([]))));
      RespondShape(b.(lastUserFilters := RowOr(u, Js.Null), lastIaaiRequest := Some(Request(w.url, payload))), w.resp.value, w);
    }
  }

  /**
   * A poll run leaves the schedule, the preference cache and the status cache
   * alone, and ends with `inFlight` as it found it: a run that set it cleared it
   * on every path, whether it returned or threw.
   */
  lemma RunKeepsSchedule(b: Bot, w: World)
    ensures SameSchedule(RunOnceSpec(b, w).0, b)
  {
    GuardedShape(b.(inFlight := true), w);
  }

  /** The run reached an HTML page: nothing was in flight, and both the filter read and the POST succeeded. */
  predicate HtmlPolled(b: Bot, w: World) {
    !b.inFlight && w.filters.Ok? && w.resp.Ok? && IsHtml(w.resp.value)
  }

  /** The listings found on the page an HTML poll received. */
  function PolledListings(w: World): seq<Scrape.Listing>
    requires w.resp.Ok? && IsHtml(w.resp.value)
  {
    Scrape.Extract(w.pageOf(w.resp.value.data.s), RESULT_LIMIT, w.parse)
  }

  /** `lastSeen` is replaced by the page's `nextSeen` exactly when an HTML page was polled; nothing else touches it. */
  lemma RunReplacesSeenOnlyForHtml(b: Bot, w: World)
    ensures HtmlPolled(b, w) ==> RunOnceSpec(b, w).0.lastSeen == Diff.NextSeen(PolledListings(w))
    ensures !HtmlPolled(b, w) ==> RunOnceSpec(b, w).0.lastSeen == b.lastSeen
  {
    if !b.inFlight {
      var g := GuardedRun(b.(inFlight := true), w);
      GuardedShape(b.(inFlight := true), w);
      assert RunOnceSpec(b, w).0.lastSeen == g.0.lastSeen;
    }
  }

  /** The request recorded for a poll is the payload built from the filter row, or from `{}` without one. */
  lemma RunRecordsRequest(b: Bot, w: World)
    requires !b.inFlight && w.filters.Ok?
    ensures RunOnceSpec(b, w).0.lastUserFilters == RowOr(w.filters.value, Js.Null)
    ensures RunOnceSpec(b, w).0.lastIaaiRequest ==
      Some(Request(w.url, Payload.PayloadValue(Payload.BuildSearches(RowOr(w.filters.value, Js.Obj([]))))))
  {
    GuardedShape(b.(inFlight := true), w);
  }

  /** An HTML poll that found no changes says so, after the response summary. */
  lemma RunNoChanges(b: Bot, w: World)
    requires HtmlPolled(b, w) && Diff.Changes(b.lastSeen, PolledListings(w)) == []
    ensures RunOnceSpec(b, w).0.lastOutput == Some(Summarize(w.resp.value) + " | no changes detected")
    ensures RunOnceSpec(b, w).1 == Ok(Some(ExtractIaaiData(w.resp.value)))
  {
  }

  /** Starting a live bot changes nothing and reads nothing. */
  lemma StartIdempotent(b: Bot, s: StartWorld)
    requires Live(b)
    ensures StartSpec(b, s) == (b, Ok(()))
  {
  }

  /** Without saved filters the bot is left stopped, with no timer, and says why. */
  lemma StartRefusesWithoutFilters(b: Bot, s: StartWorld)
    requires !Live(b) && s.filters.Ok? && !Payload.HasAnyFiltersSet(s.filters.value)
    ensures !StartSpec(b, s).0.running && StartSpec(b, s).0.timer.None?
    ensures StartSpec(b, s).0.lastOutput == Some(NOT_STARTED) && StartSpec(b, s).1 == Ok(())
    ensures StartSpec(b, s).0.lastSeen == b.lastSeen
  {
  }

  /** With saved filters and a first poll that returns, the bot ends running on the new timer. */
  lemma StartSchedules(b: Bot, s: StartWorld)
    requires !Live(b) && s.filters.Ok? && Payload.HasAnyFiltersSet(s.filters.value)
    requires RunOnceSpec(b.(running := true), s.run).1.Ok?
    ensures StartSpec(b, s).0.running && StartSpec(b, s).0.timer == Some(s.handle)
    ensures StartSpec(b, s).1 == Ok(())
  {
    RunKeepsSchedule(b.(running := true), s.run);
  }

  /** A start that returned with the bot running leaves it live, so starting again changes nothing. */
  lemma StartTwice(b: Bot, s1: StartWorld, s2: StartWorld)
    requires StartSpec(b, s1).1.Ok? && StartSpec(b, s1).0.running
    ensures StartSpec(StartSpec(b, s1).0, s2) == (StartSpec(b, s1).0, Ok(()))
  {
    if !Live(b) {
      RunKeepsSchedule(b.(running := true), s1.run);
    }
  }

  /** Every operation keeps "a timer only for a running bot". */
  lemma ScheduledKept(b: Bot, w: World, s: StartWorld, now: int, row: Try<Js.Value>, q: StatusWorld)
    requires Scheduled(b)
    ensures Scheduled(RunOnceSpec(b, w).0)
    ensures Scheduled(StartSpec(b, s).0)
    ensures Scheduled(TickSpec(b, w, now))
    ensures Scheduled(StopSpec(b))
    ensures Scheduled(RefreshSpec(b, now, row).0)
    ensures Scheduled(StatusSpec(b, q).0)
  {
    RunKeepsSchedule(b, w);
    StartKeepsScheduled(b, s);
    StatusKeepsSchedule(b, q);
  }

  lemma StartKeepsScheduled(b: Bot, s: StartWorld)
    requires Scheduled(b)
    ensures Scheduled(StartSpec(b, s).0)
  {
    RunKeepsSchedule(b.(running := true), s.run);
  }

  lemma StatusKeepsSchedule(b: Bot, q: StatusWorld)
    ensures StatusSpec(b, q).0.running == b.running && StatusSpec(b, q).0.timer == b.timer
  {
  }

  /** While the cached preference is younger than 5 s it is returned and the database is not consulted. */
  lemma RefreshCached(b: Bot, now: int, row1: Try<Js.Value>, row2: Try<Js.Value>)
    requires b.continuousEnabled.Some? && now - b.lastContinuousAt < CONTINUOUS_MAX_AGE
    ensures RefreshSpec(b, now, row1) == RefreshSpec(b, now, row2) == (b, Ok(b.continuousEnabled.value))
  {
  }

  /** A read stores the flag with its time; a failed read changes nothing and passes the error on. */
  lemma RefreshReads(b: Bot, now: int, row: Try<Js.Value>)
    requires !(b.continuousEnabled.Some? && now - b.lastContinuousAt < CONTINUOUS_MAX_AGE)
    ensures row.Threw? ==> RefreshSpec(b, now, row) == (b, Threw(row.message))
    ensures row.Ok? ==> RefreshSpec(b, now, row).0 == b.(continuousEnabled := Some(ContinuousOf(row.value)), lastContinuousAt := now)
    ensures row.Ok? ==> RefreshSpec(b, now, row).1 == Ok(ContinuousOf(row.value))
  {
  }

  /** After a read, any refresh within the next 5 s answers the value read, whatever the database would say. */
  lemma RefreshThenCached(b: Bot, now: int, row: Js.Value, later: int, other: Try<Js.Value>)
    requires !(b.continuousEnabled.Some? && now - b.lastContinuousAt < CONTINUOUS_MAX_AGE)
    requires now <= later < now + CONTINUOUS_MAX_AGE
    ensures var first := RefreshSpec(b, now, Ok(row));
            RefreshSpec(first.0, later, other) == (first.0, first.1)
  {
  }

  /** Inside the coalescing window the reply comes from the cache: the rest of the world is not consulted and nothing changes. */
  lemma StatusCoalescedIgnoresWorld(b: Bot, s1: StatusWorld, s2: StatusWorld)
    requires Coalesced(b, s1.now) && s2.now == s1.now && s2.ifNoneMatch == s1.ifNoneMatch
    ensures StatusSpec(b, s1) == StatusSpec(b, s2)
    ensures StatusSpec(b, s1).0 == b
  {
  }

  /**
   * Outside the window a new body is stored with the time and the digest of its
   * serialisation as ETag; the reply is 304 exactly when If-None-Match equals
   * that ETag, and otherwise the stored body with it.
   */
  lemma StatusFresh(b: Bot, s: StatusWorld)
    requires !Coalesced(b, s.now)
    ensures var r := StatusSpec(b, s);
            r.0.lastStatusJson.Some? && r.0.lastStatusAt == s.now &&
            r.0.lastStatusEtag == Some(s.sha1Hex(Js.Stringify(r.0.lastStatusJson.value))) &&
            (r.1.NotModified? <==> s.ifNoneMatch == r.0.lastStatusEtag) &&
            (r.1.Body? ==> Some(r.1.json) == r.0.lastStatusJson && Some(r.1.etag) == r.0.lastStatusEtag)
  {
  }

  /** A second request within 1 s of a fresh one gets the same body, or a 304 when it presents the ETag. */
  lemma StatusSecondWithinWindow(b: Bot, s: StatusWorld, s2: StatusWorld)
    requires !Coalesced(b, s.now) && s.now <= s2.now < s.now + STATUS_MIN_INTERVAL
    requires s.sha1Hex(Js.Stringify(StatusSpec(b, s).0.lastStatusJson.value)) != ""
    ensures var first := StatusSpec(b, s);
            var second := StatusSpec(first.0, s2);
            second.0 == first.0 &&
            (second.1.NotModified? <==> s2.ifNoneMatch == first.0.lastStatusEtag) &&
            (second.1.Body? ==> second.1 == Body(first.0.lastStatusEtag.value, first.0.lastStatusJson.value))
  {
    StatusFresh(b, s);
  }

  /** A failed preference read is not an error: the status keeps the preference it had. */
  lemma StatusSurvivesDbFailure(b: Bot, s: StatusWorld)
    requires !Coalesced(b, s.now) && s.row.Threw?
    ensures StatusSpec(b, s).0.continuousEnabled == b.continuousEnabled
    ensures StatusSpec(b, s).0.lastContinuousAt == b.lastContinuousAt
  {
  }

  /** One resume step counts exactly when the record ends live, and keeps "a timer only for a running bot". */
  lemma ResumeBotCounts(b: Bot, w: StartWorld, now: int)
    requires Scheduled(b)
    ensures ResumeBot(b, w, now).1 == if Live(ResumeBot(b, w, now).0) then 1 else 0
    ensures Scheduled(ResumeBot(b, w, now).0)
  {
    RunKeepsSchedule(b.(running := true), w.run);
  }

  /** Resuming leaves the records of users it does not list as they were, and creates one for every listed user. */
  lemma {:induction false} ResumeFrame(m: map<int, Bot>, ids: seq<int>, worlds: seq<StartWorld>, nows: seq<int>)
    requires |worlds| == |ids| && |nows| == |ids|
    ensures ResumeSpec(m, ids, worlds, nows).0.Keys == m.Keys + set k | k in ids
    ensures forall k :: k in m && k !in ids ==> ResumeSpec(m, ids, worlds, nows).0[k] == m[k]
    ensures ResumeSpec(m, ids, worlds, nows).1 <= |ids|
    decreases |ids|
  {
    if ids != [] {
      var next := ResumeOne(m, ids[0], worlds[0], nows[0]);
      ResumeFrame(next.0, ids[1..], worlds[1..], nows[1..]);
      forall k | k in ids ensures k == ids[0] || k in ids[1..] {
        var i :| 0 <= i < |ids| && ids[i] == k;
        if i > 0 {
          assert ids[1..][i - 1] == k;
        }
      }
    }
  }

  /** One listed user: its record ends live exactly when it counts, and "a timer only for a running bot" holds throughout. */
  lemma ResumeOneCounts(m: map<int, Bot>, id: int, w: StartWorld, now: int)
    requires forall k :: k in m ==> Scheduled(m[k])
    ensures var next := ResumeOne(m, id, w, now);
            id in next.0 && next.1 == (if Live(next.0[id]) then 1 else 0) &&
            forall k :: k in next.0 ==> Scheduled(next.0[k])
  {
    ResumeBotCounts(if id in m then m[id] else Initial(), w, now);
  }

  /**
   * With distinct ids and every record keeping "a timer only for a running
   * bot", the count is the number of listed users whose record ends live.
   */
  lemma {:induction false} ResumeCountsLive(m: map<int, Bot>, ids: seq<int>, worlds: seq<StartWorld>, nows: seq<int>)
    requires |worlds| == |ids| && |nows| == |ids| && Lists.Distinct(ids)
    requires forall k :: k in m ==> Scheduled(m[k])
    ensures forall k :: k in ResumeSpec(m, ids, worlds, nows).0 ==> Scheduled(ResumeSpec(m, ids, worlds, nows).0[k])
    ensures ResumeSpec(m, ids, worlds, nows).1 == |LiveAmong(ids, ResumeSpec(m, ids, worlds, nows).0)|
    decreases |ids|
  {
    if ids != [] {
      var r := ResumeSpec(m, ids, worlds, nows);
      var id := ids[0];
      var next := ResumeOne(m, id, worlds[0], nows[0]);
      ResumeOneCounts(m, id, worlds[0], nows[0]);
      Lists.DistinctTail(ids);
      ResumeCountsLive(next.0, ids[1..], worlds[1..], nows[1..]);
      ResumeFrame(next.0, ids[1..], worlds[1..], nows[1..]);
      LiveAmongSplit(ids, r.0);
    }
  }

  /** The listed users whose record in `m` is live. */
  function LiveAmong(ids: seq<int>, m: map<int, Bot>): set<int> {
    set k | k in ids && k in m && Live(m[k])
  }

  lemma LiveAmongSplit(ids: seq<int>, m: map<int, Bot>)
    requires ids != [] && ids[0] !in ids[1..] && ids[0] in m
    ensures |LiveAmong(ids, m)| == |LiveAmong(ids[1..], m)| + if Live(m[ids[0]]) then 1 else 0
  {
    var here := if Live(m[ids[0]]) then {ids[0]} else {};
    assert LiveAmong(ids, m) == LiveAmong(ids[1..], m) + here by {
      forall k | k in ids ensures k == ids[0] || k in ids[1..] {
        var i :| 0 <= i < |ids| && ids[i] == k;
        if i > 0 {
          assert ids[1..][i - 1] == k;
        }
      }
    }
    assert LiveAmong(ids[1..], m) * here == {};
  }
}
