/** The two callers of the refinement graph in the daily-agent module: the
    ad-hoc `test_agent` runner, which cleans its argument before invoking
    the graph, and the `create_report` route, which reads a draft memo,
    refines it and stores the report. The draft and confirm tables are
    abstracted to what `get_item` returned and whether `put_item`
    succeeded. */
module EntryPoints {
  import opened Text
  import opened MemoRequest
  import opened AgentGraph
  import opened AgentProperties

  /** `test_agent`: the graph run on the cleaned argument. Every state of
      the run carries the cleaned text, which has no C0 control, no DEL and
      no surrounding whitespace; a completed run holds the structured
      answer to that text. */
  function TestAgentRun(
    raw: string, fuel: nat,
    chat: (nat, seq<Message>) -> Reply<string>,
    structured: seq<Message> -> Reply<FinalReport>, v: Variant): (r: RunResult)
    ensures forall i :: 0 <= i < |r.trace| ==>
      var request := r.trace[i].after.userRequest;
      && request == CleanTestInput(raw)
      && Stripped(request)
      && (forall j :: 0 <= j < |request| ==> !IsTestControl(request[j]))
    ensures r.end.Completed? ==>
      && structured(GenerateMessages(CleanTestInput(raw))).Answer?
      && r.end.final.refinedNote == Some(structured(GenerateMessages(CleanTestInput(raw))).value)
  {
    var request := CleanTestInput(raw);
    RequestNeverChanges(Planning, InitialState(request), 0, fuel, chat, structured, v);
    ReportComesFromRequest(Planning, InitialState(request), 0, fuel, chat, structured, v);
    Invoke(request, fuel, chat, structured, v)
  }

  /** What `get_item` on the draft table gave: no item, an item whose
      `content` attribute may be missing, or an exception from the call
      itself (it runs inside the `try`). */
  datatype DraftLookup = NotFound | Found(content: Option<string>) | LookupFailed

  /** A row of the confirm table. */
  datatype ConfirmItem = ConfirmItem(userKey: string, creationDate: int, title: string, content: string)

  /** The exceptions the body of the `try` can raise: a failed `get_item`,
      an explicit `HTTPException`, a failed or unfinished graph run
      (including a final state without a report), or a failed `put_item`. */
  datatype Failure = GetFailed | HttpException(status: int) | RunFailed | PutFailed

  /** The body of the `try`: either it stored a row, or it raised. */
  datatype Attempt = Saved(item: ConfirmItem) | Raised(failure: Failure)

  /** The HTTP response: the JSON body on success, or an error status. */
  datatype Response = Ok(creationDate: int, title: string, content: string) | HttpError(status: int)

  /** The response together with the row written to the confirm table, if any. */
  datatype Outcome = Outcome(response: Response, stored: Option<ConfirmItem>)

  /** A memo the route will refine: an item with a non-empty `content`. */
  predicate HasContent(lookup: DraftLookup)
  {
    lookup.Found? && lookup.content.Some? && lookup.content.value != ""
  }

  /** A lookup the route rejects as the client's fault: no item (404), or
      an item without content (400). */
  predicate ClientError(lookup: DraftLookup)
  {
    lookup.NotFound? || (lookup.Found? && !HasContent(lookup))
  }

  /** The body of the `try` in `create_report`: a missing item raises 404, a
      missing or empty `content` raises 400, otherwise the graph runs on the
      raw content and its report is written under the same key. */
  function GenerateAndStore(
    uid: string, creationDate: int, lookup: DraftLookup, putSucceeds: bool, fuel: nat,
    chat: (nat, seq<Message>) -> Reply<string>,
    structured: seq<Message> -> Reply<FinalReport>, v: Variant): (a: Attempt)
    ensures lookup.LookupFailed? ==> a == Raised(GetFailed)
    ensures lookup.NotFound? ==> a == Raised(HttpException(404))
    ensures lookup.Found? && !HasContent(lookup) ==> a == Raised(HttpException(400))
    ensures a.Saved? <==>
      HasContent(lookup) && Invoke(lookup.content.value, fuel, chat, structured, v).end.Completed? && putSucceeds
    ensures a.Saved? ==>
      && a.item.userKey == uid && a.item.creationDate == creationDate
      && structured(GenerateMessages(lookup.content.value)).Answer?
      && a.item.title == structured(GenerateMessages(lookup.content.value)).value.title
      && a.item.content == structured(GenerateMessages(lookup.content.value)).value.refinedText
  {
    match lookup
    case LookupFailed => Raised(GetFailed)
    case NotFound => Raised(HttpException(404))
    case Found(content) =>
      if content.None? || content.value == "" then Raised(HttpException(400))
      else
        var run := Invoke(content.value, fuel, chat, structured, v);
        ReportComesFromRequest(Planning, InitialState(content.value), 0, fuel, chat, structured, v);
        if !run.end.Completed? || run.end.final.refinedNote.None? then Raised(RunFailed)
        else if !putSucceeds then Raised(PutFailed)
        else
          var note := run.end.final.refinedNote.value;
          Saved(ConfirmItem(uid, creationDate, note.title, note.refinedText))
  }

  /** `create_report` as written: `except Exception` catches everything the
      body raises, the two `HTTPException`s included, and answers 500. A
      row is stored exactly when the response is a success, and the
      response echoes the stored row. */
  function CreateReport(
    uid: string, creationDate: int, lookup: DraftLookup, putSucceeds: bool, fuel: nat,
    chat: (nat, seq<Message>) -> Reply<string>,
    structured: seq<Message> -> Reply<FinalReport>, v: Variant): (o: Outcome)
    ensures o.response.Ok? <==> o.stored.Some?
    ensures o.response.HttpError? ==> o.response.status == 500
    ensures o.response.Ok? ==>
      && o.response.creationDate == creationDate
      && o.stored == Some(ConfirmItem(uid, creationDate, o.response.title, o.response.content))
  {
    match GenerateAndStore(uid, creationDate, lookup, putSucceeds, fuel, chat, structured, v)
    case Saved(item) => Outcome(Ok(item.creationDate, item.title, item.content), Some(item))
    case Raised(_) => Outcome(HttpError(500), None)
  }

  /** When `create_report` succeeds, and what it then returns: the route
      answers with a report exactly when the memo has content, the graph
      run on that content completes and the write succeeds; the title and
      text are the structured model's answer to the raw content. */
  lemma CreateReportSucceeds(
    uid: string, creationDate: int, lookup: DraftLookup, putSucceeds: bool, fuel: nat,
    chat: (nat, seq<Message>) -> Reply<string>,
    structured: seq<Message> -> Reply<FinalReport>, v: Variant)
    ensures var o := CreateReport(uid, creationDate, lookup, putSucceeds, fuel, chat, structured, v);
      o.response.Ok? <==>
        HasContent(lookup) && Invoke(lookup.content.value, fuel, chat, structured, v).end.Completed? && putSucceeds
    ensures var o := CreateReport(uid, creationDate, lookup, putSucceeds, fuel, chat, structured, v);
      o.response.Ok? ==>
        && structured(GenerateMessages(lookup.content.value)).Answer?
        && o.response == Ok(creationDate,
                            structured(GenerateMessages(lookup.content.value)).value.title,
                            structured(GenerateMessages(lookup.content.value)).value.refinedText)
  {
  }

  /** As written, a missing memo and an empty memo both answer 500: the 404
      and 400 raised inside the `try` are caught by `except Exception`. */
  lemma ClientErrorsBecome500(
    uid: string, creationDate: int, lookup: DraftLookup, putSucceeds: bool, fuel: nat,
    chat: (nat, seq<Message>) -> Reply<string>,
    structured: seq<Message> -> Reply<FinalReport>, v: Variant)
    requires ClientError(lookup)
    ensures GenerateAndStore(uid, creationDate, lookup, putSucceeds, fuel, chat, structured, v)
      == Raised(HttpException(if lookup.NotFound? then 404 else 400))
    ensures CreateReport(uid, creationDate, lookup, putSucceeds, fuel, chat, structured, v)
      == Outcome(HttpError(500), None)
  {
  }

  /** The evidently intended route: an `HTTPException` raised in the body
      reaches the client with its own status; every other failure is 500. */
  function CreateReportIntended(
    uid: string, creationDate: int, lookup: DraftLookup, putSucceeds: bool, fuel: nat,
    chat: (nat, seq<Message>) -> Reply<string>,
    structured: seq<Message> -> Reply<FinalReport>, v: Variant): (o: Outcome)
    ensures o.response.Ok? <==> o.stored.Some?
    ensures lookup.NotFound? ==> o == Outcome(HttpError(404), None)
    ensures lookup.Found? && !HasContent(lookup) ==> o == Outcome(HttpError(400), None)
    ensures !ClientError(lookup) && o.response.HttpError? ==> o.response.status == 500
    ensures o.response.Ok? ==>
      && o.response.creationDate == creationDate
      && o.stored == Some(ConfirmItem(uid, creationDate, o.response.title, o.response.content))
  {
    match GenerateAndStore(uid, creationDate, lookup, putSucceeds, fuel, chat, structured, v)
    case Saved(item) => Outcome(Ok(item.creationDate, item.title, item.content), Some(item))
    case Raised(HttpException(status)) => Outcome(HttpError(status), None)
    case Raised(_) => Outcome(HttpError(500), None)
  }

  /** The intended route differs from the route as written exactly on the
      two client errors: otherwise both give the same outcome. */
  lemma IntendedAgreesExceptOnClientErrors(
    uid: string, creationDate: int, lookup: DraftLookup, putSucceeds: bool, fuel: nat,
    chat: (nat, seq<Message>) -> Reply<string>,
    structured: seq<Message> -> Reply<FinalReport>, v: Variant)
    ensures !ClientError(lookup) <==>
      CreateReportIntended(uid, creationDate, lookup, putSucceeds, fuel, chat, structured, v)
        == CreateReport(uid, creationDate, lookup, putSucceeds, fuel, chat, structured, v)
  {
  }
}
