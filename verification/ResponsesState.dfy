/** The state machine over the events of a Responses stream, and the verdict it ends with. */
module ResponsesState {
  import opened Bytes
  import opened Usage

  const MAX_JSON_BYTES := 1024 * 1024

  datatype Response = Response(model: string, usage: string, imageOutputs: nat, incompleteReason: string)

  datatype ErrorFields = ErrorFields(kind: string, code: string, param: string)

  /** The `type` of an event, as far as it is told apart. */
  datatype Kind = PartialImage | Created | Completed | Failed | Incomplete | Error | Other

  datatype Event = Event(kind: Kind, response: Option<Response>, error: Option<ErrorFields>)

  datatype RawUsage = RawUsage(input: int64, output: int64, total: int64, cached: int64, reasoning: int64)

  /** JSON decoding, of an event and of its usage object; none is an error. */
  datatype Json = Json(event: string -> Option<Event>, usage: string -> Option<RawUsage>)

  datatype Mark = Mark(seen: bool, model: string)

  datatype CompletedMark = CompletedMark(seen: bool, model: string, usage: string, images: int)

  datatype IncompleteMark = IncompleteMark(seen: bool, model: string, reason: string)

  datatype ErrorMark = ErrorMark(seen: bool, fields: ErrorFields)

  datatype State = State(created: Mark, completed: CompletedMark, failed: Mark, incomplete: IncompleteMark,
                         error: ErrorMark, usage: Option<UsageInfo>, partialImages: int, parseErrors: int)

  const FRESH := State(Mark(false, ""), CompletedMark(false, "", "", 0), Mark(false, ""), IncompleteMark(false, "", ""),
                       ErrorMark(false, ErrorFields("", "", "")), None, 0, 0)

  datatype FinalResult = FinalResult(usage: Option<UsageInfo>, model: string, source: string, terminal: string,
                                     terminalReason: string, outcome: string, reason: string,
                                     errorClass: string, error: ErrorFields)

  const NO_ERROR := ErrorFields("", "", "")

  /** The text of an event is what is left after its `data:` prefixes; a blank one and `[DONE]` are empty here. */
  function Readable(json: Json, text: string): Option<Event> {
    if text == "" || |text| > MAX_JSON_BYTES then None else json.event(text)
  }

  predicate Unreadable(json: Json, text: string) { text != "" && Readable(json, text).None? }

  predicate Is(json: Json, text: string, kind: Kind) {
    Readable(json, text).Some? && Readable(json, text).value.kind == kind
  }

  function Marked(m: Mark, r: Option<Response>): Mark {
    Mark(true, if r.Some? then KeepText(m.model, r.value.model) else m.model)
  }

  function CompletedNext(m: CompletedMark, r: Option<Response>): CompletedMark {
    match r
    case None => m.(seen := true)
    case Some(r) => CompletedMark(true, KeepText(m.model, r.model), KeepText(m.usage, r.usage),
                                  if r.imageOutputs > 0 then r.imageOutputs else m.images)
  }

  function IncompleteNext(m: IncompleteMark, r: Option<Response>): IncompleteMark {
    match r
    case None => m.(seen := true)
    case Some(r) => IncompleteMark(true, KeepText(m.model, r.model), KeepText(m.reason, r.incompleteReason))
  }

  function OnEvent(s: State, e: Event): State {
    match e.kind
    case PartialImage => s.(partialImages := s.partialImages + 1)
    case Created => s.(created := Marked(s.created, e.response))
    case Completed => s.(completed := CompletedNext(s.completed, e.response))
    case Failed => s.(failed := Marked(s.failed, e.response))
    case Incomplete => s.(incomplete := IncompleteNext(s.incomplete, e.response))
    case Error => s.(error := ErrorMark(true, if e.error.Some? then e.error.value else s.error.fields))
    case Other => s
  }

  function Step(json: Json, s: State, text: string): State {
    if text == "" then s
    else match Readable(json, text)
    case None => s.(parseErrors := s.parseErrors + 1)
    case Some(e) => OnEvent(s, e)
  }

  function Run(json: Json, s: State, texts: seq<string>): State {
    if texts == [] then s else Step(json, Run(json, s, texts[..|texts| - 1]), texts[|texts| - 1])
  }

  // ---------- the verdict ----------

  /** The usage object of a completed response, when it has tokens to report. */
  function Tokens(json: Json, model: string, raw: string): Option<UsageInfo> {
    if raw == "" then None
    else match json.usage(raw)
    case None => None
    case Some(u) =>
      if u.input > 0 || u.output > 0 || u.total > 0 then
        Some(NO_USAGE.(model := model, inputTokens := TokenCount(u.input), outputTokens := TokenCount(u.output),
                       totalTokens := TokenCount(u.total), cachedTokens := TokenCount(u.cached),
                       reasoningTokens := TokenCount(u.reasoning), usageRawJSON := raw))
      else None
  }

  function WithImages(info: UsageInfo, images: int, partials: int): UsageInfo {
    info.(imageCount := if images > 0 then Wrap64(images) else info.imageCount,
          partialImageCount := if partials > 0 then Wrap64(partials) else info.partialImageCount,
          operation := if images > 0 || partials > 0 then "generation" else info.operation)
  }

  /** Asking for the result keeps the usage it finds, and one found before. */
  function Ask(json: Json, s: State): State {
    match Tokens(json, s.completed.model, s.completed.usage)
    case None => s
    case Some(info) => s.(usage := Some(WithImages(info, s.completed.images, s.partialImages)))
  }

  function Best(models: seq<string>): string {
    if models == [] then "" else if models[0] != "" then models[0] else Best(models[1..])
  }

  /** The answer in a state that has been asked. */
  function Verdict(s: State): FinalResult {
    if s.usage.Some? then
      var model := if s.usage.value.model != "" then s.usage.value.model
                   else Best([s.completed.model, s.created.model, s.failed.model, s.incomplete.model]);
      FinalResult(s.usage, model, "usage", "response.completed", "", "captured", "", "", NO_ERROR)
    else if s.parseErrors > 0 then
      FinalResult(None, Best([s.completed.model, s.incomplete.model, s.failed.model, s.created.model]), "",
                  "stream_error", "stream_error", "failed", "parse_error", "stream_parse_error", NO_ERROR)
    else if s.completed.seen then
      var model := Best([s.completed.model, s.created.model]);
      if s.completed.images > 0 || s.partialImages > 0 then
        FinalResult(Some(NO_USAGE.(model := model, imageCount := Wrap64(s.completed.images),
                                   partialImageCount := Wrap64(s.partialImages), operation := "generation")),
                    model, "response_completed", "response.completed", "", "captured", "", "", NO_ERROR)
      else
        FinalResult(None, model, "response_completed", "response.completed", "", "skipped",
                    "response_completed_without_usage", "", NO_ERROR)
    else if s.incomplete.seen then
      FinalResult(None, Best([s.incomplete.model, s.created.model]), "response_incomplete", "response.incomplete",
                  if s.incomplete.reason == "" then "incomplete" else s.incomplete.reason, "skipped", "response_incomplete",
                  "", NO_ERROR)
    else if s.failed.seen || s.error.seen then
      FinalResult(None, Best([s.failed.model, s.created.model]), "response_failed",
                  if s.error.seen then "error" else "response.failed", "", "failed", "response_error_event",
                  if s.error.seen then "response_error_event" else "", if s.error.seen then s.error.fields else NO_ERROR)
    else if s.created.seen then
      FinalResult(None, s.created.model, "response_created", "stream_end", "", "skipped",
                  "stream_ended_without_completed", "", NO_ERROR)
    else FinalResult(None, "", "", "", "", "skipped", "usage_not_present", "", NO_ERROR)
  }

  function Answer(json: Json, s: State): FinalResult { Verdict(Ask(json, s)) }

  /** The tracker of one stream. */
  class ResponsesStreamState {
    const json: Json
    var seenCreated: bool
    var createdModel: string
    var seenCompleted: bool
    var completedModel: string
    var completedUsage: string
    var seenFailed: bool
    var failedModel: string
    var seenIncomplete: bool
    var incompleteModel: string
    var incompleteReason: string
    var seenError: bool
    var error: ErrorFields
    var usage: Option<UsageInfo>
    var imageCount: int
    var partialImages: int
    var parseErrors: int

    function Value(): State
      reads this
    {
      State(Mark(seenCreated, createdModel), CompletedMark(seenCompleted, completedModel, completedUsage, imageCount),
            Mark(seenFailed, failedModel), IncompleteMark(seenIncomplete, incompleteModel, incompleteReason),
            ErrorMark(seenError, error), usage, partialImages, parseErrors)
    }

    constructor (json: Json)
      ensures Value() == FRESH && this.json == json
    {
      this.json := json;
      seenCreated, seenCompleted, seenFailed, seenIncomplete, seenError := false, false, false, false, false;
      createdModel, completedModel, completedUsage, failedModel := "", "", "", "";
      incompleteModel, incompleteReason, error, usage := "", "", NO_ERROR, None;
      imageCount, partialImages, parseErrors := 0, 0, 0;
    }

    method ProcessSSEEvent(text: string)
      modifies this
      ensures Value() == Step(json, old(Value()), text)
    {
      if text == "" { return; }
      if |text| > MAX_JSON_BYTES {
        parseErrors := parseErrors + 1;
        return;
      }
      match json.event(text) {
        case None => parseErrors := parseErrors + 1;
        case Some(e) => Dispatch(e);
      }
    }

    method RecordCompleted(response: Option<Response>)
      modifies this`seenCompleted, this`completedModel, this`completedUsage, this`imageCount
      ensures Value().completed == CompletedNext(old(Value()).completed, response)
    {
      seenCompleted := true;
      if response.Some? {
        var r := response.value;
        if r.model != "" { completedModel := r.model; }
        if |r.usage| > 0 { completedUsage := r.usage; }
        if r.imageOutputs > 0 { imageCount := r.imageOutputs; }
      }
    }

    method Dispatch(e: Event)
      modifies this
      ensures Value() == OnEvent(old(Value()), e)
    {
      match e.kind {
        case PartialImage =>
          partialImages := partialImages + 1;
        case Created =>
          seenCreated := true;
          if e.response.Some? && e.response.value.model != "" { createdModel := e.response.value.model; }
        case Completed =>
          RecordCompleted(e.response);
        case Failed =>
          seenFailed := true;
          if e.response.Some? && e.response.value.model != "" { failedModel := e.response.value.model; }
        case Incomplete =>
          seenIncomplete := true;
          if e.response.Some? {
            var r := e.response.value;
            if r.model != "" { incompleteModel := r.model; }
            if r.incompleteReason != "" { incompleteReason := r.incompleteReason; }
          }
        case Error =>
          seenError := true;
          if e.error.Some? { error := e.error.value; }
        case Other =>
      }
    }

    method Result() returns (result: FinalResult)
      modifies this`usage
      ensures Value() == Ask(json, old(Value()))
      ensures result == Answer(json, old(Value()))
    {
      hide Verdict;
      var info := Tokens(json, completedModel, completedUsage);
      if info.Some? { usage := Some(WithImages(info.value, imageCount, partialImages)); }
      result := Verdict(Value());
    }
  }

  // ---------- what the verdict says of the events ----------

  function Filter(json: Json, texts: seq<string>, kind: Kind): seq<string> {
    if texts == [] then []
    else Filter(json, texts[..|texts| - 1], kind) + if Is(json, texts[|texts| - 1], kind) then [texts[|texts| - 1]] else []
  }

  predicate Occurs(json: Json, texts: seq<string>, kind: Kind) { exists t :: t in texts && Is(json, t, kind) }

  function ModelOf(): Response -> string { (r: Response) => r.model }

  function UsageOf(): Response -> string { (r: Response) => r.usage }

  function ReasonOf(): Response -> string { (r: Response) => r.incompleteReason }

  /** A field of the last response among some events that fills it. */
  function LastOf(json: Json, events: seq<string>, field: Response -> string): string {
    if events == [] then ""
    else
      var e := Readable(json, events[|events| - 1]);
      var rest := LastOf(json, events[..|events| - 1], field);
      if e.Some? && e.value.response.Some? then KeepText(rest, field(e.value.response.value)) else rest
  }

  /** The same of all the events of a kind. */
  function LastField(json: Json, texts: seq<string>, kind: Kind, field: Response -> string): string {
    LastOf(json, Filter(json, texts, kind), field)
  }

  /** The fields of the last error event that has some. */
  function LastError(json: Json, events: seq<string>): ErrorFields {
    if events == [] then NO_ERROR
    else
      var e := Readable(json, events[|events| - 1]);
      if e.Some? && e.value.error.Some? then e.value.error.value else LastError(json, events[..|events| - 1])
  }

  predicate MakesImages(json: Json, text: string) {
    Is(json, text, Completed) && Readable(json, text).value.response.Some?
    && Readable(json, text).value.response.value.imageOutputs > 0
  }

  predicate AnyUnreadable(json: Json, texts: seq<string>) { exists t :: t in texts && Unreadable(json, t) }

  predicate AnyImages(json: Json, texts: seq<string>) { exists t :: t in texts && MakesImages(json, t) }

  /** The flags say which kinds of events occurred. */
  predicate Flags(json: Json, texts: seq<string>, s: State) {
    && (s.created.seen <==> Occurs(json, texts, Created))
    && (s.completed.seen <==> Occurs(json, texts, Completed))
    && (s.failed.seen <==> Occurs(json, texts, Failed))
    && (s.incomplete.seen <==> Occurs(json, texts, Incomplete))
    && (s.error.seen <==> Occurs(json, texts, Error))
  }

  /** The counters say whether anything was counted; the usage object is the last one of the completed events. */
  predicate Counters(json: Json, texts: seq<string>, s: State) {
    && (s.parseErrors > 0 <==> AnyUnreadable(json, texts))
    && (s.partialImages > 0 <==> Occurs(json, texts, PartialImage))
    && (s.completed.images > 0 <==> AnyImages(json, texts))
    && s.completed.usage == LastField(json, texts, Completed, UsageOf())
    && s.parseErrors >= 0 && s.partialImages >= 0 && s.completed.images >= 0 && s.usage.None?
  }

  /** The names and reasons kept are the last ones of their kind. */
  predicate Names(json: Json, texts: seq<string>, s: State) {
    && s.created.model == LastField(json, texts, Created, ModelOf())
    && s.completed.model == LastField(json, texts, Completed, ModelOf())
    && s.failed.model == LastField(json, texts, Failed, ModelOf())
    && s.incomplete.model == LastField(json, texts, Incomplete, ModelOf())
    && s.incomplete.reason == LastField(json, texts, Incomplete, ReasonOf())
    && s.error.fields == LastError(json, Filter(json, texts, Error))
  }

  predicate Summarises(json: Json, texts: seq<string>, s: State) {
    Flags(json, texts, s) && Counters(json, texts, s) && Names(json, texts, s)
  }

  lemma {:induction false} RunSummarises(json: Json, texts: seq<string>)
    ensures Summarises(json, texts, Run(json, FRESH, texts))
  {
    if texts != [] {
      var rest, last := texts[..|texts| - 1], texts[|texts| - 1];
      RunSummarises(json, rest);
      hide Flags, Counters, Names;
      FlagsNext(json, rest, last, Run(json, FRESH, rest));
      CountersNext(json, rest, last, Run(json, FRESH, rest));
      NamesNext(json, rest, last, Run(json, FRESH, rest));
      SplitLast(texts);
    }
  }

  lemma OccursNext(json: Json, texts: seq<string>, text: string, kind: Kind)
    ensures Occurs(json, texts + [text], kind) <==> Occurs(json, texts, kind) || Is(json, text, kind)
    ensures AnyUnreadable(json, texts + [text]) <==> AnyUnreadable(json, texts) || Unreadable(json, text)
    ensures AnyImages(json, texts + [text]) <==> AnyImages(json, texts) || MakesImages(json, text)
  {
    hide Is, Unreadable, MakesImages;
    assert forall t :: t in texts + [text] <==> t in texts || t == text;
  }

  lemma FlagsNext(json: Json, texts: seq<string>, text: string, s: State)
    requires Flags(json, texts, s)
    ensures Flags(json, texts + [text], Step(json, s, text))
  {
    hide Occurs;
    OccursNext(json, texts, text, Created);
    OccursNext(json, texts, text, Completed);
    OccursNext(json, texts, text, Failed);
    OccursNext(json, texts, text, Incomplete);
    OccursNext(json, texts, text, Error);
  }

  lemma CountersNext(json: Json, texts: seq<string>, text: string, s: State)
    requires Counters(json, texts, s)
    ensures Counters(json, texts + [text], Step(json, s, text))
  {
    hide Occurs, LastField, Filter, AnyUnreadable, AnyImages;
    OccursNext(json, texts, text, PartialImage);
    FieldNext(json, texts, text, Completed, UsageOf());
  }

  lemma NamesNext(json: Json, texts: seq<string>, text: string, s: State)
    requires Names(json, texts, s)
    ensures Names(json, texts + [text], Step(json, s, text))
  {
    hide LastField, LastError, Filter;
    FieldNext(json, texts, text, Created, ModelOf());
    FieldNext(json, texts, text, Completed, ModelOf());
    FieldNext(json, texts, text, Failed, ModelOf());
    FieldNext(json, texts, text, Incomplete, ModelOf());
    FieldNext(json, texts, text, Incomplete, ReasonOf());
    ErrorNext(json, texts, text);
  }

  lemma FieldNext(json: Json, texts: seq<string>, text: string, kind: Kind, field: Response -> string)
    ensures LastField(json, texts + [text], kind, field)
         == var rest := LastField(json, texts, kind, field);
            if Is(json, text, kind) && Readable(json, text).value.response.Some?
            then KeepText(rest, field(Readable(json, text).value.response.value)) else rest
  {
    ConcatSnoc(texts, text);
    ConcatSnoc(Filter(json, texts, kind), text);
    ConcatEmpty(Filter(json, texts, kind));
  }

  lemma ErrorNext(json: Json, texts: seq<string>, text: string)
    ensures LastError(json, Filter(json, texts + [text], Error))
         == if Is(json, text, Error) && Readable(json, text).value.error.Some?
            then Readable(json, text).value.error.value else LastError(json, Filter(json, texts, Error))
  {
    ConcatSnoc(texts, text);
    ConcatSnoc(Filter(json, texts, Error), text);
    ConcatEmpty(Filter(json, texts, Error));
  }

  /** The usage object that a stream ends with, decoded; none when there is none or it has nothing to report. */
  function FinalUsage(json: Json, texts: seq<string>): Option<RawUsage> {
    var raw := LastField(json, texts, Completed, UsageOf());
    if raw == "" || json.usage(raw).None? then None
    else
      var u := json.usage(raw).value;
      if u.input <= 0 && u.output <= 0 && u.total <= 0 then None else Some(u)
  }

  lemma TokensAre(json: Json, model: string, raw: string, texts: seq<string>)
    requires raw == LastField(json, texts, Completed, UsageOf())
    ensures Tokens(json, model, raw).Some? <==> FinalUsage(json, texts).Some?
    ensures FinalUsage(json, texts).Some? ==> var u, t := FinalUsage(json, texts).value, Tokens(json, model, raw).value;
      && t.inputTokens == TokenCount(u.input) && t.outputTokens == TokenCount(u.output) && t.totalTokens == TokenCount(u.total)
      && t.cachedTokens == TokenCount(u.cached) && t.reasoningTokens == TokenCount(u.reasoning) && t.cacheCreationTokens == 0
      && t.model == model && t.usageRawJSON == raw
      && t == NO_USAGE.(model := t.model, inputTokens := t.inputTokens, outputTokens := t.outputTokens,
                        reasoningTokens := t.reasoningTokens, cachedTokens := t.cachedTokens, totalTokens := t.totalTokens,
                        usageRawJSON := t.usageRawJSON)
  {
    hide LastField;
  }

  /** Outcome, reason and terminal event in the order of precedence. */
  function Expected(json: Json, texts: seq<string>): (string, string, string) {
    if FinalUsage(json, texts).Some? then ("captured", "", "response.completed")
    else if AnyUnreadable(json, texts) then ("failed", "parse_error", "stream_error")
    else if Occurs(json, texts, Completed) then
      if Occurs(json, texts, PartialImage) || AnyImages(json, texts)
      then ("captured", "", "response.completed")
      else ("skipped", "response_completed_without_usage", "response.completed")
    else if Occurs(json, texts, Incomplete) then ("skipped", "response_incomplete", "response.incomplete")
    else if Occurs(json, texts, Failed) || Occurs(json, texts, Error) then
      ("failed", "response_error_event", if Occurs(json, texts, Error) then "error" else "response.failed")
    else if Occurs(json, texts, Created) then ("skipped", "stream_ended_without_completed", "stream_end")
    else ("skipped", "usage_not_present", "")
  }

  function Ending(r: FinalResult): (string, string, string) { (r.outcome, r.reason, r.terminal) }

  /** For every sequence of events the answer follows the order of precedence. */
  lemma ResultFollowsPrecedence(json: Json, texts: seq<string>)
    ensures Ending(Answer(json, Run(json, FRESH, texts))) == Expected(json, texts)
  {
    hide Occurs, LastField, Filter, Run, Best, AnyImages, AnyUnreadable;
    RunSummarises(json, texts);
    var s := Run(json, FRESH, texts);
    TokensAre(json, s.completed.model, s.completed.usage, texts);
  }

  /** The first of some kinds of events that names a model names it, each by its last event that does. */
  function NamedBy(json: Json, texts: seq<string>, kinds: seq<Kind>): string {
    if kinds == [] then ""
    else
      var model := LastField(json, texts, kinds[0], ModelOf());
      if model != "" then model else NamedBy(json, texts, kinds[1..])
  }

  /** Whose model is reported, under which source: again an order of precedence, with one of its own in each case. */
  function Namers(json: Json, texts: seq<string>): (seq<Kind>, string) {
    if FinalUsage(json, texts).Some? then
      ([Completed, Created, Failed, Incomplete], "usage")
    else if AnyUnreadable(json, texts) then ([Completed, Incomplete, Failed, Created], "")
    else if Occurs(json, texts, Completed) then ([Completed, Created], "response_completed")
    else if Occurs(json, texts, Incomplete) then ([Incomplete, Created], "response_incomplete")
    else if Occurs(json, texts, Failed) || Occurs(json, texts, Error) then ([Failed, Created], "response_failed")
    else if Occurs(json, texts, Created) then ([Created], "response_created")
    else ([], "")
  }

  lemma NamedByOne(json: Json, texts: seq<string>, a: Kind)
    ensures NamedBy(json, texts, [a]) == LastField(json, texts, a, ModelOf())
  {
    hide LastField;
    assert [a][1..] == [];
  }

  lemma NamedByTwo(json: Json, texts: seq<string>, a: Kind, b: Kind)
    ensures NamedBy(json, texts, [a, b]) == Best([LastField(json, texts, a, ModelOf()), LastField(json, texts, b, ModelOf())])
  {
    hide LastField;
    NamedByOne(json, texts, b);
    assert [a, b][1..] == [b];
    BestOfTwo(LastField(json, texts, a, ModelOf()), LastField(json, texts, b, ModelOf()));
  }

  lemma BestOfTwo(a: string, b: string)
    ensures Best([a, b]) == if a != "" then a else b
  {
    assert [a, b][1..] == [b] && [b][1..] == [];
    assert Best([b]) == b;
  }

  lemma NamedByFour(json: Json, texts: seq<string>, a: Kind, b: Kind, c: Kind, d: Kind)
    ensures NamedBy(json, texts, [a, b, c, d])
         == Best([LastField(json, texts, a, ModelOf()), LastField(json, texts, b, ModelOf()),
                  LastField(json, texts, c, ModelOf()), LastField(json, texts, d, ModelOf())])
  {
    hide LastField;
    var w, x := LastField(json, texts, a, ModelOf()), LastField(json, texts, b, ModelOf());
    var y, z := LastField(json, texts, c, ModelOf()), LastField(json, texts, d, ModelOf());
    NamedByTwo(json, texts, c, d);
    assert [a, b, c, d][1..] == [b, c, d] && [b, c, d][1..] == [c, d];
    assert [w, x, y, z][1..] == [x, y, z] && [x, y, z][1..] == [y, z];
  }

  /** The model and the source of an answer, by the kinds that the state has seen. */
  lemma ModelOfVerdict(json: Json, s: State)
    requires s.usage.None?
    ensures var result := Answer(json, s);
      if Tokens(json, "", s.completed.usage).Some? then
        result.model == Best([s.completed.model, s.created.model, s.failed.model, s.incomplete.model]) && result.source == "usage"
      else if s.parseErrors > 0 then
        result.model == Best([s.completed.model, s.incomplete.model, s.failed.model, s.created.model]) && result.source == ""
      else if s.completed.seen then
        result.model == Best([s.completed.model, s.created.model]) && result.source == "response_completed"
      else if s.incomplete.seen then
        result.model == Best([s.incomplete.model, s.created.model]) && result.source == "response_incomplete"
      else if s.failed.seen || s.error.seen then
        result.model == Best([s.failed.model, s.created.model]) && result.source == "response_failed"
      else if s.created.seen then result.model == s.created.model && result.source == "response_created"
      else result.model == "" && result.source == ""
  {
    assert Tokens(json, s.completed.model, s.completed.usage).Some? <==> Tokens(json, "", s.completed.usage).Some?;
    BestStartsWith(s.completed.model, [s.created.model, s.failed.model, s.incomplete.model]);
    assert [s.completed.model] + [s.created.model, s.failed.model, s.incomplete.model]
        == [s.completed.model, s.created.model, s.failed.model, s.incomplete.model];
    hide Best;
  }

  /** For every sequence of events the model and its source follow that order. */
  lemma ModelFollowsPrecedence(json: Json, texts: seq<string>)
    ensures var result := Answer(json, Run(json, FRESH, texts));
      result.model == NamedBy(json, texts, Namers(json, texts).0) && result.source == Namers(json, texts).1
  {
    hide Occurs, LastField, LastError, Filter, Run, Best, NamedBy, AnyImages, AnyUnreadable, Answer, Tokens, FinalUsage;
    RunSummarises(json, texts);
    TokensAre(json, "", Run(json, FRESH, texts).completed.usage, texts);
    ModelOfVerdict(json, Run(json, FRESH, texts));
    NamedByFour(json, texts, Completed, Created, Failed, Incomplete);
    NamedByFour(json, texts, Completed, Incomplete, Failed, Created);
    NamedByTwo(json, texts, Completed, Created);
    NamedByTwo(json, texts, Incomplete, Created);
    NamedByTwo(json, texts, Failed, Created);
    NamedByOne(json, texts, Created);
    NamedByNone(json, texts);
  }

  lemma NamedByNone(json: Json, texts: seq<string>)
    ensures NamedBy(json, texts, []) == ""
  {}

  lemma BestStartsWith(model: string, rest: seq<string>)
    ensures model != "" ==> Best([model] + rest) == model
  {}

  /** The reason, the class and the fields of what went wrong are those of the last events that tell. */
  lemma ErrorFollowsPrecedence(json: Json, texts: seq<string>)
    ensures var result := Answer(json, Run(json, FRESH, texts));
      var reason := LastField(json, texts, Incomplete, ReasonOf());
      && result.terminalReason == (match result.terminal
           case "stream_error" => "stream_error"
           case "response.incomplete" => if reason == "" then "incomplete" else reason
           case _ => "")
      && (if result.terminal == "error"
          then result.errorClass == "response_error_event" && result.error == LastError(json, Filter(json, texts, Error))
          else result.errorClass == (if result.terminal == "stream_error" then "stream_parse_error" else "")
               && result.error == NO_ERROR)
  {
    hide Occurs, LastField, LastError, Filter, Run, Best, AnyImages, AnyUnreadable, Tokens;
    RunSummarises(json, texts);
  }

  // ---------- the usage reported ----------

  /** The number of images in the last completed event that makes any. */
  function LastImages(json: Json, texts: seq<string>): nat {
    if texts == [] then 0
    else if MakesImages(json, texts[|texts| - 1]) then Readable(json, texts[|texts| - 1]).value.response.value.imageOutputs
    else LastImages(json, texts[..|texts| - 1])
  }

  /** A text over a mebibyte, or that cannot be decoded. */
  predicate Broken(json: Json, text: string) { text != "" && (|text| > 1048576 || json.event(text).None?) }

  function BrokenCount(json: Json, texts: seq<string>): nat {
    if texts == [] then 0
    else BrokenCount(json, texts[..|texts| - 1]) + if Broken(json, texts[|texts| - 1]) then 1 else 0
  }

  /** The counters are those of the events. */
  lemma {:induction false} CountersExactly(json: Json, texts: seq<string>)
    ensures var s := Run(json, FRESH, texts);
      && s.partialImages == |Filter(json, texts, PartialImage)| && s.completed.images == LastImages(json, texts)
      && s.parseErrors == BrokenCount(json, texts)
  {
    hide Marked, IncompleteNext;
    if texts != [] { CountersExactly(json, texts[..|texts| - 1]); }
  }

  /** Images were made, in part or in whole. */
  predicate Pictures(json: Json, texts: seq<string>) {
    LastImages(json, texts) > 0 || Filter(json, texts, PartialImage) != []
  }

  /** What is captured is a usage object, or images of a completed response that could be read throughout. */
  predicate Captured(json: Json, texts: seq<string>) {
    FinalUsage(json, texts).Some? || (Occurs(json, texts, Completed) && !AnyUnreadable(json, texts) && Pictures(json, texts))
  }

  /** The answer of a state in terms of its counters and its usage object. */
  lemma UsageOfVerdict(json: Json, s: State)
    requires s.usage.None? && s.partialImages >= 0 && s.completed.images >= 0 && s.parseErrors >= 0
    ensures var result := Answer(json, s);
      var tokens := Tokens(json, s.completed.model, s.completed.usage);
      var images := s.parseErrors == 0 && s.completed.seen && (s.completed.images > 0 || s.partialImages > 0);
      && (result.usage.Some? <==> tokens.Some? || images)
      && (result.outcome == "captured" <==> tokens.Some? || images)
      && (result.usage.Some? ==> var u := result.usage.value;
            && (if tokens.Some? then u == tokens.value.(imageCount := u.imageCount, partialImageCount := u.partialImageCount,
                                                        operation := u.operation)
                else u == NO_USAGE.(model := u.model, imageCount := u.imageCount, partialImageCount := u.partialImageCount,
                                    operation := u.operation))
            && u.imageCount == Wrap64(s.completed.images) && u.partialImageCount == Wrap64(s.partialImages)
            && u.operation == if s.completed.images > 0 || s.partialImages > 0 then "generation" else "")
  {
    hide Best;
    WrapExact(0);
  }

  /** A usage is reported exactly where the stream ends as captured, and when that is. */
  lemma UsageExactly(json: Json, texts: seq<string>)
    ensures var result := Answer(json, Run(json, FRESH, texts));
      && (result.usage.Some? <==> result.outcome == "captured")
      && (result.usage.Some? <==> Captured(json, texts))
  {
    hide Run, LastField, LastError, Filter, Answer, Names, AnyUnreadable, Occurs, LastImages, Tokens;
    RunSummarises(json, texts);
    CountersExactly(json, texts);
    var s := Run(json, FRESH, texts);
    UsageOfVerdict(json, s);
    TokensAre(json, s.completed.model, s.completed.usage, texts);
  }

  /**
   For every sequence of events: the tokens reported are the non-negative parts of the last usage object among the
   completed events, none of them without one; the images are those of the last event that made some, and the partial
   images all of them counted; and the operation says whether there were any.
   */
  lemma ReportedUsage(json: Json, texts: seq<string>)
    requires Answer(json, Run(json, FRESH, texts)).usage.Some?
    ensures var u := Answer(json, Run(json, FRESH, texts)).usage.value; var final := FinalUsage(json, texts);
      && (final.Some? ==>
            && u.inputTokens == TokenCount(final.value.input) && u.outputTokens == TokenCount(final.value.output)
            && u.totalTokens == TokenCount(final.value.total) && u.cachedTokens == TokenCount(final.value.cached)
            && u.reasoningTokens == TokenCount(final.value.reasoning)
            && u.usageRawJSON == LastField(json, texts, Completed, UsageOf()))
      && (final.None? ==>
            u.inputTokens == u.outputTokens == u.totalTokens == u.cachedTokens == u.reasoningTokens == 0 && u.usageRawJSON == "")
      && u.cacheCreationTokens == 0
      && u.imageCount == Wrap64(LastImages(json, texts))
      && u.partialImageCount == Wrap64(|Filter(json, texts, PartialImage)|)
      && u.operation == (if Pictures(json, texts) then "generation" else "")
  {
    hide Run, LastField, LastError, Filter, Answer, Names, AnyUnreadable, Occurs, LastImages, Tokens, Wrap64, FinalUsage, TokenCount;
    RunSummarises(json, texts);
    CountersExactly(json, texts);
    var s := Run(json, FRESH, texts);
    UsageOfVerdict(json, s);
    TokensAre(json, s.completed.model, s.completed.usage, texts);
  }

  lemma SameMembers(a: seq<string>, b: seq<string>)
    requires multiset(a) == multiset(b)
    ensures forall t :: t in a <==> t in b
  {
    forall t ensures t in a <==> t in b {
      assert t in a <==> t in multiset(a);
      assert t in b <==> t in multiset(b);
    }
  }

  /** Reordering events changes nothing in it as long as the completed events keep their order. */
  lemma OrderMattersOnlyForCompleted(json: Json, a: seq<string>, b: seq<string>)
    requires multiset(a) == multiset(b)
    requires Filter(json, a, Completed) == Filter(json, b, Completed)
    ensures Ending(Answer(json, Run(json, FRESH, a))) == Ending(Answer(json, Run(json, FRESH, b)))
  {
    hide LastOf, Filter, Run, Is, MakesImages, Unreadable, Answer;
    ResultFollowsPrecedence(json, a);
    ResultFollowsPrecedence(json, b);
    SameMembers(a, b);
  }

  /** Asking twice gives the same answer and leaves the same state. */
  lemma AskingTwice(json: Json, s: State)
    ensures Ask(json, Ask(json, s)) == Ask(json, s) && Answer(json, Ask(json, s)) == Answer(json, s)
  {
    hide Verdict, Tokens;
  }

  predicate HasTokens(json: Json, s: State) { Tokens(json, s.completed.model, s.completed.usage).Some? }

  lemma EventIgnoresUsage(s: State, usage: Option<UsageInfo>, e: Event)
    ensures OnEvent(s.(usage := usage), e) == OnEvent(s, e).(usage := usage)
  {}

  lemma {:induction false} StepsIgnoreUsage(json: Json, s: State, usage: Option<UsageInfo>, texts: seq<string>)
    ensures Run(json, s.(usage := usage), texts) == Run(json, s, texts).(usage := usage)
  {
    hide OnEvent;
    if texts != [] {
      var rest, last := texts[..|texts| - 1], texts[|texts| - 1];
      StepsIgnoreUsage(json, s, usage, rest);
      if Readable(json, last).Some? { EventIgnoresUsage(Run(json, s, rest), usage, Readable(json, last).value); }
    }
  }

  /** An early question shows in the final answer exactly when it found tokens that the end no longer has. */
  lemma AskingEarlyShowsExactly(json: Json, s: State, texts: seq<string>)
    requires s.usage.None?
    ensures Answer(json, Run(json, Ask(json, s), texts)) != Answer(json, Run(json, s, texts))
        <==> HasTokens(json, s) && !HasTokens(json, Run(json, s, texts))
  {
    hide Tokens, Best, Run;
    StepsIgnoreUsage(json, s, s.usage, texts);
    StepsIgnoreUsage(json, s, Ask(json, s).usage, texts);
    assert s.(usage := s.usage) == s && s.(usage := Ask(json, s).usage) == Ask(json, s);
    NoUsageOfItsOwn(json, s, texts);
  }

  /** Two completed events: the first reports a token, the second a usage object without any. */
  function TwoCompleted(): Json {
    Json((text: string) =>
           if text == "first" then Some(Event(Completed, Some(Response("m", "one", 0, "")), None))
           else if text == "second" then Some(Event(Completed, Some(Response("m", "none", 0, "")), None))
           else None,
         (raw: string) => Some(RawUsage(if raw == "one" then 1 else 0, 0, 0, 0, 0)))
  }

  /** Asked between the two, the stream ends as captured; not asked, as skipped. The proxy asks once, at the end. */
  lemma AskingEarlyCanShow()
    ensures var json := TwoCompleted();
      var s := Run(json, FRESH, ["first"]);
      && Answer(json, Run(json, Ask(json, s), ["second"])).outcome == "captured"
      && Answer(json, Run(json, s, ["second"])).outcome == "skipped"
  {
    var json := TwoCompleted();
    assert "first"[0] != "second"[0] && |"one"| != |"none"| && |"one"| > 0 && |"none"| > 0;
    OneEvent(json, FRESH, "first");
    var s := Run(json, FRESH, ["first"]);
    assert s.completed == CompletedMark(true, "m", "one", 0) && s.parseErrors == 0 && s.partialImages == 0;
    OneEvent(json, s, "second");
    OneEvent(json, Ask(json, s), "second");
    hide Run, Best;
    assert HasTokens(json, s) && !HasTokens(json, Step(json, s, "second"));
  }

  lemma OneEvent(json: Json, s: State, text: string)
    ensures Run(json, s, [text]) == Step(json, s, text)
  {
    hide Step;
    assert [text][..0] == [];
  }

  lemma NoUsageOfItsOwn(json: Json, s: State, texts: seq<string>)
    ensures Run(json, s, texts).usage == s.usage
  {
    StepsIgnoreUsage(json, s, s.usage, texts);
    assert s.(usage := s.usage) == s;
  }
}
