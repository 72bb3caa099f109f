/**
 The event stream of a chat completion: the printer that writes each event as one frame of section
 9.2.5 of the WHATWG HTML Standard, the Node client that cuts decoded text at blank lines, and the
 Python client that reads the bytes line by line.
 */
module Sse {
  import opened Wrappers
  import Json
  import Utf8
  type byte = Utf8.byte

  // ---- events ------------------------------------------------------------------------------------

  datatype FinishReason = Stop | Length | ContentFilter | Failure

  datatype Usage = Usage(promptTokens: nat, completionTokens: nat, totalTokens: nat)

  datatype Event<E> =
    | Start(id: string, model: string)
    | Delta(content: string)
    | Done(finishReason: FinishReason, usage: Usage)
    | Error(error: E)

  /** What the server knows of a failure, and the part of it that may reach the client. */
  datatype GatewayError = GatewayError(code: string, message: string, httpStatus: nat, retryable: bool, cause: string)
  datatype ClientError = ClientError(code: string, message: string)

  type StreamEvent = Event<GatewayError>
  type WireEvent = Event<ClientError>

  function ToWirePayload(e: StreamEvent): WireEvent {
    match e
    case Error(error) => Error(ClientError(error.code, error.message))
    case Start(id, model) => Start(id, model)
    case Delta(content) => Delta(content)
    case Done(reason, usage) => Done(reason, usage)
  }

  function TypeName<E>(e: Event<E>): string {
    match e
    case Start(_, _) => "start"
    case Delta(_) => "delta"
    case Done(_, _) => "done"
    case Error(_) => "error"
  }

  function ReasonName(r: FinishReason): string {
    match r
    case Stop => "stop"
    case Length => "length"
    case ContentFilter => "content_filter"
    case Failure => "error"
  }

  // ---- payloads ----------------------------------------------------------------------------------

  function Count(n: nat): Json.Json {
    Json.Number(Json.Decimal(n))
  }

  function UsageToJson(u: Usage): Json.Json {
    Json.Object(Json.Member("promptTokens", Count(u.promptTokens),
                Json.Member("completionTokens", Count(u.completionTokens),
                Json.Member("totalTokens", Count(u.totalTokens), Json.NoMember))))
  }

  function ToJson(e: WireEvent): Json.Json {
    var fields := match e
      case Start(id, model) => Json.Member("id", Json.String(id), Json.Member("model", Json.String(model), Json.NoMember))
      case Delta(content) => Json.Member("content", Json.String(content), Json.NoMember)
      case Done(reason, usage) =>
        Json.Member("finishReason", Json.String(ReasonName(reason)), Json.Member("usage", UsageToJson(usage), Json.NoMember))
      case Error(error) =>
        Json.Member("code", Json.String(error.code), Json.Member("message", Json.String(error.message), Json.NoMember));
    Json.Object(Json.Member("type", Json.String(TypeName(e)), fields))
  }

  function TextField(members: Json.Members, name: string): Option<string> {
    match members.Find(name)
    case Some(String(text)) => Some(text)
    case _ => None
  }

  function CountField(members: Json.Members, name: string): Option<nat> {
    match members.Find(name)
    case Some(Number(lexeme)) => Some(Json.ValueOf(lexeme))
    case _ => None
  }

  function ReasonOf(name: string): Option<FinishReason> {
    if name == "stop" then Some(Stop)
    else if name == "length" then Some(Length)
    else if name == "content_filter" then Some(ContentFilter)
    else if name == "error" then Some(Failure)
    else None
  }

  function UsageOf(j: Json.Json): Option<Usage> {
    if !j.Object? then None
    else
      var p, c, t := CountField(j.members, "promptTokens"), CountField(j.members, "completionTokens"), CountField(j.members, "totalTokens");
      if p.None? || c.None? || t.None? then None else Some(Usage(p.value, c.value, t.value))
  }

  /** The Python codec: the variant is chosen by the `type` field and its declared fields are taken by
      name. None stands for the exception it raises on any other payload. */
  function FromJson(j: Json.Json): Option<WireEvent> {
    if !j.Object? then None
    else match TextField(j.members, "type")
      case Some("start") =>
        var id, model := TextField(j.members, "id"), TextField(j.members, "model");
        if id.Some? && model.Some? then Some(Start(id.value, model.value)) else None
      case Some("delta") =>
        var content := TextField(j.members, "content");
        if content.Some? then Some(Delta(content.value)) else None
      case Some("done") =>
        var reason, usage := TextField(j.members, "finishReason"), j.members.Find("usage");
        if reason.Some? && ReasonOf(reason.value).Some? && usage.Some? && UsageOf(usage.value).Some?
        then Some(Done(ReasonOf(reason.value).value, UsageOf(usage.value).value)) else None
      case Some("error") =>
        var code, message := TextField(j.members, "code"), TextField(j.members, "message");
        if code.Some? && message.Some? then Some(Error(ClientError(code.value, message.value))) else None
      case _ => None
  }

  lemma CountIsValid(n: nat)
    ensures Json.Valid(Count(n))
  {
    Json.DecimalIsNumber(n);
  }

  lemma MemberIsValid(name: string, value: Json.Json, rest: Json.Members)
    requires Json.Valid(value) && Json.ValidMembers(rest)
    ensures Json.ValidMembers(Json.Member(name, value, rest))
  {
  }

  lemma PayloadIsValid(e: WireEvent)
    ensures Json.Valid(ToJson(e))
  {
    var m := ToJson(e).members;
    assert Json.ValidMembers(Json.NoMember);
    if e.Done? {
      CountIsValid(e.usage.promptTokens);
      CountIsValid(e.usage.completionTokens);
      CountIsValid(e.usage.totalTokens);
      var counts := UsageToJson(e.usage).members;
      MemberIsValid(counts.rest.rest.name, counts.rest.rest.value, Json.NoMember);
      MemberIsValid(counts.rest.name, counts.rest.value, counts.rest.rest);
      MemberIsValid(counts.name, counts.value, counts.rest);
      assert Json.Valid(UsageToJson(e.usage));
    }
    if m.rest.rest.Member? {
      MemberIsValid(m.rest.rest.name, m.rest.rest.value, Json.NoMember);
    }
    MemberIsValid(m.rest.name, m.rest.value, m.rest.rest);
    MemberIsValid(m.name, m.value, m.rest);
  }

  lemma UsageRoundTrip(u: Usage)
    ensures UsageOf(UsageToJson(u)) == Some(u)
  {
    Json.DecimalRoundTrip(u.promptTokens);
    Json.DecimalRoundTrip(u.completionTokens);
    Json.DecimalRoundTrip(u.totalTokens);
    var m := UsageToJson(u).members;
    var p, c, t := "promptTokens", "completionTokens", "totalTokens";
    assert |p| == 12 && |c| == 16 && |t| == 11;
    assert m.rest.rest.Find(p) == None && m.rest.rest.Find(c) == None && m.rest.rest.Find(t) == Some(Count(u.totalTokens));
    assert m.rest.Find(p) == None && m.rest.Find(c) == Some(Count(u.completionTokens)) && m.rest.Find(t) == Some(Count(u.totalTokens));
  }

  lemma TwoFields(m: Json.Members, first: string, second: string)
    requires m.Member? && m.name == "type" && m.rest.Member? && m.rest.name == first
    requires if m.rest.rest.Member? then m.rest.rest.name == second && m.rest.rest.rest.NoMember? else second == first
    requires first != "type" && second != "type" && (m.rest.rest.Member? ==> first != second)
    ensures m.Find("type") == Some(m.value) && m.Find(first) == Some(m.rest.value)
    ensures m.rest.rest.Member? ==> m.Find(second) == Some(m.rest.rest.value)
  {
    var r := m.rest.rest;
    assert r.Find("type") == None && (r.Member? ==> r.Find(first) == None && r.Find(second) == Some(r.value));
    assert r.NoMember? ==> r.Find(first) == None;
    assert m.rest.Find("type") == None && m.rest.Find(first) == Some(m.rest.value);
    assert r.Member? ==> m.rest.Find(second) == Some(r.value);
  }

  /** Decoding a payload gives back its event. */
  lemma PayloadRoundTrip(e: WireEvent)
    ensures FromJson(ToJson(e)) == Some(e)
  {
    var m := ToJson(e).members;
    match e {
      case Start(_, _) =>
        assert |"id"| == 2 && |"model"| == 5 && |"type"| == 4;
        TwoFields(m, "id", "model");
      case Delta(_) =>
        assert |"content"| == 7 && |"type"| == 4;
        TwoFields(m, "content", "content");
      case Done(_, usage) =>
        assert |"finishReason"| == 12 && |"usage"| == 5 && |"type"| == 4;
        TwoFields(m, "finishReason", "usage");
        UsageRoundTrip(usage);
      case Error(_) =>
        assert |"code"| == 4 && |"message"| == 7 && "code"[0] != "type"[0];
        TwoFields(m, "code", "message");
    }
  }

  // ---- the printer -------------------------------------------------------------------------------

  function EventLine(e: WireEvent): string {
    "event: " + TypeName(e)
  }

  function DataLine(e: WireEvent): string {
    "data: " + Json.Print(ToJson(e))
  }

  function Frame(e: WireEvent): string {
    FrameOf(EventLine(e), DataLine(e))
  }

  function FrameOf(eventLine: string, dataLine: string): string {
    eventLine + "\n" + dataLine + "\n\n"
  }

  /** The first field of a payload as text, and the others behind it. */
  function FieldText(name: string, value: string, others: string): string {
    Json.Quote(name) + ":" + value + others
  }

  lemma LastFieldText(name: string, value: Json.Json)
    ensures Json.PrintMembers(Json.Member(name, value, Json.NoMember)) == FieldText(name, Json.Print(value), "")
  {
    assert Json.PrintFurther(Json.NoMember) == "";
  }

  lemma NextFieldText(name: string, value: Json.Json, rest: Json.Members)
    requires rest.Member?
    ensures Json.PrintMembers(Json.Member(name, value, rest)) == FieldText(name, Json.Print(value), "," + Json.PrintMembers(rest))
  {
  }

  function UsageText(u: Usage): string {
    "{" + FieldText("promptTokens", Json.Decimal(u.promptTokens),
          "," + FieldText("completionTokens", Json.Decimal(u.completionTokens),
          "," + FieldText("totalTokens", Json.Decimal(u.totalTokens), ""))) + "}"
  }

  lemma UsageIsText(u: Usage)
    ensures Json.Print(UsageToJson(u)) == UsageText(u)
  {
    var m := UsageToJson(u).members;
    NextFieldText(m.name, m.value, m.rest);
    NextFieldText(m.rest.name, m.rest.value, m.rest.rest);
    LastFieldText(m.rest.rest.name, m.rest.rest.value);
  }

  lemma TwoFieldsText(m: Json.Members)
    requires m.Member? && m.rest.Member? && m.rest.rest.NoMember?
    ensures Json.PrintMembers(m) == FieldText(m.name, Json.Print(m.value), "," + FieldText(m.rest.name, Json.Print(m.rest.value), ""))
  {
    NextFieldText(m.name, m.value, m.rest);
    LastFieldText(m.rest.name, m.rest.value);
  }

  lemma ThreeFieldsText(m: Json.Members)
    requires m.Member? && m.rest.Member? && m.rest.rest.Member? && m.rest.rest.rest.NoMember?
    ensures Json.PrintMembers(m) ==
            FieldText(m.name, Json.Print(m.value), "," +
            FieldText(m.rest.name, Json.Print(m.rest.value), "," + FieldText(m.rest.rest.name, Json.Print(m.rest.rest.value), "")))
  {
    NextFieldText(m.name, m.value, m.rest);
    TwoFieldsText(m.rest);
  }

  /** What each event's frame says, to the letter. */
  function FrameSaying(name: string, fields: string): string {
    "event: " + name + "\n" + ("data: " + ("{" + fields + "}")) + "\n\n"
  }

  lemma FrameOfFields(e: WireEvent)
    ensures Frame(e) == FrameSaying(TypeName(e), Json.PrintMembers(ToJson(e).members))
  {
  }

  lemma StartFrame(id: string, model: string)
    ensures Frame(Start(id, model)) ==
            FrameSaying("start", FieldText("type", Json.Quote("start"), "," +
                                 FieldText("id", Json.Quote(id), "," + FieldText("model", Json.Quote(model), ""))))
  {
    FrameOfFields(Start(id, model));
    ThreeFieldsText(ToJson(Start(id, model)).members);
  }

  lemma DeltaFrame(content: string)
    ensures Frame(Delta(content)) ==
            FrameSaying("delta", FieldText("type", Json.Quote("delta"), "," + FieldText("content", Json.Quote(content), "")))
  {
    FrameOfFields(Delta(content));
    TwoFieldsText(ToJson(Delta(content)).members);
  }

  lemma DoneFrame(reason: FinishReason, usage: Usage)
    ensures Frame(Done(reason, usage)) ==
            FrameSaying("done", FieldText("type", Json.Quote("done"), "," +
                                FieldText("finishReason", Json.Quote(ReasonName(reason)), "," + FieldText("usage", Json.Print(UsageToJson(usage)), ""))))
  {
    FrameOfFields(Done(reason, usage));
    DoneFields(Json.String(ReasonName(reason)), UsageToJson(usage));
  }

  lemma DoneFields(name: Json.Json, usage: Json.Json)
    ensures Json.PrintMembers(Json.Member("type", Json.String("done"), Json.Member("finishReason", name, Json.Member("usage", usage, Json.NoMember)))) ==
            FieldText("type", Json.Quote("done"), "," +
            FieldText("finishReason", Json.Print(name), "," + FieldText("usage", Json.Print(usage), "")))
  {
    ThreeFieldsText(Json.Member("type", Json.String("done"), Json.Member("finishReason", name, Json.Member("usage", usage, Json.NoMember))));
  }

  lemma ReasonsByName()
    ensures ReasonName(Stop) == "stop" && ReasonName(Length) == "length" && ReasonName(ContentFilter) == "content_filter"
    ensures ReasonName(Failure) == "error"
  {
  }

  /** Of a failure only the code and the message reach the wire. */
  lemma ErrorFrame(error: GatewayError)
    ensures Frame(ToWirePayload(Error(error))) ==
            FrameSaying("error", FieldText("type", Json.Quote("error"), "," +
                                 FieldText("code", Json.Quote(error.code), "," + FieldText("message", Json.Quote(error.message), ""))))
  {
    FrameOfFields(Error(ClientError(error.code, error.message)));
    ThreeFieldsText(ToJson(Error(ClientError(error.code, error.message))).members);
  }

  lemma OtherEventsPassUnchanged(id: string, model: string, content: string, reason: FinishReason, usage: Usage)
    ensures ToWirePayload(Start(id, model)) == Start(id, model) && ToWirePayload(Delta(content)) == Delta(content)
    ensures ToWirePayload(Done(reason, usage)) == Done(reason, usage)
  {
  }

  function Stream(es: seq<WireEvent>): string {
    if es == [] then "" else Frame(es[0]) + Stream(es[1..])
  }

  function Wire(es: seq<WireEvent>): seq<byte> {
    Utf8.Encode(Stream(es))
  }

  lemma WireCons(es: seq<WireEvent>)
    requires es != []
    ensures Wire(es) == Utf8.Encode(Frame(es[0])) + Wire(es[1..])
  {
    Utf8.EncodeAppend(Frame(es[0]), Stream(es[1..]));
  }

  /** How many frames have arrived whole with the first p bytes. */
  function FramesArrived(es: seq<WireEvent>, p: nat): (m: nat)
    ensures m <= |es|
  {
    if es == [] || p < |Utf8.Encode(Frame(es[0]))| then 0
    else 1 + FramesArrived(es[1..], p - |Utf8.Encode(Frame(es[0]))|)
  }

  /** The lines of a frame contain no line break, and are what the two parsers look for. */
  lemma LinesOfFrame(e: WireEvent)
    ensures '\n' !in EventLine(e) && '\n' !in DataLine(e) && '\r' !in EventLine(e) && '\r' !in DataLine(e)
    ensures EventLine(e) != "" && EventLine(e)[0] == 'e' && DataLine(e)[..6] == "data: "
    ensures DataLine(e)[6..] == Json.Print(ToJson(e))
  {
    PayloadIsValid(e);
    Json.PrintPrintable(ToJson(e));
  }

  // ---- the Node client ---------------------------------------------------------------------------

  const BLANK := "\n\n"

  /** buffer.indexOf("\n\n") */
  function FrameEnd(s: string): (i: Option<nat>)
    ensures i.Some? ==> i.value + 2 <= |s| && s[i.value] == '\n' && s[i.value + 1] == '\n'
  {
    if |s| < 2 then None
    else if s[0] == '\n' && s[1] == '\n' then Some(0)
    else
      var later := FrameEnd(s[1..]);
      if later.None? then None else Some(later.value + 1)
  }

  /** The frames that are complete in a text, and the text after them. */
  datatype Cut = Cut(frames: seq<string>, rest: string) {
    function After(earlier: seq<string>): Cut {
      Cut(earlier + frames, rest)
    }
  }

  function Split(s: string): Cut
    decreases |s|
  {
    var i := FrameEnd(s);
    if i.None? then Cut([], s)
    else
      Split(s[i.value + 2..]).After([s[..i.value]])
  }

  lemma {:induction false} FrameEndAppend(s: string, t: string)
    requires FrameEnd(s).Some?
    ensures FrameEnd(s + t) == FrameEnd(s)
  {
    if !(s[0] == '\n' && s[1] == '\n') {
      FrameEndAppend(s[1..], t);
      assert (s + t)[1..] == s[1..] + t;
    }
  }

  /** More text only adds frames: those already complete stay, and the rest is cut on. */
  lemma {:induction false} SplitAppend(s: string, t: string)
    ensures Split(s + t) == Split(Split(s).rest + t).After(Split(s).frames)
    decreases |s|
  {
    if FrameEnd(s).Some? {
      SplitAppend(s[FrameEnd(s).value + 2..], t);
      SplitOn(s, t);
    } else {
      NothingToSplit(s, t);
    }
  }

  lemma SplitOn(s: string, t: string)
    requires FrameEnd(s).Some?
    requires var more := s[FrameEnd(s).value + 2..]; Split(more + t) == Split(Split(more).rest + t).After(Split(more).frames)
    ensures Split(s + t) == Split(Split(s).rest + t).After(Split(s).frames)
  {
    var first, cut := s[..FrameEnd(s).value], Split(s[FrameEnd(s).value + 2..]);
    FrameEndAppend(s, t);
    SplitFirst(s, t);
    assert Split(s) == cut.After([first]);
    AfterAssociates([first], cut.frames, Split(cut.rest + t));
  }

  lemma SplitFirst(s: string, t: string)
    requires FrameEnd(s).Some? && FrameEnd(s + t) == FrameEnd(s)
    ensures Split(s + t) == Split(s[FrameEnd(s).value + 2..] + t).After([s[..FrameEnd(s).value]])
  {
    var i := FrameEnd(s).value;
    assert (s + t)[i + 2..] == s[i + 2..] + t && (s + t)[..i] == s[..i];
  }

  lemma NothingToSplit(s: string, t: string)
    requires FrameEnd(s).None?
    ensures Split(s + t) == Split(Split(s).rest + t).After(Split(s).frames)
  {
    assert Split(s) == Cut([], s);
    EmptyAfter(Split(s + t));
  }

  lemma AfterAssociates(a: seq<string>, b: seq<string>, c: Cut)
    ensures c.After(b).After(a) == c.After(a + b)
  {
    assert a + (b + c.frames) == (a + b) + c.frames;
  }

  lemma EmptyAfter(c: Cut)
    ensures c.After([]) == c
  {
    assert [] + c.frames == c.frames;
  }

  function Lines(s: string): seq<string>
    decreases |s|
  {
    var i := LineEnd(s);
    if i == |s| then [s] else [s[..i]] + Lines(s[i + 1..])
  }

  /** The position of the first line feed, or the length. */
  function LineEnd(s: string): (i: nat)
    ensures i <= |s| && '\n' !in s[..i] && (i < |s| ==> s[i] == '\n')
  {
    if s == "" || s[0] == '\n' then 0
    else
      assert forall k :: 1 <= k <= |s| ==> s[..k] == [s[0]] + s[1..][..k - 1];
      1 + LineEnd(s[1..])
  }

  function DropCarriageReturn(line: string): string {
    if line != "" && line[|line| - 1] == '\r' then line[..|line| - 1] else line
  }

  predicate IsData(line: string) {
    |line| >= 6 && line[..6] == "data: "
  }

  /** The payload of the last data line. */
  function LastData(lines: seq<string>): Option<string> {
    if lines == [] then None
    else
      var line := DropCarriageReturn(lines[|lines| - 1]);
      if IsData(line) then Some(line[6..]) else LastData(lines[..|lines| - 1])
  }

  datatype Parsed = Nothing | Yields(payload: Json.Json) | Throws

  /** The JSON values JavaScript takes for false; a frame holding one is not yielded. */
  predicate Falsy(j: Json.Json) {
    match j
    case Null => true
    case Bool(value) => !value
    case Number(lexeme) => IsZero(lexeme)
    case String(text) => text == ""
    case _ => false
  }

  /** No digit other than 0 before the exponent. */
  predicate IsZero(lexeme: string) {
    lexeme == "" || lexeme[0] in "eE" || (lexeme[0] !in "123456789" && IsZero(lexeme[1..]))
  }

  function ParsePayload(data: string): Parsed {
    match Json.Parse(data)
    case None => Throws
    case Some(j) => if Falsy(j) then Nothing else Yields(j)
  }

  function ParseFrame(frame: string): Parsed {
    match LastData(Lines(frame))
    case None => Nothing
    case Some(data) => ParsePayload(data)
  }

  /** What a client hands to its caller: some events, and then perhaps an exception. */
  datatype Outcome<T> = Outcome(events: seq<T>, raised: bool) {
    function After(earlier: seq<T>): Outcome<T> {
      Outcome(earlier + events, raised)
    }
  }

  lemma OutcomesAssociate<T>(a: seq<T>, b: seq<T>, c: Outcome<T>)
    ensures c.After(b).After(a) == c.After(a + b)
  {
    assert a + (b + c.events) == (a + b) + c.events;
  }

  lemma NothingEarlier<T>(c: Outcome<T>)
    ensures c.After([]) == c
  {
    assert [] + c.events == c.events;
  }

  /** Frames are parsed in order, up to the first that throws. */
  function Run(frames: seq<string>, parse: string -> Parsed): Outcome<Json.Json> {
    if frames == [] then Outcome([], false)
    else match parse(frames[0])
      case Throws => Outcome([], true)
      case Nothing => Run(frames[1..], parse)
      case Yields(j) => Run(frames[1..], parse).After([j])
  }

  function RunFrames(frames: seq<string>): Outcome<Json.Json> {
    Run(frames, ParseFrame)
  }

  /** The Node client as a function of all the bytes it is given. */
  function NodeClient(bytes: seq<byte>): Outcome<Json.Json> {
    RunFrames(Split(Utf8.Decode(Utf8.READY, bytes).text).frames)
  }

  // ---- what the Node client makes of a printed stream --------------------------------------------

  /** A line feed is found where it stands. */
  lemma {:induction false} LineEndAt(line: string, rest: string)
    requires '\n' !in line
    ensures LineEnd(line + "\n" + rest) == |line| && LineEnd(line) == |line|
  {
    if line == "" {
      assert "" + "\n" + rest == "\n" + rest;
    } else {
      LineEndAt(line[1..], rest);
      assert (line + "\n" + rest)[1..] == line[1..] + "\n" + rest;
    }
  }

  lemma {:induction false} FrameEndSkips(line: string, rest: string)
    requires '\n' !in line
    ensures FrameEnd(line + rest) == if FrameEnd(rest).Some? then Some(|line| + FrameEnd(rest).value) else None
  {
    if line == "" {
      assert "" + rest == rest;
    } else {
      var s := line + rest;
      assert s[0] == line[0] && s[0] in line;
      assert s[1..] == line[1..] + rest;
      FrameEndSkips(line[1..], rest);
    }
  }

  lemma FrameText(a: string, b: string, rest: string)
    ensures FrameOf(a, b) + rest == a + ("\n" + (b + ("\n\n" + rest)))
    ensures |FrameOf(a, b)| == |a| + |b| + 3 && FrameOf(a, b)[..|a| + |b| + 1] == a + "\n" + b
  {
  }

  /** The blank line that ends a frame is the first one in it. */
  lemma BlankLineEndsFrame(a: string, b: string, rest: string)
    requires '\n' !in a && '\n' !in b && b != ""
    ensures FrameEnd(FrameOf(a, b) + rest) == Some(|FrameOf(a, b)| - 2)
  {
    var blank := "\n\n" + rest;
    FrameText(a, b, rest);
    FrameEndSkips(a, "\n" + (b + blank));
    assert ("\n" + (b + blank))[1..] == b + blank && (b + blank)[0] == b[0];
    FrameEndSkips(b, blank);
  }

  lemma FrameEndOfFrame(e: WireEvent, rest: string)
    ensures FrameEnd(Frame(e) + rest) == Some(|Frame(e)| - 2)
  {
    LinesOfFrame(e);
    BlankLineEndsFrame(EventLine(e), DataLine(e), rest);
  }

  /** A frame that is cut short contains no blank line. */
  lemma CutFrame(e: WireEvent, k: nat)
    requires k < |Frame(e)|
    ensures FrameEnd(Frame(e)[..k]).None?
  {
    assert Frame(e)[..k] + Frame(e)[k..] == Frame(e) && Frame(e) + "" == Frame(e);
    FrameEndOfFrame(e, "");
    if FrameEnd(Frame(e)[..k]).Some? {
      FrameEndAppend(Frame(e)[..k], Frame(e)[k..]);
    }
  }

  lemma TwoLines(a: string, b: string)
    requires '\n' !in a && '\n' !in b
    ensures Lines(a + "\n" + b) == [a, b]
  {
    var s := a + "\n" + b;
    LineEndAt(a, b);
    assert s[..|a|] == a && s[|a| + 1..] == b;
    LineEndAt(b, "");
  }

  lemma ParsesFrame(e: WireEvent)
    ensures ParseFrame(Frame(e)[..|Frame(e)| - 2]) == Yields(ToJson(e))
  {
    LinesOfFrame(e);
    PayloadIsValid(e);
    Json.ParsePrint(ToJson(e));
    ParsesLines(EventLine(e), DataLine(e), ToJson(e));
  }

  lemma ParsesLines(a: string, b: string, payload: Json.Json)
    requires '\n' !in a && '\n' !in b && '\r' !in b && IsData(b) && Json.Parse(b[6..]) == Some(payload) && payload.Object?
    ensures ParseFrame(FrameOf(a, b)[..|FrameOf(a, b)| - 2]) == Yields(payload)
  {
    FrameText(a, b, "");
    TwoLines(a, b);
    LastOfTwo(a, b);
  }

  lemma LastOfTwo(a: string, b: string)
    requires IsData(b) && '\r' !in b
    ensures LastData([a, b]) == Some(b[6..])
  {
    assert b[|b| - 1] in b;
    assert DropCarriageReturn(b) == b;
  }

  function Payloads(es: seq<WireEvent>): seq<Json.Json> {
    seq(|es|, i requires 0 <= i < |es| => ToJson(es[i]))
  }

  lemma ClientOfFrames(e: WireEvent, text: string)
    ensures RunFrames(Split(Frame(e) + text).frames) == RunFrames(Split(text).frames).After([ToJson(e)])
  {
    var s, n := Frame(e) + text, |Frame(e)|;
    FrameEndOfFrame(e, text);
    ParsesFrame(e);
    assert s[..n - 2] == Frame(e)[..n - 2] && s[n..] == text;
    assert ([s[..n - 2]] + Split(text).frames)[1..] == Split(text).frames;
  }

  /** However much of a printed stream arrives, the Node client yields exactly the payloads of the
      frames that arrived whole, and never throws. */
  lemma NodeReadsArrivedFrames(es: seq<WireEvent>, p: nat)
    requires p <= |Wire(es)|
    ensures NodeClient(Wire(es)[..p]) == Outcome(Payloads(es[..FramesArrived(es, p)]), false)
  {
    NodeReads(es, Wire(es)[..p]);
  }

  /** Peeling the first frame off the bytes that have arrived. */
  lemma FirstFrame(es: seq<WireEvent>, got: seq<byte>)
    requires es != [] && got <= Wire(es)
    ensures var first := Utf8.Encode(Frame(es[0]));
            if |got| < |first| then got < first
            else got == first + got[|first|..] && got[|first|..] <= Wire(es[1..])
  {
    WireCons(es);
    PrefixOfConcat(Utf8.Encode(Frame(es[0])), Wire(es[1..]), got);
  }

  lemma PrefixOfConcat(first: seq<byte>, later: seq<byte>, got: seq<byte>)
    requires got <= first + later
    ensures if |got| < |first| then got < first else got == first + got[|first|..] && got[|first|..] <= later
  {
    assert got == (first + later)[..|got|];
  }

  lemma {:induction false} NodeReads(es: seq<WireEvent>, got: seq<byte>)
    requires got <= Wire(es)
    ensures NodeClient(got) == Outcome(Payloads(es[..FramesArrived(es, |got|)]), false)
  {
    if es == [] {
      assert got == [] && Payloads([]) == [];
    } else {
      var first := Utf8.Encode(Frame(es[0]));
      FirstFrame(es, got);
      if |got| < |first| {
        NodeReadsCutFrame(es[0], |got|);
        assert first[..|got|] == got && Payloads([]) == [];
      } else {
        var tail := got[|first|..];
        NodeReads(es[1..], tail);
        OneMoreFrame(es, got);
        NodeReadsOneMore(es, tail, FramesArrived(es[1..], |tail|));
      }
    }
  }

  lemma NodeReadsOneMore(es: seq<WireEvent>, tail: seq<byte>, m: nat)
    requires m < |es| && NodeClient(tail) == Outcome(Payloads(es[1..][..m]), false)
    ensures NodeClient(Utf8.Encode(Frame(es[0])) + tail) == Outcome(Payloads(es[..m + 1]), false)
  {
    NodeReadsWholeFrame(es[0], tail);
    PayloadsCons(es, m + 1);
  }

  lemma OneMoreFrame(es: seq<WireEvent>, got: seq<byte>)
    requires es != [] && |Utf8.Encode(Frame(es[0]))| <= |got|
    ensures FramesArrived(es, |got|) == FramesArrived(es[1..], |got[|Utf8.Encode(Frame(es[0]))|..]|) + 1
  {
  }

  lemma PayloadsCons(es: seq<WireEvent>, m: nat)
    requires 1 <= m <= |es|
    ensures Payloads(es[..m]) == [ToJson(es[0])] + Payloads(es[1..][..m - 1])
    ensures es[..m] == [es[0]] + es[1..][..m - 1]
  {
    var tail := es[1..][..m - 1];
    var first := [ToJson(es[0])] + Payloads(tail);
    assert |first| == m == |Payloads(es[..m])|;
    forall i | 0 <= i < m ensures Payloads(es[..m])[i] == first[i] {
      assert i > 0 ==> tail[i - 1] == es[i];
    }
  }

  lemma NodeReadsCutFrame(e: WireEvent, p: nat)
    requires p < |Utf8.Encode(Frame(e))|
    ensures NodeClient(Utf8.Encode(Frame(e))[..p]) == Outcome([], false)
  {
    Utf8.PrefixRoundTrip(Frame(e), p);
    Utf8.ArrivedWhole(Frame(e), p);
    var k := Utf8.Arrived(Frame(e), p);
    assert Frame(e)[..|Frame(e)|] == Frame(e);
    CutFrame(e, k);
  }

  lemma NodeReadsWholeFrame(e: WireEvent, tail: seq<byte>)
    ensures NodeClient(Utf8.Encode(Frame(e)) + tail) == NodeClient(tail).After([ToJson(e)])
  {
    Utf8.RoundTrip(Frame(e));
    Utf8.DecodeAppend(Utf8.READY, Utf8.Encode(Frame(e)), tail);
    ClientOfFrames(e, Utf8.Decode(Utf8.READY, tail).text);
  }

  lemma OneLineFrame(line: string, text: string)
    requires '\n' !in line
    ensures Split(line + ("\n\n" + text)) == Split(text).After([line])
  {
    var s, blank := line + ("\n\n" + text), "\n\n" + text;
    FrameEndSkips(line, blank);
    assert blank[..2] == BLANK && FrameEnd(blank) == Some(0);
    assert s[..|line|] == line && s[|line| + 2..] == text;
  }

  lemma OneLineData(line: string)
    requires '\n' !in line && '\r' !in line
    ensures LastData(Lines(line)) == if "data: " <= line then Some(line[6..]) else None
  {
    LineEndAt(line, "");
    assert Lines(line) == [line] && DropCarriageReturn(line) == line;
    assert [line][..0] == [] && LastData([]) == None;
    assert IsData(line) <==> "data: " <= line;
  }

  /** A frame of one line that nobody printed: without data it is passed over, data that is no JSON raises,
      and so nothing behind it is read; JSON that JavaScript takes for false is passed over too. */
  lemma NodeReadsForeignFrame(line: string, text: string)
    requires '\n' !in line && '\r' !in line
    ensures var rest := RunFrames(Split(text).frames);
            RunFrames(Split(line + ("\n\n" + text)).frames) ==
            if !("data: " <= line) then rest
            else match Json.Parse(line[6..])
                 case None => Outcome([], true)
                 case Some(j) => if Falsy(j) then rest else rest.After([j])
  {
    OneLineFrame(line, text);
    OneLineData(line);
    assert ([line] + Split(text).frames)[1..] == Split(text).frames;
  }

  // ---- the Python client -------------------------------------------------------------------------

  const LF: byte := 10

  function ByteLineEnd(bs: seq<byte>): (i: nat)
    ensures i <= |bs| && (i < |bs| ==> bs[i] == LF)
  {
    if bs == [] || bs[0] == LF then 0 else 1 + ByteLineEnd(bs[1..])
  }

  /** Iterating over the response: lines keep their line feed, and the last one may lack it. */
  function ByteLines(bs: seq<byte>): seq<seq<byte>>
    decreases |bs|
  {
    var i := ByteLineEnd(bs);
    if bs == [] then [] else if i == |bs| then [bs] else [bs[..i + 1]] + ByteLines(bs[i + 1..])
  }

  /** rstrip("\r\n") */
  function RStrip(s: string): string {
    if s != "" && s[|s| - 1] in "\r\n" then RStrip(s[..|s| - 1]) else s
  }

  /** raw_line.decode("utf-8"): None stands for the UnicodeDecodeError of a malformed or truncated line. */
  function StrictDecode(bs: seq<byte>): Option<string> {
    var d := Utf8.Decode(Utf8.READY, bs);
    if d.malformed || d.next != Utf8.READY then None else Some(d.text)
  }

  /** What the payload of a completed frame is decoded to; None stands for the exception raised. */
  function DecodeEvent(data: string): Option<WireEvent> {
    match Json.Parse(data)
    case None => None
    case Some(j) => FromJson(j)
  }

  function RunLines(lines: seq<seq<byte>>, dataLine: Option<string>): Outcome<WireEvent> {
    if lines == [] then Outcome([], false)
    else match StrictDecode(lines[0])
      case None => Outcome([], true)
      case Some(raw) =>
        var line := RStrip(raw);
        if IsData(line) then RunLines(lines[1..], Some(line[6..]))
        else if line != "" then RunLines(lines[1..], dataLine)
        else if dataLine.None? then RunLines(lines[1..], None)
        else match DecodeEvent(dataLine.value)
          case None => Outcome([], true)
          case Some(e) => RunLines(lines[1..], None).After([e])
  }

  /** The Python client as a function of all the bytes it is given. */
  function PythonClient(bytes: seq<byte>): Outcome<WireEvent> {
    RunLines(ByteLines(bytes), None)
  }

  lemma {:induction false} NoLineFeedByte(s: string)
    requires '\n' !in s
    ensures LF !in Utf8.Encode(s)
  {
    if s != "" { NoLineFeedByte(s[1..]); }
  }

  lemma {:induction false} ByteLineEndAt(x: seq<byte>, rest: seq<byte>)
    requires LF !in x
    ensures ByteLineEnd(x + ([LF] + rest)) == |x| && ByteLineEnd(x) == |x|
  {
    if x == [] {
      assert [] + ([LF] + rest) == [LF] + rest;
    } else {
      ByteLineEndAt(x[1..], rest);
      assert (x + ([LF] + rest))[1..] == x[1..] + ([LF] + rest);
    }
  }

  lemma FirstByteLine(x: seq<byte>, rest: seq<byte>)
    requires LF !in x
    ensures ByteLines(x + ([LF] + rest)) == [x + [LF]] + ByteLines(rest)
  {
    ByteLineEndAt(x, rest);
    CutAfterLineFeed(x, rest);
  }

  lemma CutAfterLineFeed(x: seq<byte>, rest: seq<byte>)
    ensures var bs := x + ([LF] + rest);
            |x| < |bs| && bs[..|x| + 1] == x + [LF] && bs[|x| + 1..] == rest
  {
  }

  lemma {:induction false} RStripLine(line: string)
    requires '\r' !in line && '\n' !in line
    ensures RStrip(line) == line && RStrip(line + "\n") == line
  {
    assert line != "" ==> line[|line| - 1] in line;
    assert (line + "\n")[..|line|] == line;
  }

  lemma DecodesLine(line: string)
    ensures StrictDecode(Utf8.Encode(line) + [LF]) == Some(line + "\n")
  {
    Utf8.EncodeAppend(line, "\n");
    assert Utf8.Encode("\n") == [LF];
    Utf8.RoundTrip(line + "\n");
  }

  /** One whole line of a frame: an ordinary one changes nothing, a data line is remembered. */
  lemma ReadsLine(line: string, rest: seq<byte>, dataLine: Option<string>)
    requires '\r' !in line && '\n' !in line && line != ""
    ensures RunLines(ByteLines(Utf8.Encode(line) + ([LF] + rest)), dataLine)
            == RunLines(ByteLines(rest), if IsData(line) then Some(line[6..]) else dataLine)
  {
    NoLineFeedByte(line);
    FirstByteLine(Utf8.Encode(line), rest);
    DecodesLine(line);
    RStripLine(line);
    assert ([Utf8.Encode(line) + [LF]] + ByteLines(rest))[1..] == ByteLines(rest);
  }

  lemma ReadsBlankLine(rest: seq<byte>, data: string, e: WireEvent)
    requires DecodeEvent(data) == Some(e)
    ensures var more := RunLines(ByteLines(rest), None);
            RunLines(ByteLines([LF] + rest), Some(data)) == Outcome([e] + more.events, more.raised)
  {
    FirstByteLine([], rest);
    assert [] + ([LF] + rest) == [LF] + rest && [] + [LF] == [LF];
    DecodesLine("");
    assert Utf8.Encode("") + [LF] == [LF] && "" + "\n" == "\n";
    RStripLine("");
    assert ([[LF]] + ByteLines(rest))[1..] == ByteLines(rest);
  }

  /** A last line without its line feed yields nothing, and raises if it does not decode. */
  lemma ReadsLastLine(x: seq<byte>)
    requires LF !in x
    ensures RunLines(ByteLines(x), None) == Outcome([], StrictDecode(x).None?)
  {
    ByteLineEndAt(x, []);
    if x != [] {
      assert ByteLines(x) == [x];
      assert [x][1..] == [];
    }
  }

  lemma EncodeLineThen(line: string, rest: string)
    ensures Utf8.Encode(line + ("\n" + rest)) == Utf8.Encode(line) + ([LF] + Utf8.Encode(rest))
  {
    Utf8.EncodeAppend(line, "\n" + rest);
    Utf8.EncodeAppend("\n", rest);
    assert Utf8.Encode("\n") == [LF];
  }

  lemma FrameBytes(a: string, b: string)
    ensures Utf8.Encode(FrameOf(a, b)) == Utf8.Encode(a) + ([LF] + (Utf8.Encode(b) + ([LF] + [LF])))
  {
    FrameText(a, b, "");
    assert FrameOf(a, b) + "" == FrameOf(a, b) && "\n\n" + "" == "\n" + "\n";
    EncodeLineThen(a, b + ("\n" + "\n"));
    EncodeLineThen(b, "\n");
    assert Utf8.Encode("\n") == [LF];
  }

  lemma DecodesPayload(e: WireEvent)
    ensures DecodeEvent(DataLine(e)[6..]) == Some(e)
  {
    LinesOfFrame(e);
    PayloadIsValid(e);
    Json.ParsePrint(ToJson(e));
    PayloadRoundTrip(e);
  }

  lemma ReadsFrameLines(a: string, b: string, e: WireEvent, tail: seq<byte>)
    requires '\r' !in a && '\n' !in a && a != "" && !IsData(a)
    requires '\r' !in b && '\n' !in b && IsData(b) && DecodeEvent(b[6..]) == Some(e)
    ensures PythonClient(Utf8.Encode(FrameOf(a, b)) + tail) == PythonClient(tail).After([e])
  {
    var x, y := Utf8.Encode(a), Utf8.Encode(b);
    FrameBytes(a, b);
    FrameAndTail(x, y, tail);
    ReadsLine(a, y + ([LF] + ([LF] + tail)), None);
    ReadsLine(b, [LF] + tail, None);
    ReadsBlankLine(tail, b[6..], e);
  }

  lemma PythonReadsWholeFrame(e: WireEvent, tail: seq<byte>)
    ensures PythonClient(Utf8.Encode(Frame(e)) + tail) == PythonClient(tail).After([e])
  {
    DecodesPayload(e);
    LinesAreOrdered(e);
    ReadsFrameLines(EventLine(e), DataLine(e), e, tail);
  }

  /** What the Python client needs of the two lines. */
  lemma LinesAreOrdered(e: WireEvent)
    ensures var a, b := EventLine(e), DataLine(e);
            '\r' !in a && '\n' !in a && a != "" && !IsData(a) && '\r' !in b && '\n' !in b && IsData(b)
  {
    LinesOfFrame(e);
    assert EventLine(e)[..1] != "data: "[..1];
  }

  lemma FrameAndTail(x: seq<byte>, y: seq<byte>, tail: seq<byte>)
    ensures (x + ([LF] + (y + ([LF] + [LF])))) + tail == x + ([LF] + (y + ([LF] + ([LF] + tail))))
  {
  }

  /** After a whole line the decoder is ready again. */
  lemma ReadyAfterLine(line: string, later: seq<byte>)
    ensures Utf8.Decode(Utf8.READY, Utf8.Encode(line) + ([LF] + later)).next == Utf8.Decode(Utf8.READY, later).next
  {
    var x := Utf8.Encode(line) + [LF];
    EncodeLineThen(line, "");
    assert Utf8.Encode(line) + ([LF] + []) == x && x + later == Utf8.Encode(line) + ([LF] + later);
    Utf8.RoundTrip(line + ("\n" + ""));
    Utf8.DecodeAppend(Utf8.READY, x, later);
  }

  lemma CutInDataLine(b: string, later: seq<byte>)
    requires '\r' !in b && '\n' !in b && IsData(b) && later < Utf8.Encode(b) + ([LF] + [LF])
    ensures RunLines(ByteLines(later), None) == Outcome([], Utf8.Decode(Utf8.READY, later).next != Utf8.READY)
  {
    var y := Utf8.Encode(b);
    if |later| <= |y| {
      assert later == y[..|later|];
      CutLine(b, |later|);
    } else {
      assert later == y + ([LF] + []);
      ReadsLine(b, [], None);
      ReadyAfterLine(b, []);
    }
  }

  /** A frame cut short yields nothing; the client raises exactly if the cut is inside a character. */
  lemma PythonReadsCutFrame(a: string, b: string, got: seq<byte>)
    requires '\r' !in a && '\n' !in a && a != "" && !IsData(a) && '\r' !in b && '\n' !in b && IsData(b)
    requires got < Utf8.Encode(FrameOf(a, b))
    ensures PythonClient(got) == Outcome([], Utf8.Decode(Utf8.READY, got).next != Utf8.READY)
  {
    var x, rest := Utf8.Encode(a), Utf8.Encode(b) + ([LF] + [LF]);
    FrameBytes(a, b);
    if |got| <= |x| {
      assert got == x[..|got|];
      CutLine(a, |got|);
    } else {
      var later := got[|x| + 1..];
      SplitAtLine(x, rest, got);
      ReadsLine(a, later, None);
      ReadyAfterLine(a, later);
      CutInDataLine(b, later);
    }
  }

  lemma SplitAtLine(x: seq<byte>, rest: seq<byte>, got: seq<byte>)
    requires got < x + ([LF] + rest) && |got| > |x|
    ensures got == x + ([LF] + got[|x| + 1..]) && got[|x| + 1..] < rest
  {
  }

  lemma CutLine(line: string, p: nat)
    requires '\n' !in line && p <= |Utf8.Encode(line)|
    ensures var x := Utf8.Encode(line)[..p];
            RunLines(ByteLines(x), None) == Outcome([], Utf8.Decode(Utf8.READY, x).next != Utf8.READY)
  {
    NoLineFeedByte(line);
    Utf8.PrefixRoundTrip(line, p);
    ReadsLastLine(Utf8.Encode(line)[..p]);
  }

  /** However much of a printed stream arrives, the Python client yields exactly the events of the frames
      that arrived whole; it raises if and only if the stream was cut inside a character. */
  lemma PythonReadsArrivedFrames(es: seq<WireEvent>, p: nat)
    requires p <= |Wire(es)|
    ensures var got, s := PythonClient(Wire(es)[..p]), Stream(es);
            && got.events == es[..FramesArrived(es, p)]
            && (got.raised <==> |Utf8.Encode(s[..Utf8.Arrived(s, p)])| < p)
  {
    PythonReads(es, Wire(es)[..p]);
    Utf8.PrefixRoundTrip(Stream(es), p);
    Utf8.ArrivedWhole(Stream(es), p);
  }

  lemma {:induction false} PythonReads(es: seq<WireEvent>, got: seq<byte>)
    requires got <= Wire(es)
    ensures PythonClient(got) == Outcome(es[..FramesArrived(es, |got|)], Utf8.Decode(Utf8.READY, got).next != Utf8.READY)
  {
    if es == [] {
      assert got == [];
    } else {
      var first := Utf8.Encode(Frame(es[0]));
      FirstFrame(es, got);
      LinesAreOrdered(es[0]);
      if |got| < |first| {
        PythonReadsCutFrame(EventLine(es[0]), DataLine(es[0]), got);
      } else {
        var tail := got[|first|..];
        PythonReads(es[1..], tail);
        PythonReadsWholeFrame(es[0], tail);
        PayloadsCons(es, 1 + FramesArrived(es[1..], |tail|));
        Utf8.RoundTrip(Frame(es[0]));
        Utf8.DecodeAppend(Utf8.READY, first, tail);
      }
    }
  }

  /** The two clients agree: what the Node client yields is, payload by payload, what the Python client
      yields. */
  lemma ClientsAgree(es: seq<WireEvent>, p: nat)
    requires p <= |Wire(es)|
    ensures var node, python := NodeClient(Wire(es)[..p]), PythonClient(Wire(es)[..p]);
            |node.events| == |python.events| &&
            forall i :: 0 <= i < |node.events| ==> FromJson(node.events[i]) == Some(python.events[i])
  {
    NodeReadsArrivedFrames(es, p);
    PythonReadsArrivedFrames(es, p);
    var m := FramesArrived(es, p);
    forall i | 0 <= i < m ensures FromJson(Payloads(es[..m])[i]) == Some(es[..m][i]) {
      PayloadRoundTrip(es[i]);
    }
  }

  /** A stream that arrives whole gives back exactly the events that were printed, from both clients. */
  lemma WholeStreamRoundTrip(es: seq<WireEvent>)
    ensures NodeClient(Wire(es)) == Outcome(Payloads(es), false) && PythonClient(Wire(es)) == Outcome(es, false)
  {
    var n := |Wire(es)|;
    assert Wire(es)[..n] == Wire(es);
    AllArrived(es);
    NodeReadsArrivedFrames(es, n);
    PythonReads(es, Wire(es));
    Utf8.RoundTrip(Stream(es));
    assert es[..|es|] == es;
  }

  lemma {:induction false} AllArrived(es: seq<WireEvent>)
    ensures FramesArrived(es, |Wire(es)|) == |es|
  {
    if es != [] {
      WireCons(es);
      AllArrived(es[1..]);
    }
  }

  /** A frame counts as arrived if and only if its last byte has. */
  lemma {:induction false} ArrivedFramesAreWhole(es: seq<WireEvent>, p: nat)
    requires p <= |Wire(es)|
    ensures var m := FramesArrived(es, p); |Wire(es[..m])| <= p && (m < |es| ==> p < |Wire(es[..m + 1])|)
  {
    var m := FramesArrived(es, p);
    if es != [] {
      WireCons(es);
      if m > 0 {
        ArrivedFramesAreWhole(es[1..], p - |Utf8.Encode(Frame(es[0]))|);
        WirePrefix(es, m);
      }
      if m < |es| { WirePrefix(es, m + 1); }
    }
  }

  lemma WirePrefix(es: seq<WireEvent>, m: nat)
    requires 1 <= m <= |es|
    ensures |Wire(es[..m])| == |Utf8.Encode(Frame(es[0]))| + |Wire(es[1..][..m - 1])|
  {
    PayloadsCons(es, m);
    WireCons(es[..m]);
    assert es[..m][1..] == es[1..][..m - 1];
  }

  // ---- the transport and the clients as written --------------------------------------------------

  lemma {:induction false} StreamSnoc(es: seq<WireEvent>, e: WireEvent)
    ensures Stream(es + [e]) == Stream(es) + Frame(e)
  {
    if es == [] {
      assert [] + [e] == [e] && Frame(e) + Stream([]) == Frame(e) && Stream([]) + Frame(e) == Frame(e);
    } else {
      StreamSnoc(es[1..], e);
      assert (es + [e])[1..] == es[1..] + [e];
      Utf8.ConcatAssociates(Frame(es[0]), Stream(es[1..]), Frame(e));
    }
  }

  lemma WireSnoc(es: seq<WireEvent>, e: WireEvent)
    ensures Wire(es + [e]) == Wire(es) + Utf8.Encode(Frame(e))
  {
    StreamSnoc(es, e);
    Utf8.EncodeAppend(Stream(es), Frame(e));
  }

  /** The response a transport writes to. `sent` are the events handed to it while it was alive. */
  class SseStreamTransport {
    var status: nat
    var headersFlushed: bool
    var written: seq<byte>
    var ended: bool
    var destroyed: bool
    ghost var sent: seq<WireEvent>

    ghost predicate Valid()
      reads this
    {
      written == Wire(sent)
    }

    predicate IsDead()
      reads this
    {
      ended || destroyed
    }

    constructor ()
      ensures Valid() && !IsDead() && sent == []
    {
      status, headersFlushed, written, ended, destroyed, sent := 0, false, [], false, false, [];
    }

    method Open()
      requires Valid()
      modifies this`status, this`headersFlushed
      ensures Valid() && status == 200 && headersFlushed
    {
      status := 200;
      headersFlushed := true;
    }

    /** A live response gains exactly the event's frame; a dead one nothing. */
    method Send(e: StreamEvent)
      requires Valid()
      modifies this`written, this`sent
      ensures Valid()
      ensures sent == if IsDead() then old(sent) else old(sent) + [ToWirePayload(e)]
    {
      if IsDead() {
        return;
      }
      var payload := ToWirePayload(e);
      WireSnoc(sent, payload);
      var head, body := "event: " + TypeName(e) + "\n", "data: " + Json.Print(ToJson(payload)) + "\n\n";
      assert TypeName(e) == TypeName(payload) && Frame(payload) == head + body;
      Utf8.EncodeAppend(head, body);
      Utf8.ConcatAssociates(written, Utf8.Encode(head), Utf8.Encode(body));
      written := written + Utf8.Encode(head);
      written := written + Utf8.Encode(body);
      sent := sent + [payload];
    }

    method Close()
      requires Valid()
      modifies this`ended
      ensures Valid() && IsDead()
    {
      if IsDead() {
        return;
      }
      ended := true;
    }
  }

  function Flatten(chunks: seq<seq<byte>>): seq<byte>
    decreases |chunks|
  {
    if chunks == [] then [] else Flatten(chunks[..|chunks| - 1]) + chunks[|chunks| - 1]
  }

  lemma {:induction false} RunAppend(a: seq<string>, b: seq<string>, parse: string -> Parsed)
    ensures Run(a + b, parse) == if Run(a, parse).raised then Run(a, parse) else Run(b, parse).After(Run(a, parse).events)
  {
    if a == [] {
      assert a + b == b;
      NothingEarlier(Run(b, parse));
    } else {
      RunAppend(a[1..], b, parse);
      assert (a + b)[1..] == a[1..] + b;
      if parse(a[0]).Yields? {
        OutcomesAssociate([parse(a[0]).payload], Run(a[1..], parse).events, Run(b, parse));
      }
    }
  }

  method ParseFrameLines(frame: string) returns (parsed: Parsed)
    ensures parsed == ParseFrame(frame)
  {
    var dataLine: Option<string> := None;
    var lines := Lines(frame);
    for i := 0 to |lines|
      invariant dataLine == LastData(lines[..i])
    {
      var line := DropCarriageReturn(lines[i]);
      assert lines[..i + 1][..i] == lines[..i];
      if IsData(line) {
        dataLine := Some(line[6..]);
      }
    }
    assert lines[..|lines|] == lines;
    if dataLine.None? {
      return Nothing;
    }
    var payload := Json.Parse(dataLine.value);
    if payload.None? {
      return Throws;
    }
    return if Falsy(payload.value) then Nothing else Yields(payload.value);
  }

  lemma {:induction false} FlattenSplit(chunks: seq<seq<byte>>, i: nat)
    requires i <= |chunks|
    ensures Flatten(chunks[..i]) <= Flatten(chunks)
    decreases |chunks| - i
  {
    if i < |chunks| {
      FlattenSplit(chunks, i + 1);
      assert chunks[..i + 1][..i] == chunks[..i];
    } else {
      assert chunks[..i] == chunks;
    }
  }

  /** A client that has thrown on the bytes so far has thrown on all of them. */
  lemma ThrownIsFinal(got: seq<byte>, all: seq<byte>)
    requires got <= all && NodeClient(got).raised
    ensures NodeClient(all) == NodeClient(got)
  {
    var more := all[|got|..];
    assert all == got + more;
    Utf8.DecodeAppend(Utf8.READY, got, more);
    var d := Utf8.Decode(Utf8.READY, got);
    var text := Utf8.Decode(d.next, more).text;
    SplitAppend(d.text, text);
    RunAppend(Split(d.text).frames, Split(Split(d.text).rest + text).frames, ParseFrame);
  }

  lemma RunsFirstFrame(s: string)
    requires FrameEnd(s).Some?
    ensures var frame, later := s[..FrameEnd(s).value], Split(s[FrameEnd(s).value + 2..]);
            && Split(s).rest == later.rest
            && RunFrames(Split(s).frames) ==
               match ParseFrame(frame)
               case Throws => Outcome([], true)
               case Nothing => RunFrames(later.frames)
               case Yields(j) => RunFrames(later.frames).After([j])
  {
    var frame, later := s[..FrameEnd(s).value], Split(s[FrameEnd(s).value + 2..]);
    assert Split(s).frames == [frame] + later.frames;
    assert ([frame] + later.frames)[1..] == later.frames;
  }

  /** The inner loop: every complete frame is cut off the buffer and parsed, until one throws. */
  method TakeFrames(buffer: string) returns (yielded: seq<Json.Json>, rest: string, threw: bool)
    ensures Outcome(yielded, threw) == RunFrames(Split(buffer).frames)
    ensures !threw ==> rest == Split(buffer).rest
  {
    yielded, rest := [], buffer;
    var frameEnd := FrameEnd(rest);
    ghost var cut, goal := Split(buffer), RunFrames(Split(buffer).frames);
    NothingEarlier(goal);
    while frameEnd.Some?
      invariant frameEnd == FrameEnd(rest) && Split(rest).rest == cut.rest
      invariant RunFrames(Split(rest).frames).After(yielded) == goal
      decreases |rest|
    {
      TakesFrame(rest, yielded, goal);
      var frame := rest[..frameEnd.value];
      rest := rest[frameEnd.value + 2..];
      var parsed := ParseFrameLines(frame);
      if parsed.Throws? {
        return yielded, rest, true;
      } else if parsed.Yields? {
        yielded := yielded + [parsed.payload];
      }
      frameEnd := FrameEnd(rest);
    }
    NothingLeft(rest, yielded);
    return yielded, rest, false;
  }

  lemma TakesFrame(rest: string, yielded: seq<Json.Json>, goal: Outcome<Json.Json>)
    requires FrameEnd(rest).Some? && RunFrames(Split(rest).frames).After(yielded) == goal
    ensures var frame, later := rest[..FrameEnd(rest).value], rest[FrameEnd(rest).value + 2..];
            && Split(later).rest == Split(rest).rest
            && match ParseFrame(frame)
               case Throws => goal == Outcome(yielded, true)
               case Nothing => RunFrames(Split(later).frames).After(yielded) == goal
               case Yields(j) => RunFrames(Split(later).frames).After(yielded + [j]) == goal
  {
    RunsFirstFrame(rest);
    var parsed := ParseFrame(rest[..FrameEnd(rest).value]);
    if parsed.Yields? {
      OutcomesAssociate(yielded, [parsed.payload], RunFrames(Split(rest[FrameEnd(rest).value + 2..]).frames));
    }
    assert yielded + [] == yielded;
  }

  lemma NothingLeft(rest: string, yielded: seq<Json.Json>)
    requires FrameEnd(rest).None?
    ensures Split(rest) == Cut([], rest) && RunFrames(Split(rest).frames).After(yielded) == Outcome(yielded, false)
  {
    assert yielded + [] == yielded;
  }

  /** What a chunk adds to what the earlier bytes gave. */
  lemma ChunkAdds(got: seq<byte>, chunk: seq<byte>)
    requires !NodeClient(got).raised
    ensures var d := Utf8.Decode(Utf8.READY, got);
            var decoded := Utf8.Decode(d.next, chunk);
            var buffer := Split(d.text).rest + decoded.text;
            && Utf8.Decode(Utf8.READY, got + chunk).next == decoded.next
            && Split(Utf8.Decode(Utf8.READY, got + chunk).text).rest == Split(buffer).rest
            && NodeClient(got + chunk) == RunFrames(Split(buffer).frames).After(NodeClient(got).events)
  {
    var d := Utf8.Decode(Utf8.READY, got);
    var decoded := Utf8.Decode(d.next, chunk);
    Utf8.DecodeAppend(Utf8.READY, got, chunk);
    SplitAppend(d.text, decoded.text);
    RunAppend(Split(d.text).frames, Split(Split(d.text).rest + decoded.text).frames, ParseFrame);
  }

  /** The result depends on the bytes alone, however they were cut into chunks. */
  method ParseChatCompletionStream(chunks: seq<seq<byte>>) returns (yielded: seq<Json.Json>, threw: bool)
    ensures Outcome(yielded, threw) == NodeClient(Flatten(chunks))
  {
    var decoder, buffer := Utf8.READY, "";
    yielded := [];
    for i := 0 to |chunks|
      invariant NodeClient(Flatten(chunks[..i])) == Outcome(yielded, false)
      invariant decoder == Utf8.Decode(Utf8.READY, Flatten(chunks[..i])).next
      invariant buffer == Split(Utf8.Decode(Utf8.READY, Flatten(chunks[..i])).text).rest
    {
      assert chunks[..i + 1][..i] == chunks[..i];
      ChunkAdds(Flatten(chunks[..i]), chunks[i]);
      var decoded := Utf8.Decode(decoder, chunks[i]);
      var more, rest, stopped := TakeFrames(buffer + decoded.text);
      yielded := yielded + more;
      if stopped {
        FlattenSplit(chunks, i + 1);
        ThrownIsFinal(Flatten(chunks[..i + 1]), Flatten(chunks));
        return yielded, true;
      }
      decoder, buffer := decoded.next, rest;
    }
    assert chunks[..|chunks|] == chunks;
    return yielded, false;
  }

  /** The Python client's loop over the lines of the response. */
  method ParseLines(response: seq<byte>) returns (events: seq<WireEvent>, raised: bool)
    ensures Outcome(events, raised) == PythonClient(response)
  {
    var lines := ByteLines(response);
    var dataLine: Option<string> := None;
    events := [];
    for i := 0 to |lines|
      invariant PythonClient(response) == RunLines(lines[i..], dataLine).After(events)
    {
      assert lines[i..][0] == lines[i] && lines[i..][1..] == lines[i + 1..];
      var raw := StrictDecode(lines[i]);
      if raw.None? {
        return events, true;
      }
      var line := RStrip(raw.value);
      if IsData(line) {
        dataLine := Some(line[6..]);
      } else if line == "" {
        if dataLine.Some? {
          var event := DecodeEvent(dataLine.value);
          if event.None? {
            return events, true;
          }
          OutcomesAssociate(events, [event.value], RunLines(lines[i + 1..], None));
          events := events + [event.value];
        }
        dataLine := None;
      }
    }
    return events, false;
  }
}
