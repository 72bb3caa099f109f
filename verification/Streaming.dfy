/**
 Streaming through the routing engine: fail-over only until a provider's first event, one terminal
 signal afterwards; and the Groq adapter's stream of events.
 */
module Streaming {
  import opened Wrappers
  import Json
  import R = Routing
  import Sse

  type StreamEvent = Sse.StreamEvent

  /** What a provider's stream may throw. */
  datatype Thrown = Known(error: Sse.GatewayError) | Foreign(cause: string)

  function ToGatewayError(t: Thrown): Sse.GatewayError {
    match t
    case Known(error) => error
    case Foreign(cause) =>
      Sse.GatewayError("INTERNAL_ERROR", "An unexpected error occurred while streaming", 500, false, cause)
  }

  /** A provider's stream once its first event has been pulled: all its events and how it ends. */
  datatype Run = Run(events: seq<StreamEvent>, failure: Option<Thrown>)

  /** What the caller of routeStream sees of a run: a failure becomes a final error event. */
  function Shown(run: Run): seq<StreamEvent> {
    run.events + if run.failure.Some? then [Sse.Error(ToGatewayError(run.failure.value))] else []
  }

  /** The first n events, or all if there are fewer. */
  function Cut(es: seq<StreamEvent>, n: nat): (shown: seq<StreamEvent>)
    ensures shown <= es && |shown| == if n < |es| then n else |es|
  {
    if n < |es| then es[..n] else es
  }

  // ---- the Groq adapter --------------------------------------------------------------------------

  /** One blank-line separated frame of the response body. */
  datatype Frame = NoData | DoneMarker | Unparsable | Payload(json: Json.Json)

  function Field(j: Json.Json, name: string): Option<Json.Json> {
    if j.Object? then j.members.Find(name) else None
  }

  predicate IsObject(j: Json.Json) {
    j.Object? || j.Array?
  }

  predicate AbsentOr(j: Option<Json.Json>, ok: Json.Json -> bool) {
    j.None? || ok(j.value)
  }

  predicate IsStreamChoice(j: Json.Json) {
    && IsObject(j)
    && AbsentOr(Field(j, "delta"), (d: Json.Json) => IsObject(d) && AbsentOr(Field(d, "content"), (c: Json.Json) => c.String?))
    && AbsentOr(Field(j, "finish_reason"), (f: Json.Json) => f.Null? || f.String?)
  }

  predicate AllChoices(items: Json.Items) {
    items.Item? ==> IsStreamChoice(items.head) && AllChoices(items.tail)
  }

  predicate IsStreamChunk(j: Json.Json) {
    && IsObject(j)
    && AbsentOr(Field(j, "choices"), (c: Json.Json) => c.Array? && AllChoices(c.items))
    && AbsentOr(Field(j, "usage"), (u: Json.Json) => IsObject(u) && IsCount(u, "prompt_tokens") && IsCount(u, "completion_tokens") && IsCount(u, "total_tokens"))
  }

  predicate IsCount(u: Json.Json, name: string) {
    AbsentOr(Field(u, name), (n: Json.Json) => n.Number?)
  }

  function CountOr0(u: Json.Json, name: string): nat {
    match Field(u, name)
    case Some(Number(lexeme)) => Json.ValueOf(lexeme)
    case _ => 0
  }

  function FirstChoice(j: Json.Json): Option<Json.Json> {
    match Field(j, "choices")
    case Some(Array(items)) => if items.Item? then Some(items.head) else None
    case _ => None
  }

  /** A field that is a non-empty string. */
  function NonEmpty(j: Option<Json.Json>, name: string): Option<string> {
    if j.None? then None
    else match Field(j.value, name)
      case Some(String(text)) => if text == "" then None else Some(text)
      case _ => None
  }

  function ContentOf(j: Json.Json): Option<string> {
    var choice := FirstChoice(j);
    if choice.None? then None else NonEmpty(Field(choice.value, "delta"), "content")
  }

  function ToFinishReason(raw: string): Sse.FinishReason {
    if raw == "stop" then Sse.Stop else if raw == "length" then Sse.Length
    else if raw == "content_filter" then Sse.ContentFilter else Sse.Failure
  }

  /** What the adapter has gathered from the frames so far. */
  datatype Progress = Progress(deltas: seq<StreamEvent>, finish: Option<Sse.FinishReason>, usage: Sse.Usage) {
    function Take(j: Json.Json): Progress {
      if !IsStreamChunk(j) then this
      else
        var content, reason, u := ContentOf(j), NonEmpty(FirstChoice(j), "finish_reason"), Field(j, "usage");
        Progress(if content.Some? then deltas + [Sse.Delta(content.value)] else deltas,
                 if reason.Some? then Some(ToFinishReason(reason.value)) else finish,
                 if u.Some? then Sse.Usage(CountOr0(u.value, "prompt_tokens"), CountOr0(u.value, "completion_tokens"), CountOr0(u.value, "total_tokens"))
                 else usage)
    }
  }

  const NO_PROGRESS := Progress([], None, Sse.Usage(0, 0, 0))
  const NO_FINISH := Sse.GatewayError("PROVIDER_INVALID_RESPONSE", "Groq stream ended without a finish signal", 502, false, "")

  /** The response as far as the adapter reads it: the frames, and the error that broke the connection. */
  datatype Response = Refused(error: R.Error) | NoBody | Body(frames: seq<Frame>, broken: Option<Sse.GatewayError>)

  function Gather(frames: seq<Frame>): Progress {
    if frames == [] then NO_PROGRESS
    else
      var before, last := Gather(frames[..|frames| - 1]), frames[|frames| - 1];
      if last.Payload? then before.Take(last.json) else before
  }

  /** The frames before the first [DONE]. */
  function BeforeDone(frames: seq<Frame>): seq<Frame> {
    if frames == [] || frames[0].DoneMarker? then [] else [frames[0]] + BeforeDone(frames[1..])
  }

  /** The Groq stream of a response: nothing is yielded if the request is refused; otherwise a start, one
      delta per well-formed chunk with content up to [DONE], and a done if a finish reason was seen and the
      connection held, else a failure. */
  function Streamed(id: string, model: string, response: Response): R.CallResult<Run> {
    match response
    case Refused(error) => R.Failure(error)
    case NoBody => R.Failure(R.Error("PROVIDER_INVALID_RESPONSE", false))
    case Body(frames, broken) =>
      var read := BeforeDone(frames);
      var p := Gather(read);
      var events := [Sse.Start(id, model)] + p.deltas;
      R.Success(
        if read == frames && broken.Some? then Run(events, Some(Known(broken.value)))
        else if p.finish.None? then Run(events, Some(Known(NO_FINISH)))
        else Run(events + [Sse.Done(p.finish.value, p.usage)], None))
  }

  predicate NonEmptyDelta(e: StreamEvent) {
    e.Delta? && e.content != ""
  }

  lemma {:induction false} DeltasOnly(frames: seq<Frame>)
    ensures forall e :: e in Gather(frames).deltas ==> NonEmptyDelta(e)
    decreases |frames|
  {
    if frames != [] { DeltasOnly(frames[..|frames| - 1]); }
  }

  lemma {:induction false} BeforeDoneIs(frames: seq<Frame>, i: nat)
    requires i <= |frames| && (forall k :: 0 <= k < i ==> !frames[k].DoneMarker?) && (i < |frames| ==> frames[i].DoneMarker?)
    ensures BeforeDone(frames) == frames[..i]
  {
    if i > 0 {
      BeforeDoneIs(frames[1..], i - 1);
      assert frames[..i] == [frames[0]] + frames[1..][..i - 1];
    }
  }

  method Stream(id: string, model: string, response: Response) returns (result: R.CallResult<Run>)
    ensures result == Streamed(id, model, response)
  {
    match response
    case Refused(error) => return R.Failure(error);
    case NoBody => return R.Failure(R.Error("PROVIDER_INVALID_RESPONSE", false));
    case Body(frames, broken) =>
      var events: seq<StreamEvent> := [Sse.Start(id, model)];
      var finish: Option<Sse.FinishReason>, usage: Option<Sse.Usage> := None, None;
      var i := 0;
      while i < |frames| && !frames[i].DoneMarker?
        invariant i <= |frames| && forall k :: 0 <= k < i ==> !frames[k].DoneMarker?
        invariant events == [Sse.Start(id, model)] + Gather(frames[..i]).deltas
        invariant finish == Gather(frames[..i]).finish && usage.GetOr(Sse.Usage(0, 0, 0)) == Gather(frames[..i]).usage
      {
        assert frames[..i + 1][..i] == frames[..i];
        if frames[i].Payload? && IsStreamChunk(frames[i].json) {
          var frame := frames[i].json;
          var content, reason, u := ContentOf(frame), NonEmpty(FirstChoice(frame), "finish_reason"), Field(frame, "usage");
          if content.Some? {
            events := events + [Sse.Delta(content.value)];
          }
          if reason.Some? {
            finish := Some(ToFinishReason(reason.value));
          }
          if u.Some? {
            usage := Some(Sse.Usage(CountOr0(u.value, "prompt_tokens"), CountOr0(u.value, "completion_tokens"), CountOr0(u.value, "total_tokens")));
          }
        }
        i := i + 1;
      }
      BeforeDoneIs(frames, i);
      if i == |frames| && broken.Some? {
        return R.Success(Run(events, Some(Known(broken.value))));
      }
      if finish.None? {
        return R.Success(Run(events, Some(Known(NO_FINISH))));
      }
      return R.Success(Run(events + [Sse.Done(finish.value, usage.GetOr(Sse.Usage(0, 0, 0)))], None));
  }

  /** start delta* (done | error), from this model */
  predicate Complete(es: seq<StreamEvent>, model: string) {
    && |es| >= 2 && es[0].Start? && es[0].model == model && (es[|es| - 1].Done? || es[|es| - 1].Error?)
    && forall k :: 1 <= k < |es| - 1 ==> NonEmptyDelta(es[k])
  }

  /** Whatever Groq answers, a stream that starts is shown as one start, content, and one terminal event,
      which is a done exactly if the connection held until [DONE] or the end and a finish reason was
      seen. */
  lemma GroqStreamsAreComplete(id: string, model: string, response: Response)
    ensures Streamed(id, model, response).Success? <==> response.Body?
    ensures response.Body? ==>
              var shown := Shown(Streamed(id, model, response).response);
              && Complete(shown, model)
              && (shown[|shown| - 1].Done? <==>
                    && (response.broken.None? || DoneMarker in response.frames)
                    && Gather(BeforeDone(response.frames)).finish.Some?)
  {
    if response.Body? {
      var read := BeforeDone(response.frames);
      var shown := Shown(Streamed(id, model, response).response);
      ReadToTheEnd(response.frames);
      DeltasOnly(read);
      var deltas := Gather(read).deltas;
      assert |shown| == |deltas| + 2;
      forall k | 1 <= k < |shown| - 1 ensures NonEmptyDelta(shown[k]) {
        assert shown[k] == deltas[k - 1] && deltas[k - 1] in deltas;
      }
    }
  }

  lemma {:induction false} ReadToTheEnd(frames: seq<Frame>)
    ensures BeforeDone(frames) == frames <==> DoneMarker !in frames
  {
    if frames != [] && !frames[0].DoneMarker? {
      ReadToTheEnd(frames[1..]);
      assert frames == [frames[0]] + frames[1..];
    }
  }

  // ---- what a Groq stream says -------------------------------------------------------------------

  /** One frame of a Groq stream: a chunk with perhaps some content, a finish reason and the usage, or
      something the adapter is to skip. */
  datatype Piece =
    | Chunk(content: Option<string>, reason: Option<string>, usage: Option<Sse.Usage>)
    | Junk(frame: Frame)

  /** Frames without data or with unparsable data, payloads that are no objects, and chunks whose choices
      are no array or whose choice is no object or has a content that is no text. */
  ghost predicate IsJunk(f: Frame) {
    match f
    case NoData => true
    case Unparsable => true
    case DoneMarker => false
    case Payload(j) =>
      || j.Null? || j.String? || j.Number? || j.Bool?
      || (exists choices :: j == Field1("choices", choices) && !choices.Array?)
      || (exists choice, more :: j == Field1("choices", Json.Array(Json.Item(choice, more))) && BadChoice(choice))
  }

  ghost predicate BadChoice(choice: Json.Json) {
    || choice.Null? || choice.String? || choice.Number? || choice.Bool?
    || exists content :: choice == Field1("delta", Field1("content", content)) && !content.String?
  }

  /** An object with one field. */
  function Field1(name: string, value: Json.Json): Json.Json {
    Json.Object(Json.Member(name, value, Json.NoMember))
  }

  lemma NoFields(m: Json.Members, name: string)
    requires m.NoMember?
    ensures m.Find(name) == None
  {
  }

  lemma OneField(name: string, value: Json.Json)
    ensures Field(Field1(name, value), name) == Some(value)
    ensures forall other :: other != name ==> Field(Field1(name, value), other) == None
  {
    var m := Field1(name, value).members;
    NoFields(m.rest, name);
    forall other | other != name ensures Field(Field1(name, value), other) == None {
      NoFields(m.rest, other);
    }
  }

  /** An object with two fields. */
  function Field2(name: string, value: Json.Json, name2: string, value2: Json.Json): Json.Json {
    Json.Object(Json.Member(name, value, Field1(name2, value2).members))
  }

  lemma TwoFields(name: string, value: Json.Json, name2: string, value2: Json.Json)
    requires name != name2
    ensures var j := Field2(name, value, name2, value2); Field(j, name) == Some(value) && Field(j, name2) == Some(value2)
  {
    OneField(name2, value2);
    var j, rest := Field2(name, value, name2, value2), Field1(name2, value2);
    assert Field(rest, name) == None && Field(rest, name2) == Some(value2);
  }

  function TextOrNull(s: Option<string>): Json.Json {
    if s.Some? then Json.String(s.value) else Json.Null
  }

  function DeltaJson(content: Option<string>): Json.Json {
    if content.Some? then Field1("content", Json.String(content.value)) else Json.Object(Json.NoMember)
  }

  function ChoiceJson(p: Piece): Json.Json
    requires p.Chunk?
  {
    Field2("delta", DeltaJson(p.content), "finish_reason", TextOrNull(p.reason))
  }

  function UsageJson(u: Sse.Usage): Json.Json {
    Json.Object(Json.Member("prompt_tokens", Json.Number(Json.Decimal(u.promptTokens)),
                Json.Member("completion_tokens", Json.Number(Json.Decimal(u.completionTokens)),
                Json.Member("total_tokens", Json.Number(Json.Decimal(u.totalTokens)), Json.NoMember))))
  }

  /** {"choices":[{"delta":{"content":...},"finish_reason":...}],"usage":{...}} */
  function ChunkJson(p: Piece): Json.Json
    requires p.Chunk?
  {
    var choices := Json.Array(Json.Item(ChoiceJson(p), Json.NoItem));
    if p.usage.Some? then Field2("choices", choices, "usage", UsageJson(p.usage.value)) else Field1("choices", choices)
  }

  lemma UsageFields(u: Sse.Usage)
    ensures var j := UsageJson(u);
            && IsCount(j, "prompt_tokens") && IsCount(j, "completion_tokens") && IsCount(j, "total_tokens")
            && CountOr0(j, "prompt_tokens") == u.promptTokens && CountOr0(j, "completion_tokens") == u.completionTokens
            && CountOr0(j, "total_tokens") == u.totalTokens
  {
    Json.DecimalRoundTrip(u.promptTokens);
    Json.DecimalRoundTrip(u.completionTokens);
    Json.DecimalRoundTrip(u.totalTokens);
    assert |"prompt_tokens"| == 13 && |"completion_tokens"| == 17 && |"total_tokens"| == 12;
    var m := UsageJson(u).members;
    assert m.rest.rest.Find("prompt_tokens") == None && m.rest.rest.Find("completion_tokens") == None;
    assert m.rest.rest.Find("total_tokens") == Some(m.rest.rest.value);
    assert m.rest.Find("prompt_tokens") == None && m.rest.Find("completion_tokens") == Some(m.rest.value);
    assert m.rest.Find("total_tokens") == Some(m.rest.rest.value);
  }

  lemma ChunkFields(p: Piece)
    requires p.Chunk?
    ensures var j, choice := ChunkJson(p), ChoiceJson(p);
            && Field(j, "choices") == Some(Json.Array(Json.Item(choice, Json.NoItem)))
            && Field(j, "usage") == (if p.usage.Some? then Some(UsageJson(p.usage.value)) else None)
            && Field(choice, "delta") == Some(DeltaJson(p.content)) && Field(choice, "finish_reason") == Some(TextOrNull(p.reason))
            && Field(DeltaJson(p.content), "content") == (if p.content.Some? then Some(Json.String(p.content.value)) else None)
  {
    assert |"choices"| == 7 && |"usage"| == 5 && |"delta"| == 5 && |"finish_reason"| == 13 && "delta"[0] != "usage"[0];
    var choices := Json.Array(Json.Item(ChoiceJson(p), Json.NoItem));
    if p.usage.Some? {
      TwoFields("choices", choices, "usage", UsageJson(p.usage.value));
    } else {
      OneField("choices", choices);
    }
    TwoFields("delta", DeltaJson(p.content), "finish_reason", TextOrNull(p.reason));
    if p.content.Some? {
      OneField("content", Json.String(p.content.value));
    } else {
      NoFields(DeltaJson(None).members, "content");
    }
  }

  function FrameOf(p: Piece): Frame {
    match p
    case Chunk(_, _, _) => Payload(ChunkJson(p))
    case Junk(frame) => frame
  }

  function FramesOf(ps: seq<Piece>): seq<Frame> {
    if ps == [] then [] else FramesOf(ps[..|ps| - 1]) + [FrameOf(ps[|ps| - 1])]
  }

  /** The non-empty contents, in order. */
  function Contents(ps: seq<Piece>): seq<string> {
    if ps == [] then []
    else
      var p := ps[|ps| - 1];
      Contents(ps[..|ps| - 1]) + (if p.Chunk? && p.content.Some? && p.content.value != "" then [p.content.value] else [])
  }

  /** The last finish reason given, if any. */
  function LastReason(ps: seq<Piece>): Option<string> {
    if ps == [] then None
    else
      var p := ps[|ps| - 1];
      if p.Chunk? && p.reason.Some? && p.reason.value != "" then p.reason else LastReason(ps[..|ps| - 1])
  }

  /** The last usage given, or nothing used. */
  function LastUsage(ps: seq<Piece>): Sse.Usage {
    if ps == [] then Sse.Usage(0, 0, 0)
    else
      var p := ps[|ps| - 1];
      if p.Chunk? && p.usage.Some? then p.usage.value else LastUsage(ps[..|ps| - 1])
  }

  ghost predicate Readable(ps: seq<Piece>) {
    forall k :: 0 <= k < |ps| && ps[k].Junk? ==> IsJunk(ps[k].frame)
  }

  lemma JunkIsSkipped(f: Frame, before: Progress)
    requires IsJunk(f)
    ensures !f.DoneMarker? && (f.Payload? ==> before.Take(f.json) == before)
  {
    if f.Payload? {
      var j := f.json;
      if choices :| j == Field1("choices", choices) && !choices.Array? {
        OneField("choices", choices);
      } else if choice, more :| j == Field1("choices", Json.Array(Json.Item(choice, more))) && BadChoice(choice) {
        OneField("choices", Json.Array(Json.Item(choice, more)));
        if content :| choice == Field1("delta", Field1("content", content)) && !content.String? {
          OneField("delta", Field1("content", content));
          OneField("content", content);
        }
        assert !IsStreamChoice(choice);
      }
    }
  }

  lemma ChunkIsTaken(p: Piece, before: Progress)
    requires p.Chunk?
    ensures var after := before.Take(ChunkJson(p));
            && after.deltas == before.deltas + (if p.content.Some? && p.content.value != "" then [Sse.Delta(p.content.value)] else [])
            && after.finish == (if p.reason.Some? && p.reason.value != "" then Some(ToFinishReason(p.reason.value)) else before.finish)
            && after.usage == (if p.usage.Some? then p.usage.value else before.usage)
  {
    var j, choice := ChunkJson(p), ChoiceJson(p);
    ChunkFields(p);
    if p.usage.Some? {
      UsageFields(p.usage.value);
    }
    assert IsStreamChoice(choice);
    assert AllChoices(Json.NoItem) && AllChoices(Json.Item(choice, Json.NoItem));
    assert IsStreamChunk(j) && FirstChoice(j) == Some(choice);
    assert ContentOf(j) == if p.content.Some? && p.content.value != "" then p.content else None;
    assert NonEmpty(Some(choice), "finish_reason") == if p.reason.Some? && p.reason.value != "" then p.reason else None;
  }

  lemma {:induction false} GatherReads(ps: seq<Piece>)
    requires Readable(ps)
    ensures var got := Gather(FramesOf(ps));
            && |got.deltas| == |Contents(ps)|
            && (forall k :: 0 <= k < |got.deltas| ==> got.deltas[k] == Sse.Delta(Contents(ps)[k]))
            && got.finish == (if LastReason(ps).Some? then Some(ToFinishReason(LastReason(ps).value)) else None)
            && got.usage == LastUsage(ps)
            && DoneMarker !in FramesOf(ps)
    decreases |ps|
  {
    if ps != [] {
      var n := |ps| - 1;
      GatherReads(ps[..n]);
      assert FramesOf(ps)[..|FramesOf(ps)| - 1] == FramesOf(ps[..n]);
      var before := Gather(FramesOf(ps[..n]));
      if ps[n].Chunk? {
        ChunkIsTaken(ps[n], before);
      } else {
        JunkIsSkipped(ps[n].frame, before);
      }
    }
  }

  /** What a Groq stream says: a start, the non-empty contents of its chunks up to [DONE] in order, and the
      last finish reason with the last usage. It fails with the error of a connection that broke before
      [DONE], and for want of a finish reason otherwise. Whatever follows [DONE], and frames that are no
      chunks, leave no trace. */
  lemma StreamSaysWhatChunksSay(id: string, model: string, ps: seq<Piece>, rest: seq<Frame>, broken: Option<Sse.GatewayError>)
    requires Readable(ps) && (rest == [] || rest[0].DoneMarker?)
    ensures var shown := Shown(Streamed(id, model, Body(FramesOf(ps) + rest, broken)).response);
            var said, reason := Contents(ps), LastReason(ps);
            && |shown| == |said| + 2 && shown[0] == Sse.Start(id, model)
            && (forall k :: 0 <= k < |said| ==> shown[k + 1] == Sse.Delta(said[k]))
            && match shown[|said| + 1]
               case Done(finish, usage) =>
                 && (rest == [] ==> broken.None?) && reason.Some? && usage == LastUsage(ps)
                 && (finish.Stop? <==> reason.value == "stop") && (finish.Length? <==> reason.value == "length")
                 && (finish.ContentFilter? <==> reason.value == "content_filter")
               case Error(error) =>
                 if rest == [] && broken.Some? then error == broken.value
                 else
                   && reason.None?
                   && error == Sse.GatewayError("PROVIDER_INVALID_RESPONSE", "Groq stream ended without a finish signal", 502, false, "")
               case _ => false
  {
    var p := Gather(FramesOf(ps));
    GatherReads(ps);
    ShownUpToDone(id, model, FramesOf(ps), rest, broken);
    if LastReason(ps).Some? { ReasonsByName(LastReason(ps).value); }
  }

  lemma ShownUpToDone(id: string, model: string, read: seq<Frame>, rest: seq<Frame>, broken: Option<Sse.GatewayError>)
    requires DoneMarker !in read && (rest == [] || rest[0].DoneMarker?)
    ensures var shown, p := Shown(Streamed(id, model, Body(read + rest, broken)).response), Gather(read);
            && |shown| == |p.deltas| + 2 && shown[0] == Sse.Start(id, model)
            && (forall k :: 0 <= k < |p.deltas| ==> shown[k + 1] == p.deltas[k])
            && shown[|p.deltas| + 1] ==
               if rest == [] && broken.Some? then Sse.Error(broken.value)
               else if p.finish.Some? then Sse.Done(p.finish.value, p.usage) else Sse.Error(NO_FINISH)
  {
    var frames, p := read + rest, Gather(read);
    BeforeDoneIs(frames, |read|);
    assert frames[..|read|] == read;
    var shown := Shown(Streamed(id, model, Body(frames, broken)).response);
    ShownIs(shown, Sse.Start(id, model), p.deltas,
            if rest == [] && broken.Some? then Sse.Error(broken.value)
            else if p.finish.Some? then Sse.Done(p.finish.value, p.usage) else Sse.Error(NO_FINISH));
  }

  /** A refused request, or one without a body, fails the candidate before anything is shown. */
  lemma RefusalsFail(id: string, model: string, error: R.Error)
    ensures Streamed(id, model, Refused(error)) == R.Failure(error)
    ensures Streamed(id, model, NoBody) == R.Failure(R.Error("PROVIDER_INVALID_RESPONSE", false))
  {
  }

  /** What the caller sees of any run is its events and, if it fails, one error at the end: the provider's
      own, or that of an unexpected failure. */
  lemma ShownIsTheRun(run: Run)
    ensures run.events <= Shown(run) && |Shown(run)| == |run.events| + if run.failure.Some? then 1 else 0
    ensures run.failure.Some? ==>
              Shown(run)[|run.events|] == match run.failure.value
                                          case Known(error) => Sse.Error(error)
                                          case Foreign(cause) =>
                                            Sse.Error(Sse.GatewayError("INTERNAL_ERROR", "An unexpected error occurred while streaming", 500, false, cause))
  {
  }

  lemma ShownIs(shown: seq<StreamEvent>, first: StreamEvent, deltas: seq<StreamEvent>, last: StreamEvent)
    requires shown == [first] + deltas + [last]
    ensures |shown| == |deltas| + 2 && shown[0] == first && shown[|deltas| + 1] == last
    ensures forall k :: 0 <= k < |deltas| ==> shown[k + 1] == deltas[k]
  {
  }

  lemma ReasonsByName(raw: string)
    ensures var r := ToFinishReason(raw);
            (r.Stop? <==> raw == "stop") && (r.Length? <==> raw == "length") && (r.ContentFilter? <==> raw == "content_filter")
  {
    assert |"stop"| == 4 && |"length"| == 6 && |"content_filter"| == 14;
  }

  // ---- routeStream -------------------------------------------------------------------------------

  /** Committed to one provider: its events are passed on until it ends, fails or the caller stops. */
  method Relay(run: Run, patience: nat) returns (shown: seq<StreamEvent>)
    ensures shown == Cut(Shown(run), patience)
  {
    shown := [];
    for k := 0 to |run.events|
      invariant k <= patience && shown == run.events[..k]
    {
      if k == patience {
        assert Shown(run)[..patience] == run.events[..patience];
        return shown;
      }
      shown := shown + [run.events[k]];
    }
    assert run.events[..|run.events|] == run.events;
    if run.failure.Some? && |run.events| < patience {
      shown := shown + [Sse.Error(ToGatewayError(run.failure.value))];
    } else if run.failure.Some? {
      assert Shown(run)[..patience] == run.events;
    }
  }

  /** Every candidate that works is served by Groq: its run is the stream of some response to a request
      for the candidate's model. */
  ghost predicate ServedByGroq(candidates: seq<R.Candidate>, ports: nat -> R.Behaviour<Run>) {
    forall o: nat :: o < |candidates| && R.Works(ports(o), 1) ==>
      exists id, response :: R.Answer(ports(o), 1) == Streamed(id, candidates[o].modelId, response)
  }

  /** All that is shown is the stream of this one model, complete unless the caller stopped early. */
  ghost predicate ShowsOne(shown: seq<StreamEvent>, model: string, patience: nat) {
    exists whole :: Complete(whole, model) && shown == Cut(whole, patience)
  }

  /** routeStream: like route() with a single attempt per candidate, where an attempt succeeds when its
      first event can be pulled. Everything shown comes from the one candidate that decides; a caller that
      stops after `patience` events has seen a prefix. */
  method RouteStream(candidates: seq<R.Candidate>, ports: nat -> R.Behaviour<Run>, patience: nat)
    returns (shown: seq<StreamEvent>, routed: R.Routed<Run>, log: seq<R.Effect>, ghost deciding: Option<nat>, ghost tried: nat)
    ensures R.Routes(candidates, ports, 1, deciding, routed)
    ensures R.Tallies(candidates, ports, 1, deciding, log)
    ensures tried <= |candidates| && log == R.EffectsUpTo(candidates, ports, tried, 1)
    ensures shown == if routed.Returned? then Cut(Shown(R.Answer(ports(deciding.value), 1).response), patience) else []
    ensures ServedByGroq(candidates, ports) ==>
              if routed.Returned? then ShowsOne(shown, candidates[deciding.value].modelId, patience) else shown == []
  {
    var sorted := R.Rank(candidates);
    var attempted: seq<string>, causes: seq<R.Error> := [], [];
    shown, log, deciding, tried := [], [], None, |candidates|;
    for i := 0 to |sorted|
      invariant R.CausesOf(candidates, ports, causes, i, 1) && deciding.None? && tried == |candidates|
      invariant attempted == R.ReportedProviders(log) && log == R.EffectsUpTo(candidates, ports, i, 1)
    {
      var o := sorted[i];
      var candidate, b := candidates[o], ports(o);
      if !b.resolves {
        R.PassedOver(candidates, ports, causes, i, 1, b.resolveError);
        causes := causes + [b.resolveError];
        continue;
      }
      if b.check.BreakerDown? {
        R.Untouched(candidates, ports, i, 1);
        R.EndsThere(candidates, ports, causes, i, 1, R.Propagated(b.check.error));
        deciding, tried := Some(o), i + 1;
        return [], R.Propagated(b.check.error), log, deciding, tried;
      }
      if b.check.Denied? {
        R.PassedOver(candidates, ports, causes, i, 1, R.CIRCUIT_OPEN);
        causes := causes + [R.CIRCUIT_OPEN];
        continue;
      }
      attempted := attempted + [candidate.providerId];
      var first;
      first, log := R.CallProvider(o, candidate, b, 1, log);
      if first.Failure? {
        R.OneMoreCause(candidates, ports, causes, i, 1, first.error);
        causes := causes + [first.error];
        continue;
      }
      R.EndsThere(candidates, ports, causes, i, 1, R.Returned(first.response));
      deciding, tried := Some(o), i + 1;
      shown := Relay(first.response, patience);
      if ServedByGroq(candidates, ports) {
        GroqShowsOne(candidates, ports, o, patience);
      }
      return shown, R.Returned(first.response), log, deciding, tried;
    }
    R.NoneDecides(candidates, ports, causes, 1, attempted);
    return [], R.NoAvailableProvider(attempted, causes), log, deciding, tried;
  }

  lemma GroqShowsOne(candidates: seq<R.Candidate>, ports: nat -> R.Behaviour<Run>, o: nat, patience: nat)
    requires o < |candidates| && R.Works(ports(o), 1) && ServedByGroq(candidates, ports)
    ensures ShowsOne(Cut(Shown(R.Answer(ports(o), 1).response), patience), candidates[o].modelId, patience)
  {
    var id, response :| R.Answer(ports(o), 1) == Streamed(id, candidates[o].modelId, response);
    GroqStreamsAreComplete(id, candidates[o].modelId, response);
  }
}
