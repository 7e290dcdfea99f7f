/** The mock chat-completion responder of src/routes/dummyCompletions.ts.

    A request is resolved into two flags: prompt mode (the `prompt` field is an
    array) and streaming (the `stream` field, defaulted to `true` when it is not a
    boolean). The generator fabricates a fixed reply. Streaming, it yields one
    Server-Sent-Events frame `data: <json>\n\n` per line of the reply, then a
    terminator frame followed by `data: [DONE]\n\n`. Buffered, it yields one value
    holding the whole reply, which the buffered transport reshapes into a
    `chat.completion` document.

    Time is a parameter `clock`: `clock(k)` is the value of the k-th `Date.now()`
    read during the request. JSON serialisation is a parameter `enc`; UTF-8
    encoding of a payload is injective and is left implicit (a payload is its text). */
module Completions {
  import opened Values
  import opened Strings

  /** The canned reply, a template literal over three source lines: the line breaks
      are part of it, the second and third lines keep their two leading spaces and
      the second its trailing space. */
  const Reply: string :=
    "Hello world is another\n" + "  message that used to be the starter \n" + "  programmmer to start learning"

  const ReplyLines: seq<string> :=
    ["Hello world is another", "  message that used to be the starter ", "  programmmer to start learning"]

  /** The parsed request body. `handleDummyCompletions` writes the defaulted
      `stream` flag back into it. */
  class ChatRequest {
    var model: JsValue
    var stream: JsValue
    var prompt: JsValue

    constructor (model: JsValue, stream: JsValue, prompt: JsValue)
      ensures this.model == model && this.stream == stream && this.prompt == prompt
    {
      this.model := model;
      this.stream := stream;
      this.prompt := prompt;
    }
  }

  datatype DeltaChoice = DeltaChoice(content: string)

  /** One `chat.completion.chunk` record; `finishReason` None is JSON `null`. */
  datatype Chunk = Chunk(
    id: string,
    model: JsValue,
    kind: string,  // the JSON `object` field
    index: nat,
    finishReason: Option<string>,
    created: nat,
    choices: seq<DeltaChoice>,
    done: bool)

  datatype ChatMessage = ChatMessage(role: string, content: string)

  datatype Choice = Choice(message: ChatMessage)

  /** A value the generator yields: an encoded frame (streaming) or a response
      object with choices (buffered). */
  datatype Yielded = Payload(text: string) | Buffered(choices: seq<Choice>)

  /** One output choice of the buffered document, in chat or prompt shape. */
  datatype ChoiceView =
    | ChatChoice(index: nat, message: ChatMessage, finishReason: string)
    | PromptChoice(index: nat, role: string, text: string, finishReason: string)
  {
    function Role(): string {
      if ChatChoice? then message.role else role
    }
    function Content(): string {
      if ChatChoice? then message.content else text
    }
  }

  datatype CompletionDocument = CompletionDocument(
    id: string,
    kind: string,  // the JSON `object` field
    created: int,
    model: JsValue,
    choices: seq<ChoiceView>)

  /** What the handler sends: an event stream or a JSON body. */
  datatype HttpResponse =
    | EventStream(headers: seq<(string, string)>, body: string)
    | JsonBody(status: int, document: CompletionDocument)

  const SseHeaders: seq<(string, string)> :=
    [("Content-Type", "text/event-stream"), ("Cache-Control", "no-cache"), ("Connection", "keep-alive")]

  // ---------------------------------------------------------------- mode resolution

  /** Prompt mode: `Array.isArray(chatRequest.prompt)`. A string, an object, a
      scalar or an absent `prompt` is chat mode. */
  function IsPromptMode(req: ChatRequest): (promptMode: bool)
    reads req
    ensures promptMode <==> req.prompt.Arr?
    ensures req.prompt.Str? || req.prompt.Obj? || req.prompt.Undefined? || req.prompt.Null? ==> !promptMode
  {
    req.prompt.Arr?
  }

  /** The `stream` flag after defaulting: a boolean is kept, anything else becomes `true`. */
  function DefaultStream(stream: JsValue): (r: JsValue)
    ensures r.Bool?
    ensures stream.Bool? ==> r == stream
    ensures !stream.Bool? ==> r.b
  {
    if stream.Bool? then stream else Bool(true)
  }

  // ---------------------------------------------------------------- frames

  /** A chunk whose `id` and `created` come from the clock reads `read` and `read + 1`. */
  function ChunkAt(model: JsValue, index: nat, content: string, finishReason: Option<string>,
                   clock: nat -> nat, read: nat): Chunk
  {
    Chunk("chatcmpl-" + DecimalString(clock(read)), model, "chat.completion.chunk", index,
          finishReason, clock(read + 1), [DeltaChoice(content)], true)
  }

  /** The chunk for line `i`. The unused `data` object built before the loop takes the
      first two clock reads, so line `i` reads the clock at `2 + 2 * i` and `3 + 2 * i`. */
  function ContentChunk(model: JsValue, i: nat, line: string, clock: nat -> nat): Chunk {
    ChunkAt(model, i, line, None, clock, 2 + 2 * i)
  }

  /** The terminator chunk after `n` lines. */
  function FinalChunk(model: JsValue, n: nat, clock: nat -> nat): Chunk {
    ChunkAt(model, n, "", Some("done"), clock, 2 + 2 * n)
  }

  /** Event-stream framing of one data line: `data: <data>` and a blank line. */
  function SseFrame(data: string): string {
    "data: " + data + "\n\n"
  }

  const DoneData: string := "[DONE]"

  /** The concatenated frames of a sequence of data lines. */
  function Frames(datas: seq<string>): string
    decreases |datas|
  {
    if datas == [] then [] else SseFrame(datas[0]) + Frames(datas[1..])
  }

  /** The data lines of a stream, in emission order: one per reply line, the
      terminator chunk, and `[DONE]`. */
  function StreamData(model: JsValue, clock: nat -> nat, enc: Chunk -> string): (ds: seq<string>)
    ensures |ds| == |Split(Reply, '\n')| + 2
  {
    var lines := Split(Reply, '\n');
    seq(|lines|, i requires 0 <= i < |lines| => enc(ContentChunk(model, i, lines[i], clock)))
      + [enc(FinalChunk(model, |lines|, clock)), DoneData]
  }

  /** The payloads the streaming generator yields. */
  function StreamPayloads(model: JsValue, clock: nat -> nat, enc: Chunk -> string): seq<Yielded> {
    var lines := Split(Reply, '\n');
    seq(|lines|, i requires 0 <= i < |lines| => Payload(SseFrame(enc(ContentChunk(model, i, lines[i], clock)))))
      + [Payload(SseFrame(enc(FinalChunk(model, |lines|, clock))) + SseFrame(DoneData))]
  }

  /** The single value the buffered generator yields. */
  const BufferedResponse: Yielded := Buffered([Choice(ChatMessage("assistant", Reply))])

  // ---------------------------------------------------------------- generator

  /** `createCompletions`: the values the generator yields, in order. The branch is
      chosen by the truthiness of `stream`, as the source reads it. */
  method CreateCompletions(req: ChatRequest, clock: nat -> nat, enc: Chunk -> string)
    returns (out: seq<Yielded>)
    ensures Truthy(req.stream) ==> out == StreamPayloads(req.model, clock, enc)
    ensures !Truthy(req.stream) ==> out == [BufferedResponse]
  {
    if Truthy(req.stream) {
      var lines := Split(Reply, '\n');
      var index := 0;
      out := [];
      while index < |lines|
        invariant 0 <= index <= |lines|
        invariant |out| == index
        invariant forall i :: 0 <= i < index ==>
          out[i] == Payload(SseFrame(enc(ContentChunk(req.model, i, lines[i], clock))))
      {
        out := out + [Payload(SseFrame(enc(ContentChunk(req.model, index, lines[index], clock))))];
        index := index + 1;
      }
      out := out + [Payload(SseFrame(enc(FinalChunk(req.model, index, clock))) + SseFrame(DoneData))];
    } else {
      out := [BufferedResponse];
    }
  }

  // ---------------------------------------------------------------- transports

  /** The texts of a sequence of payloads, concatenated. */
  function Written(ys: seq<Yielded>): string
    requires forall i :: 0 <= i < |ys| ==> ys[i].Payload?
    decreases |ys|
  {
    if ys == [] then [] else ys[0].text + Written(ys[1..])
  }

  lemma {:induction false} WrittenSnoc(ys: seq<Yielded>, y: Yielded)
    requires forall i :: 0 <= i < |ys| ==> ys[i].Payload?
    requires y.Payload?
    ensures Written(ys + [y]) == Written(ys) + y.text
    decreases |ys|
  {
    if ys != [] {
      assert (ys + [y])[1..] == ys[1..] + [y];
      WrittenSnoc(ys[1..], y);
    }
  }

  /** `sendStreamResult`: every payload is written to the stream in the order yielded,
      nothing added, nothing reordered. */
  method SendStreamResult(response: seq<Yielded>) returns (body: string)
    requires forall i :: 0 <= i < |response| ==> response[i].Payload?
    ensures body == Written(response)
  {
    body := [];
    for i := 0 to |response|
      invariant body == Written(response[..i])
    {
      WrittenSnoc(response[..i], response[i]);
      assert response[..i + 1] == response[..i] + [response[i]];
      body := body + response[i].text;
    }
    assert response[..|response|] == response;
  }

  /** The `.map` in `sendResult`: one view per choice, at its position, with the
      choice's role and content, finish reason "stop", and the prompt shape
      (no `message` key) exactly in prompt mode. */
  function ShapeChoices(choices: seq<Choice>, promptMode: bool): (views: seq<ChoiceView>)
    ensures |views| == |choices|
    ensures forall i :: 0 <= i < |views| ==>
      views[i].index == i && views[i].finishReason == "stop"
      && (views[i].PromptChoice? <==> promptMode)
      && views[i].Role() == choices[i].message.role
      && views[i].Content() == choices[i].message.content
  {
    seq(|choices|, i requires 0 <= i < |choices| =>
      if promptMode then PromptChoice(i, choices[i].message.role, choices[i].message.content, "stop")
      else ChatChoice(i, ChatMessage(choices[i].message.role, choices[i].message.content), "stop"))
  }

  /** `sendResult`: drains the generator keeping only the last value, then builds the
      document from it. None when the last value has no `choices` (nothing yielded,
      or a frame), where the source throws. The document's `id` and `created` take
      the clock reads 0 and 1, made before draining. */
  method SendResult(response: seq<Yielded>, modelName: JsValue, promptMode: bool, clock: nat -> nat)
    returns (doc: Option<CompletionDocument>)
    ensures doc.Some? <==> |response| > 0 && response[|response| - 1].Buffered?
    ensures doc.Some? ==> doc.value == CompletionDocument(
      "chatcmpl-" + DecimalString(clock(0)), "chat.completion", clock(1) / 1000, modelName,
      ShapeChoices(response[|response| - 1].choices, promptMode))
  {
    var last: Option<Yielded> := None;
    for i := 0 to |response|
      invariant i == 0 ==> last == None
      invariant i > 0 ==> last == Some(response[i - 1])
    {
      last := Some(response[i]);
    }
    if last.None? || last.value.Payload? {
      return None;
    }
    doc := Some(CompletionDocument(
      "chatcmpl-" + DecimalString(clock(0)), "chat.completion", clock(1) / 1000, modelName,
      ShapeChoices(last.value.choices, promptMode)));
  }

  /** The buffered document for a request. */
  function BufferedDocument(model: JsValue, promptMode: bool, clock: nat -> nat): CompletionDocument {
    CompletionDocument("chatcmpl-" + DecimalString(clock(0)), "chat.completion", clock(1) / 1000, model,
      ShapeChoices(BufferedResponse.choices, promptMode))
  }

  // ---------------------------------------------------------------- handler

  /** `handleDummyCompletions`: defaults `stream` in place, then the generator and the
      transport both follow that one flag. */
  method HandleDummyCompletions(req: ChatRequest, clock: nat -> nat, enc: Chunk -> string)
    returns (resp: HttpResponse)
    modifies req
    ensures req.stream == DefaultStream(old(req.stream))
    ensures req.model == old(req.model) && req.prompt == old(req.prompt)
    ensures resp.EventStream? <==> req.stream == Bool(true)
    ensures req.stream == Bool(true) ==>
      resp == EventStream(SseHeaders, Frames(StreamData(req.model, clock, enc)))
    ensures req.stream == Bool(false) ==>
      resp == JsonBody(200, BufferedDocument(req.model, req.prompt.Arr?, clock))
  {
    if !req.stream.Bool? {
      req.stream := Bool(true);
    }
    var response := CreateCompletions(req, clock, enc);
    var streaming := req.stream.b;
    var promptMode := IsPromptMode(req);
    var modelName := req.model;
    if streaming {
      var body := SendStreamResult(response);
      StreamWritten(req.model, clock, enc);
      resp := EventStream(SseHeaders, body);
    } else {
      var doc := SendResult(response, modelName, promptMode, clock);
      resp := JsonBody(200, doc.value);
    }
  }

  // ---------------------------------------------------------------- properties

  lemma ReplyLinesJoin()
    ensures Join(ReplyLines, '\n') == Reply
  {
    var l0, l1, l2 := ReplyLines[0], ReplyLines[1], ReplyLines[2];
    assert Join([l2], '\n') == l2;
    assert [l1, l2][1..] == [l2];
    assert Join([l1, l2], '\n') == l1 + ['\n'] + l2;
    assert ReplyLines[1..] == [l1, l2];
    assert l0 + ['\n'] == "Hello world is another\n";
    assert l1 + ['\n'] == "  message that used to be the starter \n";
  }

  /** The canned reply splits into exactly the three lines of the literal. */
  lemma ReplySplitsIntoThreeLines()
    ensures Split(Reply, '\n') == ReplyLines
    ensures |Split(Reply, '\n')| == 3
  {
    ReplyLinesJoin();
    SplitJoin(ReplyLines, '\n');
  }

  /** Frame `i` of the stream carries index `i`, line `i` as its delta content, a null
      finish reason and `done = true`; the last payload is the terminator chunk with
      index N, finish reason "done" and empty content, then `[DONE]`. */
  lemma StreamShape(model: JsValue, clock: nat -> nat, enc: Chunk -> string)
    ensures var ps := StreamPayloads(model, clock, enc); var lines := Split(Reply, '\n');
      && |ps| == |lines| + 1 == 4
      && (forall i :: 0 <= i < |lines| ==>
            var c := ContentChunk(model, i, lines[i], clock);
            && ps[i] == Payload(SseFrame(enc(c)))
            && c.index == i && c.choices == [DeltaChoice(lines[i])]
            && c.finishReason == None && c.done && c.kind == "chat.completion.chunk")
      && var f := FinalChunk(model, |lines|, clock);
         && ps[|lines|] == Payload(SseFrame(enc(f)) + SseFrame(DoneData))
         && f.index == |lines| && f.finishReason == Some("done") && f.choices == [DeltaChoice("")]
  {
    ReplySplitsIntoThreeLines();
  }

  /** Joining the delta contents of the content frames with "\n" gives back the reply,
      leading and trailing spaces included. */
  lemma ContentsRejoinToReply(model: JsValue, clock: nat -> nat)
    ensures var lines := Split(Reply, '\n');
      Join(seq(|lines|, i requires 0 <= i < |lines| => ContentChunk(model, i, lines[i], clock).choices[0].content), '\n')
        == Reply
  {
    var lines := Split(Reply, '\n');
    var contents := seq(|lines|, i requires 0 <= i < |lines| => ContentChunk(model, i, lines[i], clock).choices[0].content);
    assert contents == lines;
    JoinSplit(Reply, '\n');
  }

  /** Chunk identifiers taken at different clock values differ. */
  lemma ChunkIdsFollowClock(model: JsValue, clock: nat -> nat, i: nat, j: nat, li: string, lj: string)
    requires clock(2 + 2 * i) != clock(2 + 2 * j)
    ensures ContentChunk(model, i, li, clock).id != ContentChunk(model, j, lj, clock).id
  {
    var a, b := DecimalString(clock(2 + 2 * i)), DecimalString(clock(2 + 2 * j));
    if "chatcmpl-" + a == "chatcmpl-" + b {
      assert a == ("chatcmpl-" + a)[9..];
      DecimalStringInjective(clock(2 + 2 * i), clock(2 + 2 * j));
    }
  }

  lemma {:induction false} FramesSnoc(ds: seq<string>, d: string)
    ensures Frames(ds + [d]) == Frames(ds) + SseFrame(d)
    decreases |ds|
  {
    if ds != [] {
      assert (ds + [d])[1..] == ds[1..] + [d];
      FramesSnoc(ds[1..], d);
    } else {
      assert Frames([d]) == SseFrame(d) + Frames([]);
    }
  }

  /** What the streaming transport writes is the framing of the stream's data lines:
      the terminator and `[DONE]` frames share the last payload. */
  lemma StreamWritten(model: JsValue, clock: nat -> nat, enc: Chunk -> string)
    ensures var ps := StreamPayloads(model, clock, enc);
      (forall i :: 0 <= i < |ps| ==> ps[i].Payload?)
      && Written(ps) == Frames(StreamData(model, clock, enc))
  {
    var lines := Split(Reply, '\n');
    var n := |lines|;
    var ps := StreamPayloads(model, clock, enc);
    var ds := StreamData(model, clock, enc);
    var k := 0;
    while k < n
      invariant 0 <= k <= n
      invariant Written(ps[..k]) == Frames(ds[..k])
    {
      WrittenSnoc(ps[..k], ps[k]);
      FramesSnoc(ds[..k], ds[k]);
      assert ps[..k + 1] == ps[..k] + [ps[k]];
      assert ds[..k + 1] == ds[..k] + [ds[k]];
      k := k + 1;
    }
    WrittenSnoc(ps[..n], ps[n]);
    assert ps == ps[..n] + [ps[n]];
    FramesSnoc(ds[..n], ds[n]);
    FramesSnoc(ds[..n + 1], ds[n + 1]);
    assert ds[..n + 1] == ds[..n] + [ds[n]];
    assert ds == ds[..n + 1] + [ds[n + 1]];
  }

  // ---------------------------------------------------------------- decoding

  /** Index of the first '\n' in `t`, or `|t|` when there is none. */
  function LineEnd(t: string): (k: nat)
    ensures k <= |t|
    ensures forall j :: 0 <= j < k ==> t[j] != '\n'
    ensures k < |t| ==> t[k] == '\n'
    decreases |t|
  {
    if t == [] || t[0] == '\n' then 0 else 1 + LineEnd(t[1..])
  }

  /** Reads a stream made of events that are each one `data: ` line followed by a
      blank line, giving the data of each event; None when the text is not of that form. */
  function ParseEvents(s: string): Option<seq<string>>
    decreases |s|
  {
    if s == [] then Some([])
    else if !StartsWith(s, "data: ") then None
    else
      var body := s[6..];
      var k := LineEnd(body);
      if k + 1 < |body| && body[k + 1] == '\n' then
        match ParseEvents(body[k + 2..])
        case None => None
        case Some(rest) => Some([body[..k]] + rest)
      else None
  }

  lemma LineEndOfFrame(d: string, rest: string)
    requires '\n' !in d
    ensures LineEnd(d + "\n\n" + rest) == |d|
  {
    var t := d + "\n\n" + rest;
    assert forall j :: 0 <= j < |d| ==> t[j] == d[j];
    assert t[|d|] == '\n';
  }

  /** Decoding the frames of newline-free data lines gives the data lines back. */
  lemma {:induction false} ParseFrames(ds: seq<string>)
    requires forall i :: 0 <= i < |ds| ==> '\n' !in ds[i]
    ensures ParseEvents(Frames(ds)) == Some(ds)
    decreases |ds|
  {
    if ds != [] {
      var d := ds[0];
      var rest := Frames(ds[1..]);
      var s := Frames(ds);
      assert s == "data: " + (d + "\n\n" + rest);
      assert s[..6] == "data: ";
      var body := s[6..];
      assert body == d + "\n\n" + rest;
      LineEndOfFrame(d, rest);
      assert body[|d| + 1] == '\n';
      assert body[..|d|] == d;
      assert body[|d| + 2..] == rest;
      ParseFrames(ds[1..]);
      assert [d] + ds[1..] == ds;
    }
  }

  /** Round trip: when the serialiser never emits a raw newline (JSON.stringify
      escapes them), the event stream decodes into exactly the serialised content
      chunks, the serialised terminator chunk, and `[DONE]`, in that order. */
  lemma StreamDecodes(model: JsValue, clock: nat -> nat, enc: Chunk -> string)
    requires forall c :: '\n' !in enc(c)
    ensures ParseEvents(Frames(StreamData(model, clock, enc))) == Some(StreamData(model, clock, enc))
  {
    var ds := StreamData(model, clock, enc);
    assert '\n' !in DoneData;
    forall i | 0 <= i < |ds|
      ensures '\n' !in ds[i]
    {
      var lines := Split(Reply, '\n');
      if i < |lines| {
        assert ds[i] == enc(ContentChunk(model, i, lines[i], clock));
      } else if i == |lines| {
        assert ds[i] == enc(FinalChunk(model, |lines|, clock));
      }
    }
    ParseFrames(ds);
  }

  /** The buffered document holds one choice with role "assistant" and the whole
      reply, unsplit: in the `text` field in prompt mode, in `message` otherwise. */
  lemma BufferedDocumentShape(model: JsValue, promptMode: bool, clock: nat -> nat)
    ensures var doc := BufferedDocument(model, promptMode, clock);
      && doc.kind == "chat.completion"
      && |doc.choices| == 1
      && (promptMode ==> doc.choices[0] == PromptChoice(0, "assistant", Reply, "stop"))
      && (!promptMode ==> doc.choices[0] == ChatChoice(0, ChatMessage("assistant", Reply), "stop"))
      && '\n' in doc.choices[0].Content()
  {
    var doc := BufferedDocument(model, promptMode, clock);
    assert Reply[22] == '\n';
    assert doc.choices[0].Content() == Reply;
  }
}
