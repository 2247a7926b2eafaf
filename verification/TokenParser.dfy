/** The server-sent-event parser of the chat stream (gmrag_api/src/chat/deepseek.rs).

    Decoded text is buffered until a newline completes a line. A complete `data:` line either ends
    the stream or carries one JSON chunk, whose decoding is an uninterpreted function here. */
module TokenParser {
  import opened Wrappers
  import opened Text
  import opened Utf8

  datatype Choice = Choice(content: Option<string>, reasoning: Option<string>, finishReason: Option<string>)

  datatype StreamChunk = StreamChunk(model: Option<string>, fingerprint: Option<string>, choices: seq<Choice>)

  datatype Metadata = Metadata(model: Option<string>, fingerprint: Option<string>,
                               finishReason: Option<string>, reasoningDeltas: nat)

  const NO_METADATA := Metadata(None, None, None, 0)

  /** JSON decoding of one data line; `None` stands for a decoding error. */
  type Decoder = string -> Option<StreamChunk>

  // ----- One line -----

  function StripPrefixes(s: string, prefix: string): string
    requires prefix != ""
    decreases |s|
  {
    if prefix <= s then StripPrefixes(s[|prefix|..], prefix) else s
  }

  /** The payload of a `data:` line; other lines carry none. */
  function Payload(line: string): Option<string> {
    if line == "" || !("data:" <= line) then None
    else Some(Trim(StripPrefixes(line, "data:")))
  }

  predicate EndsStream(line: string) {
    Payload(line) == Some("[DONE]")
  }

  /** The chunk that a line carries, when it carries one. */
  function ChunkOf(decode: Decoder, line: string): Option<StreamChunk> {
    match Payload(line)
    case None => None
    case Some(data) => if data == "[DONE]" then None else decode(data)
  }

  datatype Parsed = Parsed(tokens: seq<string>, done: bool, metadata: Metadata)

  const NOTHING_PARSED := Parsed([], false, NO_METADATA)

  function NonEmpty(content: Option<string>): seq<string> {
    match content
    case Some(text) => if text != "" then [text] else []
    case None => []
  }

  function WithChoices(p: Parsed, choices: seq<Choice>): Parsed
    decreases |choices|
  {
    if choices == [] then p
    else
      var c := choices[0];
      var m := p.metadata.(finishReason := Or(c.finishReason, p.metadata.finishReason),
                           reasoningDeltas := p.metadata.reasoningDeltas + if c.reasoning.Some? then 1 else 0);
      WithChoices(Parsed(p.tokens + NonEmpty(c.content), p.done, m), choices[1..])
  }

  function WithLine(decode: Decoder, p: Parsed, line: string): Parsed {
    if EndsStream(line) then p.(done := true)
    else match ChunkOf(decode, line)
      case None => p
      case Some(chunk) =>
        var m := p.metadata.(model := Or(p.metadata.model, chunk.model),
                             fingerprint := Or(p.metadata.fingerprint, chunk.fingerprint));
        WithChoices(p.(metadata := m), chunk.choices)
  }

  function WithLines(decode: Decoder, p: Parsed, lines: seq<string>): Parsed
    decreases |lines|
  {
    if lines == [] then p else WithLines(decode, WithLine(decode, p, Trim(lines[0])), lines[1..])
  }

  /** Parsing a whole text at once: every line that a newline ends, in order. */
  function ParseAll(decode: Decoder, text: string): Parsed {
    WithLines(decode, NOTHING_PARSED, EndedLines(text))
  }

  // ----- What a text says, independently of the order of parsing -----

  function ChunkChoices(chunk: Option<StreamChunk>): seq<Choice> {
    if chunk.Some? then chunk.value.choices else []
  }

  function ChunkModel(chunk: Option<StreamChunk>): Option<string> {
    if chunk.Some? then chunk.value.model else None
  }

  function ChunkFingerprint(chunk: Option<StreamChunk>): Option<string> {
    if chunk.Some? then chunk.value.fingerprint else None
  }

  function ChoicesOf(decode: Decoder, lines: seq<string>): seq<Choice> {
    if lines == [] then []
    else ChunkChoices(ChunkOf(decode, Trim(lines[0]))) + ChoicesOf(decode, lines[1..])
  }

  function ContentsOf(choices: seq<Choice>): seq<string> {
    if choices == [] then [] else NonEmpty(choices[0].content) + ContentsOf(choices[1..])
  }

  function ReasoningDeltas(choices: seq<Choice>): nat {
    if choices == [] then 0
    else (if choices[0].reasoning.Some? then 1 else 0) + ReasoningDeltas(choices[1..])
  }

  function LastFinishReason(choices: seq<Choice>): Option<string> {
    if choices == [] then None
    else Or(LastFinishReason(choices[1..]), choices[0].finishReason)
  }

  function FirstModel(decode: Decoder, lines: seq<string>): Option<string> {
    if lines == [] then None
    else Or(ChunkModel(ChunkOf(decode, Trim(lines[0]))), FirstModel(decode, lines[1..]))
  }

  function FirstFingerprint(decode: Decoder, lines: seq<string>): Option<string> {
    if lines == [] then None
    else Or(ChunkFingerprint(ChunkOf(decode, Trim(lines[0]))), FirstFingerprint(decode, lines[1..]))
  }

  // ----- The parser -----

  class DeepseekTokenParser {
    const decode: Decoder
    const utf8: IncrementalUtf8
    var lineBuffer: string
    var pendingTokens: seq<string>
    var done: bool
    var metadata: Metadata
    ghost var text: string            // all text decoded so far
    ghost var taken: seq<string>      // all tokens popped so far

    /** The fields are what parsing the whole text at once gives, less the tokens already taken. */
    ghost predicate Valid()
      reads this
    {
      && lineBuffer == LastPart(text)
      && Parsed(taken + pendingTokens, done, metadata) == ParseAll(decode, text)
    }

    constructor (decode: Decoder)
      ensures Valid() && this.decode == decode && fresh(utf8)
      ensures text == "" && taken == [] && utf8.pending == []
    {
      this.decode := decode;
      utf8 := new IncrementalUtf8();
      lineBuffer, pendingTokens, done, metadata := "", [], false, NO_METADATA;
      text, taken := "", [];
    }

    method PushBytes(bytes: seq<Byte>)
      requires Valid()
      modifies this, utf8
      ensures Valid() && taken == old(taken)
      ensures var drained := Drain(old(utf8.pending) + bytes);
              text == old(text) + drained.text && utf8.pending == drained.rest
    {
      var chunk := utf8.Push(bytes);
      if chunk != "" {
        PushChunk(chunk);
      }
    }

    method FlushUtf8()
      requires Valid()
      modifies this, utf8
      ensures Valid() && taken == old(taken)
      ensures text == old(text) + Lossy(old(utf8.pending)) && utf8.pending == []
    {
      var chunk := utf8.Flush();
      if chunk != "" {
        PushChunk(chunk);
      }
    }

    method PushChunk(chunk: string)
      requires Valid()
      modifies this
      ensures Valid() && taken == old(taken) && text == old(text) + chunk
    {
      ghost var before := Parsed(taken + pendingTokens, done, metadata);
      lineBuffer := lineBuffer + chunk;
      ghost var incoming := lineBuffer;
      while NewlineAt(lineBuffer) < |lineBuffer|
        invariant taken == old(taken) && text == old(text)
        invariant LastPart(lineBuffer) == LastPart(incoming)
        invariant WithLines(decode, Parsed(taken + pendingTokens, done, metadata), EndedLines(lineBuffer))
               == WithLines(decode, before, EndedLines(incoming))
        decreases |lineBuffer|
      {
        var newline := NewlineAt(lineBuffer);
        var line := Trim(lineBuffer[..newline]);
        lineBuffer := lineBuffer[newline + 1..];
        ParseLine(line);
      }
      LinesAppend(text, chunk);
      WithLinesAppend(decode, NOTHING_PARSED, EndedLines(text), EndedLines(incoming));
      text := text + chunk;
    }

    method PopToken() returns (token: Option<string>)
      requires Valid()
      modifies this
      ensures Valid() && text == old(text)
      ensures match token
              case Some(t) => old(pendingTokens) == [t] + pendingTokens && taken == old(taken) + [t]
              case None => old(pendingTokens) == [] == pendingTokens && taken == old(taken)
    {
      if pendingTokens == [] {
        token := None;
      } else {
        token := Some(pendingTokens[0]);
        taken := taken + [pendingTokens[0]];
        pendingTokens := pendingTokens[1..];
      }
    }

    method ParseLine(line: string)
      modifies this`pendingTokens, this`done, this`metadata
      ensures Parsed(taken + pendingTokens, done, metadata)
           == WithLine(decode, old(Parsed(taken + pendingTokens, done, metadata)), line)
    {
      if line == "" || !("data:" <= line) {
        return;
      }
      var data := Trim(StripPrefixes(line, "data:"));
      if data == "[DONE]" {
        done := true;
        return;
      }
      match decode(data) {
        case None => return;
        case Some(parsed) =>
          if metadata.model.None? {
            metadata := metadata.(model := parsed.model);
          }
          if metadata.fingerprint.None? {
            metadata := metadata.(fingerprint := parsed.fingerprint);
          }
          AddChoices(parsed.choices);
      }
    }

    /** The loop of `parse_line` over the choices of one chunk. */
    method AddChoices(choices: seq<Choice>)
      modifies this`pendingTokens, this`metadata
      ensures Parsed(taken + pendingTokens, done, metadata)
           == WithChoices(old(Parsed(taken + pendingTokens, done, metadata)), choices)
    {
      for i := 0 to |choices|
        invariant WithChoices(Parsed(taken + pendingTokens, done, metadata), choices[i..])
               == WithChoices(old(Parsed(taken + pendingTokens, done, metadata)), choices)
      {
        assert choices[i..][0] == choices[i] && choices[i..][1..] == choices[i + 1..];
        ghost var soFar := taken + pendingTokens;
        var choice := choices[i];
        if choice.finishReason.Some? {
          metadata := metadata.(finishReason := choice.finishReason);
        }
        if choice.reasoning.Some? {
          metadata := metadata.(reasoningDeltas := metadata.reasoningDeltas + 1);
        }
        match choice.content {
          case Some(content) =>
            if content != "" {
              pendingTokens := pendingTokens + [content];
            }
          case None =>
        }
        assert taken + pendingTokens == soFar + NonEmpty(choice.content);
      }
    }
  }

  // ----- The reader of a stream -----

  /** What the network hands over next. The end of the list is the end of the stream. */
  datatype Event = Bytes(bytes: seq<Byte>) | IdleTimeout | HttpError

  datatype Next = Token(token: string) | End | Failed(why: Event)

  function EventBytes(e: Event): seq<Byte> {
    match e
    case Bytes(bytes) => bytes
    case _ => []
  }

  function BytesOf(events: seq<Event>): seq<Byte> {
    if events == [] then [] else EventBytes(events[0]) + BytesOf(events[1..])
  }

  /** Everything that parsing at once finds in the bytes of `events`. */
  function Heard(decode: Decoder, events: seq<Event>): Parsed {
    ParseAll(decode, Drain(BytesOf(events)).text)
  }

  /** `next_stream_token`; `heard` are the events read before. */
  method NextStreamToken(parser: DeepseekTokenParser, stream: seq<Event>, ghost heard: seq<Event>)
    returns (next: Next, used: nat)
    requires parser.Valid()
    requires Drained(parser.text, parser.utf8.pending) == Drain(BytesOf(heard))
    modifies parser, parser.utf8
    ensures parser.Valid() && used <= |stream| && (forall i | 0 <= i < used :: stream[i].Bytes?)
    ensures next.End? || Drained(parser.text, parser.utf8.pending) == Drain(BytesOf(heard + stream[..used]))
    ensures forall i | 0 <= i < used :: !Heard(parser.decode, heard + stream[..i]).done
    ensures match next
            case Token(t) => parser.taken == old(parser.taken) + [t]
                && (used == 0 ==> |parser.pendingTokens| < |old(parser.pendingTokens)|)
            case End =>
              && parser.taken == old(parser.taken) == Heard(parser.decode, heard + stream[..used]).tokens
              && (used == |stream| || Heard(parser.decode, heard + stream[..used]).done)
            case Failed(why) =>
              && parser.taken == old(parser.taken) == Heard(parser.decode, heard + stream[..used]).tokens
              && !Heard(parser.decode, heard + stream[..used]).done
              && used < |stream| && why == stream[used] && !why.Bytes?
  {
    hide Drain, Lossy, ParseAll, LastPart, BytesOf;
    used := 0;
    assert heard + stream[..0] == heard;
    while true
      invariant parser.Valid() && used <= |stream| && (forall i | 0 <= i < used :: stream[i].Bytes?)
      invariant Drained(parser.text, parser.utf8.pending) == Drain(BytesOf(heard + stream[..used]))
      invariant forall i | 0 <= i < used :: !Heard(parser.decode, heard + stream[..i]).done
      invariant parser.taken == old(parser.taken)
      invariant used == 0 ==> parser.pendingTokens == old(parser.pendingTokens)
      decreases |stream| - used
    {
      var token := parser.PopToken();
      if token.Some? {
        return Token(token.value), used;
      }
      if parser.done {
        return End, used;
      }
      if used == |stream| {
        FlushEndsNoLine(parser.text, BytesOf(heard + stream));
        assert stream[..used] == stream;
        parser.FlushUtf8();
        return End, used;
      }
      match stream[used] {
        case Bytes(bytes) =>
          EventBytesAppend(heard + stream[..used], stream[used]);
          assert heard + stream[..used] + [stream[used]] == heard + stream[..used + 1];
          DrainSplits(BytesOf(heard + stream[..used]), bytes);
          parser.PushBytes(bytes);
          used := used + 1;
        case _ =>
          return Failed(stream[used]), used;
      }
    }
  }

  /** A reader that asks for tokens until there are no more. It gets every token of the bytes it
      read, in order, and it stops reading with the piece that completes the `[DONE]` line. */
  method ReadAnswer(decode: Decoder, stream: seq<Event>) returns (tokens: seq<string>, last: Next, used: nat)
    ensures used <= |stream| && (forall i | 0 <= i < used :: stream[i].Bytes? && !Heard(decode, stream[..i]).done)
    ensures tokens == Heard(decode, stream[..used]).tokens
    ensures match last
            case Token(_) => false
            case End => used == |stream| || Heard(decode, stream[..used]).done
            case Failed(why) =>
              used < |stream| && why == stream[used] && !why.Bytes? && !Heard(decode, stream[..used]).done
  {
    hide Drain, ParseAll, LastPart;
    assert stream[..0] == [] && Drain([]) == Drained("", []) by { NothingDrains([]); }
    var parser := new DeepseekTokenParser(decode);
    tokens, last, used := [], Token(""), 0;
    while last.Token?
      invariant parser.Valid() && parser.decode == decode && fresh(parser) && fresh(parser.utf8)
      invariant used <= |stream| && (forall i | 0 <= i < used :: stream[i].Bytes? && !Heard(decode, stream[..i]).done)
      invariant tokens == parser.taken
      invariant last.Token? ==> Drained(parser.text, parser.utf8.pending) == Drain(BytesOf(stream[..used]))
      invariant !last.Token? ==> tokens == Heard(decode, stream[..used]).tokens
      invariant last.End? ==> used == |stream| || Heard(decode, stream[..used]).done
      invariant last.Failed? ==>
          used < |stream| && last.why == stream[used] && !last.why.Bytes? && !Heard(decode, stream[..used]).done
      decreases last.Token?, |stream| - used, |parser.pendingTokens|
    {
      var more;
      ghost var before := used;
      last, more := NextStreamToken(parser, stream[used..], stream[..used]);
      forall i | before <= i <= before + more
        ensures stream[..before] + stream[before..][..i - before] == stream[..i]
        ensures i < before + more ==> stream[i] == stream[before..][i - before]
      {
      }
      if last.Token? {
        tokens := tokens + [last.token];
      }
      used := used + more;
    }
  }

  /** Operations on one parser, in any order. */
  datatype Op = Push(bytes: seq<Byte>) | Pop

  function OpBytes(op: Op): seq<Byte> {
    match op
    case Push(bytes) => bytes
    case Pop => []
  }

  function PushedBytes(ops: seq<Op>): seq<Byte> {
    if ops == [] then [] else OpBytes(ops[0]) + PushedBytes(ops[1..])
  }

  /** However pushes and pops interleave and however the bytes are cut, what was popped and what is
      left make up the one-shot parse of all the bytes. */
  method Replay(decode: Decoder, ops: seq<Op>)
    returns (popped: seq<string>, left: seq<string>, done: bool, metadata: Metadata, lineBuffer: string)
    ensures var text := Drain(PushedBytes(ops)).text;
            Parsed(popped + left, done, metadata) == ParseAll(decode, text) && lineBuffer == LastPart(text)
  {
    hide Drain, ParseAll, LastPart;
    assert Drain([]) == Drained("", []) by { NothingDrains([]); }
    var parser := new DeepseekTokenParser(decode);
    popped := [];
    assert ops[..0] == [];
    for i := 0 to |ops|
      invariant parser.Valid() && parser.decode == decode && fresh(parser) && fresh(parser.utf8)
      invariant popped == parser.taken
      invariant Drained(parser.text, parser.utf8.pending) == Drain(PushedBytes(ops[..i]))
    {
      assert ops[..i] + [ops[i]] == ops[..i + 1];
      PushedBytesAppend(ops[..i], ops[i]);
      match ops[i] {
        case Push(bytes) =>
          DrainSplits(PushedBytes(ops[..i]), bytes);
          parser.PushBytes(bytes);
        case Pop =>
          assert PushedBytes(ops[..i]) + [] == PushedBytes(ops[..i]);
          var token := parser.PopToken();
          if token.Some? { popped := popped + [token.value]; }
      }
    }
    assert ops[..|ops|] == ops;
    return popped, parser.pendingTokens, parser.done, parser.metadata, parser.lineBuffer;
  }

  // ----- Lemmas -----

  lemma {:induction false} EventBytesAppend(events: seq<Event>, e: Event)
    ensures BytesOf(events + [e]) == BytesOf(events) + EventBytes(e)
  {
    hide EventBytes;
    if events == [] {
      assert [e][1..] == [] && EventBytes(e) + [] == EventBytes(e);
    } else {
      assert (events + [e])[1..] == events[1..] + [e];
      EventBytesAppend(events[1..], e);
    }
  }

  lemma {:induction false} PushedBytesAppend(ops: seq<Op>, op: Op)
    ensures PushedBytes(ops + [op]) == PushedBytes(ops) + OpBytes(op)
  {
    hide OpBytes;
    if ops == [] {
      assert [op][1..] == [] && OpBytes(op) + [] == OpBytes(op);
    } else {
      assert (ops + [op])[1..] == ops[1..] + [op];
      PushedBytesAppend(ops[1..], op);
    }
  }

  lemma {:induction false} NoNewlineNoLines(text: string, more: string)
    requires forall i | 0 <= i < |more| :: more[i] != '\n'
    ensures EndedLines(text + more) == EndedLines(text)
  {
    LinesAppend(text, more);
    var open := LastPart(text) + more;
    assert forall j | 0 <= j < |LastPart(text)| :: LastPart(text)[j] != '\n' by {
      assert '\n' !in LastPart(text);
    }
    assert NewlineAt(open) == |open|;
  }

  /** The final flush can only lengthen the open line: no line ends, so no token is lost although
      the reader stops right after it. */
  lemma FlushEndsNoLine(text: string, bytes: seq<Byte>)
    ensures EndedLines(text + Lossy(Drain(bytes).rest)) == EndedLines(text)
    ensures forall decode :: ParseAll(decode, text + Lossy(Drain(bytes).rest)) == ParseAll(decode, text)
  {
    var rest := Drain(bytes).rest;
    HeldBackIsStuck(bytes);
    LossyIsDrainedAndFlushed(rest);
    NoNewlineNoLines(text, Lossy(rest));
  }

  /** Later text only adds tokens and never takes `done` back. */
  lemma LaterTextOnlyAdds(decode: Decoder, text: string, more: string)
    ensures ParseAll(decode, text).tokens <= ParseAll(decode, text + more).tokens
    ensures ParseAll(decode, text).done ==> ParseAll(decode, text + more).done
  {
    LinesAppend(text, more);
    var later := EndedLines(LastPart(text) + more);
    WithLinesAppend(decode, NOTHING_PARSED, EndedLines(text), later);
    WithLinesSays(decode, ParseAll(decode, text), later);
  }

  lemma {:induction false} WithLinesAppend(decode: Decoder, p: Parsed, a: seq<string>, b: seq<string>)
    ensures WithLines(decode, p, a + b) == WithLines(decode, WithLines(decode, p, a), b)
    decreases |a|
  {
    if a == [] {
      assert a + b == b;
    } else {
      assert (a + b)[1..] == a[1..] + b;
      WithLinesAppend(decode, WithLine(decode, p, Trim(a[0])), a[1..], b);
    }
  }

  lemma {:induction false} WithChoicesSays(p: Parsed, choices: seq<Choice>)
    ensures var q := WithChoices(p, choices);
            && q.tokens == p.tokens + ContentsOf(choices)
            && q.done == p.done
            && q.metadata == Metadata(p.metadata.model, p.metadata.fingerprint,
                                      Or(LastFinishReason(choices), p.metadata.finishReason),
                                      p.metadata.reasoningDeltas + ReasoningDeltas(choices))
    decreases |choices|
  {
    if choices != [] {
      var c := choices[0];
      var m := p.metadata.(finishReason := Or(c.finishReason, p.metadata.finishReason),
                           reasoningDeltas := p.metadata.reasoningDeltas + if c.reasoning.Some? then 1 else 0);
      WithChoicesSays(Parsed(p.tokens + NonEmpty(c.content), p.done, m), choices[1..]);
    }
  }

  lemma {:induction false} ContentsAppend(a: seq<Choice>, b: seq<Choice>)
    ensures ContentsOf(a + b) == ContentsOf(a) + ContentsOf(b)
    ensures ReasoningDeltas(a + b) == ReasoningDeltas(a) + ReasoningDeltas(b)
    ensures LastFinishReason(a + b) == Or(LastFinishReason(b), LastFinishReason(a))
    decreases |a|
  {
    if a == [] {
      assert a + b == b;
    } else {
      assert (a + b)[1..] == a[1..] + b;
      ContentsAppend(a[1..], b);
    }
  }

  lemma {:induction false} WithLinesSays(decode: Decoder, p: Parsed, lines: seq<string>)
    ensures var q, choices := WithLines(decode, p, lines), ChoicesOf(decode, lines);
            && q.tokens == p.tokens + ContentsOf(choices)
            && (q.done <==> p.done || exists i | 0 <= i < |lines| :: EndsStream(Trim(lines[i])))
            && q.metadata == Metadata(Or(p.metadata.model, FirstModel(decode, lines)),
                                      Or(p.metadata.fingerprint, FirstFingerprint(decode, lines)),
                                      Or(LastFinishReason(choices), p.metadata.finishReason),
                                      p.metadata.reasoningDeltas + ReasoningDeltas(choices))
    decreases |lines|
  {
    hide WithLine, EndsStream, ChunkOf, Trim, ChunkChoices, ChunkModel, ChunkFingerprint;
    if lines != [] {
      var line := Trim(lines[0]);
      LineSays(decode, p, line);
      WithLinesSays(decode, WithLine(decode, p, line), lines[1..]);
      ContentsAppend(ChunkChoices(ChunkOf(decode, line)), ChoicesOf(decode, lines[1..]));
      assert forall i | 1 <= i < |lines| :: lines[i] == lines[1..][i - 1];
    }
  }

  lemma LineSays(decode: Decoder, p: Parsed, line: string)
    ensures var q, chunk := WithLine(decode, p, line), ChunkOf(decode, line);
            var choices := ChunkChoices(chunk);
            && q.tokens == p.tokens + ContentsOf(choices)
            && q.done == (p.done || EndsStream(line))
            && q.metadata == Metadata(Or(p.metadata.model, ChunkModel(chunk)),
                                      Or(p.metadata.fingerprint, ChunkFingerprint(chunk)),
                                      Or(LastFinishReason(choices), p.metadata.finishReason),
                                      p.metadata.reasoningDeltas + ReasoningDeltas(choices))
  {
    match ChunkOf(decode, line) {
      case None =>
      case Some(chunk) =>
        var m := p.metadata.(model := Or(p.metadata.model, chunk.model),
                             fingerprint := Or(p.metadata.fingerprint, chunk.fingerprint));
        WithChoicesSays(p.(metadata := m), chunk.choices);
    }
  }

  /** The tokens are the non-empty contents of all choices in order, `done` says that some line was
      `[DONE]`, model and fingerprint are the first ones sent, and the finish reason is the last. */
  lemma ParseAllSays(decode: Decoder, text: string)
    ensures var q, lines := ParseAll(decode, text), EndedLines(text);
            && q.tokens == ContentsOf(ChoicesOf(decode, lines))
            && (q.done <==> exists i | 0 <= i < |lines| :: EndsStream(Trim(lines[i])))
            && q.metadata == Metadata(FirstModel(decode, lines), FirstFingerprint(decode, lines),
                                      LastFinishReason(ChoicesOf(decode, lines)),
                                      ReasoningDeltas(ChoicesOf(decode, lines)))
  {
    WithLinesSays(decode, NOTHING_PARSED, EndedLines(text));
  }

  // ----- What the tokens say -----

  /** Everything that the choices say, in order. */
  function Spoken(choices: seq<Choice>): string {
    if choices == [] then ""
    else
      (match choices[0].content
       case Some(text) => text
       case None => "")
      + Spoken(choices[1..])
  }

  lemma {:induction false} JoinedAppends(a: seq<string>, b: seq<string>)
    ensures Joined(a + b) == Joined(a) + Joined(b)
  {
    if a == [] {
      assert a + b == b;
    } else {
      assert (a + b)[1..] == a[1..] + b;
      JoinedAppends(a[1..], b);
      assert a[0] + (Joined(a[1..]) + Joined(b)) == a[0] + Joined(a[1..]) + Joined(b);
    }
  }

  lemma {:induction false} ContentsSpeak(choices: seq<Choice>)
    ensures Joined(ContentsOf(choices)) == Spoken(choices)
    ensures "" !in ContentsOf(choices)
  {
    if choices != [] {
      ContentsSpeak(choices[1..]);
      JoinedAppends(NonEmpty(choices[0].content), ContentsOf(choices[1..]));
      assert forall text: string :: Joined([text]) == text + Joined([]) == text;
    }
  }

  /** The tokens spell exactly what the choices of the ended lines say, and none of them is empty. */
  lemma TokensSpeak(decode: Decoder, text: string)
    ensures Joined(ParseAll(decode, text).tokens) == Spoken(ChoicesOf(decode, EndedLines(text)))
    ensures "" !in ParseAll(decode, text).tokens
  {
    ParseAllSays(decode, text);
    ContentsSpeak(ChoicesOf(decode, EndedLines(text)));
  }

  lemma OneMoreLine(decode: Decoder, text: string, line: string)
    requires LastPart(text) == "" && '\n' !in line
    ensures ParseAll(decode, text + line + "\n") == WithLine(decode, ParseAll(decode, text), Trim(line))
    ensures LastPart(text + line + "\n") == ""
  {
    hide WithLine, Trim;
    assert text + line + "\n" == text + (line + "\n") && "" + (line + "\n") == line + "\n";
    LinesAppend(text, line + "\n");
    OneLine(line);
    WithLinesAppend(decode, NOTHING_PARSED, EndedLines(text), [line]);
    assert [line][1..] == [];
  }

  lemma DataLineCarries(body: string)
    requires body != "" && Trimmed(body)
    ensures Payload(Trim("data: " + body)) == Some(body)
  {
    hide Trim, IsWhitespace;
    var line := "data: " + body;
    assert line[..5] == "data:" && line[5..] == " " + body;
    assert Trim(line) == line by { DataLineIsTrimmed(body); }
    assert Trim(" " + body) == body by { SpaceIsBlank(); TrimmedStays(" ", body); }
    assert StripPrefixes(line[5..], "data:") == line[5..] by { assert line[5..][0] == ' '; }
  }

  lemma DataLineIsTrimmed(body: string)
    requires body != "" && Trimmed(body)
    ensures Trim("data: " + body) == "data: " + body
  {
    hide Trim;
    var line := "data: " + body;
    assert line[0] == 'd' && line[|line| - 1] == body[|body| - 1];
    TrimmedStays("", line);
    assert "" + line == line;
  }

  lemma SpaceIsBlank()
    ensures Blank(" ")
  {
  }

  lemma OneChoice(p: Parsed, choices: seq<Choice>)
    requires |choices| == 1
    ensures var q, c := WithChoices(p, choices), choices[0];
            && q.done == p.done && q.metadata.model == p.metadata.model
            && q.metadata.fingerprint == p.metadata.fingerprint
            && q.tokens == p.tokens + (if c.content.Some? && c.content.value != "" then [c.content.value] else [])
            && q.metadata.finishReason == (if c.finishReason.Some? then c.finishReason else p.metadata.finishReason)
            && q.metadata.reasoningDeltas == p.metadata.reasoningDeltas + if c.reasoning.Some? then 1 else 0
  {
    assert choices[1..] == [];
  }

  /** One more `data:` line, after lines that have ended: `[DONE]` ends the stream; JSON that does not
      decode changes nothing; and a chunk with one choice adds the choice's content, if there is any, as
      one token, and its metadata. */
  lemma DataLineSays(decode: Decoder, text: string, body: string)
    requires LastPart(text) == "" && body != "" && Trimmed(body) && '\n' !in body
    ensures var p, q := ParseAll(decode, text), ParseAll(decode, text + ("data: " + body) + "\n");
            && (body == "[DONE]" ==> q == p.(done := true))
            && (body != "[DONE]" && decode(body).None? ==> q == p)
            && (body != "[DONE]" && decode(body).Some? && |decode(body).value.choices| == 1 ==>
                  var chunk := decode(body).value;
                  var c := chunk.choices[0];
                  && q.done == p.done
                  && q.tokens == p.tokens + (if c.content.Some? && c.content.value != "" then [c.content.value] else [])
                  && q.metadata.model == (if p.metadata.model.Some? then p.metadata.model else chunk.model)
                  && q.metadata.fingerprint
                     == (if p.metadata.fingerprint.Some? then p.metadata.fingerprint else chunk.fingerprint)
                  && q.metadata.finishReason
                     == (if c.finishReason.Some? then c.finishReason else p.metadata.finishReason)
                  && q.metadata.reasoningDeltas == p.metadata.reasoningDeltas + if c.reasoning.Some? then 1 else 0)
  {
    hide ParseAll, Payload, Trim, WithChoices, LastPart, Trimmed;
    DataLineCarries(body);
    OneMoreLine(decode, text, "data: " + body);
    if decode(body).Some? && |decode(body).value.choices| == 1 {
      var p, chunk := ParseAll(decode, text), decode(body).value;
      var m := p.metadata.(model := Or(p.metadata.model, chunk.model),
                           fingerprint := Or(p.metadata.fingerprint, chunk.fingerprint));
      OneChoice(p.(metadata := m), chunk.choices);
    }
  }

  /** Any other line changes nothing. */
  lemma OtherLineIsIgnored(decode: Decoder, text: string, line: string)
    requires LastPart(text) == "" && '\n' !in line && !("data:" <= Trim(line))
    ensures ParseAll(decode, text + line + "\n") == ParseAll(decode, text)
  {
    OneMoreLine(decode, text, line);
    hide ParseAll, Trim;
  }

  /** An answer of one line that carries one choice is one token. */
  lemma OneLineAnswer(decode: Decoder, body: string, content: string)
    requires body != "" && Trimmed(body) && '\n' !in body && body != "[DONE]" && content != ""
    requires decode(body).Some? && |decode(body).value.choices| == 1
    requires decode(body).value.choices[0].content == Some(content)
    ensures ParseAll(decode, "data: " + body + "\n").tokens == [content]
  {
    DataLineSays(decode, "", body);
    assert "" + ("data: " + body) + "\n" == "data: " + body + "\n";
  }
}
