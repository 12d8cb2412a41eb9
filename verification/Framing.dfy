/** Newline framing of client messages, fed by polls of arbitrary size. */
module Framing {
  import opened Prelude
  import opened Text
  import opened Utf8

  /** The newline-terminated lines of s, without their newlines. */
  function Lines(s: string): seq<string>
    decreases |s|
  {
    match SplitOnce(s, '\n')
    case None => []
    case Some((line, rest)) => [line] + Lines(rest)
  }

  /** What follows the last newline. */
  function Remainder(s: string): (r: string)
    ensures '\n' !in r
    decreases |s|
  {
    match SplitOnce(s, '\n')
    case None => s
    case Some((line, rest)) => Remainder(rest)
  }

  /** The lines handed to the decoder: trimmed, blank ones dropped. */
  function Handed(lines: seq<string>): seq<string> {
    if lines == [] then []
    else (if Trim(lines[0]) == "" then [] else [Trim(lines[0])]) + Handed(lines[1..])
  }

  function Flat(chunks: seq<string>): string {
    if chunks == [] then "" else Flat(chunks[..|chunks| - 1]) + chunks[|chunks| - 1]
  }

  lemma {:induction false} HandedAppend(a: seq<string>, b: seq<string>)
    ensures Handed(a + b) == Handed(a) + Handed(b)
  {
    if a == [] {
      assert a + b == b;
    } else {
      assert (a + b)[1..] == a[1..] + b;
      HandedAppend(a[1..], b);
    }
  }

  lemma {:induction false} SplitOnceExtends(s: string, t: string, c: char)
    requires SplitOnce(s, c).Some?
    ensures SplitOnce(s + t, c) == Some((SplitOnce(s, c).value.0, SplitOnce(s, c).value.1 + t))
  {
    assert (s + t)[0] == s[0] && (s + t)[1..] == s[1..] + t;
    if s[0] != c {
      SplitOnceExtends(s[1..], t, c);
    }
  }

  /** Reading on from the remainder gives the same lines as reading everything at once. */
  lemma {:induction false} LinesResume(s: string, t: string)
    ensures Lines(s + t) == Lines(s) + Lines(Remainder(s) + t)
    ensures Remainder(s + t) == Remainder(Remainder(s) + t)
    decreases |s|
  {
    var cut := SplitOnce(s, '\n');
    if cut.Some? {
      SplitOnceExtends(s, t, '\n');
      LinesResume(cut.value.1, t);
    }
  }

  /** The lines and the remainder rebuild the text: nothing is lost or invented. */
  lemma {:induction false} LinesRebuild(s: string)
    ensures Terminated(Lines(s)) + Remainder(s) == s
    ensures forall line :: line in Lines(s) ==> '\n' !in line
    decreases |s|
  {
    var cut := SplitOnce(s, '\n');
    if cut.Some? {
      LinesRebuild(cut.value.1);
    }
  }

  function Terminated(lines: seq<string>): string {
    if lines == [] then "" else lines[0] + "\n" + Terminated(lines[1..])
  }

  // ---------- The client ----------

  datatype Decoded = ShellCommand(command: string) | Snapshot | Malformed(reason: string)

  datatype ShellEvent = Echo(command: string) | InvalidMessage(reason: string)

  /** The outcome of one non-blocking read. */
  datatype Poll = Data(chunk: Bytes) | WouldBlock | Eof | Reset | HardError

  datatype Outcome = Alive | DisconnectedGraceful | DisconnectedError

  function Commands(lines: seq<string>, decode: string -> Decoded): seq<string> {
    if lines == [] then [] else CommandOf(decode(lines[0])) + Commands(lines[1..], decode)
  }

  function Events(lines: seq<string>, decode: string -> Decoded): seq<ShellEvent> {
    if lines == [] then [] else EventOf(decode(lines[0])) + Events(lines[1..], decode)
  }

  function CommandOf(d: Decoded): seq<string> {
    if d.ShellCommand? then [d.command] else []
  }

  function EventOf(d: Decoded): seq<ShellEvent> {
    match d
    case ShellCommand(c) => [Echo(c)]
    case Snapshot => []
    case Malformed(e) => [InvalidMessage(e)]
  }

  lemma {:induction false} DecodeAppend(a: seq<string>, b: seq<string>, decode: string -> Decoded)
    ensures Commands(a + b, decode) == Commands(a, decode) + Commands(b, decode)
    ensures Events(a + b, decode) == Events(a, decode) + Events(b, decode)
  {
    if a == [] {
      assert a + b == b;
    } else {
      assert (a + b)[0] == a[0] && (a + b)[1..] == a[1..] + b;
      DecodeAppend(a[1..], b, decode);
      Regroup(CommandOf(decode(a[0])), Commands(a[1..], decode), Commands(b, decode));
      Regroup(EventOf(decode(a[0])), Events(a[1..], decode), Events(b, decode));
    }
  }

  /** The text received before the first read that delivers none; a chunk that is not
      UTF-8 by itself delivers none. */
  function Received(polls: seq<Poll>): string {
    if polls != [] && polls[0].Data? && Decode(polls[0].chunk).Some?
    then Decode(polls[0].chunk).value + Received(polls[1..]) else ""
  }

  /** How a drain over these polls ends; running out of polls is like WouldBlock. */
  function Ending(polls: seq<Poll>): Outcome {
    if polls == [] then Alive
    else if polls[0].Data? && Decode(polls[0].chunk).Some? then Ending(polls[1..]) else Stop(polls[0])
  }

  /** The outcome of a read that delivers no text. */
  function Stop(poll: Poll): Outcome {
    match poll
    case Data(_) => DisconnectedError
    case WouldBlock => Alive
    case Eof => DisconnectedGraceful
    case Reset => DisconnectedGraceful
    case HardError => DisconnectedError
  }

  /** A drain goes on through text, and ends with the first read that delivers none: the
      client stays if there was nothing to read, leaves gracefully at the end of the stream
      or a reset, and with an error after any other failure or text that is not UTF-8. */
  lemma {:induction false} EndingIs(polls: seq<Poll>, n: nat)
    requires n <= |polls| && forall i :: 0 <= i < n ==> polls[i].Data? && Decode(polls[i].chunk).Some?
    requires n < |polls| ==> !(polls[n].Data? && Decode(polls[n].chunk).Some?)
    ensures Ending(polls) == Alive <==> n == |polls| || polls[n].WouldBlock?
    ensures Ending(polls) == DisconnectedGraceful <==> n < |polls| && (polls[n].Eof? || polls[n].Reset?)
    ensures Ending(polls) == DisconnectedError <==> n < |polls| && (polls[n].Data? || polls[n].HardError?)
  {
    if n > 0 {
      EndingIs(polls[1..], n - 1);
    }
  }

  lemma LinesStep(taken: seq<string>, buf: string)
    requires SplitOnce(buf, '\n').Some?
    ensures var (raw, rest) := SplitOnce(buf, '\n').value;
            taken + Lines(buf) == taken + [raw] + Lines(rest) && Remainder(buf) == Remainder(rest)
  {
    var (raw, rest) := SplitOnce(buf, '\n').value;
    assert taken + ([raw] + Lines(rest)) == taken + [raw] + Lines(rest);
  }

  lemma TakeStep(taken: seq<string>, raw: string, decode: string -> Decoded)
    ensures Commands(Handed(taken + [raw]), decode) == Commands(Handed(taken), decode) +
            if Trim(raw) != "" && decode(Trim(raw)).ShellCommand? then [decode(Trim(raw)).command] else []
    ensures Events(Handed(taken + [raw]), decode) == Events(Handed(taken), decode) +
            if Trim(raw) == "" || decode(Trim(raw)).Snapshot? then []
            else if decode(Trim(raw)).ShellCommand? then [Echo(decode(Trim(raw)).command)]
            else [InvalidMessage(decode(Trim(raw)).reason)]
  {
    HandedAppend(taken, [raw]);
    assert [raw][1..] == [];
    if Trim(raw) != "" {
      var line := Trim(raw);
      assert Handed([raw]) == [line] && [line][1..] == [];
      DecodeAppend(Handed(taken), [line], decode);
    } else {
      assert Handed([raw]) == [];
      assert Handed(taken) + [] == Handed(taken);
    }
  }

  /** Taking the lines of the remainder + chunk after those of text is taking those of
      text + chunk. */
  lemma ChunkStep(text: string, chunk: string, decode: string -> Decoded)
    ensures Remainder(Remainder(text) + chunk) == Remainder(text + chunk)
    ensures Commands(Handed(Lines(text + chunk)), decode)
            == Commands(Handed(Lines(text)), decode) + Commands(Handed(Lines(Remainder(text) + chunk)), decode)
    ensures Events(Handed(Lines(text + chunk)), decode)
            == Events(Handed(Lines(text)), decode) + Events(Handed(Lines(Remainder(text) + chunk)), decode)
  {
    LinesResume(text, chunk);
    HandedAppend(Lines(text), Lines(Remainder(text) + chunk));
    DecodeAppend(Handed(Lines(text)), Handed(Lines(Remainder(text) + chunk)), decode);
  }

  lemma RegroupTo<T>(base: seq<T>, a: seq<T>, b: seq<T>, c: seq<T>)
    requires c == a + b
    ensures base + a + b == base + c
  {}

  lemma PollStep(got: string, polls: seq<Poll>, i: nat)
    requires i < |polls| && polls[i].Data? && Decode(polls[i].chunk).Some?
    ensures got + Received(polls[i..]) == got + Decode(polls[i].chunk).value + Received(polls[i + 1..])
    ensures Ending(polls[i..]) == Ending(polls[i + 1..])
  {
    assert polls[i..][0] == polls[i] && polls[i..][1..] == polls[i + 1..];
    var chunk := Decode(polls[i].chunk).value;
    assert got + (chunk + Received(polls[i + 1..])) == got + chunk + Received(polls[i + 1..]);
  }

  lemma PollEnds(got: string, polls: seq<Poll>, i: nat)
    requires i < |polls| && !(polls[i].Data? && Decode(polls[i].chunk).Some?)
    ensures got + Received(polls[i..]) == got && Ending(polls[i..]) == Stop(polls[i])
  {
    assert polls[i..][0] == polls[i];
    assert got + "" == got;
  }

  /** Decode one line, unless it is blank. */
  method HandleLine(ghost taken: seq<string>, raw: string, decode: string -> Decoded, events: seq<ShellEvent>,
                    commands: seq<string>)
      returns (events': seq<ShellEvent>, commands': seq<string>)
    ensures forall base :: commands == base + Commands(Handed(taken), decode) ==>
      commands' == base + Commands(Handed(taken + [raw]), decode)
    ensures forall base :: events == base + Events(Handed(taken), decode) ==>
      events' == base + Events(Handed(taken + [raw]), decode)
  {
    TakeStep(taken, raw, decode);
    events', commands' := events, commands;
    var line := Trim(raw);
    if line != "" {
      match decode(line) {
        case ShellCommand(command) =>
          events' := events' + [Echo(command)];
          commands' := commands' + [command];
        case Snapshot =>
        case Malformed(reason) =>
          events' := events' + [InvalidMessage(reason)];
      }
    }
  }

  class Client {
    var rxBuf: string

    constructor ()
      ensures rxBuf == ""
    {
      rxBuf := "";
    }

    /** Take complete lines off the buffer and decode them. */
    method TakeLines(decode: string -> Decoded, events: seq<ShellEvent>, commands: seq<string>)
        returns (events': seq<ShellEvent>, commands': seq<string>)
      modifies this
      ensures rxBuf == Remainder(old(rxBuf))
      ensures commands' == commands + Commands(Handed(Lines(old(rxBuf))), decode)
      ensures events' == events + Events(Handed(Lines(old(rxBuf))), decode)
    {
      events', commands' := events, commands;
      ghost var taken: seq<string> := [];
      while '\n' in rxBuf
        invariant Lines(old(rxBuf)) == taken + Lines(rxBuf) && Remainder(old(rxBuf)) == Remainder(rxBuf)
        invariant commands' == commands + Commands(Handed(taken), decode)
        invariant events' == events + Events(Handed(taken), decode)
        decreases |rxBuf|
      {
        LinesStep(taken, rxBuf);
        var (raw, rest) := SplitOnce(rxBuf, '\n').value;
        rxBuf := rest;
        events', commands' := HandleLine(taken, raw, decode, events', commands');
        taken := taken + [raw];
      }
      assert SplitOnce(rxBuf, '\n').None?;
      assert taken + [] == taken;
    }

    /** Append one chunk to the buffer and take its lines: after the lines of text come those
        of text + chunk. */
    method TakeChunk(ghost text: string, chunk: string, decode: string -> Decoded, events: seq<ShellEvent>,
                     commands: seq<string>,
                     ghost events0: seq<ShellEvent>, ghost commands0: seq<string>)
        returns (events': seq<ShellEvent>, commands': seq<string>)
      requires rxBuf == Remainder(text)
      requires commands == commands0 + Commands(Handed(Lines(text)), decode)
      requires events == events0 + Events(Handed(Lines(text)), decode)
      modifies this
      ensures rxBuf == Remainder(text + chunk)
      ensures commands' == commands0 + Commands(Handed(Lines(text + chunk)), decode)
      ensures events' == events0 + Events(Handed(Lines(text + chunk)), decode)
    {
      ChunkStep(text, chunk, decode);
      ghost var more := Handed(Lines(rxBuf + chunk));
      RegroupTo(commands0, Commands(Handed(Lines(text)), decode), Commands(more, decode),
                Commands(Handed(Lines(text + chunk)), decode));
      RegroupTo(events0, Events(Handed(Lines(text)), decode), Events(more, decode),
                Events(Handed(Lines(text + chunk)), decode));
      rxBuf := rxBuf + chunk;
      events', commands' := TakeLines(decode, events, commands);
    }

    /** Drain the socket: what is decoded and what stays buffered depends only on the text
        received, and how the drain ends on the first read without data. */
    method Drain(polls: seq<Poll>, decode: string -> Decoded, events: seq<ShellEvent>, commands: seq<string>)
        returns (outcome: Outcome, events': seq<ShellEvent>, commands': seq<string>)
      requires '\n' !in rxBuf
      modifies this
      ensures outcome == Ending(polls)
      ensures '\n' !in rxBuf && rxBuf == Remainder(old(rxBuf) + Received(polls))
      ensures commands' == commands + Commands(Handed(Lines(old(rxBuf) + Received(polls))), decode)
      ensures events' == events + Events(Handed(Lines(old(rxBuf) + Received(polls))), decode)
    {
      events', commands' := events, commands;
      ghost var start, got := rxBuf, "";
      NoNewline(start);
      var i := 0;
      assert start + got == start && polls[0..] == polls;
      while i < |polls|
        invariant 0 <= i <= |polls|
        invariant Received(polls) == got + Received(polls[i..]) && Ending(polls) == Ending(polls[i..])
        invariant rxBuf == Remainder(start + got)
        invariant commands' == commands + Commands(Handed(Lines(start + got)), decode)
        invariant events' == events + Events(Handed(Lines(start + got)), decode)
      {
        if polls[i].Data? && Decode(polls[i].chunk).Some? {
          var chunk := Decode(polls[i].chunk).value;
          PollStep(got, polls, i);
          RegroupTo(start, got, chunk, got + chunk);
          events', commands' := TakeChunk(start + got, chunk, decode, events', commands', events, commands);
          got := got + chunk;
        } else {
          PollEnds(got, polls, i);
          return Stop(polls[i]), events', commands';
        }
        i := i + 1;
      }
      assert got + "" == got;
      assert polls[i..] == [];
      return Alive, events', commands';
    }
  }

  lemma NoNewline(s: string)
    requires '\n' !in s
    ensures Lines(s) == [] && Remainder(s) == s
  {
    assert SplitOnce(s, '\n').None?;
  }

  // ---------- Chunk independence ----------

  /** The lines handed over and the buffer after feeding the chunks one by one. */
  function Feed(chunks: seq<string>): (seq<string>, string) {
    if chunks == [] then ([], "")
    else
      var (lines, buf) := Feed(chunks[..|chunks| - 1]);
      var text := buf + chunks[|chunks| - 1];
      (lines + Handed(Lines(text)), Remainder(text))
  }

  /** For every way of cutting a text into chunks, the lines handed over are the non-blank
      trimmed lines of the whole text and the buffer is what follows its last newline. */
  lemma {:induction false} FeedIsChunkIndependent(chunks: seq<string>)
    ensures Feed(chunks) == (Handed(Lines(Flat(chunks))), Remainder(Flat(chunks)))
  {
    if chunks == [] {
      NoNewline("");
    } else {
      var front, last := chunks[..|chunks| - 1], chunks[|chunks| - 1];
      FeedIsChunkIndependent(front);
      LinesResume(Flat(front), last);
      HandedAppend(Lines(Flat(front)), Lines(Remainder(Flat(front)) + last));
    }
  }

  /** Over bytes: however the encoding of a text is cut into chunks, if every chunk decodes
      by itself then the lines and the buffer are those of the text. */
  lemma ByteChunks(text: string, chunks: seq<Bytes>, decoded: seq<string>)
    requires |decoded| == |chunks| && FlatBytes(chunks) == Encode(text)
    requires forall i :: 0 <= i < |chunks| ==> Decode(chunks[i]) == Some(decoded[i])
    ensures Feed(decoded) == (Handed(Lines(text)), Remainder(text))
  {
    FlatDecodes(chunks, decoded);
    DecodeEncode(text);
    DecodeEncode(Flat(decoded));
    FeedIsChunkIndependent(decoded);
  }

  function FlatBytes(chunks: seq<Bytes>): Bytes {
    if chunks == [] then [] else FlatBytes(chunks[..|chunks| - 1]) + chunks[|chunks| - 1]
  }

  lemma {:induction false} FlatDecodes(chunks: seq<Bytes>, decoded: seq<string>)
    requires |decoded| == |chunks|
    requires forall i :: 0 <= i < |chunks| ==> Decode(chunks[i]) == Some(decoded[i])
    ensures Encode(Flat(decoded)) == FlatBytes(chunks)
  {
    if chunks != [] {
      var n := |chunks| - 1;
      FlatDecodes(chunks[..n], decoded[..n]);
      EncodeDecode(chunks[n]);
      EncodeAppend(Flat(decoded[..n]), decoded[n]);
    }
  }

  // ---------- A stream of ASCII ----------

  function Reads(chunks: seq<Bytes>): seq<Poll> {
    seq(|chunks|, i requires 0 <= i < |chunks| => Data(chunks[i]))
  }

  lemma {:induction false} FlatBytesHead(chunks: seq<Bytes>)
    requires chunks != []
    ensures FlatBytes(chunks) == chunks[0] + FlatBytes(chunks[1..])
  {
    var n := |chunks| - 1;
    if n == 0 {
      assert chunks[..0] == [] && chunks[1..] == [];
      assert [] + chunks[0] == chunks[0] + [];
    } else {
      FlatBytesHead(chunks[..n]);
      assert chunks[..n][1..] == chunks[1..][..n - 1];
      Regroup(chunks[0], FlatBytes(chunks[1..][..n - 1]), chunks[n]);
    }
  }

  lemma {:induction false} ReceivesAll(chunks: seq<Bytes>)
    requires forall i :: 0 <= i < |chunks| ==> Decode(chunks[i]).Some?
    ensures Encode(Received(Reads(chunks))) == FlatBytes(chunks) && Ending(Reads(chunks)) == Alive
  {
    if chunks != [] {
      assert Reads(chunks)[1..] == Reads(chunks[1..]);
      ReceivesAll(chunks[1..]);
      FlatBytesHead(chunks);
      EncodeDecode(chunks[0]);
      EncodeAppend(Decode(chunks[0]).value, Received(Reads(chunks[1..])));
    }
  }

  lemma {:induction false} ChunkOfAscii(chunks: seq<Bytes>, i: nat)
    requires i < |chunks| && forall x :: x in FlatBytes(chunks) ==> x < 0x80
    ensures Decode(chunks[i]).Some?
  {
    var n := |chunks| - 1;
    assert forall x :: x in FlatBytes(chunks[..n]) || x in chunks[n] ==> x in FlatBytes(chunks);
    if i == n {
      AsciiBytes(chunks[n]);
    } else {
      ChunkOfAscii(chunks[..n], i);
    }
  }

  /** For every way of cutting an ASCII stream into reads, a drain receives all of it: with
      Drain's contract, commands, events and buffer are those of the whole stream. */
  lemma AsciiStream(text: string, chunks: seq<Bytes>)
    requires Ascii(text) && FlatBytes(chunks) == Encode(text)
    ensures Received(Reads(chunks)) == text && Ending(Reads(chunks)) == Alive
  {
    AsciiEncodes(text);
    forall i | 0 <= i < |chunks| ensures Decode(chunks[i]).Some? {
      ChunkOfAscii(chunks, i);
    }
    ReceivesAll(chunks);
    DecodeEncode(text);
    DecodeEncode(Received(Reads(chunks)));
  }
}
