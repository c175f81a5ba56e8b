/** Log lines as server-sent events: the server's framing writer and the client's reading loop. A char stands for
    one byte. */
module SseStream {

  /** Position of the first newline, or -1. */
  function FirstNewline(s: string): (i: int)
    ensures -1 <= i < |s|
  {
    if s == [] then -1
    else if s[0] == '\n' then 0
    else
      var i := FirstNewline(s[1..]);
      if i < 0 then -1 else i + 1
  }

  lemma {:induction false} FirstNewlineIs(s: string, i: int)
    requires -1 <= i < |s| && (i >= 0 ==> s[i] == '\n')
    requires forall j :: 0 <= j < (if i < 0 then |s| else i) ==> s[j] != '\n'
    ensures FirstNewline(s) == i
  {
    if s == [] || i == 0 {
    } else {
      FirstNewlineIs(s[1..], if i < 0 then -1 else i - 1);
    }
  }

  lemma {:induction false} FirstNewlineFinds(s: string)
    ensures var i := FirstNewline(s);
            (i >= 0 ==> s[i] == '\n') && forall j :: 0 <= j < (if i < 0 then |s| else i) ==> s[j] != '\n'
  {
    if s == [] || s[0] == '\n' {
    } else {
      FirstNewlineFinds(s[1..]);
      var i := FirstNewline(s);
      forall j | 0 <= j < (if i < 0 then |s| else i) ensures s[j] != '\n' {
        assert j > 0 ==> s[1..][j - 1] == s[j];
      }
    }
  }

  predicate Terminated(s: string) {
    FirstNewline(s) >= 0
  }

  /** The newline-terminated lines of a stream, without their newlines. */
  function Lines(s: string): seq<string>
    decreases |s|
  {
    var i := FirstNewline(s);
    if i < 0 then [] else [s[..i]] + Lines(s[i + 1..])
  }

  /** What follows the last newline. */
  function Tail(s: string): string
    decreases |s|
  {
    var i := FirstNewline(s);
    if i < 0 then s else Tail(s[i + 1..])
  }

  /** strings.ReplaceAll(s, "\r", "") then strings.ReplaceAll(s, "\n", " "). */
  function Escape(s: string): string {
    if s == [] then []
    else if s[0] == '\r' then Escape(s[1..])
    else [if s[0] == '\n' then ' ' else s[0]] + Escape(s[1..])
  }

  function Frame(line: string): string {
    "data: " + Escape(line) + "\n\n"
  }

  function Frames(lines: seq<string>): string {
    if lines == [] then "" else Frame(lines[0]) + Frames(lines[1..])
  }

  // ---- the writer ----

  class LineWriter {
    var buf: string
    var out: string

    constructor ()
      ensures buf == "" && out == ""
    {
      buf, out := "", "";
    }

    method IndexNewline() returns (i: int)
      ensures i == FirstNewline(buf)
    {
      for k := 0 to |buf|
        invariant forall j :: 0 <= j < k ==> buf[j] != '\n'
      {
        if buf[k] == '\n' {
          FirstNewlineIs(buf, k);
          return k;
        }
      }
      FirstNewlineIs(buf, -1);
      return -1;
    }

    method Write(p: string) returns (n: nat)
      modifies this
      ensures n == |p|
      ensures out == old(out) + Frames(Lines(old(buf) + p))
      ensures buf == Tail(old(buf) + p)
    {
      buf := buf + p;
      ghost var all, start := buf, out;
      while true
        invariant out + Frames(Lines(buf)) == start + Frames(Lines(all))
        invariant Tail(buf) == Tail(all)
        decreases |buf|
      {
        var i := IndexNewline();
        if i < 0 {
          break;
        }
        var line := buf[..i];
        LinesCons(buf, i);
        FramesCons(line, Lines(buf[i + 1..]));
        Associative(out, Frame(line), Frames(Lines(buf[i + 1..])));
        buf := buf[i + 1..];
        out := out + Frame(line);
      }
      return |p|;
    }
  }

  lemma FramesCons(line: string, lines: seq<string>)
    ensures Frames([line] + lines) == Frame(line) + Frames(lines)
  {
    assert ([line] + lines)[1..] == lines;
  }

  lemma LinesCons(s: string, i: nat)
    requires Terminated(s) && i == FirstNewline(s)
    ensures Lines(s) == [s[..i]] + Lines(s[i + 1..]) && Tail(s) == Tail(s[i + 1..])
  {
  }

  lemma NothingFirst<T>(x: seq<T>)
    ensures [] + x == x
  {
  }

  lemma Associative<T>(x: seq<T>, y: seq<T>, z: seq<T>)
    ensures x + (y + z) == (x + y) + z
  {
  }

  // ---- cutting the stream into writes does not matter ----

  lemma FirstNewlineAppend(a: string, b: string)
    requires Terminated(a)
    ensures FirstNewline(a + b) == FirstNewline(a)
  {
    FirstNewlineFinds(a);
    FirstNewlineIs(a + b, FirstNewline(a));
  }

  lemma {:induction false} LinesSplit(a: string, b: string)
    ensures Lines(a + b) == Lines(a) + Lines(Tail(a) + b)
    ensures Tail(a + b) == Tail(Tail(a) + b)
    decreases |a|
  {
    if !Terminated(a) {
      NothingFirst(Lines(a + b));
    } else {
      var i := FirstNewline(a);
      FirstNewlineAppend(a, b);
      var rest := a[i + 1..];
      assert (a + b)[..i] == a[..i] && (a + b)[i + 1..] == rest + b;
      LinesSplit(rest, b);
      LinesCons(a, i);
      LinesCons(a + b, i);
      Associative([a[..i]], Lines(rest), Lines(Tail(rest) + b));
    }
  }

  lemma {:induction false} TailHasNoNewline(s: string)
    ensures '\n' !in Tail(s)
    decreases |s|
  {
    FirstNewlineFinds(s);
    if Terminated(s) {
      TailHasNoNewline(s[FirstNewline(s) + 1..]);
    }
  }

  lemma {:induction false} LinesHaveNoNewline(s: string)
    ensures forall line :: line in Lines(s) ==> '\n' !in line
    decreases |s|
  {
    FirstNewlineFinds(s);
    if Terminated(s) {
      LinesHaveNoNewline(s[FirstNewline(s) + 1..]);
    }
  }

  lemma {:induction false} FramesConcat(a: seq<string>, b: seq<string>)
    ensures Frames(a + b) == Frames(a) + Frames(b)
  {
    if a == [] {
      assert a + b == b;
    } else {
      var first, rest := a[0], a[1..];
      FramesConcat(rest, b);
      FramesCons(first, rest + b);
      FramesCons(first, rest);
      Associative(Frame(first), Frames(rest), Frames(b));
      assert a == [first] + rest && a + b == [first] + (rest + b);
    }
  }

  function Flatten(chunks: seq<string>): string {
    if chunks == [] then "" else Flatten(chunks[..|chunks| - 1]) + chunks[|chunks| - 1]
  }

  /** Emitted bytes and buffer after a sequence of writes, each as the writer's contract says. */
  function AfterWrites(chunks: seq<string>): (string, string) {
    if chunks == [] then ("", "")
    else
      var (out, buf) := AfterWrites(chunks[..|chunks| - 1]);
      var all := buf + chunks[|chunks| - 1];
      (out + Frames(Lines(all)), Tail(all))
  }

  /** However a log is cut into writes, the same bytes are emitted and the same unterminated tail stays buffered. */
  lemma {:induction false} ChunkingIsInvisible(chunks: seq<string>)
    ensures AfterWrites(chunks) == (Frames(Lines(Flatten(chunks))), Tail(Flatten(chunks)))
    ensures '\n' !in AfterWrites(chunks).1
  {
    if chunks == [] {
    } else {
      var front, last := chunks[..|chunks| - 1], chunks[|chunks| - 1];
      ChunkingIsInvisible(front);
      LinesSplit(Flatten(front), last);
      FramesConcat(Lines(Flatten(front)), Lines(Tail(Flatten(front)) + last));
    }
    TailHasNoNewline(Flatten(chunks));
  }

  // ---- the reader ----

  /** The scanner's buffer: a line and its newline must fit. */
  const MAX_TOKEN := 0x10_0000

  function DropCR(s: string): string {
    if s != [] && s[|s| - 1] == '\r' then s[..|s| - 1] else s
  }

  function Payload(line: string): string
    requires "data:" <= line
  {
    var rest := line[5..];
    if rest != [] && rest[0] == ' ' then rest[1..] else rest
  }

  /** The payload of one scanned line, if it is a data line. */
  function Handle(line: string): seq<string> {
    if "data:" <= line then [Payload(line)] else []
  }

  /** The scanner splits at newlines, drops one trailing carriage return, yields an unterminated last line, and stops
      with an error (false) at a line that does not fit its buffer. */
  function Read(s: string): (seq<string>, bool)
    decreases |s|
  {
    if Terminated(s) then
      var i := FirstNewline(s);
      if i >= MAX_TOKEN then ([], false)
      else
        var (rest, ok) := Read(s[i + 1..]);
        (Handle(DropCR(s[..i])) + rest, ok)
    else if |s| >= MAX_TOKEN then ([], false)
    else if s == [] then ([], true)
    else (Handle(DropCR(s)), true)
  }

  /** Where the scanner's next line ends, or the end of what is left. */
  function LineEnd(s: string): (end: nat)
    ensures end <= |s|
  {
    if Terminated(s) then FirstNewline(s) else |s|
  }

  function AfterLine(s: string): (rest: string)
    ensures s != "" ==> |rest| < |s|
  {
    if Terminated(s) then s[FirstNewline(s) + 1..] else ""
  }

  /** One round of the reading loop: what it adds to what was received, and what is left to read. */
  lemma ReadRound(received: seq<string>, s: string)
    requires s != ""
    ensures LineEnd(s) >= MAX_TOKEN ==> Read(s) == ([], false)
    ensures LineEnd(s) < MAX_TOKEN ==>
              && received + Read(s).0 == (received + Handle(DropCR(s[..LineEnd(s)]))) + Read(AfterLine(s)).0
              && Read(s).1 == Read(AfterLine(s)).1
  {
    if LineEnd(s) < MAX_TOKEN && !Terminated(s) {
      assert s[..|s|] == s;
    }
  }

  /** The client's loop: one scanned line at a time, calling back for data lines. */
  method Stream(body: string) returns (received: seq<string>, ok: bool)
    ensures received == Read(body).0 && ok == Read(body).1
  {
    received := [];
    var rest := body;
    while rest != ""
      invariant received + Read(rest).0 == Read(body).0 && Read(rest).1 == Read(body).1
      decreases |rest|
    {
      ReadRound(received, rest);
      if LineEnd(rest) >= MAX_TOKEN {
        return received, false;
      }
      var line := DropCR(rest[..LineEnd(rest)]);
      received := received + Handle(line);
      rest := AfterLine(rest);
    }
    return received, true;
  }

  /** A log line as the client can see it: without its carriage returns. */
  function StripCR(s: string): string {
    if s == [] then [] else (if s[0] == '\r' then [] else [s[0]]) + StripCR(s[1..])
  }

  /** Escaping removes the carriage returns and turns newlines into spaces, and nothing else. */
  lemma {:induction false} EscapeIs(s: string)
    ensures |Escape(s)| == |StripCR(s)| && '\n' !in Escape(s) && '\r' !in Escape(s)
    ensures forall k :: 0 <= k < |Escape(s)| ==>
              Escape(s)[k] == if StripCR(s)[k] == '\n' then ' ' else StripCR(s)[k]
    ensures '\n' !in s ==> '\n' !in StripCR(s)
  {
    if s == [] {
    } else {
      assert s == [s[0]] + s[1..];
      EscapeIs(s[1..]);
    }
  }

  lemma EscapeIsStripCR(line: string)
    requires '\n' !in line
    ensures Escape(line) == StripCR(line)
    ensures '\n' !in Escape(line) && '\r' !in Escape(line)
  {
    EscapeIs(line);
    assert forall k :: 0 <= k < |StripCR(line)| ==> StripCR(line)[k] in StripCR(line);
  }

  lemma FirstNewlineOf(line: string, rest: string)
    requires '\n' !in line
    ensures Terminated(line + "\n" + rest) && FirstNewline(line + "\n" + rest) == |line|
    ensures (line + "\n" + rest)[..|line|] == line && (line + "\n" + rest)[|line| + 1..] == rest
  {
    var s := line + "\n" + rest;
    assert s[|line|] == '\n';
    forall j | 0 <= j < |line| ensures s[j] != '\n' {
      assert s[j] == line[j] && line[j] in line;
    }
    FirstNewlineIs(s, |line|);
  }

  /** With its field name, colon and space the line is shorter than the scanner's buffer. */
  predicate Fits(line: string) {
    |StripCR(line)| + 6 < 0x10_0000
  }

  lemma ReadLine(line: string, rest: string)
    requires '\n' !in line
    ensures Read(line + "\n" + rest)
            == if |line| >= MAX_TOKEN then ([], false) else (Handle(DropCR(line)) + Read(rest).0, Read(rest).1)
  {
    FirstNewlineOf(line, rest);
  }

  lemma HandleData(payload: string)
    requires '\r' !in payload
    ensures Handle(DropCR("data: " + payload)) == [payload]
  {
    var text := "data: " + payload;
    assert text[|text| - 1] != '\r' by {
      if payload != [] { assert text[|text| - 1] == payload[|payload| - 1]; }
    }
    assert text[5..] == [' '] + payload && ([' '] + payload)[1..] == payload;
  }

  /** A line that ends in a carriage return and a newline reads like one that ends in a newline. */
  lemma CRLFReadsAsLF(line: string, rest: string)
    requires '\n' !in line && |line| + 1 < MAX_TOKEN && (line == "" || line[|line| - 1] != '\r')
    ensures Read(line + "\r\n" + rest) == Read(line + "\n" + rest)
  {
    var ended := line + "\r";
    assert line + "\r\n" + rest == ended + "\n" + rest;
    ReadLine(ended, rest);
    ReadLine(line, rest);
    assert ended[..|line|] == line;
  }

  lemma HandleBare(payload: string)
    requires '\r' !in payload && (payload == "" || payload[0] != ' ')
    ensures Handle(DropCR("data:" + payload)) == [payload]
  {
    var text := "data:" + payload;
    assert text[|text| - 1] != '\r' by {
      if payload != [] { assert text[|text| - 1] == payload[|payload| - 1]; }
    }
    assert text[5..] == payload;
  }

  /** The space after the colon is optional, and no more than one is dropped. */
  lemma SpaceIsOptional(payload: string, rest: string)
    requires '\n' !in payload && '\r' !in payload && |payload| + 6 < MAX_TOKEN
    ensures Read("data: " + payload + "\n" + rest) == ([payload] + Read(rest).0, Read(rest).1)
    ensures payload == "" || payload[0] != ' ' ==>
              Read("data:" + payload + "\n" + rest) == Read("data: " + payload + "\n" + rest)
  {
    ReadLine("data: " + payload, rest);
    HandleData(payload);
    if payload == "" || payload[0] != ' ' {
      ReadLine("data:" + payload, rest);
      HandleBare(payload);
    }
  }

  /** One frame yields its line, if it fits. */
  lemma ReadFrame(line: string, rest: string)
    requires '\n' !in line
    ensures Read(Frame(line) + rest)
            == if Fits(line) then ([StripCR(line)] + Read(rest).0, Read(rest).1) else ([], false)
  {
    EscapeIsStripCR(line);
    var text := "data: " + Escape(line);
    assert Frame(line) + rest == text + "\n" + ("\n" + rest);
    ReadLine(text, "\n" + rest);
    HandleData(Escape(line));
    assert "\n" + rest == "" + "\n" + rest;
    ReadLine("", rest);
    assert [] + Read(rest).0 == Read(rest).0;
  }

  function Stripped(lines: seq<string>): seq<string> {
    if lines == [] then [] else [StripCR(lines[0])] + Stripped(lines[1..])
  }

  predicate AllFit(lines: seq<string>) {
    forall k :: 0 <= k < |lines| ==> Fits(lines[k])
  }

  lemma {:induction false} ReadFrames(lines: seq<string>)
    requires forall k :: 0 <= k < |lines| ==> '\n' !in lines[k]
    ensures Read(Frames(lines)).1 <==> AllFit(lines)
    ensures AllFit(lines) ==> Read(Frames(lines)).0 == Stripped(lines)
  {
    if lines == [] {
    } else {
      var rest := lines[1..];
      ReadFrame(lines[0], Frames(rest));
      ReadFrames(rest);
      AllFitCons(lines);
      assert Stripped(lines) == [StripCR(lines[0])] + Stripped(rest);
    }
  }

  /** The first line that does not fit ends the reading there. */
  lemma {:induction false} ReadUpTo(lines: seq<string>, n: nat)
    requires forall k :: 0 <= k < |lines| ==> '\n' !in lines[k]
    requires n < |lines| && AllFit(lines[..n]) && !Fits(lines[n])
    ensures Read(Frames(lines)) == (Stripped(lines[..n]), false)
  {
    var rest := lines[1..];
    ReadFrame(lines[0], Frames(rest));
    if n == 0 {
      assert lines[..0] == [];
    } else {
      assert lines[..n][0] == lines[0] && lines[..n][1..] == rest[..n - 1] && rest[n - 1] == lines[n];
      AllFitCons(lines[..n]);
      ReadUpTo(rest, n - 1);
    }
  }

  lemma AllFitCons(lines: seq<string>)
    requires lines != []
    ensures AllFit(lines) <==> Fits(lines[0]) && AllFit(lines[1..])
  {
    if Fits(lines[0]) && AllFit(lines[1..]) {
      forall k | 0 <= k < |lines| ensures Fits(lines[k]) {
        if k > 0 { assert lines[1..][k - 1] == lines[k]; }
      }
    }
  }

  /** End to end, for every log and every way of cutting it into writes: the client gets the complete lines, carriage
      returns removed, in order. It gets all of them exactly when each one, framed, fits the scanner's buffer;
      otherwise it gets those before the first that does not. */
  lemma EndToEnd(chunks: seq<string>)
    ensures var (out, _) := AfterWrites(chunks);
            var lines := Lines(Flatten(chunks));
            && (Read(out).1 <==> AllFit(lines))
            && (AllFit(lines) ==> Read(out).0 == Stripped(lines))
            && (forall n :: 0 <= n < |lines| && AllFit(lines[..n]) && !Fits(lines[n]) ==>
                  Read(out) == (Stripped(lines[..n]), false))
  {
    ChunkingIsInvisible(chunks);
    var lines := Lines(Flatten(chunks));
    LinesHaveNoNewline(Flatten(chunks));
    forall k | 0 <= k < |lines| ensures '\n' !in lines[k] {
      assert lines[k] in lines;
    }
    ReadFrames(lines);
    forall n | 0 <= n < |lines| && AllFit(lines[..n]) && !Fits(lines[n])
      ensures Read(Frames(lines)) == (Stripped(lines[..n]), false)
    {
      ReadUpTo(lines, n);
    }
  }

  /** A line that is not a data line, such as an event name, is skipped. */
  lemma ReadSkips(line: string, rest: string)
    requires '\n' !in line && '\r' !in line && !("data:" <= line) && |line| < MAX_TOKEN
    ensures Read(line + "\n" + rest) == Read(rest)
  {
    ReadLine(line, rest);
    assert DropCR(line) == line by { if line != [] { assert line[|line| - 1] in line; } }
    assert [] + Read(rest).0 == Read(rest).0;
  }

  /** The event that ends a failed stream, `event: error` with a data line, reaches the client as if that data line
      had been a line of the log: for any event name and text the two streams read the same. */
  lemma ErrorEventLooksLikeALine(name: string, text: string)
    requires '\n' !in name && '\r' !in name && !("data:" <= name) && |name| < MAX_TOKEN
    ensures Read(name + "\n" + Frame(text)) == Read(Frame(text))
  {
    ReadSkips(name, Frame(text));
  }
}
