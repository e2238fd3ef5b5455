/** The generic TCP file server (port 8080, file data.txt): one command per
    connection, `READ` streams the numbered lines of the file, `WRITE:<text>`
    appends one line. Every element of a reply sequence is one line the server
    sends, each terminated by "\n" on the wire. */
module FileServer {
  import opened Text
  import opened TextFile

  datatype Command = Read | Write(content: string) | Unknown

  /** The file access that throws during one connection, if any: the append
      of a WRITE with its exception message, or the StreamReader of a READ
      after `linesRead` lines have been read (0 when opening the file fails). */
  datatype Fault = NoFault | AppendFails(message: string) | ReaderFails(linesRead: nat)

  const SampleLines: seq<string> := [
    "Это первая строка файла",
    "Вторая строка содержит важную информацию",
    "Третья строка для тестирования TCP передачи",
    "Четвертая строка с секретными данными: password123",
    "Пятая строка завершает наш тестовый файл"
  ]

  const ReadOk := "OK: Reading file content"
  const EndOfFile := "--- END OF FILE ---"
  const FileNotFound := "ERROR: File not found"
  const UnknownCommand := "ERROR: Unknown command. Use 'READ' or 'WRITE:your_text'"

  /** The request line exactly as received decides the command: no trimming,
      the keyword and the prefix compared ignoring case. */
  function Classify(line: string): (c: Command)
    ensures c == Read <==> EqualsIgnoreCase(line, "READ")
    ensures c.Write? <==> !EqualsIgnoreCase(line, "READ") && StartsWithIgnoreCase(line, "write:")
    ensures c.Write? ==> |line| >= 6 && line == line[..6] + c.content
  {
    if EqualsIgnoreCase(line, "READ") then Read
    else if StartsWithIgnoreCase(line, "write:") then Write(line[6..])
    else Unknown
  }

  /** The request line a client sends for a command. */
  function Encode(c: Command): string
    requires !c.Unknown?
  {
    match c
    case Read => "READ"
    case Write(p) => "WRITE:" + p
  }

  /** Every READ or WRITE request a client encodes classifies back to itself. */
  lemma {:induction false} ClassifyEncode(c: Command)
    requires !c.Unknown?
    ensures Classify(Encode(c)) == c
  {
    if c.Write? {
      var line := Encode(c);
      assert |ToLower(line)| != |ToLower("READ")|;
      assert line[..6] == "WRITE:";
      assert ToLower("WRITE:") == "write:";
      assert ToLower("write:") == "write:";
      assert line[6..] == c.content;
    }
  }

  function LineMessage(k: nat, line: string): string {
    "Line " + NatToString(k) + ": " + line
  }

  /** The lines numbered from 1, in file order. */
  function Numbered(ls: seq<string>): (r: seq<string>)
    ensures |r| == |ls|
    ensures forall k :: 0 <= k < |ls| ==> r[k] == LineMessage(k + 1, ls[k])
  {
    seq(|ls|, k requires 0 <= k < |ls| => LineMessage(k + 1, ls[k]))
  }

  /** How many lines a READ sends before the reader fails. */
  function LinesSent(ls: seq<string>, fault: Fault): (n: nat)
    ensures n <= |ls|
  {
    if fault.ReaderFails? && fault.linesRead < |ls| then fault.linesRead else |ls|
  }

  /** The reply to READ: a header, the lines numbered from 1 in file order, a
      trailer. The header goes out before the file is opened, so when the
      reader fails the reply is the header and the lines sent so far, and the
      exception then closes the connection. */
  function ReadReply(f: FileState, fault: Fault): seq<string> {
    match f
    case Missing => [FileNotFound]
    case Present(ls) =>
      if fault.ReaderFails? then [ReadOk] + Numbered(ls[..LinesSent(ls, fault)])
      else [ReadOk] + Numbered(ls) + [EndOfFile]
  }

  /** The reply to READ reveals the store exactly: n + 2 lines, and stripping
      the prefix `Line k: ` from line k gives back the k-th stored line. */
  lemma {:induction false} ReadReplyRecoversLines(ls: seq<string>, k: nat)
    requires 1 <= k <= |ls|
    ensures var r := ReadReply(Present(ls), NoFault);
      |r| == |ls| + 2 && r[0] == ReadOk && r[|ls| + 1] == EndOfFile &&
      StartsWith(r[k], "Line " + NatToString(k) + ": ") &&
      r[k][|"Line " + NatToString(k) + ": "|..] == ls[k - 1]
  {
    var r := ReadReply(Present(ls), NoFault);
    var prefix := "Line " + NatToString(k) + ": ";
    assert r[k] == LineMessage(k, ls[k - 1]) == prefix + ls[k - 1];
    assert r[k][..|prefix|] == prefix;
  }

  /** A READ whose reader fails sends a prefix of the full reply, the header
      and the first lines, and never the trailer, so a client can tell it from
      a complete read; only a failure before the last line cuts off a line. */
  lemma {:induction false} ReaderFailureTruncates(ls: seq<string>, n: nat)
    ensures var full := ReadReply(Present(ls), NoFault);
      var cut := ReadReply(Present(ls), ReaderFails(n));
      var sent := if n < |ls| then n else |ls|;
      |cut| == sent + 1 && cut == full[..sent + 1] &&
      cut[0] == ReadOk && cut[|cut| - 1] != EndOfFile
  {
    var full := ReadReply(Present(ls), NoFault);
    var cut := ReadReply(Present(ls), ReaderFails(n));
    var sent := LinesSent(ls, ReaderFails(n));
    var shown := Numbered(ls[..sent]);
    assert cut == [ReadOk] + shown;
    forall k | 1 <= k < sent + 1
      ensures cut[k] == full[k]
    {
      assert cut[k] == shown[k - 1];
    }
    if sent > 0 {
      assert cut[|cut| - 1] == LineMessage(sent, ls[sent - 1]);
      assert cut[|cut| - 1][0] == 'L' != EndOfFile[0];
    } else {
      assert cut[0][0] == 'O' != EndOfFile[0];
    }
  }

  /** The effect of one command on the file, and the lines sent back. Only an
      append that does not fail changes the file. */
  function Step(f: FileState, line: string, fault: Fault): (r: (FileState, seq<string>))
    ensures !Classify(line).Write? ==> r.0 == f
    ensures Classify(line).Write? && fault.AppendFails? ==> r.0 == f
    ensures Classify(line).Write? && !fault.AppendFails? ==> r.0 == Append(f, line[6..])
    ensures |r.1| >= 1
  {
    match Classify(line)
    case Read => (f, ReadReply(f, fault))
    case Write(content) =>
      if fault.AppendFails? then (f, ["ERROR: Failed to write to file - " + fault.message])
      else (Append(f, content), ["OK: Written '" + content + "' to file"])
    case Unknown => (f, [UnknownCommand])
  }

  /** The reply to each kind of request line, read off the line itself: READ
      streams the file, reports it missing, or stops after the lines sent when
      the reader fails; a WRITE confirms the exact text after the prefix or
      reports the failed append; anything else is one error line. */
  lemma {:induction false} StepReplies(f: FileState, line: string, fault: Fault)
    ensures EqualsIgnoreCase(line, "READ") ==> Step(f, line, fault) == (f, ReadReply(f, fault))
    ensures EqualsIgnoreCase(line, "READ") && f.Missing? ==> Step(f, line, fault).1 == [FileNotFound]
    ensures EqualsIgnoreCase(line, "READ") && f.Present? && !fault.ReaderFails? ==>
      Step(f, line, fault).1 == [ReadOk] + Numbered(f.lines) + [EndOfFile]
    ensures EqualsIgnoreCase(line, "READ") && f.Present? && fault.ReaderFails? ==>
      Step(f, line, fault).1 == [ReadOk] + Numbered(f.lines[..LinesSent(f.lines, fault)])
    ensures !EqualsIgnoreCase(line, "READ") && StartsWithIgnoreCase(line, "write:") && !fault.AppendFails? ==>
      |line| >= 6 && Step(f, line, fault) == (Append(f, line[6..]), ["OK: Written '" + line[6..] + "' to file"])
    ensures !EqualsIgnoreCase(line, "READ") && StartsWithIgnoreCase(line, "write:") && fault.AppendFails? ==>
      Step(f, line, fault) == (f, ["ERROR: Failed to write to file - " + fault.message])
    ensures !EqualsIgnoreCase(line, "READ") && !StartsWithIgnoreCase(line, "write:") ==>
      Step(f, line, fault) == (f, [UnknownCommand])
  {
  }

  /** One connection: the server reads a single line and answers it; end of
      stream before any line closes the connection with no reply. Whatever the
      client sends after its first line is never read. */
  function Connection(f: FileState, input: seq<string>, fault: Fault): (FileState, seq<string>) {
    if input == [] then (f, []) else Step(f, input[0], fault)
  }

  /** Only the first line of a connection has any effect. */
  lemma OnlyFirstLineCounts(f: FileState, line: string, rest: seq<string>, fault: Fault)
    ensures Connection(f, [line] + rest, fault) == Connection(f, [line], fault)
  {
  }

  /** A connection never reorders or deletes stored lines; it adds at most one. */
  lemma {:induction false} ConnectionOnlyAppends(f: FileState, input: seq<string>, fault: Fault)
    ensures var g := Connection(f, input, fault).0;
      IsPrefix(Lines(f), Lines(g)) && |Lines(g)| <= |Lines(f)| + 1
  {
    if input != [] {
      var line := input[0];
      if Classify(line).Write? && !fault.AppendFails? {
        assert Lines(Append(f, line[6..]))[..|Lines(f)|] == Lines(f);
      }
    }
  }

  /** Round trip: after a successful `WRITE:p` on one connection, a READ on the
      next numbers p as line n + 1, after the n lines that were there, even
      when p is empty. */
  lemma {:induction false} WriteThenRead(f: FileState, p: string)
    ensures var g := Connection(f, ["WRITE:" + p], NoFault).0;
      g == Present(Lines(f) + [p]) &&
      Connection(g, ["READ"], NoFault) == (g, ReadReply(Present(Lines(f) + [p]), NoFault)) &&
      ReadReply(g, NoFault)[|Lines(f)| + 1] == LineMessage(|Lines(f)| + 1, p)
  {
    ClassifyEncode(Write(p));
    ClassifyEncode(Read);
    assert Encode(Write(p)) == "WRITE:" + p;
    assert ("WRITE:" + p)[6..] == p;
  }

  /** If every line the client sends is a line (no line break inside), the file
      stays made of lines. */
  lemma {:induction false} ConnectionKeepsWellFormed(f: FileState, input: seq<string>, fault: Fault)
    requires WellFormed(f)
    requires forall k :: 0 <= k < |input| ==> IsLine(input[k])
    ensures WellFormed(Connection(f, input, fault).0)
  {
    if input != [] && Classify(input[0]).Write? && !fault.AppendFails? {
      var content := input[0][6..];
      var g := Append(f, content);
      assert Lines(g) == Lines(f) + [content];
      assert IsLine(content) by {
        assert input[0] == input[0][..6] + content;
      }
    }
  }

  /** The running server: `file` is data.txt. */
  class Server {
    var file: FileState

    /** Startup: the sample file is created only when none is found. */
    constructor Start(found: FileState)
      ensures file == Seed(found, SampleLines)
    {
      if found.Missing? {
        file := Present(SampleLines);
      } else {
        file := found;
      }
    }

    /** Streams the file line by line with a running line number; a failing
        reader ends the reply where it fails. */
    method HandleReadCommand(fault: Fault) returns (out: seq<string>)
      ensures out == ReadReply(file, fault)
    {
      if file.Missing? {
        return [FileNotFound];
      }
      var ls := file.lines;
      out := [ReadOk];
      var lineNumber := 1;
      while lineNumber <= |ls|
        invariant 1 <= lineNumber <= |ls| + 1
        invariant !fault.ReaderFails? || lineNumber - 1 <= fault.linesRead
        invariant out == [ReadOk] + Numbered(ls[..lineNumber - 1])
      {
        if fault == ReaderFails(lineNumber - 1) {
          return;
        }
        ghost var before := ls[..lineNumber - 1];
        assert ls[..lineNumber] == before + [ls[lineNumber - 1]];
        assert Numbered(ls[..lineNumber]) == Numbered(before) + [LineMessage(lineNumber, ls[lineNumber - 1])];
        out := out + [LineMessage(lineNumber, ls[lineNumber - 1])];
        lineNumber := lineNumber + 1;
      }
      assert ls[..|ls|] == ls;
      if fault.ReaderFails? {
        return;
      }
      out := out + [EndOfFile];
    }

    method HandleWriteCommand(content: string, fault: Fault) returns (out: seq<string>)
      modifies this
      ensures !fault.AppendFails? ==> file == Append(old(file), content) && out == ["OK: Written '" + content + "' to file"]
      ensures fault.AppendFails? ==> file == old(file) && out == ["ERROR: Failed to write to file - " + fault.message]
    {
      if fault.AppendFails? {
        out := ["ERROR: Failed to write to file - " + fault.message];
      } else {
        file := Append(file, content);
        out := ["OK: Written '" + content + "' to file"];
      }
    }

    /** One accepted client; the connection is closed when this returns. */
    method HandleClient(input: seq<string>, fault: Fault) returns (out: seq<string>)
      modifies this
      ensures (file, out) == Connection(old(file), input, fault)
    {
      if input == [] {
        return [];
      }
      var command := input[0];
      if EqualsIgnoreCase(command, "READ") {
        out := HandleReadCommand(fault);
      } else if StartsWithIgnoreCase(command, "write:") {
        var content := command[6..];
        out := HandleWriteCommand(content, fault);
      } else {
        out := [UnknownCommand];
      }
    }
  }
}
