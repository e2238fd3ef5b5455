/** The OmniScan logs server (port 8001, file logs.txt): after two banner lines
    a connection serves commands until the client closes it. `READ` returns the
    stored entries framed by a count and a trailer; `WRITE:KEY=value;` appends
    one validated entry with its trailing semicolons removed. Every element of
    a reply sequence is one line the server writes. */
module LogsServer {
  import opened Text
  import opened TextFile

  /** What the validation of a WRITE payload decides. */
  datatype Verdict = NoData | BadFormat | Accepted(entry: string)

  /** A request line as the server reads it; a WRITE carries the verdict on its payload. */
  datatype Command = Read | Write(verdict: Verdict) | Unknown

  const InitialLogs: seq<string> := [
    "NAME=proto-001;STATUS=health;COMMAND=system_startup_complete",
    "NAME=proto-002;STATUS=health;COMMAND=scanner_calibration_ok",
    "NAME=proto-003;STATUS=danger;COMMAND=unauthorized_access_attempt",
    "NAME=proto-004;STATUS=health;COMMAND=data_backup_completed",
    "NAME=proto-005;STATUS=danger;COMMAND=anomaly_detected_sector_7"
  ]

  const Banner: seq<string> := [
    "OmniScan Logs System v2.1 - omniscan logs monitoring active",
    "Commands: READ | WRITE:KEY=value;"
  ]

  const EndLogs := "END_LOGS"
  const LogsNotFound := "ERROR: Logs file not found"
  const NoDataError := "ERROR: No data provided for WRITE command"
  const FormatError := "ERROR: Invalid format. Use WRITE:KEY=value;"
  const EntryAdded := "OK: Log entry added"
  const UnknownCommand := "ERROR: Unknown command. Use READ or WRITE:KEY=value;"

  /** The runs of semicolons TrimEnd(';') removes. */
  function Semicolons(k: nat): string {
    seq(k, _ => ';')
  }

  /** Validation of a WRITE payload: not blank, holds an `=`, ends in `;`.
      An accepted entry is the payload without its trailing semicolons. */
  function CheckPayload(data: string): Verdict {
    if IsNullOrWhiteSpace(data) then NoData
    else if '=' !in data || !EndsWith(data, ";") then BadFormat
    else Accepted(TrimEndSemicolons(data))
  }

  /** The three outcomes of validation, and what an accepted entry looks like:
      it keeps an `=`, no longer ends in `;`, and the payload is the entry plus
      the one or more semicolons that were removed. */
  lemma {:induction false} CheckPayloadSpec(data: string)
    ensures CheckPayload(data) == NoData <==> IsNullOrWhiteSpace(data)
    ensures CheckPayload(data) == BadFormat <==> !IsNullOrWhiteSpace(data) && ('=' !in data || !EndsWith(data, ";"))
    ensures var v := CheckPayload(data);
      v.Accepted? ==>
        '=' in v.entry && !EndsWith(v.entry, ";") &&
        |v.entry| < |data| && data == v.entry + Semicolons(|data| - |v.entry|)
  {
    if CheckPayload(data).Accepted? {
      var entry := TrimEndSemicolons(data);
      var k := |data| - |entry|;
      assert k >= 1 by {
        assert data[|data| - 1] == ';';
      }
      assert data == entry + Semicolons(k) by {
        assert data == data[..|entry|] + data[|entry|..];
        assert data[|entry|..] == Semicolons(k);
      }
      assert '=' in entry by {
        var i :| 0 <= i < |data| && data[i] == '=';
        assert i < |entry|;
        assert entry[i] == '=';
      }
    }
  }

  /** Every character of an accepted entry comes from the payload. */
  lemma EntryInsidePayload(data: string)
    requires CheckPayload(data).Accepted?
    ensures forall c :: c in CheckPayload(data).entry ==> c in data
  {
    var entry := CheckPayload(data).entry;
    assert forall i :: 0 <= i < |entry| ==> entry[i] == data[i];
  }

  /** The request line is trimmed, then the keyword and the prefix are compared
      ignoring case; the text after `WRITE:` is validated. */
  function Classify(line: string): Command {
    var command := Trim(line);
    if EqualsIgnoreCase(command, "READ") then Read
    else if StartsWithIgnoreCase(command, "WRITE:") then Write(CheckPayload(command[6..]))
    else Unknown
  }

  /** What each kind of line classifies as, and which text a WRITE validates. */
  lemma ClassifyCases(line: string)
    ensures Classify(line) == Read <==> EqualsIgnoreCase(Trim(line), "READ")
    ensures Classify(line).Write? <==> !EqualsIgnoreCase(Trim(line), "READ") && StartsWithIgnoreCase(Trim(line), "WRITE:")
    ensures Classify(line).Write? ==> |Trim(line)| >= 6 && Classify(line).verdict == CheckPayload(Trim(line)[6..])
  {
  }

  /** White space around a command never changes what it means. */
  lemma {:induction false} ClassifyIgnoresSurroundingSpace(line: string)
    ensures Classify(Trim(line)) == Classify(line)
  {
    TrimIdempotent(line);
  }

  /** Because the line is trimmed first, the only blank payload that reaches
      validation is the empty one: `WRITE:` followed by spaces is `WRITE:`. */
  lemma {:induction false} BlankPayloadIsEmpty(line: string)
    requires StartsWithIgnoreCase(Trim(line), "WRITE:")
    requires IsNullOrWhiteSpace(Trim(line)[6..])
    ensures |Trim(line)| == 6
  {
  }

  /** An accepted entry has no line break that the request line did not have. */
  lemma EntryIsLine(line: string)
    requires IsLine(line)
    requires Classify(line).Write? && Classify(line).verdict.Accepted?
    ensures IsLine(Classify(line).verdict.entry)
  {
    var t := Trim(line);
    TrimInside(line);
    EntryInsidePayload(t[6..]);
    assert forall c :: c in t[6..] ==> c in t;
  }

  /** Every character of a trimmed line comes from the line. */
  lemma TrimInside(line: string)
    ensures forall c :: c in Trim(line) ==> c in line
  {
    var u := TrimStartBy(line, IsWhiteSpace);
    var t := TrimEndBy(u, IsWhiteSpace);
    assert forall i :: 0 <= i < |t| ==> t[i] == u[i];
    assert forall i :: 0 <= i < |u| ==> u[i] == line[|line| - |u| + i];
  }

  /** A string that starts and ends with a non-space character is its own Trim. */
  lemma TrimOfTrimmed(s: string)
    requires s != [] && !IsWhiteSpace(s[0]) && !IsWhiteSpace(s[|s| - 1])
    ensures Trim(s) == s
  {
    TrimStartOfTrimmed(s, IsWhiteSpace);
    TrimEndOfTrimmed(s, IsWhiteSpace);
  }

  /** `READ` is read as a READ. */
  lemma ClassifyRead()
    ensures Classify("READ") == Read
  {
    TrimOfTrimmed("READ");
  }

  /** `WRITE:p` is read as a WRITE of p when p has no white space at either end. */
  lemma {:induction false} ClassifyWrite(p: string)
    requires p == [] || (!IsWhiteSpace(p[0]) && !IsWhiteSpace(p[|p| - 1]))
    ensures Classify("WRITE:" + p) == Write(CheckPayload(p))
  {
    var line := "WRITE:" + p;
    if p != [] {
      assert line[|line| - 1] == p[|p| - 1];
      TrimOfTrimmed(p);
    }
    TrimOfTrimmed(line);
    assert |ToLower(line)| != |ToLower("READ")|;
    assert line[..6] == "WRITE:";
    assert line[6..] == p;
  }

  /** A command the server accepts as a new entry. */
  predicate IsAcceptedWrite(c: Command) {
    c.Write? && c.verdict.Accepted?
  }

  function EntryOf(c: Command): string
    requires IsAcceptedWrite(c)
  {
    c.verdict.entry
  }

  /** The reply to READ; `fault` is the message of the exception reading the file raises, if it does. */
  function ReadReply(f: FileState, fault: Option<string>): seq<string> {
    match f
    case Missing => [LogsNotFound]
    case Present(ls) =>
      if fault.Some? then ["ERROR: " + fault.value]
      else ["LOGS_COUNT:" + NatToString(|ls|)] + ls + [EndLogs]
  }

  /** READ on n stored entries is n + 2 lines: the count, the entries verbatim
      and in order, the trailer. A missing file gives only its error, and a
      failing read only the exception's message. */
  lemma ReadReplyFrames(ls: seq<string>, fault: Option<string>)
    ensures ReadReply(Missing, fault) == [LogsNotFound]
    ensures fault.Some? ==> ReadReply(Present(ls), fault) == ["ERROR: " + fault.value]
    ensures var r := ReadReply(Present(ls), None);
      |r| == |ls| + 2 && r[0] == "LOGS_COUNT:" + NatToString(|ls|) &&
      r[1..|ls| + 1] == ls && r[|ls| + 1] == EndLogs
  {
  }

  /** The effect of a WRITE whose payload validation gave `v`, and its reply;
      `fault` is the message of the exception the append raises, if it does. */
  function WriteReply(f: FileState, v: Verdict, fault: Option<string>): (FileState, seq<string>) {
    match v
    case NoData => (f, [NoDataError])
    case BadFormat => (f, [FormatError])
    case Accepted(entry) =>
      if fault.Some? then (f, ["ERROR: " + fault.value])
      else (Append(f, entry), [EntryAdded])
  }

  /** One command: its effect on the file and the lines written back.
      `fault` is the message of the exception the file access raises, if any. */
  function Exec(f: FileState, c: Command, fault: Option<string>): (r: (FileState, seq<string>))
    ensures |r.1| >= 1
    ensures IsAcceptedWrite(c) && fault.None? ==> r.0 == Append(f, EntryOf(c)) && r.1 == [EntryAdded]
    ensures !(IsAcceptedWrite(c) && fault.None?) ==> r.0 == f
    ensures c == Write(NoData) ==> r.1 == [NoDataError]
    ensures c == Write(BadFormat) ==> r.1 == [FormatError]
    ensures c == Unknown ==> r.1 == [UnknownCommand]
  {
    match c
    case Read => (f, ReadReply(f, fault))
    case Write(v) => WriteReply(f, v, fault)
    case Unknown => (f, [UnknownCommand])
  }

  function FaultAt(faults: map<nat, string>, i: nat): Option<string> {
    if i in faults then Some(faults[i]) else None
  }

  /** The commands of a session, executed in order; `faults` gives, by position
      in the session, the commands whose file access raises an exception. */
  function Run(f: FileState, cmds: seq<Command>, faults: map<nat, string>): (FileState, seq<string>)
    decreases |cmds|
  {
    if cmds == [] then (f, [])
    else
      var before := Run(f, cmds[..|cmds| - 1], faults);
      var after := Exec(before.0, cmds[|cmds| - 1], FaultAt(faults, |cmds| - 1));
      (after.0, before.1 + after.1)
  }

  /** The commands of the lines a client sends, in order. */
  function Commands(input: seq<string>): (cmds: seq<Command>)
    ensures |cmds| == |input|
  {
    if input == [] then []
    else Commands(input[..|input| - 1]) + [Classify(input[|input| - 1])]
  }

  /** The k-th command is what the k-th line classifies as. */
  lemma {:induction false} CommandAt(input: seq<string>, k: nat)
    requires k < |input|
    ensures Commands(input)[k] == Classify(input[k])
    decreases |input|
  {
    if k < |input| - 1 {
      var init := input[..|input| - 1];
      CommandAt(init, k);
      assert init[k] == input[k];
    }
  }

  /** A whole connection: the banner, then every command until end of stream. */
  function Session(f: FileState, input: seq<string>, faults: map<nat, string>): (r: (FileState, seq<string>))
    ensures |r.1| >= |Banner| + |input| && r.1[..2] == Banner
  {
    var run := Run(f, Commands(input), faults);
    RunAnswersEveryCommand(f, Commands(input), faults);
    (run.0, Banner + run.1)
  }

  /** No command ends the session and none goes unanswered: at least one reply line each. */
  lemma {:induction false} RunAnswersEveryCommand(f: FileState, cmds: seq<Command>, faults: map<nat, string>)
    ensures |Run(f, cmds, faults).1| >= |cmds|
    decreases |cmds|
  {
    if cmds != [] {
      RunAnswersEveryCommand(f, cmds[..|cmds| - 1], faults);
    }
  }

  /** A session never reorders or deletes stored entries. */
  lemma {:induction false} RunOnlyAppends(f: FileState, cmds: seq<Command>, faults: map<nat, string>)
    ensures IsPrefix(Lines(f), Lines(Run(f, cmds, faults).0))
    decreases |cmds|
  {
    if cmds != [] {
      var before := Run(f, cmds[..|cmds| - 1], faults).0;
      RunOnlyAppends(f, cmds[..|cmds| - 1], faults);
      var c := cmds[|cmds| - 1];
      if IsAcceptedWrite(c) && FaultAt(faults, |cmds| - 1).None? {
        assert Lines(Append(before, EntryOf(c)))[..|Lines(before)|] == Lines(before);
      }
    }
  }

  /** The entries the accepted writes among some commands add, in order;
      every other command adds none. */
  function AcceptedEntries(cmds: seq<Command>): (r: seq<string>)
    ensures |r| <= |cmds|
    ensures (forall k :: 0 <= k < |cmds| ==> !IsAcceptedWrite(cmds[k])) ==> r == []
    ensures (forall k :: 0 <= k < |cmds| ==> IsAcceptedWrite(cmds[k])) ==>
      |r| == |cmds| && forall k :: 0 <= k < |cmds| ==> r[k] == EntryOf(cmds[k])
  {
    if cmds == [] then []
    else
      var last := cmds[|cmds| - 1];
      AcceptedEntries(cmds[..|cmds| - 1]) + (if IsAcceptedWrite(last) then [EntryOf(last)] else [])
  }

  /** Accepted writes that do not fault all land in the file, in the order they
      were acknowledged, after everything that was there; READ, unknown and
      rejected commands in between leave the file alone. */
  lemma {:induction false} AcceptedWritesAppendInOrder(f: FileState, cmds: seq<Command>, faults: map<nat, string>)
    requires forall k :: 0 <= k < |cmds| && IsAcceptedWrite(cmds[k]) ==> k !in faults
    ensures Lines(Run(f, cmds, faults).0) == Lines(f) + AcceptedEntries(cmds)
    decreases |cmds|
  {
    if cmds != [] {
      var init := cmds[..|cmds| - 1];
      var last := cmds[|cmds| - 1];
      AcceptedWritesAppendInOrder(f, init, faults);
      var before := Run(f, init, faults).0;
      if IsAcceptedWrite(last) {
        assert Run(f, cmds, faults).0 == Append(before, EntryOf(last));
        assert Lines(Append(before, EntryOf(last))) == Lines(before) + [EntryOf(last)];
        assert AcceptedEntries(cmds) == AcceptedEntries(init) + [EntryOf(last)];
        ConcatAssoc(Lines(f), AcceptedEntries(init), [EntryOf(last)]);
      } else {
        assert Run(f, cmds, faults).0 == before;
        assert AcceptedEntries(cmds) == AcceptedEntries(init) + [];
      }
    }
  }

  /** Round trip: after an accepted write, the next READ counts one more entry,
      shows every earlier entry unchanged and the new entry last. */
  lemma {:induction false} WriteThenRead(f: FileState, w: Command)
    requires IsAcceptedWrite(w)
    ensures var g := Exec(f, w, None).0;
      Exec(g, Read, None).1 ==
        ["LOGS_COUNT:" + NatToString(|Lines(f)| + 1)] + Lines(f) + [EntryOf(w)] + [EndLogs]
  {
    var g := Exec(f, w, None).0;
    assert g == Present(Lines(f) + [EntryOf(w)]);
  }

  /** The same round trip over a connection: an accepted write, then a READ,
      answer the acknowledgement and the framed entries with the new one last.
      `WRITE:p` and `READ` are read as such commands (ClassifyWrite, ClassifyRead). */
  lemma {:induction false} RunWriteThenRead(f: FileState, w: Command)
    requires IsAcceptedWrite(w)
    ensures Run(f, [w, Read], map[]).1 ==
      [EntryAdded] + (["LOGS_COUNT:" + NatToString(|Lines(f)| + 1)] + Lines(f) + [EntryOf(w)] + [EndLogs])
  {
    RunSnoc(f, [], w, map[]);
    assert [] + [w] == [w];
    assert FaultAt(map[], 0) == None && FaultAt(map[], 1) == None;
    var g := Exec(f, w, None);
    assert Run(f, [], map[]) == (f, []);
    assert [] + g.1 == g.1;
    assert Run(f, [w], map[]) == g;
    RunSnoc(f, [w], Read, map[]);
    assert [w] + [Read] == [w, Read];
    WriteThenRead(f, w);
  }

  /** If every accepted entry has no line break inside, the file stays made of lines. */
  lemma {:induction false} RunKeepsWellFormed(f: FileState, cmds: seq<Command>, faults: map<nat, string>)
    requires WellFormed(f)
    requires forall k :: 0 <= k < |cmds| && IsAcceptedWrite(cmds[k]) ==> IsLine(EntryOf(cmds[k]))
    ensures WellFormed(Run(f, cmds, faults).0)
    decreases |cmds|
  {
    if cmds != [] {
      var init := cmds[..|cmds| - 1];
      RunKeepsWellFormed(f, init, faults);
      var before := Run(f, init, faults).0;
      var c := cmds[|cmds| - 1];
      if IsAcceptedWrite(c) && FaultAt(faults, |cmds| - 1).None? {
        assert Lines(Append(before, EntryOf(c))) == Lines(before) + [EntryOf(c)];
      }
    }
  }

  /** Request lines without line breaks keep the file made of lines. */
  lemma SessionKeepsWellFormed(f: FileState, input: seq<string>, faults: map<nat, string>)
    requires WellFormed(f)
    requires forall k :: 0 <= k < |input| ==> IsLine(input[k])
    ensures WellFormed(Session(f, input, faults).0)
  {
    var cmds := Commands(input);
    forall k | 0 <= k < |cmds| && IsAcceptedWrite(cmds[k]) ensures IsLine(EntryOf(cmds[k])) {
      CommandAt(input, k);
      EntryIsLine(input[k]);
    }
    RunKeepsWellFormed(f, cmds, faults);
  }

  /** The running server: `file` is logs.txt. */
  class Server {
    var file: FileState

    /** Startup: the five initial entries are written only when no file is found. */
    constructor Start(found: FileState)
      ensures file == Seed(found, InitialLogs)
    {
      if found.Missing? {
        file := Present(InitialLogs);
      } else {
        file := found;
      }
    }

    /** Writes the count, then each entry, then the trailer. */
    method HandleReadCommand(fault: Option<string>) returns (out: seq<string>)
      ensures out == ReadReply(file, fault)
    {
      if file.Missing? {
        return [LogsNotFound];
      }
      if fault.Some? {
        return ["ERROR: " + fault.value];
      }
      var logs := file.lines;
      out := ["LOGS_COUNT:" + NatToString(|logs|)];
      var i := 0;
      while i < |logs|
        invariant 0 <= i <= |logs|
        invariant out == ["LOGS_COUNT:" + NatToString(|logs|)] + logs[..i]
      {
        out := out + [logs[i]];
        i := i + 1;
      }
      assert logs[..i] == logs;
      out := out + [EndLogs];
    }

    /** Validates the payload after `WRITE:` and appends the entry. */
    method HandleWriteCommand(command: string, fault: Option<string>) returns (out: seq<string>)
      requires |command| >= 6
      modifies this
      ensures (file, out) == WriteReply(old(file), CheckPayload(command[6..]), fault)
    {
      var data := command[6..];
      if IsNullOrWhiteSpace(data) {
        out := [NoDataError];
      } else if '=' !in data || !EndsWith(data, ";") {
        out := [FormatError];
      } else if fault.Some? {
        out := ["ERROR: " + fault.value];
      } else {
        file := Append(file, TrimEndSemicolons(data));
        out := [EntryAdded];
      }
    }

    /** Reads one request line and answers it. */
    method HandleCommand(line: string, fault: Option<string>) returns (reply: seq<string>)
      modifies this
      ensures (file, reply) == Exec(old(file), Classify(line), fault)
    {
      var command := Trim(line);
      ClassifyCases(line);
      if EqualsIgnoreCase(command, "READ") {
        reply := HandleReadCommand(fault);
      } else if StartsWithIgnoreCase(command, "WRITE:") {
        reply := HandleWriteCommand(command, fault);
      } else {
        reply := [UnknownCommand];
      }
    }

    /** One accepted client: the banner, then one command per line until end of stream. */
    method HandleClient(input: seq<string>, faults: map<nat, string>) returns (out: seq<string>)
      modifies this
      ensures (file, out) == Session(old(file), input, faults)
    {
      out := Banner;
      ghost var start := file;
      var i := 0;
      assert input[..0] == [];
      while i < |input|
        invariant 0 <= i <= |input|
        invariant file == Run(start, Commands(input[..i]), faults).0
        invariant out == Banner + Run(start, Commands(input[..i]), faults).1
      {
        ghost var prev := Run(start, Commands(input[..i]), faults);
        var reply := HandleCommand(input[i], FaultAt(faults, i));
        NextCommand(start, input, i, faults);
        assert Run(start, Commands(input[..i + 1]), faults) == (file, prev.1 + reply);
        ConcatAssoc(Banner, prev.1, reply);
        out := out + reply;
        i := i + 1;
      }
      assert input[..i] == input;
    }
  }

  /** The session up to line i + 1 is the session up to line i, then line i. */
  lemma NextCommand(f: FileState, input: seq<string>, i: nat, faults: map<nat, string>)
    requires i < |input|
    ensures var before := Run(f, Commands(input[..i]), faults);
      var after := Exec(before.0, Classify(input[i]), FaultAt(faults, i));
      Run(f, Commands(input[..i + 1]), faults) == (after.0, before.1 + after.1)
  {
    assert input[..i + 1][..i] == input[..i];
    RunSnoc(f, Commands(input[..i]), Classify(input[i]), faults);
  }

  lemma ConcatAssoc(a: seq<string>, b: seq<string>, c: seq<string>)
    ensures a + b + c == a + (b + c)
  {
  }

  /** Running one more command extends the run by that command's effect and reply. */
  lemma RunSnoc(f: FileState, cmds: seq<Command>, c: Command, faults: map<nat, string>)
    ensures var before := Run(f, cmds, faults);
      var after := Exec(before.0, c, FaultAt(faults, |cmds|));
      Run(f, cmds + [c], faults) == (after.0, before.1 + after.1)
  {
    assert (cmds + [c])[..|cmds|] == cmds;
  }
}
