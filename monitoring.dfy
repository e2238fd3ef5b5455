/** The process monitor of the VulnerableLogin application: behind the
    session's full authentication it runs a shell command (a default listing,
    or one sent base64-encoded), combines its standard output and error, and
    parses the result into at most fifty process records, each a dictionary
    holding the trimmed line under "raw" and, for the two recognised listing
    formats, a few named fields. Decoding and running the command are inputs. */
module Monitoring {
  import opened Text
  import opened Lists
  import opened HttpSession
  import VulnerableAuth

  /** One row of the process table. */
  type Record = map<string, string>

  /** At most this many pieces of the output are looked at. */
  const MaxLines: nat := 50

  /** The line looks like tasklist's CSV output. */
  predicate IsCsvLine(line: string) {
    Contains(line, ",") && Contains(line, "\"")
  }

  /** The record of one non-blank line. */
  function ParseLine(line: string): Record {
    var raw := Trim(line);
    if IsCsvLine(line) then CsvRecord(raw, Split(line, ','))
    else if Contains(line, " ") then PsRecord(raw, SplitRemoveEmpty(line, ' '))
    else map["raw" := raw]
  }

  /** The record of a CSV line from its comma fields. */
  function CsvRecord(raw: string, parts: seq<string>): (r: Record)
    ensures "raw" in r && r["raw"] == raw
  {
    if |parts| >= 2 then map["raw" := raw]["name" := TrimQuotes(parts[0])]["pid" := TrimQuotes(parts[1])]
    else map["raw" := raw]
  }

  /** The record of a ps line from its non-empty space fields. */
  function PsRecord(raw: string, parts: seq<string>): (r: Record)
    ensures "raw" in r && r["raw"] == raw
  {
    if |parts| >= 2 then
      map["raw" := raw]["user" := parts[0]]["pid" := parts[1]]["name" := if |parts| > 10 then Join(" ", parts[10..]) else ""]
    else map["raw" := raw]
  }

  predicate NotBlank(line: string) {
    !IsNullOrWhiteSpace(line)
  }

  /** The records of a sequence of lines: blank lines are skipped, the others parsed in order. */
  function Records(lines: seq<string>): (r: seq<Record>)
    ensures |r| <= |lines|
    decreases |lines|
  {
    if lines == [] then []
    else
      var init := Records(lines[..|lines| - 1]);
      var last := lines[|lines| - 1];
      if NotBlank(last) then init + [ParseLine(last)] else init
  }

  /** The first `n` elements, or all of them when there are fewer (LINQ's Take). */
  function Take<T>(s: seq<T>, n: nat): (r: seq<T>)
    ensures |r| <= n && |r| <= |s| && r == s[..|r|]
    ensures |s| >= n ==> |r| == n
  {
    if |s| <= n then s else s[..n]
  }

  /** ParseProcessOutput as a function of the combined command output. */
  function ProcessRecords(output: string): seq<Record> {
    if output == "" then [] else Records(Take(SplitRemoveEmpty(output, '\n'), MaxLines))
  }

  /** A comma-separated line always splits into at least two fields. */
  lemma SplitAtComma(line: string)
    requires Contains(line, ",")
    ensures |Split(line, ',')| >= 2
  {
    var i :| OccursAt(line, ",", i);
    assert line[i..i + 1][0] == line[i];
  }

  /** Every record holds the trimmed line under "raw", and that is never empty. */
  lemma ParseLineRaw(line: string)
    requires NotBlank(line)
    ensures "raw" in ParseLine(line) && ParseLine(line)["raw"] == Trim(line) && Trim(line) != ""
  {
    TrimEmptyIff(line);
  }

  /** A line with both a comma and a quote is read as CSV, whatever spaces it
      holds: name and pid are its first two comma fields without their quotes. */
  lemma CsvLineFields(line: string)
    requires IsCsvLine(line)
    ensures var r := ParseLine(line);
      var parts := Split(line, ',');
      r.Keys == {"raw", "name", "pid"} &&
      r["name"] == TrimQuotes(parts[0]) && r["pid"] == TrimQuotes(parts[1])
  {
    SplitAtComma(line);
    CsvRecordFields(Trim(line), Split(line, ','));
  }

  lemma CsvRecordFields(raw: string, parts: seq<string>)
    requires |parts| >= 2
    ensures var r := CsvRecord(raw, parts);
      r.Keys == {"raw", "name", "pid"} && r["name"] == TrimQuotes(parts[0]) && r["pid"] == TrimQuotes(parts[1])
  {
  }

  /** Any other line with a space and at least two fields is read as ps output:
      user and pid are the first two fields, the name the fields from the
      eleventh on, joined by single spaces, or empty when there are at most ten. */
  lemma PsLineFields(line: string)
    requires !IsCsvLine(line) && Contains(line, " ")
    requires |SplitRemoveEmpty(line, ' ')| >= 2
    ensures var r := ParseLine(line);
      var parts := SplitRemoveEmpty(line, ' ');
      r.Keys == {"raw", "user", "pid", "name"} &&
      r["user"] == parts[0] && r["pid"] == parts[1] &&
      (|parts| <= 10 ==> r["name"] == "") &&
      (|parts| > 10 ==> r["name"] == Join(" ", parts[10..]))
  {
    PsRecordFields(Trim(line), SplitRemoveEmpty(line, ' '));
  }

  lemma PsRecordFields(raw: string, parts: seq<string>)
    requires |parts| >= 2
    ensures var r := PsRecord(raw, parts);
      r.Keys == {"raw", "user", "pid", "name"} && r["user"] == parts[0] && r["pid"] == parts[1] &&
      (|parts| <= 10 ==> r["name"] == "") &&
      (|parts| > 10 ==> r["name"] == Join(" ", parts[10..]))
  {
  }

  /** Every other line gets only its "raw" entry. */
  lemma PlainLineFields(line: string)
    requires !IsCsvLine(line)
    requires !Contains(line, " ") || |SplitRemoveEmpty(line, ' ')| < 2
    ensures ParseLine(line).Keys == {"raw"}
  {
  }

  /** Empty output has no records; any output has at most fifty. */
  lemma RecordsBounded(output: string)
    ensures output == "" ==> ProcessRecords(output) == []
    ensures |ProcessRecords(output)| <= MaxLines
  {
  }

  /** Each record is the parse of a non-blank piece among the first fifty
      pieces of the output, and every such piece has its record. */
  lemma RecordsFromFirstPieces(output: string)
    requires output != ""
    ensures var shown := Take(SplitRemoveEmpty(output, '\n'), MaxLines);
      var kept := Filter(shown, NotBlank);
      var r := ProcessRecords(output);
      |r| == |kept| &&
      (forall k :: 0 <= k < |r| ==> r[k] == ParseLine(kept[k]) && kept[k] in shown && NotBlank(kept[k])) &&
      (forall k :: 0 <= k < |shown| && NotBlank(shown[k]) ==> shown[k] in kept)
  {
    RecordsAsMapFilter(Take(SplitRemoveEmpty(output, '\n'), MaxLines));
  }

  /** Skipping blank lines inside the loop is filtering them out first: the
      records are the parses of the non-blank lines, one each, in order. */
  lemma {:induction false} RecordsAsMapFilter(lines: seq<string>)
    ensures Records(lines) == Map(Filter(lines, NotBlank), ParseLine)
    decreases |lines|
  {
    if lines != [] {
      var init := lines[..|lines| - 1];
      var last := lines[|lines| - 1];
      assert lines == init + [last];
      RecordsAsMapFilter(init);
      FilterSnoc(init, last, NotBlank);
      var kept := Filter(init, NotBlank);
      if NotBlank(last) {
        MapAppend(kept, [last], ParseLine);
        assert Map([last], ParseLine) == [ParseLine(last)];
      }
    }
  }

  /** Records keep the order of the lines: the records of two runs of lines
      are those of the first followed by those of the second. */
  lemma RecordsAppend(a: seq<string>, b: seq<string>)
    ensures Records(a + b) == Records(a) + Records(b)
  {
    RecordsAsMapFilter(a);
    RecordsAsMapFilter(b);
    RecordsAsMapFilter(a + b);
    FilterAppend(a, b, NotBlank);
    MapAppend(Filter(a, NotBlank), Filter(b, NotBlank), ParseLine);
  }

  /** One more line adds its record at the end when it is not blank, and nothing otherwise. */
  lemma RecordsSnoc(lines: seq<string>, line: string)
    ensures Records(lines + [line]) == Records(lines) + (if NotBlank(line) then [ParseLine(line)] else [])
  {
    assert (lines + [line])[..|lines|] == lines;
  }


  /** One process dictionary, built entry by entry. */
  method ParseOne(line: string) returns (process: Record)
    ensures process == ParseLine(line)
  {
    process := map["raw" := Trim(line)];
    if Contains(line, ",") && Contains(line, "\"") {
      var parts := Split(line, ',');
      if |parts| >= 2 {
        process := process["name" := TrimQuotes(parts[0])];
        process := process["pid" := TrimQuotes(parts[1])];
      }
      assert process == CsvRecord(Trim(line), parts);
    } else if Contains(line, " ") {
      var parts := SplitRemoveEmpty(line, ' ');
      if |parts| >= 2 {
        process := process["user" := if |parts| > 0 then parts[0] else ""];
        process := process["pid" := if |parts| > 1 then parts[1] else ""];
        process := process["name" := if |parts| > 10 then Join(" ", parts[10..]) else ""];
      }
      assert process == PsRecord(Trim(line), parts);
    }
  }

  /** ParseProcessOutput: the first fifty pieces between line feeds, skipping blank ones. */
  method ParseProcessOutput(output: string) returns (processes: seq<Record>)
    ensures processes == ProcessRecords(output)
  {
    processes := [];
    if output == "" {
      return;
    }
    var lines := SplitRemoveEmpty(output, '\n');
    processes := ParseLines(Take(lines, MaxLines));
  }

  /** The loop of ParseProcessOutput over the pieces it looks at. */
  method ParseLines(shown: seq<string>) returns (processes: seq<Record>)
    ensures processes == Records(shown)
  {
    processes := [];
    var i := 0;
    while i < |shown|
      invariant 0 <= i <= |shown|
      invariant processes == Records(shown[..i])
    {
      var line := shown[i];
      assert shown[..i + 1] == shown[..i] + [line];
      RecordsSnoc(shown[..i], line);
      if !IsNullOrWhiteSpace(line) {
        var process := ParseOne(line);
        processes := processes + [process];
      }
      i := i + 1;
    }
    assert shown[..i] == shown;
  }

  /** The text ExecuteCommand returns: the output alone when nothing was
      written to standard error, otherwise both under headings. */
  function CombineOutput(output: string, error: string): (r: string)
    ensures error == "" ==> r == output
    ensures error != "" ==>
      |r| == |output| + |error| + 16 &&
      StartsWith(r, "OUTPUT:\n") && EndsWith(r, "\nERROR:\n" + error) && r[8..8 + |output|] == output
  {
    if error == "" then output else "OUTPUT:\n" + output + "\nERROR:\n" + error
  }

  /** What running a command gave: its two streams, or the exception that stopped it. */
  datatype Execution = Executed(output: string, error: string) | Failed(message: string)

  datatype ProcessesResponse =
    | Unauthorized
    | Processes(processes: seq<Record>, rawOutput: string)
    | CommandFailed(details: string)

  /** The command run when none is given. */
  function DefaultCommand(isWindows: bool): string {
    if isWindows then "tasklist /fo csv" else "ps aux"
  }

  /** The response to a command's execution. */
  function Respond(e: Execution): ProcessesResponse {
    match e
    case Failed(message) => CommandFailed(message)
    case Executed(output, error) =>
      var raw := CombineOutput(output, error);
      Processes(ProcessRecords(raw), raw)
  }

  /** GetProcesses: `decode` stands for the base64 and UTF-8 decoding (None
      when it throws), `run` for the shell. */
  function GetProcesses(values: Values, cmd: string, isWindows: bool,
                        decode: string -> Option<string>, run: string -> Execution): ProcessesResponse {
    if !IsTrue(values, VulnerableAuth.FullyAuthenticatedKey) then Unauthorized
    else if cmd == "" then Respond(run(DefaultCommand(isWindows)))
    else
      match decode(cmd)
      case None => CommandFailed("invalid base64")
      case Some(command) => Respond(run(command))
  }

  /** Without full authentication the answer is Unauthorized whatever the
      request, the decoder and the shell: no command is built or run. With it,
      an empty request runs the default listing, and the records returned are
      those of the combined output. */
  lemma GetProcessesGate(values: Values, cmd: string, isWindows: bool,
                         decode: string -> Option<string>, run: string -> Execution,
                         decode2: string -> Option<string>, run2: string -> Execution)
    ensures !IsTrue(values, VulnerableAuth.FullyAuthenticatedKey) ==>
      GetProcesses(values, cmd, isWindows, decode, run) == Unauthorized &&
      GetProcesses(values, cmd, isWindows, decode, run) == GetProcesses(values, cmd, isWindows, decode2, run2)
    ensures IsTrue(values, VulnerableAuth.FullyAuthenticatedKey) ==>
      GetProcesses(values, cmd, isWindows, decode, run) != Unauthorized
    ensures IsTrue(values, VulnerableAuth.FullyAuthenticatedKey) && cmd == "" ==>
      GetProcesses(values, cmd, isWindows, decode, run) == Respond(run(DefaultCommand(isWindows)))
    ensures var r := GetProcesses(values, cmd, isWindows, decode, run);
      r.Processes? ==> r.processes == ProcessRecords(r.rawOutput) && |r.processes| <= MaxLines
  {
    var r := GetProcesses(values, cmd, isWindows, decode, run);
    if r.Processes? {
      RecordsBounded(r.rawOutput);
    }
  }
}
