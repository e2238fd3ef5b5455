/** The append-only text file both TCP servers keep their records in: either
    absent, or present as the ordered sequence of its lines. */
module TextFile {

  datatype FileState = Missing | Present(lines: seq<string>)

  /** The lines a reader sees; an absent file has none. */
  function Lines(f: FileState): seq<string> {
    match f
    case Missing => []
    case Present(ls) => ls
  }

  /** File.AppendAllText(path, line + NewLine): creates the file when absent,
      then adds one line at the end. */
  function Append(f: FileState, line: string): (r: FileState)
    ensures r.Present?
    ensures |Lines(r)| == |Lines(f)| + 1
    ensures Lines(r)[..|Lines(f)|] == Lines(f) && Lines(r)[|Lines(f)|] == line
  {
    Present(Lines(f) + [line])
  }

  /** The startup check: the sample lines are written only when the file is absent. */
  function Seed(f: FileState, sample: seq<string>): (r: FileState)
    ensures f.Present? ==> r == f
    ensures f.Missing? ==> r.Present? && r.lines == sample
  {
    if f.Missing? then Present(sample) else f
  }

  /** A line as a line reader returns it: no line break inside. */
  predicate IsLine(s: string) {
    '\n' !in s && '\r' !in s
  }

  /** Every stored line reads back as exactly one line. */
  predicate WellFormed(f: FileState) {
    forall k :: 0 <= k < |Lines(f)| ==> IsLine(Lines(f)[k])
  }

  predicate IsPrefix(a: seq<string>, b: seq<string>) {
    |a| <= |b| && b[..|a|] == a
  }

  /** Seeding twice is seeding once. */
  lemma SeedIdempotent(f: FileState, sample: seq<string>)
    ensures Seed(Seed(f, sample), sample) == Seed(f, sample)
  {
  }
}
