# letovogame-servers: the rule sets of the game's servers, in Dafny

letovogame-servers is a set of small C# servers for a capture-the-flag style
game. Most of it is ASP.NET hosting. This project models the parts that
follow exact rules:

- **The TCP file server** (`TCP/Program.cs`). Each connection carries
  one command. `READ` returns the file, numbered line by line. `WRITE:<text>`
  appends the text. Anything else is an unknown command. The file is seeded
  with five sample lines when it is absent at startup.
- **The OmniScan logs server** (`OmniscanLogs/Program.cs`). It writes a
  two-line banner, then takes one trimmed command per line until the end of
  the stream. `READ` answers with a count, the entries and `END_LOGS`.
  `WRITE:KEY=value;` is validated, its trailing `;` are stripped and the
  result is appended.
- **The OmniScan admin site**:
  - the chip API (single and batch status updates restricted to prototype
    chips, and the status statistics);
  - chip management (the login gate, the role filter of the dashboard, the
    disable code with its failed-attempt counter, the default chip table);
  - the login with its second factor, which administrators skip;
  - the form records with their validation attributes.
- **The VulnerableLogin site**:
  - the login, second factor, dashboard gate and logout;
  - the process monitor: its authentication gate, how it combines standard
    output with standard error, and the parser that turns a process listing
    into at most fifty records.

State is modelled as values, and the operations that update state in place
are methods proved against those values:

- A text file is `FileState = Missing | Present(lines)` (`TextFile`).
- A JSON file is `Store<T> = Absent | Unreadable | Stored(items)`
  (`JsonStore`).
- The ASP.NET session is a `Session` class. Its field is a
  `map<string, SessionValue>`, where a value is a string or a 32-bit integer
  (`HttpSession`).
- Each server is a `Server` class whose field is the file. Its
  `HandleClient`, `HandleReadCommand` and `HandleWriteCommand` methods have
  the loops of the source. Each is proved equal to a pure step or session
  function, and the properties are lemmas about those functions.
- The chip API loads the table into an `array<Chip>` and updates chips in
  place, in the single update and in the loop of the batch update.
- The controller actions are pure functions from the old session and store
  to the new session, the new store and an outcome tag. The methods over
  `Session` are proved equal to them.

Things the model takes as inputs:

- the current time is a parameter `now`;
- `string.GetHashCode` is an input function `hashOf: string -> int`;
- decoding the base64 command and running it are the inputs `decode` and
  `run`;
- an exception from a file access is a fault input: an optional message
  for the logs server, a `Fault` for the TCP file server (the append fails
  with a message, or the reader of a READ fails after some number of lines),
  and a flag saying whether seeding a missing users.json fails.

The C# `%` (truncating), the 32-bit wrap-around of the failed-attempt
counter and ASCII `OrdinalIgnoreCase` are all written out explicitly.

Three points of the code that are easy to miss:

- The TCP file server writes no banner.
- The TCP file server accepts an empty `WRITE:` payload and appends an
  empty line.
- `OmniscanAdmin/Models/ChipModels.cs:30-38` declares no `DisableCode`,
  although `ChipManagementController.cs:86` reads one. The modelled `Chip`
  carries the `DisableCode` field that the chip records of
  `Helper/Program.cs:45` have. No default chip sets it, so it reads as
  empty.

## Model

| member | source | states |
|---|---|---|
| Text.ToLower | OmniscanAdmin/Controllers/ChipApiController.cs:148 | ToLower over ASCII: same length, each character lower-cased |
| Text.Contains | VulnerableLogin/Controllers/MonitoringController.cs:161 | ordinal Contains: true iff the needle occurs at some position |
| Text.TrimStartBy | OmniscanLogs/Program.cs:64 | TrimStart: removes exactly the leading characters to drop, leaving a suffix that does not start with one |
| Text.TrimEndBy | OmniscanLogs/Program.cs:130 | TrimEnd: removes exactly the trailing characters to drop, leaving a prefix that does not end with one |
| Text.TrimIdempotent | OmniscanLogs/Program.cs:64 | trimming twice is trimming once |
| Text.TrimEmptyIff | VulnerableLogin/Controllers/MonitoringController.cs:152-157 | a string trims to empty iff it is blank |
| Text.Split | VulnerableLogin/Controllers/MonitoringController.cs:163 | Split(c): at least one piece, no piece holds c, joining the pieces with c gives back the string, and a string without c is its only piece |
| Text.SplitRemoveEmpty | VulnerableLogin/Controllers/MonitoringController.cs:147 | Split with RemoveEmptyEntries: every piece is non-empty and holds no separator; a string without the separator gives itself, or nothing when empty; which pieces, in which order, is stated by Lists.SplitRemoveEmptyIsFilter |
| Text.NatToString | OmniscanLogs/Program.cs:94 | the decimal rendering of n: digits only, no leading zero, denoting n |
| Text.NatToStringShort | OmniscanAdmin/Controllers/ChipAuthController.cs:159 | a number below 10^k has at most k digits |
| Text.FormatD4 | OmniscanAdmin/Controllers/ChipAuthController.cs:159 | ToString("D4") of a number below 10000: exactly four digits denoting it |
| Text.Trim | OmniscanLogs/Program.cs:64 | no contract of its own: Trim is TrimEndBy after TrimStartBy over white space, so it removes exactly the white space at both ends; Text.TrimIdempotent and Text.TrimEmptyIff state its properties |
| Text.EqualsIgnoreCase | TCP/Program.cs:67 | no contract of its own: Equals with OrdinalIgnoreCase is equality after Text.ToLower, whose contract says what lower-casing does |
| Text.StartsWithIgnoreCase | TCP/Program.cs:71 | no contract of its own: StartsWith with OrdinalIgnoreCase is a prefix test after Text.ToLower; FileServer.Classify and LogsServer.ClassifyCases state what it decides |
| Text.ContainsIgnoreCase | OmniscanAdmin/Controllers/ChipApiController.cs:55 | no contract of its own: Contains with OrdinalIgnoreCase is Text.Contains after Text.ToLower; ChipManagement.ProtoByPrefix and ChipManagement.NotProtoWithoutP state when it holds |
| Text.TrimEndSemicolons | OmniscanLogs/Program.cs:130 | no contract of its own: TrimEnd(';') is Text.TrimEndBy with the semicolon, whose contract says it removes exactly the trailing semicolons; LogsServer.EntryInsidePayload states the entry it leaves |
| Text.TrimQuotes | VulnerableLogin/Controllers/MonitoringController.cs:166-167 | no contract of its own: Trim('"') is TrimEndBy after TrimStartBy with the double quote, whose contracts say what each end loses |
| Text.IndexOf | VulnerableLogin/Controllers/MonitoringController.cs:163 | the first position of the separator, or the length when it does not occur; none occurs before it |
| Text.Join | VulnerableLogin/Controllers/MonitoringController.cs:178 | no contract of its own: string.Join with the separator between consecutive parts; Text.Split states that joining Split's pieces with the separator gives back the string |
| TextFile.Append | TCP/Program.cs:130 | appending creates the file when absent and adds exactly one line at the end, keeping every earlier line |
| TextFile.Seed | TCP/Program.cs:22-26 | an existing file is returned untouched; an absent one becomes exactly the sample lines |
| TextFile.SeedIdempotent | OmniscanLogs/Program.cs:36-45 | seeding a second time changes nothing |
| FileServer.Classify | TCP/Program.cs:67-79 | a line is READ iff it equals `READ` ignoring case, with no trimming; otherwise it is WRITE iff it starts with `WRITE:` in any case, carrying exactly the text after the six-character prefix; otherwise it is unknown |
| FileServer.ClassifyEncode | TCP/Program.cs:67-73 | the request line of a READ or a WRITE of any text classifies back to that command |
| FileServer.Numbered | TCP/Program.cs:107-115 | line k of the result is `Line k+1: ` followed by stored line k, one per stored line |
| FileServer.LinesSent | TCP/Program.cs:104-117 | a READ sends at most the stored lines: all of them, or those read before the reader fails |
| FileServer.ReadReply | TCP/Program.cs:92-122 | no contract of its own: FileServer.ReadReplyRecoversLines states the complete reply and FileServer.ReaderFailureTruncates the reply of a failing reader |
| FileServer.ReaderFailureTruncates | TCP/Program.cs:102-121 | the header goes out before the file is opened, so a reader that fails after n lines leaves the header and the first min(n, count) numbered lines, a prefix of the complete reply, and never the trailer, so the client can tell the read was cut off |
| FileServer.ReadReplyRecoversLines | TCP/Program.cs:102-119 | when the reader does not fail, the READ reply is n + 2 lines: `OK: Reading file content`, then `Line k: <line k>` for k = 1..n in file order, then `--- END OF FILE ---`; stripping `Line k: ` from reply line k gives back the k-th stored line |
| FileServer.Step | TCP/Program.cs:67-79 | every request line gets a reply; READ and unknown lines leave the file unchanged, whether or not the reader fails; a WRITE appends exactly the text after the prefix, unless the append fails, when the file is unchanged |
| FileServer.StepReplies | TCP/Program.cs:96-119 | read off the raw line: READ answers with ReadReply, so a missing file gives only `ERROR: File not found`, a readable file the header, every numbered line and the trailer, and a reader failing after n lines only the header and the lines sent before it; a WRITE appends the text after `write:` and replies `OK: Written '<content>' to file`, or `ERROR: Failed to write to file - <msg>` with the file unchanged; any other line gets only the unknown-command error |
| FileServer.OnlyFirstLineCounts | TCP/Program.cs:58-63 | a connection handles only its first line; end of stream before any line gives no output and no change |
| FileServer.Connection | TCP/Program.cs:49-90 | no contract of its own: FileServer.OnlyFirstLineCounts, FileServer.ConnectionOnlyAppends, FileServer.WriteThenRead and FileServer.ConnectionKeepsWellFormed state what one connection does |
| FileServer.ConnectionOnlyAppends | TCP/Program.cs:85-88 | a connection keeps every stored line in order and adds at most one |
| FileServer.WriteThenRead | TCP/Program.cs:71-73 | after `WRITE:p` (even an empty p), a READ reports one more line, numbered n + 1 and holding exactly p, with the earlier lines unchanged |
| FileServer.ConnectionKeepsWellFormed | TCP/Program.cs:130 | request lines without line breaks keep the file made of whole lines |
| FileServer.Server.Start | TCP/Program.cs:147-158 | at startup the sample file is created only when no file is found |
| FileServer.Server.HandleReadCommand | TCP/Program.cs:92-122 | the loop with its running line number sends exactly the READ reply of the current file, stopping where the reader fails and then sending no trailer |
| FileServer.Server.HandleWriteCommand | TCP/Program.cs:124-139 | the append and its reply, or the error reply with the file unchanged, as in the step function |
| FileServer.Server.HandleClient | TCP/Program.cs:49-90 | one connection changes the file and answers exactly as the connection function does, including a READ cut short by a failing reader, after which the connection closes |
| LogsServer.CheckPayloadSpec | OmniscanLogs/Program.cs:116-131 | a payload is NoData iff it is blank; otherwise BadFormat iff it lacks `=` or does not end in `;`; otherwise it is accepted, and the entry is the payload with all trailing `;` removed, so it still contains `=` and never ends in `;` |
| LogsServer.CheckPayload | OmniscanLogs/Program.cs:116-131 | no contract of its own: LogsServer.CheckPayloadSpec states each verdict as an if-and-only-if of the payload |
| LogsServer.EntryInsidePayload | OmniscanLogs/Program.cs:130 | every character of an accepted entry comes from the payload |
| LogsServer.ClassifyCases | OmniscanLogs/Program.cs:64-77 | after trimming, a line is READ iff it equals `READ` ignoring case; otherwise it is WRITE iff it starts with `WRITE:` ignoring case, and the text after the prefix is validated |
| LogsServer.Classify | OmniscanLogs/Program.cs:64-77 | no contract of its own: LogsServer.ClassifyCases states its three cases as if-and-only-ifs, LogsServer.ClassifyRead and LogsServer.ClassifyWrite its round trips |
| LogsServer.ClassifyIgnoresSurroundingSpace | OmniscanLogs/Program.cs:64 | white space around a command never changes its meaning |
| LogsServer.BlankPayloadIsEmpty | OmniscanLogs/Program.cs:118-122 | because the line is trimmed first, the only blank payload that reaches validation is the empty one |
| LogsServer.EntryIsLine | OmniscanLogs/Program.cs:130 | an accepted entry has no line break that the request line did not have |
| LogsServer.TrimInside | OmniscanLogs/Program.cs:64 | every character of the trimmed line comes from the line |
| LogsServer.TrimOfTrimmed | OmniscanLogs/Program.cs:64 | a line that starts and ends with non-space characters is unchanged by trimming |
| LogsServer.ClassifyRead | OmniscanLogs/Program.cs:66-68 | the line `READ` is a READ |
| LogsServer.ClassifyWrite | OmniscanLogs/Program.cs:70-72 | `WRITE:p` is a WRITE whose validated payload is p, when p has no white space at either end |
| LogsServer.ReadReplyFrames | OmniscanLogs/Program.cs:87-110 | the READ reply is n + 2 lines: `LOGS_COUNT:n`, the n entries verbatim in order, `END_LOGS`; a missing file gives only `ERROR: Logs file not found`, and a failing read only the error with its message |
| LogsServer.ReadReply | OmniscanLogs/Program.cs:87-110 | no contract of its own: LogsServer.ReadReplyFrames states the reply for a missing file, a fault and a readable file |
| LogsServer.WriteReply | OmniscanLogs/Program.cs:112-139 | no contract of its own: LogsServer.Exec states the replies and the new file of every verdict |
| LogsServer.Exec | OmniscanLogs/Program.cs:112-139 | every command is answered; only an accepted WRITE with no failure changes the file, appending its entry and replying `OK: Log entry added`; blank, badly formatted and unknown commands reply with their errors and leave the file unchanged |
| LogsServer.Commands | OmniscanLogs/Program.cs:62-77 | one command per input line, classified in order |
| LogsServer.CommandAt | OmniscanLogs/Program.cs:62-77 | the k-th command is the classification of the k-th input line |
| LogsServer.Session | OmniscanLogs/Program.cs:49-85 | the two banner lines come first, followed by at least one reply line for every input line |
| LogsServer.Run | OmniscanLogs/Program.cs:62-78 | no contract of its own: LogsServer.RunAnswersEveryCommand, LogsServer.RunOnlyAppends, LogsServer.AcceptedWritesAppendInOrder and LogsServer.RunWriteThenRead state what a run does |
| LogsServer.RunAnswersEveryCommand | OmniscanLogs/Program.cs:62-78 | a bad command never ends the session: every command gets at least one reply line |
| LogsServer.RunOnlyAppends | OmniscanLogs/Program.cs:130 | a session keeps every stored entry in order and only adds entries at the end |
| LogsServer.AcceptedWritesAppendInOrder | OmniscanLogs/Program.cs:62-78 | in any session whose accepted writes do not fail, the file after it is the file before it followed by the entries of the accepted writes, in input order; READ, unknown and rejected commands anywhere in the session add nothing |
| LogsServer.AcceptedEntries | OmniscanLogs/Program.cs:130 | the entries the accepted writes of a command sequence add: at most one per command, none when no command is an accepted write, and one per command in order, each the payload without its trailing `;`, when all are |
| LogsServer.WriteThenRead | OmniscanLogs/Program.cs:93-99 | after an accepted write of P, READ reports a count one larger; its last entry is P without its trailing `;` and the earlier entries are unchanged |
| LogsServer.RunWriteThenRead | OmniscanLogs/Program.cs:130 | the same round trip holds for a WRITE and a READ sent in one session |
| LogsServer.RunKeepsWellFormed | OmniscanLogs/Program.cs:130 | when no accepted entry holds a line break, the file stays made of whole lines |
| LogsServer.SessionKeepsWellFormed | OmniscanLogs/Program.cs:62-64 | request lines without line breaks keep the file made of whole lines |
| LogsServer.Server.Start | OmniscanLogs/Program.cs:16-19 | the five initial entries are written only when no logs file is found |
| LogsServer.Server.HandleReadCommand | OmniscanLogs/Program.cs:87-110 | the foreach sends exactly the READ reply of the current file |
| LogsServer.Server.HandleWriteCommand | OmniscanLogs/Program.cs:112-139 | validation, the trimmed append or the error reply, as in the reply function |
| LogsServer.Server.HandleCommand | OmniscanLogs/Program.cs:64-77 | one request line changes the file and answers exactly as executing its classified command does |
| LogsServer.Server.HandleClient | OmniscanLogs/Program.cs:49-85 | the banner, then the read loop until end of stream, equal to the session function |
| JsonStore.ItemsOrEmpty | OmniscanAdmin/Controllers/ChipApiController.cs:249-262 | a missing or unreadable file reads as the empty list; a stored one reads as its items |
| JsonStore.LoadOrSeed | OmniscanAdmin/Controllers/ChipManagementController.cs:179-199 | an absent file is written with the defaults, which are returned; an unreadable one reads as empty and is not rewritten |
| JsonStore.LoadOrSeedStable | OmniscanAdmin/Controllers/ChipAuthController.cs:125-145 | once the defaults are written, the next load returns the same list |
| ChipModels.NewChip | OmniscanAdmin/Models/ChipModels.cs:34 | a chip created without initialisers has status `health` |
| ChipModels.NewUser | OmniscanAdmin/Models/ChipModels.cs:27 | a user created without a role has role `user` |
| ChipModels.LoginErrors | OmniscanAdmin/Models/ChipModels.cs:7-11 | a login form is valid iff both user name and password are present, with one message for each that is missing |
| ChipModels.TwoFactorErrors | OmniscanAdmin/Models/ChipModels.cs:18-20 | a 2FA code is valid iff it is present and exactly four characters long |
| ChipModels.TwoFactorAcceptsLetters | OmniscanAdmin/Models/ChipModels.cs:19 | digits are not enforced: four letters pass |
| ChipModels.DisableChipErrors | OmniscanAdmin/Models/ChipModels.cs:45-47 | a disable code is valid iff it is present and 10 to 50 characters long |
| ChipModels.UpdateChipStatusErrors | OmniscanAdmin/Models/ChipModels.cs:52-58 | a status update is valid iff its status is present |
| ChipModels.UpdateCommandOptional | OmniscanAdmin/Models/ChipModels.cs:58 | the command never affects validation |
| ChipModels.Missing | OmniscanAdmin/Models/ChipModels.cs:7-10 | no contract of its own: [Required] on a string fails for null, empty and white-space-only text; ChipModels.LoginErrors and the other error functions state the messages it triggers |
| ChipModels.IsProto | OmniscanAdmin/Controllers/ChipApiController.cs:55 | no contract of its own: a name containing "proto" in any case, the test also at `ChipManagementController.cs:37`; ChipManagement.ProtoByPrefix and ChipManagement.NotProtoWithoutP state when it holds, ChipApi.LookupRejections what it guards |
| HttpSession.GetString | OmniscanAdmin/Controllers/ChipManagementController.cs:175 | a string entry reads as itself; an absent key reads as null |
| HttpSession.GetInt32 | OmniscanAdmin/Controllers/ChipManagementController.cs:96 | a number entry reads as itself; an absent key reads as null |
| HttpSession.Increment | OmniscanAdmin/Controllers/ChipManagementController.cs:97 | `++` adds one, except that Int32.MaxValue wraps to Int32.MinValue |
| HttpSession.IsTrue | OmniscanAdmin/Controllers/ChipManagementController.cs:175 | no contract of its own: the `GetString(key) == "true"` gate, also at `VulnerableLogin/Controllers/AuthController.cs:103` and `MonitoringController.cs:33`; VulnerableAuth.DashboardStep and Monitoring.GetProcessesGate state what it admits |
| HttpSession.IsNullOrEmptyAt | OmniscanAdmin/Controllers/ChipAuthController.cs:86 | no contract of its own: `string.IsNullOrEmpty(GetString(key))`, also at `VulnerableLogin/Controllers/AuthController.cs:76`; ChipAuth.TwoFactorRules and VulnerableAuth.TwoFactorRules state that it sends the browser back to login |
| HttpSession.SetThenGet | OmniscanAdmin/Controllers/ChipAuthController.cs:54-55 | a key that has been set reads back its value, and every other key keeps its value |
| HttpSession.Session.constructor | OmniscanAdmin/Controllers/ChipManagementController.cs:175 | a fresh session holds no keys |
| HttpSession.Session.SetString | OmniscanAdmin/Controllers/ChipAuthController.cs:54 | sets one key and leaves the others |
| HttpSession.Session.SetInt32 | OmniscanAdmin/Controllers/ChipManagementController.cs:98 | sets one key and leaves the others |
| HttpSession.Session.Remove | OmniscanAdmin/Controllers/ChipManagementController.cs:106 | removes one key and leaves the others |
| HttpSession.Session.Clear | OmniscanAdmin/Controllers/ChipAuthController.cs:116 | empties the session |
| TwoFactorCode.CSharpRem | OmniscanAdmin/Controllers/ChipAuthController.cs:159 | C#'s truncating remainder: its absolute value is below the divisor, it takes the dividend's sign, and quotient times divisor plus remainder gives back the dividend |
| TwoFactorCode.PredictableCode | OmniscanAdmin/Controllers/ChipAuthController.cs:158-160 | for any hash, the code is four decimal digits whose value is the absolute value of the remainder modulo 9999 |
| TwoFactorCode.ExpectedCode | VulnerableLogin/Controllers/AuthController.cs:136-143 | GeneratePredictableCode, the same in both login controllers (also `OmniscanAdmin/Controllers/ChipAuthController.cs:154-161`): four decimal digits whose value is the absolute value of the truncating remainder of the name's hash by 9999, so at most 9998 |
| TwoFactorCode.CodeNeverAllNines | VulnerableLogin/Controllers/AuthController.cs:140-142 | the code is four digits between 0000 and 9998, so it is never 9999 |
| TwoFactorCode.CodeIgnoresSign | OmniscanAdmin/Controllers/ChipAuthController.cs:159 | a hash and its negation give the same code |
| TwoFactorCode.CodePeriodic | OmniscanAdmin/Controllers/ChipAuthController.cs:159 | hashes 9999 apart on the same side of zero give the same code |
| Lists.IndexWhere | OmniscanAdmin/Controllers/ChipApiController.cs:131 | FirstOrDefault: the first index whose element satisfies the predicate, or none when no element does |
| Lists.Filter | OmniscanAdmin/Controllers/ChipManagementController.cs:36-40 | Where: keeps exactly the elements satisfying the predicate |
| Lists.FilterAppend | OmniscanAdmin/Controllers/ChipManagementController.cs:36-40 | Where keeps the order: filtering a concatenation concatenates the filtered parts |
| Lists.FilterAll | OmniscanAdmin/Controllers/ChipManagementController.cs:36-40 | filtering a list whose elements all pass returns the list |
| Lists.FilterSnoc | VulnerableLogin/Controllers/MonitoringController.cs:150-153 | filtering one more element keeps it at the end exactly when it satisfies the predicate |
| Lists.Count | OmniscanAdmin/Controllers/ChipApiController.cs:200-202 | Count never exceeds the length |
| Lists.CountFilterBounded | OmniscanAdmin/Controllers/ChipApiController.cs:206-208 | a count over a filtered list is at most the count over the whole list |
| Lists.CountDisjoint | OmniscanAdmin/Controllers/ChipApiController.cs:200-202 | counts of predicates no element satisfies together add up to at most the length |
| Lists.Map | VulnerableLogin/Controllers/MonitoringController.cs:150-183 | Select: one result per element, in order |
| Lists.MapAppend | VulnerableLogin/Controllers/MonitoringController.cs:182 | mapping a concatenation concatenates the mapped parts |
| Lists.FilterOne | VulnerableLogin/Controllers/MonitoringController.cs:147 | filtering a single element keeps it exactly when it satisfies the predicate |
| Lists.NonEmptyIsFilter | VulnerableLogin/Controllers/MonitoringController.cs:147 | dropping the empty pieces is Where(piece is not empty): the non-empty pieces, each as often as it occurs, in their order |
| Lists.SplitRemoveEmptyIsFilter | VulnerableLogin/Controllers/MonitoringController.cs:147 | Split with RemoveEmptyEntries returns exactly the non-empty pieces of the plain Split, in order |
| ChipApi.FindChip | OmniscanAdmin/Controllers/ChipApiController.cs:46 | the index of the first chip with the id, or none when no chip has it |
| ChipApi.FindChipByIds | OmniscanAdmin/Controllers/ChipApiController.cs:131 | lookup depends only on the ids: two tables with the same ids in the same places find the same chip |
| ChipApi.StatusCommand | OmniscanAdmin/Controllers/ChipApiController.cs:71-77 | no contract of its own: the switch from the lower-cased status to the recorded command; ChipApi.UpdateFrame and ChipApi.FallbackUnreachable state which command a successful update records |
| ChipApi.UpdatedChip | OmniscanAdmin/Controllers/ChipApiController.cs:66-82 | no contract of its own: the lower-cased status, the time and the mapped command, replaced by the request's command when that is non-empty; ChipApi.UpdateFrame states it for the chip found |
| ChipApi.UpdateStatus | OmniscanAdmin/Controllers/ChipApiController.cs:26-111 | no contract of its own: ChipApi.StatusCheckedFirst, ChipApi.LookupRejections, ChipApi.UpdateSucceedsIff and ChipApi.UpdateFrame state its rejections, its success condition and what a success changes |
| ChipApi.StatusCheckedFirst | OmniscanAdmin/Controllers/ChipApiController.cs:35-44 | before any lookup, an empty status is rejected with `INVALID_STATUS`, then a status outside health/danger/disabled (ignoring case) with `INVALID_STATUS_VALUE`; the table is not written |
| ChipApi.LookupRejections | OmniscanAdmin/Controllers/ChipApiController.cs:46-64 | an unknown id gives 404 `CHIP_NOT_FOUND`; a chip whose name lacks "proto" (ignoring case) gives 403 `PROTO_ONLY_ACCESS`; neither changes the table |
| ChipApi.UpdateSucceedsIff | OmniscanAdmin/Controllers/ChipApiController.cs:35-85 | an update succeeds iff the status is non-empty and valid, the id is found and the chip is a prototype; otherwise the store is left as it was |
| ChipApi.UpdateFrame | OmniscanAdmin/Controllers/ChipApiController.cs:66-77 | on success only the first chip with the id changes: its status becomes the lower-cased request status, its last command the mapped one (or the request's non-empty command) and its time now; its id, name, serial number and code stay, and every other chip is unchanged |
| ChipApi.FallbackUnreachable | OmniscanAdmin/Controllers/ChipApiController.cs:71-83 | a successful update without a command records one of the three mapped commands and never the `STATUS_UPDATED` fallback |
| ChipApi.LoadTable | OmniscanAdmin/Controllers/ChipApiController.cs:227-262 | a fresh array holding the loaded chips: empty when the file is missing or unreadable |
| ChipApi.BatchCommand | OmniscanAdmin/Controllers/ChipApiController.cs:150-156 | no contract of its own: the batch switch from the lower-cased status to the `MASS_*` or `BATCH_STATUS_UPDATE` command; ChipApi.BatchLastWriterWins states the command the last update to a chip leaves |
| ChipApi.BatchStep | OmniscanAdmin/Controllers/ChipApiController.cs:131-164 | no contract of its own: ChipApi.BatchStepFrame states what one update of a batch may change |
| ChipApi.Batch | OmniscanAdmin/Controllers/ChipApiController.cs:129-165 | no contract of its own: ChipApi.BatchShape, ChipApi.BatchOthersKeep, ChipApi.BatchLastWriterWins and ChipApi.BatchAppend state its results and the final table |
| ChipApi.BatchUpdate | OmniscanAdmin/Controllers/ChipApiController.cs:119-182 | no contract of its own: ChipApi.BatchOnEmptyTable states it for a missing or unreadable file, and ChipApi.BatchUpdateChipStatus is proved equal to it |
| ChipApi.UpdateChipStatus | OmniscanAdmin/Controllers/ChipApiController.cs:26-111 | the in-place update of the loaded table saves and answers exactly what the update function states |
| ChipApi.BatchStepFrame | OmniscanAdmin/Controllers/ChipApiController.cs:131-164 | one update of a batch changes at most the chip it finds, and only a prototype; it never changes a chip's id, name, serial number or code |
| ChipApi.BatchShape | OmniscanAdmin/Controllers/ChipApiController.cs:129-165 | a batch produces one result per update, in input order and for the id the update named, and keeps every chip's identity |
| ChipApi.BatchFindsOriginal | OmniscanAdmin/Controllers/ChipApiController.cs:131 | because ids never change, every update finds the chip it would have found in the original table |
| ChipApi.BatchOthersKeep | OmniscanAdmin/Controllers/ChipApiController.cs:131-160 | a chip that no update of the batch names is not modified |
| ChipApi.BatchLastWriterWins | OmniscanAdmin/Controllers/ChipApiController.cs:147-156 | when an update is followed only by updates to other ids, its chip ends with its lower-cased status and its batch command (`BATCH_STATUS_UPDATE` for an unlisted status) |
| ChipApi.BatchAppend | OmniscanAdmin/Controllers/ChipApiController.cs:129-165 | the batch over two concatenated lists is the second list run on the table the first one left |
| ChipApi.BatchOnEmptyTable | OmniscanAdmin/Controllers/ChipApiController.cs:161-167 | against a missing or unreadable file every update is `Chip not found`, and an empty table is saved |
| ChipApi.ApplyUpdate | OmniscanAdmin/Controllers/ChipApiController.cs:131-164 | one pass of the loop changes the loaded array and produces a result exactly as one batch step states |
| ChipApi.BatchUpdateChipStatus | OmniscanAdmin/Controllers/ChipApiController.cs:119-182 | the foreach that mutates the loaded array and appends results saves and answers exactly the batch function |
| ChipApi.UpdatedCount | OmniscanAdmin/Controllers/ChipApiController.cs:172 | the count of successful results never exceeds the number of results |
| ChipApi.ProtoNames | OmniscanAdmin/Controllers/ChipApiController.cs:194 | one name per prototype chip |
| ChipApi.Statistics | OmniscanAdmin/Controllers/ChipApiController.cs:194-208 | no contract of its own: ChipApi.StatusCountsBounded and ChipApi.ProtoCountsBounded bound the counts, ChipApi.ProtoNamesMembers states which names are listed |
| ChipApi.GetSystemStatus | OmniscanAdmin/Controllers/ChipApiController.cs:189-225 | no contract of its own: the statistics of the table JsonStore.ItemsOrEmpty reads |
| ChipApi.StatusCountsBounded | OmniscanAdmin/Controllers/ChipApiController.cs:200-202 | healthy + critical + disabled is at most the total; chips with any other status are counted in none |
| ChipApi.ProtoCountsBounded | OmniscanAdmin/Controllers/ChipApiController.cs:206-208 | each prototype count is at most the matching overall count |
| ChipApi.ProtoNamesAppend | OmniscanAdmin/Controllers/ChipApiController.cs:194 | the prototype names keep table order |
| ChipApi.ProtoNamesMembers | OmniscanAdmin/Controllers/ChipApiController.cs:194 | every prototype chip's name is listed, and only prototype chips' names are |
| ChipManagement.IsUserAuthenticated | OmniscanAdmin/Controllers/ChipManagementController.cs:173-177 | true iff the session holds the string `true` under `FullyAuthenticated` |
| ChipManagement.LoadChips | OmniscanAdmin/Controllers/ChipManagementController.cs:179-199 | a missing chips.json is written with the default chips, which are returned; an unreadable one reads as empty |
| ChipManagement.DefaultChips | OmniscanAdmin/Controllers/ChipManagementController.cs:218-295 | no contract of its own: ChipManagement.DefaultChipsShape, ChipManagement.DefaultPrototypes and ChipManagement.DefaultsUnderOldFilter state the table |
| ChipManagement.DefaultChipsShape | OmniscanAdmin/Controllers/ChipManagementController.cs:218-294 | the default table has eight chips with ids 1 to 8 in order, all distinct, and none has a disable code |
| ChipManagement.DashboardShows | OmniscanAdmin/Controllers/ChipManagementController.cs:21-54 | behind the login gate, role `old` is shown exactly the chips whose name contains "proto" ignoring case or whose status is `disabled` or `inactive`, any other role the whole table, and the filtered count is the number shown |
| ChipManagement.Dashboard | OmniscanAdmin/Controllers/ChipManagementController.cs:20-54 | no contract of its own: ChipManagement.DashboardShows states the gate and the chips shown |
| ChipManagement.VisibleTo | OmniscanAdmin/Controllers/ChipManagementController.cs:33-40 | no contract of its own: ChipManagement.DashboardShows states that role `old` sees exactly the chips the filter keeps and every other role the whole table; ChipManagement.VisibleKeepsOrder that order is kept |
| ChipManagement.VisibleKeepsOrder | OmniscanAdmin/Controllers/ChipManagementController.cs:36-40 | the role filter keeps table order |
| ChipManagement.OldRoleVisible | OmniscanAdmin/Controllers/ChipManagementController.cs:36-40 | no contract of its own: a prototype, or a chip whose status is `disabled` or `inactive`; ChipManagement.DashboardShows states that role `old` sees exactly these chips |
| ChipManagement.ProtoByPrefix | OmniscanAdmin/Controllers/ChipManagementController.cs:37 | a name starting with "proto" is a prototype's |
| ChipManagement.NotProtoWithoutP | OmniscanAdmin/Controllers/ChipManagementController.cs:37 | a name without the letter p in either case is not a prototype's |
| ChipManagement.DefaultsUnderOldFilter | OmniscanAdmin/Controllers/ChipManagementController.cs:218-294 | under the `old` filter every default chip but `omniscan-gen1` is shown |
| ChipManagement.DefaultPrototypes | OmniscanAdmin/Controllers/ChipManagementController.cs:218-294 | the first five default chips are prototypes |
| ChipManagement.DisableGuards | OmniscanAdmin/Controllers/ChipManagementController.cs:59-69 | without full authentication the request goes to login, and without the admin role it is denied; neither changes the session or the table |
| ChipManagement.DisableLookupErrors | OmniscanAdmin/Controllers/ChipManagementController.cs:73-91 | a missing chip, or a chip with an empty disable code, is an error that changes neither the session nor the loaded table |
| ChipManagement.DisableWrongCodeCounts | OmniscanAdmin/Controllers/ChipManagementController.cs:93-103 | a wrong code sets the failed-attempt counter to one more than before (an absent counter counts as zero) and changes neither the table nor any other key |
| ChipManagement.DisableSucceeds | OmniscanAdmin/Controllers/ChipManagementController.cs:106-113 | the right code removes the counter and sets that one chip's status to `disabled`, its last command to `EMERGENCY_SHUTDOWN_INITIATED` and its time to now; every other chip and key is unchanged |
| ChipManagement.DefaultsCannotBeDisabled | OmniscanAdmin/Controllers/ChipManagementController.cs:86-91 | against the default table no chip can be disabled, since none has a code |
| ChipManagement.DisableKeepsAuthentication | OmniscanAdmin/Controllers/ChipManagementController.cs:93-106 | disabling never touches any session key but the counter |
| ChipManagement.Disable | OmniscanAdmin/Controllers/ChipManagementController.cs:57-119 | no contract of its own: ChipManagement.DisableGuards, ChipManagement.DisableLookupErrors, ChipManagement.DisableWrongCodeCounts and ChipManagement.DisableSucceeds state every outcome and what it changes |
| ChipManagement.DisableChip | OmniscanAdmin/Controllers/ChipManagementController.cs:57-119 | the in-place update of the session and the loaded chip list is exactly the disable function |
| ChipManagement.RefreshChipData | OmniscanAdmin/Controllers/ChipManagementController.cs:122-151 | the table is returned as it was; a refresh is reported iff the session is fully authenticated |
| ChipManagement.UnauthenticatedChangesNothing | OmniscanAdmin/Controllers/ChipManagementController.cs:23-26 | every action sends an unauthenticated session to login and changes neither the session nor chips.json |
| ChipAuth.LoadUsers | OmniscanAdmin/Controllers/ChipAuthController.cs:120-152 | a missing users.json is written with the default users, which are returned; when that write throws, the catch returns no users and the file stays missing; an unreadable file reads as empty |
| ChipAuth.DefaultUsersShape | OmniscanAdmin/Controllers/ChipAuthController.cs:128-133 | the defaults are three users, exactly one of them an administrator |
| ChipAuth.IsAdmin | OmniscanAdmin/Controllers/ChipAuthController.cs:58 | no contract of its own: the `Role == "admin"` test; ChipAuth.LoginSucceeds states that exactly these users are fully authenticated at login |
| ChipAuth.FindUser | OmniscanAdmin/Controllers/ChipAuthController.cs:37 | the first user with the name, or none when no user has it |
| ChipAuth.SignedIn | OmniscanAdmin/Controllers/ChipAuthController.cs:54-66 | no contract of its own: ChipAuth.LoginSucceeds states the keys it sets and ChipAuth.SignedInConsistent that it keeps the session consistent |
| ChipAuth.LoginStep | OmniscanAdmin/Controllers/ChipAuthController.cs:25-67 | no contract of its own: ChipAuth.LoginFailuresKeepSession, ChipAuth.LoginSucceeds, ChipAuth.FailedSeedLocksEveryoneOut and ChipAuth.LoginKeepsConsistent state its outcomes |
| ChipAuth.LoginFailuresKeepSession | OmniscanAdmin/Controllers/ChipAuthController.cs:31-51 | an invalid form, an unknown user name or a wrong password leaves the session as it was |
| ChipAuth.UnknownUserNamed | OmniscanAdmin/Controllers/ChipAuthController.cs:39-43 | the unknown-user error names the user that was entered |
| ChipAuth.LoginSucceeds | OmniscanAdmin/Controllers/ChipAuthController.cs:54-66 | correct credentials set `AuthenticatedUser` and `UserRole`; only role `admin` also gets `FullyAuthenticated = true` and `ChipAccessLevel = monitoring`, and goes straight to the dashboard |
| ChipAuth.DefaultAdminSkipsTwoFactor | OmniscanAdmin/Controllers/ChipAuthController.cs:57-63 | the default administrator signs in without a second factor |
| ChipAuth.FailedSeedLocksEveryoneOut | OmniscanAdmin/Controllers/ChipAuthController.cs:140-151 | when writing the default users throws, nobody signs in, not even the default administrator: the session is unchanged, the file stays missing and a valid form gets the unknown-user answer |
| ChipAuth.TwoFactorRules | OmniscanAdmin/Controllers/ChipAuthController.cs:83-111 | without `AuthenticatedUser` the browser goes to login with no change; a mismatch changes nothing; a match of the code derived from that name sets `FullyAuthenticated` and `ChipAccessLevel`; whenever a user name is signed in, the answer carries the code derived from it, whatever code was submitted |
| ChipAuth.RevealedCodePasses | OmniscanAdmin/Controllers/ChipAuthController.cs:93-104 | the code sent back in `X-Expected-2FA-Code` with a rejection is accepted when it is submitted |
| ChipAuth.TwoFactorStep | OmniscanAdmin/Controllers/ChipAuthController.cs:83-111 | no contract of its own: ChipAuth.TwoFactorRules and ChipAuth.TwoFactorRejectsImpossibleCodes state its outcomes |
| ChipAuth.TwoFactorRejectsImpossibleCodes | OmniscanAdmin/Controllers/ChipAuthController.cs:99-104 | a submitted code that is not four digits, or is 9999, never passes |
| ChipAuth.LogoutStep | OmniscanAdmin/Controllers/ChipAuthController.cs:114-118 | logout empties the session, so it is no longer authenticated |
| ChipAuth.LoginKeepsConsistent | OmniscanAdmin/Controllers/ChipAuthController.cs:54-66 | login keeps a consistent session consistent: full authentication always comes with a signed-in user and the monitoring access level |
| ChipAuth.SignedInConsistent | OmniscanAdmin/Controllers/ChipAuthController.cs:54-61 | the session after a successful login is consistent |
| ChipAuth.TwoFactorKeepsConsistent | OmniscanAdmin/Controllers/ChipAuthController.cs:107-108 | the second factor keeps a consistent session consistent |
| ChipAuth.DisableKeepsConsistent | OmniscanAdmin/Controllers/ChipManagementController.cs:96-106 | disabling a chip keeps a consistent session consistent |
| ChipAuth.Login | OmniscanAdmin/Controllers/ChipAuthController.cs:25-67 | the session updates of login are exactly the login function |
| ChipAuth.TwoFactor | OmniscanAdmin/Controllers/ChipAuthController.cs:83-111 | the session updates of the second factor are exactly the function |
| ChipAuth.Logout | OmniscanAdmin/Controllers/ChipAuthController.cs:114-118 | the session is cleared |
| VulnerableAuth.FindUser | VulnerableLogin/Controllers/AuthController.cs:37 | the first user with the name, or none when no user has it |
| VulnerableAuth.LoginValid | VulnerableLogin/Models/LoginModel.cs:7-11 | no contract of its own: both [Required] fields present and not white space only; VulnerableAuth.LoginRules states that login succeeds only when it holds |
| VulnerableAuth.LoginStep | VulnerableLogin/Controllers/AuthController.cs:25-57 | no contract of its own: VulnerableAuth.LoginRules and VulnerableAuth.NoUsersNoLogin state its outcomes |
| VulnerableAuth.LoginRules | VulnerableLogin/Controllers/AuthController.cs:31-57 | a failed login leaves the session unchanged; login succeeds iff the form is valid, the user exists and the password matches; success sets only `AuthenticatedUser` and never `FullyAuthenticated` |
| VulnerableAuth.NoUsersNoLogin | VulnerableLogin/Controllers/AuthController.cs:121-134 | with a missing or unreadable users.json nobody can sign in |
| VulnerableAuth.TwoFactorRules | VulnerableLogin/Controllers/AuthController.cs:73-98 | without `AuthenticatedUser` the browser goes to login with no change; the second factor succeeds iff the code matches the one derived from that name, and only then sets `FullyAuthenticated = true`; whenever a user name is signed in, the answer carries the code derived from it, whatever code was submitted |
| VulnerableAuth.RevealedCodePasses | VulnerableLogin/Controllers/AuthController.cs:82-94 | the code sent back in `X-Expected-2FA-Code` with a rejection is accepted when it is submitted |
| VulnerableAuth.TwoFactorStep | VulnerableLogin/Controllers/AuthController.cs:73-98 | no contract of its own: VulnerableAuth.TwoFactorRules states its outcomes as if-and-only-ifs |
| VulnerableAuth.DashboardStep | VulnerableLogin/Controllers/AuthController.cs:101-112 | the dashboard is shown iff `FullyAuthenticated` is `true`, greeting the signed-in name |
| VulnerableAuth.LogoutStep | VulnerableLogin/Controllers/AuthController.cs:115-119 | logout empties the session, so the dashboard is no longer shown |
| VulnerableAuth.LoginThenCodeReachesDashboard | VulnerableLogin/Controllers/AuthController.cs:54-111 | a fresh session does not reach the dashboard by login alone; login followed by the code derived from the name reaches it and greets that name |
| VulnerableAuth.Login | VulnerableLogin/Controllers/AuthController.cs:25-57 | the session updates of login are exactly the login function |
| VulnerableAuth.TwoFactor | VulnerableLogin/Controllers/AuthController.cs:73-98 | the session updates of the second factor are exactly the function |
| VulnerableAuth.Logout | VulnerableLogin/Controllers/AuthController.cs:115-119 | the session is cleared |
| Monitoring.CsvRecord | VulnerableLogin/Controllers/MonitoringController.cs:155-169 | a CSV record holds the trimmed line under `raw` |
| Monitoring.PsRecord | VulnerableLogin/Controllers/MonitoringController.cs:171-180 | a ps record holds the trimmed line under `raw` |
| Monitoring.ParseLine | VulnerableLogin/Controllers/MonitoringController.cs:155-182 | no contract of its own: Monitoring.ParseLineRaw, Monitoring.CsvLineFields, Monitoring.PsLineFields and Monitoring.PlainLineFields state the record of each kind of line |
| Monitoring.Take | VulnerableLogin/Controllers/MonitoringController.cs:150 | Take(n) is the first n pieces, or all of them when there are fewer |
| Monitoring.Records | VulnerableLogin/Controllers/MonitoringController.cs:150-183 | blank lines are skipped, so there are never more records than lines |
| Monitoring.SplitAtComma | VulnerableLogin/Controllers/MonitoringController.cs:163-164 | a line with a comma splits into at least two fields |
| Monitoring.ParseLineRaw | VulnerableLogin/Controllers/MonitoringController.cs:155-158 | every record holds the trimmed line under `raw`, and that is never empty |
| Monitoring.CsvLineFields | VulnerableLogin/Controllers/MonitoringController.cs:161-169 | a line with both `,` and `"` is read as CSV whatever spaces it holds: exactly `raw`, `name` and `pid`, the first two comma fields with their quotes trimmed |
| Monitoring.CsvRecordFields | VulnerableLogin/Controllers/MonitoringController.cs:164-168 | with two fields or more, a CSV record has `name` and `pid` from the first two |
| Monitoring.PsLineFields | VulnerableLogin/Controllers/MonitoringController.cs:171-180 | any other line with a space and two or more non-empty fields gets exactly `raw`, `user` (field 0), `pid` (field 1) and `name` (fields from the eleventh on joined by a space, or empty when there are at most ten) |
| Monitoring.PsRecordFields | VulnerableLogin/Controllers/MonitoringController.cs:174-179 | the same field layout for the record built from the fields |
| Monitoring.PlainLineFields | VulnerableLogin/Controllers/MonitoringController.cs:155-182 | every other line gets only its `raw` entry |
| Monitoring.RecordsBounded | VulnerableLogin/Controllers/MonitoringController.cs:144-153 | empty output gives no records, and no output gives more than 50 |
| Monitoring.RecordsFromFirstPieces | VulnerableLogin/Controllers/MonitoringController.cs:147-153 | the records are those of the non-blank pieces among the first 50, in input order |
| Monitoring.RecordsAppend | VulnerableLogin/Controllers/MonitoringController.cs:182 | records keep input order: the records of concatenated lines are the records of each part |
| Monitoring.RecordsSnoc | VulnerableLogin/Controllers/MonitoringController.cs:150-183 | one more line adds its record at the end when it is not blank, and nothing otherwise |
| Monitoring.RecordsAsMapFilter | VulnerableLogin/Controllers/MonitoringController.cs:150-153 | skipping blank lines inside the loop is the same as filtering them out first: the records are the parses of the non-blank lines, one each, in order |
| Monitoring.ProcessRecords | VulnerableLogin/Controllers/MonitoringController.cs:140-186 | no contract of its own: Monitoring.RecordsBounded and Monitoring.RecordsFromFirstPieces state which records come back |
| Monitoring.ParseOne | VulnerableLogin/Controllers/MonitoringController.cs:155-180 | the dictionary built entry by entry is the record of the line |
| Monitoring.ParseProcessOutput | VulnerableLogin/Controllers/MonitoringController.cs:140-186 | the foreach that builds the list gives exactly the records of the output |
| Monitoring.ParseLines | VulnerableLogin/Controllers/MonitoringController.cs:150-183 | the loop over the pieces, skipping blank ones, builds exactly their records |
| Monitoring.CombineOutput | VulnerableLogin/Controllers/MonitoringController.cs:124 | the output alone when the error text is empty; otherwise `OUTPUT:\n`, the output, `\nERROR:\n`, the error |
| Monitoring.DefaultCommand | VulnerableLogin/Controllers/MonitoringController.cs:127-138 | no contract of its own: `tasklist /fo csv` on Windows, `ps aux` elsewhere; Monitoring.GetProcessesGate states that an empty request runs it |
| Monitoring.Respond | VulnerableLogin/Controllers/MonitoringController.cs:54-65 | no contract of its own: Monitoring.GetProcessesGate states that a successful run returns the records of the combined output together with that output |
| Monitoring.GetProcesses | VulnerableLogin/Controllers/MonitoringController.cs:28-66 | no contract of its own: Monitoring.GetProcessesGate states the gate, the default command and the records returned |
| Monitoring.GetProcessesGate | VulnerableLogin/Controllers/MonitoringController.cs:30-67 | an unauthenticated request gets `Unauthorized` whatever the decoder and the shell do, so no command is run; an authenticated one is never refused, an empty request runs the default listing, and the records returned are those of the combined output, at most 50 |

## Left out

- Sockets, listeners, accept loops and the per-client tasks are not modelled: they are network I/O and concurrency. One session runs over a sequential store, so the race between concurrent appends is not modelled either.
- The `Task.Delay(500)` pacing of the TCP READ loop only affects timing, so it is left out.
- File I/O, JSON (de)serialisation and the probing of several paths for chips.json and users.json are library calls. A file is a value that is missing, unreadable or holding content, and the loaders map these as the code does.
- Saving chips.json is modelled as always succeeding: `SaveChipsToJson` catches and only logs its errors, so the answer is the same either way. A failed save does leave the file as it was, which the model does not follow. The seeding of users.json is different, because its write sits inside the loader's own try block. That failure is the `seedFails` input of `ChipAuth.LoadUsers`.
- `DateTime.Now` is the parameter `now`; the response timestamps are not modelled. The source reads the clock once per update of a batch, while the model gives every update of one batch the same `now`. No contract depends on the gap between these readings.
- `string.GetHashCode` is randomised per process, so it is the input `hashOf`.
- Running the shell command (`ExecuteCommand`), base64 decoding and UTF-8 decoding are the inputs `run` and `decode`. A failed decode answers with a fixed message instead of the .NET exception text.
- Response headers, log lines, ViewBag values and TempData wording are reduced to outcome tags and the data they carry.
- The GET actions that only render a view (the login and 2FA pages, ChipDetails, the monitoring page) are not modelled: they have no rules beyond the login gate.
- `OrdinalIgnoreCase`, `Trim` and `IsNullOrWhiteSpace` are modelled over ASCII, without Unicode case folding or culture rules.
- A batch update whose status is null throws (a 500 response). The model has no null status, because a string field left out of JSON is modelled as the empty string.
- ASP.NET's implicit model validation of the API controller's body is not modelled. That controller declares its own model class without validation attributes.
- How the session encodes values as bytes is not modelled. A key is a string or a number. `GetInt32` on a string entry reads as absent, and so does `GetString` on a number entry, where ASP.NET would decode the stored bytes as UTF-8. No key in the controllers is written with both types.
- `OmniscanAdmin/Models/SystemConfig.cs` (a lock-guarded flag) is not part of this model. Neither are `WebApplication1`, `Helper` (apart from the chip record's disable code), `NZTSite`, `OmniScanSite`, `OmniscanAdmin/Program.cs` and `VulnerableLogin/Models/LoginModel.cs`, whose fields appear directly in `VulnerableAuth`.
- Exceptions from file access in the two TCP servers are fault inputs, and their text is not derived from the file system. In the logs server, `ReadAllLinesAsync` reads the whole file before any line is sent, so a failed read sends only its error line. In the TCP file server, the header is sent before the file is opened. A reader that fails after n lines therefore leaves the header and those n lines, and the connection closes (`FileServer.Fault`). A failure of the network stream itself is not modelled.
- TextFile.Append: `File.AppendAllText` joins the new text onto the last line when the file does not end in a line break. The model always adds a separate line. The servers only ever write whole lines, so only a file edited from outside would differ.
