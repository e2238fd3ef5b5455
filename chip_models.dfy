/** The records of the OmniScan admin application: chips, users and the
    request models with their validation rules. A string the model binder
    receives blank (empty or white space only) is bound as null, which the
    model represents as the empty string; [Required] fails on it and
    [StringLength] does not look at it. */
module ChipModels {
  import opened Text

  /** DateTime values as a count of 100-nanosecond ticks. */
  type Time = int

  const TicksPerMinute: int := 600_000_000
  const TicksPerHour: int := 60 * TicksPerMinute

  /** A monitored chip; `disableCode` is the per-chip master code (empty when not configured). */
  datatype Chip = Chip(
    id: int,
    name: string,
    status: string,
    lastCommand: string,
    lastUpdate: Time,
    serialNumber: string,
    disableCode: string)

  datatype User = User(username: string, password: string, role: string)

  datatype LoginModel = LoginModel(username: string, password: string)

  datatype TwoFactorModel = TwoFactorModel(username: string, code: string)

  datatype DisableChipModel = DisableChipModel(chipId: int, disableCode: string)

  /** `command` is optional: None when the request leaves it out. */
  datatype UpdateChipStatusModel = UpdateChipStatusModel(chipId: int, status: string, command: Option<string>)

  /** A chip object created without initialisers; only the status has a default. */
  function NewChip(id: int, name: string): (c: Chip)
    ensures c.id == id && c.name == name && c.status == "health"
    ensures c.lastCommand == "" && c.serialNumber == "" && c.disableCode == ""
  {
    Chip(id, name, "health", "", 0, "", "")
  }

  /** A user created without a role is an ordinary user. */
  function NewUser(username: string, password: string): (u: User)
    ensures u.username == username && u.password == password && u.role == "user"
  {
    User(username, password, "user")
  }

  /** [Required] on a string: it fails on null, empty and white space only. */
  predicate Missing(s: string) {
    IsNullOrWhiteSpace(s)
  }

  /** The validation messages of a login form, in declaration order. */
  function LoginErrors(m: LoginModel): (errors: seq<string>)
    ensures errors == [] <==> !Missing(m.username) && !Missing(m.password)
    ensures |errors| <= 2
    ensures "Username is required" in errors <==> Missing(m.username)
    ensures "Password is required" in errors <==> Missing(m.password)
  {
    (if Missing(m.username) then ["Username is required"] else []) +
    (if Missing(m.password) then ["Password is required"] else [])
  }

  /** The 2FA form: the code is required and exactly four characters long;
      that they are digits is not checked. */
  function TwoFactorErrors(m: TwoFactorModel): (errors: seq<string>)
    ensures errors == [] <==> !Missing(m.code) && |m.code| == 4
    ensures Missing(m.code) ==> errors == ["2FA code is required"]
    ensures !Missing(m.code) && |m.code| != 4 ==> errors == ["Code must be 4 digits"]
  {
    if Missing(m.code) then ["2FA code is required"]
    else if |m.code| != 4 then ["Code must be 4 digits"]
    else []
  }

  /** Four letters pass the 2FA form's validation. */
  lemma TwoFactorAcceptsLetters()
    ensures TwoFactorErrors(TwoFactorModel("", "abcd")) == []
  {
    assert !IsWhiteSpace("abcd"[0]);
  }

  /** The disable form: the code is required and 10 to 50 characters long.
      The chip id is an int, which [Required] never rejects. */
  function DisableChipErrors(m: DisableChipModel): (errors: seq<string>)
    ensures errors == [] <==> !Missing(m.disableCode) && 10 <= |m.disableCode| <= 50
    ensures |errors| <= 1
  {
    if Missing(m.disableCode) then ["Master disable code is required"]
    else if |m.disableCode| < 10 || |m.disableCode| > 50 then ["Master disable code must be between 10-50 characters"]
    else []
  }

  /** The status update form: the status is required, the command is optional. */
  function UpdateChipStatusErrors(m: UpdateChipStatusModel): (errors: seq<string>)
    ensures errors == [] <==> !Missing(m.status)
    ensures |errors| <= 1
  {
    if Missing(m.status) then ["Status is required"] else []
  }

  /** The command never affects validation. */
  lemma UpdateCommandOptional(m: UpdateChipStatusModel, c: Option<string>)
    ensures UpdateChipStatusErrors(m.(command := c)) == UpdateChipStatusErrors(m)
  {
  }

  /** A prototype chip: its name contains "proto", ignoring case. */
  predicate IsProto(c: Chip) {
    ContainsIgnoreCase(c.name, "proto")
  }
}
