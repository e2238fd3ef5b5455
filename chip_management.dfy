/** The chip management pages of the OmniScan admin application: the
    dashboard with its role filter, the emergency disable with its per-chip
    code and failed-attempt counter, and the data refresh. Every action is
    behind the session's full authentication. This controller seeds chips.json
    with the default table when the file is absent. */
module ChipManagement {
  import opened Text
  import opened ChipModels
  import opened JsonStore
  import opened Lists
  import opened HttpSession
  import opened ChipApi

  const FullyAuthenticatedKey := "FullyAuthenticated"
  const UserRoleKey := "UserRole"
  const AuthenticatedUserKey := "AuthenticatedUser"
  const FailedAttemptsKey := "DisableFailedAttempts"

  /** IsUserAuthenticated: the session holds the string "true" under FullyAuthenticated. */
  function IsUserAuthenticated(values: Values): (b: bool)
    ensures b <==> FullyAuthenticatedKey in values && values[FullyAuthenticatedKey] == Text("true")
  {
    IsTrue(values, FullyAuthenticatedKey)
  }

  /** GenerateDefaultChips, with the current time `now`. No default chip has a disable code. */
  function DefaultChips(now: Time): seq<Chip> {
    [ Chip(1, "proto-01", "health", "MONITORING_ACTIVE", now - 5 * TicksPerMinute, "OSC-001-2024", ""),
      Chip(2, "proto-02", "danger", "ANOMALY_DETECTED_VITALS", now - 2 * TicksPerMinute, "OSC-002-2024", ""),
      Chip(3, "proto-03", "health", "SYNC_COMPLETE", now - 10 * TicksPerMinute, "OSC-003-2024", ""),
      Chip(4, "proto-04", "danger", "NEURAL_INTERFACE_ERROR", now - 1 * TicksPerMinute, "OSC-004-2024", ""),
      Chip(5, "proto-05", "health", "DATA_TRANSMISSION_OK", now - 7 * TicksPerMinute, "OSC-005-2024", ""),
      Chip(6, DefaultScannerName, "health", "NEURAL_SYNC_COMPLETE", now - 3 * TicksPerMinute, "OSC-GEN1-2024", ""),
      Chip(7, "legacy-chip-alpha", "inactive", "SYSTEM_HIBERNATION", now - 24 * TicksPerHour, "OSC-LEG-ALPHA", ""),
      Chip(8, "proto-beta-test", "disabled", "EMERGENCY_SHUTDOWN", now - 6 * TicksPerHour, "OSC-PROTO-BETA", "") ]
  }

  /** LoadChipsFromJson: a missing file is seeded with the defaults, which are
      also returned; an unreadable one reads as an empty table. */
  function LoadChips(store: Store<Chip>, now: Time): (r: (seq<Chip>, Store<Chip>))
    ensures store.Absent? ==> r.0 == DefaultChips(now) && r.1 == Stored(DefaultChips(now))
    ensures store.Unreadable? ==> r == ([], store)
    ensures store.Stored? ==> r == (store.items, store)
  {
    LoadOrSeed(store, DefaultChips(now))
  }

  /** The default table holds eight chips with the ids 1 to 8 in order and no disable code. */
  lemma DefaultChipsShape(now: Time)
    ensures |DefaultChips(now)| == 8
    ensures forall k :: 0 <= k < 8 ==> DefaultChips(now)[k].id == k + 1 && DefaultChips(now)[k].disableCode == ""
    ensures forall j, k :: 0 <= j < k < 8 ==> DefaultChips(now)[j].id != DefaultChips(now)[k].id
  {
  }

  /** What a user with role "old" is shown of a chip. */
  predicate OldRoleVisible(c: Chip) {
    IsProto(c) || c.status == "disabled" || c.status == "inactive"
  }

  function VisibleTo(role: Option<string>, chips: seq<Chip>): seq<Chip> {
    if role == Some("old") then Filter(chips, OldRoleVisible) else chips
  }

  /** The response of Dashboard. The flags and the count are what the view receives. */
  datatype DashboardOutcome =
    | DashboardToLogin
    | DashboardView(chips: seq<Chip>, username: Option<string>, role: Option<string>,
                    isAdmin: bool, isOldRole: bool, filteredCount: nat)

  /** Dashboard: the new content of chips.json and the response. */
  function Dashboard(values: Values, store: Store<Chip>, now: Time): (Store<Chip>, DashboardOutcome) {
    if !IsUserAuthenticated(values) then (store, DashboardToLogin)
    else
      var loaded := LoadChips(store, now);
      var role := GetString(values, UserRoleKey);
      var shown := VisibleTo(role, loaded.0);
      (loaded.1, DashboardView(shown, GetString(values, AuthenticatedUserKey), role,
                               role == Some("admin"), role == Some("old"), |shown|))
  }

  /** Role "old" is shown exactly the prototype, disabled and inactive chips
      of the table, in table order; any other role is shown the whole table;
      the filtered count is always the number shown. */
  lemma {:induction false} DashboardShows(values: Values, store: Store<Chip>, now: Time)
    requires IsUserAuthenticated(values)
    ensures var r := Dashboard(values, store, now).1;
      var table := LoadChips(store, now).0;
      r.DashboardView? && r.filteredCount == |r.chips| &&
      (GetString(values, UserRoleKey) != Some("old") ==> r.chips == table) &&
      (GetString(values, UserRoleKey) == Some("old") ==>
        (forall k :: 0 <= k < |r.chips| ==> OldRoleVisible(r.chips[k]) && r.chips[k] in table) &&
        (forall k :: 0 <= k < |table| && OldRoleVisible(table[k]) ==> table[k] in r.chips))
  {
  }

  /** The role filter keeps table order: the chips shown of two consecutive
      parts of a table are those of the first part followed by those of the second. */
  lemma VisibleKeepsOrder(role: Option<string>, a: seq<Chip>, b: seq<Chip>)
    ensures VisibleTo(role, a + b) == VisibleTo(role, a) + VisibleTo(role, b)
  {
    FilterAppend(a, b, OldRoleVisible);
  }

  /** A name starting with "proto" in lower case is a prototype's. */
  lemma ProtoByPrefix(name: string)
    requires StartsWith(name, "proto")
    requires forall i :: 0 <= i < |name| ==> !('A' <= name[i] <= 'Z')
    ensures ContainsIgnoreCase(name, "proto")
  {
    assert ToLower(name) == name;
    assert ToLower("proto") == "proto";
    assert OccursAt(name, "proto", 0);
  }

  /** A name without the letters p and P is not a prototype's. */
  lemma NotProtoWithoutP(name: string)
    requires 'p' !in name && 'P' !in name
    ensures !ContainsIgnoreCase(name, "proto")
  {
    assert ToLower("proto") == "proto";
    var low := ToLower(name);
    forall j | 0 <= j < |low| ensures low[j] != 'p' {
      assert name[j] in name;
    }
    NoPNoProto(low);
  }

  lemma NoPNoProto(low: string)
    requires forall j :: 0 <= j < |low| ==> low[j] != 'p'
    ensures forall i :: !OccursAt(low, "proto", i)
  {
    forall i | 0 <= i && i + 5 <= |low| ensures !OccursAt(low, "proto", i) {
      assert low[i..i + 5][0] == low[i];
    }
  }

  /** Under the "old" filter every default chip but omniscan-gen1 (the sixth) is shown. */
  lemma DefaultsUnderOldFilter(now: Time)
    ensures forall k :: 0 <= k < 8 ==> (OldRoleVisible(DefaultChips(now)[k]) <==> k != 5)
  {
    DefaultPrototypes(now);
    NotProtoWithoutP(DefaultScannerName);
  }

  const DefaultScannerName := "omniscan-gen1"

  /** The first five default chips are prototypes. */
  lemma DefaultPrototypes(now: Time)
    ensures forall k :: 0 <= k < 5 ==> IsProto(DefaultChips(now)[k])
  {
    ProtoByPrefix("proto-01");
    ProtoByPrefix("proto-02");
    ProtoByPrefix("proto-03");
    ProtoByPrefix("proto-04");
    ProtoByPrefix("proto-05");
  }

  /** The response of DisableChip. */
  datatype DisableOutcome =
    | DisableToLogin
    | DisableDenied
    | DisableChipNotFound
    | DisableCodeNotConfigured
    | DisableWrongCode(attempts: int32)
    | DisableDone(chip: Chip)

  /** DisableChip: the new session, the new content of chips.json and the response.
      The form's validation attributes are not consulted. */
  function Disable(values: Values, store: Store<Chip>, m: DisableChipModel, now: Time): (Values, Store<Chip>, DisableOutcome) {
    if !IsUserAuthenticated(values) then (values, store, DisableToLogin)
    else if GetString(values, UserRoleKey) != Some("admin") then (values, store, DisableDenied)
    else
      var loaded := LoadChips(store, now);
      var chips := loaded.0;
      match FindChip(chips, m.chipId)
      case None => (values, loaded.1, DisableChipNotFound)
      case Some(i) =>
        if chips[i].disableCode == "" then (values, loaded.1, DisableCodeNotConfigured)
        else if m.disableCode != chips[i].disableCode then
          var attempts := Increment(GetInt32(values, FailedAttemptsKey).GetOr(0));
          (values[FailedAttemptsKey := Number(attempts)], loaded.1, DisableWrongCode(attempts))
        else
          var c := chips[i].(status := "disabled", lastCommand := "EMERGENCY_SHUTDOWN_INITIATED", lastUpdate := now);
          (values - {FailedAttemptsKey}, Stored(chips[i := c]), DisableDone(c))
  }

  /** Without full authentication, or without the admin role, nothing changes. */
  lemma DisableGuards(values: Values, store: Store<Chip>, m: DisableChipModel, now: Time)
    ensures !IsUserAuthenticated(values) ==> Disable(values, store, m, now) == (values, store, DisableToLogin)
    ensures IsUserAuthenticated(values) && GetString(values, UserRoleKey) != Some("admin") ==>
      Disable(values, store, m, now) == (values, store, DisableDenied)
  {
  }

  /** A missing chip or one without a disable code is an error that leaves the
      session as it was and the table as loaded (a missing file has just been
      seeded with the defaults). */
  lemma DisableLookupErrors(values: Values, store: Store<Chip>, m: DisableChipModel, now: Time)
    requires IsUserAuthenticated(values) && GetString(values, UserRoleKey) == Some("admin")
    ensures var r := Disable(values, store, m, now);
      var chips := LoadChips(store, now).0;
      var i := FindChip(chips, m.chipId);
      (i.None? || chips[i.value].disableCode == "") ==>
        r.0 == values && r.1 == LoadChips(store, now).1 &&
        r.2 == (if i.None? then DisableChipNotFound else DisableCodeNotConfigured)
  {
  }

  /** A wrong code counts one more failed attempt, an absent counter counting
      as zero, and changes neither the table nor any other session key. */
  lemma DisableWrongCodeCounts(values: Values, store: Store<Chip>, m: DisableChipModel, now: Time)
    requires Disable(values, store, m, now).2.DisableWrongCode?
    ensures var r := Disable(values, store, m, now);
      var before := GetInt32(values, FailedAttemptsKey).GetOr(0);
      r.1 == LoadChips(store, now).1 &&
      GetInt32(r.0, FailedAttemptsKey) == Some(r.2.attempts) &&
      (before < Int32Max ==> r.2.attempts as int == before as int + 1) &&
      (GetInt32(values, FailedAttemptsKey).None? ==> r.2.attempts == 1) &&
      (forall key :: key in values && key != FailedAttemptsKey ==> key in r.0 && r.0[key] == values[key]) &&
      (forall key :: key in r.0 && key != FailedAttemptsKey ==> key in values)
  {
  }

  /** The right code clears the counter and disables that one chip, stamping it
      with the current time; every other chip and every other key is unchanged. */
  lemma DisableSucceeds(values: Values, store: Store<Chip>, m: DisableChipModel, now: Time)
    requires Disable(values, store, m, now).2.DisableDone?
    ensures var r := Disable(values, store, m, now);
      var chips := LoadChips(store, now).0;
      var i := FindChip(chips, m.chipId);
      i.Some? && chips[i.value].disableCode != "" && m.disableCode == chips[i.value].disableCode &&
      FailedAttemptsKey !in r.0 &&
      (forall key :: key in values && key != FailedAttemptsKey ==> key in r.0 && r.0[key] == values[key]) &&
      (forall key :: key in r.0 ==> key in values) &&
      r.1.Stored? && |r.1.items| == |chips| &&
      (forall j :: 0 <= j < |chips| && j != i.value ==> r.1.items[j] == chips[j]) &&
      r.1.items[i.value] == r.2.chip &&
      r.2.chip.status == "disabled" && r.2.chip.lastCommand == "EMERGENCY_SHUTDOWN_INITIATED" &&
      r.2.chip.lastUpdate == now &&
      r.2.chip.id == chips[i.value].id && r.2.chip.name == chips[i.value].name &&
      r.2.chip.serialNumber == chips[i.value].serialNumber && r.2.chip.disableCode == chips[i.value].disableCode
  {
  }

  /** Against the default table no chip can be disabled: none has a code. */
  lemma DefaultsCannotBeDisabled(values: Values, m: DisableChipModel, now: Time)
    ensures !Disable(values, Absent, m, now).2.DisableDone?
  {
    DefaultChipsShape(now);
  }

  /** DisableChip never touches the authentication keys of the session. */
  lemma DisableKeepsAuthentication(values: Values, store: Store<Chip>, m: DisableChipModel, now: Time, key: string)
    requires key != FailedAttemptsKey
    ensures var after := Disable(values, store, m, now).0;
      (key in after <==> key in values) && (key in values ==> after[key] == values[key])
  {
  }

  /** DisableChip over the session object and the chip table loaded as a list of chip objects. */
  method DisableChip(session: Session, store: Store<Chip>, m: DisableChipModel, now: Time)
    returns (saved: Store<Chip>, outcome: DisableOutcome)
    modifies session
    ensures (session.values, saved, outcome) == Disable(old(session.values), store, m, now)
  {
    if !IsUserAuthenticated(session.values) {
      return store, DisableToLogin;
    }
    if GetString(session.values, UserRoleKey) != Some("admin") {
      return store, DisableDenied;
    }
    var loaded := LoadChips(store, now);
    saved := loaded.1;
    var items := loaded.0;
    var chips := new Chip[|items|](k requires 0 <= k < |items| => items[k]);
    assert chips[..] == items;
    var found := FindChip(chips[..], m.chipId);
    if found.None? {
      return saved, DisableChipNotFound;
    }
    var i := found.value;
    if chips[i].disableCode == "" {
      return saved, DisableCodeNotConfigured;
    }
    if m.disableCode != chips[i].disableCode {
      var failedAttempts := GetInt32(session.values, FailedAttemptsKey).GetOr(0);
      failedAttempts := Increment(failedAttempts);
      session.SetInt32(FailedAttemptsKey, failedAttempts);
      return saved, DisableWrongCode(failedAttempts);
    }
    session.Remove(FailedAttemptsKey);
    var chip := chips[i].(status := "disabled", lastCommand := "EMERGENCY_SHUTDOWN_INITIATED", lastUpdate := now);
    chips[i] := chip;
    saved := Stored(chips[..]);
    outcome := DisableDone(chip);
  }

  datatype RefreshOutcome = RefreshToLogin | Refreshed

  /** RefreshChipData: behind the gate it reports a refresh but neither reads
      nor writes chips.json, so the table is returned as it was. */
  function RefreshChipData(values: Values, store: Store<Chip>): (r: (Store<Chip>, RefreshOutcome))
    ensures r.0 == store
    ensures r.1 == Refreshed <==> IsUserAuthenticated(values)
  {
    if !IsUserAuthenticated(values) then (store, RefreshToLogin) else (store, Refreshed)
  }

  /** Every action of the controller sends an unauthenticated session to the
      login page and changes neither the session nor chips.json. */
  lemma UnauthenticatedChangesNothing(values: Values, store: Store<Chip>, m: DisableChipModel, now: Time)
    requires !IsUserAuthenticated(values)
    ensures Dashboard(values, store, now) == (store, DashboardToLogin)
    ensures Disable(values, store, m, now) == (values, store, DisableToLogin)
    ensures RefreshChipData(values, store) == (store, RefreshToLogin)
  {
  }
}
