/** The chip status API of the OmniScan admin application (api/chipapi): a
    single status update, a batch of updates and the system statistics, all
    over the chip table in chips.json. The API reads a missing or unreadable
    file as an empty table. None of these endpoints checks the session. */
module ChipApi {
  import opened Text
  import opened ChipModels
  import opened JsonStore
  import opened Lists

  const ValidStatuses: seq<string> := ["health", "danger", "disabled"]

  const InvalidStatus := "INVALID_STATUS"
  const InvalidStatusValue := "INVALID_STATUS_VALUE"
  const ChipNotFound := "CHIP_NOT_FOUND"
  const ProtoOnlyAccess := "PROTO_ONLY_ACCESS"

  /** The LastCommand a single update records for a (lower-cased) status. */
  function StatusCommand(status: string): string {
    if status == "danger" then "CRITICAL_ANOMALY_DETECTED"
    else if status == "health" then "SYSTEM_RESTORED"
    else if status == "disabled" then "EMERGENCY_SHUTDOWN_EXTERNAL"
    else "STATUS_UPDATED"
  }

  /** The LastCommand a batch update records for a (lower-cased) status. */
  function BatchCommand(status: string): string {
    if status == "danger" then "MASS_ANOMALY_EVENT"
    else if status == "health" then "MASS_SYSTEM_RESTORE"
    else if status == "disabled" then "MASS_SHUTDOWN_EVENT"
    else "BATCH_STATUS_UPDATE"
  }

  /** FirstOrDefault(c => c.Id == id), as the index of that chip. */
  function FindChip(chips: seq<Chip>, id: int): (r: Option<nat>)
    ensures r.Some? ==> r.value < |chips| && chips[r.value].id == id
    ensures r.Some? ==> forall j :: 0 <= j < r.value ==> chips[j].id != id
    ensures r.None? ==> forall j :: 0 <= j < |chips| ==> chips[j].id != id
    decreases |chips|
  {
    if chips == [] then None
    else if chips[0].id == id then Some(0)
    else
      match FindChip(chips[1..], id)
      case None => None
      case Some(i) => Some(i + 1)
  }

  /** Chip lookup depends only on the ids: tables with the same ids in the
      same places find the same chip. */
  lemma {:induction false} FindChipByIds(a: seq<Chip>, b: seq<Chip>, id: int)
    requires |a| == |b| && forall j :: 0 <= j < |a| ==> a[j].id == b[j].id
    ensures FindChip(a, id) == FindChip(b, id)
  {
    var ra := FindChip(a, id);
    var rb := FindChip(b, id);
    if ra.Some? && rb.Some? {
      assert !(ra.value < rb.value) && !(rb.value < ra.value);
    }
  }

  /** The response of a single update. */
  datatype UpdateOutcome =
    | Updated(oldStatus: string, chip: Chip)
    | Rejected(httpStatus: int, code: string)

  /** The chip after a successful single update. */
  function UpdatedChip(c: Chip, status: string, command: Option<string>, now: Time): Chip {
    var lower := ToLower(status);
    var mapped := StatusCommand(lower);
    c.(status := lower, lastUpdate := now,
       lastCommand := if command.Some? && command.value != "" then command.value else mapped)
  }

  /** POST update-status: the new content of chips.json and the response. */
  function UpdateStatus(store: Store<Chip>, m: UpdateChipStatusModel, now: Time): (Store<Chip>, UpdateOutcome) {
    if m.status == "" then (store, Rejected(400, InvalidStatus))
    else if ToLower(m.status) !in ValidStatuses then (store, Rejected(400, InvalidStatusValue))
    else
      var chips := ItemsOrEmpty(store);
      match FindChip(chips, m.chipId)
      case None => (store, Rejected(404, ChipNotFound))
      case Some(i) =>
        if !IsProto(chips[i]) then (store, Rejected(403, ProtoOnlyAccess))
        else
          var c := UpdatedChip(chips[i], m.status, m.command, now);
          (Stored(chips[i := c]), Updated(chips[i].status, c))
  }

  /** Both status checks come before any lookup and reject without touching the table:
      an empty status, then a status outside the whitelist ignoring case. */
  lemma StatusCheckedFirst(store: Store<Chip>, m: UpdateChipStatusModel, now: Time)
    ensures m.status == "" ==> UpdateStatus(store, m, now) == (store, Rejected(400, InvalidStatus))
    ensures m.status != "" && ToLower(m.status) !in ValidStatuses ==>
      UpdateStatus(store, m, now) == (store, Rejected(400, InvalidStatusValue))
  {
  }

  /** A valid status for an unknown id, or for a chip that is not a prototype,
      is rejected and the table is left as it was. */
  lemma LookupRejections(store: Store<Chip>, m: UpdateChipStatusModel, now: Time)
    requires m.status != "" && ToLower(m.status) in ValidStatuses
    ensures var chips := ItemsOrEmpty(store);
      FindChip(chips, m.chipId).None? ==> UpdateStatus(store, m, now) == (store, Rejected(404, ChipNotFound))
    ensures var chips := ItemsOrEmpty(store);
      var i := FindChip(chips, m.chipId);
      i.Some? && !IsProto(chips[i.value]) ==> UpdateStatus(store, m, now) == (store, Rejected(403, ProtoOnlyAccess))
  {
  }

  /** An update succeeds exactly when the status is non-empty and valid, the
      id is found and the chip is a prototype; otherwise the table is unchanged. */
  lemma {:induction false} UpdateSucceedsIff(store: Store<Chip>, m: UpdateChipStatusModel, now: Time)
    ensures var r := UpdateStatus(store, m, now);
      var chips := ItemsOrEmpty(store);
      var i := FindChip(chips, m.chipId);
      r.1.Updated? <==> m.status != "" && ToLower(m.status) in ValidStatuses && i.Some? && IsProto(chips[i.value])
    ensures UpdateStatus(store, m, now).1.Rejected? ==> UpdateStatus(store, m, now).0 == store
  {
  }

  /** On success only the first chip with the id changes: its status becomes the
      lower-cased request status, its LastUpdate the current time and its
      LastCommand the request's command when one is given, the status's command
      otherwise; its id, name, serial number and disable code stay. */
  lemma {:induction false} UpdateFrame(store: Store<Chip>, m: UpdateChipStatusModel, now: Time)
    requires UpdateStatus(store, m, now).1.Updated?
    ensures var chips := ItemsOrEmpty(store);
      var i := FindChip(chips, m.chipId).value;
      var after := UpdateStatus(store, m, now).0;
      after.Stored? && |after.items| == |chips| &&
      (forall j :: 0 <= j < |chips| && j != i ==> after.items[j] == chips[j]) &&
      (forall j :: 0 <= j < i ==> chips[j].id != m.chipId) &&
      var c := after.items[i];
      c.id == chips[i].id == m.chipId && c.name == chips[i].name &&
      c.serialNumber == chips[i].serialNumber && c.disableCode == chips[i].disableCode &&
      c.status == ToLower(m.status) && c.lastUpdate == now &&
      (m.command.Some? && m.command.value != "" ==> c.lastCommand == m.command.value) &&
      (m.command.None? || m.command.value == "" ==> c.lastCommand == StatusCommand(ToLower(m.status))) &&
      UpdateStatus(store, m, now).1 == Updated(chips[i].status, c)
  {
  }

  /** After validation the status is one of the three, so without a command of
      its own an update always records one of the three mapped commands and
      never the STATUS_UPDATED fallback. */
  lemma {:induction false} FallbackUnreachable(store: Store<Chip>, m: UpdateChipStatusModel, now: Time)
    requires UpdateStatus(store, m, now).1.Updated?
    requires m.command.None? || m.command.value == ""
    ensures UpdateStatus(store, m, now).1.chip.lastCommand in
      ["CRITICAL_ANOMALY_DETECTED", "SYSTEM_RESTORED", "EMERGENCY_SHUTDOWN_EXTERNAL"]
  {
    UpdateFrame(store, m, now);
  }

  /** The chip table loaded into a list whose chip objects are updated in place. */
  method LoadTable(store: Store<Chip>) returns (chips: array<Chip>)
    ensures fresh(chips) && chips[..] == ItemsOrEmpty(store)
  {
    var items := ItemsOrEmpty(store);
    chips := new Chip[|items|](k requires 0 <= k < |items| => items[k]);
  }

  /** POST update-status. */
  method UpdateChipStatus(store: Store<Chip>, m: UpdateChipStatusModel, now: Time)
    returns (saved: Store<Chip>, outcome: UpdateOutcome)
    ensures (saved, outcome) == UpdateStatus(store, m, now)
  {
    if m.status == "" {
      return store, Rejected(400, InvalidStatus);
    }
    var lower := ToLower(m.status);
    if lower !in ValidStatuses {
      return store, Rejected(400, InvalidStatusValue);
    }
    var chips := LoadTable(store);
    var found := FindChip(chips[..], m.chipId);
    if found.None? {
      return store, Rejected(404, ChipNotFound);
    }
    var i := found.value;
    if !IsProto(chips[i]) {
      return store, Rejected(403, ProtoOnlyAccess);
    }
    var chip := chips[i];
    var oldStatus := chip.status;
    chip := chip.(status := lower);
    chip := chip.(lastUpdate := now);
    chip := chip.(lastCommand := StatusCommand(lower));
    if m.command.Some? && m.command.value != "" {
      chip := chip.(lastCommand := m.command.value);
    }
    chips[i] := chip;
    saved := Stored(chips[..]);
    outcome := Updated(oldStatus, chip);
  }

  /** One entry of a batch response. */
  datatype BatchResult =
    | BatchUpdated(chipId: int, oldStatus: string, newStatus: string)
    | BatchDenied(chipId: int)
    | BatchNotFound(chipId: int)

  predicate Succeeded(r: BatchResult) {
    r.BatchUpdated?
  }

  /** One update of a batch: the status is not validated, only lower-cased. */
  function BatchStep(chips: seq<Chip>, u: UpdateChipStatusModel, now: Time): (seq<Chip>, BatchResult) {
    match FindChip(chips, u.chipId)
    case None => (chips, BatchNotFound(u.chipId))
    case Some(i) =>
      if !IsProto(chips[i]) then (chips, BatchDenied(chips[i].id))
      else
        var lower := ToLower(u.status);
        var c := chips[i].(status := lower, lastUpdate := now, lastCommand := BatchCommand(lower));
        (chips[i := c], BatchUpdated(chips[i].id, chips[i].status, lower))
  }

  /** The updates of a batch applied in order to one table. */
  function Batch(chips: seq<Chip>, updates: seq<UpdateChipStatusModel>, now: Time): (seq<Chip>, seq<BatchResult>)
    decreases |updates|
  {
    if updates == [] then (chips, [])
    else
      var before := Batch(chips, updates[..|updates| - 1], now);
      var step := BatchStep(before.0, updates[|updates| - 1], now);
      (step.0, before.1 + [step.1])
  }

  /** POST batch-update: the table is saved whatever the updates did. */
  function BatchUpdate(store: Store<Chip>, updates: seq<UpdateChipStatusModel>, now: Time): (Store<Chip>, seq<BatchResult>) {
    var r := Batch(ItemsOrEmpty(store), updates, now);
    (Stored(r.0), r.1)
  }

  /** One update changes at most the chip it finds, and only if it is a
      prototype; it never changes a chip's id, name, serial number or code. */
  lemma BatchStepFrame(chips: seq<Chip>, u: UpdateChipStatusModel, now: Time)
    ensures var r := BatchStep(chips, u, now);
      |r.0| == |chips| && r.1.chipId == u.chipId &&
      (forall j :: 0 <= j < |chips| ==>
        r.0[j].id == chips[j].id && r.0[j].name == chips[j].name &&
        r.0[j].serialNumber == chips[j].serialNumber && r.0[j].disableCode == chips[j].disableCode) &&
      (forall j :: 0 <= j < |chips| && Some(j) != FindChip(chips, u.chipId) ==> r.0[j] == chips[j]) &&
      (Succeeded(r.1) <==> FindChip(chips, u.chipId).Some? && IsProto(chips[FindChip(chips, u.chipId).value])) &&
      (!Succeeded(r.1) ==> r.0 == chips)
  {
  }

  /** A batch answers each update with exactly one result, in input order and
      for the id it named, and keeps every chip's identity. */
  lemma {:induction false} BatchShape(chips: seq<Chip>, updates: seq<UpdateChipStatusModel>, now: Time)
    ensures var r := Batch(chips, updates, now);
      |r.1| == |updates| &&
      (forall k :: 0 <= k < |updates| ==> r.1[k].chipId == updates[k].chipId) &&
      |r.0| == |chips| &&
      (forall j :: 0 <= j < |chips| ==>
        r.0[j].id == chips[j].id && r.0[j].name == chips[j].name &&
        r.0[j].serialNumber == chips[j].serialNumber && r.0[j].disableCode == chips[j].disableCode)
    decreases |updates|
  {
    if updates != [] {
      var init := updates[..|updates| - 1];
      BatchShape(chips, init, now);
      BatchStepFrame(Batch(chips, init, now).0, updates[|updates| - 1], now);
    }
  }

  /** Because ids never change, every update of a batch finds the chip it
      would have found in the original table. */
  lemma BatchFindsOriginal(chips: seq<Chip>, updates: seq<UpdateChipStatusModel>, now: Time, id: int)
    ensures FindChip(Batch(chips, updates, now).0, id) == FindChip(chips, id)
  {
    BatchShape(chips, updates, now);
    FindChipByIds(Batch(chips, updates, now).0, chips, id);
  }

  /** Updates to other ids leave a chip alone. */
  lemma {:induction false} BatchOthersKeep(chips: seq<Chip>, updates: seq<UpdateChipStatusModel>, now: Time, i: nat)
    requires i < |chips|
    requires forall k :: 0 <= k < |updates| ==> updates[k].chipId != chips[i].id
    ensures |Batch(chips, updates, now).0| == |chips| && Batch(chips, updates, now).0[i] == chips[i]
    decreases |updates|
  {
    if updates != [] {
      var init := updates[..|updates| - 1];
      BatchOthersKeep(chips, init, now, i);
      var before := Batch(chips, init, now).0;
      var u := updates[|updates| - 1];
      BatchStepFrame(before, u, now);
      assert FindChip(before, u.chipId) != Some(i);
    }
  }

  /** Last writer wins: when the update `u` is followed only by updates to
      other ids and finds a prototype chip, that chip ends with u's
      lower-cased status and its batch command. */
  lemma {:induction false} BatchLastWriterWins(chips: seq<Chip>, pre: seq<UpdateChipStatusModel>,
                                                u: UpdateChipStatusModel, post: seq<UpdateChipStatusModel>, now: Time)
    requires FindChip(chips, u.chipId).Some? && IsProto(chips[FindChip(chips, u.chipId).value])
    requires forall k :: 0 <= k < |post| ==> post[k].chipId != u.chipId
    ensures var i := FindChip(chips, u.chipId).value;
      var after := Batch(chips, pre + [u] + post, now).0;
      i < |after| && after[i].status == ToLower(u.status) && after[i].lastCommand == BatchCommand(ToLower(u.status))
  {
    var i := FindChip(chips, u.chipId).value;
    var mid := Batch(chips, pre, now).0;
    BatchShape(chips, pre, now);
    BatchFindsOriginal(chips, pre, now, u.chipId);
    assert (pre + [u])[..|pre|] == pre;
    var afterU := Batch(chips, pre + [u], now).0;
    assert afterU == BatchStep(mid, u, now).0;
    assert mid[i].name == chips[i].name;
    BatchStepFrame(mid, u, now);
    BatchShape(chips, pre + [u], now);
    BatchAppend(chips, pre + [u], post, now);
    BatchOthersKeep(afterU, post, now, i);
  }

  /** A batch over the concatenation of two lists is the second run over the
      table the first one left. */
  lemma {:induction false} BatchAppend(chips: seq<Chip>, a: seq<UpdateChipStatusModel>, b: seq<UpdateChipStatusModel>, now: Time)
    ensures Batch(chips, a + b, now).0 == Batch(Batch(chips, a, now).0, b, now).0
    decreases |b|
  {
    if b == [] {
      assert a + b == a;
    } else {
      var bi := b[..|b| - 1];
      BatchAppend(chips, a, bi, now);
      assert (a + b)[..|a + b| - 1] == a + bi;
      assert (a + b)[|a + b| - 1] == b[|b| - 1];
    }
  }

  /** A batch against a missing or unreadable chips.json finds no chip and
      saves an empty table in its place. */
  lemma {:induction false} BatchOnEmptyTable(store: Store<Chip>, updates: seq<UpdateChipStatusModel>, now: Time)
    requires !store.Stored?
    ensures BatchUpdate(store, updates, now).0 == Stored([])
    ensures |BatchUpdate(store, updates, now).1| == |updates|
    ensures forall k :: 0 <= k < |updates| ==> BatchUpdate(store, updates, now).1[k] == BatchNotFound(updates[k].chipId)
    decreases |updates|
  {
    BatchShape([], updates, now);
    if updates != [] {
      BatchOnEmptyTable(store, updates[..|updates| - 1], now);
    }
  }

  /** The body of the batch loop: one update applied in place to the loaded table. */
  method ApplyUpdate(chips: array<Chip>, update: UpdateChipStatusModel, now: Time) returns (result: BatchResult)
    modifies chips
    ensures (chips[..], result) == BatchStep(old(chips[..]), update, now)
  {
    ghost var before := chips[..];
    var found := FindChip(chips[..], update.chipId);
    if found.None? {
      return BatchNotFound(update.chipId);
    }
    var i := found.value;
    if !IsProto(chips[i]) {
      return BatchDenied(chips[i].id);
    }
    var oldStatus := chips[i].status;
    var lower := ToLower(update.status);
    var c := chips[i].(status := lower, lastUpdate := now, lastCommand := BatchCommand(lower));
    chips[i] := c;
    assert chips[..] == before[i := c];
    result := BatchUpdated(c.id, oldStatus, lower);
  }

  /** POST batch-update: each update in turn mutates the loaded table and adds one result. */
  method BatchUpdateChipStatus(store: Store<Chip>, updates: seq<UpdateChipStatusModel>, now: Time)
    returns (saved: Store<Chip>, results: seq<BatchResult>)
    ensures (saved, results) == BatchUpdate(store, updates, now)
  {
    var chips := LoadTable(store);
    ghost var start := chips[..];
    results := [];
    var k := 0;
    while k < |updates|
      invariant 0 <= k <= |updates|
      invariant (chips[..], results) == Batch(start, updates[..k], now)
    {
      assert updates[..k + 1][..k] == updates[..k];
      var result := ApplyUpdate(chips, updates[k], now);
      results := results + [result];
      k := k + 1;
    }
    assert updates[..k] == updates;
    saved := Stored(chips[..]);
  }

  /** "N chips updated": how many results are successes. */
  function UpdatedCount(results: seq<BatchResult>): (n: nat)
    ensures n <= |results|
  {
    Count(results, Succeeded)
  }

  /** The statistics of GetSystemStatus. */
  datatype ProtoStats = ProtoStats(total: nat, healthy: nat, critical: nat, disabled: nat, names: seq<string>)
  datatype SystemStatus = SystemStatus(total: nat, healthy: nat, critical: nat, disabled: nat, proto: ProtoStats)

  predicate IsHealthy(c: Chip) { c.status == "health" }
  predicate IsCritical(c: Chip) { c.status == "danger" }
  predicate IsDisabled(c: Chip) { c.status == "disabled" }

  function NameOf(c: Chip): string { c.name }

  /** GET status over the loaded table; the status comparisons are case-sensitive. */
  function Statistics(chips: seq<Chip>): SystemStatus {
    var protos := Filter(chips, IsProto);
    SystemStatus(|chips|, Count(chips, IsHealthy), Count(chips, IsCritical), Count(chips, IsDisabled),
      ProtoStats(|protos|, Count(protos, IsHealthy), Count(protos, IsCritical), Count(protos, IsDisabled),
        ProtoNames(chips)))
  }

  /** The names of the prototype chips. */
  function ProtoNames(chips: seq<Chip>): (names: seq<string>)
    ensures |names| == |Filter(chips, IsProto)|
  {
    Map(Filter(chips, IsProto), NameOf)
  }

  function GetSystemStatus(store: Store<Chip>): SystemStatus {
    Statistics(ItemsOrEmpty(store))
  }

  /** Each chip is counted under at most one status, so the three counts add up
      to at most the total (chips with any other status, such as "inactive",
      are in none of them). */
  lemma {:induction false} StatusCountsBounded(chips: seq<Chip>)
    ensures var s := Statistics(chips);
      s.healthy + s.critical + s.disabled <= s.total
    decreases |chips|
  {
    if chips != [] {
      StatusCountsBounded(chips[..|chips| - 1]);
    }
  }

  /** The prototype figures are a part of the overall ones. */
  lemma ProtoCountsBounded(chips: seq<Chip>)
    ensures var s := Statistics(chips);
      s.proto.total <= s.total && s.proto.healthy <= s.healthy &&
      s.proto.critical <= s.critical && s.proto.disabled <= s.disabled
  {
    CountFilterBounded(chips, IsProto, IsHealthy);
    CountFilterBounded(chips, IsProto, IsCritical);
    CountFilterBounded(chips, IsProto, IsDisabled);
  }

  /** The prototype names are the names of the prototype chips in table
      order: the names of a concatenated table are the names of each part. */
  lemma ProtoNamesAppend(a: seq<Chip>, b: seq<Chip>)
    ensures ProtoNames(a + b) == ProtoNames(a) + ProtoNames(b)
  {
    FilterAppend(a, b, IsProto);
    MapAppend(Filter(a, IsProto), Filter(b, IsProto), NameOf);
  }

  /** Every prototype chip's name is listed, and only prototype chips' names are. */
  lemma ProtoNamesMembers(chips: seq<Chip>)
    ensures forall k :: 0 <= k < |chips| && IsProto(chips[k]) ==> chips[k].name in ProtoNames(chips)
    ensures forall k :: 0 <= k < |ProtoNames(chips)| ==>
      exists j :: 0 <= j < |chips| && IsProto(chips[j]) && chips[j].name == ProtoNames(chips)[k]
  {
    var ps := Filter(chips, IsProto);
    forall k | 0 <= k < |chips| && IsProto(chips[k]) ensures chips[k].name in ProtoNames(chips) {
      var j :| 0 <= j < |ps| && ps[j] == chips[k];
      assert ProtoNames(chips)[j] == chips[k].name;
    }
    forall k | 0 <= k < |ProtoNames(chips)|
      ensures exists j :: 0 <= j < |chips| && IsProto(chips[j]) && chips[j].name == ProtoNames(chips)[k]
    {
      var j :| 0 <= j < |chips| && chips[j] == ps[k];
      assert chips[j].name == ProtoNames(chips)[k];
    }
  }
}
