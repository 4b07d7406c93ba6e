/**
  The incoming status update from the permit service
  (`TransportPassRequestUpdateView.update` with `get_status_date` and
  `get_start_end_date`).

  The payload's fields are nullable strings; an absent key is `None`. Timestamps
  are read by `parse`, which stands for `datetime.strptime` with one of the two
  accepted formats. Any exception inside the update turns the answer into a 400.
  `Update` is stated for the corrected reading of a missing `statusDate` (the
  current time, `StatusDate`); as written that case raises, which
  `StatusDateAsWritten` and `MissingStatusDateRejected` record.
 */
module StatusUpdate {
  import opened Records
  import opened Store

  /** `FORMAT_DATE_FZ` (`%Y-%m-%dT%H:%M:%S.%fZ`) and `FORMAT_DATE` (`%Y-%m-%dT%H:%M`). */
  datatype Format = WithFraction | Minutes

  datatype UpdateData = UpdateData(
    messageId: Option<string>,
    requestId: Option<string>,
    requestStatus: Option<string>,
    statusDate: Option<string>,
    passId: Option<string>,
    seriesNumber: Option<string>,
    status: Option<string>,
    dateCancellation: Option<string>,
    cancelReason: Option<string>,
    startDate: Option<string>,
    endDate: Option<string>,
    zone: Option<string>,
    reason: Option<string>)

  /** A timestamp read with the fractional format first and the minutes format only if that fails; None when both fail. */
  function ParseTimestamp(s: string, parse: (string, Format) -> Option<DateTime>): (r: Option<DateTime>)
    ensures r.Some? <==> parse(s, WithFraction).Some? || parse(s, Minutes).Some?
    ensures parse(s, WithFraction).Some? ==> r == parse(s, WithFraction)
    ensures parse(s, WithFraction).None? ==> r == parse(s, Minutes)
  {
    var first := parse(s, WithFraction);
    if first.Some? then first else parse(s, Minutes)
  }

  /** A field read only when filled: None on a parse failure, Some(None) when the field is empty or absent. */
  function OptionalTimestamp(field: Option<string>, parse: (string, Format) -> Option<DateTime>): Option<Option<DateTime>> {
    if !Filled(field) then Some(None)
    else
      var t := ParseTimestamp(field.value, parse);
      if t.None? then None else Some(t)
  }

  /** `get_status_date` as written: an absent status date reaches `datetime.date().today()`, which raises. */
  function StatusDateAsWritten(data: UpdateData, parse: (string, Format) -> Option<DateTime>): Option<DateTime> {
    if Filled(data.statusDate) then ParseTimestamp(data.statusDate.value, parse) else None
  }

  /** `get_status_date` as intended: an absent status date means now. */
  function StatusDate(data: UpdateData, parse: (string, Format) -> Option<DateTime>, now: DateTime): Option<DateTime> {
    if Filled(data.statusDate) then ParseTimestamp(data.statusDate.value, parse) else Some(now)
  }

  /** The dates the update sets only when given: cancellation timestamp, start day, end day. */
  datatype GivenDates = GivenDates(cancellation: Option<DateTime>, start: Option<Date>, end: Option<Date>)

  function Day(t: Option<DateTime>): Option<Date> {
    if t.Some? then Some(t.value.day) else None
  }

  /** The given dates, or None when one of them cannot be read. */
  function GivenDatesOf(data: UpdateData, parse: (string, Format) -> Option<DateTime>): Option<GivenDates> {
    var cancellation := OptionalTimestamp(data.dateCancellation, parse);
    var start := OptionalTimestamp(data.startDate, parse);
    var end := OptionalTimestamp(data.endDate, parse);
    if cancellation.None? || start.None? || end.None? then None
    else Some(GivenDates(cancellation.value, Day(start.value), Day(end.value)))
  }

  /** `ZoneReference.objects.filter(code=zone).first()`. */
  function FirstZone(zones: seq<Zone>, code: Option<string>): (r: Option<Zone>)
    ensures r.Some? ==> r.value in zones && code == Some(r.value.code)
    ensures r.None? ==> forall z :: z in zones ==> code != Some(z.code)
    ensures forall j :: 0 <= j < |zones| && code == Some(zones[j].code) && (forall k :: 0 <= k < j ==> code != Some(zones[k].code))
                        ==> r == Some(zones[j])
  {
    if zones == [] then None
    else if code == Some(zones[0].code) then Some(zones[0])
    else
      assert forall j :: 1 <= j < |zones| && code == Some(zones[j].code) && (forall k :: 0 <= k < j ==> code != Some(zones[k].code))
                         ==> code == Some(zones[1..][j - 1].code) && (forall k :: 0 <= k < j - 1 ==> code != Some(zones[1..][k].code));
      FirstZone(zones[1..], code)
  }

  /**
    Django's conversion of a lookup value for a UUID column: the canonical form of
    every spelling `uuid.UUID` accepts (any case, with or without hyphens or
    braces), or None when the text is not a UUID, where the query raises a
    `ValidationError`. Stored UUIDs are held in that canonical form.
   */
  type UuidOf = string -> Option<Uuid>

  /** Which pass requests the update addresses: a converted request id, or a mass request. */
  datatype Key = ByRequestId(requestId: Uuid) | ByMassRequest(massId: Id)

  /**
    `TransportPassRequest.objects.filter(mess_id=...).first()` for a converted
    message id: the first mass request with it (None matches a missing one).
   */
  function FirstMass(masses: seq<MassRequest>, messId: Option<Uuid>): (r: Option<MassRequest>)
    ensures r.Some? ==> r.value in masses && r.value.messId == messId
    ensures r.None? ==> forall m :: m in masses ==> m.messId != messId
    ensures forall j :: 0 <= j < |masses| && masses[j].messId == messId && (forall k :: 0 <= k < j ==> masses[k].messId != messId)
                        ==> r == Some(masses[j])
  {
    if masses == [] then None
    else if masses[0].messId == messId then Some(masses[0])
    else
      assert forall j :: 1 <= j < |masses| && masses[j].messId == messId && (forall k :: 0 <= k < j ==> masses[k].messId != messId)
                         ==> masses[1..][j - 1].messId == messId && (forall k :: 0 <= k < j - 1 ==> masses[1..][k].messId != messId);
      FirstMass(masses[1..], messId)
  }

  /** The message id as the `mess_id` lookup sees it: an absent one is NULL; None when the text is not a UUID. */
  function MessageLookup(messageId: Option<string>, uuidOf: UuidOf): Option<Option<Uuid>> {
    if messageId.None? then Some(None)
    else
      var u := uuidOf(messageId.value);
      if u.None? then None else Some(u)
  }

  /**
    The key of the update, or None where the code answers 400: a request id or
    message id that is not a UUID, or no mass request with the message id (the
    attribute read on `None`).
   */
  function KeyOf(masses: seq<MassRequest>, data: UpdateData, uuidOf: UuidOf): Option<Key> {
    if Filled(data.requestId) then
      var u := uuidOf(data.requestId.value);
      if u.None? then None else Some(ByRequestId(u.value))
    else
      var lookup := MessageLookup(data.messageId, uuidOf);
      if lookup.None? then None
      else
        var mass := FirstMass(masses, lookup.value);
        if mass.None? then None else Some(ByMassRequest(mass.value.id))
  }

  predicate Addressed(p: PassRequest, key: Key) {
    match key
    case ByRequestId(r) => p.pId == Some(r)
    case ByMassRequest(m) => p.massId == Some(m)
  }

  /** A pass request after the update: copied fields overwritten, given dates set, zone looked up. */
  function Revised(p: PassRequest, data: UpdateData, statusDate: DateTime, dates: GivenDates, zone: Option<Zone>): PassRequest {
    p.(requestStatus := data.requestStatus,
       statusDate := Some(statusDate),
       passId := data.passId,
       passSeriesNumber := data.seriesNumber,
       passStatus := data.status,
       passDateCancellation := if dates.cancellation.Some? then dates.cancellation else p.passDateCancellation,
       cancelReason := data.cancelReason,
       startDate := if dates.start.Some? then dates.start else p.startDate,
       endDate := if dates.end.Some? then dates.end else p.endDate,
       zone := zone,
       reason := data.reason)
  }

  /** The table after every addressed pass request is revised and saved. */
  function ReviseRows(rows: seq<PassRequest>, key: Key, data: UpdateData, statusDate: DateTime, dates: GivenDates,
                      zone: Option<Zone>, newId: Id -> Uuid): (r: seq<PassRequest>)
    ensures |r| == |rows|
  {
    if rows == [] then []
    else
      var p := rows[|rows| - 1];
      ReviseRows(rows[..|rows| - 1], key, data, statusDate, dates, zone, newId)
      + [if Addressed(p, key) then SavePassRequest(Revised(p, data, statusDate, dates, zone), newId(p.id)) else p]
  }

  datatype UpdateOutcome = Updated(rows: seq<PassRequest>) | BadRequest

  /**
    What `update` does with the table: a 400 when there is no key, or when a
    pass request is addressed and a timestamp cannot be read; otherwise every
    addressed pass request is revised.
   */
  function Outcome(rows: seq<PassRequest>, masses: seq<MassRequest>, zones: seq<Zone>, data: UpdateData, uuidOf: UuidOf,
                   statusDate: Option<DateTime>, parse: (string, Format) -> Option<DateTime>, newId: Id -> Uuid): UpdateOutcome
  {
    var key := KeyOf(masses, data, uuidOf);
    if key.None? then BadRequest
    else if forall i :: 0 <= i < |rows| ==> !Addressed(rows[i], key.value) then Updated(rows)
    else
      var dates := GivenDatesOf(data, parse);
      if statusDate.None? || dates.None? then BadRequest
      else Updated(ReviseRows(rows, key.value, data, statusDate.value, dates.value, FirstZone(zones, data.zone), newId))
  }

  /** One more row of the loop: the row at `k` is revised when addressed and kept otherwise. */
  lemma ReviseStep(rows: seq<PassRequest>, k: nat, key: Key, data: UpdateData, statusDate: DateTime,
                   dates: GivenDates, zone: Option<Zone>, newId: Id -> Uuid)
    requires k < |rows|
    ensures var p := rows[k];
            ReviseRows(rows[..k + 1], key, data, statusDate, dates, zone, newId) + rows[k + 1..]
            == (ReviseRows(rows[..k], key, data, statusDate, dates, zone, newId) + rows[k..])
               [k := if Addressed(p, key) then SavePassRequest(Revised(p, data, statusDate, dates, zone), newId(p.id)) else p]
  {
    assert rows[..k + 1][..k] == rows[..k];
    var p := rows[k];
    ReplaceNext(ReviseRows(rows[..k], key, data, statusDate, dates, zone, newId), rows, k,
                if Addressed(p, key) then SavePassRequest(Revised(p, data, statusDate, dates, zone), newId(p.id)) else p);
  }

  /** Nothing addressed so far: the table prefix is as it was. */
  lemma {:induction false} ReviseRowsNone(rows: seq<PassRequest>, key: Key, data: UpdateData, statusDate: DateTime,
                                          dates: GivenDates, zone: Option<Zone>, newId: Id -> Uuid)
    requires forall i :: 0 <= i < |rows| ==> !Addressed(rows[i], key)
    ensures ReviseRows(rows, key, data, statusDate, dates, zone, newId) == rows
  {
    if rows != [] {
      ReviseRowsNone(rows[..|rows| - 1], key, data, statusDate, dates, zone, newId);
    }
  }

  /**
    The loop of `update` over the pass requests, once the key is known: each
    addressed row reads the timestamps and is revised and saved; an unreadable
    timestamp on an addressed row is a 400. Every addressed row reads the same
    payload, so either the first addressed row fails and nothing is saved, or
    all of them are saved.
   */
  method ReviseAddressed(db: Database, key: Key, data: UpdateData, statusDate: Option<DateTime>, dates: Option<GivenDates>,
                         zone: Option<Zone>, newId: Id -> Uuid)
    returns (ok: bool)
    modifies db
    ensures ok <==> (statusDate.Some? && dates.Some?) || forall i :: 0 <= i < |old(db.passRequests)| ==> !Addressed(old(db.passRequests)[i], key)
    ensures db.passRequests == (if statusDate.Some? && dates.Some?
                                then ReviseRows(old(db.passRequests), key, data, statusDate.value, dates.value, zone, newId)
                                else old(db.passRequests))
    ensures db.massRequests == old(db.massRequests)
  {
    hide Revised, SavePassRequest, ReviseRows;
    ghost var rows := db.passRequests;
    var n := |db.passRequests|;
    for k := 0 to n
      invariant db.massRequests == old(db.massRequests)
      invariant statusDate.None? || dates.None? ==>
                  db.passRequests == rows && forall i :: 0 <= i < k ==> !Addressed(rows[i], key)
      invariant statusDate.Some? && dates.Some? ==>
                  db.passRequests == ReviseRows(rows[..k], key, data, statusDate.value, dates.value, zone, newId) + rows[k..]
    {
      var passRequest := db.passRequests[k];
      if statusDate.Some? && dates.Some? {
        ReviseStep(rows, k, key, data, statusDate.value, dates.value, zone, newId);
      }
      if Addressed(passRequest, key) {
        if statusDate.None? || dates.None? {
          return false;
        }
        var revised := Revised(passRequest, data, statusDate.value, dates.value, zone);
        db.SavePass(k, revised, newId(passRequest.id));
      }
    }
    assert rows[..|rows|] == rows;
    return true;
  }

  /**
    `update`: looks up the key (a 400 without one) and revises the addressed pass
    requests. Corrected reading: an absent `statusDate` means `now`, where the code
    as written raises and answers 400 (see `MissingStatusDateRejected`).
   */
  method Update(db: Database, zones: seq<Zone>, data: UpdateData, uuidOf: UuidOf, parse: (string, Format) -> Option<DateTime>,
                now: DateTime, newId: Id -> Uuid)
    returns (ok: bool)
    modifies db
    ensures var outcome := Outcome(old(db.passRequests), old(db.massRequests), zones, data, uuidOf, StatusDate(data, parse, now), parse, newId);
            && ok == outcome.Updated?
            && db.passRequests == (if ok then outcome.rows else old(db.passRequests))
            && db.massRequests == old(db.massRequests)
  {
    hide FirstZone, FirstMass, ParseTimestamp, KeyOf, GivenDatesOf, ReviseRows;
    var key := KeyOf(db.massRequests, data, uuidOf);
    if key.None? {
      return false;
    }
    ghost var rows := db.passRequests;
    var statusDate := StatusDate(data, parse, now);
    var dates := GivenDatesOf(data, parse);
    var zone := FirstZone(zones, data.zone);
    ok := ReviseAddressed(db, key.value, data, statusDate, dates, zone, newId);
    if ok && (statusDate.None? || dates.None?) {
      assert db.passRequests == rows;
    } else if ok && forall i | 0 <= i < |rows| :: !Addressed(rows[i], key.value) {
      ReviseRowsNone(rows, key.value, data, statusDate.value, dates.value, zone, newId);
    }
  }

  // ---------------------------------------------------------------------------
  // Properties

  /**
    With a request id, the update answers 400 when it is not a UUID and otherwise
    addresses exactly the pass requests whose `p_id` is that UUID, however it is
    spelt. Without one, a message id that is not a UUID is a 400; otherwise the
    pass requests of the first mass request with that message id are addressed,
    and with no such mass request the answer is a 400.
   */
  lemma AddressedExactly(masses: seq<MassRequest>, data: UpdateData, uuidOf: UuidOf, p: PassRequest)
    ensures Filled(data.requestId) ==>
              (KeyOf(masses, data, uuidOf).None? <==> uuidOf(data.requestId.value).None?)
    ensures Filled(data.requestId) && KeyOf(masses, data, uuidOf).Some? ==>
              (Addressed(p, KeyOf(masses, data, uuidOf).value) <==> p.pId == uuidOf(data.requestId.value))
    ensures !Filled(data.requestId) && data.messageId.Some? && uuidOf(data.messageId.value).None? ==>
              KeyOf(masses, data, uuidOf).None?
    ensures !Filled(data.requestId) && (data.messageId.None? || uuidOf(data.messageId.value).Some?) ==>
              var messId := if data.messageId.None? then None else uuidOf(data.messageId.value);
              && (KeyOf(masses, data, uuidOf).None? <==> forall m :: m in masses ==> m.messId != messId)
              && forall j :: 0 <= j < |masses| && masses[j].messId == messId
                             && (forall k :: 0 <= k < j ==> masses[k].messId != messId) ==>
                   (Addressed(p, KeyOf(masses, data, uuidOf).value) <==> p.massId == Some(masses[j].id))
  {
  }

  /** A request id, or in its absence a message id, that is not a UUID makes the whole update a 400. */
  lemma NonUuidLookupRejected(rows: seq<PassRequest>, masses: seq<MassRequest>, zones: seq<Zone>, data: UpdateData, uuidOf: UuidOf,
                              statusDate: Option<DateTime>, parse: (string, Format) -> Option<DateTime>, newId: Id -> Uuid)
    requires if Filled(data.requestId) then uuidOf(data.requestId.value).None?
             else data.messageId.Some? && uuidOf(data.messageId.value).None?
    ensures Outcome(rows, masses, zones, data, uuidOf, statusDate, parse, newId) == BadRequest
  {
  }

  lemma {:induction false} ReviseRowsAt(rows: seq<PassRequest>, key: Key, data: UpdateData, statusDate: DateTime, dates: GivenDates,
                                        zone: Option<Zone>, newId: Id -> Uuid, i: nat)
    requires i < |rows|
    ensures ReviseRows(rows, key, data, statusDate, dates, zone, newId)[i]
              == if Addressed(rows[i], key) then SavePassRequest(Revised(rows[i], data, statusDate, dates, zone), newId(rows[i].id)) else rows[i]
  {
    if i < |rows| - 1 {
      ReviseRowsAt(rows[..|rows| - 1], key, data, statusDate, dates, zone, newId, i);
    }
  }

  /**
    In an update that succeeds, each addressed pass request takes the request
    status, pass id, series number, pass status, cancel reason and reason from the
    payload, absent ones as None; its start day, end day and cancellation change
    only when the payload fills them; its zone is the first zone with the given
    code, or none. A pass request that is not addressed is left as it is.
   */
  lemma UpdatedRowFields(rows: seq<PassRequest>, masses: seq<MassRequest>, zones: seq<Zone>, data: UpdateData, uuidOf: UuidOf,
                         statusDate: Option<DateTime>, parse: (string, Format) -> Option<DateTime>, newId: Id -> Uuid, i: nat)
    requires i < |rows|
    requires Outcome(rows, masses, zones, data, uuidOf, statusDate, parse, newId).Updated?
    ensures var r := Outcome(rows, masses, zones, data, uuidOf, statusDate, parse, newId).rows[i];
            var p := rows[i];
            if KeyOf(masses, data, uuidOf).Some? && Addressed(p, KeyOf(masses, data, uuidOf).value) then
              && r.requestStatus == data.requestStatus && r.passId == data.passId
              && r.passSeriesNumber == data.seriesNumber && r.passStatus == data.status
              && r.cancelReason == data.cancelReason && r.reason == data.reason
              && r.statusDate == statusDate
              && (Filled(data.startDate) ==> r.startDate == Day(ParseTimestamp(data.startDate.value, parse)))
              && (!Filled(data.startDate) ==> r.startDate == p.startDate)
              && (Filled(data.endDate) ==> r.endDate == Day(ParseTimestamp(data.endDate.value, parse)))
              && (!Filled(data.endDate) ==> r.endDate == p.endDate)
              && (Filled(data.dateCancellation) ==> r.passDateCancellation == ParseTimestamp(data.dateCancellation.value, parse))
              && (!Filled(data.dateCancellation) ==> r.passDateCancellation == p.passDateCancellation)
              && r.zone == FirstZone(zones, data.zone)
              && r.pId.Some? && r.id == p.id && r.transport == p.transport && r.massId == p.massId && r.status == p.status
            else r == p
  {
    var key := KeyOf(masses, data, uuidOf);
    if key.Some? && !(forall j :: 0 <= j < |rows| ==> !Addressed(rows[j], key.value)) {
      var dates := GivenDatesOf(data, parse);
      ReviseRowsAt(rows, key.value, data, statusDate.value, dates.value, FirstZone(zones, data.zone), newId, i);
    }
  }

  /**
    As written, a payload without a status date makes every update that addresses
    a pass request answer 400; as intended, the same update succeeds whenever its
    other timestamps can be read.
   */
  lemma MissingStatusDateRejected(rows: seq<PassRequest>, masses: seq<MassRequest>, zones: seq<Zone>, data: UpdateData, uuidOf: UuidOf,
                                  parse: (string, Format) -> Option<DateTime>, now: DateTime, newId: Id -> Uuid, i: nat)
    requires !Filled(data.statusDate)
    requires KeyOf(masses, data, uuidOf).Some? && i < |rows| && Addressed(rows[i], KeyOf(masses, data, uuidOf).value)
    ensures Outcome(rows, masses, zones, data, uuidOf, StatusDateAsWritten(data, parse), parse, newId) == BadRequest
    ensures GivenDatesOf(data, parse).Some? ==>
              Outcome(rows, masses, zones, data, uuidOf, StatusDate(data, parse, now), parse, newId).Updated?
  {
    assert !(forall j :: 0 <= j < |rows| ==> !Addressed(rows[j], KeyOf(masses, data, uuidOf).value));
  }
}
