/**
  Sending a mass request to the permit service (`send_to_ovga`), the check run when
  it is sent to signing (`process_pass_requests` with
  `_update_status_and_check_data`), and the guards of `annul_pass_requests`.

  A pass request of the mass request that is not archived is checked. When its
  checklist text is not empty, it is marked failed: the text becomes its
  `body_message`, its status the failure status, and its `request_status_send`
  is cleared. When any is marked, the operation ends with the list of their ids,
  and nothing is sent.
 */
module Submission {
  import opened Text
  import opened Records
  import opened Validation
  import opened Assembly
  import opened Store

  // ---------------------------------------------------------------------------
  // Marking the pass requests that fail the checklist

  /** A pass request of the mass request that the scan looks at: it is not archived. */
  predicate Scanned(p: PassRequest, massId: Id, cat: Catalog) {
    p.massId == Some(massId) && p.status != cat.archived
  }

  /** A pass request whose checklist text is not empty. */
  predicate Fails(p: PassRequest, cat: Catalog) {
    !Passes(p.transport, RequestOf(p), cat)
  }

  /** The checklist text of a pass request. */
  function Content(p: PassRequest, cat: Catalog): string {
    Render(AllIssues(p.transport, RequestOf(p), cat))
  }

  /** The text is empty exactly when the pass request passes. */
  lemma ContentEmpty(p: PassRequest, cat: Catalog)
    ensures Content(p, cat) == "" <==> !Fails(p, cat)
  {
    AllIssuesEmpty(p.transport, RequestOf(p), cat);
  }

  /** A failed pass request after it is marked and saved (`save` draws its `p_id` when it has none). */
  function MarkFailed(p: PassRequest, cat: Catalog, newId: Id -> Uuid): PassRequest {
    SavePassRequest(p.(bodyMessage := Some(Content(p, cat)), status := cat.failed, requestStatusSend := None), newId(p.id))
  }

  function MarkRow(p: PassRequest, massId: Id, cat: Catalog, newId: Id -> Uuid): PassRequest {
    if Scanned(p, massId, cat) && Fails(p, cat) then MarkFailed(p, cat, newId) else p
  }

  /** The table after the scan of `process_pass_requests`. */
  function MarkRows(rows: seq<PassRequest>, massId: Id, cat: Catalog, newId: Id -> Uuid): (r: seq<PassRequest>)
    ensures |r| == |rows|
  {
    if rows == [] then []
    else MarkRows(rows[..|rows| - 1], massId, cat, newId) + [MarkRow(rows[|rows| - 1], massId, cat, newId)]
  }

  /** The ids of the scanned pass requests that fail, in table order. */
  function FailedIds(rows: seq<PassRequest>, massId: Id, cat: Catalog): seq<Id> {
    if rows == [] then []
    else
      var p := rows[|rows| - 1];
      FailedIds(rows[..|rows| - 1], massId, cat) + (if Scanned(p, massId, cat) && Fails(p, cat) then [p.id] else [])
  }

  /**
    Archived pass requests and those of other mass requests are left as they are; a
    scanned one that fails gets its checklist text (never empty), the failure status,
    no send status, and a request id; one that passes is left as it is.
   */
  lemma {:induction false} MarkRowsEffect(rows: seq<PassRequest>, massId: Id, cat: Catalog, newId: Id -> Uuid, i: nat)
    requires i < |rows|
    ensures var r := MarkRows(rows, massId, cat, newId)[i];
            if Scanned(rows[i], massId, cat) && Fails(rows[i], cat) then
              && r.bodyMessage == Some(Content(rows[i], cat)) && Content(rows[i], cat) != ""
              && r.status == cat.failed && r.requestStatusSend.None? && r.pId.Some?
              && r.(bodyMessage := rows[i].bodyMessage, status := rows[i].status,
                    requestStatusSend := rows[i].requestStatusSend, pId := rows[i].pId) == rows[i]
            else r == rows[i]
  {
    if i < |rows| - 1 {
      MarkRowsEffect(rows[..|rows| - 1], massId, cat, newId, i);
    } else {
      ContentEmpty(rows[i], cat);
    }
  }

  /** The reported ids are exactly those of the scanned pass requests that fail. */
  lemma {:induction false} FailedIdsExactly(rows: seq<PassRequest>, massId: Id, cat: Catalog, x: Id)
    ensures x in FailedIds(rows, massId, cat) <==>
              exists p :: p in rows && Scanned(p, massId, cat) && Fails(p, cat) && p.id == x
  {
    if rows != [] {
      var init := rows[..|rows| - 1];
      FailedIdsExactly(init, massId, cat, x);
      assert forall p :: p in rows <==> p in init || p == rows[|rows| - 1];
    }
  }

  lemma MarkStep(rows: seq<PassRequest>, k: nat, massId: Id, cat: Catalog, newId: Id -> Uuid)
    requires k < |rows|
    ensures MarkRows(rows[..k + 1], massId, cat, newId) == MarkRows(rows[..k], massId, cat, newId) + [MarkRow(rows[k], massId, cat, newId)]
    ensures FailedIds(rows[..k + 1], massId, cat)
              == FailedIds(rows[..k], massId, cat) + (if Scanned(rows[k], massId, cat) && Fails(rows[k], cat) then [rows[k].id] else [])
  {
    assert rows[..k + 1][..k] == rows[..k];
  }

  /**
    One turn of the loop of `process_pass_requests`: the pass request at `k` is
    checked when it is scanned, and marked and saved when its text is not empty.
   */
  method CheckPassRequest(db: Database, k: nat, massId: Id, cat: Catalog, newId: Id -> Uuid) returns (marked: bool)
    requires k < |db.passRequests|
    modifies db
    ensures marked == (Scanned(old(db.passRequests)[k], massId, cat) && Fails(old(db.passRequests)[k], cat))
    ensures db.passRequests == old(db.passRequests)[k := MarkRow(old(db.passRequests)[k], massId, cat, newId)]
    ensures db.massRequests == old(db.massRequests)
  {
    hide Passes;
    hide AllIssues;
    var passRequest := db.passRequests[k];
    marked := false;
    if passRequest.massId == Some(massId) && passRequest.status != cat.archived {
      var content := ValidateAllData(passRequest.transport, cat, RequestOf(passRequest));
      if content != "" {
        marked := true;
        var row := passRequest.(bodyMessage := Some(content), status := cat.failed, requestStatusSend := None);
        db.SavePass(k, row, newId(row.id));
      }
    }
    assert old(db.passRequests)[k := old(db.passRequests)[k]] == old(db.passRequests);
  }

  /**
    `process_pass_requests`: checks every scanned pass request in table order, marks
    and saves those that fail, and returns their ids.
   */
  method ProcessPassRequests(db: Database, massId: Id, cat: Catalog, newId: Id -> Uuid) returns (failed: seq<Id>)
    modifies db
    ensures db.passRequests == MarkRows(old(db.passRequests), massId, cat, newId)
    ensures db.massRequests == old(db.massRequests)
    ensures failed == FailedIds(old(db.passRequests), massId, cat)
  {
    hide Passes;
    hide AllIssues;
    hide Scanned;
    hide Fails;
    hide MarkRow;
    ghost var rows := db.passRequests;
    var n := |db.passRequests|;
    failed := [];
    for k := 0 to n
      invariant db.massRequests == old(db.massRequests)
      invariant db.passRequests == MarkRows(rows[..k], massId, cat, newId) + rows[k..]
      invariant failed == FailedIds(rows[..k], massId, cat)
    {
      MarkStep(rows, k, massId, cat, newId);
      ReplaceNext(MarkRows(rows[..k], massId, cat, newId), rows, k, MarkRow(rows[k], massId, cat, newId));
      assert db.passRequests[k] == rows[k];
      var id := db.passRequests[k].id;
      var marked := CheckPassRequest(db, k, massId, cat, newId);
      if marked {
        failed := failed + [id];
      }
    }
    assert rows[..|rows|] == rows;
  }

  /** `ValidationError` text listing the failed pass requests. */
  function RejectionText(ids: seq<Id>): string {
    "В запросах с указанными ID не хватает данных: " + JoinNumbers(ids)
  }

  /** `', '.join(map(str, ids))`. */
  function JoinNumbers(ids: seq<nat>): string {
    if ids == [] then ""
    else if |ids| == 1 then NatToString(ids[0])
    else JoinNumbers(ids[..|ids| - 1]) + ", " + NatToString(ids[|ids| - 1])
  }

  datatype Checked = Checked | Rejected(message: string, ids: seq<Id>)

  /** A mass request after its status is set and it is saved. */
  function Transitioned(mass: MassRequest, statusId: StatusId, newMessId: Uuid): MassRequest {
    SaveMassRequest(mass.(status := statusId), newMessId)
  }

  /**
    `_update_status_and_check_data`: the mass request takes the transition's status
    and is saved; then its pass requests are checked, and the operation is rejected
    with their ids when any fails. The marks and the new status stay saved either way.
   */
  method UpdateStatusAndCheckData(db: Database, m: nat, statusId: StatusId, cat: Catalog, newMessId: Uuid, newId: Id -> Uuid)
    returns (r: Checked)
    requires m < |db.massRequests|
    modifies db
    ensures var mass := Transitioned(old(db.massRequests)[m], statusId, newMessId);
            && db.massRequests == old(db.massRequests)[m := mass]
            && db.passRequests == MarkRows(old(db.passRequests), mass.id, cat, newId)
            && var failed := FailedIds(old(db.passRequests), mass.id, cat);
               r == if failed == [] then Checked else Rejected(RejectionText(failed), failed)
  {
    db.massRequests := db.massRequests[m := db.massRequests[m].(status := statusId)];
    db.SaveMass(m, newMessId);
    var failed := ProcessPassRequests(db, db.massRequests[m].id, cat, newId);
    if failed != [] {
      return Rejected(RejectionText(failed), failed);
    }
    return Checked;
  }

  // ---------------------------------------------------------------------------
  // send_to_ovga

  /** Where the scan of `send_to_ovga` stands: the table, the failed ids, the entries, and whether the code has failed. */
  datatype Scan = Scan(rows: seq<PassRequest>, failed: seq<Id>, entries: seq<PassEntry>, crashed: bool)

  /**
    The scan of `send_to_ovga` over the table: a scanned pass request that fails is
    marked; one that passes contributes its entry. Building an entry can fail, and
    then the scan stops there, with the marks made so far saved.
   */
  function ScanRows(rows: seq<PassRequest>, mass: MassRequest, cat: Catalog, newId: Id -> Uuid): (s: Scan)
    ensures |s.rows| == |rows|
  {
    if rows == [] then Scan([], [], [], false)
    else ScanStep(ScanRows(rows[..|rows| - 1], mass, cat, newId), rows[|rows| - 1], mass, cat, newId)
  }

  /** One pass request of the scan. */
  function ScanStep(s: Scan, p: PassRequest, mass: MassRequest, cat: Catalog, newId: Id -> Uuid): (r: Scan)
    ensures |r.rows| == |s.rows| + 1
  {
    if s.crashed || !Scanned(p, mass.id, cat) then s.(rows := s.rows + [p])
    else if Fails(p, cat) then Scan(s.rows + [MarkFailed(p, cat, newId)], s.failed + [p.id], s.entries, false)
    else
      var e := EntryOf(p, mass, cat);
      if e.None? then s.(rows := s.rows + [p], crashed := true)
      else s.(rows := s.rows + [p], entries := s.entries + [e.value])
  }

  /** Once the scan has failed, the rest of the table is left as it is. */
  lemma {:induction false} ScanAfterCrash(rows: seq<PassRequest>, mass: MassRequest, cat: Catalog, newId: Id -> Uuid, k: nat)
    requires k <= |rows|
    requires ScanRows(rows[..k], mass, cat, newId).crashed
    ensures var s := ScanRows(rows[..k], mass, cat, newId);
            ScanRows(rows, mass, cat, newId) == s.(rows := s.rows + rows[k..])
  {
    var s := ScanRows(rows[..k], mass, cat, newId);
    if k == |rows| {
      assert rows[..k] == rows;
      assert s.rows + rows[k..] == s.rows;
    } else {
      var init := rows[..|rows| - 1];
      assert init[..k] == rows[..k];
      ScanAfterCrash(init, mass, cat, newId, k);
      var t := ScanRows(init, mass, cat, newId);
      assert t == s.(rows := s.rows + init[k..]);
      assert ScanRows(rows, mass, cat, newId) == t.(rows := t.rows + [rows[|rows| - 1]]);
      assert rows[k..] == init[k..] + [rows[|rows| - 1]];
    }
  }

  /**
    When no entry fails to build, `send_to_ovga` marks the table and reports the ids
    exactly as `process_pass_requests` does.
   */
  lemma {:induction false} ScanMarksLikeProcess(rows: seq<PassRequest>, mass: MassRequest, cat: Catalog, newId: Id -> Uuid)
    requires !ScanRows(rows, mass, cat, newId).crashed
    ensures ScanRows(rows, mass, cat, newId).rows == MarkRows(rows, mass.id, cat, newId)
    ensures ScanRows(rows, mass, cat, newId).failed == FailedIds(rows, mass.id, cat)
  {
    if rows != [] {
      var init := rows[..|rows| - 1];
      assert !ScanRows(init, mass, cat, newId).crashed;
      ScanMarksLikeProcess(init, mass, cat, newId);
    }
  }

  /** How many pass requests the scan looks at. */
  function ScannedCount(rows: seq<PassRequest>, massId: Id, cat: Catalog): nat {
    if rows == [] then 0
    else ScannedCount(rows[..|rows| - 1], massId, cat) + (if Scanned(rows[|rows| - 1], massId, cat) then 1 else 0)
  }

  /** A scan that does not fail gives every scanned pass request either a mark or an entry. */
  lemma {:induction false} ScanAccountsForEachRequest(rows: seq<PassRequest>, mass: MassRequest, cat: Catalog, newId: Id -> Uuid)
    requires !ScanRows(rows, mass, cat, newId).crashed
    ensures var s := ScanRows(rows, mass, cat, newId);
            |s.failed| + |s.entries| == ScannedCount(rows, mass.id, cat)
  {
    if rows != [] {
      var init := rows[..|rows| - 1];
      assert !ScanRows(init, mass, cat, newId).crashed;
      ScanAccountsForEachRequest(init, mass, cat, newId);
    }
  }

  /** The request sent to the permit service. */
  datatype OvgaRequest = OvgaRequest(messageId: string, passRequests: seq<PassEntry>, messageDate: Date)

  /** How `send_to_ovga` ends: the code fails, the operation is rejected with the failed ids, or the request is sent. */
  datatype SendOutcome = Crashed | Refused(message: string, ids: seq<Id>) | Submitted(request: OvgaRequest)

  function OutcomeOf(s: Scan, mass: MassRequest): SendOutcome {
    if s.crashed then Crashed
    else if s.failed != [] then Refused(RejectionText(s.failed), s.failed)
    else if mass.messageDate.None? then Crashed
    else Submitted(OvgaRequest(PyStr(mass.messId), s.entries, mass.messageDate.value))
  }

  /**
    The loop of `send_to_ovga` over the pass requests: marks and saves those that
    fail, builds the entries of those that pass, and stops when building one fails.
   */
  method ScanPassRequests(db: Database, mass: MassRequest, cat: Catalog, newId: Id -> Uuid) returns (scan: Scan)
    modifies db
    ensures scan == ScanRows(old(db.passRequests), mass, cat, newId)
    ensures db.passRequests == scan.rows
    ensures db.massRequests == old(db.massRequests)
  {
    hide Passes;
    hide AllIssues;
    ghost var rows := db.passRequests;
    var n := |db.passRequests|;
    var failed: seq<Id> := [];
    var entries: seq<PassEntry> := [];
    for k := 0 to n
      invariant db.massRequests == old(db.massRequests)
      invariant var s := ScanRows(rows[..k], mass, cat, newId);
                && !s.crashed
                && db.passRequests == s.rows + rows[k..]
                && failed == s.failed && entries == s.entries
    {
      assert rows[..k + 1][..k] == rows[..k];
      ghost var s := ScanRows(rows[..k], mass, cat, newId);
      ghost var next := ScanRows(rows[..k + 1], mass, cat, newId);
      assert next == ScanStep(s, rows[k], mass, cat, newId);
      var passRequest := db.passRequests[k];
      ReplaceNext(s.rows, rows, k, passRequest);
      if passRequest.massId == Some(mass.id) && passRequest.status != cat.archived {
        var content := ValidateAllData(passRequest.transport, cat, RequestOf(passRequest));
        if content != "" {
          failed := failed + [passRequest.id];
          var row := passRequest.(bodyMessage := Some(content), status := cat.failed, requestStatusSend := None);
          db.SavePass(k, row, newId(row.id));
          assert next == Scan(s.rows + [SavePassRequest(row, newId(row.id))], failed, entries, false);
          ReplaceNext(s.rows, rows, k, SavePassRequest(row, newId(row.id)));
        } else {
          var entry := BuildEntry(passRequest, mass, cat);
          if entry.None? {
            assert next == s.(rows := s.rows + [passRequest], crashed := true);
            ScanAfterCrash(rows, mass, cat, newId, k + 1);
            return Scan(db.passRequests, failed, entries, true);
          }
          entries := entries + [entry.value];
          assert next == Scan(s.rows + [passRequest], failed, entries, false);
        }
      } else {
        assert next == s.(rows := s.rows + [passRequest]);
      }
    }
    assert rows[..|rows|] == rows;
    return Scan(db.passRequests, failed, entries, false);
  }

  /**
    `send_to_ovga`: the mass request takes the transition's status and is saved; its
    pass requests are scanned; the request goes out only when none failed, with one
    entry per scanned pass request, in table order.
   */
  method SendToOvga(db: Database, m: nat, statusId: StatusId, cat: Catalog, newMessId: Uuid, newId: Id -> Uuid)
    returns (outcome: SendOutcome)
    requires m < |db.massRequests|
    modifies db
    ensures var mass := Transitioned(old(db.massRequests)[m], statusId, newMessId);
            var s := ScanRows(old(db.passRequests), mass, cat, newId);
            && db.massRequests == old(db.massRequests)[m := mass]
            && db.passRequests == s.rows
            && outcome == OutcomeOf(s, mass)
  {
    db.massRequests := db.massRequests[m := db.massRequests[m].(status := statusId)];
    db.SaveMass(m, newMessId);
    var mass := db.massRequests[m];
    var scan := ScanPassRequests(db, mass, cat, newId);
    if scan.crashed {
      return Crashed;
    }
    if scan.failed != [] {
      return Refused(RejectionText(scan.failed), scan.failed);
    }
    if mass.messageDate.None? {
      return Crashed;
    }
    return Submitted(OvgaRequest(PyStr(mass.messId), scan.entries, mass.messageDate.value));
  }

  /**
    A request is sent only when every scanned pass request passes the checklist: no
    pass request is marked, and each contributes exactly one entry.
   */
  lemma SubmittedOnlyWhenAllPass(rows: seq<PassRequest>, mass: MassRequest, cat: Catalog, newId: Id -> Uuid)
    requires OutcomeOf(ScanRows(rows, mass, cat, newId), mass).Submitted?
    ensures forall p :: p in rows && Scanned(p, mass.id, cat) ==> !Fails(p, cat)
    ensures ScanRows(rows, mass, cat, newId).rows == rows
    ensures |OutcomeOf(ScanRows(rows, mass, cat, newId), mass).request.passRequests| == ScannedCount(rows, mass.id, cat)
  {
    ScanMarksLikeProcess(rows, mass, cat, newId);
    ScanAccountsForEachRequest(rows, mass, cat, newId);
    forall p | p in rows && Scanned(p, mass.id, cat)
      ensures !Fails(p, cat)
    {
      FailedIdsExactly(rows, mass.id, cat, p.id);
    }
    forall i | 0 <= i < |rows|
      ensures MarkRows(rows, mass.id, cat, newId)[i] == rows[i]
    {
      MarkRowsEffect(rows, mass.id, cat, newId, i);
      FailedIdsExactly(rows, mass.id, cat, rows[i].id);
    }
  }

  /** A refusal lists exactly the scanned pass requests that fail, and there is at least one. */
  lemma RefusedListsFailures(rows: seq<PassRequest>, mass: MassRequest, cat: Catalog, newId: Id -> Uuid, x: Id)
    requires OutcomeOf(ScanRows(rows, mass, cat, newId), mass).Refused?
    ensures OutcomeOf(ScanRows(rows, mass, cat, newId), mass).ids != []
    ensures x in OutcomeOf(ScanRows(rows, mass, cat, newId), mass).ids <==>
              exists p :: p in rows && Scanned(p, mass.id, cat) && Fails(p, cat) && p.id == x
  {
    ScanMarksLikeProcess(rows, mass, cat, newId);
    FailedIdsExactly(rows, mass.id, cat, x);
  }

  // ---------------------------------------------------------------------------
  // annul_pass_requests

  /** What `annul_pass_requests` decides before it queues the annulment task. */
  datatype AnnulDecision =
    | BadIdText                     // get_id_set's error value reaches the query
    | AlreadyPending(message: string, ids: seq<Id>)  // refused: rows in the default status share a pass id with a selected one
    | MissingPassId(message: string, ids: seq<Id>)   // selected pass requests without a pass id
    | MissingCancelReason           // the request data has no `cancel_reason` key (KeyError)
    | Queued(ids: seq<nat>, cancelReason: Option<string>)  // the annulment task is queued for these ids

  /** The pass requests whose id is listed, in table order. */
  function Selected(rows: seq<PassRequest>, ids: seq<nat>): seq<PassRequest> {
    if rows == [] then []
    else Selected(rows[..|rows| - 1], ids) + (if rows[|rows| - 1].id in ids then [rows[|rows| - 1]] else [])
  }

  /** The pass ids of some pass requests; a missing pass id never matches (SQL `IN`). */
  function PassIds(rows: seq<PassRequest>): seq<Uuid> {
    if rows == [] then []
    else
      var p := rows[|rows| - 1];
      PassIds(rows[..|rows| - 1]) + (if p.passId.Some? then [p.passId.value] else [])
  }

  /**
    Ids of the pass requests in `defaultStatus`, the default status of the pass
    request document type, whose pass id is one of `passIds`.
   */
  function DefaultStatusIds(rows: seq<PassRequest>, passIds: seq<Uuid>, defaultStatus: StatusId): seq<Id> {
    if rows == [] then []
    else
      var p := rows[|rows| - 1];
      DefaultStatusIds(rows[..|rows| - 1], passIds, defaultStatus)
      + (if p.passId.Some? && p.passId.value in passIds && p.status == defaultStatus then [p.id] else [])
  }

  /** Ids of the pass requests without a pass id. */
  function WithoutPassId(rows: seq<PassRequest>): seq<Id> {
    if rows == [] then []
    else WithoutPassId(rows[..|rows| - 1]) + (if rows[|rows| - 1].passId.None? then [rows[|rows| - 1].id] else [])
  }

  function PendingText(ids: seq<Id>): string {
    "По пропускам с ID: " + JoinNumbers(ids) + " уже есть заявки на аннулирование."
  }

  function NoPassIdText(ids: seq<Id>): string {
    "По пропускам с ID: " + JoinNumbers(ids) + " не указан номер пропуска."
  }

  /**
    The guards of `annul_pass_requests`, in the order the code applies them.
    `cancelReason` is `request.data['cancel_reason']`: None when the key is
    absent, and otherwise the value, which may itself be null.
   */
  function AnnulGuard(rows: seq<PassRequest>, idText: string, defaultStatus: StatusId,
                      cancelReason: Option<Option<string>>): AnnulDecision {
    match GetIdSet(idText)
    case BadIds(_) => BadIdText
    case Ids(ids) =>
      var selected := Selected(rows, ids);
      var clashing := DefaultStatusIds(rows, PassIds(selected), defaultStatus);
      if clashing != [] then AlreadyPending(PendingText(clashing), clashing)
      else
        var missing := WithoutPassId(selected);
        if missing != [] then MissingPassId(NoPassIdText(missing), missing)
        else if cancelReason.None? then MissingCancelReason
        else Queued(ids, cancelReason.value)
  }

  lemma {:induction false} SelectedMembers(rows: seq<PassRequest>, ids: seq<nat>)
    ensures forall p :: p in Selected(rows, ids) <==> p in rows && p.id in ids
  {
    if rows != [] {
      var init := rows[..|rows| - 1];
      SelectedMembers(init, ids);
      assert forall p :: p in rows <==> p in init || p == rows[|rows| - 1];
    }
  }

  lemma {:induction false} PassIdsMembers(rows: seq<PassRequest>)
    ensures forall u :: u in PassIds(rows) <==> exists p :: p in rows && p.passId == Some(u)
  {
    if rows != [] {
      var init := rows[..|rows| - 1];
      PassIdsMembers(init);
      assert forall p :: p in rows <==> p in init || p == rows[|rows| - 1];
    }
  }

  lemma {:induction false} DefaultStatusIdsEmpty(rows: seq<PassRequest>, passIds: seq<Uuid>, defaultStatus: StatusId)
    ensures DefaultStatusIds(rows, passIds, defaultStatus) == [] <==>
              forall q :: q in rows && q.status == defaultStatus && q.passId.Some? ==> q.passId.value !in passIds
  {
    if rows != [] {
      var init := rows[..|rows| - 1];
      DefaultStatusIdsEmpty(init, passIds, defaultStatus);
      assert forall p :: p in rows <==> p in init || p == rows[|rows| - 1];
    }
  }

  lemma {:induction false} WithoutPassIdEmpty(rows: seq<PassRequest>)
    ensures WithoutPassId(rows) == [] <==> forall p :: p in rows ==> p.passId.Some?
  {
    if rows != [] {
      var init := rows[..|rows| - 1];
      WithoutPassIdEmpty(init);
      assert forall p :: p in rows <==> p in init || p == rows[|rows| - 1];
    }
  }

  lemma {:induction false} DefaultStatusIdsMembers(rows: seq<PassRequest>, passIds: seq<Uuid>, defaultStatus: StatusId, x: Id)
    ensures x in DefaultStatusIds(rows, passIds, defaultStatus) <==>
              exists q :: q in rows && q.id == x && q.status == defaultStatus && q.passId.Some? && q.passId.value in passIds
  {
    if rows != [] {
      var init := rows[..|rows| - 1];
      DefaultStatusIdsMembers(init, passIds, defaultStatus, x);
      assert forall p :: p in rows <==> p in init || p == rows[|rows| - 1];
    }
  }

  lemma {:induction false} WithoutPassIdMembers(rows: seq<PassRequest>, x: Id)
    ensures x in WithoutPassId(rows) <==> exists p :: p in rows && p.id == x && p.passId.None?
  {
    if rows != [] {
      var init := rows[..|rows| - 1];
      WithoutPassIdMembers(init, x);
      assert forall p :: p in rows <==> p in init || p == rows[|rows| - 1];
    }
  }

  /**
    A refusal names exactly the offending pass requests: those in the default
    status that share a pass id with a selected one (the selected ones included), or,
    failing that, the selected ones without a pass id.
   */
  lemma AnnulRefusalLists(rows: seq<PassRequest>, idText: string, defaultStatus: StatusId,
                          cancelReason: Option<Option<string>>, x: Id)
    ensures AnnulGuard(rows, idText, defaultStatus, cancelReason).AlreadyPending? ==>
              (x in AnnulGuard(rows, idText, defaultStatus, cancelReason).ids <==>
                 exists p, q :: p in rows && p.id in GetIdSet(idText).ids && p.passId.Some?
                                && q in rows && q.id == x && q.status == defaultStatus && q.passId == p.passId)
    ensures AnnulGuard(rows, idText, defaultStatus, cancelReason).MissingPassId? ==>
              (x in AnnulGuard(rows, idText, defaultStatus, cancelReason).ids <==>
                 exists p :: p in rows && p.id in GetIdSet(idText).ids && p.id == x && p.passId.None?)
  {
    if GetIdSet(idText).Ids? {
      var ids := GetIdSet(idText).ids;
      var selected := Selected(rows, ids);
      SelectedMembers(rows, ids);
      PassIdsMembers(selected);
      DefaultStatusIdsMembers(rows, PassIds(selected), defaultStatus, x);
      WithoutPassIdMembers(selected, x);
    }
  }

  /** Both refusal guards of `annul_pass_requests` pass: some id is valid, none clashes and none lacks a pass id. */
  predicate AnnulGuardsPass(rows: seq<PassRequest>, idText: string, defaultStatus: StatusId) {
    && GetIdSet(idText).Ids?
    && (forall p :: p in rows && p.id in GetIdSet(idText).ids ==> p.passId.Some?)
    && (forall p, q :: (p in rows && p.id in GetIdSet(idText).ids && q in rows && q.status == defaultStatus
                         && q.passId.Some?) ==> q.passId != p.passId)
  }

  /**
    The annulment is queued exactly when the id text names at least one id, every
    selected pass request has a pass id, no pass request in the default status
    carries the pass id of a selected one, and the request data has a
    `cancel_reason`; the task then gets the ids and that reason. With the guards
    passed and no `cancel_reason`, the call fails on the missing key.
   */
  lemma AnnulQueuedExactly(rows: seq<PassRequest>, idText: string, defaultStatus: StatusId, cancelReason: Option<Option<string>>)
    ensures AnnulGuard(rows, idText, defaultStatus, cancelReason).Queued? <==>
              AnnulGuardsPass(rows, idText, defaultStatus) && cancelReason.Some?
    ensures AnnulGuard(rows, idText, defaultStatus, cancelReason).MissingCancelReason? <==>
              AnnulGuardsPass(rows, idText, defaultStatus) && cancelReason.None?
    ensures AnnulGuard(rows, idText, defaultStatus, cancelReason).Queued? ==>
              AnnulGuard(rows, idText, defaultStatus, cancelReason) == Queued(GetIdSet(idText).ids, cancelReason.value)
  {
    if GetIdSet(idText).Ids? {
      var ids := GetIdSet(idText).ids;
      var selected := Selected(rows, ids);
      SelectedMembers(rows, ids);
      PassIdsMembers(selected);
      DefaultStatusIdsEmpty(rows, PassIds(selected), defaultStatus);
      WithoutPassIdEmpty(selected);
    }
  }
}
