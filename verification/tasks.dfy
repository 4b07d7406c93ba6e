/**
  The background tasks that talk to the permit service: sending a mass request
  (`send_request_ovga` with `get_obj_responce`), sending an annulment
  (`send_annul_ovga`), and running a workflow transition over a batch of
  documents (`change_stat_model_task`).

  The service's replies, the fresh uuids and the clock are inputs.
 */
module Tasks {
  import opened Text
  import opened Records
  import opened Store
  import opened Submission

  // ---------------------------------------------------------------------------
  // send_request_ovga

  const AcceptedInTestMode := "Принято"
  const TimeoutText := "Сервер на другой стороне не работает. Попробуйте отправить запрос попозже."

  /**
    The reply `get_obj_responce` hands back: a fixed acceptance in test mode, the
    timeout reply when the post timed out (`None`), the service's reply otherwise.
   */
  function OvgaReply(testMode: bool, reply: Option<Response>): Response {
    if testMode then Response(200, AcceptedInTestMode)
    else if reply.None? then Response(500, TimeoutText)
    else reply.value
  }

  /**
    The mass request after `send_request_ovga`: it takes `statusId`, loses its task
    id unless in test mode, records the outcome and the reply body (as `format`
    renders it), moves on to `statusTo` on status 200, and is saved.
   */
  function SentMass(mass: MassRequest, statusId: StatusId, statusTo: StatusId, testMode: bool, response: Response,
                    format: string -> string, newMessId: Uuid): MassRequest
  {
    var taken := mass.(status := statusId, taskId := if testMode then mass.taskId else None);
    var recorded :=
      if response.code == 200 then taken.(statusRequest := Some(Success), bodyMessageOvga := Some(format(response.text)), status := statusTo)
      else taken.(statusRequest := Some(Error), bodyMessageOvga := Some(format(response.text)));
    SaveMassRequest(recorded, newMessId)
  }

  /**
    The outcome is recorded from the status code alone: on 200 the mass request
    ends in `statusTo` with `SUCCESS`, otherwise in `statusId` with `ERROR`; the
    task id survives only in test mode, and the request has a message id.
   */
  lemma SentMassOutcome(mass: MassRequest, statusId: StatusId, statusTo: StatusId, testMode: bool, response: Response,
                        format: string -> string, newMessId: Uuid)
    ensures var r := SentMass(mass, statusId, statusTo, testMode, response, format, newMessId);
            && r.status == (if response.code == 200 then statusTo else statusId)
            && r.statusRequest == Some(if response.code == 200 then Success else Error)
            && r.taskId == (if testMode then mass.taskId else None)
            && r.messId.Some?
            && r.(status := mass.status, statusRequest := mass.statusRequest, taskId := mass.taskId,
                  bodyMessageOvga := mass.bodyMessageOvga, messId := mass.messId) == mass
  {
  }

  /** A pass request of the mass request that is not archived. */
  predicate Advancing(p: PassRequest, massId: Id, archived: StatusId) {
    p.massId == Some(massId) && p.status != archived
  }

  /** The pass requests after each one of the mass request that is not archived takes `statusTo` and is saved. */
  function AdvanceRows(rows: seq<PassRequest>, massId: Id, archived: StatusId, statusTo: StatusId, newId: Id -> Uuid): (r: seq<PassRequest>)
    ensures |r| == |rows|
  {
    if rows == [] then []
    else
      var p := rows[|rows| - 1];
      AdvanceRows(rows[..|rows| - 1], massId, archived, statusTo, newId)
      + [if Advancing(p, massId, archived) then SavePassRequest(p.(status := statusTo), newId(p.id)) else p]
  }

  /**
    Each pass request of the mass request that is not archived ends in `statusTo`
    with a request id, nothing else about it changing; every other row, archived
    ones included, is left as it is.
   */
  lemma {:induction false} AdvanceRowsEffect(rows: seq<PassRequest>, massId: Id, archived: StatusId, statusTo: StatusId,
                                             newId: Id -> Uuid, i: nat)
    requires i < |rows|
    ensures var r := AdvanceRows(rows, massId, archived, statusTo, newId)[i];
            if Advancing(rows[i], massId, archived) then
              r.status == statusTo && r.pId.Some? && r.(status := rows[i].status, pId := rows[i].pId) == rows[i]
            else r == rows[i]
  {
    if i < |rows| - 1 {
      AdvanceRowsEffect(rows[..|rows| - 1], massId, archived, statusTo, newId, i);
    }
  }

  /** The loop of `send_request_ovga` over the pass requests of the mass request. */
  method AdvancePassRequests(db: Database, massId: Id, archived: StatusId, statusTo: StatusId, newId: Id -> Uuid)
    modifies db
    ensures db.passRequests == AdvanceRows(old(db.passRequests), massId, archived, statusTo, newId)
    ensures db.massRequests == old(db.massRequests)
  {
    ghost var rows := db.passRequests;
    var n := |db.passRequests|;
    for k := 0 to n
      invariant db.massRequests == old(db.massRequests)
      invariant db.passRequests == AdvanceRows(rows[..k], massId, archived, statusTo, newId) + rows[k..]
    {
      assert rows[..k + 1][..k] == rows[..k];
      ghost var done := AdvanceRows(rows[..k], massId, archived, statusTo, newId);
      ReplaceNext(done, rows, k, rows[k]);
      var passRequest := db.passRequests[k];
      if passRequest.massId == Some(massId) && passRequest.status != archived {
        db.SavePass(k, passRequest.(status := statusTo), newId(passRequest.id));
        ReplaceNext(done, rows, k, SavePassRequest(passRequest.(status := statusTo), newId(passRequest.id)));
      }
    }
    assert rows[..|rows|] == rows;
  }

  /**
    `send_request_ovga`: on status 200 the pass requests of the mass request that
    are not archived move on to `statusTo`; the mass request records the outcome
    and is saved either way.
   */
  method SendRequestOvga(db: Database, m: nat, statusId: StatusId, statusTo: StatusId, archived: StatusId, testMode: bool,
                         reply: Option<Response>, format: string -> string, newMessId: Uuid, newId: Id -> Uuid)
    returns (done: bool)
    requires m < |db.massRequests|
    modifies db
    ensures var response := OvgaReply(testMode, reply);
            && db.massRequests == old(db.massRequests)[m := SentMass(old(db.massRequests)[m], statusId, statusTo, testMode, response, format, newMessId)]
            && db.passRequests == (if response.code == 200 then AdvanceRows(old(db.passRequests), old(db.massRequests)[m].id, archived, statusTo, newId)
                                   else old(db.passRequests))
            && done
  {
    var obj := db.massRequests[m].(status := statusId);
    var response: Response;
    if testMode {
      response := Response(200, AcceptedInTestMode);
    } else {
      obj := obj.(taskId := None);
      if reply.None? {
        response := Response(500, TimeoutText);
      } else {
        response := reply.value;
      }
    }
    if response.code == 200 {
      AdvancePassRequests(db, obj.id, archived, statusTo, newId);
      obj := obj.(statusRequest := Some(Success), bodyMessageOvga := Some(format(response.text)));
      obj := obj.(status := statusTo);
    } else {
      obj := obj.(statusRequest := Some(Error), bodyMessageOvga := Some(format(response.text)));
    }
    db.massRequests := db.massRequests[m := obj];
    db.SaveMass(m, newMessId);
    return true;
  }

  // ---------------------------------------------------------------------------
  // send_annul_ovga

  /** One entry of `annulPassRequests`. */
  datatype AnnulEntry = AnnulEntry(requestId: Uuid, seriesNumber: Option<string>, passId: Option<Uuid>, requestReason: Option<string>)

  /** The annulment message. */
  datatype AnnulRequest = AnnulRequest(entries: seq<AnnulEntry>, messageId: Uuid, messageDate: DateTime)

  /** The new mass request that carries the annulment. */
  function AnnulMass(massId: Id, messId: Uuid, now: DateTime, sendToAnnul: StatusId): MassRequest {
    MassRequest(massId, Some(messId), Some(now.day), sendToAnnul, Some(Success), None, None, None, None)
  }

  /** The new pass request that annuls `p`: same transport, pass id and series number, with the cancel reason and date. */
  function AnnulRow(p: PassRequest, rowId: Id, pId: Uuid, massId: Id, now: DateTime, cancelReason: Option<string>,
                    sendToAnnul: StatusId): PassRequest
  {
    PassRequest(rowId, Some(pId), p.transport, Some(massId), sendToAnnul, None, None, None, None,
                p.passId, p.passSeriesNumber, None, None, Some(now), cancelReason, None, Some(Success), None)
  }

  /** `pass_requests_list`: one new pass request per selected one, the k-th taking id `nextId + k` and uuid `pIds(k)`. */
  function AnnulRows(selected: seq<PassRequest>, nextId: Id, pIds: nat -> Uuid, massId: Id, now: DateTime,
                     cancelReason: Option<string>, sendToAnnul: StatusId): (r: seq<PassRequest>)
    ensures |r| == |selected|
  {
    if selected == [] then []
    else
      var k := |selected| - 1;
      AnnulRows(selected[..k], nextId, pIds, massId, now, cancelReason, sendToAnnul)
      + [AnnulRow(selected[k], nextId + k, pIds(k), massId, now, cancelReason, sendToAnnul)]
  }

  /** `pass_request_dicts`: the entry of each new pass request. */
  function AnnulEntries(rows: seq<PassRequest>, cancelReason: Option<string>): (r: seq<AnnulEntry>)
    ensures |r| == |rows|
  {
    if rows == [] then []
    else
      var p := rows[|rows| - 1];
      AnnulEntries(rows[..|rows| - 1], cancelReason)
      + [AnnulEntry(if p.pId.Some? then p.pId.value else "", p.passSeriesNumber, p.passId, cancelReason)]
  }

  /** The message `send_annul_ovga` sends for the selected pass requests. */
  function AnnulRequestOf(selected: seq<PassRequest>, nextId: Id, pIds: nat -> Uuid, massId: Id, messId: Uuid, now: DateTime,
                          cancelReason: Option<string>, sendToAnnul: StatusId): AnnulRequest
  {
    AnnulRequest(AnnulEntries(AnnulRows(selected, nextId, pIds, massId, now, cancelReason, sendToAnnul), cancelReason), messId, now)
  }

  lemma {:induction false} AnnulRowAt(selected: seq<PassRequest>, nextId: Id, pIds: nat -> Uuid, massId: Id, now: DateTime,
                                      cancelReason: Option<string>, sendToAnnul: StatusId, i: nat)
    requires i < |selected|
    ensures AnnulRows(selected, nextId, pIds, massId, now, cancelReason, sendToAnnul)[i]
              == AnnulRow(selected[i], nextId + i, pIds(i), massId, now, cancelReason, sendToAnnul)
  {
    if i < |selected| - 1 {
      AnnulRowAt(selected[..|selected| - 1], nextId, pIds, massId, now, cancelReason, sendToAnnul, i);
    }
  }

  lemma {:induction false} AnnulEntryAt(rows: seq<PassRequest>, cancelReason: Option<string>, i: nat)
    requires i < |rows| && rows[i].pId.Some?
    ensures AnnulEntries(rows, cancelReason)[i] == AnnulEntry(rows[i].pId.value, rows[i].passSeriesNumber, rows[i].passId, cancelReason)
  {
    if i < |rows| - 1 {
      AnnulEntryAt(rows[..|rows| - 1], cancelReason, i);
    }
  }

  /**
    One entry per selected pass request, in order: it carries the fresh request id
    of the new pass request, the pass id and series number of the selected one and
    the given cancel reason.
   */
  lemma AnnulEntriesCopy(selected: seq<PassRequest>, nextId: Id, pIds: nat -> Uuid, massId: Id, messId: Uuid, now: DateTime,
                         cancelReason: Option<string>, sendToAnnul: StatusId, i: nat)
    requires i < |selected|
    ensures var request := AnnulRequestOf(selected, nextId, pIds, massId, messId, now, cancelReason, sendToAnnul);
            && |request.entries| == |selected|
            && request.entries[i] == AnnulEntry(pIds(i), selected[i].passSeriesNumber, selected[i].passId, cancelReason)
  {
    var rows := AnnulRows(selected, nextId, pIds, massId, now, cancelReason, sendToAnnul);
    AnnulRowAt(selected, nextId, pIds, massId, now, cancelReason, sendToAnnul, i);
    AnnulEntryAt(rows, cancelReason, i);
  }

  /**
    Each new pass request belongs to the new mass request, is waiting for annulment,
    is marked sent, carries the cancel date and reason, and copies the transport,
    pass id and series number of the pass request it annuls.
   */
  lemma AnnulRowsFacts(selected: seq<PassRequest>, nextId: Id, pIds: nat -> Uuid, massId: Id, now: DateTime,
                       cancelReason: Option<string>, sendToAnnul: StatusId, i: nat)
    requires i < |selected|
    ensures var r := AnnulRows(selected, nextId, pIds, massId, now, cancelReason, sendToAnnul)[i];
            && r.massId == Some(massId) && r.status == sendToAnnul && r.requestStatusSend == Some(Success)
            && r.pId == Some(pIds(i)) && r.passDateCancellation == Some(now) && r.cancelReason == cancelReason
            && r.transport == selected[i].transport && r.passId == selected[i].passId
            && r.passSeriesNumber == selected[i].passSeriesNumber
  {
    AnnulRowAt(selected, nextId, pIds, massId, now, cancelReason, sendToAnnul, i);
  }

  /**
    `send_annul_ovga`: builds the new mass request, one new pass request per selected
    one and the message, sends it, and stores the new rows only when the service
    answers 200.
   */
  method SendAnnulOvga(db: Database, idSet: seq<nat>, cancelReason: Option<string>, sendToAnnul: StatusId,
                       massId: Id, nextId: Id, messId: Uuid, pIds: nat -> Uuid, now: DateTime,
                       send: AnnulRequest -> Response)
    returns (request: AnnulRequest, stored: bool)
    modifies db
    ensures var selected := Selected(old(db.passRequests), idSet);
            && request == AnnulRequestOf(selected, nextId, pIds, massId, messId, now, cancelReason, sendToAnnul)
            && stored == (send(request).code == 200)
            && db.massRequests == old(db.massRequests) + (if stored then [AnnulMass(massId, messId, now, sendToAnnul)] else [])
            && db.passRequests == old(db.passRequests)
                 + (if stored then AnnulRows(selected, nextId, pIds, massId, now, cancelReason, sendToAnnul) else [])
  {
    var passRequests := Selected(db.passRequests, idSet);
    var transPassRequest := AnnulMass(massId, messId, now, sendToAnnul);
    var passRequestsList := AnnulRows(passRequests, nextId, pIds, massId, now, cancelReason, sendToAnnul);
    request := AnnulRequest(AnnulEntries(passRequestsList, cancelReason), messId, now);
    var response := send(request);
    stored := response.code == 200;
    if stored {
      db.massRequests := db.massRequests + [transPassRequest];
      db.passRequests := db.passRequests + passRequestsList;
    }
  }

  // ---------------------------------------------------------------------------
  // change_stat_model_task

  /** The ids of the documents whose id is listed, in table order. */
  function SelectedIds(documents: seq<Id>, idSet: seq<nat>): seq<Id> {
    if documents == [] then []
    else
      var d := documents[|documents| - 1];
      SelectedIds(documents[..|documents| - 1], idSet) + (if d in idSet then [d] else [])
  }

  /** `content`: `"<id>, "` for each document whose transition ran; `run(id)` is the transition's error, if any. */
  function SuccessText(ids: seq<Id>, run: Id -> Option<string>): string {
    if ids == [] then ""
    else
      var d := ids[|ids| - 1];
      SuccessText(ids[..|ids| - 1], run) + (if run(d).None? then NatToString(d) + ", " else "")
  }

  function ErrorLine(d: Id, error: string): string {
    "Переход с ID: " + NatToString(d) + " не выполнен. Ошибка: " + error + " \r\n"
  }

  /** `content_error`: one line for each document whose transition failed. */
  function ErrorText(ids: seq<Id>, run: Id -> Option<string>): string {
    if ids == [] then ""
    else
      var d := ids[|ids| - 1];
      ErrorText(ids[..|ids| - 1], run) + (if run(d).Some? then ErrorLine(d, run(d).value) else "")
  }

  /** `change_stat_model_task`: runs the transition on each selected document in order and sorts the outcomes. */
  method ChangeStatTask(documents: seq<Id>, idSet: seq<nat>, run: Id -> Option<string>)
    returns (content: string, contentError: string)
    ensures content == SuccessText(SelectedIds(documents, idSet), run)
    ensures contentError == ErrorText(SelectedIds(documents, idSet), run)
  {
    var transportDocuments := SelectedIds(documents, idSet);
    content := "";
    contentError := "";
    for k := 0 to |transportDocuments|
      invariant content == SuccessText(transportDocuments[..k], run)
      invariant contentError == ErrorText(transportDocuments[..k], run)
    {
      assert transportDocuments[..k + 1][..k] == transportDocuments[..k];
      var d := transportDocuments[k];
      var outcome := run(d);
      if outcome.None? {
        content := content + NatToString(d) + ", ";
      } else {
        contentError := contentError + ErrorLine(d, outcome.value);
      }
    }
    assert transportDocuments[..|transportDocuments|] == transportDocuments;
  }

  /** The ids whose transition ran, in order. */
  function Succeeded(ids: seq<Id>, run: Id -> Option<string>): seq<Id> {
    if ids == [] then []
    else Succeeded(ids[..|ids| - 1], run) + (if run(ids[|ids| - 1]).None? then [ids[|ids| - 1]] else [])
  }

  /** The ids whose transition failed, in order. */
  function Failed(ids: seq<Id>, run: Id -> Option<string>): seq<Id> {
    if ids == [] then []
    else Failed(ids[..|ids| - 1], run) + (if run(ids[|ids| - 1]).Some? then [ids[|ids| - 1]] else [])
  }

  /** `"<id>, "` for each id of a list. */
  function IdsText(ids: seq<Id>): string {
    if ids == [] then "" else IdsText(ids[..|ids| - 1]) + NatToString(ids[|ids| - 1]) + ", "
  }

  /** Every selected document lands in exactly one of the two outcomes. */
  lemma {:induction false} OutcomesPartition(ids: seq<Id>, run: Id -> Option<string>)
    ensures |Succeeded(ids, run)| + |Failed(ids, run)| == |ids|
    ensures forall x :: x in Succeeded(ids, run) <==> x in ids && run(x).None?
    ensures forall x :: x in Failed(ids, run) <==> x in ids && run(x).Some?
  {
    if ids != [] {
      var init := ids[..|ids| - 1];
      OutcomesPartition(init, run);
      assert forall x :: x in ids <==> x in init || x == ids[|ids| - 1];
    }
  }

  /** The success text lists exactly the documents whose transition ran, in order. */
  lemma {:induction false} SuccessTextLists(ids: seq<Id>, run: Id -> Option<string>)
    ensures SuccessText(ids, run) == IdsText(Succeeded(ids, run))
  {
    if ids != [] {
      var init := ids[..|ids| - 1];
      var d := ids[|ids| - 1];
      SuccessTextLists(init, run);
      if run(d).None? {
        var s := Succeeded(init, run) + [d];
        assert s[..|s| - 1] == Succeeded(init, run);
        assert IdsText(s) == IdsText(Succeeded(init, run)) + NatToString(d) + ", ";
      } else {
        assert Succeeded(ids, run) == Succeeded(init, run) + [] == Succeeded(init, run);
        assert SuccessText(ids, run) == SuccessText(init, run) + "" == SuccessText(init, run);
      }
    }
  }

  /** The success notice goes out exactly when some transition ran, the error notice exactly when some failed. */
  lemma {:induction false} NoticesSent(ids: seq<Id>, run: Id -> Option<string>)
    ensures SuccessText(ids, run) == "" <==> Succeeded(ids, run) == []
    ensures ErrorText(ids, run) == "" <==> Failed(ids, run) == []
  {
    if ids != [] {
      var init := ids[..|ids| - 1];
      var d := ids[|ids| - 1];
      NoticesSent(init, run);
      if run(d).None? {
        assert |NatToString(d) + ", "| > 0;
      } else {
        assert |ErrorLine(d, run(d).value)| > 0;
      }
    }
  }
}
