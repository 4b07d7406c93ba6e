/**
  Uploading a scanned document and its signatures to the document store
  (`send_file_sign_ched` with `sign_append`).

  The store's replies are inputs: `upload` is the reply to the file upload, and
  `service(docId, signature)` the reply to attaching one signature to the stored
  document.
 */
module Signing {
  import opened Text
  import opened Records

  /** Signatures shorter than this are skipped without being sent. */
  const MinSignatureLength := 50

  /** The signature as sent: carriage returns, line feeds and spaces removed, in that order. */
  function Cleaned(sign: string): string {
    RemoveAll(RemoveAll(RemoveAll(sign, "\r"), "\n"), " ")
  }

  /** How a rejected signature is reported: its first ten characters, `...`, its last ten. */
  function Abbreviated(sign: string): string {
    var n := if |sign| < 10 then |sign| else 10;
    sign[..n] + "..." + sign[|sign| - n..]
  }

  /** A signature `sign_append` sends: present, and at least 50 characters before cleaning. */
  predicate Sendable(sign: Option<string>) {
    sign.Some? && |sign.value| >= MinSignatureLength
  }

  /** The store accepted the signature: status 200 and a non-empty body. */
  predicate Accepted(reply: Response) {
    reply.code == 200 && reply.text != ""
  }

  /** The signatures sent to the store, in list order. */
  function SentSignatures(signs: seq<Option<string>>): seq<string> {
    if signs == [] then []
    else
      var sign := signs[|signs| - 1];
      SentSignatures(signs[..|signs| - 1]) + (if Sendable(sign) then [Cleaned(sign.value)] else [])
  }

  /** `status_list`: the abbreviations of the signatures the store refused, in list order. */
  function RejectedSignatures(signs: seq<Option<string>>, docId: string, service: (string, string) -> Response): seq<string> {
    if signs == [] then []
    else
      var sign := signs[|signs| - 1];
      RejectedSignatures(signs[..|signs| - 1], docId, service)
      + (if Sendable(sign) && !Accepted(service(docId, Cleaned(sign.value))) then [Abbreviated(Cleaned(sign.value))] else [])
  }

  /**
    `sign_append`: sends every signature that is present and long enough, cleaned,
    and collects the abbreviations of those the store refuses. `sent` lists the
    signatures sent, in order.
   */
  method SignAppend(signList: seq<Option<string>>, docId: string, service: (string, string) -> Response)
    returns (statusList: seq<string>, sent: seq<string>)
    ensures statusList == RejectedSignatures(signList, docId, service)
    ensures sent == SentSignatures(signList)
  {
    statusList := [];
    sent := [];
    for k := 0 to |signList|
      invariant statusList == RejectedSignatures(signList[..k], docId, service)
      invariant sent == SentSignatures(signList[..k])
    {
      assert signList[..k + 1][..k] == signList[..k];
      var sign := signList[k];
      if sign.None? || |sign.value| < 50 {
        continue;
      }
      var cleaned := RemoveAll(RemoveAll(RemoveAll(sign.value, "\r"), "\n"), " ");
      sent := sent + [cleaned];
      var signFile := service(docId, cleaned);
      if signFile.code != 200 || signFile.text == "" {
        statusList := statusList + [Abbreviated(cleaned)];
      }
    }
    assert signList[..|signList|] == signList;
  }

  /** A cleaned signature holds no carriage return, line feed or space. */
  lemma CleanedHasNoBreaks(sign: string)
    ensures '\r' !in Cleaned(sign) && '\n' !in Cleaned(sign) && ' ' !in Cleaned(sign)
  {
    var a := RemoveAll(sign, "\r");
    var b := RemoveAll(a, "\n");
    RemoveAllChar(sign, '\r');
    RemoveAllChar(a, '\n');
    RemoveAllChar(b, ' ');
    if '\r' in Cleaned(sign) {
      RemoveAllKeeps(b, " ", '\r');
      RemoveAllKeeps(a, "\n", '\r');
    }
    if '\n' in Cleaned(sign) {
      RemoveAllKeeps(b, " ", '\n');
    }
  }

  /**
    Only present signatures of at least 50 characters are sent, each cleaned, so no
    sent signature holds a carriage return, line feed or space.
   */
  lemma {:induction false} SentSignaturesClean(signs: seq<Option<string>>, x: string)
    requires x in SentSignatures(signs)
    ensures exists i :: 0 <= i < |signs| && Sendable(signs[i]) && x == Cleaned(signs[i].value)
    ensures '\r' !in x && '\n' !in x && ' ' !in x
  {
    var init := signs[..|signs| - 1];
    var sign := signs[|signs| - 1];
    if x in SentSignatures(init) {
      SentSignaturesClean(init, x);
      var i :| 0 <= i < |init| && Sendable(init[i]) && x == Cleaned(init[i].value);
      assert signs[i] == init[i];
    } else {
      assert Sendable(sign) && x == Cleaned(sign.value);
      CleanedHasNoBreaks(sign.value);
    }
  }

  /** At most one report per signature sent, so never more reports than signatures given. */
  lemma {:induction false} RejectedBounded(signs: seq<Option<string>>, docId: string, service: (string, string) -> Response)
    ensures |RejectedSignatures(signs, docId, service)| <= |SentSignatures(signs)| <= |signs|
  {
    if signs != [] {
      RejectedBounded(signs[..|signs| - 1], docId, service);
    }
  }

  /** Reports keep the order of the list: the reports of a concatenation are the concatenated reports. */
  lemma {:induction false} RejectedInOrder(a: seq<Option<string>>, b: seq<Option<string>>, docId: string, service: (string, string) -> Response)
    ensures RejectedSignatures(a + b, docId, service) == RejectedSignatures(a, docId, service) + RejectedSignatures(b, docId, service)
  {
    if b == [] {
      assert a + b == a;
    } else {
      var init := b[..|b| - 1];
      assert (a + b)[..|a + b| - 1] == a + init;
      assert (a + b)[|a + b| - 1] == b[|b| - 1];
      RejectedInOrder(a, init, docId, service);
    }
  }

  /** The report is empty exactly when the store accepts every signature that is sent. */
  lemma {:induction false} NoneRejected(signs: seq<Option<string>>, docId: string, service: (string, string) -> Response)
    ensures RejectedSignatures(signs, docId, service) == [] <==>
              forall i :: 0 <= i < |signs| && Sendable(signs[i]) ==> Accepted(service(docId, Cleaned(signs[i].value)))
  {
    if signs != [] {
      var init := signs[..|signs| - 1];
      NoneRejected(init, docId, service);
      assert forall i :: 0 <= i < |init| ==> init[i] == signs[i];
    }
  }

  // ---------------------------------------------------------------------------
  // send_file_sign_ched

  /** The fields of the object being signed that `send_file_sign_ched` sets. */
  class SignedObject {
    var status: StatusId
    var docId: Option<string>
    var taskId: Option<string>

    constructor (status: StatusId, docId: Option<string>, taskId: Option<string>)
      ensures this.status == status && this.docId == docId && this.taskId == taskId
    {
      this.status := status;
      this.docId := docId;
      this.taskId := taskId;
    }
  }

  /** How `send_file_sign_ched` ends. */
  datatype ChedOutcome =
    | NoDocument                          // no scan was given
    | UploadFailed(reason: string)        // the store refused the file
    | NoSignature                         // no signature at all, or every one missing
    | SignaturesRejected(signs: seq<string>)
    | Signed                              // file stored and no signature refused

  function ChedOutcomeOf(documentId: Option<Id>, upload: Response, signList: seq<Option<string>>,
                         service: (string, string) -> Response): ChedOutcome
  {
    if documentId.None? || documentId.value == 0 then NoDocument
    else if upload.code != 200 then UploadFailed(upload.text)
    else if forall i :: 0 <= i < |signList| ==> signList[i].None? then NoSignature
    else
      var rejected := RejectedSignatures(signList, upload.text, service);
      if rejected != [] then SignaturesRejected(rejected) else Signed
  }

  /**
    `send_file_sign_ched`: the object takes `statusId`; with no scan it is saved as
    it is; otherwise the old stored file is dropped, the task id cleared and the scan
    uploaded. A stored scan keeps the store's id, and the object moves on to
    `statusTo` only when every signature sent is accepted. A refused upload clears
    the document id. The result is false for a missing scan, a missing signature and
    a refused signature, and true otherwise, a refused upload included.
   */
  method SendFileSignChed(obj: SignedObject, documentId: Option<Id>, statusId: StatusId, statusTo: StatusId,
                          upload: Response, signList: seq<Option<string>>, service: (string, string) -> Response)
    returns (done: bool)
    modifies obj
    ensures var outcome := ChedOutcomeOf(documentId, upload, signList, service);
            && done == (outcome.Signed? || outcome.UploadFailed?)
            && obj.status == (if outcome.Signed? then statusTo else statusId)
            && obj.docId == (if outcome.NoDocument? then old(obj.docId)
                             else if outcome.UploadFailed? then None
                             else Some(upload.text))
            && obj.taskId == (if outcome.NoDocument? then old(obj.taskId) else None)
  {
    obj.status := statusId;
    if documentId.None? || documentId.value == 0 {
      return false;
    }
    obj.taskId := None;
    if upload.code == 200 {
      obj.docId := Some(upload.text);
      if forall i | 0 <= i < |signList| :: signList[i].None? {
        return false;
      }
      var statusList, _ := SignAppend(signList, upload.text, service);
      if statusList != [] {
        return false;
      }
      obj.status := statusTo;
    } else {
      obj.docId := None;
    }
    return true;
  }

  /**
    The object moves on to `statusTo` exactly when a scan is given, the upload is
    accepted, at least one signature is present, and the store accepts every
    signature that is sent.
   */
  lemma SignedExactly(documentId: Option<Id>, upload: Response, signList: seq<Option<string>>,
                      service: (string, string) -> Response)
    ensures ChedOutcomeOf(documentId, upload, signList, service).Signed? <==>
              && documentId.Some? && documentId.value != 0
              && upload.code == 200
              && (exists i :: 0 <= i < |signList| && signList[i].Some?)
              && (forall i :: 0 <= i < |signList| && Sendable(signList[i]) ==>
                    Accepted(service(upload.text, Cleaned(signList[i].value))))
  {
    NoneRejected(signList, upload.text, service);
  }

  /**
    Signatures shorter than 50 characters are skipped, not refused: a list holding
    only such signatures lets the object move on without any signature being sent.
   */
  lemma ShortSignaturesOnly(documentId: Id, upload: Response, sign: string, service: (string, string) -> Response)
    requires documentId != 0 && upload.code == 200 && |sign| < MinSignatureLength
    ensures ChedOutcomeOf(Some(documentId), upload, [Some(sign)], service) == Signed
    ensures SentSignatures([Some(sign)]) == []
  {
    var signs := [Some(sign)];
    assert signs[..0] == [];
    assert !Sendable(signs[0]);
    assert RejectedSignatures(signs, upload.text, service) == [];
    assert !(forall i :: 0 <= i < |signs| ==> signs[i].None?) by {
      assert signs[0].Some?;
    }
  }
}
