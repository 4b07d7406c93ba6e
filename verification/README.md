# Permit requests for garbage trucks: checklist, submission and status bookkeeping

This project models the core of the integration between a document workflow and the
city's permit service. A *mass request* (`TransportPassRequest`) is one message
to the permit service. It gathers *pass requests* (`PassRequests`), one per truck.
Each truck (`Transport`) has an owner, contacts, documents and drivers.

The model covers the following:

- **The validation checklist.** The `validate_*` rules, `get_driver_category_error`, `get_id_set` and `split_full_name`.
  - Every rule appends a fixed message when data is missing.
  - The model keeps the messages as a list of `Issue`s and renders them into the exact text.
  - The empty text means "valid".
- **Failure marking and submission.** `process_pass_requests`, `_update_status_and_check_data`, `send_to_ovga` and the payload builders.
  - Pass requests that are not archived are checked.
  - Failing ones are marked and saved, and the operation is refused with their ids.
  - Otherwise the request body is assembled.
  - Transport documents marked `yes` go to `truck.documents` and those marked `no` to `otherDocuments`.
- **The annulment guards of `annul_pass_requests`.**
- **The background tasks.**
  - The JSON clean-up (`process_json_value`, `process_json`).
  - The signature upload (`sign_append`, `send_file_sign_ched`).
  - The status outcomes of `send_request_ovga` and `send_annul_ovga`.
  - The success/failure split of `change_stat_model_task`.
- **The incoming status update.** `TransportPassRequestUpdateView.update` with `get_status_date` and `get_start_end_date`.

How the model is built:

- **The two tables.** `Store.Database` is a class whose fields are the mass request table and the pass request table. The operations that save rows are methods that modify it.
- **Loops.** Each loop is a method with invariants. It is proved equal to a specification function over the old table, and the properties are lemmas about those functions.
- **Crashes.** A Python crash on missing data becomes `None`. Examples are an attribute of `None` and `strftime` of a missing date.
- **External replies.** Replies from the document store and the permit service are inputs. So are fresh uuids, the clock, the date parser and the conversion of text to a UUID.

## Model

| member | source | states |
|---|---|---|
| Text.Strip | tasks.py:197 | `str.strip()`: the result is a slice of the text with only whitespace cut before and after it, and neither starts nor ends with whitespace; a text already so is unchanged |
| Text.Split | models.py:43 | `split(',')` gives at least one part and no part holds the separator |
| Text.SplitJoin | models.py:43 | splitting parts joined by a separator (none holding it) gives the parts back |
| Text.JoinSplit | models.py:43 | joining the parts of a split gives the text back |
| Text.SplitConcat | models.py:43 | splitting at a separator gives the parts before it followed by the parts after it |
| Text.SplitNone | models.py:43 | a text without the separator is a single part |
| Text.Words | models.py:579 | `split()` gives non-empty runs without whitespace |
| Text.WordsRebuild | models.py:579 | the words, put back between whitespace-only gaps that are non-empty between two words, rebuild the text: `split()` gives exactly the maximal runs of non-whitespace, in order |
| Text.WordsOfJoin | models.py:579 | words written with single spaces are split back into the same words |
| Text.NatToString | models.py:298 | `str(n)` is a digit string without a leading zero (except for 0) |
| Text.ParseNatToString | models.py:44 | `int(str(n)) == n` |
| Text.RemoveAll | tasks.py:197 | `replace(pat, '')` never lengthens the text |
| Text.RemoveAllPieces | tasks.py:197 | the text is the remaining pieces joined by the pattern, and the result is the same pieces joined by nothing |
| Text.PiecesLeftmost | tasks.py:197 | the removed occurrences are the leftmost non-overlapping ones: after each piece the first occurrence is the removed one, and the last piece holds none |
| Text.RemoveAllAbsent | tasks.py:197 | a text without the pattern is unchanged by the removal |
| Text.RemoveAllKeeps | tasks.py:126 | removal only deletes: every character of the result was in the text |
| Text.RemoveAllChar | tasks.py:126 | removing a one-character pattern leaves none of it |
| Records.LicenceTypeId | models.py:662 | the driver's licence type is the first type with that name, None exactly when there is none |
| Records.SavePassRequest | models.py:511-514 | `save` gives a pass request a request id when it has none, and changes nothing else |
| Records.SaveMassRequest | models.py:258-261 | `save` gives a mass request a message id when it has none, and changes nothing else |
| Store.Database.SaveMass | models.py:258-261 | the saved mass request is replaced by its saved form and has a message id; the pass request table is unchanged |
| Store.Database.SavePass | models.py:511-514 | the saved pass request is replaced by its saved form and has a request id; the mass request table is unchanged |
| Validation.Render | models.py:721-740 | the checklist text is empty exactly when there is no issue |
| Validation.GetIdSet | models.py:42-47 | the ids are exactly the values of the tokens made only of digits, at most one per token; with none it returns the error value "Неверные идентификаторы" |
| Validation.GetIdSetConcat | models.py:42-47 | ids are read in list order: the ids of `a,b` are those of `a` followed by those of `b` |
| Validation.GetIdSetToken | models.py:42-47 | a single token is one id, its integer value, when made only of digits, and the error value otherwise |
| Validation.GetIdSetRoundTrip | models.py:42-47 | ids written as a comma-separated list are read back unchanged and in order |
| Validation.TransportChecksMessages | models.py:585-604 | without an owner only "не привязан контрагент" is reported; otherwise each missing address, full name, INN, OGRN and phone is reported, exactly when missing |
| Validation.ValidateTransport | models.py:585-604 | no message exactly when the owner and all its details are present; every message names the transport's tracker |
| Validation.RequestChecksMessages | models.py:606-617 | a message for the start date, end date, zone or reason appears exactly when that field is empty |
| Validation.ValidateRequestData | models.py:606-617 | the text is empty exactly when all four fields are filled |
| Validation.MissingRequiredTypes | models.py:626-630 | the required types with neither themselves nor their child type among the documents' types (corrected reading) |
| Validation.MissingRequiredTypesAsWritten | models.py:626-630 | the same check as the code writes it: a missing child type counts as matching any untyped document |
| Validation.UntypedDocumentSatisfiesChildlessType | models.py:626-630 | a required childless type (the diagnostic card) counts as present when one document is untyped |
| Validation.MissingRequiredTypesAgree | models.py:626-630 | the two readings agree when no document is untyped or every required type has a child type |
| Validation.TransDataChecksMessages | models.py:619-645 | each of the number, class, brand, model, ecoclass, required-documents and driver messages appears exactly when its requirement fails; the driver message exactly when there is no driver (corrected reading, see Findings) |
| Validation.ValidateTransData | models.py:619-645 | no message exactly when every transport requirement holds; every message names the tracker (corrected reading, see Findings) |
| Validation.DocumentsToValidate | models.py:733 | keeps exactly the documents that are marked, not diagnostic cards and not deleted |
| Validation.DocumentChecksMessages | models.py:647-658 | the type, storage-id and signature messages appear exactly when that field is missing |
| Validation.DocumentsIssuesEmpty | models.py:647-658 | no document message exactly when every document is typed, stored and signed |
| Validation.ValidateDocuments | models.py:647-658 | the loop appends each document's failed checks in order (equal to the specification function) |
| Validation.KeepAllowed | models.py:665 | keeps exactly the category tokens whose stripped form is B, C, C1, C2 or C3, as written |
| Validation.CategoryError | models.py:660-671 | a licence with a category errors exactly when no allowed category is named; another type with a category never errors; a missing category always errors |
| Validation.DriverDocumentFilters | models.py:677 | the two filters keep exactly the live documents marked `yes` and `no` |
| Validation.LicenceChecksMessages | models.py:673-691 | each licence message appears exactly when its requirement fails |
| Validation.LicenceChecksEmpty | models.py:673-691 | a main document gets no message exactly when it passes every licence check |
| Validation.OtherChecksMessages | models.py:693-704 | each message on a non-main document appears exactly when its field is missing |
| Validation.LicenceIssuesFacts | models.py:673-691 | every licence message is about this driver; none exactly when every main document is complete |
| Validation.OtherIssuesFacts | models.py:693-704 | every non-main message is about this driver; none exactly when every such document is complete |
| Validation.ValidateDriverLicense | models.py:673-691 | the loop equals the specification function over the driver's main documents |
| Validation.ValidateOtherDocuments | models.py:693-704 | the loop equals the specification function over the driver's non-main documents |
| Validation.DriverNameMessage | models.py:710-711 | the name message appears exactly when the driver has no name |
| Validation.DriverLicenceMessage | models.py:713-714 | the "no licence document" message appears exactly when the driver has no live main document |
| Validation.DriverWithoutLicence | models.py:713-716 | without a main document no licence check runs: every document message is about a non-main document |
| Validation.DriverOtherDocumentsLast | models.py:718 | the non-main document messages always close a driver's messages |
| Validation.DriverIssuesEmpty | models.py:706-719 | a driver has no message exactly when named, with a main document, and all its documents complete |
| Validation.DriversIssuesEmpty | models.py:706-719 | no driver message exactly when every driver passes |
| Validation.ValidateDrivers | models.py:706-719 | the loop equals the specification function over the drivers |
| Validation.AllIssuesEmpty | models.py:721-740 | a pass request gets no message exactly when it meets every requirement of the checklist (corrected reading, see Findings) |
| Validation.ValidateAllData | models.py:721-740 | the text is the rendering of all issues, and is empty exactly when the pass request passes (corrected reading, see Findings) |
| Assembly.SplitFullName | models.py:577-582 | each part is empty exactly when the name has fewer words than its position |
| Assembly.SplitFullNameOfWords | models.py:577-582 | surname, first name and patronymic are the first three words; further words are dropped |
| Assembly.FirstContact | models.py:304-314 | the contact at the first position holding the type (and main, when asked), or none exactly when there is no such contact |
| Assembly.ContactOf | models.py:304-314 | a contact is found exactly when the owner has one of that type; it is the first main contact of the type, or the first of the type when none is main |
| Assembly.FirstBrand | models.py:318 | the brand of the first document that has one; none exactly when no document has one |
| Assembly.FirstModel | models.py:319 | the model of the first document that has one; none exactly when no document has one |
| Assembly.FirstEcoclass | models.py:339 | the ecoclass of the first document that has one; none exactly when no document has one |
| Assembly.MarkedEntriesOfTyped | models.py:344-353 | with every live document typed, the entries of each mark can be built |
| Assembly.PlacedExactly | models.py:430-437 | placing the documents fails exactly when a live document is untyped |
| Assembly.MarkedEntriesFrom | models.py:430-437 | an entry is placed under a mark exactly when a live document with that mark produced it; other marks go nowhere |
| Assembly.PlaceDocuments | models.py:430-437 | the placement loop equals the reference placement |
| Assembly.DriverDocumentEntriesExactly | models.py:380-389 | the non-main driver entries exist exactly when every such document is typed and has both dates |
| Assembly.AppendDriverDocuments | models.py:393-396 | the inner loop equals the specification function |
| Assembly.DriverDocumentEntriesFail | models.py:391-399 | a failing prefix of documents fails the whole loop |
| Assembly.DriversPartFail | models.py:391-399 | a failing prefix of drivers fails the whole loop |
| Assembly.DriverInfoDocuments | models.py:391-399 | the driver loop equals the specification function |
| Assembly.DriverBuilds | models.py:355-378 | a driver that passes the checklist gets a payload exactly when its licence has a validity date and its other documents have both dates |
| Assembly.DriversBuild | models.py:391-399 | the drivers block of checked drivers exists exactly when no driver has such a gap |
| Assembly.BuildEntry | models.py:426-448 | the loop body equals the reference entry |
| Assembly.EntryAfterChecklist | models.py:426-448 | for a pass request that passes the checklist, its entry is built exactly when none of the data the checklist skips is missing |
| Submission.ContentEmpty | models.py:277-278 | the checklist text is empty exactly when the pass request passes |
| Submission.MarkRowsEffect | models.py:266-285 | a scanned failing pass request gets its non-empty checklist text, the failure status, no send status and a request id, and nothing else changes; every other row is unchanged |
| Submission.FailedIdsExactly | models.py:266-285 | the reported ids are exactly those of the scanned pass requests that fail |
| Submission.CheckPassRequest | models.py:272-283 | one turn of the loop: the pass request is reported exactly when it is scanned and fails, and the table changes only at that row, to its marked form |
| Submission.ProcessPassRequests | models.py:266-285 | the table after the loop is the marked table; the reported ids are the failed ones; mass requests are unchanged |
| Submission.UpdateStatusAndCheckData | models.py:287-298 | the mass request takes the status and is saved; the pass requests are marked; the operation is refused with the failed ids exactly when there are any |
| Submission.ScanAfterCrash | models.py:401-454 | once the loop has failed on missing data, the remaining rows are left as they are |
| Submission.ScanMarksLikeProcess | models.py:411-424 | when the loop does not fail, it marks the rows and reports the ids exactly as `process_pass_requests` does |
| Submission.ScanAccountsForEachRequest | models.py:411-448 | every scanned pass request is either marked or gets an entry |
| Submission.ScanPassRequests | models.py:411-448 | the loop equals the specification scan; only the pass request table changes |
| Submission.SendToOvga | models.py:401-454 | the mass request takes the status and is saved, the pass requests are marked, and the outcome is a failure, a refusal or the assembled request |
| Submission.SubmittedOnlyWhenAllPass | models.py:449-454 | the request is sent only when every scanned pass request passes; then no row changes and it holds one entry per scanned pass request |
| Submission.RefusedListsFailures | models.py:449-450 | a refusal lists exactly the scanned pass requests that fail, and at least one |
| Submission.SelectedMembers | models.py:543 | the selection holds exactly the pass requests whose id is listed |
| Submission.PassIdsMembers | models.py:545 | the pass id list holds exactly the pass ids present among the rows |
| Submission.DefaultStatusIdsEmpty | models.py:545-548 | the clash list is empty exactly when no pass request in the default status of the pass-request type shares a pass id with a selected one |
| Submission.WithoutPassIdEmpty | models.py:550-553 | the list of selected rows without a pass id is empty exactly when all have one |
| Submission.DefaultStatusIdsMembers | models.py:545-546 | the clash list holds exactly the ids of the rows in the default status whose pass id is among the selected ones |
| Submission.WithoutPassIdMembers | models.py:550 | the list holds exactly the ids of rows without a pass id |
| Submission.AnnulRefusalLists | models.py:545-553 | each refusal names exactly the offending pass requests |
| Submission.AnnulQueuedExactly | models.py:537-556 | the annulment is queued, with the ids and the cancel reason, exactly when some id is valid, every selected row has a pass id, no row in the default status shares a pass id with a selected one, and the request data has `cancel_reason`; with the guards passed and no such key the call fails |
| Sanitize.ProcessValue | tasks.py:193-198 | `None` becomes `''`, strings are cleaned, anything else is kept |
| Sanitize.ChildIsProcessedThenSanitized | tasks.py:204-210 | each child is processed, then cleaned in its turn |
| Sanitize.SanitizedKeepsShape | tasks.py:202-210 | keys and their order, array lengths and the scalar/container split are kept at every depth |
| Sanitize.SanitizedIsClean | tasks.py:202-210 | below the top no value is `null` and no string has surrounding whitespace |
| Sanitize.ProcessJson | tasks.py:202-210 | the recursive loops compute the specification function |
| Sanitize.NanRemovalNotIdempotent | tasks.py:197 | removing `nan` from `nnanan` leaves `nan`, which a second removal deletes: one pass of the clean-up is not idempotent |
| Sanitize.NanRemovedInsideWords | tasks.py:197 | `nan` is removed inside other words too: `Finance` becomes `Fice` |
| Signing.SignAppend | tasks.py:121-134 | the loop sends exactly the present signatures of at least 50 characters, cleaned, and reports the abbreviations of the refused ones in order |
| Signing.CleanedHasNoBreaks | tasks.py:126 | a cleaned signature holds no carriage return, line feed or space |
| Signing.SentSignaturesClean | tasks.py:123-126 | every sent signature comes from a present, long enough signature and is clean |
| Signing.RejectedBounded | tasks.py:121-134 | never more reports than signatures sent, nor more sent than given |
| Signing.RejectedInOrder | tasks.py:121-134 | the reports of a concatenated list are the concatenated reports |
| Signing.NoneRejected | tasks.py:127-133 | no report exactly when the store accepts every signature that is sent |
| Signing.SendFileSignChed | tasks.py:149-189 | status, document id, task id and the result for each way the upload can end |
| Signing.SignedExactly | tasks.py:149-189 | the object moves on exactly when a scan is given, the upload succeeds, a signature is present and none sent is refused |
| Signing.ShortSignaturesOnly | tasks.py:123-124 | a list of only short signatures still ends signed, with nothing sent |
| Tasks.SentMassOutcome | tasks.py:213-265 | on 200 the mass request ends in the target status with `SUCCESS`, otherwise in the given status with `ERROR`; the task id survives only in test mode; nothing else changes but the body |
| Tasks.AdvanceRowsEffect | tasks.py:241-243 | each pass request of the mass request that is not archived takes the target status and a request id; other rows are unchanged |
| Tasks.AdvancePassRequests | tasks.py:241-243 | the loop equals the specification function |
| Tasks.SendRequestOvga | tasks.py:234-265 | on 200 the pass requests move on; the mass request records the outcome and is saved either way; the result is True |
| Tasks.AnnulEntriesCopy | tasks.py:280-288 | one entry per selected pass request, in order, with the new request id, its pass id, series number and the cancel reason |
| Tasks.AnnulRowsFacts | tasks.py:278-284 | each new pass request belongs to the new mass request, waits for annulment, is marked sent and copies transport, pass id and series number |
| Tasks.SendAnnulOvga | tasks.py:268-304 | the new rows are stored exactly when the service answers 200; otherwise nothing changes |
| Tasks.ChangeStatTask | tasks.py:307-328 | the success and error texts are those of the documents, in order |
| Tasks.OutcomesPartition | tasks.py:318-323 | every selected document lands in exactly one outcome |
| Tasks.SuccessTextLists | tasks.py:318-321 | the success text lists exactly the documents whose transition ran, in order |
| Tasks.NoticesSent | tasks.py:324-327 | the success notice goes out exactly when a transition ran, the error notice exactly when one failed |
| StatusUpdate.ParseTimestamp | serializers.py:44-47 | the value the fractional-seconds format reads when it accepts the text, otherwise the value of the minutes format, none when neither accepts it |
| StatusUpdate.FirstZone | serializers.py:98-99 | the first zone, in table order, with the given code; none exactly when there is none |
| StatusUpdate.FirstMass | serializers.py:78 | the first mass request, in table order, with the converted message id (several may share it); none exactly when there is none |
| StatusUpdate.AddressedExactly | serializers.py:75-79 | a request id that is not a UUID is a 400, otherwise exactly the rows whose `p_id` is the UUID it names, however spelt, are addressed; without one, a message id that is not a UUID is a 400, otherwise the rows of the first mass request with that id are addressed, and no such mass request is a 400 |
| StatusUpdate.NonUuidLookupRejected | serializers.py:75-106 | a request id, or in its absence a message id, that is not a UUID makes the update a 400 |
| StatusUpdate.ReviseAddressed | serializers.py:80-104 | the loop revises and saves every addressed row when the timestamps can be read; otherwise it answers 400 exactly when some row is addressed, and then changes nothing |
| StatusUpdate.Update | serializers.py:70-108 | the answer and the new table are those of the specification outcome: a 400 without a key or when an addressed row's timestamps cannot be read, otherwise every addressed row revised and saved; the mass request table is unchanged (corrected reading, see Findings) |
| StatusUpdate.UpdatedRowFields | serializers.py:70-108 | copied fields take the payload (absent ones as None); the dates change only when given; the zone is looked up; other rows are unchanged |
| StatusUpdate.MissingStatusDateRejected | serializers.py:49-50 | as written, a payload without a status date is a 400 once a row is addressed; as intended, it succeeds when the other dates can be read |

## Left out

- I/O is not modelled: HTTP calls to the document store and the permit service, Celery dispatch, notices, `LogEvent` records and the admin views. Replies are inputs.
- `strftime`/`strptime`, `uuid4`, `datetime.now` and JSON pretty-printing are parameters. The last is `format` in `Tasks.SentMass`.
- The utils loaders, `create_request_ovga`, `generate_xslx_ovga` and the spreadsheet imports are not part of this model. `send_to_ovga` ends with the assembled request (`Submitted`).
- UUID-format validation on `save` (a `passId` that is not a UUID) is not modelled. The UUID conversion of the `p_id` and `mess_id` lookups is a parameter (`uuidOf`), standing for Django's parsing of any accepted spelling.
- Database transactions are not modelled: a crash is `None`, and the rows saved before it stay saved.
- Text.IsDigits: covers ASCII digits only, whereas Python's `isdigit` also accepts other Unicode digits.
- Validation.ValidateRequestData: a zone id of 0 would be falsy in Python; ids are taken as positive.
- Submission.ProcessPassRequests: a pass request always has a transport here. In the source the foreign key is nullable and set to NULL when the transport is deleted (models.py:484-485), and such a row crashes `validate_transport` at `trans.tracker_id` (models.py:588). That crash is not modelled.
- Submission.SendToOvga: the same missing-transport crash (models.py:588, reached through the checklist) is not modelled.
- Tasks.SendAnnulOvga: a selected pass request without a transport crashes at `pass_req.transport.id` (tasks.py:280); the model always copies a transport.
- Validation.MissingRequiredTypes: how pandas treats an empty frame, when the catalog holds no required type, is not modelled. The model then reports no missing type.
- Sanitize.ProcessJson: `process_json` rewrites the document in place. The model works on values, so aliasing between parts of one document is not captured.
- Validation.ValidateAllData: the checklist checks the required documents in the corrected reading (see Findings), so `Submission.ProcessPassRequests`, `Submission.SendToOvga` and every lemma about `Passes` describe the corrected program; the code's own test is `Validation.MissingRequiredTypesAsWritten`.
- StatusUpdate.Update: stated for the corrected status date (see Findings); as written, a payload without `statusDate` that addresses a row is a 400 (`StatusUpdate.MissingStatusDateRejected`).
- Submission.AnnulGuard: `get_id_set` returns its error object instead of raising it. The model takes that value reaching `id__in` as `BadIdText`, the failure of the query.
- StatusUpdate.Update: the `DoesNotExist` branch of `update` is unreachable (a filter never raises it) and is not modelled. A `messageId` with no mass request answers 400 through the attribute error.
- Tasks.ChangeStatTask: the transitions' own side effects belong to the workflow engine. `run` gives each transition's error text.
- Validation.Render: its contract states only when the text is empty. The exact Russian text of each message is fixed by its definition (`IssueText`) and not restated as a lemma.

## Findings

| source | as written | input that shows it | evidently intended | confidence | as-written member | corrected member |
|---|---|---|---|---|---|---|
| models.py:626-630 | a required type without a child type is looked up as `[name, None]`, and `None in doc_list` holds for any untyped document | a required diagnostic card with no child type, and a transport whose only document has no type: no "СТС или ПТС и Диагностическая карта" message | a childless required type is present only when a document of that type is attached | not executed | Validation.MissingRequiredTypesAsWritten, Validation.UntypedDocumentSatisfiesChildlessType | Validation.MissingRequiredTypes |
| serializers.py:49-50 | without `statusDate`, `get_status_date` calls `datetime.date().today()`, which raises a `TypeError` | a payload with a valid `requestId` that matches a pass request and no `statusDate`: the answer is 400 | an absent status date means now | not executed | StatusUpdate.StatusDateAsWritten, StatusUpdate.MissingStatusDateRejected | StatusUpdate.StatusDate |
