/**
  The validation checklist run on every pass request before it is sent to the
  permit service (`TransportExtend.validate_*` and `get_id_set`).

  Each failed check appends a fixed message to a text; the empty text means
  "valid". Here a message is an `Issue` and the text of a list of messages is
  `Render`. Each validator yields its messages in the order the code appends
  their texts: the straight-line ones as functions, the ones that loop over
  documents and drivers as methods proved equal to a specification function.
 */
module Validation {
  import opened Text
  import opened Records

  // ---------------------------------------------------------------------------
  // Messages

  /** The checks on a transport and its owner (`validate_transport`, `validate_trans_data`). */
  datatype TransportCheck =
    | ParticipantMissing | AddressMissing | FullNameMissing | InnMissing | OgrnMissing | PhoneMissing
    | NumberMissing | ClassMissing | BrandMissing | ModelMissing | EcoclassMissing | RequiredDocsMissing
    | DriverMissing

  /** The checks on the request's own fields (`validate_request_data`). */
  datatype RequestCheck = StartDateMissing | EndDateMissing | ZoneMissing | ReasonMissing

  /** The checks on a transport document (`validate_documents`). */
  datatype DocumentCheck = DocTypeMissing | ChedIdMissing | SignatureMissing

  /** The checks on a driver's document (`get_driver_category_error`, `validate_driver_license`, `validate_other_documents`). */
  datatype DriverDocCheck =
    | NoAllowedCategory | CategoryMissing | SeriesMissing | LicenceNumberMissing | IssueDateMissing
    | LicenceNotSent | DriverDocTypeMissing | DriverDocNotSigned | OtherNotSent

  /** The checks on a driver (`validate_drivers`). */
  datatype DriverCheck = NameMissing | LicenceMissing

  /** One message of the checklist, with the subject it names. */
  datatype Issue =
    | OfTransport(tracker: string, transportCheck: TransportCheck)
    | OfRequest(requestCheck: RequestCheck)
    | OfDocument(doc: Id, documentCheck: DocumentCheck)
    | OfDriverDoc(driver: Id, driverDoc: Id, driverDocCheck: DriverDocCheck)
    | OfDriver(driverId: Id, driverCheck: DriverCheck)

  function TransportText(c: TransportCheck): string {
    match c
    case ParticipantMissing => "не привязан контрагент.\r\n "
    case AddressMissing => "в контактах не указан почтовый адрес.\r\n "
    case FullNameMissing => "в контрагенте не указано полное наименование организации.\r\n "
    case InnMissing => "в контрагенте не указан ИНН.\r\n "
    case OgrnMissing => "в контрагенте не указан ОГРН.\r\n "
    case PhoneMissing => "в контактах не указан телефонный номер.\r\n "
    case NumberMissing => "не указан государственный регистрационный знак.\r\n "
    case ClassMissing => "не указан класс транспорта.\r\n "
    case BrandMissing => "не указана марка транспорта в документах СТС/ПТС.\r\n "
    case ModelMissing => "не указана модель транспорта в документах СТС/ПТС.\r\n "
    case EcoclassMissing => "ни в одном приложенном документе не указан Экокласс.\r\n "
    case RequiredDocsMissing =>
      "в документах транспорта должны быть загружены документы СТС или ПТС и Диагностическая карта.\r\n "
    case DriverMissing => "необходимо, чтобы был привязан хотя бы 1 водитель.\r\n "
  }

  function RequestText(c: RequestCheck): (t: string)
    ensures |t| > 0
  {
    match c
    case StartDateMissing => "Не указана Дата начала действия пропуска.\n"
    case EndDateMissing => "Не указана Дата окончания действия пропуска.\n"
    case ZoneMissing => "Не указана зона действия транспорта.\n"
    case ReasonMissing => "Не указано основание включения.\n"
  }

  function DocumentText(c: DocumentCheck): string {
    match c
    case DocTypeMissing => "тип документа. \r\n"
    case ChedIdMissing => "идентификатор ЦХЭД. \r\n"
    case SignatureMissing => "подписи. \r\n"
  }

  /** The part of a driver-document message after the driver prefix; `doc` is the document id as text. */
  function DriverDocText(c: DriverDocCheck, doc: string): string {
    match c
    case NoAllowedCategory => "для документа с ID " + doc + " отсутствуют разрешенные категории.\r\n "
    case CategoryMissing => "необходимо присвоить Категорию ВУ для документа с ID " + doc + ".\r\n "
    case SeriesMissing => "необходимо указать Серию для документа с ID " + doc + ".\r\n "
    case LicenceNumberMissing => "необходимо указать Номер ВУ для документа с ID " + doc + ".\r\n "
    case IssueDateMissing => "необходимо указать не указана дата выдача ВУ для документа с ID: " + doc + ".\r\n "
    case LicenceNotSent => "необходимо отправить документ с ID: " + doc + " в ЦХЭД.\r\n "
    case DriverDocTypeMissing => "не указан Тип документа для документа с ID: " + doc + ".\r\n "
    case DriverDocNotSigned => "не подписан документ: " + doc + " и подпись не прикреплена в ЦХЭД"
    case OtherNotSent => "необходимо отправить документ в ЦХЭД с ID: " + doc + ".\r\n "
  }

  /** A driver message; `driver` is the driver id as text. */
  function DriverText(c: DriverCheck, driver: string): (t: string)
    ensures |t| > 0
  {
    match c
    case NameMissing => "Необходимо присвоить ФИО для водителя с ID " + driver + ". \r\n "
    case LicenceMissing => "Необходимо указать документ с ВУ для водителя с ID " + driver + ". \r\n "
  }

  function TransportPrefix(tracker: string): (t: string)
    ensures |t| > 0
  {
    "В транспорте с треком " + tracker + " "
  }

  function DriverPrefix(driver: Id): (t: string)
    ensures |t| > 0
  {
    "У водителя с ID " + NatToString(driver) + " "
  }

  function DocumentPrefix(doc: Id): (t: string)
    ensures |t| > 0
  {
    "В документе транспорта с ID " + NatToString(doc) + " не указаны: \r\n"
  }

  /** The text the code appends for one issue. */
  function IssueText(i: Issue): (t: string)
    ensures |t| > 0
  {
    match i
    case OfTransport(tr, c) => TransportPrefix(tr) + TransportText(c)
    case OfRequest(c) => RequestText(c)
    case OfDocument(d, c) => DocumentPrefix(d) + DocumentText(c)
    case OfDriverDoc(dr, d, c) => DriverPrefix(dr) + DriverDocText(c, NatToString(d))
    case OfDriver(dr, c) => DriverText(c, NatToString(dr))
  }

  /** The text of a list of issues: their texts, one after the other. Empty exactly when there is no issue. */
  function Render(issues: seq<Issue>): (r: string)
    ensures r == "" <==> issues == []
  {
    if issues == [] then "" else Render(issues[..|issues| - 1]) + IssueText(issues[|issues| - 1])
  }

  // ---------------------------------------------------------------------------
  // get_id_set

  datatype IdSet = Ids(ids: seq<nat>) | BadIds(message: string)

  /** The integers of the tokens made only of digits, in order. */
  function DigitTokens(tokens: seq<string>): (r: seq<nat>)
    ensures |r| <= |tokens|
    ensures forall x :: x in r <==> exists i :: 0 <= i < |tokens| && IsDigits(tokens[i]) && ParseNat(tokens[i]) == x
    ensures r == [] <==> forall i :: 0 <= i < |tokens| ==> !IsDigits(tokens[i])
  {
    if tokens == [] then []
    else
      var init := tokens[..|tokens| - 1];
      var last := tokens[|tokens| - 1];
      assert forall i :: 0 <= i < |init| ==> init[i] == tokens[i];
      DigitTokens(init) + (if IsDigits(last) then [ParseNat(last)] else [])
  }

  /** `get_id_set`: the comma-separated numeric identifiers; the error value is returned, not raised. */
  function GetIdSet(text: string): (r: IdSet)
    ensures r.BadIds? <==> forall t :: t in Split(text, ',') ==> !IsDigits(t)
    ensures r.BadIds? ==> r.message == "Неверные идентификаторы"
    ensures r.Ids? ==> r.ids != [] && |r.ids| <= |Split(text, ',')|
    ensures r.Ids? ==> forall x :: x in r.ids <==> exists t :: t in Split(text, ',') && IsDigits(t) && ParseNat(t) == x
  {
    var ids := DigitTokens(Split(text, ','));
    if ids == [] then BadIds("Неверные идентификаторы") else Ids(ids)
  }

  /** The identifiers read, none for the error value. */
  function IdsOf(r: IdSet): seq<nat> {
    if r.Ids? then r.ids else []
  }

  lemma {:induction false} DigitTokensConcat(x: seq<string>, y: seq<string>)
    ensures DigitTokens(x + y) == DigitTokens(x) + DigitTokens(y)
  {
    if y != [] {
      var init := y[..|y| - 1];
      DigitTokensConcat(x, init);
      assert (x + y)[..|x + y| - 1] == x + init;
      assert (x + y)[|x + y| - 1] == y[|y| - 1];
    } else {
      assert x + y == x;
    }
  }

  /** `get_id_set` reads a list in order: the ids on either side of a comma, one after the other. */
  lemma GetIdSetConcat(a: string, b: string)
    ensures IdsOf(GetIdSet(a + [','] + b)) == IdsOf(GetIdSet(a)) + IdsOf(GetIdSet(b))
  {
    SplitConcat(a, ',', b);
    DigitTokensConcat(Split(a, ','), Split(b, ','));
  }

  /** A single token is an id when it is made only of digits, and the error value otherwise. */
  lemma GetIdSetToken(t: string)
    requires ',' !in t
    ensures GetIdSet(t) == if IsDigits(t) then Ids([ParseNat(t)]) else BadIds("Неверные идентификаторы")
  {
    SplitNone(t, ',');
    assert DigitTokens([t]) == DigitTokens([]) + (if IsDigits(t) then [ParseNat(t)] else []);
  }

  function NumbersText(ids: seq<nat>): (r: seq<string>)
    ensures |r| == |ids|
    ensures forall i :: 0 <= i < |ids| ==> r[i] == NatToString(ids[i])
  {
    if ids == [] then [] else NumbersText(ids[..|ids| - 1]) + [NatToString(ids[|ids| - 1])]
  }

  lemma {:induction false} DigitTokensOfNumbers(ids: seq<nat>)
    ensures DigitTokens(NumbersText(ids)) == ids
  {
    if ids != [] {
      var init := ids[..|ids| - 1];
      DigitTokensOfNumbers(init);
      ParseNatToString(ids[|ids| - 1]);
      assert NumbersText(ids)[..|ids| - 1] == NumbersText(init);
      assert init + [ids[|ids| - 1]] == ids;
    }
  }

  /** Identifiers written as the operation's `id_set` parameter are read back unchanged, in order. */
  lemma GetIdSetRoundTrip(ids: seq<nat>)
    requires ids != []
    ensures GetIdSet(Join(NumbersText(ids), ',')) == Ids(ids)
  {
    var texts := NumbersText(ids);
    forall i | 0 <= i < |texts| ensures ',' !in texts[i] {
      assert IsDigits(texts[i]);
      assert forall k :: 0 <= k < |texts[i]| ==> texts[i][k] != ',';
    }
    SplitJoin(texts, ',');
    DigitTokensOfNumbers(ids);
  }

  // ---------------------------------------------------------------------------
  // Failed checks

  /** Appends check `c` when it failed: one `content += ...` guarded by its condition. */
  function Also<C(!new)>(s: seq<C>, failed: bool, c: C): (r: seq<C>)
    ensures forall x :: x in r <==> x in s || (failed && x == c)
    ensures |r| == |s| + (if failed then 1 else 0)
  {
    if failed then s + [c] else s
  }

  function TransportIssues(tracker: string, checks: seq<TransportCheck>): (r: seq<Issue>)
    ensures |r| == |checks|
    ensures forall i :: 0 <= i < |r| ==> r[i] == OfTransport(tracker, checks[i])
  {
    if checks == [] then []
    else TransportIssues(tracker, checks[..|checks| - 1]) + [OfTransport(tracker, checks[|checks| - 1])]
  }

  lemma TransportIssuesAbout(tracker: string, checks: seq<TransportCheck>)
    ensures TransportIssues(tracker, checks) == [] <==> checks == []
    ensures forall x :: x in TransportIssues(tracker, checks) ==> x.OfTransport? && x.tracker == tracker
  {
    var r := TransportIssues(tracker, checks);
    forall x | x in r
      ensures x.OfTransport? && x.tracker == tracker
    {
      var i :| 0 <= i < |r| && r[i] == x;
    }
  }

  function RequestIssues(checks: seq<RequestCheck>): (r: seq<Issue>)
    ensures |r| == |checks|
    ensures forall i :: 0 <= i < |r| ==> r[i] == OfRequest(checks[i])
  {
    if checks == [] then [] else RequestIssues(checks[..|checks| - 1]) + [OfRequest(checks[|checks| - 1])]
  }

  function DocumentIssues(doc: Id, checks: seq<DocumentCheck>): (r: seq<Issue>)
    ensures |r| == |checks|
    ensures forall i :: 0 <= i < |r| ==> r[i] == OfDocument(doc, checks[i])
  {
    if checks == [] then [] else DocumentIssues(doc, checks[..|checks| - 1]) + [OfDocument(doc, checks[|checks| - 1])]
  }

  function DriverDocIssues(driver: Id, doc: Id, checks: seq<DriverDocCheck>): (r: seq<Issue>)
    ensures |r| == |checks|
    ensures forall i :: 0 <= i < |r| ==> r[i] == OfDriverDoc(driver, doc, checks[i])
  {
    if checks == [] then []
    else DriverDocIssues(driver, doc, checks[..|checks| - 1]) + [OfDriverDoc(driver, doc, checks[|checks| - 1])]
  }

  // ---------------------------------------------------------------------------
  // validate_transport

  predicate HasContactOfType(p: Participant, contactType: Id) {
    exists i :: 0 <= i < |p.contacts| && p.contacts[i].contactType == Some(contactType)
  }

  /** Everything `validate_transport` asks of a transport's owner. */
  predicate TransportOk(t: Transport, addressType: Id, phoneType: Id) {
    && t.participant.Some?
    && HasContactOfType(t.participant.value, addressType) && HasContactOfType(t.participant.value, phoneType)
    && Filled(t.participant.value.fullName) && Filled(t.participant.value.inn) && Filled(t.participant.value.ogrn)
  }

  /** The checks `validate_transport` fails: without an owner only that one, else each missing owner detail. */
  function TransportChecks(t: Transport, addressType: Id, phoneType: Id): (r: seq<TransportCheck>)
    ensures r == [] <==> TransportOk(t, addressType, phoneType)
  {
    match t.participant
    case None => [ParticipantMissing]
    case Some(p) =>
      var s := Also([], !HasContactOfType(p, addressType), AddressMissing);
      var s := Also(s, !Filled(p.fullName), FullNameMissing);
      var s := Also(s, !Filled(p.inn), InnMissing);
      var s := Also(s, !Filled(p.ogrn), OgrnMissing);
      var r := Also(s, !HasContactOfType(p, phoneType), PhoneMissing);
      assert r != [] ==> r[0] in r;
      r
  }

  /** Whether `validate_transport` reports check `c`. */
  predicate OwnerFails(t: Transport, addressType: Id, phoneType: Id, c: TransportCheck) {
    match c
    case ParticipantMissing => t.participant.None?
    case AddressMissing => t.participant.Some? && !HasContactOfType(t.participant.value, addressType)
    case FullNameMissing => t.participant.Some? && !Filled(t.participant.value.fullName)
    case InnMissing => t.participant.Some? && !Filled(t.participant.value.inn)
    case OgrnMissing => t.participant.Some? && !Filled(t.participant.value.ogrn)
    case PhoneMissing => t.participant.Some? && !HasContactOfType(t.participant.value, phoneType)
    case _ => false
  }

  /** A check is reported exactly when it fails: without an owner only that one, else each missing owner detail. */
  lemma TransportChecksMessages(t: Transport, addressType: Id, phoneType: Id, c: TransportCheck)
    ensures c in TransportChecks(t, addressType, phoneType) <==> OwnerFails(t, addressType, phoneType, c)
  {
  }

  /** `validate_transport`. */
  function ValidateTransport(t: Transport, addressType: Id, phoneType: Id): (messages: seq<Issue>)
    ensures messages == [] <==> TransportOk(t, addressType, phoneType)
    ensures forall x :: x in messages ==> x.OfTransport? && x.tracker == t.trackerId
  {
    TransportIssues(t.trackerId, TransportChecks(t, addressType, phoneType))
  }

  // ---------------------------------------------------------------------------
  // validate_request_data

  /** The `request_data` dictionary built from a pass request. */
  datatype RequestData = RequestData(startDate: Option<Date>, endDate: Option<Date>, zone: Option<Zone>, reason: Option<string>)

  predicate RequestOk(rd: RequestData) {
    rd.startDate.Some? && rd.endDate.Some? && rd.zone.Some? && Filled(rd.reason)
  }

  function RequestChecks(rd: RequestData): (r: seq<RequestCheck>)
    ensures r == [] <==> RequestOk(rd)
  {
    var s := Also([], rd.startDate.None?, StartDateMissing);
    var s := Also(s, rd.endDate.None?, EndDateMissing);
    var s := Also(s, rd.zone.None?, ZoneMissing);
    var r := Also(s, !Filled(rd.reason), ReasonMissing);
    assert r != [] ==> r[0] in r;
    r
  }

  /** Whether `validate_request_data` reports check `c`. */
  predicate RequestFails(rd: RequestData, c: RequestCheck) {
    match c
    case StartDateMissing => rd.startDate.None?
    case EndDateMissing => rd.endDate.None?
    case ZoneMissing => rd.zone.None?
    case ReasonMissing => !Filled(rd.reason)
  }

  /** A request check is reported exactly when its field is empty. */
  lemma RequestChecksMessages(rd: RequestData, c: RequestCheck)
    ensures c in RequestChecks(rd) <==> RequestFails(rd, c)
  {
  }

  /** `validate_request_data`. */
  function ValidateRequestData(rd: RequestData): (messages: seq<Issue>)
    ensures messages == [] <==> RequestOk(rd)
    ensures forall x :: x in messages ==> x.OfRequest?
  {
    RequestIssues(RequestChecks(rd))
  }

  // ---------------------------------------------------------------------------
  // validate_trans_data

  /** The type name of a document, None for an untyped one. */
  function TypeName(t: Option<TypeDocument>): Option<string> {
    if t.Some? then Some(t.value.name) else None
  }

  /** `document_transport.values_list('types_of_document__type_document')`. */
  function DocTypeNames(docs: seq<TransportDocument>): (r: seq<Option<string>>)
    ensures |r| == |docs|
    ensures forall i :: 0 <= i < |docs| ==> r[i] == TypeName(docs[i].docType)
  {
    if docs == [] then [] else DocTypeNames(docs[..|docs| - 1]) + [TypeName(docs[|docs| - 1].docType)]
  }

  /** A required type is present when a document of that type, or of its child type, is attached. */
  predicate Satisfied(rt: TypeDocument, names: seq<Option<string>>) {
    Some(rt.name) in names || (rt.childName.Some? && rt.childName in names)
  }

  /**
    The check as the code writes it: `any(item in doc_list for item in [name, child])`.
    For a type without a child the second item is None, which matches any untyped document.
   */
  predicate SatisfiedAsWritten(rt: TypeDocument, names: seq<Option<string>>) {
    Some(rt.name) in names || rt.childName in names
  }

  /** The required types of the catalog that are not present among the documents. */
  function MissingRequiredTypes(types: seq<TypeDocument>, names: seq<Option<string>>): (r: seq<TypeDocument>)
    ensures forall x :: x in r <==> x in types && x.required && !Satisfied(x, names)
  {
    if types == [] then []
    else
      var rest := MissingRequiredTypes(types[1..], names);
      assert forall x :: x in types <==> x == types[0] || x in types[1..];
      if types[0].required && !Satisfied(types[0], names) then [types[0]] + rest else rest
  }

  function MissingRequiredTypesAsWritten(types: seq<TypeDocument>, names: seq<Option<string>>): (r: seq<TypeDocument>)
    ensures forall x :: x in r <==> x in types && x.required && !SatisfiedAsWritten(x, names)
  {
    if types == [] then []
    else
      var rest := MissingRequiredTypesAsWritten(types[1..], names);
      assert forall x :: x in types <==> x == types[0] || x in types[1..];
      if types[0].required && !SatisfiedAsWritten(types[0], names) then [types[0]] + rest else rest
  }

  /**
    The code accepts a transport without a diagnostic card (a required type with no
    child type) as soon as one of its documents has no type.
   */
  lemma UntypedDocumentSatisfiesChildlessType()
    ensures var card := TypeDocument(1, DiagnosticCardName, "10367", true, None);
            var untyped := TransportDocument(7, None, None, None, None, None, None, Some("yes"), 0, None, None, None, false);
            var names := DocTypeNames([untyped]);
            && MissingRequiredTypesAsWritten([card], names) == []
            && MissingRequiredTypes([card], names) == [card]
  {
    var card := TypeDocument(1, DiagnosticCardName, "10367", true, None);
    var untyped := TransportDocument(7, None, None, None, None, None, None, Some("yes"), 0, None, None, None, false);
    var names := DocTypeNames([untyped]);
    assert names == [None];
    assert SatisfiedAsWritten(card, names);
    assert !Satisfied(card, names);
    assert card in MissingRequiredTypes([card], names);
  }

  /** The two readings agree whenever no document is untyped, or every required type has a child type. */
  lemma {:induction false} MissingRequiredTypesAgree(types: seq<TypeDocument>, names: seq<Option<string>>)
    requires None !in names || forall i :: 0 <= i < |types| && types[i].required ==> types[i].childName.Some?
    ensures MissingRequiredTypesAsWritten(types, names) == MissingRequiredTypes(types, names)
  {
    if types != [] {
      assert forall i :: 0 <= i < |types[1..]| ==> types[1..][i] == types[i + 1];
      MissingRequiredTypesAgree(types[1..], names);
    }
  }

  predicate HasBrand(docs: seq<TransportDocument>) { exists i :: 0 <= i < |docs| && docs[i].brandPts.Some? }
  predicate HasModel(docs: seq<TransportDocument>) { exists i :: 0 <= i < |docs| && docs[i].model.Some? }
  predicate HasEcoclass(docs: seq<TransportDocument>) { exists i :: 0 <= i < |docs| && docs[i].ecoclass.Some? }

  /** Some required type is neither attached nor represented by its child type. */
  predicate LacksRequiredType(t: Transport, types: seq<TypeDocument>) {
    MissingRequiredTypes(types, DocTypeNames(t.documents)) != []
  }

  /** Everything `validate_trans_data` asks of a transport. */
  predicate TransDataOk(t: Transport, types: seq<TypeDocument>) {
    && Filled(t.number) && Filled(t.transportClassName)
    && HasBrand(t.documents) && HasModel(t.documents) && HasEcoclass(t.documents)
    && !LacksRequiredType(t, types) && |t.drivers| > 0
  }

  /**
    The checks `validate_trans_data` fails. Brand, model and ecoclass are looked for
    in every document, deleted ones too. The required documents are checked in the
    corrected reading (`MissingRequiredTypes`); `MissingRequiredTypesAsWritten` is
    the code's own test.
   */
  function TransDataChecks(t: Transport, types: seq<TypeDocument>): (r: seq<TransportCheck>)
    ensures r == [] <==> TransDataOk(t, types)
  {
    var missing := MissingRequiredTypes(types, DocTypeNames(t.documents));
    assert missing != [] ==> missing[0] in missing;
    var s := Also([], !Filled(t.number), NumberMissing);
    var s := Also(s, !Filled(t.transportClassName), ClassMissing);
    var s := Also(s, !HasBrand(t.documents), BrandMissing);
    var s := Also(s, !HasModel(t.documents), ModelMissing);
    var s := Also(s, !HasEcoclass(t.documents), EcoclassMissing);
    var s := Also(s, missing != [], RequiredDocsMissing);
    var r := Also(s, |t.drivers| < 1, DriverMissing);
    assert r != [] ==> r[0] in r;
    r
  }

  /** Whether `validate_trans_data` reports check `c`. */
  predicate TransDataFails(t: Transport, types: seq<TypeDocument>, c: TransportCheck) {
    match c
    case NumberMissing => !Filled(t.number)
    case ClassMissing => !Filled(t.transportClassName)
    case BrandMissing => !HasBrand(t.documents)
    case ModelMissing => !HasModel(t.documents)
    case EcoclassMissing => !HasEcoclass(t.documents)
    case RequiredDocsMissing => LacksRequiredType(t, types)
    case DriverMissing => |t.drivers| == 0
    case _ => false
  }

  /** A transport-data check is reported exactly when its requirement is not met. */
  lemma TransDataChecksMessages(t: Transport, types: seq<TypeDocument>, c: TransportCheck)
    ensures c in TransDataChecks(t, types) <==> TransDataFails(t, types, c)
  {
    hide HasBrand, HasModel, HasEcoclass, MissingRequiredTypes, DocTypeNames, Filled;
  }

  /** `validate_trans_data`. */
  function ValidateTransData(t: Transport, types: seq<TypeDocument>): (messages: seq<Issue>)
    ensures messages == [] <==> TransDataOk(t, types)
    ensures forall x :: x in messages ==> x.OfTransport? && x.tracker == t.trackerId
  {
    var checks := TransDataChecks(t, types);
    TransportIssuesAbout(t.trackerId, checks);
    TransportIssues(t.trackerId, checks)
  }

  // ---------------------------------------------------------------------------
  // validate_documents

  /** Kept by `exclude(Q(is_main=None) | Q(types_of_document__type_document='Диагностическая карта') | Q(deleted=True))`. */
  predicate ToValidate(d: TransportDocument) {
    && d.isMain.Some?
    && TypeName(d.docType) != Some(DiagnosticCardName)
    && !d.deleted
  }

  function DocumentsToValidate(docs: seq<TransportDocument>): (r: seq<TransportDocument>)
    ensures |r| <= |docs|
    ensures forall x :: x in r <==> x in docs && ToValidate(x)
  {
    if docs == [] then []
    else
      var d := docs[|docs| - 1];
      var init := docs[..|docs| - 1];
      assert forall x :: x in docs <==> x in init || x == d;
      DocumentsToValidate(init) + (if ToValidate(d) then [d] else [])
  }

  predicate DocumentComplete(d: TransportDocument, signed: StatusId) {
    d.docType.Some? && d.docId.Some? && d.status == signed
  }

  /** The checks one transport document fails. */
  function DocumentChecks(d: TransportDocument, signed: StatusId): (r: seq<DocumentCheck>)
    ensures r == [] <==> DocumentComplete(d, signed)
  {
    var s := Also([], d.docType.None?, DocTypeMissing);
    var s := Also(s, d.docId.None?, ChedIdMissing);
    Also(s, d.status != signed, SignatureMissing)
  }

  /** Whether `validate_documents` reports check `c` for a document. */
  predicate DocumentFails(d: TransportDocument, signed: StatusId, c: DocumentCheck) {
    match c
    case DocTypeMissing => d.docType.None?
    case ChedIdMissing => d.docId.None?
    case SignatureMissing => d.status != signed
  }

  /** A document check is reported exactly when its field is missing. */
  lemma DocumentChecksMessages(d: TransportDocument, signed: StatusId, c: DocumentCheck)
    ensures c in DocumentChecks(d, signed) <==> DocumentFails(d, signed, c)
  {
  }

  function DocumentsIssues(docs: seq<TransportDocument>, signed: StatusId): seq<Issue> {
    if docs == [] then []
    else DocumentsIssues(docs[..|docs| - 1], signed) + DocumentIssues(docs[|docs| - 1].id, DocumentChecks(docs[|docs| - 1], signed))
  }

  /** No document message exactly when every document is typed, sent to CHED and signed. */
  lemma {:induction false} DocumentsIssuesEmpty(docs: seq<TransportDocument>, signed: StatusId)
    ensures DocumentsIssues(docs, signed) == [] <==> forall d :: d in docs ==> DocumentComplete(d, signed)
  {
    if docs != [] {
      var init := docs[..|docs| - 1];
      DocumentsIssuesEmpty(init, signed);
      assert forall d :: d in docs <==> d in init || d == docs[|docs| - 1];
    }
  }

  /**
    `validate_documents`. The failed checks of each document are collected in the
    order the code tests them, and their messages appended.
   */
  method ValidateDocuments(documents: seq<TransportDocument>, signed: StatusId) returns (messages: seq<Issue>)
    ensures messages == DocumentsIssues(documents, signed)
  {
    messages := [];
    for k := 0 to |documents|
      invariant messages == DocumentsIssues(documents[..k], signed)
    {
      var document := documents[k];
      var failed := DocumentChecks(document, signed);
      messages := messages + DocumentIssues(document.id, failed);
      assert documents[..k + 1][..k] == documents[..k];
    }
    assert documents[..|documents|] == documents;
  }

  // ---------------------------------------------------------------------------
  // get_driver_category_error

  /** The licence categories accepted by the permit service. */
  const AllowedLicence: seq<string> := ["B", "C", "C1", "C2", "C3"]

  /** `[val for val in tokens if val.strip() in allowed_licence]`: the tokens are kept as written. */
  function KeepAllowed(tokens: seq<string>): (r: seq<string>)
    ensures |r| <= |tokens|
    ensures forall v :: v in r <==> v in tokens && Strip(v) in AllowedLicence
  {
    if tokens == [] then []
    else
      var init := tokens[..|tokens| - 1];
      var last := tokens[|tokens| - 1];
      assert forall v :: v in tokens <==> v in init || v == last;
      KeepAllowed(init) + (if Strip(last) in AllowedLicence then [last] else [])
  }

  /** The categories of a licence's `category` text that the permit service accepts. */
  function AllowedCategories(category: string): seq<string> {
    KeepAllowed(Split(category, ','))
  }

  /** The document is of the licence type; with no licence type in the catalog, an untyped document is. */
  predicate IsLicence(d: DriverDocument, licenceType: Option<Id>) {
    TypeIdOf(d.docType) == licenceType
  }

  /** A licence's category text names at least one accepted category. */
  predicate HasAllowedCategory(category: string) {
    exists v :: v in Split(category, ',') && Strip(v) in AllowedLicence
  }

  /** `get_driver_category_error`: which category message, if any, a main document gets. */
  function CategoryError(d: DriverDocument, licenceType: Option<Id>): (r: Option<DriverDocCheck>)
    ensures r == Some(NoAllowedCategory) <==>
              IsLicence(d, licenceType) && Filled(d.category) && !HasAllowedCategory(d.category.value)
    ensures r == Some(CategoryMissing) <==> !Filled(d.category)
    ensures !IsLicence(d, licenceType) && Filled(d.category) ==> r.None?
    ensures r.Some? ==> r.value == NoAllowedCategory || r.value == CategoryMissing
  {
    if IsLicence(d, licenceType) && Filled(d.category) then
      var allowed := AllowedCategories(d.category.value);
      assert allowed != [] ==> allowed[0] in allowed;
      if allowed == [] then Some(NoAllowedCategory) else None
    else if Filled(d.category) then None
    else Some(CategoryMissing)
  }

  // ---------------------------------------------------------------------------
  // validate_driver_license, validate_other_documents, validate_drivers

  /** `document_driver.filter(is_main='yes').exclude(deleted=True)`. */
  function MainDocuments(docs: seq<DriverDocument>): (r: seq<DriverDocument>)
  {
    if docs == [] then []
    else
      var d := docs[|docs| - 1];
      var init := docs[..|docs| - 1];
      MainDocuments(init) + (if d.isMain == Some("yes") && !d.deleted then [d] else [])
  }

  /** `document_driver.filter(is_main='no').exclude(deleted=True)`. */
  function OtherDocuments(docs: seq<DriverDocument>): (r: seq<DriverDocument>)
  {
    if docs == [] then []
    else
      var d := docs[|docs| - 1];
      var init := docs[..|docs| - 1];
      OtherDocuments(init) + (if d.isMain == Some("no") && !d.deleted then [d] else [])
  }

  /** The two filters keep, in order, the live documents marked 'yes' and 'no' respectively. */
  lemma {:induction false} DriverDocumentFilters(docs: seq<DriverDocument>)
    ensures forall x :: x in MainDocuments(docs) <==> x in docs && x.isMain == Some("yes") && !x.deleted
    ensures forall x :: x in OtherDocuments(docs) <==> x in docs && x.isMain == Some("no") && !x.deleted
  {
    if docs != [] {
      var init := docs[..|docs| - 1];
      DriverDocumentFilters(init);
      assert forall x :: x in docs <==> x in init || x == docs[|docs| - 1];
    }
  }

  /** A main document passes every licence check. */
  predicate LicenceComplete(d: DriverDocument, signed: StatusId, licenceType: Option<Id>) {
    && Filled(d.category)
    && (IsLicence(d, licenceType) ==> HasAllowedCategory(d.category.value))
    && Filled(d.series) && Filled(d.number) && d.docType.Some? && d.date.Some? && d.docId.Some?
    && d.status == signed
  }

  /** The checks one main (licence) document fails, in the order they run. */
  function LicenceChecks(d: DriverDocument, signed: StatusId, licenceType: Option<Id>): seq<DriverDocCheck> {
    var category := CategoryError(d, licenceType);
    var s := if category.Some? then [category.value] else [];
    var s := Also(s, !Filled(d.series), SeriesMissing);
    var s := Also(s, !Filled(d.number), LicenceNumberMissing);
    var s := Also(s, d.docType.None?, DriverDocTypeMissing);
    var s := Also(s, d.date.None?, IssueDateMissing);
    var s := Also(s, d.docId.None?, LicenceNotSent);
    Also(s, d.status != signed, DriverDocNotSigned)
  }

  /** A main document gets no message exactly when it passes every licence check. */
  lemma LicenceChecksEmpty(d: DriverDocument, signed: StatusId, licenceType: Option<Id>)
    ensures LicenceChecks(d, signed, licenceType) == [] <==> LicenceComplete(d, signed, licenceType)
  {
    var r := LicenceChecks(d, signed, licenceType);
    assert r != [] ==> r[0] in r;
  }

  /** Whether `validate_driver_license` reports check `c` for a main document. */
  predicate LicenceFails(d: DriverDocument, signed: StatusId, licenceType: Option<Id>, c: DriverDocCheck) {
    match c
    case NoAllowedCategory => IsLicence(d, licenceType) && Filled(d.category) && !HasAllowedCategory(d.category.value)
    case CategoryMissing => !Filled(d.category)
    case SeriesMissing => !Filled(d.series)
    case LicenceNumberMissing => !Filled(d.number)
    case DriverDocTypeMissing => d.docType.None?
    case IssueDateMissing => d.date.None?
    case LicenceNotSent => d.docId.None?
    case DriverDocNotSigned => d.status != signed
    case OtherNotSent => false
  }

  /** A licence check is reported exactly when its requirement is not met. */
  lemma LicenceChecksMessages(d: DriverDocument, signed: StatusId, licenceType: Option<Id>, c: DriverDocCheck)
    ensures c in LicenceChecks(d, signed, licenceType) <==> LicenceFails(d, signed, licenceType, c)
  {
    var category := CategoryError(d, licenceType);
    assert c in (if category.Some? then [category.value] else []) <==> category == Some(c);
  }

  predicate OtherComplete(d: DriverDocument, signed: StatusId) {
    d.docType.Some? && d.docId.Some? && d.status == signed
  }

  /** The checks one non-main document fails, in the order they run. */
  function OtherChecks(d: DriverDocument, signed: StatusId): (r: seq<DriverDocCheck>)
    ensures r == [] <==> OtherComplete(d, signed)
  {
    var s := Also([], d.docType.None?, DriverDocTypeMissing);
    var s := Also(s, d.docId.None?, OtherNotSent);
    Also(s, d.status != signed, DriverDocNotSigned)
  }

  /** Whether `validate_other_documents` reports check `c` for a non-main document. */
  predicate OtherFails(d: DriverDocument, signed: StatusId, c: DriverDocCheck) {
    match c
    case DriverDocTypeMissing => d.docType.None?
    case OtherNotSent => d.docId.None?
    case DriverDocNotSigned => d.status != signed
    case _ => false
  }

  /** A check on a non-main document is reported exactly when its field is missing. */
  lemma OtherChecksMessages(d: DriverDocument, signed: StatusId, c: DriverDocCheck)
    ensures c in OtherChecks(d, signed) <==> OtherFails(d, signed, c)
  {
  }

  /** The messages of a driver's main documents, document after document. */
  function LicenceIssues(driverId: Id, docs: seq<DriverDocument>, signed: StatusId, licenceType: Option<Id>): seq<Issue> {
    if docs == [] then []
    else
      LicenceIssues(driverId, docs[..|docs| - 1], signed, licenceType)
      + DriverDocIssues(driverId, docs[|docs| - 1].id, LicenceChecks(docs[|docs| - 1], signed, licenceType))
  }

  /** The messages of a driver's non-main documents, document after document. */
  function OtherIssues(driverId: Id, docs: seq<DriverDocument>, signed: StatusId): seq<Issue> {
    if docs == [] then []
    else OtherIssues(driverId, docs[..|docs| - 1], signed) + DriverDocIssues(driverId, docs[|docs| - 1].id, OtherChecks(docs[|docs| - 1], signed))
  }

  /** Every licence message is about a document of this driver; there is none exactly when every main document is complete. */
  lemma {:induction false} LicenceIssuesFacts(driverId: Id, docs: seq<DriverDocument>, signed: StatusId, licenceType: Option<Id>)
    ensures forall x :: x in LicenceIssues(driverId, docs, signed, licenceType) ==> x.OfDriverDoc? && x.driver == driverId
    ensures LicenceIssues(driverId, docs, signed, licenceType) == [] <==> forall d :: d in docs ==> LicenceComplete(d, signed, licenceType)
  {
    if docs != [] {
      var init := docs[..|docs| - 1];
      LicenceIssuesFacts(driverId, init, signed, licenceType);
      LicenceChecksEmpty(docs[|docs| - 1], signed, licenceType);
      assert forall d :: d in docs <==> d in init || d == docs[|docs| - 1];
    }
  }

  /** Every message on non-main documents is about a document of this driver; there is none exactly when each is complete. */
  lemma {:induction false} OtherIssuesFacts(driverId: Id, docs: seq<DriverDocument>, signed: StatusId)
    ensures forall x :: x in OtherIssues(driverId, docs, signed) ==> x.OfDriverDoc? && x.driver == driverId
    ensures OtherIssues(driverId, docs, signed) == [] <==> forall d :: d in docs ==> OtherComplete(d, signed)
  {
    if docs != [] {
      var init := docs[..|docs| - 1];
      OtherIssuesFacts(driverId, init, signed);
      assert forall d :: d in docs <==> d in init || d == docs[|docs| - 1];
    }
  }

  lemma LicenceIssuesStep(driverId: Id, docs: seq<DriverDocument>, k: nat, signed: StatusId, licenceType: Option<Id>)
    requires k < |docs|
    ensures LicenceIssues(driverId, docs[..k + 1], signed, licenceType)
              == LicenceIssues(driverId, docs[..k], signed, licenceType)
                 + DriverDocIssues(driverId, docs[k].id, LicenceChecks(docs[k], signed, licenceType))
  {
    assert docs[..k + 1][..k] == docs[..k];
  }

  lemma OtherIssuesStep(driverId: Id, docs: seq<DriverDocument>, k: nat, signed: StatusId)
    requires k < |docs|
    ensures OtherIssues(driverId, docs[..k + 1], signed)
              == OtherIssues(driverId, docs[..k], signed) + DriverDocIssues(driverId, docs[k].id, OtherChecks(docs[k], signed))
  {
    assert docs[..k + 1][..k] == docs[..k];
  }

  /**
    `validate_driver_license`. Each main document's failed checks are collected in
    the order the code tests them, and their messages appended.
   */
  method ValidateDriverLicense(driver: Driver, signed: StatusId, licenceType: Option<Id>) returns (messages: seq<Issue>)
    ensures messages == LicenceIssues(driver.id, MainDocuments(driver.documents), signed, licenceType)
  {
    var documents := MainDocuments(driver.documents);
    messages := [];
    for k := 0 to |documents|
      invariant messages == LicenceIssues(driver.id, documents[..k], signed, licenceType)
    {
      var document := documents[k];
      var failed := LicenceChecks(document, signed, licenceType);
      LicenceIssuesStep(driver.id, documents, k, signed, licenceType);
      messages := messages + DriverDocIssues(driver.id, document.id, failed);
    }
    assert documents[..|documents|] == documents;
  }

  /** `validate_other_documents`, collecting each non-main document's failed checks likewise. */
  method ValidateOtherDocuments(driver: Driver, signed: StatusId) returns (messages: seq<Issue>)
    ensures messages == OtherIssues(driver.id, OtherDocuments(driver.documents), signed)
  {
    var documents := OtherDocuments(driver.documents);
    messages := [];
    for k := 0 to |documents|
      invariant messages == OtherIssues(driver.id, documents[..k], signed)
    {
      var document := documents[k];
      var failed := OtherChecks(document, signed);
      OtherIssuesStep(driver.id, documents, k, signed);
      messages := messages + DriverDocIssues(driver.id, document.id, failed);
    }
    assert documents[..|documents|] == documents;
  }

  /**
    The messages for one driver: the name check; then either "no licence document"
    or the licence checks; then the checks of the non-main documents.
   */
  function DriverIssues(d: Driver, signed: StatusId, licenceType: Option<Id>): seq<Issue> {
    NameIssues(d) + LicencePart(d, signed, licenceType) + OtherIssues(d.id, OtherDocuments(d.documents), signed)
  }

  /** The name check of a driver. */
  function NameIssues(d: Driver): seq<Issue> {
    if !Filled(d.name) then [OfDriver(d.id, NameMissing)] else []
  }

  /** "No licence document", or the messages of the licence documents. */
  function LicencePart(d: Driver, signed: StatusId, licenceType: Option<Id>): seq<Issue> {
    if MainDocuments(d.documents) == [] then [OfDriver(d.id, LicenceMissing)]
    else LicenceIssues(d.id, MainDocuments(d.documents), signed, licenceType)
  }

  /** The name message is there exactly when the driver has no name. */
  lemma DriverNameMessage(d: Driver, signed: StatusId, licenceType: Option<Id>)
    ensures OfDriver(d.id, NameMissing) in DriverIssues(d, signed, licenceType) <==> !Filled(d.name)
  {
    OtherIssuesFacts(d.id, OtherDocuments(d.documents), signed);
    LicenceIssuesFacts(d.id, MainDocuments(d.documents), signed, licenceType);
  }

  /** The "no licence document" message is there exactly when the driver has no main document. */
  lemma DriverLicenceMessage(d: Driver, signed: StatusId, licenceType: Option<Id>)
    ensures OfDriver(d.id, LicenceMissing) in DriverIssues(d, signed, licenceType) <==> MainDocuments(d.documents) == []
  {
    var licence := LicencePart(d, signed, licenceType);
    OtherIssuesFacts(d.id, OtherDocuments(d.documents), signed);
    LicenceIssuesFacts(d.id, MainDocuments(d.documents), signed, licenceType);
    if MainDocuments(d.documents) == [] {
      assert licence == [OfDriver(d.id, LicenceMissing)];
    } else {
      assert OfDriver(d.id, LicenceMissing) !in licence;
    }
  }

  /**
    For a driver without a main (licence) document no licence check runs: every
    document message then comes from the non-main documents.
   */
  lemma DriverWithoutLicence(d: Driver, signed: StatusId, licenceType: Option<Id>)
    requires MainDocuments(d.documents) == []
    ensures forall x :: x in DriverIssues(d, signed, licenceType) && x.OfDriverDoc? ==>
              x in OtherIssues(d.id, OtherDocuments(d.documents), signed)
  {
    var name := NameIssues(d);
    var licence := LicencePart(d, signed, licenceType);
    var other := OtherIssues(d.id, OtherDocuments(d.documents), signed);
    assert DriverIssues(d, signed, licenceType) == name + licence + other;
    assert forall x: Issue :: x in name + licence ==> x.OfDriver?;
  }

  /** The messages of the non-main documents close every driver's messages, whatever the rest. */
  lemma DriverOtherDocumentsLast(d: Driver, signed: StatusId, licenceType: Option<Id>)
    ensures var r := DriverIssues(d, signed, licenceType);
            var other := OtherIssues(d.id, OtherDocuments(d.documents), signed);
            |other| <= |r| && r[|r| - |other|..] == other
  {
    var other := OtherIssues(d.id, OtherDocuments(d.documents), signed);
    var head := NameIssues(d) + LicencePart(d, signed, licenceType);
    assert DriverIssues(d, signed, licenceType) == head + other;
    assert (head + other)[|head|..] == other;
  }

  /** A driver passes when named, with at least one main document, and all its documents complete. */
  predicate DriverComplete(d: Driver, signed: StatusId, licenceType: Option<Id>) {
    && Filled(d.name)
    && MainDocuments(d.documents) != []
    && (forall x :: x in MainDocuments(d.documents) ==> LicenceComplete(x, signed, licenceType))
    && (forall x :: x in OtherDocuments(d.documents) ==> OtherComplete(x, signed))
  }

  lemma DriverIssuesEmpty(d: Driver, signed: StatusId, licenceType: Option<Id>)
    ensures DriverIssues(d, signed, licenceType) == [] <==> DriverComplete(d, signed, licenceType)
  {
    OtherIssuesFacts(d.id, OtherDocuments(d.documents), signed);
    LicenceIssuesFacts(d.id, MainDocuments(d.documents), signed, licenceType);
  }

  function DriversIssues(drivers: seq<Driver>, signed: StatusId, licenceType: Option<Id>): seq<Issue> {
    if drivers == [] then []
    else DriversIssues(drivers[..|drivers| - 1], signed, licenceType) + DriverIssues(drivers[|drivers| - 1], signed, licenceType)
  }

  /** No driver message exactly when every driver passes. */
  lemma {:induction false} DriversIssuesEmpty(drivers: seq<Driver>, signed: StatusId, licenceType: Option<Id>)
    ensures DriversIssues(drivers, signed, licenceType) == [] <==>
              forall d :: d in drivers ==> DriverComplete(d, signed, licenceType)
  {
    if drivers != [] {
      var init := drivers[..|drivers| - 1];
      var last := drivers[|drivers| - 1];
      DriversIssuesEmpty(init, signed, licenceType);
      DriverIssuesEmpty(last, signed, licenceType);
      assert forall d :: d in drivers <==> d in init || d == last;
    }
  }

  /** `validate_drivers`. */
  method ValidateDrivers(drivers: seq<Driver>, signed: StatusId, licenceType: Option<Id>) returns (messages: seq<Issue>)
    ensures messages == DriversIssues(drivers, signed, licenceType)
  {
    messages := [];
    for k := 0 to |drivers|
      invariant messages == DriversIssues(drivers[..k], signed, licenceType)
    {
      var driver := drivers[k];
      var own: seq<Issue> := [];
      if !Filled(driver.name) {
        own := own + [OfDriver(driver.id, NameMissing)];
      }
      assert own == NameIssues(driver);
      if MainDocuments(driver.documents) == [] {
        own := own + [OfDriver(driver.id, LicenceMissing)];
      } else {
        var licence := ValidateDriverLicense(driver, signed, licenceType);
        own := own + licence;
      }
      assert own == NameIssues(driver) + LicencePart(driver, signed, licenceType);
      var other := ValidateOtherDocuments(driver, signed);
      own := own + other;
      messages := messages + own;
      assert drivers[..k + 1][..k] == drivers[..k];
    }
    assert drivers[..|drivers|] == drivers;
  }

  // ---------------------------------------------------------------------------
  // validate_all_data

  /** Every message for one pass request, in the order `validate_all_data` collects them. */
  function AllIssues(t: Transport, rd: RequestData, cat: Catalog): seq<Issue> {
    ValidateTransport(t, cat.addressType, cat.phoneType)
    + ValidateRequestData(rd)
    + ValidateTransData(t, cat.types)
    + DocumentsIssues(DocumentsToValidate(t.documents), cat.signed)
    + DriversIssues(t.drivers, cat.signed, LicenceTypeId(cat.types))
  }

  /** What it takes for a transport and its request to pass the whole checklist. */
  predicate Passes(t: Transport, rd: RequestData, cat: Catalog) {
    && TransportOk(t, cat.addressType, cat.phoneType)
    && RequestOk(rd)
    && TransDataOk(t, cat.types)
    && (forall d :: d in DocumentsToValidate(t.documents) ==> DocumentComplete(d, cat.signed))
    && (forall d :: d in t.drivers ==> DriverComplete(d, cat.signed, LicenceTypeId(cat.types)))
  }

  /** A pass request gets no message exactly when it meets every requirement of the checklist. */
  lemma AllIssuesEmpty(t: Transport, rd: RequestData, cat: Catalog)
    ensures AllIssues(t, rd, cat) == [] <==> Passes(t, rd, cat)
  {
    DocumentsIssuesEmpty(DocumentsToValidate(t.documents), cat.signed);
    DriversIssuesEmpty(t.drivers, cat.signed, LicenceTypeId(cat.types));
  }

  /** `validate_all_data`: the whole checklist for one pass request, as text. */
  method ValidateAllData(t: Transport, cat: Catalog, rd: RequestData) returns (content: string)
    ensures content == Render(AllIssues(t, rd, cat))
    ensures content == "" <==> Passes(t, rd, cat)
  {
    var messages := ValidateTransport(t, cat.addressType, cat.phoneType);
    messages := messages + ValidateRequestData(rd);
    messages := messages + ValidateTransData(t, cat.types);
    var documents := ValidateDocuments(DocumentsToValidate(t.documents), cat.signed);
    messages := messages + documents;
    var drivers := ValidateDrivers(t.drivers, cat.signed, LicenceTypeId(cat.types));
    messages := messages + drivers;
    assert messages == AllIssues(t, rd, cat);
    content := Render(messages);
    AllIssuesEmpty(t, rd, cat);
  }
}
