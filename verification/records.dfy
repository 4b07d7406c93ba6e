/**
  The records of the permit ("pass") integration as values: transports with their
  owner (participant), contacts, documents and drivers; the two request tables
  (a mass request, `TransportPassRequest`, and its pass requests, `PassRequests`);
  and the reference rows the checks look up by code.

  Nullable columns are `Option`s. Python's truthiness of a nullable text column
  (`not x` holds for None and for '') is `Filled`.
 */
module Records {

  datatype Option<T> = None | Some(value: T)

  type Id = nat
  /** A UUID in its canonical text form. */
  type Uuid = string
  /** The primary key of a workflow status (`DocStatus`). */
  type StatusId = nat
  /** A calendar day (`DateField`). */
  type Date = int

  /** A `DateTimeField` value: its calendar day and the time within that day. */
  datatype DateTime = DateTime(day: Date, time: nat)

  /** Python truthiness of a nullable text column. */
  predicate Filled(o: Option<string>) {
    o.Some? && o.value != ""
  }

  /** `str(x)` of a nullable text column: None is rendered as the text `None`. */
  function PyStr(o: Option<string>): string {
    if o.Some? then o.value else "None"
  }

  /** `TypeDocument` joined with its `doc_type_enum` (a required foreign key, so its code is always there). */
  datatype TypeDocument = TypeDocument(
    id: Id,
    name: string,               // type_document
    enumCode: string,           // doc_type_enum.code
    required: bool,
    childName: Option<string>)  // child_document.type_document

  /** Name of the driver's licence document type. */
  const LicenceTypeName := "Водительское удостоверение"
  /** Name of the diagnostic card document type. */
  const DiagnosticCardName := "Диагностическая карта"

  datatype Contact = Contact(contactType: Option<Id>, value: Option<string>, isMain: bool)

  datatype Participant = Participant(
    fullName: Option<string>,
    inn: Option<string>,
    ogrn: Option<string>,
    contacts: seq<Contact>)    // owner_contact

  datatype TransportDocument = TransportDocument(
    id: Id,
    docType: Option<TypeDocument>,
    serialNumber: Option<string>,
    number: Option<string>,
    issueDate: Option<Date>,
    dateEnd: Option<Date>,
    docId: Option<Uuid>,       // identifier in the document storage (CHED)
    isMain: Option<string>,    // 'yes' / 'no'
    status: StatusId,
    brandPts: Option<string>,
    model: Option<string>,
    ecoclass: Option<string>,  // ecoclass.code
    deleted: bool)

  datatype DriverDocument = DriverDocument(
    id: Id,
    docType: Option<TypeDocument>,
    category: Option<string>,
    series: Option<string>,
    number: Option<string>,
    date: Option<Date>,
    period: Option<Date>,
    docId: Option<Uuid>,
    isMain: Option<string>,
    status: StatusId,
    deleted: bool)

  datatype Driver = Driver(id: Id, name: Option<string>, documents: seq<DriverDocument>)

  datatype Transport = Transport(
    id: Id,
    trackerId: string,                  // as rendered into messages
    participant: Option<Participant>,
    number: Option<string>,
    transportClassName: Option<string>, // type.transport_class.name, None when any link is missing
    documents: seq<TransportDocument>,  // document_transport
    drivers: seq<Driver>)

  datatype Zone = Zone(id: Id, code: string)

  /** `STATUS_OF_REQUEST`: 'SUCCESS' or 'ERROR'. */
  datatype SendStatus = Success | Error

  /** A row of `PassRequests`. */
  datatype PassRequest = PassRequest(
    id: Id,
    pId: Option<Uuid>,
    transport: Transport,
    massId: Option<Id>,                 // trans_pass_request
    status: StatusId,
    startDate: Option<Date>,
    endDate: Option<Date>,
    zone: Option<Zone>,
    reason: Option<string>,
    passId: Option<Uuid>,
    passSeriesNumber: Option<string>,
    requestStatus: Option<string>,
    passStatus: Option<string>,
    passDateCancellation: Option<DateTime>,
    cancelReason: Option<string>,
    statusDate: Option<DateTime>,
    requestStatusSend: Option<SendStatus>,
    bodyMessage: Option<string>)

  /** A row of `TransportPassRequest`: one message to the permit service. */
  datatype MassRequest = MassRequest(
    id: Id,
    messId: Option<Uuid>,
    messageDate: Option<Date>,
    status: StatusId,
    statusRequest: Option<SendStatus>,
    bodyMessageOvga: Option<string>,
    docId: Option<Uuid>,
    taskId: Option<Uuid>,
    docType: Option<TypeDocument>)

  /**
    Reference rows the operations look up by code: the contact types 'address'
    and 'phone', the statuses 'court_order_archived', 'error_status' and
    'otpravlen-v-ched', and the whole `TypeDocument` table.
   */
  datatype Catalog = Catalog(
    addressType: Id,
    phoneType: Id,
    archived: StatusId,
    failed: StatusId,
    signed: StatusId,
    types: seq<TypeDocument>)

  /** Position of the first licence type in the table, `|types|` when there is none. */
  function FirstLicence(types: seq<TypeDocument>): (k: nat)
    ensures k <= |types|
    ensures forall j :: 0 <= j < k ==> types[j].name != LicenceTypeName
    ensures k < |types| ==> types[k].name == LicenceTypeName
  {
    if types == [] || types[0].name == LicenceTypeName then 0 else 1 + FirstLicence(types[1..])
  }

  /** `TypeDocument.objects.filter(type_document='Водительское удостоверение').first()`, by id. */
  function LicenceTypeId(types: seq<TypeDocument>): (r: Option<Id>)
    ensures r.None? <==> forall i :: 0 <= i < |types| ==> types[i].name != LicenceTypeName
    ensures r.Some? ==> r.value == types[FirstLicence(types)].id
  {
    var k := FirstLicence(types);
    if k < |types| then Some(types[k].id) else None
  }

  /** The id of a document's type, None for an untyped document. */
  function TypeIdOf(t: Option<TypeDocument>): Option<Id> {
    if t.Some? then Some(t.value.id) else None
  }

  /** Saving a pass request gives it a fresh `p_id` when it has none (`PassRequests.save`). */
  function SavePassRequest(p: PassRequest, newId: Uuid): (r: PassRequest)
    ensures r.pId.Some?
    ensures p.pId.Some? ==> r == p
    ensures p.pId.None? ==> r.pId == Some(newId)
    ensures r.(pId := p.pId) == p
  {
    if p.pId.Some? then p else p.(pId := Some(newId))
  }

  /** Saving a mass request gives it a fresh `mess_id` when it has none (`TransportPassRequest.save`). */
  function SaveMassRequest(m: MassRequest, newId: Uuid): (r: MassRequest)
    ensures r.messId.Some?
    ensures m.messId.Some? ==> r == m
    ensures m.messId.None? ==> r.messId == Some(newId)
    ensures r.(messId := m.messId) == m
  {
    if m.messId.Some? then m else m.(messId := Some(newId))
  }

  /** An HTTP response from an external service, as the code reads it: status code and body text. */
  datatype Response = Response(code: int, text: string)
}
