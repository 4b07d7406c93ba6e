/**
  The pieces of one entry of the request sent to the permit service: applicant,
  pass data, truck (with its main documents), drivers and the other documents.

  A builder that the code would crash in (an attribute read on a missing row, a
  date formatted when it is absent) yields `None`. Dates stay `Date` values: their
  text formatting is not part of this model.
 */
module Assembly {
  import opened Text
  import opened Records
  import opened Validation

  // ---------------------------------------------------------------------------
  // split_full_name

  datatype FullName = FullName(last: string, first: string, middle: string)

  /** The `i`-th word, or the empty text when there are not that many. */
  function Part(ws: seq<string>, i: nat): string {
    if i < |ws| then ws[i] else ""
  }

  /** `split_full_name`: surname, first name and patronymic are the first three words of the name. */
  function SplitFullName(fullName: string): (r: FullName)
    ensures r.last == "" <==> |Words(fullName)| == 0
    ensures r.first == "" <==> |Words(fullName)| < 2
    ensures r.middle == "" <==> |Words(fullName)| < 3
  {
    var ws := Words(fullName);
    FullName(Part(ws, 0), Part(ws, 1), Part(ws, 2))
  }

  /**
    A name written as words separated by single spaces splits back into its first
    three words; any further word is dropped.
   */
  lemma SplitFullNameOfWords(ws: seq<string>)
    requires |ws| >= 1
    requires forall i :: 0 <= i < |ws| ==> ws[i] != [] && NoSpace(ws[i])
    ensures SplitFullName(Join(ws, ' ')) == FullName(ws[0], Part(ws, 1), Part(ws, 2))
    ensures |ws| >= 3 ==> SplitFullName(Join(ws, ' ')) == SplitFullName(Join(ws[..3], ' '))
  {
    WordsOfJoin(ws);
    if |ws| >= 3 {
      var head := ws[..3];
      assert forall i :: 0 <= i < |head| ==> head[i] == ws[i];
      WordsOfJoin(head);
    }
  }

  // ---------------------------------------------------------------------------
  // get_post_address_phone_number

  /** A contact of the given type, and a main one when `mainOnly`. */
  predicate Matches(c: Contact, contactType: Id, mainOnly: bool) {
    c.contactType == Some(contactType) && (!mainOnly || c.isMain)
  }

  /** `j` is the position of the first contact that matches. */
  predicate FirstMatchAt(cs: seq<Contact>, contactType: Id, mainOnly: bool, j: int) {
    0 <= j < |cs| && Matches(cs[j], contactType, mainOnly)
    && forall k :: 0 <= k < j ==> !Matches(cs[k], contactType, mainOnly)
  }

  /** `owner_contact.filter(...).first()`: the first contact of the given type, among the main contacts only when `mainOnly`. */
  function FirstContact(cs: seq<Contact>, contactType: Id, mainOnly: bool): (r: Option<Contact>)
    ensures r.None? <==> forall i :: 0 <= i < |cs| ==> !Matches(cs[i], contactType, mainOnly)
    ensures forall j :: FirstMatchAt(cs, contactType, mainOnly, j) ==> r == Some(cs[j])
  {
    if cs == [] then None
    else if Matches(cs[0], contactType, mainOnly) then Some(cs[0])
    else
      assert forall i :: 1 <= i < |cs| ==> cs[i] == cs[1..][i - 1];
      assert forall j :: FirstMatchAt(cs, contactType, mainOnly, j) ==> FirstMatchAt(cs[1..], contactType, mainOnly, j - 1);
      FirstContact(cs[1..], contactType, mainOnly)
  }

  /** The first main contact of a type if there is one, else the first contact of that type. */
  function ContactOf(p: Participant, contactType: Id): (r: Option<Contact>)
    ensures r.Some? <==> HasContactOfType(p, contactType)
    ensures forall j :: FirstMatchAt(p.contacts, contactType, true, j) ==> r == Some(p.contacts[j])
    ensures (forall i :: 0 <= i < |p.contacts| ==> !Matches(p.contacts[i], contactType, true)) ==>
              forall j :: FirstMatchAt(p.contacts, contactType, false, j) ==> r == Some(p.contacts[j])
  {
    var main := FirstContact(p.contacts, contactType, true);
    if main.Some? then main
    else
      var any := FirstContact(p.contacts, contactType, false);
      assert any.None? ==> forall i :: 0 <= i < |p.contacts| ==> p.contacts[i].contactType != Some(contactType);
      any
  }

  // ---------------------------------------------------------------------------
  // get_applicant_pass_data_truck

  datatype Applicant = Applicant(
    fullName: Option<string>,
    inn: Option<string>,
    ogrn: Option<string>,
    postalAddress: Option<string>,
    phoneNumber: Option<string>)

  datatype PassData = PassData(startDate: Date, zone: string, endDate: Date, reason: Option<string>)

  /** One document of the request: type code, number, dates and storage identifier. */
  datatype DocumentEntry = DocumentEntry(
    documentType: string,
    number: string,
    issueDate: Option<Date>,
    validityDate: Option<Date>,
    documentId: string)

  datatype Truck = Truck(
    grz: Option<string>,
    category: string,
    vehicleType: string,
    brand: Option<string>,
    model: Option<string>,
    ecoClass: Option<string>,
    documents: seq<DocumentEntry>)

  /** The applicant block; the code fails without an owner, a postal address or a phone number. */
  function ApplicantOf(t: Transport, cat: Catalog): Option<Applicant> {
    match t.participant
    case None => None
    case Some(p) =>
      var address := ContactOf(p, cat.addressType);
      var phone := ContactOf(p, cat.phoneType);
      if address.None? || phone.None? then None
      else Some(Applicant(p.fullName, p.inn, p.ogrn, address.value.value, phone.value.value))
  }

  /** The pass block; the code fails when a date or the zone is missing. */
  function PassDataOf(p: PassRequest): Option<PassData> {
    if p.startDate.None? || p.zone.None? || p.endDate.None? then None
    else Some(PassData(p.startDate.value, p.zone.value.code, p.endDate.value, p.reason))
  }

  /** The brand of the first document that has one, deleted documents included. */
  function FirstBrand(docs: seq<TransportDocument>): (r: Option<string>)
    ensures r.Some? <==> HasBrand(docs)
    ensures forall j :: 0 <= j < |docs| && docs[j].brandPts.Some? && (forall k :: 0 <= k < j ==> docs[k].brandPts.None?) ==> r == docs[j].brandPts
  {
    if docs == [] then None
    else if docs[0].brandPts.Some? then docs[0].brandPts
    else
      assert forall i :: 1 <= i < |docs| ==> docs[i] == docs[1..][i - 1];
      FirstBrand(docs[1..])
  }

  /** The model of the first document that has one, deleted documents included. */
  function FirstModel(docs: seq<TransportDocument>): (r: Option<string>)
    ensures r.Some? <==> HasModel(docs)
    ensures forall j :: 0 <= j < |docs| && docs[j].model.Some? && (forall k :: 0 <= k < j ==> docs[k].model.None?) ==> r == docs[j].model
  {
    if docs == [] then None
    else if docs[0].model.Some? then docs[0].model
    else
      assert forall i :: 1 <= i < |docs| ==> docs[i] == docs[1..][i - 1];
      FirstModel(docs[1..])
  }

  /** The ecoclass of the first document that has one, deleted documents included. */
  function FirstEcoclass(docs: seq<TransportDocument>): (r: Option<string>)
    ensures r.Some? <==> HasEcoclass(docs)
    ensures forall j :: 0 <= j < |docs| && docs[j].ecoclass.Some? && (forall k :: 0 <= k < j ==> docs[k].ecoclass.None?) ==> r == docs[j].ecoclass
  {
    if docs == [] then None
    else if docs[0].ecoclass.Some? then docs[0].ecoclass
    else
      assert forall i :: 1 <= i < |docs| ==> docs[i] == docs[1..][i - 1];
      FirstEcoclass(docs[1..])
  }

  /** The truck block, before its documents are placed. */
  function TruckOf(t: Transport): Truck {
    Truck(t.number, "GarbageTruck", "GarbageTruck",
          FirstBrand(t.documents), FirstModel(t.documents), FirstEcoclass(t.documents), [])
  }

  // ---------------------------------------------------------------------------
  // get_transport_documents and the placement by is_main

  /** `get_transport_documents`: fails on an untyped document; the number is series, a space, and number. */
  function TransportDocumentEntry(d: TransportDocument): Option<DocumentEntry> {
    if d.docType.None? then None
    else Some(DocumentEntry(d.docType.value.enumCode, PyStr(d.serialNumber) + " " + PyStr(d.number),
                            d.issueDate, d.dateEnd, PyStr(d.docId)))
  }

  /** Not deleted, with the given `is_main` mark. */
  predicate LiveWith(d: TransportDocument, mark: string) {
    !d.deleted && d.isMain == Some(mark)
  }

  /** The entries of the live documents with the given mark, in order; None if one of them is untyped. */
  function MarkedEntries(docs: seq<TransportDocument>, mark: string): (r: Option<seq<DocumentEntry>>)
    ensures r.Some? ==> |r.value| <= |docs|
  {
    if docs == [] then Some([])
    else
      var init := MarkedEntries(docs[..|docs| - 1], mark);
      var d := docs[|docs| - 1];
      if init.None? then None
      else if !LiveWith(d, mark) then init
      else if d.docType.None? then None
      else Some(init.value + [TransportDocumentEntry(d).value])
  }

  /** Every document that is not deleted has a type. */
  predicate LiveTyped(docs: seq<TransportDocument>) {
    forall i :: 0 <= i < |docs| && !docs[i].deleted ==> docs[i].docType.Some?
  }

  /** `truck.documents` and the transport part of `otherDocuments`. */
  datatype Placement = Placement(main: seq<DocumentEntry>, other: seq<DocumentEntry>)

  /**
    The reference placement: the entries of the live 'yes' documents and of the live
    'no' documents. The code builds an entry for every live document, so one untyped
    live document, whatever its mark, fails the whole placement.
   */
  function Placed(docs: seq<TransportDocument>): Option<Placement> {
    if !LiveTyped(docs) then None
    else
      var main := MarkedEntries(docs, "yes");
      var other := MarkedEntries(docs, "no");
      if main.None? || other.None? then None
      else Some(Placement(main.value, other.value))
  }

  /** With every live document typed, each mark's entries exist. */
  lemma {:induction false} MarkedEntriesOfTyped(docs: seq<TransportDocument>, mark: string)
    requires LiveTyped(docs)
    ensures MarkedEntries(docs, mark).Some?
  {
    if docs != [] {
      var init := docs[..|docs| - 1];
      assert forall i :: 0 <= i < |init| ==> init[i] == docs[i];
      MarkedEntriesOfTyped(init, mark);
    }
  }

  /** Placement fails exactly when some live document is untyped. */
  lemma PlacedExactly(docs: seq<TransportDocument>)
    ensures Placed(docs).Some? <==> LiveTyped(docs)
  {
    if LiveTyped(docs) {
      MarkedEntriesOfTyped(docs, "yes");
      MarkedEntriesOfTyped(docs, "no");
    }
  }

  /** An entry is placed under a mark exactly when a live document with that mark produced it. */
  lemma {:induction false} MarkedEntriesFrom(docs: seq<TransportDocument>, mark: string, e: DocumentEntry)
    requires MarkedEntries(docs, mark).Some?
    ensures e in MarkedEntries(docs, mark).value <==>
              exists d :: d in docs && LiveWith(d, mark) && TransportDocumentEntry(d) == Some(e)
  {
    if docs != [] {
      var init := docs[..|docs| - 1];
      var d := docs[|docs| - 1];
      MarkedEntriesFrom(init, mark, e);
      assert forall x :: x in docs <==> x in init || x == d;
    }
  }

  /**
    The placement loop of `send_to_ovga`: each live document's entry is built, then
    appended to `truck.documents` when marked 'yes', to `otherDocuments` when marked
    'no', and to neither otherwise.
   */
  method PlaceDocuments(docs: seq<TransportDocument>) returns (r: Option<Placement>)
    ensures r == Placed(docs)
  {
    var main: seq<DocumentEntry> := [];
    var other: seq<DocumentEntry> := [];
    for k := 0 to |docs|
      invariant LiveTyped(docs[..k])
      invariant MarkedEntries(docs[..k], "yes") == Some(main)
      invariant MarkedEntries(docs[..k], "no") == Some(other)
    {
      var document := docs[k];
      assert docs[..k + 1][..k] == docs[..k];
      if !document.deleted {
        var entry := TransportDocumentEntry(document);
        if entry.None? {
          assert !LiveTyped(docs);
          return None;
        }
        if document.isMain == Some("yes") {
          main := main + [entry.value];
        } else if document.isMain == Some("no") {
          other := other + [entry.value];
        }
      }
    }
    assert docs[..|docs|] == docs;
    return Some(Placement(main, other));
  }

  // ---------------------------------------------------------------------------
  // get_driver_info, get_driver_documents, get_driver_info_documents

  datatype DriverPayload = DriverPayload(
    surname: string,
    firstName: string,
    middleName: string,
    licenseCountry: string,
    license: string,
    licenseCategories: seq<string>,
    documents: seq<DocumentEntry>)

  /** `get_driver_documents`: fails on an untyped document or a missing issue or validity date. */
  function DriverDocumentEntry(d: DriverDocument): Option<DocumentEntry> {
    if d.docType.None? || d.date.None? || d.period.None? then None
    else Some(DocumentEntry(d.docType.value.enumCode, PyStr(d.series) + " " + PyStr(d.number),
                            d.date, d.period, PyStr(d.docId)))
  }

  /**
    `get_driver_info`, built from the driver's last main document. It fails without a
    name, without a main document, or when that document has no category, no type, or
    a missing issue or validity date.
   */
  function DriverInfo(driver: Driver): Option<DriverPayload> {
    var main := MainDocuments(driver.documents);
    if driver.name.None? || main == [] then None
    else
      var vu := main[|main| - 1];
      var name := SplitFullName(driver.name.value);
      if vu.category.None? || vu.docType.None? || vu.date.None? || vu.period.None? then None
      else
        var number := PyStr(vu.series) + PyStr(vu.number);
        Some(DriverPayload(name.last, name.first, name.middle, "0643", number,
                           AllowedCategories(vu.category.value),
                           [DocumentEntry(vu.docType.value.enumCode, number, vu.date, vu.period, PyStr(vu.docId))]))
  }

  /** The entries of a driver's non-main documents, in order; None as soon as one cannot be built. */
  function DriverDocumentEntries(docs: seq<DriverDocument>): (r: Option<seq<DocumentEntry>>)
    ensures r.Some? ==> |r.value| == |docs|
  {
    if docs == [] then Some([])
    else
      var init := DriverDocumentEntries(docs[..|docs| - 1]);
      var e := DriverDocumentEntry(docs[|docs| - 1]);
      if init.None? || e.None? then None else Some(init.value + [e.value])
  }

  /** The drivers block and the driver documents appended to `otherDocuments`. */
  datatype DriversPart = DriversPart(drivers: seq<DriverPayload>, documents: seq<DocumentEntry>)

  function DriversPartOf(drivers: seq<Driver>): Option<DriversPart> {
    if drivers == [] then Some(DriversPart([], []))
    else
      var init := DriversPartOf(drivers[..|drivers| - 1]);
      var d := drivers[|drivers| - 1];
      var info := DriverInfo(d);
      var docs := DriverDocumentEntries(OtherDocuments(d.documents));
      if init.None? || info.None? || docs.None? then None
      else Some(DriversPart(init.value.drivers + [info.value], init.value.documents + docs.value))
  }

  /** The inner loop of `get_driver_info_documents`: one driver's non-main documents. */
  method AppendDriverDocuments(docs: seq<DriverDocument>) returns (r: Option<seq<DocumentEntry>>)
    ensures r == DriverDocumentEntries(docs)
  {
    var entries: seq<DocumentEntry> := [];
    for k := 0 to |docs|
      invariant DriverDocumentEntries(docs[..k]) == Some(entries)
    {
      assert docs[..k + 1][..k] == docs[..k];
      var entry := DriverDocumentEntry(docs[k]);
      if entry.None? {
        assert DriverDocumentEntries(docs[..k + 1]).None?;
        DriverDocumentEntriesFail(docs, k + 1);
        return None;
      }
      entries := entries + [entry.value];
    }
    assert docs[..|docs|] == docs;
    return Some(entries);
  }

  /** A prefix that cannot be built makes the whole sequence fail. */
  lemma {:induction false} DriverDocumentEntriesFail(docs: seq<DriverDocument>, k: nat)
    requires k <= |docs|
    requires DriverDocumentEntries(docs[..k]).None?
    decreases |docs| - k
    ensures DriverDocumentEntries(docs).None?
  {
    if k < |docs| {
      assert docs[..k + 1][..k] == docs[..k];
      DriverDocumentEntriesFail(docs, k + 1);
    } else {
      assert docs[..k] == docs;
    }
  }

  /** A prefix of drivers that cannot be built makes the whole sequence fail. */
  lemma {:induction false} DriversPartFail(drivers: seq<Driver>, k: nat)
    requires k <= |drivers|
    requires DriversPartOf(drivers[..k]).None?
    decreases |drivers| - k
    ensures DriversPartOf(drivers).None?
  {
    if k < |drivers| {
      assert drivers[..k + 1][..k] == drivers[..k];
      DriversPartFail(drivers, k + 1);
    } else {
      assert drivers[..k] == drivers;
    }
  }

  /**
    `get_driver_info_documents`: for each driver, its payload, and its non-main
    documents appended to the other documents.
   */
  method DriverInfoDocuments(drivers: seq<Driver>) returns (r: Option<DriversPart>)
    ensures r == DriversPartOf(drivers)
  {
    var infos: seq<DriverPayload> := [];
    var documents: seq<DocumentEntry> := [];
    for k := 0 to |drivers|
      invariant DriversPartOf(drivers[..k]) == Some(DriversPart(infos, documents))
    {
      var driver := drivers[k];
      assert drivers[..k + 1][..k] == drivers[..k];
      var info := DriverInfo(driver);
      var own := AppendDriverDocuments(OtherDocuments(driver.documents));
      if info.None? || own.None? {
        DriversPartFail(drivers, k + 1);
        return None;
      }
      documents := documents + own.value;
      infos := infos + [info.value];
    }
    assert drivers[..|drivers|] == drivers;
    return Some(DriversPart(infos, documents));
  }

  // ---------------------------------------------------------------------------
  // One entry of the request

  datatype PassEntry = PassEntry(
    requestId: string,
    applicant: Applicant,
    pass: PassData,
    truck: Truck,
    drivers: seq<DriverPayload>,
    otherDocuments: seq<DocumentEntry>)

  /**
    The document of the mass request itself, listed among the other documents: its
    type code, the pass request's identifier as number, the pass dates, and the mass
    request's storage identifier. The code fails when the mass request is untyped.
   */
  function MassDocumentEntry(mass: MassRequest, p: PassRequest, pass: PassData): Option<DocumentEntry> {
    if mass.docType.None? then None
    else Some(DocumentEntry(mass.docType.value.enumCode, PyStr(p.pId), Some(pass.startDate), Some(pass.endDate), PyStr(mass.docId)))
  }

  /**
    The entry `send_to_ovga` builds for a pass request that passed the checklist:
    `otherDocuments` holds the transport's 'no' documents, then the mass request's
    document, then each driver's non-main documents.
   */
  function EntryOf(p: PassRequest, mass: MassRequest, cat: Catalog): Option<PassEntry> {
    var t := p.transport;
    var applicant := ApplicantOf(t, cat);
    var pass := PassDataOf(p);
    var placed := Placed(t.documents);
    if applicant.None? || pass.None? || placed.None? then None
    else
      var massDoc := MassDocumentEntry(mass, p, pass.value);
      var drivers := DriversPartOf(t.drivers);
      if massDoc.None? || drivers.None? then None
      else
        Some(PassEntry(PyStr(p.pId), applicant.value, pass.value,
                       TruckOf(t).(documents := placed.value.main), drivers.value.drivers,
                       placed.value.other + [massDoc.value] + drivers.value.documents))
  }

  /** The body of `send_to_ovga`'s loop for a pass request that passed the checklist. */
  method BuildEntry(p: PassRequest, mass: MassRequest, cat: Catalog) returns (r: Option<PassEntry>)
    ensures r == EntryOf(p, mass, cat)
  {
    var t := p.transport;
    var applicant := ApplicantOf(t, cat);
    var pass := PassDataOf(p);
    if applicant.None? || pass.None? {
      return None;
    }
    var placed := PlaceDocuments(t.documents);
    if placed.None? {
      return None;
    }
    var massDoc := MassDocumentEntry(mass, p, pass.value);
    if massDoc.None? {
      return None;
    }
    var drivers := DriverInfoDocuments(t.drivers);
    if drivers.None? {
      return None;
    }
    var truck := TruckOf(t).(documents := placed.value.main);
    var other := placed.value.other + [massDoc.value] + drivers.value.documents;
    return Some(PassEntry(PyStr(p.pId), applicant.value, pass.value, truck, drivers.value.drivers, other));
  }

  // ---------------------------------------------------------------------------
  // What the checklist leaves to chance

  /** The request data `send_to_ovga` checks a pass request with. */
  function RequestOf(p: PassRequest): RequestData {
    RequestData(p.startDate, p.endDate, p.zone, p.reason)
  }

  /** A driver's data that the checklist does not look at but the entry needs. */
  predicate DriverUnchecked(d: Driver) {
    var main := MainDocuments(d.documents);
    && (main != [] ==> main[|main| - 1].period.Some?)
    && (forall x :: x in OtherDocuments(d.documents) ==> x.date.Some? && x.period.Some?)
  }

  /**
    What an entry needs beyond the checklist: a typed mass request, every live
    transport document typed (the checklist skips unmarked ones and diagnostic
    cards), a validity date on each driver's last main document, and both dates on
    every non-main driver document.
   */
  predicate NoGaps(t: Transport, mass: MassRequest) {
    && mass.docType.Some?
    && LiveTyped(t.documents)
    && (forall d :: d in t.drivers ==> DriverUnchecked(d))
  }

  /** A driver that passes the checklist gets a payload exactly when its data has no gap. */
  lemma DriverBuilds(d: Driver, cat: Catalog)
    requires DriverComplete(d, cat.signed, LicenceTypeId(cat.types))
    ensures DriverInfo(d).Some? && DriverDocumentEntries(OtherDocuments(d.documents)).Some? <==> DriverUnchecked(d)
  {
    var main := MainDocuments(d.documents);
    var other := OtherDocuments(d.documents);
    assert main[|main| - 1] in main;
    DriverDocumentEntriesExactly(other);
  }

  /** The non-main entries exist exactly when every such document is typed and has both dates. */
  lemma {:induction false} DriverDocumentEntriesExactly(docs: seq<DriverDocument>)
    ensures DriverDocumentEntries(docs).Some? <==>
              forall x :: x in docs ==> x.docType.Some? && x.date.Some? && x.period.Some?
  {
    if docs != [] {
      var init := docs[..|docs| - 1];
      DriverDocumentEntriesExactly(init);
      assert forall x :: x in docs <==> x in init || x == docs[|docs| - 1];
    }
  }

  /** The drivers block of drivers that all pass the checklist exists exactly when none has a gap. */
  lemma {:induction false} DriversBuild(drivers: seq<Driver>, cat: Catalog)
    requires forall d :: d in drivers ==> DriverComplete(d, cat.signed, LicenceTypeId(cat.types))
    ensures DriversPartOf(drivers).Some? <==> forall d :: d in drivers ==> DriverUnchecked(d)
  {
    if drivers != [] {
      var init := drivers[..|drivers| - 1];
      var last := drivers[|drivers| - 1];
      assert forall x :: x in drivers <==> x in init || x == last;
      DriversBuild(init, cat);
      DriverBuilds(last, cat);
      var other := OtherDocuments(last.documents);
      DriverDocumentEntriesExactly(other);
      if (forall d :: d in drivers ==> DriverUnchecked(d)) {
        assert DriverUnchecked(last);
        assert DriverInfo(last).Some?;
      }
    }
  }

  /**
    For a pass request that passes the checklist, `send_to_ovga` builds its entry
    exactly when none of the data the checklist does not look at is missing.
   */
  lemma EntryAfterChecklist(p: PassRequest, mass: MassRequest, cat: Catalog)
    requires Passes(p.transport, RequestOf(p), cat)
    ensures EntryOf(p, mass, cat).Some? <==> NoGaps(p.transport, mass)
  {
    var t := p.transport;
    PlacedExactly(t.documents);
    DriversBuild(t.drivers, cat);
    assert ApplicantOf(t, cat).Some?;
    assert PassDataOf(p).Some?;
  }
}
