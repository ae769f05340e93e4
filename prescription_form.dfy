/** The prescription form: edits to the record and its medicines list, the
    check that name and phone are filled in, and the actions that store the
    record or export it. */
module PrescriptionForm {
  import opened Records
  import opened PdfGenerator

  // ---------------------------------------------------------------------
  // Editing the record
  // ---------------------------------------------------------------------

  /** The text fields of the record that `handleInputChange` is called with. */
  datatype Field = PatientName | Age | Gender | ContactPhone | Email | Symptoms | AdditionalNotes

  function Get(d: Prescription, f: Field): string {
    match f
    case PatientName => d.patientName
    case Age => d.age
    case Gender => d.gender
    case ContactPhone => d.contactPhone
    case Email => d.email
    case Symptoms => d.symptoms
    case AdditionalNotes => d.additionalNotes
  }

  /** `{ ...data, [field]: value }`: the one field takes the new value and
      nothing else changes. */
  function SetField(d: Prescription, f: Field, v: string): (r: Prescription)
    ensures Get(r, f) == v
    ensures forall g :: g != f ==> Get(r, g) == Get(d, g)
    ensures r.medicines == d.medicines
  {
    match f
    case PatientName => d.(patientName := v)
    case Age => d.(age := v)
    case Gender => d.(gender := v)
    case ContactPhone => d.(contactPhone := v)
    case Email => d.(email := v)
    case Symptoms => d.(symptoms := v)
    case AdditionalNotes => d.(additionalNotes := v)
  }

  /** Two records that agree on every text field and on the medicines are equal. */
  lemma SameFields(a: Prescription, b: Prescription)
    requires forall f :: Get(a, f) == Get(b, f)
    requires a.medicines == b.medicines
    ensures a == b
  {
    assert Get(a, PatientName) == Get(b, PatientName);
    assert Get(a, Age) == Get(b, Age);
    assert Get(a, Gender) == Get(b, Gender);
    assert Get(a, ContactPhone) == Get(b, ContactPhone);
    assert Get(a, Email) == Get(b, Email);
    assert Get(a, Symptoms) == Get(b, Symptoms);
    assert Get(a, AdditionalNotes) == Get(b, AdditionalNotes);
  }

  /** Typing the old value back into a field restores the record. */
  lemma SetFieldUndo(d: Prescription, f: Field, v: string)
    ensures SetField(SetField(d, f, v), f, Get(d, f)) == d
  {
    var r := SetField(SetField(d, f, v), f, Get(d, f));
    forall g ensures Get(r, g) == Get(d, g) {
    }
    SameFields(r, d);
  }

  /** The fields of one medicine line. */
  datatype MedicineField = Name | Dosage | Frequency | Duration

  function GetMedicine(m: Medicine, f: MedicineField): string {
    match f
    case Name => m.name
    case Dosage => m.dosage
    case Frequency => m.frequency
    case Duration => m.duration
  }

  function SetMedicine(m: Medicine, f: MedicineField, v: string): (r: Medicine)
    ensures GetMedicine(r, f) == v
    ensures forall g :: g != f ==> GetMedicine(r, g) == GetMedicine(m, g)
  {
    match f
    case Name => m.(name := v)
    case Dosage => m.(dosage := v)
    case Frequency => m.(frequency := v)
    case Duration => m.(duration := v)
  }

  /** `handleMedicineChange`: field f of entry i takes value v; an index
      outside the list changes nothing. */
  function UpdateMedicine(meds: seq<Medicine>, i: int, f: MedicineField, v: string): (r: seq<Medicine>)
    ensures |r| == |meds|
    ensures forall j :: 0 <= j < |meds| && j != i ==> r[j] == meds[j]
    ensures 0 <= i < |meds| ==> GetMedicine(r[i], f) == v
    ensures 0 <= i < |meds| ==> forall g :: g != f ==> GetMedicine(r[i], g) == GetMedicine(meds[i], g)
    ensures !(0 <= i < |meds|) ==> r == meds
  {
    if 0 <= i < |meds| then meds[i := SetMedicine(meds[i], f, v)] else meds
  }

  lemma SameMedicine(a: Medicine, b: Medicine)
    requires forall f :: GetMedicine(a, f) == GetMedicine(b, f)
    ensures a == b
  {
    assert GetMedicine(a, Name) == GetMedicine(b, Name);
    assert GetMedicine(a, Dosage) == GetMedicine(b, Dosage);
    assert GetMedicine(a, Frequency) == GetMedicine(b, Frequency);
    assert GetMedicine(a, Duration) == GetMedicine(b, Duration);
  }

  /** Typing the old value back into a medicine field restores the list. */
  lemma UpdateMedicineUndo(meds: seq<Medicine>, i: int, f: MedicineField, v: string)
    requires 0 <= i < |meds|
    ensures UpdateMedicine(UpdateMedicine(meds, i, f, v), i, f, GetMedicine(meds[i], f)) == meds
  {
    var r := UpdateMedicine(UpdateMedicine(meds, i, f, v), i, f, GetMedicine(meds[i], f));
    forall g ensures GetMedicine(r[i], g) == GetMedicine(meds[i], g) {
    }
    SameMedicine(r[i], meds[i]);
  }

  /** `addMedicine`: one entry with every field empty goes at the end. */
  function AppendEmpty(meds: seq<Medicine>): (r: seq<Medicine>)
    ensures |r| == |meds| + 1 && r[..|meds|] == meds
    ensures forall f :: GetMedicine(r[|meds|], f) == ""
  {
    meds + [EmptyMedicine]
  }

  /** `removeMedicine`: keeps every entry whose index is not i. */
  function RemoveAt<T>(s: seq<T>, i: int): (r: seq<T>)
    ensures 0 <= i < |s| ==> |r| == |s| - 1
    ensures 0 <= i < |s| ==> forall j :: 0 <= j < i ==> r[j] == s[j]
    ensures 0 <= i < |s| ==> forall j :: i <= j < |r| ==> r[j] == s[j + 1]
    ensures !(0 <= i < |s|) ==> r == s
  {
    if 0 <= i < |s| then s[..i] + s[i + 1..] else s
  }

  /** Removing the entry just added gives back the list. */
  lemma RemoveAppended(meds: seq<Medicine>)
    ensures RemoveAt(AppendEmpty(meds), |meds|) == meds
  {
    var r := RemoveAt(AppendEmpty(meds), |meds|);
    assert forall j :: 0 <= j < |meds| ==> r[j] == meds[j];
  }

  /** Removing an entry drops exactly one occurrence of it. */
  lemma RemoveAtMultiset<T>(s: seq<T>, i: int)
    requires 0 <= i < |s|
    ensures multiset(RemoveAt(s, i)) + multiset{s[i]} == multiset(s)
  {
    assert s == s[..i] + [s[i]] + s[i + 1..];
  }

  // ---------------------------------------------------------------------
  // The validation gate and the actions behind the buttons
  // ---------------------------------------------------------------------

  /** Save, download and send go ahead only with a patient name and a phone. */
  predicate CanSubmit(d: Prescription)
    ensures CanSubmit(d) <==> Get(d, PatientName) != "" && Get(d, ContactPhone) != ""
  {
    d.patientName != "" && d.contactPhone != ""
  }

  /** The gate looks at the name and the phone only: editing any other
      field, or the medicines, leaves it as it was. */
  lemma CanSubmitOnlyNameAndPhone(d: Prescription, f: Field, v: string, meds: seq<Medicine>)
    ensures f != PatientName && f != ContactPhone ==> CanSubmit(SetField(d, f, v)) == CanSubmit(d)
    ensures CanSubmit(d.(medicines := meds)) == CanSubmit(d)
    ensures CanSubmit(SetField(d, PatientName, "")) == false
    ensures CanSubmit(SetField(d, ContactPhone, "")) == false
  {
    var r := SetField(d, f, v);
    assert Get(r, PatientName) == r.patientName && Get(d, PatientName) == d.patientName;
    assert Get(r, ContactPhone) == r.contactPhone && Get(d, ContactPhone) == d.contactPhone;
  }

  // ---------------------------------------------------------------------
  // Finding the preview in the page
  // ---------------------------------------------------------------------

  /** The id both download buttons look the preview up by. */
  const PreviewId: string := "prescription-preview"

  /** The element ids the prescription page carries as written: the four
      inputs of the form. The root of the live preview carries none. */
  const PageIdsAsWritten: set<string> := {"patientName", "contactPhone", "age", "email"}

  /** The same page with the root of the live preview carrying `PreviewId`. */
  const PageIdsWithPreviewId: set<string> := PageIdsAsWritten + {PreviewId}

  /** `document.getElementById(PreviewId)` followed by the capture: the
      capture of the preview when some element carries the id, otherwise
      nothing. */
  function LookupPreview(ids: set<string>, capture: Canvas): (r: Option<Canvas>)
    ensures r.Some? <==> PreviewId in ids
    ensures r.Some? ==> r.value == capture
  {
    if PreviewId in ids then Some(capture) else None
  }

  /** No element of the page as written carries the preview's id. */
  lemma PreviewIdMissing()
    ensures PreviewId !in PageIdsAsWritten
    ensures PreviewId in PageIdsWithPreviewId
  {
    assert |PreviewId| == 20;
    assert forall id :: id in PageIdsAsWritten ==> |id| < 20;
  }

  /** What a download button reports: refused by the validation gate, failed
      in the export, or the file that was saved. */
  datatype ExportOutcome = Refused | Failed | Exported(download: Download)

  class Form {
    /** The record, owned by the page and replaced through `onChange`. */
    var data: Prescription
    /** The form's own copy of the medicines list. */
    var medicines: seq<Medicine>

    /** The form's copy of the medicines agrees with the record's. */
    ghost predicate InSync()
      reads this
    {
      medicines == data.medicines
    }

    constructor (initial: Prescription)
      ensures data == initial && InSync()
    {
      data := initial;
      medicines := initial.medicines;
    }

    method InputChange(f: Field, v: string)
      modifies this
      ensures data == SetField(old(data), f, v)
      ensures medicines == old(medicines)
      ensures old(InSync()) ==> InSync()
    {
      data := SetField(data, f, v);
    }

    method MedicineChange(i: int, f: MedicineField, v: string)
      modifies this
      ensures medicines == UpdateMedicine(old(medicines), i, f, v)
      ensures data == old(data).(medicines := medicines) && InSync()
    {
      var updated := UpdateMedicine(medicines, i, f, v);
      medicines := updated;
      data := data.(medicines := updated);
    }

    method AddMedicine()
      modifies this
      ensures medicines == AppendEmpty(old(medicines))
      ensures data == old(data).(medicines := medicines) && InSync()
    {
      var updated := AppendEmpty(medicines);
      medicines := updated;
      data := data.(medicines := updated);
    }

    method RemoveMedicine(i: int)
      modifies this
      ensures medicines == RemoveAt(old(medicines), i)
      ensures data == old(data).(medicines := medicines) && InSync()
    {
      var updated := RemoveAt(medicines, i);
      medicines := updated;
      data := data.(medicines := updated);
    }

    /** "Save to Records": appends the record as a draft. `id` and
        `createdAt` stand for the clock readings the source takes. */
    method Save(store: RecordStore, id: string, createdAt: string) returns (saved: bool)
      modifies store
      ensures saved == CanSubmit(data)
      ensures store.records == if saved then old(store.records) + [StoredPrescription(data, id, createdAt, Draft)]
                               else old(store.records)
    {
      if !CanSubmit(data) {
        return false;
      }
      store.records := store.records + [StoredPrescription(data, id, createdAt, Draft)];
      saved := true;
    }

    /** "Send via WhatsApp": appends the record as sent. */
    method SendWhatsApp(store: RecordStore, id: string, createdAt: string) returns (sent: bool)
      modifies store
      ensures sent == CanSubmit(data)
      ensures store.records == if sent then old(store.records) + [StoredPrescription(data, id, createdAt, Sent)]
                               else old(store.records)
    {
      if !CanSubmit(data) {
        return false;
      }
      store.records := store.records + [StoredPrescription(data, id, createdAt, Sent)];
      sent := true;
    }

    /** "Download PDF" of the preview capture `preview`. */
    method GeneratePdf(preview: Option<Canvas>, nowIso: string, page: Page) returns (outcome: ExportOutcome)
      ensures !CanSubmit(data) ==> outcome == Refused
      ensures CanSubmit(data) ==> (outcome == Failed <==> preview.None?)
      ensures outcome.Exported? <==> CanSubmit(data) && preview.Some?
      ensures outcome.Exported? ==> outcome.download.fileName == PdfFileName(data.patientName, nowIso)
      ensures outcome.Exported? ==> outcome.download.content == PdfImagePage(page, preview.value, Fit(preview.value, page))
    {
      if !CanSubmit(data) {
        return Refused;
      }
      var r := DownloadPrescriptionPdf(preview, data.patientName, nowIso, page);
      outcome := if r.Success? then Exported(r.value) else Failed;
    }

    /** "Download Image" of the preview capture `preview`. */
    method GenerateImage(preview: Option<Canvas>, nowIso: string) returns (outcome: ExportOutcome)
      ensures !CanSubmit(data) ==> outcome == Refused
      ensures CanSubmit(data) ==> (outcome == Failed <==> preview.None?)
      ensures outcome.Exported? <==> CanSubmit(data) && preview.Some?
      ensures outcome.Exported? ==> outcome.download == Download(ImageFileName(data.patientName, nowIso), PngImage(preview.value))
    {
      if !CanSubmit(data) {
        return Refused;
      }
      var r := DownloadPrescriptionImage(preview, data.patientName, nowIso);
      outcome := if r.Success? then Exported(r.value) else Failed;
    }

    /** Both download buttons on the page as written: the lookup of the
        preview never succeeds, so a record that passes the gate always ends
        in the error message. */
    method ExportsAsWritten(capture: Canvas, nowIso: string, page: Page)
      returns (pdf: ExportOutcome, image: ExportOutcome)
      ensures pdf == if CanSubmit(data) then Failed else Refused
      ensures image == if CanSubmit(data) then Failed else Refused
    {
      PreviewIdMissing();
      var preview := LookupPreview(PageIdsAsWritten, capture);
      pdf := GeneratePdf(preview, nowIso, page);
      image := GenerateImage(preview, nowIso);
    }

    /** Both download buttons once the preview's root carries `PreviewId`: a
        record that passes the gate is downloaded. */
    method ExportsWithPreviewId(capture: Canvas, nowIso: string, page: Page)
      returns (pdf: ExportOutcome, image: ExportOutcome)
      ensures pdf == if CanSubmit(data)
        then Exported(Download(PdfFileName(data.patientName, nowIso), PdfImagePage(page, capture, Fit(capture, page))))
        else Refused
      ensures image == if CanSubmit(data)
        then Exported(Download(ImageFileName(data.patientName, nowIso), PngImage(capture)))
        else Refused
    {
      PreviewIdMissing();
      var preview := LookupPreview(PageIdsWithPreviewId, capture);
      pdf := GeneratePdf(preview, nowIso, page);
      image := GenerateImage(preview, nowIso);
    }
  }
}
