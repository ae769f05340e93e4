# Prescription app: data handling, in Dafny

A model of the logic behind a single-practitioner prescription app. A form
edits a patient record and its medicines, a live preview shows the record as
a formatted prescription, and the preview can be saved as a PNG image or a
one-page PDF. The record can also be stored as a draft or "sent" over
WhatsApp. A dashboard lists the stored records with a search box, two
counters and a "resend" action.

The model covers the four pieces of that logic:

- `PdfGenerator` (`pdf_generator.dfy`) models `utils/pdfGenerator.js`. It
  derives the download file names and the fit-to-page placement of the
  captured preview. It also models the "preview element not found" error.
- `PrescriptionForm` (`prescription_form.dfy`) models
  `components/PrescriptionForm.jsx`. It has the pure edits to the record
  and its medicines list and the validation gate. Its class `Form` holds
  the record and the form's own copy of the medicines, with the button
  handlers as methods. The save and send handlers append to a
  `RecordStore`.
- `Dashboard` (`dashboard.dfy`) models `pages/Dashboard.jsx`. It has the
  load fallback, the search filter, resend and the counters. Its class
  `DashboardView` holds the page state. Its invariant is that the shown
  list is always the search over the whole list.
- `LivePreview` (`live_preview.dfy`) models `components/LivePreview.jsx`. It
  is a pure function from a record to the view: placeholders, the gender
  label, optional sections and the table rows.
- `Records` (`records.dfy`) holds the shared data types, the stored list
  (`RecordStore`) and the sample data of `data/mockData.js`.
- `Text` (`text.dfy`) holds JavaScript's `\s` character class, ASCII case
  mapping and `String.prototype.includes`.

The clock, local storage, the DOM and the capture are parameters:

- `id`, `createdAt` and the ISO timestamp are passed in.
- The stored list is a `seq` field of `RecordStore`.
- The capture of the preview is an `Option<Canvas>`: `None` when the
  element lookup fails, otherwise its pixel size. `LookupPreview` gives it
  from the set of element ids on the page. On the page as written no
  element carries the id the buttons look up, so the lookup always fails;
  see "## Findings".
- The page size is what the PDF library reports.

Optional record fields are strings in which `""` means absent. The
preview and the form's checks read them through `||`, `&&` and `!`, which
treat `undefined` and `""` alike. The file names and the dashboard search
read the name and the phone directly, so an absent value behaves
differently there; see "## Left out".

Three facts about the code that the model keeps:

- There is no vector-drawn PDF builder with text wrapping or height
  estimation. The PDF is one page holding the captured image.
- The fit ratio is not capped at 1. `FitEnlargesSmallCapture` proves that
  a capture smaller than the page is enlarged.
- The required-field check sits in the form's handlers. `pdfGenerator.js`
  itself accepts any name.

## Model

| member | source | states |
|---|---|---|
| `PdfGenerator.Underscore` | frontend/src/utils/pdfGenerator.js:25 | the name with `/\s+/g` replaced by `_` contains no whitespace character |
| `PdfGenerator.UnderscorePlain` | frontend/src/utils/pdfGenerator.js:25 | a name without whitespace is left unchanged |
| `PdfGenerator.UnderscoreIdempotent` | frontend/src/utils/pdfGenerator.js:25 | replacing twice equals replacing once |
| `PdfGenerator.UnderscoreRun` | frontend/src/utils/pdfGenerator.js:25 | word + maximal whitespace run + rest becomes word + exactly one `_` + the replaced rest |
| `PdfGenerator.UnderscoreKeepsVisible` | frontend/src/utils/pdfGenerator.js:25 | apart from underscores, the result holds exactly the non-whitespace characters of the name, in order |
| `PdfGenerator.DatePart` | frontend/src/utils/pdfGenerator.js:25 | `split('T')[0]` is the prefix before the first `T`, holds no `T`, and is the whole string when there is no `T` |
| `PdfGenerator.DatePartOf` | frontend/src/utils/pdfGenerator.js:80 | the date part of `<date>T<time>` is `<date>`; a string without `T` is its own date part |
| `PdfGenerator.FileStem` | frontend/src/utils/pdfGenerator.js:25 | the shared name starts with `prescription_`, ends with the date part, and has no whitespace before the date |
| `PdfGenerator.ImageFileName` | frontend/src/utils/pdfGenerator.js:25 | the shared name followed by `.png` |
| `PdfGenerator.PdfFileName` | frontend/src/utils/pdfGenerator.js:80 | the shared name followed by `.pdf` |
| `PdfGenerator.FileNamesDifferOnlyInExtension` | frontend/src/utils/pdfGenerator.js:80 | the PNG and PDF names agree except for their final `.png` / `.pdf` |
| `PdfGenerator.TwoWordFileName` | frontend/src/utils/pdfGenerator.js:80 | "First Last" at `<date>T<time>` gives `prescription_First_Last_<date>.pdf` (and `.png`) |
| `PdfGenerator.Fit` | frontend/src/utils/pdfGenerator.js:63-76 | the image fits the page, fills its width or its height, keeps the canvas aspect ratio, and is centred with non-negative offsets |
| `PdfGenerator.FitRatio` | frontend/src/utils/pdfGenerator.js:69 | the ratio is the smaller of the two page-to-capture ratios: no more than either, and equal to one of them |
| `PdfGenerator.FitEnlargesSmallCapture` | frontend/src/utils/pdfGenerator.js:69-72 | the ratio is not clamped: a capture smaller than the page in both directions is enlarged |
| `PdfGenerator.DownloadPrescriptionImage` | frontend/src/utils/pdfGenerator.js:4-34 | fails with "preview element not found" exactly when the lookup fails, otherwise yields the PNG under the derived name |
| `PdfGenerator.DownloadPrescriptionPdf` | frontend/src/utils/pdfGenerator.js:36-88 | fails exactly when the lookup fails, otherwise yields a PDF under the derived name with the image placed by `Fit` |
| `PrescriptionForm.SetField` | frontend/src/components/PrescriptionForm.jsx:16-19 | the chosen field takes the new value, every other field and the medicines are unchanged |
| `PrescriptionForm.SetFieldUndo` | frontend/src/components/PrescriptionForm.jsx:16-19 | writing a field's old value back restores the record |
| `PrescriptionForm.SetMedicine` | frontend/src/components/PrescriptionForm.jsx:23 | `{ ...med, [field]: value }` changes that field only |
| `PrescriptionForm.UpdateMedicine` | frontend/src/components/PrescriptionForm.jsx:21-27 | length kept, entries j ≠ i unchanged, only field f of entry i changed, out-of-range index changes nothing |
| `PrescriptionForm.UpdateMedicineUndo` | frontend/src/components/PrescriptionForm.jsx:21-27 | writing the old value back restores the list |
| `PrescriptionForm.AppendEmpty` | frontend/src/components/PrescriptionForm.jsx:29-39 | one entry with all four fields empty is appended; the old list is an unchanged prefix |
| `PrescriptionForm.RemoveAt` | frontend/src/components/PrescriptionForm.jsx:41-45 | removes exactly entry i, keeping the others in order; an out-of-range index changes nothing |
| `PrescriptionForm.RemoveAppended` | frontend/src/components/PrescriptionForm.jsx:29-45 | removing the entry just added gives back the list |
| `PrescriptionForm.RemoveAtMultiset` | frontend/src/components/PrescriptionForm.jsx:41-45 | removal drops exactly one occurrence of the removed entry |
| `PrescriptionForm.CanSubmit` | frontend/src/components/PrescriptionForm.jsx:49 | the gate of the four buttons (also :76, :101, :126): open exactly when the name field and the phone field are non-empty; `Save`, `SendWhatsApp`, `GeneratePdf` and `GenerateImage` state their result in terms of it |
| `PrescriptionForm.CanSubmitOnlyNameAndPhone` | frontend/src/components/PrescriptionForm.jsx:49 | the gate looks at the name and phone only: other fields and the medicines never change it, and emptying the name or the phone closes it |
| `PrescriptionForm.LookupPreview` | frontend/src/utils/pdfGenerator.js:6-9 | the lookup yields the capture exactly when some element on the page carries the preview's id (also :38-41) |
| `PrescriptionForm.PreviewIdMissing` | frontend/src/components/LivePreview.jsx:15 | no element of the page as written carries `prescription-preview`; with the id on the preview's root, one does |
| `PrescriptionForm.Form.constructor` | frontend/src/components/PrescriptionForm.jsx:12-14 | the form starts with the page's record and its own copy of the medicines |
| `PrescriptionForm.Form.InputChange` | frontend/src/components/PrescriptionForm.jsx:16-19 | the record becomes `SetField` of the old one; the medicines copy is untouched |
| `PrescriptionForm.Form.MedicineChange` | frontend/src/components/PrescriptionForm.jsx:21-27 | both the form's list and the record's medicines become `UpdateMedicine` of the form's list |
| `PrescriptionForm.Form.AddMedicine` | frontend/src/components/PrescriptionForm.jsx:29-39 | both copies become `AppendEmpty` of the form's list |
| `PrescriptionForm.Form.RemoveMedicine` | frontend/src/components/PrescriptionForm.jsx:41-45 | both copies become `RemoveAt` of the form's list |
| `PrescriptionForm.Form.Save` | frontend/src/components/PrescriptionForm.jsx:47-73 | with a name and phone appends exactly one Draft record with the given id and time; otherwise the store is unchanged |
| `PrescriptionForm.Form.SendWhatsApp` | frontend/src/components/PrescriptionForm.jsx:125-156 | with a name and phone appends exactly one Sent record; otherwise the store is unchanged |
| `PrescriptionForm.Form.GeneratePdf` | frontend/src/components/PrescriptionForm.jsx:75-98 | refused without name or phone; otherwise fails exactly when the capture is missing (the only failure the model has); exported exactly when name, phone and capture are all there, as the PDF under the derived name with the `Fit` placement |
| `PrescriptionForm.Form.GenerateImage` | frontend/src/components/PrescriptionForm.jsx:100-123 | refused without name or phone; otherwise fails exactly when the capture is missing (the only failure the model has); exported exactly when name, phone and capture are all there, as the PNG under the derived name |
| `PrescriptionForm.Form.ExportsAsWritten` | frontend/src/components/PrescriptionForm.jsx:84-97 | on the page as written both buttons end in the error message for every record that passes the gate, and are refused otherwise |
| `PrescriptionForm.Form.ExportsWithPreviewId` | frontend/src/components/PrescriptionForm.jsx:84-97 | with the id on the preview's root both buttons download the PDF and the PNG for every record that passes the gate |
| `Text.ContainsIff` | frontend/src/pages/Dashboard.jsx:26-27 | `includes` holds exactly when the needle occurs at some position |
| `Text.ContainsEmpty` | frontend/src/pages/Dashboard.jsx:26 | every string includes the empty string |
| `Dashboard.LoadList` | frontend/src/pages/Dashboard.jsx:17-18 | the saved list when non-empty, else the samples; never empty |
| `Dashboard.DashboardView.Mount` | frontend/src/pages/Dashboard.jsx:15-21 | mounting loads `LoadList` of the stored list and shows all of it with an empty term |
| `Dashboard.Search` | frontend/src/pages/Dashboard.jsx:24-28 | the result is no longer than the list and every kept record matches the term |
| `Dashboard.Matches` | frontend/src/pages/Dashboard.jsx:25-27 | the search predicate; every record matches the empty term |
| `Dashboard.SearchSubsequence` | frontend/src/pages/Dashboard.jsx:24-28 | the result is an order-preserving subsequence of the list |
| `Dashboard.SearchMembership` | frontend/src/pages/Dashboard.jsx:24-28 | a record is kept iff it is in the list and lower(name) includes lower(term) or phone includes term |
| `Dashboard.SearchMultiset` | frontend/src/pages/Dashboard.jsx:23-28 | each matching record is kept as many times as the list holds it, and no other record is kept |
| `Dashboard.SearchKeepsAll` | frontend/src/pages/Dashboard.jsx:24-28 | when every record matches, the whole list is kept |
| `Dashboard.SearchEmptyTerm` | frontend/src/pages/Dashboard.jsx:24-28 | an empty term keeps every record |
| `Dashboard.DashboardView.SetSearchTerm` | frontend/src/pages/Dashboard.jsx:23-30 | the shown list becomes the search over the unchanged list |
| `Dashboard.MarkSent` | frontend/src/pages/Dashboard.jsx:91-93 | resend keeps the length |
| `Dashboard.MarkOne` | frontend/src/pages/Dashboard.jsx:92 | only the status of a record can change, and it is Sent afterwards exactly when it was Sent or carries the id |
| `Dashboard.MarkSentAt` | frontend/src/pages/Dashboard.jsx:91-93 | records with the id get status Sent and nothing else changes; other records are unchanged, in place |
| `Dashboard.MarkSentIdempotent` | frontend/src/pages/Dashboard.jsx:91-93 | resending twice equals resending once |
| `Dashboard.DashboardView.ResendWhatsApp` | frontend/src/pages/Dashboard.jsx:85-96 | the list becomes `MarkSent` of the old list, is written back to the store, and the shown list is refreshed |
| `Dashboard.Drafts` | frontend/src/pages/Dashboard.jsx:150 | the Draft filter holds exactly the Draft records of the list, each one a Draft, and is no longer than the list |
| `Dashboard.Counters` | frontend/src/pages/Dashboard.jsx:116 | Total is the length of the list; Drafts is the number of positions holding a Draft record, so never more than Total |
| `Dashboard.DraftCount` | frontend/src/pages/Dashboard.jsx:150 | the Draft counter never exceeds the length of the list |
| `Dashboard.DraftCountZero` | frontend/src/pages/Dashboard.jsx:150 | the Draft counter is zero exactly when every record is Sent |
| `Dashboard.DraftCountAppend` | frontend/src/pages/Dashboard.jsx:150 | appending a record raises the Draft counter by one exactly when it is a draft |
| `Dashboard.DraftCountIndices` | frontend/src/pages/Dashboard.jsx:150 | the length of the Draft filter is the number of positions holding a Draft record |
| `Dashboard.DraftCountMarkSent` | frontend/src/pages/Dashboard.jsx:150 | resend never raises the Draft counter, and leaves it unchanged iff no record with that id is a draft |
| `LivePreview.OrDash` | frontend/src/components/LivePreview.jsx:55 | the shown text is never empty; it is the value when there is one and — otherwise |
| `LivePreview.Capitalize` | frontend/src/components/LivePreview.jsx:59 | same length, first character upper-cased, the rest unchanged |
| `LivePreview.GenderLabel` | frontend/src/components/LivePreview.jsx:59 | the label is two characters longer than the gender and is wrapped in parentheses |
| `LivePreview.Render` | frontend/src/components/LivePreview.jsx:53-129 | name, age and phone are never blank and show the value when present; gender, email, symptoms, notes and the table appear iff present and then show the value (gender as its label); the table is `Rows` of the medicines, one row per medicine |
| `LivePreview.RenderPlaceholders` | frontend/src/components/LivePreview.jsx:55-64 | a missing name, age or phone shows "—" |
| `LivePreview.GenderLabelShape` | frontend/src/components/LivePreview.jsx:59 | the gender shows as "(" + upper(first char) + rest + ")" |
| `LivePreview.Rows` | frontend/src/components/LivePreview.jsx:107-114 | one row per medicine |
| `LivePreview.RowOf` | frontend/src/components/LivePreview.jsx:109-112 | every cell is filled, shows the medicine's value when there is one, and an empty line shows `DashRow` |
| `LivePreview.RowsAt` | frontend/src/components/LivePreview.jsx:107-114 | row i shows medicine i, each cell its value or "—" |
| `LivePreview.RowsAppend` | frontend/src/components/LivePreview.jsx:107-114 | the rows of a concatenation are the concatenated rows |
| `LivePreview.PreviewAfterAdd` | frontend/src/components/LivePreview.jsx:93-114 | after "Add Medicine" the table gains one row of dashes at the end |
| `LivePreview.PreviewAfterRemove` | frontend/src/components/LivePreview.jsx:107-114 | removing medicine i removes exactly row i |
| `LivePreview.PreviewAfterEdit` | frontend/src/components/LivePreview.jsx:107-114 | editing medicine i leaves every other row unchanged |
| `LivePreview.SamplePreview` | frontend/src/data/mockData.js:8-27 | the sample record's table shows its three medicines in order |

## Findings

| source | as written | input that shows it | evidently intended | confidence | as-written member | corrected member |
|---|---|---|---|---|---|---|
| frontend/src/components/PrescriptionForm.jsx:86 | both download buttons look up the element `prescription-preview`, but the live preview's root (frontend/src/components/LivePreview.jsx:15) carries no id and no other element does, so the lookup fails and every download ends in the error message | any record with a patient name and a phone, e.g. the sample record | the preview's root carries `id="prescription-preview"` and a record that passes the gate is downloaded | high (by reading the source; not executed) | `PrescriptionForm.Form.ExportsAsWritten` | `PrescriptionForm.Form.ExportsWithPreviewId` |

## Left out

- Capture, encoding and saving are left out: `html2canvas`,
  `canvas.toDataURL`, the jsPDF document, `addImage`, `pdf.save` and
  `link.click`. They are foreign libraries and browser I/O. The capture is
  an input and a download is returned as a value.
- IEEE-754 rounding is not modelled. The geometry is exact `real`
  arithmetic, in which the 0.264583 mm/px constant cancels out.
- PrescriptionForm.Form.GeneratePdf: the source's `catch` also turns a
  failure inside html2canvas or jsPDF into the error message. Those
  libraries are not modelled, so in the model a missing capture is the
  only way to reach `Failed`. The same holds for `GenerateImage`.
- Fit: canvas and page sizes are positive. A zero-sized capture, which
  gives Infinity or NaN in JavaScript, is not modelled.
- The page size is not fixed to A4. It is an input, the value the PDF
  library reports.
- JSON parsing and serialisation of local storage are left out. The store
  is a `seq` of records.
- Clock and locale are left out: `Date.now()`, `toISOString`,
  `toLocaleDateString`, the preview's date line and the dashboard's
  "Sent today" counter. Ids and timestamps are parameters.
- PdfGenerator.FileStem: an absent patient name is `""`. The source
  interpolates `patientName?.replace(...)`, which gives
  `prescription_undefined_<date>` for an absent name; the model gives
  `prescription__<date>`. The form's check never lets an absent name reach
  the export.
- Dashboard.Matches: an absent name or phone is `""`. The source calls
  `toLowerCase` and `includes` on them directly, which throws for an
  absent value. Records reach the list only through the form's check, so
  name and phone are always there.
- Case mapping is ASCII only. Unicode `toLowerCase` and `toUpperCase` are
  not modelled.
- The WhatsApp message and URL are left out: `encodeURIComponent`,
  `window.open` and the toasts are string templating and browser side
  effects.
- The dashboard's `handleDownloadPDF`, `handleDownloadImage` and
  `handleViewPrescription` only log.
- Routing, the preview-refresh key of the page, the navigation bar and all
  JSX styling are left out. The static header and footer text of the
  preview is left out too.
- Status is the two values Draft and Sent, the only ones the app writes.
  Other strings in storage are not modelled.
- `PrescriptionForm.Form.InputChange` takes the seven text fields. The
  `"medicines"` field is set only by the medicine edits, which
  `MedicineChange`, `AddMedicine` and `RemoveMedicine` model.
