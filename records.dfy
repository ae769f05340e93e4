/** The data the prescription app passes between its form, preview, export
    and dashboard. Optional fields of the JavaScript objects are modelled as
    strings in which "" stands for both the empty and the absent value: every
    place the app reads them (`x || "—"`, `x && …`, `!x`) treats the two alike. */
module Records {

  datatype Option<+T> = None | Some(value: T)

  datatype Result<+T, +E> = Success(value: T) | Failure(error: E)

  /** One line of the medicines list. */
  datatype Medicine = Medicine(name: string, dosage: string, frequency: string, duration: string)

  /** The entry the form adds with "Add Medicine": every field empty. */
  const EmptyMedicine: Medicine := Medicine("", "", "", "")

  /** The record edited by the form and shown by the live preview. */
  datatype Prescription = Prescription(
    patientName: string,
    age: string,
    gender: string,
    contactPhone: string,
    email: string,
    symptoms: string,
    medicines: seq<Medicine>,
    additionalNotes: string)

  datatype Status = Draft | Sent

  /** A record as kept in the stored list: the form's data plus an id, a
      creation timestamp and a status. */
  datatype StoredPrescription = StoredPrescription(data: Prescription, id: string, createdAt: string, status: Status)

  /** The stored list of prescriptions (the "prescriptions" entry of the
      browser's local storage). */
  class RecordStore {
    var records: seq<StoredPrescription>

    constructor (saved: seq<StoredPrescription>)
      ensures records == saved
    {
      records := saved;
    }
  }

  /** The sample record the prescription page starts from. */
  const MockPrescriptionData: Prescription := Prescription(
    "Sarah Johnson", "32", "female", "+91 9876543210", "sarah.johnson@email.com",
    "Patient complains of persistent cough, mild fever (99.2\U{00B0}F), and fatigue for the past 3 days. No shortness of breath or chest pain reported. Physical examination reveals slight throat inflammation.",
    [ Medicine("Paracetamol", "500mg", "3 times daily", "7 days"),
      Medicine("Azithromycin", "250mg", "Once daily", "5 days"),
      Medicine("Dextromethorphan Syrup", "10ml", "2 times daily", "7 days") ],
    "Take medicines after food. Drink plenty of warm water and rest adequately. Return for follow-up if symptoms persist after 5 days or worsen.")

  /** Only name and phone are set in a dashboard sample; the other fields are absent. */
  function DashboardSample(name: string, phone: string): Prescription {
    Prescription(name, "", "", phone, "", "", [], "")
  }

  /** The list the dashboard shows when nothing is stored. */
  const MockDashboardData: seq<StoredPrescription> := [
    StoredPrescription(DashboardSample("Sarah Johnson", "+91 9876543210"), "1", "2024-01-15T10:30:00Z", Sent),
    StoredPrescription(DashboardSample("Michael Chen", "+91 9876543211"), "2", "2024-01-14T14:20:00Z", Draft),
    StoredPrescription(DashboardSample("Emily Rodriguez", "+91 9876543212"), "3", "2024-01-13T09:15:00Z", Sent)
  ]
}
