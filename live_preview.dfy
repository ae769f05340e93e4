/** The live preview as a view model: which sections are shown and what text
    stands in each place. The practice header, the date line and the footer
    are the same for every record and are not part of the view. */
module LivePreview {
  import opened Records
  import opened Text
  import opened PrescriptionForm

  /** `value || "—"`. */
  function OrDash(s: string): (r: string)
    ensures r != ""
    ensures s != "" ==> r == s
    ensures s == "" ==> r == Dash
  {
    if s == "" then Dash else s
  }

  /** `g.charAt(0).toUpperCase() + g.slice(1)`. */
  function Capitalize(s: string): (r: string)
    ensures |r| == |s|
    ensures s != [] ==> r[0] == UpperChar(s[0]) && r[1..] == s[1..]
  {
    if s == [] then [] else [UpperChar(s[0])] + s[1..]
  }

  /** The gender as shown after the age: "(Female)" for "female". */
  function GenderLabel(g: string): (r: string)
    ensures |r| == |g| + 2 && r[0] == '(' && r[|r| - 1] == ')'
  {
    "(" + Capitalize(g) + ")"
  }

  /** One row of the medicines table. */
  datatype MedicineRow = MedicineRow(name: string, dosage: string, frequency: string, duration: string)

  /** Every cell is filled: the medicine's value, or the dash when empty. */
  function RowOf(m: Medicine): (r: MedicineRow)
    ensures r.name != "" && r.dosage != "" && r.frequency != "" && r.duration != ""
    ensures m.name != "" ==> r.name == m.name
    ensures m.dosage != "" ==> r.dosage == m.dosage
    ensures m.frequency != "" ==> r.frequency == m.frequency
    ensures m.duration != "" ==> r.duration == m.duration
    ensures m == EmptyMedicine ==> r == DashRow
  {
    MedicineRow(OrDash(m.name), OrDash(m.dosage), OrDash(m.frequency), OrDash(m.duration))
  }

  /** The row shown for a line whose fields are all empty. */
  const DashRow: MedicineRow := MedicineRow(Dash, Dash, Dash, Dash)

  /** `data.medicines.map(...)`: one row per medicine. */
  function Rows(meds: seq<Medicine>): (r: seq<MedicineRow>)
    ensures |r| == |meds|
  {
    if meds == [] then [] else [RowOf(meds[0])] + Rows(meds[1..])
  }

  function Present(s: string): Option<string> {
    if s == "" then None else Some(s)
  }

  /** What the preview shows of a record. */
  datatype View = View(
    name: string,
    age: string,
    gender: Option<string>,
    phone: string,
    email: Option<string>,
    symptoms: Option<string>,
    medicines: Option<seq<MedicineRow>>,
    notes: Option<string>)

  function Render(d: Prescription): (v: View)
    ensures v.name != "" && v.age != "" && v.phone != ""
    ensures d.patientName != "" ==> v.name == d.patientName
    ensures d.age != "" ==> v.age == d.age
    ensures d.contactPhone != "" ==> v.phone == d.contactPhone
    ensures v.gender.Some? <==> d.gender != ""
    ensures d.gender != "" ==> v.gender == Some(GenderLabel(d.gender))
    ensures v.email.Some? <==> d.email != ""
    ensures v.symptoms.Some? <==> d.symptoms != ""
    ensures v.notes.Some? <==> d.additionalNotes != ""
    ensures v.medicines.Some? <==> |d.medicines| > 0
    ensures v.medicines.Some? ==> |v.medicines.value| == |d.medicines|
    ensures v.medicines.Some? ==> v.medicines.value == Rows(d.medicines)
    ensures v.email.Some? ==> v.email.value == d.email
    ensures v.symptoms.Some? ==> v.symptoms.value == d.symptoms
    ensures v.notes.Some? ==> v.notes.value == d.additionalNotes
  {
    View(
      OrDash(d.patientName),
      OrDash(d.age),
      if d.gender == "" then None else Some(GenderLabel(d.gender)),
      OrDash(d.contactPhone),
      Present(d.email),
      Present(d.symptoms),
      if |d.medicines| > 0 then Some(Rows(d.medicines)) else None,
      Present(d.additionalNotes))
  }

  /** A missing name, age or phone shows the dash placeholder. */
  lemma RenderPlaceholders(d: Prescription)
    ensures d.patientName == "" ==> Render(d).name == Dash
    ensures d.age == "" ==> Render(d).age == Dash
    ensures d.contactPhone == "" ==> Render(d).phone == Dash
  {
  }

  /** The gender label is the gender in parentheses with its first letter
      upper-cased and the rest unchanged. */
  lemma {:induction false} GenderLabelShape(g: string)
    requires g != ""
    ensures var l := GenderLabel(g);
      |l| == |g| + 2 && l[0] == '(' && l[|l| - 1] == ')'
      && l[1] == UpperChar(g[0]) && l[2..|l| - 1] == g[1..]
  {
    var c := Capitalize(g);
    var l := "(" + c + ")";
    assert l[1..|l| - 1] == c;
    assert l[2..|l| - 1] == c[1..];
  }

  /** Row i of the table shows medicine i, with a dash for each empty cell. */
  lemma {:induction false} RowsAt(meds: seq<Medicine>, i: int)
    requires 0 <= i < |meds|
    ensures Rows(meds)[i] == RowOf(meds[i])
    ensures Rows(meds)[i].name == OrDash(meds[i].name) && Rows(meds)[i].dosage == OrDash(meds[i].dosage)
    ensures Rows(meds)[i].frequency == OrDash(meds[i].frequency) && Rows(meds)[i].duration == OrDash(meds[i].duration)
  {
    if i > 0 {
      RowsAt(meds[1..], i - 1);
    }
  }

  lemma {:induction false} RowsAppend(a: seq<Medicine>, b: seq<Medicine>)
    ensures Rows(a + b) == Rows(a) + Rows(b)
  {
    if a == [] {
      assert a + b == b;
    } else {
      assert (a + b)[0] == a[0] && (a + b)[1..] == a[1..] + b;
      RowsAppend(a[1..], b);
    }
  }

  /** After "Add Medicine" the table has one more row, of dashes, at the end. */
  lemma PreviewAfterAdd(d: Prescription)
    ensures Render(d.(medicines := AppendEmpty(d.medicines))).medicines == Some(Rows(d.medicines) + [DashRow])
  {
    RowsAppend(d.medicines, [EmptyMedicine]);
    assert Rows([EmptyMedicine]) == [DashRow];
  }

  /** Removing medicine i removes exactly row i of the table. */
  lemma PreviewAfterRemove(meds: seq<Medicine>, i: int)
    ensures Rows(RemoveAt(meds, i)) == RemoveAt(Rows(meds), i)
  {
    if 0 <= i < |meds| {
      var r := RemoveAt(meds, i);
      assert |Rows(r)| == |RemoveAt(Rows(meds), i)|;
      forall j | 0 <= j < |r| ensures Rows(r)[j] == RemoveAt(Rows(meds), i)[j] {
        RowsAt(r, j);
        if j < i {
          RowsAt(meds, j);
        } else {
          RowsAt(meds, j + 1);
        }
      }
    }
  }

  /** Editing medicine i changes no other row. */
  lemma PreviewAfterEdit(meds: seq<Medicine>, i: int, f: MedicineField, v: string, j: int)
    requires 0 <= j < |meds| && j != i
    ensures Rows(UpdateMedicine(meds, i, f, v))[j] == Rows(meds)[j]
  {
    RowsAt(meds, j);
    RowsAt(UpdateMedicine(meds, i, f, v), j);
  }

  /** The sample record shows its three medicines, in order. */
  lemma SamplePreview()
    ensures Render(MockPrescriptionData).medicines == Some([
      MedicineRow("Paracetamol", "500mg", "3 times daily", "7 days"),
      MedicineRow("Azithromycin", "250mg", "Once daily", "5 days"),
      MedicineRow("Dextromethorphan Syrup", "10ml", "2 times daily", "7 days")])
  {
    var meds := MockPrescriptionData.medicines;
    RowsAt(meds, 0);
    RowsAt(meds, 1);
    RowsAt(meds, 2);
    assert Rows(meds) == [RowOf(meds[0]), RowOf(meds[1]), RowOf(meds[2])];
  }
}
