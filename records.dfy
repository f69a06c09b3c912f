/**
 * The documents the application keeps in browser storage. Every value is
 * stored as JSON text; since JSON round-tripping is the identity here, a
 * stored value is the document itself, tagged by its shape. Form objects whose
 * fields are all text inputs are maps from field name to text.
 */
module Records {
  import opened Wrappers

  /** A plain JavaScript object whose fields are all strings. */
  type Fields = map<string, string>

  /** `obj[field]` read as a string, with a missing field read as `''` (falsy). */
  function Get(f: Fields, field: string): (r: string)
    ensures field in f ==> r == f[field]
    ensures field !in f ==> r == ""
  {
    if field in f then f[field] else ""
  }

  /** A form field that is either a text input or a checkbox. */
  datatype FormValue = Text(text: string) | Flag(flag: bool)

  type Form = map<string, FormValue>

  /** A roster entry: the generated id plus the fields merged into it. */
  datatype Patient = Patient(id: string, fields: Fields)

  /**
   * A list element carrying a numeric `Date.now()` id and string fields:
   * certificates, episodes, allergies and well-child visits.
   */
  datatype Entry = Entry(id: int, fields: Fields)

  /** A growth measurement: the draft fields (with the computed BMI text) and the age in months (`None` for NaN). */
  datatype Measurement = Measurement(id: int, fields: Fields, idadeMeses: Option<int>)

  /** A checked developmental milestone. */
  datatype Milestone = Milestone(faixaEtaria: string, marco: string, data: string)

  /** A prescription; each medication line is a string-field object. */
  datatype Prescription = Prescription(id: int, data: string, medicamentos: seq<Fields>, orientacoes: string, retorno: string)

  /** One row of the national vaccination calendar. */
  datatype CalendarEntry = CalendarEntry(nome: string, doses: int, idade: string, protege: string)

  /** A vaccination row: its index id, the calendar entry, the applied flag and the string detail fields. */
  datatype VaccineRow = VaccineRow(id: int, vacina: CalendarEntry, aplicada: bool, details: Fields)

  /** The breast-feeding record: its inputs and the list of difficulties. */
  datatype Breastfeeding = Breastfeeding(fields: Form, dificuldades: seq<string>)

  /** What a login puts in memory and in the session record. */
  datatype SessionUser = SessionUser(username: string, name: string, role: string, specialty: Option<string>)

  /** A stored value, by the shape of the document under its key. */
  datatype Value =
    | RosterDoc(patients: seq<Patient>)
    | SessionDoc(user: SessionUser, timestamp: int)
    | FieldsDoc(fields: Fields)
    | FormDoc(form: Form)
    | BreastfeedingDoc(record: Breastfeeding)
    | MeasurementsDoc(measurements: seq<Measurement>)
    | MilestonesDoc(milestones: seq<Milestone>)
    | PrescriptionsDoc(prescriptions: seq<Prescription>)
    | EntriesDoc(entries: seq<Entry>)
    | VaccinesDoc(rows: seq<VaccineRow>)
    | Malformed(text: string)   // stored text that `JSON.parse` rejects

  /** How a guarded handler ended. */
  datatype Outcome =
    | Done       // the change was made and written
    | Denied     // the permission check failed
    | Rejected   // a required field was empty
    | Declined   // the user did not confirm

  /** Some field named in `required` is empty (falsy) in `draft`. */
  function MissingField(draft: Fields, required: seq<string>): (r: bool)
    ensures r <==> exists f :: f in required && Get(draft, f) == ""
  {
    if required == [] then false
    else
      assert forall f :: f in required <==> f == required[0] || f in required[1..];
      Get(draft, required[0]) == "" || MissingField(draft, required[1..])
  }

  /** The checks of an add or save handler, in order: permission, then the required fields. */
  function RequiredCheck(canEdit: bool, draft: Fields, required: seq<string>): (r: Outcome)
    ensures r == Done <==> canEdit && forall f :: f in required ==> Get(draft, f) != ""
    ensures !canEdit ==> r == Denied
    ensures canEdit && r != Done ==> r == Rejected
  {
    if !canEdit then Denied
    else if MissingField(draft, required) then Rejected
    else Done
  }

  /** The checks of a guarded removal, in order: permission, then confirmation. */
  function RemoveCheck(canEdit: bool, confirmed: bool): (r: Outcome)
    ensures r == Done <==> canEdit && confirmed
    ensures !canEdit ==> r == Denied
    ensures canEdit && !confirmed ==> r == Declined
  {
    if !canEdit then Denied else if !confirmed then Declined else Done
  }

  function EntryId(e: Entry): int
  {
    e.id
  }

  /** A mount-time entry list: the stored list, or empty when nothing (or another shape) is stored. */
  function LoadedEntries(v: Option<Value>): seq<Entry>
  {
    match v
    case Some(EntriesDoc(es)) => es
    case _ => []
  }
}
