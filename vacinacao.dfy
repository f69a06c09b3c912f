/**
 * The vaccination card: one row per entry of the national calendar, toggling
 * a row applied (gated by `vacinacao.write`), editing a row's details, the
 * pending list and the coverage ratio. Every change rewrites `vacinas-<id>`.
 */
module Vacinacao {
  import opened Wrappers
  import opened Seqs
  import opened Records
  import opened Storage

  /** The detail fields of a row that has never been touched. */
  const BlankDetails: Fields := map[
    "dataAplicacao" := "", "lote" := "", "local" := "", "profissional" := "", "reacoes" := "", "observacoes" := ""]

  /** The rows built from the calendar when nothing is stored: the index as id, nothing applied. */
  function InitialRows(calendar: seq<CalendarEntry>): (r: seq<VaccineRow>)
    ensures |r| == |calendar|
    ensures forall i :: 0 <= i < |r| ==> r[i].id == i && r[i].vacina == calendar[i]
    ensures forall i :: 0 <= i < |r| ==> !r[i].aplicada && r[i].details == BlankDetails
  {
    seq(|calendar|, i requires 0 <= i < |calendar| => VaccineRow(i, calendar[i], false, BlankDetails))
  }

  /** No two initial rows share an id. */
  lemma InitialRowsDistinctIds(calendar: seq<CalendarEntry>)
    ensures forall i, j :: 0 <= i < j < |calendar| ==> InitialRows(calendar)[i].id != InitialRows(calendar)[j].id
  {
  }

  function RowId(v: VaccineRow): int
  {
    v.id
  }

  /** The rows still to be given (`filter(v => !v.aplicada)`), in order. */
  function Pending(rows: seq<VaccineRow>): (r: seq<VaccineRow>)
    ensures forall v :: v in r <==> v in rows && !v.aplicada
  {
    if rows == [] then []
    else (if rows[0].aplicada then [] else [rows[0]]) + Pending(rows[1..])
  }

  /** The rows already given (`filter(v => v.aplicada)`), in order. */
  function Applied(rows: seq<VaccineRow>): (r: seq<VaccineRow>)
    ensures forall v :: v in r <==> v in rows && v.aplicada
  {
    if rows == [] then []
    else (if rows[0].aplicada then [rows[0]] else []) + Applied(rows[1..])
  }

  /** Both filters keep card order: they distribute over concatenation. */
  lemma {:induction false} FiltersConcat(a: seq<VaccineRow>, b: seq<VaccineRow>)
    ensures Pending(a + b) == Pending(a) + Pending(b)
    ensures Applied(a + b) == Applied(a) + Applied(b)
  {
    if a != [] {
      assert (a + b)[1..] == a[1..] + b;
      FiltersConcat(a[1..], b);
    } else {
      assert a + b == b;
    }
  }

  /** On one row exactly one of the filters keeps it. */
  lemma FiltersOfOne(v: VaccineRow)
    ensures Pending([v]) == (if v.aplicada then [] else [v])
    ensures Applied([v]) == (if v.aplicada then [v] else [])
  {
    assert [v][1..] == [];
  }

  /** Every row is either applied or pending: the counts add up to the total. */
  lemma {:induction false} AppliedPlusPending(rows: seq<VaccineRow>)
    ensures |Applied(rows)| + |Pending(rows)| == |rows|
  {
    if rows != [] {
      AppliedPlusPending(rows[1..]);
    }
  }

  /** A fresh card has every row pending and none applied. */
  lemma {:induction false} InitialRowsAllPending(calendar: seq<CalendarEntry>)
    ensures Pending(InitialRows(calendar)) == InitialRows(calendar)
    ensures Applied(InitialRows(calendar)) == []
  {
    var rows := InitialRows(calendar);
    if calendar != [] {
      assert forall i :: 0 <= i < |rows| ==> !rows[i].aplicada;
      NoneAppliedAllPending(rows);
    }
  }

  lemma {:induction false} NoneAppliedAllPending(rows: seq<VaccineRow>)
    requires forall i :: 0 <= i < |rows| ==> !rows[i].aplicada
    ensures Pending(rows) == rows && Applied(rows) == []
  {
    if rows != [] {
      NoneAppliedAllPending(rows[1..]);
      assert [rows[0]] + rows[1..] == rows;
    }
  }

  /** `calcularCobertura()` before rounding: the applied share in percent, 0 for an empty card. */
  function Coverage(rows: seq<VaccineRow>): (r: real)
    ensures 0.0 <= r <= 100.0
    ensures rows == [] ==> r == 0.0
  {
    AppliedPlusPending(rows);
    if |rows| == 0 then 0.0
    else
      PercentBounds(|Applied(rows)|, |rows|);
      Percent(|Applied(rows)|, |rows|)
  }

  function Percent(a: nat, n: nat): real
    requires n > 0
  {
    (a as real / n as real) * 100.0
  }

  /** A share of `a` out of `n` lies between 0 and 100 and is 100 exactly when `a == n`. */
  lemma PercentBounds(a: nat, n: nat)
    requires 0 < n && a <= n
    ensures 0.0 <= Percent(a, n) <= 100.0
    ensures Percent(a, n) == 100.0 <==> a == n
  {
    var q := a as real / n as real;
    assert q * (n as real) == a as real;
    assert (1.0 - q) * (n as real) == (n - a) as real;
  }

  /** Coverage is full exactly when a non-empty card has nothing pending. */
  lemma FullCoverage(rows: seq<VaccineRow>)
    ensures Coverage(rows) == 100.0 <==> rows != [] && Pending(rows) == []
  {
    AppliedPlusPending(rows);
    if rows != [] {
      PercentBounds(|Applied(rows)|, |rows|);
    }
  }

  /** `handleToggleVacina` on one row: flip the flag; the application date becomes today, or '' when unmarked. */
  function Toggle(v: VaccineRow, today: string): (r: VaccineRow)
    ensures r.id == v.id && r.vacina == v.vacina && r.aplicada == !v.aplicada
    ensures Get(r.details, "dataAplicacao") == if r.aplicada then today else ""
    ensures forall f :: f != "dataAplicacao" ==> Get(r.details, f) == Get(v.details, f)
  {
    VaccineRow(v.id, v.vacina, !v.aplicada, v.details["dataAplicacao" := if !v.aplicada then today else ""])
  }

  /** The card after a toggle: every row carrying `id` flipped, the others unchanged. */
  function ToggleRows(rows: seq<VaccineRow>, id: int, today: string): seq<VaccineRow>
  {
    MapById(rows, RowId, id, (v: VaccineRow) => Toggle(v, today))
  }

  /** Toggling twice restores every flag; a row that started unapplied ends with an empty date. */
  lemma ToggleTwice(rows: seq<VaccineRow>, id: int, today: string, later: string)
    ensures |ToggleRows(ToggleRows(rows, id, today), id, later)| == |rows|
    ensures forall i :: 0 <= i < |rows| ==> ToggleRows(ToggleRows(rows, id, today), id, later)[i].aplicada == rows[i].aplicada
    ensures forall i :: 0 <= i < |rows| && rows[i].id == id && !rows[i].aplicada ==>
      Get(ToggleRows(ToggleRows(rows, id, today), id, later)[i].details, "dataAplicacao") == ""
  {
    var once := ToggleRows(rows, id, today);
    var twice := ToggleRows(once, id, later);
    forall i | 0 <= i < |rows|
      ensures twice[i].aplicada == rows[i].aplicada
      ensures rows[i].id == id && !rows[i].aplicada ==> Get(twice[i].details, "dataAplicacao") == ""
    {
      assert once[i].id == rows[i].id;
    }
  }

  /** `handleVacinaChange` on the card: one detail field of every row carrying `id`. */
  function ChangeRows(rows: seq<VaccineRow>, id: int, field: string, value: string): (r: seq<VaccineRow>)
    ensures |r| == |rows|
    ensures forall i :: 0 <= i < |rows| && rows[i].id != id ==> r[i] == rows[i]
    ensures forall i :: 0 <= i < |rows| && rows[i].id == id ==>
      r[i].id == id && r[i].vacina == rows[i].vacina && r[i].aplicada == rows[i].aplicada
      && Get(r[i].details, field) == value
      && forall f :: f != field ==> Get(r[i].details, f) == Get(rows[i].details, f)
  {
    MapById(rows, RowId, id, (v: VaccineRow) => v.(details := v.details[field := value]))
  }

  /** The guard of `handleVacinaChange`: without permission only the application date may change. */
  function ChangeAllowed(canEdit: bool, field: string): (r: bool)
    ensures r <==> canEdit || field == "dataAplicacao"
  {
    !(!canEdit && field != "dataAplicacao")
  }

  /** A toggle never changes which rows are on the card or how many there are. */
  lemma ToggleKeepsCalendar(rows: seq<VaccineRow>, id: int, today: string)
    ensures |ToggleRows(rows, id, today)| == |rows|
    ensures forall i :: 0 <= i < |rows| ==>
      ToggleRows(rows, id, today)[i].id == rows[i].id && ToggleRows(rows, id, today)[i].vacina == rows[i].vacina
  {
  }

  /** Toggling an unapplied row with a fresh id adds exactly one applied vaccine. */
  lemma {:induction false} ToggleAddsOneApplied(rows: seq<VaccineRow>, k: nat, today: string)
    requires k < |rows| && !rows[k].aplicada
    requires forall i :: 0 <= i < |rows| && i != k ==> rows[i].id != rows[k].id
    ensures |Applied(ToggleRows(rows, rows[k].id, today))| == |Applied(rows)| + 1
  {
    var id := rows[k].id;
    var r := ToggleRows(rows, id, today);
    if k == 0 {
      assert r[1..] == ToggleRows(rows[1..], id, today);
      UntouchedApplied(rows[1..], id, today);
    } else {
      assert r[1..] == ToggleRows(rows[1..], id, today);
      ToggleAddsOneApplied(rows[1..], k - 1, today);
    }
  }

  /** A toggle of an id no row carries changes nothing. */
  lemma {:induction false} UntouchedApplied(rows: seq<VaccineRow>, id: int, today: string)
    requires forall i :: 0 <= i < |rows| ==> rows[i].id != id
    ensures ToggleRows(rows, id, today) == rows
  {
  }

  function LoadedRows(v: Option<Value>, calendar: seq<CalendarEntry>): seq<VaccineRow>
  {
    match v
    case Some(VaccinesDoc(rows)) => rows
    case _ => InitialRows(calendar)
  }

  class VaccinationCard {
    const store: Store
    const pacienteId: string
    var vacinas: seq<VaccineRow>

    /** Mount: the stored card, or the calendar rows (not written until the first change); nothing without an id. */
    constructor Mount(store: Store, pacienteId: string, calendar: seq<CalendarEntry>)
      ensures this.store == store && this.pacienteId == pacienteId
      ensures pacienteId == "" ==> vacinas == []
      ensures pacienteId != "" ==> vacinas == LoadedRows(store.GetRecord("vacinas", pacienteId), calendar)
    {
      this.store := store;
      this.pacienteId := pacienteId;
      vacinas := if pacienteId == "" then [] else LoadedRows(store.GetRecord("vacinas", pacienteId), calendar);
    }

    /** `handleVacinaChange(id, field, value)`. */
    method HandleVacinaChange(id: int, field: string, value: string, canEdit: bool) returns (outcome: Outcome)
      modifies this, store
      ensures outcome == (if ChangeAllowed(canEdit, field) then Done else Denied)
      ensures outcome != Done ==> vacinas == old(vacinas) && store.data == old(store.data)
      ensures outcome == Done ==>
        vacinas == ChangeRows(old(vacinas), id, field, value)
        && store.data == old(store.data)[RecordKey("vacinas", pacienteId) := VaccinesDoc(vacinas)]
    {
      if !ChangeAllowed(canEdit, field) {
        return Denied;
      }
      vacinas := ChangeRows(vacinas, id, field, value);
      store.SetItem(RecordKey("vacinas", pacienteId), VaccinesDoc(vacinas));
      outcome := Done;
    }

    /** `handleToggleVacina(id)`. */
    method HandleToggleVacina(id: int, canEdit: bool, today: string) returns (outcome: Outcome)
      modifies this, store
      ensures outcome == (if canEdit then Done else Denied)
      ensures !canEdit ==> vacinas == old(vacinas) && store.data == old(store.data)
      ensures canEdit ==>
        vacinas == ToggleRows(old(vacinas), id, today)
        && store.data == old(store.data)[RecordKey("vacinas", pacienteId) := VaccinesDoc(vacinas)]
    {
      if !canEdit {
        return Denied;
      }
      vacinas := ToggleRows(vacinas, id, today);
      store.SetItem(RecordKey("vacinas", pacienteId), VaccinesDoc(vacinas));
      outcome := Done;
    }
  }
}
