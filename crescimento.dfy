/**
 * Growth and development: the measurement list under `crescimento-<id>`, kept
 * sorted by date; the checked milestones under `marcos-<id>`; and the free-text
 * medical history under `historico-medico-<id>`.
 */
module Crescimento {
  import opened Wrappers
  import opened Seqs
  import opened Records
  import opened Storage
  import opened Dates

  // ---------------------------------------------------------------- measurements

  /** The blank measurement draft, dated `today`. */
  function BlankMeasurement(today: string): Fields
  {
    map["data" := today, "peso" := "", "altura" := "", "perimetroCefalico" := "", "imc" := ""]
  }

  function MeasurementId(m: Measurement): int
  {
    m.id
  }

  /** The measurement date as a number, `None` for an Invalid Date. */
  function DateKey(m: Measurement): Option<int>
  {
    match ParseIsoDate(Get(m.fields, "data"))
    case Some(d) => Some(Ordinal(d))
    case None => None
  }

  /** The sort comparator `new Date(a.data) - new Date(b.data)` is positive; NaN compares as equal. */
  predicate After(a: Measurement, b: Measurement)
  {
    DateKey(a).Some? && DateKey(b).Some? && DateKey(a).value > DateKey(b).value
  }

  /** One insertion step of a stable sort: `x` goes after every element not later than it. */
  function Insert(x: Measurement, s: seq<Measurement>): (r: seq<Measurement>)
    ensures |r| == |s| + 1
    ensures multiset(r) == multiset(s) + multiset{x}
  {
    if s == [] then [x]
    else
      var pre := s[..|s| - 1];
      var last := s[|s| - 1];
      assert s == pre + [last];
      if After(last, x) then Insert(x, pre) + [last] else s + [x]
  }

  /** `list.sort(byDate)` as a stable sort. */
  function SortByDate(s: seq<Measurement>): (r: seq<Measurement>)
    ensures |r| == |s|
    ensures multiset(r) == multiset(s)
  {
    if s == [] then []
    else
      var pre := s[..|s| - 1];
      assert s == pre + [s[|s| - 1]];
      Insert(s[|s| - 1], SortByDate(pre))
  }

  /** Every measurement carries a readable date. */
  predicate Dated(s: seq<Measurement>)
  {
    forall i :: 0 <= i < |s| ==> DateKey(s[i]).Some?
  }

  /** No measurement comes after a later-dated one. */
  predicate Sorted(s: seq<Measurement>)
  {
    forall i, j :: 0 <= i < j < |s| ==> !After(s[i], s[j])
  }

  /** Inserting a dated measurement into a sorted dated list keeps it sorted. */
  lemma {:induction false} InsertKeepsSorted(x: Measurement, s: seq<Measurement>)
    requires Dated(s) && DateKey(x).Some? && Sorted(s)
    ensures Sorted(Insert(x, s))
  {
    if s != [] {
      var pre := s[..|s| - 1];
      var last := s[|s| - 1];
      if After(last, x) {
        InsertKeepsSorted(x, pre);
        var q := Insert(x, pre);
        forall y | y in q ensures !After(y, last) {
          assert y in multiset(q);
          if y != x {
            var i :| 0 <= i < |pre| && pre[i] == y;
            assert s[i] == y;
          }
        }
        forall i, j | 0 <= i < j < |q| + 1 ensures !After((q + [last])[i], (q + [last])[j]) {
          if j == |q| {
            assert (q + [last])[i] == q[i];
            assert q[i] in q;
          } else {
            assert (q + [last])[i] == q[i] && (q + [last])[j] == q[j];
          }
        }
      } else {
        forall i, j | 0 <= i < j < |s| + 1 ensures !After((s + [x])[i], (s + [x])[j]) {
          if j == |s| && i < |s| - 1 {
            assert !After(s[i], s[|s| - 1]);
          }
        }
      }
    }
  }

  /** With every date readable, the sort yields a chronologically ordered permutation. */
  lemma {:induction false} SortByDateSorts(s: seq<Measurement>)
    requires Dated(s)
    ensures Sorted(SortByDate(s)) && multiset(SortByDate(s)) == multiset(s)
    ensures Dated(SortByDate(s))
  {
    if s != [] {
      var pre := s[..|s| - 1];
      assert Dated(pre);
      SortByDateSorts(pre);
      InsertKeepsSorted(s[|s| - 1], SortByDate(pre));
    }
    var r := SortByDate(s);
    forall i | 0 <= i < |r| ensures DateKey(r[i]).Some? {
      assert r[i] in multiset(s);
      var j :| 0 <= j < |s| && s[j] == r[i];
    }
  }

  /** Sorting an already sorted list changes nothing. */
  lemma {:induction false} SortByDateOfSorted(s: seq<Measurement>)
    requires Sorted(s)
    ensures SortByDate(s) == s
  {
    if s != [] {
      var pre := s[..|s| - 1];
      var last := s[|s| - 1];
      assert Sorted(pre);
      SortByDateOfSorted(pre);
      assert SortByDate(s) == Insert(last, pre);
      if |pre| > 0 {
        assert !After(pre[|pre| - 1], last);
      }
      InsertAtEnd(last, pre);
      assert pre + [last] == s;
    }
  }

  /** A measurement not earlier than the last one goes at the end. */
  lemma InsertAtEnd(x: Measurement, s: seq<Measurement>)
    requires s == [] || !After(s[|s| - 1], x)
    ensures Insert(x, s) == s + [x]
  {
  }

  /** The stored record: the draft with its BMI text, the age in months and the id `Date.now()`. */
  function NewMeasurement(draft: Fields, imc: string, dataNascimento: string, now: int): (m: Measurement)
    ensures m.id == now && Get(m.fields, "imc") == imc
    ensures m.idadeMeses == AgeInMonths(dataNascimento, Get(draft, "data"))
    ensures forall f :: f != "imc" ==> Get(m.fields, f) == Get(draft, f)
  {
    Measurement(now, draft["imc" := imc], AgeInMonths(dataNascimento, Get(draft, "data")))
  }

  /** The list after `handleAddMedicao`: the old list plus the new record, sorted by date. */
  function AddMeasurement(s: seq<Measurement>, m: Measurement): (r: seq<Measurement>)
    ensures |r| == |s| + 1 && multiset(r) == multiset(s) + multiset{m}
  {
    assert multiset(s + [m]) == multiset(s) + multiset{m};
    SortByDate(s + [m])
  }

  /** On a sorted list, adding a measurement is one insertion at its place by date. */
  lemma AddToSortedList(s: seq<Measurement>, m: Measurement)
    requires Sorted(s)
    ensures AddMeasurement(s, m) == Insert(m, s)
  {
    SortByDateOfSorted(s);
    assert (s + [m])[..|s|] == s;
  }

  /** A dated measurement added to a sorted dated list leaves it sorted and dated. */
  lemma AddKeepsChronology(s: seq<Measurement>, m: Measurement)
    requires Sorted(s) && Dated(s) && DateKey(m).Some?
    ensures Sorted(AddMeasurement(s, m)) && Dated(AddMeasurement(s, m))
  {
    assert Dated(s + [m]);
    SortByDateSorts(s + [m]);
  }

  /** `handleAddMedicao` demands a weight and a height. */
  const RequiredFields := ["peso", "altura"]

  // ---------------------------------------------------------------- milestones

  function MilestoneKey(m: Milestone): (string, string)
  {
    (m.faixaEtaria, m.marco)
  }

  /** `isMarcoChecked(faixa, marco)`: some entry has that age band and milestone. */
  predicate IsMarcoChecked(ms: seq<Milestone>, faixa: string, marco: string)
  {
    exists i :: 0 <= i < |ms| && MilestoneKey(ms[i]) == (faixa, marco)
  }

  /** The list after `handleMarcoChange`: append a dated entry, or drop every entry of the pair. */
  function ToggleMilestone(ms: seq<Milestone>, faixa: string, marco: string, checked: bool, today: string): seq<Milestone>
  {
    if checked then ms + [Milestone(faixa, marco, today)]
    else RemoveById(ms, MilestoneKey, (faixa, marco))
  }

  /** After the change the checkbox reads back what was set, and entries of other pairs are untouched. */
  lemma ToggleMilestoneAgrees(ms: seq<Milestone>, faixa: string, marco: string, checked: bool, today: string)
    ensures IsMarcoChecked(ToggleMilestone(ms, faixa, marco, checked, today), faixa, marco) == checked
    ensures forall m :: MilestoneKey(m) != (faixa, marco) ==>
      (m in ToggleMilestone(ms, faixa, marco, checked, today) <==> m in ms)
  {
    var r := ToggleMilestone(ms, faixa, marco, checked, today);
    if checked {
      assert MilestoneKey(r[|ms|]) == (faixa, marco);
    } else {
      RemoveByIdMembers(ms, MilestoneKey, (faixa, marco));
      forall i | 0 <= i < |r| ensures MilestoneKey(r[i]) != (faixa, marco) {
        assert r[i] in r;
      }
    }
  }

  // ---------------------------------------------------------------- the component

  function LoadedMeasurements(v: Option<Value>): seq<Measurement>
  {
    match v
    case Some(MeasurementsDoc(ms)) => ms
    case _ => []
  }

  function LoadedMilestones(v: Option<Value>): seq<Milestone>
  {
    match v
    case Some(MilestonesDoc(ms)) => ms
    case _ => []
  }

  class GrowthChart {
    const store: Store
    const pacienteId: string
    var medicoes: seq<Measurement>
    var novaMedicao: Fields
    var marcos: seq<Milestone>

    /** Mount: load the stored measurements and milestones. */
    constructor Mount(store: Store, pacienteId: string, today: string)
      ensures this.store == store && this.pacienteId == pacienteId
      ensures medicoes == LoadedMeasurements(store.GetRecord("crescimento", pacienteId))
      ensures marcos == LoadedMilestones(store.GetRecord("marcos", pacienteId))
      ensures novaMedicao == BlankMeasurement(today)
    {
      this.store := store;
      this.pacienteId := pacienteId;
      medicoes := LoadedMeasurements(store.GetRecord("crescimento", pacienteId));
      marcos := LoadedMilestones(store.GetRecord("marcos", pacienteId));
      novaMedicao := BlankMeasurement(today);
    }

    /**
     * `handleAddMedicao`. The BMI text is computed outside the model from the
     * floating-point height and weight and passed in as `imc`.
     */
    method HandleAddMedicao(canEdit: bool, imc: string, dataNascimento: string, now: int, today: string)
      returns (outcome: Outcome)
      modifies this, store
      ensures outcome == RequiredCheck(canEdit, old(novaMedicao), RequiredFields)
      ensures outcome != Done ==>
        medicoes == old(medicoes) && novaMedicao == old(novaMedicao) && store.data == old(store.data)
      ensures outcome == Done ==>
        medicoes == AddMeasurement(old(medicoes), NewMeasurement(old(novaMedicao), imc, dataNascimento, now))
        && store.data == old(store.data)[RecordKey("crescimento", pacienteId) := MeasurementsDoc(medicoes)]
        && novaMedicao == BlankMeasurement(today)
      ensures marcos == old(marcos)
    {
      outcome := RequiredCheck(canEdit, novaMedicao, RequiredFields);
      if outcome != Done {
        return;
      }
      medicoes := AddMeasurement(medicoes, NewMeasurement(novaMedicao, imc, dataNascimento, now));
      store.SetItem(RecordKey("crescimento", pacienteId), MeasurementsDoc(medicoes));
      novaMedicao := BlankMeasurement(today);
    }

    /** `handleRemoveMedicao(id)`. */
    method HandleRemoveMedicao(id: int, canEdit: bool, confirmed: bool) returns (outcome: Outcome)
      modifies this, store
      ensures outcome == RemoveCheck(canEdit, confirmed)
      ensures outcome != Done ==> medicoes == old(medicoes) && store.data == old(store.data)
      ensures outcome == Done ==>
        medicoes == RemoveById(old(medicoes), MeasurementId, id)
        && store.data == old(store.data)[RecordKey("crescimento", pacienteId) := MeasurementsDoc(medicoes)]
      ensures marcos == old(marcos) && novaMedicao == old(novaMedicao)
    {
      outcome := RemoveCheck(canEdit, confirmed);
      if outcome != Done {
        return;
      }
      medicoes := RemoveById(medicoes, MeasurementId, id);
      store.SetItem(RecordKey("crescimento", pacienteId), MeasurementsDoc(medicoes));
    }

    /** `handleMarcoChange(faixa, marco, checked)`: silently ignored without permission. */
    method HandleMarcoChange(faixa: string, marco: string, checked: bool, canEdit: bool, today: string)
      modifies this, store
      ensures !canEdit ==> marcos == old(marcos) && store.data == old(store.data)
      ensures canEdit ==>
        marcos == ToggleMilestone(old(marcos), faixa, marco, checked, today)
        && store.data == old(store.data)[RecordKey("marcos", pacienteId) := MilestonesDoc(marcos)]
      ensures medicoes == old(medicoes) && novaMedicao == old(novaMedicao)
    {
      if !canEdit {
        return;
      }
      marcos := ToggleMilestone(marcos, faixa, marco, checked, today);
      store.SetItem(RecordKey("marcos", pacienteId), MilestonesDoc(marcos));
    }
  }

  // ---------------------------------------------------------------- medical history

  const BlankHistory: Fields := map["periodo_0_12" := "", "periodo_12_24" := "", "periodo_24_36" := ""]

  function LoadedHistory(v: Option<Value>): Fields
  {
    match v
    case Some(FieldsDoc(f)) => f
    case _ => BlankHistory
  }

  /** The per-period medical history, saved on every keystroke. */
  class MedicalHistory {
    const store: Store
    const pacienteId: string
    var historico: Fields

    constructor Mount(store: Store, pacienteId: string)
      ensures this.store == store && this.pacienteId == pacienteId
      ensures historico == LoadedHistory(store.GetRecord("historico-medico", pacienteId))
    {
      this.store := store;
      this.pacienteId := pacienteId;
      historico := LoadedHistory(store.GetRecord("historico-medico", pacienteId));
    }

    /** `handleChange(campo, valor)`: no permission check in the handler itself. */
    method HandleChange(campo: string, valor: string)
      modifies this, store
      ensures historico == old(historico)[campo := valor]
      ensures store.data == old(store.data)[RecordKey("historico-medico", pacienteId) := FieldsDoc(historico)]
    {
      historico := historico[campo := valor];
      store.SetItem(RecordKey("historico-medico", pacienteId), FieldsDoc(historico));
    }
  }
}
