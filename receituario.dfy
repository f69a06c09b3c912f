/**
 * Prescriptions: the draft with its medication lines, saving a prescription
 * (gated by `receituario.write`, which keeps only the named medications and
 * prepends it to `receitas-<id>`) and removing one by id.
 */
module Receituario {
  import opened Wrappers
  import opened Seqs
  import opened Records
  import opened Storage

  /** A blank medication line. */
  const BlankMedication: Fields := map[
    "nome" := "", "dosagem" := "", "via" := "oral", "frequencia" := "", "duracao" := "", "observacoes" := ""]

  /** The prescription being written. */
  datatype Draft = Draft(data: string, medicamentos: seq<Fields>, orientacoes: string, retorno: string)

  /** The draft the form starts from and returns to after a save: one blank line, dated `today`. */
  function BlankDraft(today: string): Draft
  {
    Draft(today, [BlankMedication], "", "")
  }

  /** A medication line whose name is filled in (`m.nome` is truthy). */
  predicate Named(m: Fields)
  {
    Get(m, "nome") != ""
  }

  /** `medicamentos.filter(m => m.nome)`. */
  function NamedMedications(ms: seq<Fields>): (r: seq<Fields>)
    ensures |r| <= |ms|
  {
    if ms == [] then []
    else (if Named(ms[0]) then [ms[0]] else []) + NamedMedications(ms[1..])
  }

  /** The filter keeps exactly the named lines. */
  lemma {:induction false} NamedMedicationsMembers(ms: seq<Fields>)
    ensures forall m :: m in NamedMedications(ms) <==> m in ms && Named(m)
  {
    if ms != [] {
      NamedMedicationsMembers(ms[1..]);
      assert ms == [ms[0]] + ms[1..];
    }
  }

  /** The filter keeps the original order: it distributes over concatenation. */
  lemma {:induction false} NamedMedicationsConcat(a: seq<Fields>, b: seq<Fields>)
    ensures NamedMedications(a + b) == NamedMedications(a) + NamedMedications(b)
  {
    if a == [] {
      assert a + b == b;
    } else {
      var head := if Named(a[0]) then [a[0]] else [];
      assert (a + b)[0] == a[0];
      assert (a + b)[1..] == a[1..] + b;
      NamedMedicationsConcat(a[1..], b);
      assert NamedMedications(a + b) == head + (NamedMedications(a[1..]) + NamedMedications(b));
      assert NamedMedications(a) == head + NamedMedications(a[1..]);
      assert head + (NamedMedications(a[1..]) + NamedMedications(b))
          == (head + NamedMedications(a[1..])) + NamedMedications(b);
    }
  }

  /** A list of named lines passes the filter unchanged. */
  lemma {:induction false} NamedMedicationsOfNamed(ms: seq<Fields>)
    requires forall i :: 0 <= i < |ms| ==> Named(ms[i])
    ensures NamedMedications(ms) == ms
  {
    if ms != [] {
      NamedMedicationsOfNamed(ms[1..]);
    }
  }

  /** The checks of `handleSaveReceita`, in order: permission, then at least one named medication. */
  function SaveCheck(canEdit: bool, d: Draft): (r: Outcome)
    ensures r == Done <==> canEdit && exists i :: 0 <= i < |d.medicamentos| && Named(d.medicamentos[i])
    ensures !canEdit ==> r == Denied
    ensures canEdit && r != Done ==> r == Rejected
  {
    NamedMedicationsMembers(d.medicamentos);
    if !canEdit then Denied
    else if NamedMedications(d.medicamentos) == [] then
      assert forall i :: 0 <= i < |d.medicamentos| ==> d.medicamentos[i] in d.medicamentos;
      Rejected
    else
      assert NamedMedications(d.medicamentos)[0] in NamedMedications(d.medicamentos);
      Done
  }

  /** The stored prescription: the draft, the id `Date.now()`, and only its named medications. */
  function NewPrescription(d: Draft, now: int): (p: Prescription)
    ensures p.id == now && p.data == d.data && p.orientacoes == d.orientacoes && p.retorno == d.retorno
    ensures forall m :: m in p.medicamentos <==> m in d.medicamentos && Named(m)
  {
    NamedMedicationsMembers(d.medicamentos);
    Prescription(now, d.data, NamedMedications(d.medicamentos), d.orientacoes, d.retorno)
  }

  /** A prescription that passed the checks carries at least one medication, all of them named. */
  lemma SavedPrescriptionHasMedication(canEdit: bool, d: Draft, now: int)
    requires SaveCheck(canEdit, d) == Done
    ensures |NewPrescription(d, now).medicamentos| >= 1
    ensures forall i :: 0 <= i < |NewPrescription(d, now).medicamentos| ==> Named(NewPrescription(d, now).medicamentos[i])
  {
    var i :| 0 <= i < |d.medicamentos| && Named(d.medicamentos[i]);
    assert d.medicamentos[i] in NewPrescription(d, now).medicamentos;
    var ms := NewPrescription(d, now).medicamentos;
    forall j | 0 <= j < |ms| ensures Named(ms[j]) {
      assert ms[j] in ms;
    }
  }

  /** `handleAddMedicamento`: one more blank line at the end. */
  function AddLine(d: Draft): (r: Draft)
    ensures |r.medicamentos| == |d.medicamentos| + 1
    ensures r.medicamentos[..|d.medicamentos|] == d.medicamentos && r.medicamentos[|d.medicamentos|] == BlankMedication
    ensures r.(medicamentos := d.medicamentos) == d
  {
    d.(medicamentos := d.medicamentos + [BlankMedication])
  }

  /** `medicamentos.filter((_, i) => i !== index)`. */
  function RemoveAt(ms: seq<Fields>, index: int): (r: seq<Fields>)
    ensures 0 <= index < |ms| ==> r == ms[..index] + ms[index + 1..]
    ensures !(0 <= index < |ms|) ==> r == ms
  {
    if ms == [] then []
    else
      var rest := RemoveAt(ms[1..], index - 1);
      assert index > 0 && index < |ms| ==> ms[1..][..index - 1] + ms[1..][index..] == ms[1..index] + ms[index + 1..];
      (if index == 0 then [] else [ms[0]]) + rest
  }

  /** Removing the line just added gives back the lines as they were. */
  lemma RemoveAddedLine(d: Draft)
    ensures RemoveAt(AddLine(d).medicamentos, |d.medicamentos|) == d.medicamentos
  {
    assert (d.medicamentos + [BlankMedication])[..|d.medicamentos|] == d.medicamentos;
  }

  /** `handleMedicamentoChange(index, field, value)`: one field of one line. */
  function ChangeLine(ms: seq<Fields>, index: int, field: string, value: string): (r: seq<Fields>)
    requires 0 <= index < |ms|
    ensures |r| == |ms| && Get(r[index], field) == value
    ensures forall i :: 0 <= i < |ms| && i != index ==> r[i] == ms[i]
    ensures forall f :: f != field ==> Get(r[index], f) == Get(ms[index], f)
  {
    ms[index := ms[index][field := value]]
  }

  function PrescriptionId(p: Prescription): int
  {
    p.id
  }

  function LoadedPrescriptions(v: Option<Value>): seq<Prescription>
  {
    match v
    case Some(PrescriptionsDoc(ps)) => ps
    case _ => []
  }

  class PrescriptionPad {
    const store: Store
    const pacienteId: string
    var receitas: seq<Prescription>
    var novaReceita: Draft

    /** Mount: load `receitas-<id>` if stored. */
    constructor Mount(store: Store, pacienteId: string, today: string)
      ensures this.store == store && this.pacienteId == pacienteId
      ensures receitas == LoadedPrescriptions(store.GetRecord("receitas", pacienteId))
      ensures novaReceita == BlankDraft(today)
    {
      this.store := store;
      this.pacienteId := pacienteId;
      receitas := LoadedPrescriptions(store.GetRecord("receitas", pacienteId));
      novaReceita := BlankDraft(today);
    }

    method HandleAddMedicamento()
      modifies this
      ensures novaReceita == AddLine(old(novaReceita)) && receitas == old(receitas)
    {
      novaReceita := AddLine(novaReceita);
    }

    method HandleRemoveMedicamento(index: int)
      modifies this
      ensures novaReceita == old(novaReceita).(medicamentos := RemoveAt(old(novaReceita).medicamentos, index))
      ensures receitas == old(receitas)
    {
      novaReceita := novaReceita.(medicamentos := RemoveAt(novaReceita.medicamentos, index));
    }

    /** A line that does not exist makes the source throw; the caller passes the index of a rendered line. */
    method HandleMedicamentoChange(index: int, field: string, value: string)
      requires 0 <= index < |novaReceita.medicamentos|
      modifies this
      ensures novaReceita == old(novaReceita).(medicamentos := ChangeLine(old(novaReceita).medicamentos, index, field, value))
      ensures receitas == old(receitas)
    {
      novaReceita := novaReceita.(medicamentos := ChangeLine(novaReceita.medicamentos, index, field, value));
    }

    /** `handleSaveReceita`: prepend the new prescription, write the list and reset the draft. */
    method HandleSaveReceita(canEdit: bool, now: int, today: string) returns (outcome: Outcome)
      modifies this, store
      ensures outcome == SaveCheck(canEdit, old(novaReceita))
      ensures outcome != Done ==>
        receitas == old(receitas) && novaReceita == old(novaReceita) && store.data == old(store.data)
      ensures outcome == Done ==>
        receitas == [NewPrescription(old(novaReceita), now)] + old(receitas)
        && store.data == old(store.data)[RecordKey("receitas", pacienteId) := PrescriptionsDoc(receitas)]
        && novaReceita == BlankDraft(today)
    {
      outcome := SaveCheck(canEdit, novaReceita);
      if outcome != Done {
        return;
      }
      receitas := [NewPrescription(novaReceita, now)] + receitas;
      store.SetItem(RecordKey("receitas", pacienteId), PrescriptionsDoc(receitas));
      novaReceita := BlankDraft(today);
    }

    /** `handleRemoveReceita(id)`: silently ignored without permission. */
    method HandleRemoveReceita(id: int, canEdit: bool, confirmed: bool) returns (outcome: Outcome)
      modifies this, store
      ensures outcome == RemoveCheck(canEdit, confirmed)
      ensures outcome != Done ==> receitas == old(receitas) && store.data == old(store.data)
      ensures outcome == Done ==>
        receitas == RemoveById(old(receitas), PrescriptionId, id)
        && store.data == old(store.data)[RecordKey("receitas", pacienteId) := PrescriptionsDoc(receitas)]
      ensures novaReceita == old(novaReceita)
    {
      outcome := RemoveCheck(canEdit, confirmed);
      if outcome != Done {
        return;
      }
      receitas := RemoveById(receitas, PrescriptionId, id);
      store.SetItem(RecordKey("receitas", pacienteId), PrescriptionsDoc(receitas));
    }
  }
}
