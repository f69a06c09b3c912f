/**
 * The registration form of one patient: the record under `paciente-<id>`,
 * saving it (gated by `cadastro.update`) and deleting the patient (gated by
 * `cadastro.delete`), which removes every stored key containing the id and then
 * drops the patient from the roster.
 */
module Cadastro {
  import opened Wrappers
  import opened Text
  import opened Seqs
  import opened Records
  import opened Storage
  import opened App

  /** The blank registration form. */
  const DefaultForm: Fields := map[
    "nome" := "", "dataNascimento" := "", "sexo" := "M", "nomeMae" := "", "nomePai" := "",
    "telefone" := "", "email" := "", "endereco" := "", "cidade" := "", "estado" := "",
    "cep" := "", "planoSaude" := "", "numeroCarteirinha" := "", "observacoes" := ""]

  /** The form the component starts from: the stored record, or the blank form. */
  function LoadedForm(v: Option<Value>): Fields
  {
    match v
    case Some(FieldsDoc(f)) => f
    case _ => DefaultForm
  }

  /** `handleSave` demands a name and a birth date. */
  const RequiredFields := ["nome", "dataNascimento"]

  /** The store after a confirmed delete: no key containing the id, then the shortened roster. */
  function AfterDelete(d: Data, id: string, roster: seq<Patient>): (r: Data)
    ensures forall k :: k != RosterKey ==> (k in r <==> k in d && !Contains(k, id))
    ensures forall k :: k != RosterKey && k in r ==> r[k] == d[k]
    ensures RosterKey in r && r[RosterKey] == RosterDoc(RemoveById(roster, PatientId, id))
  {
    WithoutKeysContaining(d, id)[RosterKey := RosterDoc(RemoveById(roster, PatientId, id))]
  }

  /** Deleting `p_1` also deletes the growth record of `p_12`. */
  lemma DeleteReachesLongerIds(d: Data, roster: seq<Patient>)
    requires RecordKey("crescimento", "p_12") in d
    ensures RecordKey("crescimento", "p_12") !in AfterDelete(d, "p_1", roster)
  {
    PatientIdCollision();
  }

  class CadastroForm {
    const app: MainApp
    const pacienteId: string
    var dados: Fields

    /** Mount: load `paciente-<id>` if stored. */
    constructor Mount(app: MainApp, pacienteId: string)
      ensures this.app == app && this.pacienteId == pacienteId
      ensures dados == LoadedForm(app.store.GetRecord("paciente", pacienteId))
    {
      this.app := app;
      this.pacienteId := pacienteId;
      dados := LoadedForm(app.store.GetRecord("paciente", pacienteId));
    }

    /** `handleChange(field, value)`: one field of the form, nothing stored. */
    method HandleChange(field: string, value: string)
      modifies this
      ensures dados == old(dados)[field := value]
    {
      dados := dados[field := value];
    }

    /** `handleSave`: write `paciente-<id>`, then hand the form to the roster. */
    method HandleSave(canEdit: bool) returns (outcome: Outcome)
      requires app.atual.Some?
      modifies app, app.store
      ensures outcome == RequiredCheck(canEdit, dados, RequiredFields)
      ensures outcome != Done ==>
        app.store.data == old(app.store.data) && app.pacientes == old(app.pacientes) && app.atual == old(app.atual)
      ensures outcome == Done ==>
        app.store.data == old(app.store.data)[RecordKey("paciente", pacienteId) := FieldsDoc(dados)]
                                             [RosterKey := RosterDoc(app.pacientes)]
        && app.pacientes == SaveInRoster(old(app.pacientes), old(app.atual).value.id, dados)
        && app.atual == Some(Patient(old(app.atual).value.id, old(app.atual).value.fields + dados))
    {
      outcome := RequiredCheck(canEdit, dados, RequiredFields);
      if outcome != Done {
        return;
      }
      app.store.SetItem(RecordKey("paciente", pacienteId), FieldsDoc(dados));
      app.SaveCadastro(dados);
    }

    /** The first loop of `handleDelete`: every stored key containing the id. */
    method KeysToRemove() returns (keys: seq<string>)
      ensures forall k :: k in keys <==> k in app.store.data && Contains(k, pacienteId)
    {
      keys := [];
      var remaining := app.store.data.Keys;
      while remaining != {}
        invariant remaining <= app.store.data.Keys
        invariant forall k :: k in keys <==> k in app.store.data && k !in remaining && Contains(k, pacienteId)
        decreases remaining
      {
        var k :| k in remaining;
        if Contains(k, pacienteId) {
          keys := keys + [k];
        }
        remaining := remaining - {k};
      }
    }

    /** The second loop of `handleDelete`: remove each collected key. */
    method RemoveKeys(keys: seq<string>)
      modifies app.store
      ensures app.store.data == map k | k in old(app.store.data) && k !in keys :: old(app.store.data)[k]
    {
      var i := 0;
      while i < |keys|
        invariant 0 <= i <= |keys|
        invariant app.store.data == map k | k in old(app.store.data) && k !in keys[..i] :: old(app.store.data)[k]
      {
        app.store.RemoveItem(keys[i]);
        assert forall k :: k in keys[..i + 1] <==> k in keys[..i] || k == keys[i];
        i := i + 1;
      }
      assert keys[..i] == keys;
    }

    /** `handleDelete`: the cascade over every key containing the id, then `onDelete`. */
    method HandleDelete(canDelete: bool, confirmed: bool) returns (outcome: Outcome)
      modifies app, app.store
      ensures outcome == RemoveCheck(canDelete, confirmed)
      ensures outcome != Done ==>
        app.store.data == old(app.store.data) && app.pacientes == old(app.pacientes) && app.atual == old(app.atual)
      ensures outcome == Done ==>
        app.store.data == AfterDelete(old(app.store.data), pacienteId, old(app.pacientes))
        && app.pacientes == RemoveById(old(app.pacientes), PatientId, pacienteId) && app.atual.None?
    {
      outcome := RemoveCheck(canDelete, confirmed);
      if outcome != Done {
        return;
      }
      var keys := KeysToRemove();
      RemoveKeys(keys);
      assert app.store.data == WithoutKeysContaining(old(app.store.data), pacienteId);
      app.DeletePaciente(pacienteId);
    }
  }
}
