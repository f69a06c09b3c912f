/**
 * Well-child visits: each visit is prepended to `puericultura-<id>` (gated by
 * `puericultura.write`, a date is required) and can be removed by id.
 */
module Puericultura {
  import opened Wrappers
  import opened Seqs
  import opened Records
  import opened Storage

  /** The visit draft the form starts from and returns to after an add. */
  function BlankVisit(today: string): Fields
  {
    map["data" := today, "peso" := "", "altura" := "", "perimetroCefalico" := "", "temperatura" := "",
        "frequenciaCardiaca" := "", "frequenciaRespiratoria" := "", "avaliacaoGeral" := "", "queixas" := "",
        "conduta" := "", "retorno" := ""]
  }

  /** A visit needs its date. */
  const RequiredFields := ["data"]

  /** A fresh draft dated today passes the field check; one with its date cleared does not. */
  lemma BlankVisitNeedsOnlyDate(today: string)
    ensures RequiredCheck(true, BlankVisit(today), RequiredFields) == Done <==> today != ""
    ensures RequiredCheck(true, BlankVisit(today)["data" := ""], RequiredFields) == Rejected
  {
    assert Get(BlankVisit(today), "data") == today;
    assert Get(BlankVisit(today)["data" := ""], "data") == "";
  }

  /** Removing a visit just added under a fresh id gives back the earlier visits. */
  lemma RemoveAddedVisit(visits: seq<Entry>, draft: Fields, now: int)
    requires forall i :: 0 <= i < |visits| ==> visits[i].id != now
    ensures RemoveById([Entry(now, draft)] + visits, EntryId, now) == visits
  {
    RemoveByIdUndoesPrepend(Entry(now, draft), visits, EntryId);
  }

  class WellChildVisits {
    const store: Store
    const pacienteId: string
    var consultas: seq<Entry>
    var novaConsulta: Fields

    /** Mount: load `puericultura-<id>` if stored. */
    constructor Mount(store: Store, pacienteId: string, today: string)
      ensures this.store == store && this.pacienteId == pacienteId
      ensures consultas == LoadedEntries(store.GetRecord("puericultura", pacienteId))
      ensures novaConsulta == BlankVisit(today)
    {
      this.store := store;
      this.pacienteId := pacienteId;
      consultas := LoadedEntries(store.GetRecord("puericultura", pacienteId));
      novaConsulta := BlankVisit(today);
    }

    /** `handleAddConsulta`: prepend the draft with the id `Date.now()`, write, reset the draft. */
    method HandleAddConsulta(canEdit: bool, now: int, today: string) returns (outcome: Outcome)
      modifies this, store
      ensures outcome == RequiredCheck(canEdit, old(novaConsulta), RequiredFields)
      ensures outcome != Done ==>
        consultas == old(consultas) && novaConsulta == old(novaConsulta) && store.data == old(store.data)
      ensures outcome == Done ==>
        consultas == [Entry(now, old(novaConsulta))] + old(consultas)
        && store.data == old(store.data)[RecordKey("puericultura", pacienteId) := EntriesDoc(consultas)]
        && novaConsulta == BlankVisit(today)
    {
      outcome := RequiredCheck(canEdit, novaConsulta, RequiredFields);
      if outcome != Done {
        return;
      }
      consultas := [Entry(now, novaConsulta)] + consultas;
      store.SetItem(RecordKey("puericultura", pacienteId), EntriesDoc(consultas));
      novaConsulta := BlankVisit(today);
    }

    /** `handleRemoveConsulta(id)`: denied with an alert without permission. */
    method HandleRemoveConsulta(id: int, canEdit: bool, confirmed: bool) returns (outcome: Outcome)
      modifies this, store
      ensures outcome == RemoveCheck(canEdit, confirmed)
      ensures outcome != Done ==> consultas == old(consultas) && store.data == old(store.data)
      ensures outcome == Done ==>
        consultas == RemoveById(old(consultas), EntryId, id)
        && store.data == old(store.data)[RecordKey("puericultura", pacienteId) := EntriesDoc(consultas)]
      ensures novaConsulta == old(novaConsulta)
    {
      outcome := RemoveCheck(canEdit, confirmed);
      if outcome != Done {
        return;
      }
      consultas := RemoveById(consultas, EntryId, id);
      store.SetItem(RecordKey("puericultura", pacienteId), EntriesDoc(consultas));
    }
  }
}
