/**
 * Illness episodes and allergies: episodes are prepended to
 * `intercorrencias-<id>`, allergies appended to `alergias-<id>`, both gated by
 * `intercorrencias.write`, and either can be removed by id.
 */
module Intercorrencias {
  import opened Wrappers
  import opened Seqs
  import opened Records
  import opened Storage

  /** The episode draft the form starts from and returns to after an add. */
  function BlankEpisode(today: string): Fields
  {
    map["data" := today, "tipo" := "", "descricao" := "", "sintomasQueixas" := "", "exameFisico" := "",
        "hipoteseDiagnostica" := "", "tratamentoPrescrito" := "", "evolucao" := "", "status" := "em_tratamento"]
  }

  /** An episode needs a kind and a description. */
  const EpisodeRequired := ["tipo", "descricao"]

  const BlankAllergy: Fields := map["tipo" := "", "alergia" := "", "reacao" := ""]

  /** An allergy needs its name. */
  const AllergyRequired := ["alergia"]

  /** `getStatusLabel(status)`: the three known statuses have labels; anything else is shown as it is. */
  function StatusLabel(status: string): (r: string)
    ensures status == "em_tratamento" ==> r == "Em Tratamento"
    ensures status == "resolvido" ==> r == "Resolvido"
    ensures status == "em_acompanhamento" ==> r == "Em Acompanhamento"
    ensures status !in {"em_tratamento", "resolvido", "em_acompanhamento"} ==> r == status
  {
    var labels := map["em_tratamento" := "Em Tratamento", "resolvido" := "Resolvido",
                      "em_acompanhamento" := "Em Acompanhamento"];
    if status in labels then labels[status] else status
  }

  /** A fresh draft is shown as under treatment. */
  lemma BlankEpisodeUnderTreatment(today: string)
    ensures StatusLabel(Get(BlankEpisode(today), "status")) == "Em Tratamento"
    ensures RequiredCheck(true, BlankEpisode(today), EpisodeRequired) == Rejected
  {
    assert Get(BlankEpisode(today), "tipo") == "";
  }

  /** Removing an episode just added under a fresh id gives back the earlier list. */
  lemma RemoveAddedEpisode(episodes: seq<Entry>, draft: Fields, now: int)
    requires forall i :: 0 <= i < |episodes| ==> episodes[i].id != now
    ensures RemoveById([Entry(now, draft)] + episodes, EntryId, now) == episodes
  {
    RemoveByIdUndoesPrepend(Entry(now, draft), episodes, EntryId);
  }

  /** Removing an allergy just added under a fresh id gives back the earlier list. */
  lemma RemoveAddedAllergy(allergies: seq<Entry>, draft: Fields, now: int)
    requires forall i :: 0 <= i < |allergies| ==> allergies[i].id != now
    ensures RemoveById(allergies + [Entry(now, draft)], EntryId, now) == allergies
  {
    RemoveByIdUndoesAppend(allergies, Entry(now, draft), EntryId);
  }

  class EpisodeLog {
    const store: Store
    const pacienteId: string
    var intercorrencias: seq<Entry>
    var novaIntercorrencia: Fields
    var alergias: seq<Entry>
    var novaAlergia: Fields

    /** Mount: load both lists if stored. */
    constructor Mount(store: Store, pacienteId: string, today: string)
      ensures this.store == store && this.pacienteId == pacienteId
      ensures intercorrencias == LoadedEntries(store.GetRecord("intercorrencias", pacienteId))
      ensures alergias == LoadedEntries(store.GetRecord("alergias", pacienteId))
      ensures novaIntercorrencia == BlankEpisode(today) && novaAlergia == BlankAllergy
    {
      this.store := store;
      this.pacienteId := pacienteId;
      intercorrencias := LoadedEntries(store.GetRecord("intercorrencias", pacienteId));
      alergias := LoadedEntries(store.GetRecord("alergias", pacienteId));
      novaIntercorrencia := BlankEpisode(today);
      novaAlergia := BlankAllergy;
    }

    /** `handleAddIntercorrencia`: prepend the draft with the id `Date.now()`, write, reset the draft. */
    method HandleAddIntercorrencia(canEdit: bool, now: int, today: string) returns (outcome: Outcome)
      modifies this, store
      ensures outcome == RequiredCheck(canEdit, old(novaIntercorrencia), EpisodeRequired)
      ensures outcome != Done ==>
        intercorrencias == old(intercorrencias) && novaIntercorrencia == old(novaIntercorrencia)
        && store.data == old(store.data)
      ensures outcome == Done ==>
        intercorrencias == [Entry(now, old(novaIntercorrencia))] + old(intercorrencias)
        && store.data == old(store.data)[RecordKey("intercorrencias", pacienteId) := EntriesDoc(intercorrencias)]
        && novaIntercorrencia == BlankEpisode(today)
      ensures alergias == old(alergias) && novaAlergia == old(novaAlergia)
    {
      outcome := RequiredCheck(canEdit, novaIntercorrencia, EpisodeRequired);
      if outcome != Done {
        return;
      }
      intercorrencias := [Entry(now, novaIntercorrencia)] + intercorrencias;
      store.SetItem(RecordKey("intercorrencias", pacienteId), EntriesDoc(intercorrencias));
      novaIntercorrencia := BlankEpisode(today);
    }

    /** `handleRemoveIntercorrencia(id)`: denied with an alert without permission. */
    method HandleRemoveIntercorrencia(id: int, canEdit: bool, confirmed: bool) returns (outcome: Outcome)
      modifies this, store
      ensures outcome == RemoveCheck(canEdit, confirmed)
      ensures outcome != Done ==> intercorrencias == old(intercorrencias) && store.data == old(store.data)
      ensures outcome == Done ==>
        intercorrencias == RemoveById(old(intercorrencias), EntryId, id)
        && store.data == old(store.data)[RecordKey("intercorrencias", pacienteId) := EntriesDoc(intercorrencias)]
      ensures novaIntercorrencia == old(novaIntercorrencia) && alergias == old(alergias) && novaAlergia == old(novaAlergia)
    {
      outcome := RemoveCheck(canEdit, confirmed);
      if outcome != Done {
        return;
      }
      intercorrencias := RemoveById(intercorrencias, EntryId, id);
      store.SetItem(RecordKey("intercorrencias", pacienteId), EntriesDoc(intercorrencias));
    }

    /** `handleAddAlergia`: append the draft with the id `Date.now()`, write, reset the draft. */
    method HandleAddAlergia(canEdit: bool, now: int) returns (outcome: Outcome)
      modifies this, store
      ensures outcome == RequiredCheck(canEdit, old(novaAlergia), AllergyRequired)
      ensures outcome != Done ==>
        alergias == old(alergias) && novaAlergia == old(novaAlergia) && store.data == old(store.data)
      ensures outcome == Done ==>
        alergias == old(alergias) + [Entry(now, old(novaAlergia))]
        && store.data == old(store.data)[RecordKey("alergias", pacienteId) := EntriesDoc(alergias)]
        && novaAlergia == BlankAllergy
      ensures intercorrencias == old(intercorrencias) && novaIntercorrencia == old(novaIntercorrencia)
    {
      outcome := RequiredCheck(canEdit, novaAlergia, AllergyRequired);
      if outcome != Done {
        return;
      }
      alergias := alergias + [Entry(now, novaAlergia)];
      store.SetItem(RecordKey("alergias", pacienteId), EntriesDoc(alergias));
      novaAlergia := BlankAllergy;
    }

    /** `handleRemoveAlergia(id)`: silently ignored without permission. */
    method HandleRemoveAlergia(id: int, canEdit: bool, confirmed: bool) returns (outcome: Outcome)
      modifies this, store
      ensures outcome == RemoveCheck(canEdit, confirmed)
      ensures outcome != Done ==> alergias == old(alergias) && store.data == old(store.data)
      ensures outcome == Done ==>
        alergias == RemoveById(old(alergias), EntryId, id)
        && store.data == old(store.data)[RecordKey("alergias", pacienteId) := EntriesDoc(alergias)]
      ensures intercorrencias == old(intercorrencias) && novaIntercorrencia == old(novaIntercorrencia)
      ensures novaAlergia == old(novaAlergia)
    {
      outcome := RemoveCheck(canEdit, confirmed);
      if outcome != Done {
        return;
      }
      alergias := RemoveById(alergias, EntryId, id);
      store.SetItem(RecordKey("alergias", pacienteId), EntriesDoc(alergias));
    }
  }
}
