/**
 * The breastfeeding assessment: a form of text fields and yes/no flags plus the
 * list of difficulties observed, saved to `aleitamento-<id>` when the user holds
 * `aleitamento.write`.
 */
module Aleitamento {
  import opened Wrappers
  import opened Seqs
  import opened Records
  import opened Storage

  /** The assessment the form starts from when nothing is stored. */
  const DefaultFields: Form := map[
    "tipoAtual" := Text(""), "inicioAmamentacao" := Text(""), "duracaoExclusivo" := Text(""),
    "mamaDireita" := Text("normal"), "mamaEsquerda" := Text("normal"),
    "mamiloDireito" := Text("normal"), "mamiloEsquerdo" := Text("normal"),
    "pegaCorreta" := Flag(true), "posicionamentoAdequado" := Flag(true),
    "duracaoMamadas" := Text(""), "intervaloMamadas" := Text(""), "mamadaNoturna" := Flag(true),
    "usaFormula" := Flag(false), "tipoFormula" := Text(""), "quantidadeFormula" := Text(""),
    "frequenciaFormula" := Text(""), "inicioAlimentacaoComplementar" := Text(""),
    "alimentosJaIntroduzidos" := Text(""), "orientacoesRealizadas" := Text(""), "observacoes" := Text("")]

  const DefaultRecord := Breastfeeding(DefaultFields, [])

  /** The stored assessment, or the default one. */
  function LoadedRecord(v: Option<Value>): Breastfeeding
  {
    match v
    case Some(BreastfeedingDoc(b)) => b
    case _ => DefaultRecord
  }

  function Same(d: string): string
  {
    d
  }

  /** `handleDificuldadeToggle(d)`: a listed difficulty is removed, an unlisted one appended. */
  function ToggleDifficulty(ds: seq<string>, d: string): (r: seq<string>)
    ensures d in r <==> d !in ds
    ensures forall x :: x != d ==> (x in r <==> x in ds)
    ensures d !in ds ==> r == ds + [d]
  {
    RemoveByIdMembers(ds, Same, d);
    if d in ds then RemoveById(ds, Same, d) else ds + [d]
  }

  /** Ticking an unlisted difficulty and unticking it again gives back the same list. */
  lemma ToggleDifficultyTwice(ds: seq<string>, d: string)
    requires d !in ds
    ensures ToggleDifficulty(ToggleDifficulty(ds, d), d) == ds
  {
    RemoveByIdConcat(ds, [d], Same, d);
    RemoveByIdAbsent(ds, Same, d);
    assert RemoveById([d], Same, d) == [];
  }

  /** Unticking keeps the other difficulties in the order they were ticked. */
  lemma UntickKeepsOrder(a: seq<string>, d: string, b: seq<string>)
    requires d !in a && d !in b
    ensures ToggleDifficulty(a + [d] + b, d) == a + b
  {
    assert d in a + [d] + b;
    RemoveByIdConcat(a + [d], b, Same, d);
    RemoveByIdConcat(a, [d], Same, d);
    RemoveByIdAbsent(a, Same, d);
    RemoveByIdAbsent(b, Same, d);
    assert RemoveById([d], Same, d) == [];
  }

  class BreastfeedingForm {
    const store: Store
    const pacienteId: string
    var dados: Breastfeeding

    /** Mount: load `aleitamento-<id>` if stored. */
    constructor Mount(store: Store, pacienteId: string)
      ensures this.store == store && this.pacienteId == pacienteId
      ensures dados == LoadedRecord(store.GetRecord("aleitamento", pacienteId))
    {
      this.store := store;
      this.pacienteId := pacienteId;
      dados := LoadedRecord(store.GetRecord("aleitamento", pacienteId));
    }

    /** `handleChange(field, value)`: one field of the form, nothing stored. */
    method HandleChange(field: string, value: FormValue)
      modifies this
      ensures dados == old(dados).(fields := old(dados).fields[field := value])
    {
      dados := dados.(fields := dados.fields[field := value]);
    }

    method HandleDificuldadeToggle(d: string)
      modifies this
      ensures dados == old(dados).(dificuldades := ToggleDifficulty(old(dados).dificuldades, d))
    {
      dados := dados.(dificuldades := ToggleDifficulty(dados.dificuldades, d));
    }

    /** `handleSave`: write the assessment and hand it to `onSave`; nothing happens without permission. */
    method HandleSave(canEdit: bool) returns (saved: Option<Breastfeeding>)
      modifies store
      ensures !canEdit ==> saved == None && store.data == old(store.data)
      ensures canEdit ==>
        saved == Some(dados)
        && store.data == old(store.data)[RecordKey("aleitamento", pacienteId) := BreastfeedingDoc(dados)]
    {
      if !canEdit {
        return None;
      }
      store.SetItem(RecordKey("aleitamento", pacienteId), BreastfeedingDoc(dados));
      saved := Some(dados);
    }
  }
}
