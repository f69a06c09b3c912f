/**
 * The neonatal record: birth data, Apgar scores, neonatal screening and
 * complications, saved to `neonatal-<id>` when the user holds `neonatal.write`,
 * and the reading of an Apgar score shown under each score field.
 */
module Neonatal {
  import opened Wrappers
  import opened Text
  import opened Records
  import opened Storage

  /** The record the form starts from when nothing is stored. */
  const DefaultForm: Form := map[
    "tipoGravidez" := Text("unica"), "tipoParto" := Text(""), "idadeGestacional" := Text(""),
    "peso" := Text(""), "comprimento" := Text(""), "perimetroCefalico" := Text(""),
    "perimeterToracico" := Text(""), "apgar1min" := Text(""), "apgar5min" := Text(""),
    "apgar10min" := Text(""), "testeOlhinho" := Text(""), "testeOlhinhoData" := Text(""),
    "testePezinho" := Text(""), "testePezinhoData" := Text(""), "testeOrelhinha" := Text(""),
    "testeOrelhinhaData" := Text(""), "testeCoracaozinho" := Text(""),
    "testeCoracaozinhoData" := Text(""), "testeLinguinha" := Text(""),
    "testeLinguinhaData" := Text(""), "intercorrencias" := Text(""), "reanimacao" := Flag(false),
    "oxigenioterapia" := Flag(false), "fototerapia" := Flag(false), "uti" := Flag(false),
    "diasInternacao" := Text(""), "observacoes" := Text("")]

  /** The stored record, or the default one. */
  function LoadedForm(v: Option<Value>): Form
  {
    match v
    case Some(FormDoc(f)) => f
    case _ => DefaultForm
  }

  const Normal := "\U{1F7E2} Normal"
  const Moderate := "\U{1F7E1} Moderado"
  const Low := "\U{1F534} Baixo"

  /**
   * `interpretarApgar(score)`: nothing for an empty field; otherwise the score
   * as `parseInt` reads it, 8 and up normal, 5 to 7 moderate, anything else
   * (including text `parseInt` cannot read) low.
   */
  function InterpretApgar(score: string): (r: string)
    ensures score == "" <==> r == ""
    ensures score != "" ==> r in {Normal, Moderate, Low}
    ensures score != "" && ParseInt(score).None? ==> r == Low
  {
    if score == "" then ""
    else
      match ParseInt(score)
      case Some(n) => if n >= 8 then Normal else if n >= 5 then Moderate else Low
      case None => Low
  }

  /** A score typed as digits is read by its value against the thresholds 8 and 5. */
  lemma ApgarThresholds(n: nat)
    ensures n >= 8 ==> InterpretApgar(NatToString(n)) == Normal
    ensures 5 <= n < 8 ==> InterpretApgar(NatToString(n)) == Moderate
    ensures n < 5 ==> InterpretApgar(NatToString(n)) == Low
  {
    ParseIntNatToString(n);
  }

  /** `parseInt` skips the Unicode space separators, so an ideographic space before a 9 still reads normal. */
  lemma ApgarAfterIdeographicSpace()
    ensures InterpretApgar("\U{3000}9") == Normal
  {
    assert TrimStart("\U{3000}9") == "9";
    assert DigitRun("9", 10) == 1;
    assert "9"[..1] == "9";
    assert ValueOf("9", 10) == 9;
  }

  class NeonatalForm {
    const store: Store
    const pacienteId: string
    var dados: Form

    /** Mount: load `neonatal-<id>` if stored. */
    constructor Mount(store: Store, pacienteId: string)
      ensures this.store == store && this.pacienteId == pacienteId
      ensures dados == LoadedForm(store.GetRecord("neonatal", pacienteId))
    {
      this.store := store;
      this.pacienteId := pacienteId;
      dados := LoadedForm(store.GetRecord("neonatal", pacienteId));
    }

    /** `handleChange(field, value)`: one field of the form, nothing stored. */
    method HandleChange(field: string, value: FormValue)
      modifies this
      ensures dados == old(dados)[field := value]
    {
      dados := dados[field := value];
    }

    /** `handleSave`: write the record and hand it to `onSave`; nothing happens without permission. */
    method HandleSave(canEdit: bool) returns (saved: Option<Form>)
      modifies store
      ensures !canEdit ==> saved == None && store.data == old(store.data)
      ensures canEdit ==>
        saved == Some(dados)
        && store.data == old(store.data)[RecordKey("neonatal", pacienteId) := FormDoc(dados)]
    {
      if !canEdit {
        return None;
      }
      store.SetItem(RecordKey("neonatal", pacienteId), FormDoc(dados));
      saved := Some(dados);
    }
  }
}
