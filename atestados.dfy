/**
 * Medical certificates and attendance declarations: the draft, saving it
 * (gated by `atestado.write`, prepended to `atestados-<id>`), removing one by
 * id, the three text templates and, from the printout, the title and the
 * placeholder substitution.
 */
module Atestados {
  import opened Wrappers
  import opened Text
  import opened Seqs
  import opened Records
  import opened Storage

  /** The draft the form starts from and returns to after a save. */
  function BlankDraft(today: string): Fields
  {
    map["data" := today, "tipo" := "atestado", "texto" := "", "cid" := "", "dias" := "",
        "dataInicio" := today, "dataFim" := "", "observacoes" := ""]
  }

  /** `handleSaveAtestado` demands a text. */
  const RequiredFields := ["texto"]

  // ---------------------------------------------------------------- templates

  datatype TemplateKind = Comparecimento | Repouso | Acompanhamento

  /** `pacienteNome || '[NOME]'`. */
  function NameOrPlaceholder(nome: string): (r: string)
    ensures nome != "" ==> r == nome
    ensures nome == "" ==> r == "[NOME]"
  {
    if nome == "" then "[NOME]" else nome
  }

  /** `pacienteIdade ? `com ${pacienteIdade},` : ''`. */
  function AgeClause(idade: string): (r: string)
    ensures idade == "" ==> r == ""
    ensures idade != "" ==> r == "com " + idade + ","
  {
    if idade == "" then "" else "com " + idade + ","
  }

  /** The first words of a template. */
  function Lead(kind: TemplateKind): string
  {
    if kind == Acompanhamento then "Atesto que o(a) menor " else "Atesto para os devidos fins que o(a) paciente "
  }

  /** The opening shared by the three templates, up to the age clause and the space after it. */
  function Opening(kind: TemplateKind, nome: string, idade: string): string
  {
    Lead(kind) + NameOrPlaceholder(nome) + ", " + AgeClause(idade) + " "
  }

  /** What a template says after its opening. */
  function Body(kind: TemplateKind, responsavel: string): string
  {
    match kind
    case Comparecimento => "esteve em consulta médica nesta data."
    case Repouso =>
      "necessita de afastamento de suas atividades escolares/habituais pelo período de [DIAS] dias, a partir de [DATA_INICIO]."
    case Acompanhamento =>
      "esteve sob meus cuidados médicos nesta data, sendo necessária a presença do(a) responsável "
      + (if responsavel == "" then "[RESPONSÁVEL]" else responsavel) + " para acompanhamento."
  }

  /** The text a template button puts into the draft. */
  function Template(kind: TemplateKind, nome: string, idade: string, responsavel: string): string
  {
    Opening(kind, nome, idade) + Body(kind, responsavel)
  }

  /** Without an age the template keeps both spaces around the empty clause. */
  lemma TemplateWithoutAge(kind: TemplateKind, nome: string, responsavel: string)
    ensures Contains(Template(kind, nome, "", responsavel), NameOrPlaceholder(nome) + ",  ")
  {
    var lead := Lead(kind);
    var n := NameOrPlaceholder(nome);
    var body := Body(kind, responsavel);
    OpeningWithoutAge(lead, n, body);
    ContainsMiddle(lead, n + ",  ", body);
  }

  lemma OpeningWithoutAge(lead: string, n: string, body: string)
    ensures lead + n + ", " + "" + " " + body == lead + (n + ",  ") + body
  {
    assert ", " + "" + " " == ",  ";
  }

  /** `aplicarTemplate(key)`: the draft with only its text replaced. */
  function ApplyTemplate(draft: Fields, texto: string): (r: Fields)
    ensures Get(r, "texto") == texto
    ensures forall f :: f != "texto" ==> Get(r, f) == Get(draft, f)
    ensures r.Keys == draft.Keys + {"texto"}
  {
    draft["texto" := texto]
  }

  // ---------------------------------------------------------------- printout

  /** The printed title. */
  function Title(tipo: string): (r: string)
    ensures r == "DECLARAÇÃO" <==> tipo == "declaracao"
    ensures r != "DECLARAÇÃO" ==> r == "ATESTADO MÉDICO"
  {
    if tipo == "declaracao" then "DECLARAÇÃO" else "ATESTADO MÉDICO"
  }

  /** Each `(placeholder, value)` pair applied in turn with a first-occurrence `replace`. */
  function Substitute(s: string, subs: seq<(string, string)>): string
    decreases |subs|
  {
    if subs == [] then s else Substitute(ReplaceFirst(s, subs[0].0, subs[0].1), subs[1..])
  }

  /** The replacement chain of the printout, in its order. */
  function Substitutions(pacienteNome: string, pacienteIdade: string, responsavelNome: string,
                         dias: string, dataInicio: string, formatDate: string -> string): (r: seq<(string, string)>)
    ensures |r| == 5 && forall i :: 0 <= i < |r| ==> '[' in r[i].0
  {
    [("[NOME]", pacienteNome), ("[IDADE]", pacienteIdade), ("[RESPONSÁVEL]", responsavelNome), ("[DIAS]", dias),
     ("[DATA_INICIO]", if dataInicio == "" then "" else formatDate(dataInicio))]
  }

  /**
   * The printed text: each placeholder replaced at its first occurrence, in
   * order. The start date is rendered by `formatDate` (a locale formatter the
   * model does not interpret), and an absent start date becomes ''.
   */
  function FullText(texto: string, pacienteNome: string, pacienteIdade: string, responsavelNome: string,
                    dias: string, dataInicio: string, formatDate: string -> string): string
  {
    Substitute(texto, Substitutions(pacienteNome, pacienteIdade, responsavelNome, dias, dataInicio, formatDate))
  }

  /** Replacements whose placeholders all hold a character the text lacks change nothing. */
  lemma {:induction false} SubstituteAbsent(s: string, subs: seq<(string, string)>, c: char)
    requires c !in s && forall i :: 0 <= i < |subs| ==> c in subs[i].0
    ensures Substitute(s, subs) == s
  {
    if subs != [] {
      MissingCharNotContained(s, subs[0].0, c);
      SubstituteAbsent(s, subs[1..], c);
    }
  }

  /** A text without any bracket is printed exactly as written. */
  lemma PlainTextPrintedVerbatim(texto: string, nome: string, idade: string, responsavel: string,
                                 dias: string, dataInicio: string, formatDate: string -> string)
    requires '[' !in texto
    ensures FullText(texto, nome, idade, responsavel, dias, dataInicio, formatDate) == texto
  {
    SubstituteAbsent(texto, Substitutions(nome, idade, responsavel, dias, dataInicio, formatDate), '[');
  }

  /** A first replacement whose placeholder holds a character the text lacks is skipped. */
  lemma SubstituteSkips(s: string, subs: seq<(string, string)>, c: char)
    requires subs != [] && c in subs[0].0 && c !in s
    ensures Substitute(s, subs) == Substitute(s, subs[1..])
  {
    MissingCharNotContained(s, subs[0].0, c);
  }

  /** A text that starts with the first placeholder has it replaced there. */
  lemma SubstituteAtStart(post: string, subs: seq<(string, string)>)
    requires subs != []
    ensures Substitute(subs[0].0 + post, subs) == Substitute(subs[0].1 + post, subs[1..])
  {
    ReplaceFirstAtStart(subs[0].0, post, subs[0].1);
  }

  /**
   * Only the first `[DIAS]` is filled in: whatever follows it, including a
   * second `[DIAS]`, is printed as it stands.
   */
  lemma FirstDaysOnly(post: string, nome: string, idade: string, responsavel: string, dias: string,
                      dataInicio: string, formatDate: string -> string)
    requires 'N' !in post && 'E' !in post && 'R' !in post && 'T' !in post && 'T' !in dias
    ensures FullText("[DIAS]" + post, nome, idade, responsavel, dias, dataInicio, formatDate) == dias + post
  {
    var s := "[DIAS]" + post;
    assert 'N' !in s && 'E' !in s && 'R' !in s by {
      assert forall c :: c in s ==> c in "[DIAS]" || c in post;
    }
    SkipsThenFills(post, Substitutions(nome, idade, responsavel, dias, dataInicio, formatDate), "NER", 'T');
  }

  /**
   * The step behind `FirstDaysOnly`: three placeholders the text cannot hold
   * are skipped, the fourth is filled at the start, and the fifth is absent.
   */
  lemma SkipsThenFills(post: string, subs: seq<(string, string)>, cs: string, t: char)
    requires |subs| == 5 && |cs| == 3
    requires forall k :: 0 <= k < 3 ==> cs[k] in subs[k].0 && cs[k] !in subs[3].0 + post
    requires t in subs[4].0 && t !in subs[3].1 + post
    ensures Substitute(subs[3].0 + post, subs) == subs[3].1 + post
  {
    var s := subs[3].0 + post;
    SubstituteSkips(s, subs, cs[0]);
    SubstituteSkips(s, subs[1..], cs[1]);
    assert subs[1..][1..] == subs[2..];
    SubstituteSkips(s, subs[2..], cs[2]);
    assert subs[2..][1..] == subs[3..];
    SubstituteAtStart(post, subs[3..]);
    assert subs[3..][1..] == subs[4..];
    SubstituteAbsent(subs[3].1 + post, subs[4..], t);
  }

  /**
   * The step behind `ReplacementsChain`: a text that is exactly the first
   * placeholder, whose value is the second placeholder, ends as the second
   * value when no later placeholder can occur in it.
   */
  lemma FillsInTurn(subs: seq<(string, string)>, c: char)
    requires |subs| >= 2 && subs[1].0 == subs[0].1 && c !in subs[1].1
    requires forall i :: 2 <= i < |subs| ==> c in subs[i].0
    ensures Substitute(subs[0].0, subs) == subs[1].1
  {
    var rest := subs[1..];
    SubstituteWhole(subs);
    SubstituteWhole(rest);
    assert forall i :: 0 <= i < |rest[1..]| ==> rest[1..][i] == subs[i + 2];
    SubstituteAbsent(rest[0].1, rest[1..], c);
  }

  /** A text that is exactly the first placeholder becomes its value. */
  lemma SubstituteWhole(subs: seq<(string, string)>)
    requires subs != []
    ensures Substitute(subs[0].0, subs) == Substitute(subs[0].1, subs[1..])
  {
    var p := subs[0].0;
    var v := subs[0].1;
    assert p + "" == p && v + "" == v;
    ReplaceFirstAtStart(p, "", v);
  }

  /** The substitutions run in order, so a name holding `[IDADE]` is itself filled with the age. */
  lemma ReplacementsChain(responsavel: string, dias: string, formatDate: string -> string)
    ensures FullText("[NOME]", "[IDADE]", "7 meses", responsavel, dias, "", formatDate) == "7 meses"
  {
    var subs := Substitutions("[IDADE]", "7 meses", responsavel, dias, "", formatDate);
    FillsInTurn(subs, '[');
  }

  // ---------------------------------------------------------------- the component

  class CertificatePad {
    const store: Store
    const pacienteId: string
    /** The `templates` object, built from the patient's name, age and guardian the component receives. */
    const templates: TemplateKind -> string
    var atestados: seq<Entry>
    var novoAtestado: Fields

    /** Mount: load `atestados-<id>` if stored. */
    constructor Mount(store: Store, pacienteId: string, pacienteNome: string, pacienteIdade: string,
                      responsavelNome: string, today: string)
      ensures this.store == store && this.pacienteId == pacienteId
      ensures forall k :: templates(k) == Template(k, pacienteNome, pacienteIdade, responsavelNome)
      ensures atestados == LoadedEntries(store.GetRecord("atestados", pacienteId))
      ensures novoAtestado == BlankDraft(today)
    {
      this.store := store;
      this.pacienteId := pacienteId;
      templates := (k: TemplateKind) => Template(k, pacienteNome, pacienteIdade, responsavelNome);
      atestados := LoadedEntries(store.GetRecord("atestados", pacienteId));
      novoAtestado := BlankDraft(today);
    }

    /** `handleSaveAtestado`: prepend the draft with the id `Date.now()`, write the list and reset the draft. */
    method HandleSaveAtestado(canEdit: bool, now: int, today: string) returns (outcome: Outcome)
      modifies this, store
      ensures outcome == RequiredCheck(canEdit, old(novoAtestado), RequiredFields)
      ensures outcome != Done ==>
        atestados == old(atestados) && novoAtestado == old(novoAtestado) && store.data == old(store.data)
      ensures outcome == Done ==>
        atestados == [Entry(now, old(novoAtestado))] + old(atestados)
        && store.data == old(store.data)[RecordKey("atestados", pacienteId) := EntriesDoc(atestados)]
        && novoAtestado == BlankDraft(today)
    {
      outcome := RequiredCheck(canEdit, novoAtestado, RequiredFields);
      if outcome != Done {
        return;
      }
      atestados := [Entry(now, novoAtestado)] + atestados;
      store.SetItem(RecordKey("atestados", pacienteId), EntriesDoc(atestados));
      novoAtestado := BlankDraft(today);
    }

    /** `handleRemoveAtestado(id)`: silently ignored without permission. */
    method HandleRemoveAtestado(id: int, canEdit: bool, confirmed: bool) returns (outcome: Outcome)
      modifies this, store
      ensures outcome == RemoveCheck(canEdit, confirmed)
      ensures outcome != Done ==> atestados == old(atestados) && store.data == old(store.data)
      ensures outcome == Done ==>
        atestados == RemoveById(old(atestados), EntryId, id)
        && store.data == old(store.data)[RecordKey("atestados", pacienteId) := EntriesDoc(atestados)]
      ensures novoAtestado == old(novoAtestado)
    {
      outcome := RemoveCheck(canEdit, confirmed);
      if outcome != Done {
        return;
      }
      atestados := RemoveById(atestados, EntryId, id);
      store.SetItem(RecordKey("atestados", pacienteId), EntriesDoc(atestados));
    }

    /** `aplicarTemplate(key)`: the draft's text becomes that template; nothing is stored. */
    method AplicarTemplate(kind: TemplateKind)
      modifies this
      ensures novoAtestado == ApplyTemplate(old(novoAtestado), templates(kind))
      ensures atestados == old(atestados)
    {
      novoAtestado := ApplyTemplate(novoAtestado, templates(kind));
    }
  }
}
