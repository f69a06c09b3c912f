/**
 * The main screen: the patient roster kept in memory and under
 * `pediatria-pacientes`, the selected patient, the name search, the tab
 * filter, and the backup engine (export of every record whose key contains a
 * patient id; import that appends the absent patients and overwrites every
 * backed-up record).
 */
module App {
  import opened Wrappers
  import opened Text
  import opened Seqs
  import opened Records
  import opened Storage

  function PatientId(p: Patient): string
  {
    p.id
  }

  /** The entry `handleNovoPaciente` creates at time `now`, registered at `isoNow`. */
  function NewPatient(now: nat, isoNow: string): Patient
  {
    Patient("pac_" + NatToString(now),
      map["nome" := "Novo Paciente", "dataNascimento" := "", "sexo" := "M", "dataCadastro" := isoNow])
  }

  /** `pacientes.map(p => p.id === id ? {...p, ...dados} : p)`. */
  function SaveInRoster(ps: seq<Patient>, id: string, dados: Fields): (r: seq<Patient>)
    ensures |r| == |ps|
    ensures forall i :: 0 <= i < |ps| && ps[i].id != id ==> r[i] == ps[i]
    ensures forall i :: 0 <= i < |ps| && ps[i].id == id ==> r[i] == Patient(id, ps[i].fields + dados)
  {
    if ps == [] then []
    else
      var head := if ps[0].id == id then Patient(id, ps[0].fields + dados) else ps[0];
      [head] + SaveInRoster(ps[1..], id, dados)
  }

  /** The search test: the lower-cased name contains the lower-cased search. */
  predicate NameMatches(p: Patient, busca: string)
  {
    Contains(ToLower(Get(p.fields, "nome")), ToLower(busca))
  }

  /** `pacientes.filter(p => p.nome.toLowerCase().includes(busca.toLowerCase()))`. */
  function PatientsMatching(ps: seq<Patient>, busca: string): (r: seq<Patient>)
    ensures |r| <= |ps|
  {
    if ps == [] then []
    else
      var rest := PatientsMatching(ps[1..], busca);
      if NameMatches(ps[0], busca) then [ps[0]] + rest else rest
  }

  /** A patient is listed exactly when it is on the roster and its name matches. */
  lemma {:induction false} PatientsMatchingMembers(ps: seq<Patient>, busca: string)
    ensures forall p :: p in PatientsMatching(ps, busca) <==> p in ps && NameMatches(p, busca)
  {
    if ps != [] {
      PatientsMatchingMembers(ps[1..], busca);
      assert ps == [ps[0]] + ps[1..];
    }
  }

  /** The search keeps roster order and multiplicity: it distributes over concatenation. */
  lemma {:induction false} PatientsMatchingConcat(a: seq<Patient>, b: seq<Patient>, busca: string)
    ensures PatientsMatching(a + b, busca) == PatientsMatching(a, busca) + PatientsMatching(b, busca)
  {
    if a != [] {
      assert (a + b)[0] == a[0];
      assert (a + b)[1..] == a[1..] + b;
      PatientsMatchingConcat(a[1..], b, busca);
    } else {
      assert a + b == b;
    }
  }

  /** On one patient the search keeps it exactly when its name matches. */
  lemma PatientsMatchingOne(p: Patient, busca: string)
    ensures PatientsMatching([p], busca) == (if NameMatches(p, busca) then [p] else [])
  {
    assert [p][1..] == [];
  }

  /** The search lowers Latin Extended-A capitals too: "Łucja" is found by "ł". */
  lemma SearchLowersLatinExtended(id: string)
    ensures PatientsMatching([Patient(id, map["nome" := "\U{0141}ucja"])], "\U{0142}")
      == [Patient(id, map["nome" := "\U{0141}ucja"])]
  {
    var p := Patient(id, map["nome" := "\U{0141}ucja"]);
    assert ToLower("\U{0142}") == "\U{0142}";
    assert ToLower(Get(p.fields, "nome"))[0] == '\U{0142}';
    assert OccursAt(ToLower(Get(p.fields, "nome")), ToLower("\U{0142}"), 0);
    PatientsMatchingOne(p, "\U{0142}");
  }

  /** An empty search lists every patient, in roster order. */
  lemma {:induction false} EmptySearchListsAll(ps: seq<Patient>)
    ensures PatientsMatching(ps, "") == ps
  {
    if ps != [] {
      EmptySearchListsAll(ps[1..]);
      assert OccursAt(ToLower(Get(ps[0].fields, "nome")), ToLower(""), 0);
    }
  }

  /** The tab ids, in display order. */
  const TabIds: seq<string> := ["cadastro", "neonatal", "crescimento", "vacinacao", "aleitamento",
                                "puericultura", "intercorrencias", "receituario", "atestados"]

  /** The tab filter: a clinician sees every tab, anybody else only `cadastro`. */
  function VisibleTabs(isMedico: bool, tabs: seq<string>): (r: seq<string>)
    ensures isMedico ==> r == tabs
    ensures !isMedico ==> forall t :: t in r <==> t in tabs && t == "cadastro"
  {
    if isMedico then tabs
    else if tabs == [] then []
    else
      var rest := VisibleTabs(false, tabs[1..]);
      assert tabs == [tabs[0]] + tabs[1..];
      if tabs[0] == "cadastro" then [tabs[0]] + rest else rest
  }

  /** The tab filter keeps the tabs' order: it distributes over concatenation. */
  lemma {:induction false} VisibleTabsConcat(isMedico: bool, a: seq<string>, b: seq<string>)
    ensures VisibleTabs(isMedico, a + b) == VisibleTabs(isMedico, a) + VisibleTabs(isMedico, b)
  {
    if !isMedico && a != [] {
      assert (a + b)[1..] == a[1..] + b;
      VisibleTabsConcat(isMedico, a[1..], b);
    } else if a == [] {
      assert a + b == b;
    }
  }

  /** On one tab, the front desk keeps it iff it is `cadastro`. */
  lemma VisibleTabsOne(t: string)
    ensures VisibleTabs(false, [t]) == (if t == "cadastro" then [t] else [])
  {
  }

  /** The front desk sees exactly the registration tab. */
  lemma FrontDeskTabs()
    ensures VisibleTabs(false, TabIds) == ["cadastro"]
  {
  }

  // ---------------------------------------------------------------- export

  /** The backup file: format version, export time, the roster and, per patient, its records. */
  datatype Backup = Backup(versao: string, dataExportacao: string, pacientes: seq<Patient>,
                           dadosCompletos: seq<(string, Data)>)

  /** Every record whose key contains `id` can be parsed back. */
  predicate Readable(d: Data, id: string)
  {
    forall k :: k in d && Contains(k, id) ==> !d[k].Malformed?
  }

  /** `dadosCompletos`: one entry per roster patient, in roster order. */
  function Collected(d: Data, ps: seq<Patient>): (r: seq<(string, Data)>)
    ensures |r| == |ps|
    ensures forall i :: 0 <= i < |ps| ==> r[i] == (ps[i].id, RecordsContaining(d, ps[i].id))
  {
    if ps == [] then []
    else Collected(d, ps[..|ps| - 1]) + [(ps[|ps| - 1].id, RecordsContaining(d, ps[|ps| - 1].id))]
  }

  /**
   * `handleExportarDados`: the roster verbatim plus, per patient, every stored
   * key containing its id; `None` when one of those values does not parse.
   */
  function ExportOf(d: Data, ps: seq<Patient>, isoNow: string): Option<Backup>
  {
    if forall i :: 0 <= i < |ps| ==> Readable(d, ps[i].id)
    then Some(Backup("1.0", isoNow, ps, Collected(d, ps)))
    else None
  }

  /** Exporting includes the records of every patient whose id contains an exported id. */
  lemma ExportReachesOtherPatients(d: Data, ps: seq<Patient>, isoNow: string, i: nat, prefix: string, other: string)
    requires ExportOf(d, ps, isoNow).Some? && i < |ps|
    requires Contains(other, ps[i].id) && RecordKey(prefix, other) in d
    ensures RecordKey(prefix, other) in ExportOf(d, ps, isoNow).value.dadosCompletos[i].1
  {
    ContainmentReachesLongerIds(prefix, ps[i].id, other);
  }

  // ---------------------------------------------------------------- import

  /** The parsed backup file, each top-level field possibly missing. */
  datatype BackupFile = BackupFile(versao: Option<string>, dataExportacao: Option<string>,
                                   pacientes: Option<seq<Patient>>, dadosCompletos: Option<seq<(string, Data)>>)

  /** The file an export produces. */
  function FileOf(b: Backup): BackupFile
  {
    BackupFile(Some(b.versao), Some(b.dataExportacao), Some(b.pacientes), Some(b.dadosCompletos))
  }

  /** `backup.versao && backup.pacientes && backup.dadosCompletos` (an empty list is truthy). */
  predicate ValidBackup(b: BackupFile)
  {
    b.versao.Some? && b.versao.value != "" && b.pacientes.Some? && b.dadosCompletos.Some?
  }

  /** How an import ended; `Imported` carries the count the success message reports. */
  datatype ImportResult = ParseError | InvalidBackup | Aborted | ReadError | Imported(reported: nat)

  /** `JSON.parse(localStorage.getItem(STORAGE_PACIENTES) || '[]')`; `None` when it is not a roster. */
  function StoredRoster(v: Option<Value>): (r: Option<seq<Patient>>)
    ensures r.Some? <==> v.None? || v == Some(Malformed("")) || v.value.RosterDoc?
    ensures v.None? || v == Some(Malformed("")) ==> r == Some([])
    ensures v.Some? && v.value.RosterDoc? ==> r == Some(v.value.patients)
  {
    match v
    case None => Some([])
    case Some(Malformed("")) => Some([])  // `'' || '[]'` reads as the empty roster
    case Some(RosterDoc(ps)) => Some(ps)
    case Some(_) => None
  }

  function IdSet(ps: seq<Patient>): set<string>
  {
    set p | p in ps :: p.id
  }

  /** The backup patients whose id is not in `ids`, in backup order; `ids` stays fixed throughout. */
  function Fresh(incoming: seq<Patient>, ids: set<string>): (r: seq<Patient>)
    ensures |r| <= |incoming|
  {
    if incoming == [] then []
    else
      var pre := incoming[..|incoming| - 1];
      var last := incoming[|incoming| - 1];
      Fresh(pre, ids) + (if last.id in ids then [] else [last])
  }

  /** A backup patient is kept exactly when its id is not in `ids`. */
  lemma {:induction false} FreshMembers(incoming: seq<Patient>, ids: set<string>)
    ensures forall p :: p in Fresh(incoming, ids) <==> p in incoming && p.id !in ids
  {
    if incoming != [] {
      var pre := incoming[..|incoming| - 1];
      var last := incoming[|incoming| - 1];
      FreshMembers(pre, ids);
      assert incoming == pre + [last];
    }
  }

  /** The merged roster: the existing one, then the backup patients absent from it before the import. */
  function MergeRoster(existing: seq<Patient>, incoming: seq<Patient>): seq<Patient>
  {
    existing + Fresh(incoming, IdSet(existing))
  }

  /** Writing every `(key, value)` of every entry, entry by entry: later entries win. */
  function ApplyEntries(d: Data, es: seq<(string, Data)>): Data
  {
    if es == [] then d else ApplyEntries(d, es[..|es| - 1]) + es[|es| - 1].1
  }

  /** The effect of an import: its result, the new in-memory roster (if it changed) and the new store. */
  datatype ImportEffect = ImportEffect(result: ImportResult, roster: Option<seq<Patient>>, data: Data)

  /** `handleFileImport` from the parsed file on: validation, confirmation, roster merge, record overwrite. */
  function ImportOf(d: Data, file: Option<BackupFile>, confirmed: bool): ImportEffect
  {
    if file.None? then ImportEffect(ParseError, None, d)
    else if !ValidBackup(file.value) then ImportEffect(InvalidBackup, None, d)
    else if !confirmed then ImportEffect(Aborted, None, d)
    else
      match StoredRoster(if RosterKey in d then Some(d[RosterKey]) else None)
      case None => ImportEffect(ReadError, None, d)
      case Some(existing) =>
        var incoming := file.value.pacientes.value;
        var merged := MergeRoster(existing, incoming);
        ImportEffect(Imported(|incoming|), Some(merged),
                     ApplyEntries(d[RosterKey := RosterDoc(merged)], file.value.dadosCompletos.value))
  }

  /** Every guard that fails leaves roster and store exactly as they were. */
  lemma ImportGuards(d: Data, file: Option<BackupFile>, confirmed: bool)
    ensures ImportOf(d, file, confirmed).result.Imported? <==>
      file.Some? && ValidBackup(file.value) && confirmed && StoredRoster(if RosterKey in d then Some(d[RosterKey]) else None).Some?
    ensures !ImportOf(d, file, confirmed).result.Imported? ==>
      ImportOf(d, file, confirmed).data == d && ImportOf(d, file, confirmed).roster.None?
    ensures file.Some? && !ValidBackup(file.value) ==> ImportOf(d, file, confirmed).result == InvalidBackup
    ensures file.Some? && ValidBackup(file.value) && !confirmed ==> ImportOf(d, file, confirmed).result == Aborted
  {
  }

  /** The merged roster keeps the existing entries in order and appends exactly the absent backup patients. */
  lemma MergeRosterShape(existing: seq<Patient>, incoming: seq<Patient>)
    ensures MergeRoster(existing, incoming)[..|existing|] == existing
    ensures forall p :: p in MergeRoster(existing, incoming)[|existing|..] <==>
      p in incoming && p.id !in IdSet(existing)
  {
    var m := MergeRoster(existing, incoming);
    FreshMembers(incoming, IdSet(existing));
    assert m[|existing|..] == Fresh(incoming, IdSet(existing));
  }

  /** The id set is computed once, so two backup patients with the same new id are both appended. */
  lemma DuplicateBackupIdsBothAppended(a: Fields, b: Fields)
    ensures MergeRoster([], [Patient("x", a), Patient("x", b)]) == [Patient("x", a), Patient("x", b)]
  {
    var s := [Patient("x", a), Patient("x", b)];
    FreshAgainstNothing(s);
    assert IdSet([]) == {};
  }

  /** Against an empty id set every backup patient is kept. */
  lemma {:induction false} FreshAgainstNothing(incoming: seq<Patient>)
    ensures Fresh(incoming, {}) == incoming
  {
    if incoming != [] {
      var pre := incoming[..|incoming| - 1];
      var last := incoming[|incoming| - 1];
      FreshAgainstNothing(pre);
      assert pre + [last] == incoming;
    }
  }

  /** When every backup id is already known, nothing is appended. */
  lemma {:induction false} FreshAllKnown(incoming: seq<Patient>, ids: set<string>)
    requires forall p :: p in incoming ==> p.id in ids
    ensures Fresh(incoming, ids) == []
  {
    if incoming != [] {
      var pre := incoming[..|incoming| - 1];
      assert forall p :: p in pre ==> p in incoming;
      FreshAllKnown(pre, ids);
    }
  }

  /** After a merge every backup id is on the roster. */
  lemma MergeCoversBackupIds(existing: seq<Patient>, incoming: seq<Patient>)
    ensures forall p :: p in incoming ==> p.id in IdSet(MergeRoster(existing, incoming))
  {
    var m := MergeRoster(existing, incoming);
    FreshMembers(incoming, IdSet(existing));
    forall p | p in incoming ensures p.id in IdSet(m) {
      if p.id in IdSet(existing) {
        var q :| q in existing && q.id == p.id;
        assert q in m;
      } else {
        assert p in Fresh(incoming, IdSet(existing));
        assert p in m;
      }
    }
  }

  /** Applying entries is one overwrite of the store by their union, later entries winning. */
  lemma {:induction false} ApplyEntriesIsOverwrite(d: Data, es: seq<(string, Data)>)
    ensures ApplyEntries(d, es) == d + ApplyEntries(map[], es)
  {
    if es != [] {
      ApplyEntriesIsOverwrite(d, es[..|es| - 1]);
      var f := ApplyEntries(map[], es[..|es| - 1]);
      var x := es[|es| - 1].1;
      assert (d + f) + x == d + (f + x);
      assert ApplyEntries(map[], es) == f + x;
    }
  }

  /** A key no entry carries keeps its old value, or stays absent. */
  lemma {:induction false} ApplyEntriesUntouched(d: Data, es: seq<(string, Data)>, k: string)
    requires forall j :: 0 <= j < |es| ==> k !in es[j].1
    ensures k in ApplyEntries(d, es) <==> k in d
    ensures k in d ==> ApplyEntries(d, es)[k] == d[k]
  {
    if es != [] {
      ApplyEntriesUntouched(d, es[..|es| - 1], k);
    }
  }

  /** A key is overwritten with the value of the last entry that carries it, whatever was stored. */
  lemma {:induction false} ApplyEntriesLastWins(d: Data, es: seq<(string, Data)>, j: nat, k: string)
    requires j < |es| && k in es[j].1
    requires forall j' :: j < j' < |es| ==> k !in es[j'].1
    ensures k in ApplyEntries(d, es) && ApplyEntries(d, es)[k] == es[j].1[k]
  {
    if j < |es| - 1 {
      ApplyEntriesLastWins(d, es[..|es| - 1], j, k);
    }
  }

  /** When every entry agrees with `src`, every key they carry ends up holding `src`'s value. */
  lemma {:induction false} ApplyConsistentEntries(d: Data, es: seq<(string, Data)>, src: Data)
    requires forall j, k :: 0 <= j < |es| && k in es[j].1 ==> k in src && es[j].1[k] == src[k]
    ensures forall j, k :: 0 <= j < |es| && k in es[j].1 ==> k in ApplyEntries(d, es) && ApplyEntries(d, es)[k] == src[k]
  {
    if es != [] {
      ApplyConsistentEntries(d, es[..|es| - 1], src);
    }
  }

  /** Importing the same backup a second time changes neither the roster nor the store. */
  lemma ImportIdempotent(d: Data, b: BackupFile)
    requires ValidBackup(b)
    requires forall j :: 0 <= j < |b.dadosCompletos.value| ==> RosterKey !in b.dadosCompletos.value[j].1
    ensures var first := ImportOf(d, Some(b), true);
      var second := ImportOf(first.data, Some(b), true);
      second.data == first.data && (first.roster.Some? ==> second.roster == first.roster)
  {
    var first := ImportOf(d, Some(b), true);
    if first.result.Imported? {
      var es := b.dadosCompletos.value;
      var existing := StoredRoster(if RosterKey in d then Some(d[RosterKey]) else None).value;
      var merged := MergeRoster(existing, b.pacientes.value);
      var base := d[RosterKey := RosterDoc(merged)];
      ApplyEntriesUntouched(base, es, RosterKey);
      assert first.data[RosterKey] == RosterDoc(merged);
      MergeCoversBackupIds(existing, b.pacientes.value);
      FreshAllKnown(b.pacientes.value, IdSet(merged));
      assert MergeRoster(merged, b.pacientes.value) == merged;
      assert first.data[RosterKey := RosterDoc(merged)] == first.data;
      ApplyEntriesIsOverwrite(base, es);
      ApplyEntriesIsOverwrite(first.data, es);
      var f := ApplyEntries(map[], es);
      assert (base + f) + f == base + f;
    }
  }

  /** The message reports the size of the backup even when no patient was added. */
  lemma ImportReportsBackupSize(d: Data, b: BackupFile, existing: seq<Patient>)
    requires ValidBackup(b) && RosterKey in d && d[RosterKey] == RosterDoc(existing)
    requires forall p :: p in b.pacientes.value ==> p.id in IdSet(existing)
    ensures ImportOf(d, Some(b), true).result == Imported(|b.pacientes.value|)
    ensures ImportOf(d, Some(b), true).roster == Some(existing)
  {
    FreshAllKnown(b.pacientes.value, IdSet(existing));
    assert existing + [] == existing;
  }

  /** Export then import into an empty store reproduces the roster and every exported record. */
  lemma ExportImportRoundTrip(d: Data, ps: seq<Patient>, isoNow: string)
    requires ExportOf(d, ps, isoNow).Some?
    ensures var e := ImportOf(map[], Some(FileOf(ExportOf(d, ps, isoNow).value)), true);
      e.result == Imported(|ps|) && e.roster == Some(ps)
      && (forall i, k :: 0 <= i < |ps| && k in RecordsContaining(d, ps[i].id) ==> k in e.data && e.data[k] == d[k])
  {
    var es := Collected(d, ps);
    assert ExportOf(d, ps, isoNow).value == Backup("1.0", isoNow, ps, es);
    ImportIntoEmpty(ps, es, "1.0", isoNow);
    CollectedAgreesWithStore(d, ps);
    ApplyConsistentEntries(map[RosterKey := RosterDoc(ps)], es, d);
  }

  /** The import of a valid backup into an empty store, confirmed. */
  lemma ImportIntoEmpty(ps: seq<Patient>, es: seq<(string, Data)>, versao: string, t: string)
    requires versao != ""
    ensures ImportOf(map[], Some(BackupFile(Some(versao), Some(t), Some(ps), Some(es))), true)
      == ImportEffect(Imported(|ps|), Some(ps), ApplyEntries(map[RosterKey := RosterDoc(ps)], es))
  {
    var empty: Data := map[];
    assert RosterKey !in empty;
    FreshAgainstNothing(ps);
    assert IdSet([]) == {};
    assert MergeRoster([], ps) == ps;
    assert empty[RosterKey := RosterDoc(ps)] == map[RosterKey := RosterDoc(ps)];
  }

  /** An empty text under the roster key reads as `[]`, so the import proceeds as into an empty roster. */
  lemma ImportOverEmptyRosterText(ps: seq<Patient>, es: seq<(string, Data)>, versao: string, t: string)
    requires versao != ""
    ensures ImportOf(map[RosterKey := Malformed("")], Some(BackupFile(Some(versao), Some(t), Some(ps), Some(es))), true)
      == ImportEffect(Imported(|ps|), Some(ps), ApplyEntries(map[RosterKey := RosterDoc(ps)], es))
  {
    var d: Data := map[RosterKey := Malformed("")];
    assert StoredRoster(Some(d[RosterKey])) == Some([]);
    FreshAgainstNothing(ps);
    assert IdSet([]) == {};
    assert MergeRoster([], ps) == ps;
    assert d[RosterKey := RosterDoc(ps)] == map[RosterKey := RosterDoc(ps)];
  }

  /** Every exported record holds the stored value of its key. */
  lemma CollectedAgreesWithStore(d: Data, ps: seq<Patient>)
    ensures forall j, k :: 0 <= j < |Collected(d, ps)| && k in Collected(d, ps)[j].1 ==>
      k in d && Collected(d, ps)[j].1[k] == d[k]
  {
  }

  // ---------------------------------------------------------------- the screen

  /** The roster the screen loads at start-up. */
  function LoadedRoster(v: Option<Value>): seq<Patient>
  {
    match v
    case Some(RosterDoc(ps)) => ps
    case _ => []
  }

  class MainApp {
    const store: Store
    var pacientes: seq<Patient>
    var atual: Option<Patient>

    /** Mount: load the roster if one is stored. */
    constructor Mount(store: Store)
      ensures this.store == store
      ensures pacientes == LoadedRoster(store.GetItem(RosterKey)) && atual.None?
    {
      this.store := store;
      pacientes := LoadedRoster(store.GetItem(RosterKey));
      atual := None;
    }

    /** `handleNovoPaciente`: append the new entry, persist the roster and open it. */
    method NovoPaciente(now: nat, isoNow: string)
      modifies this, store
      ensures pacientes == old(pacientes) + [NewPatient(now, isoNow)]
      ensures store.data == old(store.data)[RosterKey := RosterDoc(pacientes)]
      ensures atual == Some(NewPatient(now, isoNow))
    {
      var novo := NewPatient(now, isoNow);
      pacientes := pacientes + [novo];
      store.SetItem(RosterKey, RosterDoc(pacientes));
      atual := Some(novo);
    }

    /** `handleSelecionarPaciente`. */
    method Select(p: Patient)
      modifies this
      ensures atual == Some(p) && pacientes == old(pacientes)
    {
      atual := Some(p);
    }

    /** `handleSaveCadastro(dados)`: merge into the selected patient's roster entry and persist. */
    method SaveCadastro(dados: Fields)
      requires atual.Some?
      modifies this, store
      ensures pacientes == SaveInRoster(old(pacientes), old(atual).value.id, dados)
      ensures store.data == old(store.data)[RosterKey := RosterDoc(pacientes)]
      ensures atual == Some(Patient(old(atual).value.id, old(atual).value.fields + dados))
    {
      var current := atual.value;
      pacientes := SaveInRoster(pacientes, current.id, dados);
      store.SetItem(RosterKey, RosterDoc(pacientes));
      atual := Some(Patient(current.id, current.fields + dados));
    }

    /** `handleDeletePaciente(id)`: drop every entry with that id, persist, and close the record. */
    method DeletePaciente(id: string)
      modifies this, store
      ensures pacientes == RemoveById(old(pacientes), PatientId, id)
      ensures store.data == old(store.data)[RosterKey := RosterDoc(pacientes)]
      ensures atual.None?
    {
      pacientes := RemoveById(pacientes, PatientId, id);
      store.SetItem(RosterKey, RosterDoc(pacientes));
      atual := None;
    }

    /** The key loop for one patient: every stored record whose key contains `id`. */
    method CollectRecords(id: string) returns (r: Option<Data>)
      ensures r.Some? <==> Readable(store.data, id)
      ensures r.Some? ==> r.value == RecordsContaining(store.data, id)
    {
      var found: Data := map[];
      var remaining := store.data.Keys;
      while remaining != {}
        invariant remaining <= store.data.Keys
        invariant forall k :: k in found <==> k in store.data && k !in remaining && Contains(k, id)
        invariant forall k :: k in found ==> found[k] == store.data[k] && !found[k].Malformed?
        decreases remaining
      {
        var k :| k in remaining;
        if Contains(k, id) {
          if store.data[k].Malformed? {
            return None;
          }
          found := found[k := store.data[k]];
        }
        remaining := remaining - {k};
      }
      assert found == RecordsContaining(store.data, id);
      return Some(found);
    }

    /** `handleExportarDados`, up to building the backup object. */
    method Export(isoNow: string) returns (r: Option<Backup>)
      ensures r == ExportOf(store.data, pacientes, isoNow)
    {
      var collected: seq<(string, Data)> := [];
      var i := 0;
      while i < |pacientes|
        invariant 0 <= i <= |pacientes|
        invariant collected == Collected(store.data, pacientes[..i])
        invariant forall j :: 0 <= j < i ==> Readable(store.data, pacientes[j].id)
      {
        var found := CollectRecords(pacientes[i].id);
        if found.None? {
          return None;
        }
        assert pacientes[..i + 1][..i] == pacientes[..i];
        collected := collected + [(pacientes[i].id, found.value)];
        i := i + 1;
      }
      assert pacientes[..i] == pacientes;
      return Some(Backup("1.0", isoNow, pacientes, collected));
    }

    /** `Object.keys(dadosPaciente).forEach(key => localStorage.setItem(key, ...))`. */
    method WriteRecords(m: Data)
      modifies store
      ensures store.data == old(store.data) + m
    {
      var remaining := m.Keys;
      while remaining != {}
        invariant remaining <= m.Keys
        invariant forall k :: k in store.data <==> k in old(store.data) || (k in m && k !in remaining)
        invariant forall k :: k in store.data ==>
          store.data[k] == if k in m && k !in remaining then m[k] else old(store.data)[k]
        decreases remaining
      {
        var k :| k in remaining;
        store.SetItem(k, m[k]);
        remaining := remaining - {k};
      }
      assert store.data == old(store.data) + m;
    }

    /** The record loop of the import: each entry's records, entry by entry. */
    method WriteEntries(es: seq<(string, Data)>)
      modifies store
      ensures store.data == ApplyEntries(old(store.data), es)
    {
      var j := 0;
      while j < |es|
        invariant 0 <= j <= |es|
        invariant store.data == ApplyEntries(old(store.data), es[..j])
      {
        assert es[..j + 1][..j] == es[..j];
        WriteRecords(es[j].1);
        j := j + 1;
      }
      assert es[..j] == es;
    }

    /** `handleFileImport` from the parsed file on. */
    method Import(file: Option<BackupFile>, confirmed: bool) returns (r: ImportResult)
      modifies this, store
      ensures var e := ImportOf(old(store.data), file, confirmed);
        r == e.result && store.data == e.data
        && pacientes == (if e.roster.Some? then e.roster.value else old(pacientes))
        && atual == old(atual)
    {
      if file.None? {
        return ParseError;
      }
      var b := file.value;
      if !ValidBackup(b) {
        return InvalidBackup;
      }
      if !confirmed {
        return Aborted;
      }
      var stored := StoredRoster(store.GetItem(RosterKey));
      if stored.None? {
        return ReadError;
      }
      var merged := AppendAbsent(stored.value, b.pacientes.value);
      store.SetItem(RosterKey, RosterDoc(merged));
      pacientes := merged;
      WriteEntries(b.dadosCompletos.value);
      return Imported(|b.pacientes.value|);
    }
  }

  /** The merge loop: push each backup patient whose id was absent when the import began. */
  method AppendAbsent(existing: seq<Patient>, incoming: seq<Patient>) returns (merged: seq<Patient>)
    ensures merged == MergeRoster(existing, incoming)
  {
    merged := existing;
    var ids := IdSet(existing);
    var i := 0;
    while i < |incoming|
      invariant 0 <= i <= |incoming|
      invariant merged == existing + Fresh(incoming[..i], ids)
    {
      assert incoming[..i + 1][..i] == incoming[..i];
      if incoming[i].id !in ids {
        merged := merged + [incoming[i]];
      }
      i := i + 1;
    }
    assert incoming[..i] == incoming;
  }
}
