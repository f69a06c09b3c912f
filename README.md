# Pediatric practice record store — a Dafny model

This project models the core of a single-device pediatric practice system:

- **The role gate.** A static table maps the roles `medico` (clinician) and `secretaria` (front desk) to permission tokens, and `hasPermission`, `hasAllPermissions` and `hasAnyPermission` query it.
- **The session.** Login is an exact match against a fixed user table. A successful login persists a snapshot of the user with a timestamp under `pediatria-auth`. At start-up that snapshot resumes the session if it is younger than eight hours. Logout clears it.
- **The record store and the patient roster.** The browser's `localStorage` is a string-keyed map of documents. Per-patient records sit under `<prefix>-<patientId>` and the roster under `pediatria-pacientes`.
  - The roster supports create, update-by-id and delete-by-id.
  - Deleting a patient removes every key that *contains* the id as a substring.
- **Backup and merge.**
  - Export copies, for each patient, every key containing its id.
  - Import validates the file and asks for confirmation.
  - It then appends the backup patients whose ids were absent before the import, and overwrites every record of the backup.
- **The clinical modules.** Each module reads its own permission token, checks its required fields, and builds a new list or record. The ways it builds one are prepend, append, sorted insert, filter by id, toggle and map by id. It then writes the result under its own key. The modules are:
  - growth and milestones, and the medical history;
  - prescriptions and medical certificates;
  - illness episodes and allergies;
  - well-child visits;
  - the vaccination card;
  - breastfeeding;
  - neonatal data.

## How the model is built

- **Stores are objects.** `Storage.Store` is a class whose `data` field is a `map<string, Value>`. A `Value` is the parsed document under a key, one constructor per document shape. JSON serialisation is the identity.
- **Components are classes.** Each React component is a class holding its state as fields, with `const store: Store` and `const pacienteId`.
  - Each handler is a method. The environment arrives as parameters: the permission verdict `canEdit`, the user's answer to a confirmation dialog `confirmed`, the clock `now` (milliseconds) and `today` (an ISO date).
  - Each handler's `ensures` gives the new component state and the new store in terms of pure functions.
  - Lemmas about those functions state what the application promises.
- **Shared checks.** `Records.RequiredCheck` and `Records.RemoveCheck` are the two checks the handlers share. One is permission then required fields; the other is permission then confirmation. Each handler's result is one of these four (`Outcome`):
  - `Done`;
  - `Denied`: no permission;
  - `Rejected`: a required field is empty;
  - `Declined`: the user cancelled the confirmation.
- **Strings and numbers.** String containment, first-occurrence `replace`, `indexOf` and `parseInt` are defined over `seq<char>` in module `Text`, and so is `toLowerCase` for the capitals of ASCII, Latin-1, Latin Extended-A, basic Greek and basic Cyrillic (see "Left out"). `new Date(s)` on an ISO date is `Dates.ParseIsoDate`, and `None` stands for an Invalid Date.

Where the source itself is silent about an edge case (a stored value of another shape, an unknown role, a non-numeric Apgar score), the model follows what the JavaScript would evaluate to.

## Model

| member | source | states |
|---|---|---|
| Roles.HasPermission | src/config/roles.js:92-95 | false for an empty role or permission and for a role outside the table; otherwise membership of the token in the role's list |
| Roles.RolePermissions | src/config/roles.js:71-89 | `ROLE_PERMISSIONS[role]`: the two roles' lists, nothing for any other role; pinned by MedicoHoldsEveryPermission and SecretariaGrant |
| Roles.HasAllPermissions | src/config/roles.js:98-101 | false for an argument that is not a list, true for the empty list |
| Roles.HasAnyPermission | src/config/roles.js:104-107 | false for an argument that is not a list, false for the empty list |
| Roles.UnknownRoleGrantedNothing | src/config/roles.js:94 | a role outside the table holds no permission, so `hasAnyPermission` is false for it on every list |
| Roles.MedicoHoldsEveryPermission | src/config/roles.js:71-76 | the clinician holds exactly the 32 values of PERMISSIONS |
| Roles.SecretariaGrant | src/config/roles.js:77-88 | the front desk holds exactly seven tokens, none of them clinical and not `cadastro.delete` |
| Roles.SecretariaSubsetOfMedico | src/config/roles.js:71-89 | every front-desk token is a clinician token, and the clinician holds some token the front desk lacks |
| Roles.HasAllIsConjunction | src/config/roles.js:98-101 | on a list, `hasAllPermissions` is the conjunction of `hasPermission` over its elements |
| Roles.HasAnyIsDisjunction | src/config/roles.js:104-107 | on a list, `hasAnyPermission` is the disjunction of `hasPermission` over its elements |
| Auth.FindUser | src/contexts/AuthContext.jsx:34-36 | finds a user iff one has exactly that username and exactly that password, and returns such a user |
| Auth.RestoreDecisionFor | src/contexts/AuthContext.jsx:13-30 | a session record younger than 28 800 000 ms resumes its user; an expired or unreadable record is removed; no record, or the empty text, leaves the state logged out and the store untouched |
| Auth.Snapshot | src/contexts/AuthContext.jsx:39-44 | the user object kept in memory and persisted; SnapshotOmitsSecrets shows password and CRM play no part |
| Auth.SessionRecord | src/contexts/AuthContext.jsx:49-53 | the record `{user, timestamp}` login writes; LoginThenRestore shows it resumes within eight hours |
| Auth.LoginCredentials | src/contexts/AuthContext.jsx:32-38 | the lookup succeeds iff the pair is one of the two table entries' exact credentials, and finds that entry |
| Auth.SnapshotOmitsSecrets | src/contexts/AuthContext.jsx:39-44 | the persisted user carries username, name, role and specialty only: password and CRM play no part |
| Auth.SessionWindow | src/contexts/AuthContext.jsx:17-25 | the window is strict: one millisecond short of eight hours resumes, exactly eight hours does not |
| Auth.LoginThenRestore | src/contexts/AuthContext.jsx:49-53 | a record written by login at `t` is resumed with the snapshot user by a restart at any `now` in `[t, t + 8h)` |
| Auth.MalformedSessionDiscarded | src/contexts/AuthContext.jsx:15-28 | an unreadable non-empty record is removed and nobody is logged in; the empty text is skipped and stays stored |
| Auth.AuthState.Restore | src/contexts/AuthContext.jsx:13-30 | the start-up check applies the restore decision to the state and to `pediatria-auth`: resume sets the user, discard removes the record, no session touches nothing |
| Auth.AuthState.Login | src/contexts/AuthContext.jsx:32-59 | on a match, stores the snapshot and `{user, timestamp: now}`; otherwise returns the one fixed error and changes neither state nor storage |
| Auth.AuthState.Logout | src/contexts/AuthContext.jsx:61-65 | clears the user, clears `isAuthenticated` and removes `pediatria-auth` |
| Auth.AuthState.CheckPermission | src/contexts/AuthContext.jsx:67-70 | false with nobody logged in, otherwise `hasPermission` of the user's role |
| Auth.AuthState.IsMedico | src/contexts/AuthContext.jsx:72 | true iff a user is logged in with role `medico` |
| Auth.AuthState.IsSecretaria | src/contexts/AuthContext.jsx:73 | true iff a user is logged in with role `secretaria` |
| Auth.FrontDeskSessionLimits | src/config/roles.js:77-88 | logged in at the front desk, `checkPermission` refuses every clinical token and `cadastro.delete` but grants `cadastro.update` |
| Storage.RecordKey | src/components/CadastroPaciente.jsx:53 | the key `<prefix>-<id>`: the prefix, a dash, then the id, which therefore occurs right after the dash |
| Storage.RecordKeyContainsId | src/components/CadastroPaciente.jsx:77 | a record key contains the id it was built from |
| Storage.RecordsContaining | src/App.jsx:186-191 | exactly the stored entries whose key contains the id, with their values |
| Storage.WithoutKeysContaining | src/components/CadastroPaciente.jsx:74-82 | exactly the stored entries whose key does not contain the id, with their values |
| Storage.SplitByContainment | src/components/CadastroPaciente.jsx:74-82 | the entries containing the id and the others are disjoint and together make up the store |
| Storage.ContainmentReachesLongerIds | src/components/CadastroPaciente.jsx:77 | the record key of any patient whose id contains a given id contains that id as well |
| Storage.PatientIdCollision | src/components/CadastroPaciente.jsx:77 | `crescimento-p_12` contains `p_1`, while `crescimento-p_1` does not contain `p_12` |
| Storage.Store.constructor | src/App.jsx:18 | a store holding exactly the given entries |
| Storage.Store.GetItem | src/App.jsx:117-118 | the stored value of the key, or nothing when it is absent |
| Storage.Store.GetRecord | src/components/CadastroPaciente.jsx:28-35 | nothing for an empty id, otherwise the value stored under `<prefix>-<id>` if any |
| Storage.Store.SetItem | src/App.jsx:136 | the key now maps to the value and every other key is unchanged |
| Storage.Store.RemoveItem | src/contexts/AuthContext.jsx:63 | the key is gone and every other key is unchanged |
| Seqs.RemoveById | src/App.jsx:165 | `filter(x => x.id !== id)`, used by every remove handler; its members, order and length are given by the RemoveById lemmas below |
| Seqs.RemoveByIdMembers | src/App.jsx:165 | filtering by id keeps exactly the elements with another id |
| Seqs.RemoveByIdAbsent | src/App.jsx:165 | filtering by an id no element carries changes nothing |
| Seqs.RemoveByIdConcat | src/App.jsx:165 | filtering distributes over concatenation, so the survivors keep their order |
| Seqs.RemoveByIdLength | src/App.jsx:165 | the list shrinks by exactly the number of elements carrying the id |
| Seqs.RemoveByIdUndoesPrepend | src/modules/Receituario.jsx:72-74 | removing the id of a prepended element with a fresh id gives back the earlier list |
| Seqs.RemoveByIdUndoesAppend | src/modules/Intercorrencias.jsx:116-128 | removing the id of an appended element with a fresh id gives back the earlier list |
| Seqs.MapById | src/modules/Vacinacao.jsx:46-50 | same length; every element carrying the id is transformed and every other element is kept as it was |
| Records.Get | src/components/CadastroPaciente.jsx:48 | the field's text, or `''` when the field is missing |
| Records.MissingField | src/components/CadastroPaciente.jsx:48 | true iff some required field is empty |
| Records.RequiredCheck | src/components/CadastroPaciente.jsx:43-51 | `Done` iff permitted and every required field is filled; `Denied` without permission; `Rejected` otherwise |
| Records.RemoveCheck | src/components/CadastroPaciente.jsx:63-72 | `Done` iff permitted and confirmed; `Denied` without permission; `Declined` when cancelled |
| Text.FindFrom | src/App.jsx:271 | the first occurrence at or after the start index, or nothing iff there is none |
| Text.IndexOf | src/modules/Atestados.jsx:141 | the first occurrence of the pattern, or nothing iff it does not occur |
| Text.ReplaceFirst | src/modules/Atestados.jsx:141-145 | replaces exactly the first occurrence; the text is unchanged when the pattern does not occur |
| Text.ReplaceFirstKeepsTail | src/modules/Atestados.jsx:141-145 | with no occurrence before it, the first occurrence is the one replaced and the text after it is kept verbatim |
| Text.ReplaceFirstAtStart | src/modules/Atestados.jsx:141-145 | a text that starts with the pattern has the pattern replaced there |
| Text.MissingCharNotContained | src/modules/Atestados.jsx:141-145 | a text lacking one of the pattern's characters does not contain the pattern |
| Text.NatToString | src/components/CadastroPaciente.jsx:97 | a non-empty run of decimal digits, without a leading zero from 10 on |
| Text.IntToString | src/components/CadastroPaciente.jsx:97 | non-empty, starting with a minus sign exactly for a negative number |
| Text.ParseIntNatToString | src/modules/DadosNeonatais.jsx:82 | `parseInt` reads back a rendered natural number as that number |
| Text.ToLower | src/App.jsx:270-272 | same length; each character mapped by `LowerChar` |
| Text.LowerChar | src/App.jsx:270-272 | an ASCII capital becomes its small letter; a character changes exactly when it is one of the covered capitals, and the result is never a covered capital |
| Text.IsJsSpace | src/modules/DadosNeonatais.jsx:82 | the white space and line terminators `parseInt` skips: tab, vertical tab, form feed, space, no-break space, the Unicode space separators, line and paragraph separators, the byte order mark |
| Text.ParseInt | src/modules/DadosNeonatais.jsx:82 | `parseInt(s)` with no radix; its value on rendered naturals is pinned by ParseIntNatToString |
| Text.Contains | src/App.jsx:271 | `includes`: some position where the pattern occurs; used by the search, the export and the delete cascade |
| Dates.ParseIsoDate | src/components/CadastroPaciente.jsx:95 | a date only for a ten-character `YYYY-MM-DD` string, and then a well-formed one with a four-digit year |
| Dates.MonthsBetween | src/modules/Crescimento.jsx:138-144 | the distance between the two dates on the month line, whatever their days |
| Dates.OrdinalIsChronological | src/modules/Crescimento.jsx:174-176 | on well-formed dates the ordinal order is the calendar order |
| Dates.AgeInMonths | src/modules/Crescimento.jsx:138-144 | the months between the two dates, or NaN (`None`) when either is not a date |
| Dates.AgeLabel | src/components/CadastroPaciente.jsx:92-100 | `''` without a birth date; "NaN ano" for an unreadable one; "m meses" under 24 months; otherwise the whole years with "anos" |
| Dates.AgeLabelNeverSingularYear | src/components/CadastroPaciente.jsx:97-99 | no label reads `<n> ano`: the years branch starts at two |
| Dates.AgeLabelInMonths | src/components/CadastroPaciente.jsx:95-97 | born 2023-04-30 and seen 2025-02-01 reads "22 meses": the days play no part |
| Dates.AgeLabelInYears | src/components/CadastroPaciente.jsx:97-99 | at 24 months on the month line the label switches to "2 anos" |
| App.NewPatient | src/App.jsx:124-132 | the entry `pac_<now>` named Novo Paciente, with empty birth date, sex M and the registration time; MainApp.NovoPaciente appends it |
| App.SaveInRoster | src/App.jsx:154-162 | same length; the entry with the id gets the fields merged in; every other entry is unchanged |
| App.PatientsMatching | src/App.jsx:270-272 | never more patients than the roster; members, order and multiplicity follow from the three lemmas below |
| App.NameMatches | src/App.jsx:271 | the search test: the lower-cased name contains the lower-cased search |
| App.PatientsMatchingMembers | src/App.jsx:270-272 | a patient is listed exactly when it is on the roster and its name matches |
| App.PatientsMatchingConcat | src/App.jsx:270-272 | the search distributes over concatenation, so roster order is kept |
| App.PatientsMatchingOne | src/App.jsx:270-272 | on a single patient the search keeps it exactly when its name matches, so multiplicity is kept |
| App.SearchLowersLatinExtended | src/App.jsx:270-272 | a patient named Łucja is found by the search ł |
| App.EmptySearchListsAll | src/App.jsx:270-272 | an empty search lists the whole roster |
| App.VisibleTabs | src/App.jsx:361-366 | every tab for a clinician; otherwise the `cadastro` tabs, as to membership (order in VisibleTabsConcat) |
| App.VisibleTabsConcat | src/App.jsx:361-366 | the tab filter distributes over concatenation, so the tabs keep their order |
| App.VisibleTabsOne | src/App.jsx:361-366 | on one tab, the front desk keeps it iff it is `cadastro` |
| App.FrontDeskTabs | src/App.jsx:361-366 | with the application's tab list, the front desk sees only the registration tab |
| App.Collected | src/App.jsx:184-193 | one entry per roster patient, in order, holding that patient's key-containing records |
| App.ExportOf | src/App.jsx:174-193 | the backup of version 1.0 with the roster and the collected records, nothing when a containing record does not parse; MainApp.Export computes it and ExportImportRoundTrip reads it back |
| App.ExportReachesOtherPatients | src/App.jsx:186-191 | the export under an id includes another patient's record whenever their id contains it |
| App.Fresh | src/App.jsx:243-247 | the appended patients never outnumber the backup's |
| App.FreshMembers | src/App.jsx:243-247 | a backup patient is appended exactly when its id is outside the id set taken before the loop |
| App.ValidBackup | src/App.jsx:223-226 | a non-empty version and present patient and record fields; ImportGuards shows an import proceeds only then |
| App.StoredRoster | src/App.jsx:240 | the stored roster; the empty one when nothing or the empty text is stored (`'' \|\| '[]'`); nothing when the value is not a roster |
| App.ImportOverEmptyRosterText | src/App.jsx:240-258 | with the empty text under `pediatria-pacientes`, the import proceeds as against an empty roster: every backup patient appended and every record written |
| App.ImportOf | src/App.jsx:214-268 | the whole import as a value: result, new roster and new store; MainApp.Import computes it and ImportGuards, ImportIdempotent and ExportImportRoundTrip are about it |
| App.ImportGuards | src/App.jsx:223-237 | an unreadable file, a missing field or a declined confirmation leaves roster and store unchanged |
| App.MergeRoster | src/App.jsx:240-247 | the existing roster followed by the fresh backup patients; its shape is MergeRosterShape and AppendAbsent computes it |
| App.MergeRosterShape | src/App.jsx:240-249 | the merged roster is the existing one, in order, followed by the fresh backup patients |
| App.DuplicateBackupIdsBothAppended | src/App.jsx:241-247 | two backup patients sharing a new id are both appended |
| App.FreshAgainstNothing | src/App.jsx:243-247 | against an empty roster every backup patient is appended |
| App.FreshAllKnown | src/App.jsx:243-247 | when every backup id is known nothing is appended |
| App.MergeCoversBackupIds | src/App.jsx:240-249 | after the merge every backup id is on the roster |
| App.ApplyEntries | src/App.jsx:253-258 | each entry's records written in file order; the next three lemmas say what that yields and WriteEntries computes it |
| App.ApplyEntriesIsOverwrite | src/App.jsx:253-258 | writing the entries equals one overwrite of the store by their union, later entries winning |
| App.ApplyEntriesUntouched | src/App.jsx:253-258 | a key carried by no entry keeps its old value or stays absent |
| App.ApplyEntriesLastWins | src/App.jsx:253-258 | a key ends with the value of the last entry carrying it, whatever was stored before |
| App.ApplyConsistentEntries | src/App.jsx:253-258 | entries that agree with one source store leave every key they carry holding that source's value |
| App.ImportIdempotent | src/App.jsx:240-260 | importing the same valid backup a second time changes neither the roster nor the store, for a backup holding no record under the roster key; no unique-id assumption is needed |
| App.ImportReportsBackupSize | src/App.jsx:260 | with every backup id already on the roster nothing is appended, yet the message reports the backup's patient count |
| App.ExportImportRoundTrip | src/App.jsx:174-193 | exporting then importing into an empty store reproduces the roster, reports its size and restores every exported key with its value |
| App.ImportIntoEmpty | src/App.jsx:240-258 | into an empty store a confirmed valid backup yields its own roster and the union of its records |
| App.CollectedAgreesWithStore | src/App.jsx:186-191 | every exported record holds exactly the stored value of its key |
| App.LoadedRoster | src/App.jsx:117-122 | the load: the stored roster, otherwise (nothing, the empty text, another shape) the empty roster |
| App.MainApp.Mount | src/App.jsx:117-122 | the roster is the stored one, or empty |
| App.MainApp.NovoPaciente | src/App.jsx:124-141 | appends `pac_<now>` named "Novo Paciente" with sex "M", persists the roster and opens the new patient |
| App.MainApp.Select | src/App.jsx:143-147 | the selected patient becomes the current one |
| App.MainApp.SaveCadastro | src/App.jsx:154-162 | merges the fields into the current patient's entry, persists the roster and refreshes the current patient |
| App.MainApp.DeletePaciente | src/App.jsx:164-172 | drops every entry with the id, persists the roster and closes the record |
| App.MainApp.CollectRecords | src/App.jsx:186-191 | the key loop yields a result iff every containing record parses, and then exactly the records whose key contains the id |
| App.MainApp.Export | src/App.jsx:174-193 | the loops build exactly the backup of the pure export: version, time, the roster verbatim and each patient's records |
| App.MainApp.WriteRecords | src/App.jsx:255-257 | the key loop leaves the old store overwritten by the record map |
| App.MainApp.WriteEntries | src/App.jsx:253-258 | the entry loop leaves the store that writing the entries in order produces |
| App.MainApp.Import | src/App.jsx:214-268 | the result, the roster and the store are those of the pure import (validation, confirmation, merge, overwrite) |
| App.AppendAbsent | src/App.jsx:240-247 | the push loop yields the existing roster followed by the fresh backup patients |
| Cadastro.AfterDelete | src/components/CadastroPaciente.jsx:74-84 | no key containing the id remains, every other key keeps its value, and the roster loses the patient |
| Cadastro.DeleteReachesLongerIds | src/components/CadastroPaciente.jsx:77 | deleting `p_1` also deletes the growth record of `p_12` |
| Cadastro.LoadedForm | src/components/CadastroPaciente.jsx:28-35 | the load: the stored record, otherwise the blank form |
| Cadastro.CadastroForm.Mount | src/components/CadastroPaciente.jsx:28-35 | the form is the stored record, or the blank form |
| Cadastro.CadastroForm.HandleChange | src/components/CadastroPaciente.jsx:38-40 | one field changed, nothing stored |
| Cadastro.CadastroForm.HandleSave | src/components/CadastroPaciente.jsx:42-60 | gated by the permission and by name and birth date; on success writes exactly `paciente-<id>` and merges the form into the roster |
| Cadastro.CadastroForm.KeysToRemove | src/components/CadastroPaciente.jsx:75-80 | the index loop collects exactly the keys containing the id |
| Cadastro.CadastroForm.RemoveKeys | src/components/CadastroPaciente.jsx:82 | every collected key is removed and every other key is unchanged |
| Cadastro.CadastroForm.HandleDelete | src/components/CadastroPaciente.jsx:62-90 | denied without `cadastro.delete`, nothing on a cancel; otherwise the store after the delete cascade |
| Crescimento.DateKey | src/modules/Crescimento.jsx:174-176 | the day number of the measurement's date, nothing when it does not read as a date |
| Crescimento.After | src/modules/Crescimento.jsx:174-176 | the comparator is positive: both dates read and the first is later; SortByDateSorts orders by it |
| Crescimento.Insert | src/modules/Crescimento.jsx:174-176 | one insertion step: a permutation of the list plus the element, one longer |
| Crescimento.SortByDate | src/modules/Crescimento.jsx:174-176 | a permutation of the list of the same length |
| Crescimento.InsertKeepsSorted | src/modules/Crescimento.jsx:174-176 | inserting a dated measurement into a sorted dated list keeps it sorted |
| Crescimento.SortByDateSorts | src/modules/Crescimento.jsx:174-176 | with every date readable the result is chronologically sorted |
| Crescimento.SortByDateOfSorted | src/modules/Crescimento.jsx:174-176 | sorting an already sorted list changes nothing |
| Crescimento.NewMeasurement | src/modules/Crescimento.jsx:167-172 | the draft fields with the BMI text, the age in months at the measurement date and the id `now` |
| Crescimento.AddMeasurement | src/modules/Crescimento.jsx:174-179 | the old list plus the new record, one longer |
| Crescimento.AddToSortedList | src/modules/Crescimento.jsx:174-176 | on a sorted list the add is one insertion at the record's place by date |
| Crescimento.AddKeepsChronology | src/modules/Crescimento.jsx:167-179 | a dated record added to a sorted dated list leaves it sorted and dated |
| Crescimento.ToggleMilestone | src/modules/Crescimento.jsx:207-216 | a tick appends the dated pair, an untick drops every entry of the pair; ToggleMilestoneAgrees states the result |
| Crescimento.IsMarcoChecked | src/modules/Crescimento.jsx:218-220 | some entry carries that age band and milestone |
| Crescimento.ToggleMilestoneAgrees | src/modules/Crescimento.jsx:207-220 | afterwards `isMarcoChecked` reads back the box; other pairs' entries are untouched |
| Crescimento.BlankMeasurement | src/modules/Crescimento.jsx:112-118 | the blank draft: dated today, every measure empty |
| Crescimento.LoadedMeasurements | src/modules/Crescimento.jsx:123-135 | the load: the stored measurements, otherwise none |
| Crescimento.LoadedMilestones | src/modules/Crescimento.jsx:123-135 | the load: the stored milestones, otherwise none |
| Crescimento.GrowthChart.Mount | src/modules/Crescimento.jsx:123-135 | the stored measurements and milestones, or empty lists |
| Crescimento.GrowthChart.HandleAddMedicao | src/modules/Crescimento.jsx:153-192 | gated by permission, weight and height; on success the sorted list is written to `crescimento-<id>` and the draft reset |
| Crescimento.GrowthChart.HandleRemoveMedicao | src/modules/Crescimento.jsx:194-205 | gated by permission and confirmation; on success filters the id out and writes the list |
| Crescimento.GrowthChart.HandleMarcoChange | src/modules/Crescimento.jsx:207-216 | silently ignored without permission; otherwise writes the toggled milestones to `marcos-<id>` |
| Crescimento.LoadedHistory | src/modules/Crescimento.jsx:16-23 | the load: the stored history, otherwise the blank one |
| Crescimento.MedicalHistory.Mount | src/modules/Crescimento.jsx:16-23 | the stored history, or the blank one |
| Crescimento.MedicalHistory.HandleChange | src/modules/Crescimento.jsx:26-32 | one field changed and `historico-medico-<id>` rewritten, with no permission check |
| Receituario.NamedMedications | src/modules/Receituario.jsx:66-70 | the filter never yields more lines than it was given |
| Receituario.NamedMedicationsMembers | src/modules/Receituario.jsx:66-70 | a line survives the filter exactly when it was given and carries a name |
| Receituario.NamedMedicationsConcat | src/modules/Receituario.jsx:66-70 | the filter distributes over concatenation, so the original order is kept |
| Receituario.NamedMedicationsOfNamed | src/modules/Receituario.jsx:66-70 | a list of named lines passes the filter unchanged |
| Receituario.SaveCheck | src/modules/Receituario.jsx:56-64 | `Done` iff permitted and some line is named; `Denied` without permission; `Rejected` otherwise |
| Receituario.NewPrescription | src/modules/Receituario.jsx:66-70 | the draft's date, guidance and return with id `now`, and exactly its named lines |
| Receituario.SavedPrescriptionHasMedication | src/modules/Receituario.jsx:61-70 | a prescription that passed the checks has at least one medication, all of them named |
| Receituario.AddLine | src/modules/Receituario.jsx:32-40 | the lines as before plus one blank line at the end, nothing else changed |
| Receituario.RemoveAt | src/modules/Receituario.jsx:42-47 | exactly the line at the index is removed and the others keep their order; out of range nothing changes |
| Receituario.RemoveAddedLine | src/modules/Receituario.jsx:32-47 | removing the line just added gives back the earlier lines |
| Receituario.ChangeLine | src/modules/Receituario.jsx:49-53 | one field of one line changed, every other line and field kept |
| Receituario.BlankDraft | src/modules/Receituario.jsx:12-17 | the blank draft: dated today, one blank oral medication line, empty guidance and return |
| Receituario.LoadedPrescriptions | src/modules/Receituario.jsx:23-30 | the load: the stored prescriptions, otherwise none |
| Receituario.PrescriptionPad.Mount | src/modules/Receituario.jsx:23-30 | the stored prescriptions, or none, and the blank draft |
| Receituario.PrescriptionPad.HandleAddMedicamento | src/modules/Receituario.jsx:32-40 | the draft gains one blank line |
| Receituario.PrescriptionPad.HandleRemoveMedicamento | src/modules/Receituario.jsx:42-47 | the draft loses the line at the index |
| Receituario.PrescriptionPad.HandleMedicamentoChange | src/modules/Receituario.jsx:49-53 | one field of one line of the draft changed |
| Receituario.PrescriptionPad.HandleSaveReceita | src/modules/Receituario.jsx:55-86 | on success the new prescription is prepended, the list written to `receitas-<id>` and the draft reset to one blank line |
| Receituario.PrescriptionPad.HandleRemoveReceita | src/modules/Receituario.jsx:88-95 | gated by permission and confirmation; on success filters the id out and writes the list |
| Atestados.NameOrPlaceholder | src/modules/Atestados.jsx:31 | the name, or `[NOME]` exactly when it is empty |
| Atestados.AgeClause | src/modules/Atestados.jsx:31 | `com <age>,` for a given age, `''` exactly when it is empty |
| Atestados.Template | src/modules/Atestados.jsx:30-34 | the three texts with the name (or [NOME]), the age clause and the guardian (or [RESPONSÁVEL]) filled in; TemplateWithoutAge is about it |
| Atestados.TemplateWithoutAge | src/modules/Atestados.jsx:30-34 | without an age each template holds the name followed by two spaces |
| Atestados.ApplyTemplate | src/modules/Atestados.jsx:227-232 | only `texto` changes; every other field and the key set are kept |
| Atestados.Title | src/modules/Atestados.jsx:132 | "DECLARAÇÃO" iff the kind is `declaracao`, otherwise "ATESTADO MÉDICO" |
| Atestados.Substitutions | src/modules/Atestados.jsx:140-145 | the five pairs in the printout's order, missing values as `''`, every placeholder holding a `[` |
| Atestados.Substitute | src/modules/Atestados.jsx:140-145 | the replacements applied in turn, each to the first occurrence; the lemmas below say what it does |
| Atestados.FullText | src/modules/Atestados.jsx:140-145 | the printed text: the certificate's text with the five substitutions; PlainTextPrintedVerbatim and ReplacementsChain are about it |
| Atestados.SubstituteAbsent | src/modules/Atestados.jsx:140-145 | replacements whose placeholders the text cannot contain change nothing |
| Atestados.PlainTextPrintedVerbatim | src/modules/Atestados.jsx:140-145 | a text without `[` is printed exactly as written |
| Atestados.SubstituteSkips | src/modules/Atestados.jsx:140-145 | a replacement whose placeholder the text cannot contain is skipped |
| Atestados.SubstituteAtStart | src/modules/Atestados.jsx:140-145 | a text starting with the first placeholder has it replaced there |
| Atestados.SkipsThenFills | src/modules/Atestados.jsx:140-145 | placeholders the text cannot contain are skipped, then the one it starts with is filled |
| Atestados.FirstDaysOnly | src/modules/Atestados.jsx:144 | `[DIAS]` at the start is filled with the days and the rest of the text is kept |
| Atestados.ReplacementsChain | src/modules/Atestados.jsx:141-142 | the replacements run in order, so a name holding `[IDADE]` is itself filled with the age |
| Atestados.BlankDraft | src/modules/Atestados.jsx:12-21 | the blank draft: an `atestado` dated and starting today, every text field empty |
| Records.LoadedEntries | src/modules/Atestados.jsx:37-44 | the load shared by certificates, episodes, allergies and visits: the stored list, otherwise none |
| Atestados.CertificatePad.Mount | src/modules/Atestados.jsx:37-44 | the stored certificates, or none, the blank draft, and the template of each kind built from the patient's name and age and the guardian's name |
| Atestados.CertificatePad.HandleSaveAtestado | src/modules/Atestados.jsx:46-80 | gated by permission and text; on success prepends the certificate with id `now`, writes `atestados-<id>` and resets the draft |
| Atestados.CertificatePad.HandleRemoveAtestado | src/modules/Atestados.jsx:82-89 | gated by permission and confirmation; on success filters the id out and writes the list |
| Atestados.CertificatePad.AplicarTemplate | src/modules/Atestados.jsx:227-232 | the draft's text becomes the chosen kind's template, its other fields are kept and nothing is stored |
| Intercorrencias.StatusLabel | src/modules/Intercorrencias.jsx:152-159 | the three known statuses map to their labels; any other status is returned unchanged |
| Intercorrencias.BlankEpisodeUnderTreatment | src/modules/Intercorrencias.jsx:11-21 | a fresh episode is shown as under treatment and cannot be added before it is filled in |
| Intercorrencias.RemoveAddedEpisode | src/modules/Intercorrencias.jsx:71-74 | removing a just-added episode with a fresh id gives back the earlier list |
| Intercorrencias.RemoveAddedAllergy | src/modules/Intercorrencias.jsx:116-121 | removing a just-added allergy with a fresh id gives back the earlier list |
| Intercorrencias.BlankEpisode | src/modules/Intercorrencias.jsx:11-21 | the blank episode: dated today, status `em_tratamento`, every text field empty |
| Intercorrencias.EpisodeLog.Mount | src/modules/Intercorrencias.jsx:46-58 | the stored episodes and allergies, or empty lists, and blank drafts |
| Intercorrencias.EpisodeLog.HandleAddIntercorrencia | src/modules/Intercorrencias.jsx:60-95 | gated by permission, kind and description; on success prepends, writes `intercorrencias-<id>` and resets the draft |
| Intercorrencias.EpisodeLog.HandleRemoveIntercorrencia | src/modules/Intercorrencias.jsx:97-108 | gated by permission and confirmation; on success filters the id out and writes the list |
| Intercorrencias.EpisodeLog.HandleAddAlergia | src/modules/Intercorrencias.jsx:110-131 | gated by permission and name; on success appends, writes `alergias-<id>` and resets the draft |
| Intercorrencias.EpisodeLog.HandleRemoveAlergia | src/modules/Intercorrencias.jsx:133-141 | gated by permission and confirmation; on success filters the id out and writes the list |
| Puericultura.BlankVisitNeedsOnlyDate | src/modules/Puericultura.jsx:11-23 | a fresh draft passes the field check, and the same draft with its date cleared is rejected |
| Puericultura.RemoveAddedVisit | src/modules/Puericultura.jsx:47-54 | removing a visit just prepended under a fresh id gives back the earlier visits |
| Puericultura.BlankVisit | src/modules/Puericultura.jsx:11-23 | the blank visit: dated today, every other field empty |
| Puericultura.WellChildVisits.Mount | src/modules/Puericultura.jsx:27-34 | the stored visits, or none, and the blank draft |
| Puericultura.WellChildVisits.HandleAddConsulta | src/modules/Puericultura.jsx:36-73 | gated by permission and date; on success prepends, writes `puericultura-<id>` and resets the draft |
| Puericultura.WellChildVisits.HandleRemoveConsulta | src/modules/Puericultura.jsx:75-86 | gated by permission and confirmation; on success filters the id out and writes the list |
| Vacinacao.InitialRows | src/modules/Vacinacao.jsx:23-34 | one row per calendar entry, with the index as id, not applied, all details empty |
| Vacinacao.InitialRowsDistinctIds | src/modules/Vacinacao.jsx:23-24 | the initial rows carry distinct ids |
| Vacinacao.InitialRowsAllPending | src/modules/Vacinacao.jsx:23-34 | a fresh card has every row pending and none applied |
| Vacinacao.NoneAppliedAllPending | src/modules/Vacinacao.jsx:83-85 | with no row applied the pending list is the whole card |
| Vacinacao.Pending | src/modules/Vacinacao.jsx:83-85 | exactly the rows not applied, as to membership; order in FiltersConcat |
| Vacinacao.Applied | src/modules/Vacinacao.jsx:79 | exactly the rows applied, as to membership; order in FiltersConcat |
| Vacinacao.FiltersConcat | src/modules/Vacinacao.jsx:79-85 | both filters distribute over concatenation, so they keep card order |
| Vacinacao.FiltersOfOne | src/modules/Vacinacao.jsx:79-85 | on one row exactly one of the filters keeps it, by its flag |
| Vacinacao.AppliedPlusPending | src/modules/Vacinacao.jsx:179 | applied plus pending counts add up to the total |
| Vacinacao.Coverage | src/modules/Vacinacao.jsx:77-81 | between 0 and 100, and 0 for an empty card |
| Vacinacao.PercentBounds | src/modules/Vacinacao.jsx:80 | a share of a out of n lies in 0..100 and is 100 iff a equals n |
| Vacinacao.FullCoverage | src/modules/Vacinacao.jsx:77-85 | coverage is 100 iff the card is not empty and nothing is pending |
| Vacinacao.Toggle | src/modules/Vacinacao.jsx:63-70 | the flag flips; the application date becomes today when applied and `''` when not; other details kept |
| Vacinacao.ToggleRows | src/modules/Vacinacao.jsx:63-71 | every row with the id toggled, the others kept; ToggleTwice, ToggleKeepsCalendar and ToggleAddsOneApplied are about it |
| Vacinacao.ToggleTwice | src/modules/Vacinacao.jsx:63-70 | toggling twice restores every flag and leaves an unapplied row's date empty |
| Vacinacao.ToggleKeepsCalendar | src/modules/Vacinacao.jsx:63-70 | a toggle keeps the length and every row's id and vaccine |
| Vacinacao.ToggleAddsOneApplied | src/modules/Vacinacao.jsx:63-70 | toggling an unapplied row with a unique id adds exactly one applied vaccine |
| Vacinacao.UntouchedApplied | src/modules/Vacinacao.jsx:63-70 | toggling an id no row carries changes nothing |
| Vacinacao.ChangeRows | src/modules/Vacinacao.jsx:46-50 | same length; only rows with the id change, and only in that one field |
| Vacinacao.ChangeAllowed | src/modules/Vacinacao.jsx:41 | allowed iff permitted or the field is `dataAplicacao` |
| Vacinacao.LoadedRows | src/modules/Vacinacao.jsx:17-38 | the stored card, or the initial rows from the calendar |
| Vacinacao.VaccinationCard.Mount | src/modules/Vacinacao.jsx:17-38 | no rows without an id; otherwise the stored card or the calendar rows, nothing written |
| Vacinacao.VaccinationCard.HandleVacinaChange | src/modules/Vacinacao.jsx:40-54 | denied unless allowed; otherwise the changed rows are written to `vacinas-<id>` |
| Vacinacao.VaccinationCard.HandleToggleVacina | src/modules/Vacinacao.jsx:56-75 | denied without permission; otherwise the toggled rows are written to `vacinas-<id>` |
| Aleitamento.ToggleDifficulty | src/modules/Aleitamento.jsx:74-78 | an absent difficulty is appended, a present one removed entirely; no other difficulty changes |
| Aleitamento.ToggleDifficultyTwice | src/modules/Aleitamento.jsx:74-79 | ticking then unticking an absent difficulty gives back the same list |
| Aleitamento.UntickKeepsOrder | src/modules/Aleitamento.jsx:75-76 | unticking keeps the other difficulties in their order |
| Aleitamento.LoadedRecord | src/modules/Aleitamento.jsx:61-68 | the load: the stored assessment, otherwise the default one |
| Aleitamento.BreastfeedingForm.Mount | src/modules/Aleitamento.jsx:61-68 | the stored assessment, or the default one |
| Aleitamento.BreastfeedingForm.HandleChange | src/modules/Aleitamento.jsx:70-72 | one field changed, nothing stored |
| Aleitamento.BreastfeedingForm.HandleDificuldadeToggle | src/modules/Aleitamento.jsx:74-80 | the difficulty list toggled, nothing stored |
| Aleitamento.BreastfeedingForm.HandleSave | src/modules/Aleitamento.jsx:82-95 | without permission nothing is written or forwarded; otherwise `aleitamento-<id>` holds the record and `onSave` receives it |
| Neonatal.InterpretApgar | src/modules/DadosNeonatais.jsx:80-86 | `''` iff the input is empty; otherwise one of the three readings, and low whenever `parseInt` gives NaN |
| Neonatal.ApgarThresholds | src/modules/DadosNeonatais.jsx:82-85 | a score of 8 or more reads normal, 5 to 7 moderate, under 5 low |
| Neonatal.ApgarAfterIdeographicSpace | src/modules/DadosNeonatais.jsx:80-86 | a 9 after an ideographic space reads normal, because `parseInt` skips that space |
| Neonatal.LoadedForm | src/modules/DadosNeonatais.jsx:52-59 | the load: the stored record, otherwise the default one |
| Neonatal.NeonatalForm.Mount | src/modules/DadosNeonatais.jsx:52-59 | the stored record, or the default one |
| Neonatal.NeonatalForm.HandleChange | src/modules/DadosNeonatais.jsx:61-63 | one field changed, nothing stored |
| Neonatal.NeonatalForm.HandleSave | src/modules/DadosNeonatais.jsx:65-78 | without permission nothing is written or forwarded; otherwise `neonatal-<id>` holds the record and `onSave` receives it |

## Left out

- Rendering, icons, charts and the tab bar markup are not modelled; of the tab bar, only the filter rule is.
- PDF generation (jsPDF, autoTable, page layout, file names) is not modelled. The certificate's placeholder substitution and title are.
- `formatDate` (`toLocaleDateString('pt-BR')`) is a function parameter and is not interpreted.
- Floating-point output is not modelled:
  - the BMI (`calcularIMC`, `toFixed`) enters the growth handler as its text;
  - the coverage is the exact ratio, without `toFixed(1)`;
  - `parseFloat` for the charts is not modelled.
- `new Date()` is modelled on `YYYY-MM-DD` strings only, with no month-length validation. There is no UTC versus local time ("today" and "now" are parameters).
- Crescimento.SortByDate: JavaScript leaves the order unspecified when a comparator returns NaN (an invalid date), and the model fixes one stable order there.
- JSON parse/stringify are the identity on documents. A stored value of another shape loads as the default value, which matches the JavaScript only where the shapes agree. The import's read of the roster is the exception: there a non-empty value that is not a roster ends the import in `ReadError` before any write, as the throwing `JSON.parse` or `map` would reach the catch; the empty text reads as `[]`, as `|| '[]'` makes it. A string that is not JSON is `Malformed`.
- Auth.RestoreDecisionFor: every stored session record carries a user. A record such as `{"timestamp": <recent>}` has no counterpart here. The source resumes it: it sets the user to `undefined` and `isAuthenticated` to true and keeps the record, and the roster screen then fails on `user.name` at every start within eight hours. So `AuthState.Valid` (`isAuthenticated` iff a user is set) holds in the model partly because such a record cannot be stored.
- Storage.Store.SetItem always succeeds. `localStorage.setItem` throws when the quota is exceeded, and that is not modelled. In the module handlers the new state is set before the write, so state and store would disagree.
- App.MainApp.Import is all-or-nothing: it ends in `ImportOf`. When a write throws mid-import, the source has already written the roster and some records, and it reports the error. That partial store is not modelled.
- Text.ToLower: only the capitals of ASCII, Latin-1, Latin Extended-A, basic Greek and basic Cyrillic are lowered. Other Unicode capitals are kept. The dotted capital I (U+0130) is kept, where JavaScript gives two characters. The final-sigma rule is not applied either.
- Roles.HasPermission treats every role outside the table as granting nothing. A role naming an inherited property of the table object (`toString`, `constructor`) makes the source throw a TypeError instead. Only a tampered session record can carry such a role.
- Object key order in a backup (integer-like keys first in JavaScript) is not modelled: the entries keep file order. Backup fields that are present but not arrays or objects are not modelled.
- Browser plumbing (FileReader, Blob, downloads, `alert`, `setTimeout`) is not modelled; `window.confirm` is the `confirmed` parameter.
- Hook timing is not modelled: each handler is one atomic step.
- Cross-tab races on the browser store are not modelled.
- Text.ReplaceFirst: the special `$` patterns of `String.prototype.replace` in the replacement string are not interpreted.
- Receituario.PrescriptionPad.HandleMedicamentoChange: the source mutates the line object in place before copying the list. The model writes a fresh line. No other reference to the old line is observable, because the draft is replaced on save.
- Receituario.PrescriptionPad.HandleMedicamentoChange requires a valid line index; on any other index the source throws a TypeError.
- App.PatientsMatching assumes every roster entry has a name. With `nome` missing the source throws.
- Atestados.ApplyTemplate: the three template keys are a datatype, so `templates[unknownKey]` (undefined) is not modelled.
- Atestados.FullText takes the patient name as a string; the source prints "undefined" when none is passed.
- Vacinacao.ChangeRows edits only the string detail fields. Writing `aplicada`, `id` or a calendar field through `handleVacinaChange` is not modelled.
- Aleitamento.BreastfeedingForm.HandleChange edits the form fields only; using it on the `dificuldades` key is not modelled.
- A `Malformed` value under a module's key loads as the default. In the browser `JSON.parse` would throw inside the effect.
- src/config/modules.js is passed in: the vaccination calendar as a parameter and the tab ids as a constant.
