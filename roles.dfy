/**
 * Role based access control: the static role table and the three permission
 * queries. A role or permission that JavaScript treats as falsy (`''`, `null`,
 * `undefined`) is written here as the empty string.
 */
module Roles {
  import opened Wrappers

  const Medico := "medico"
  const Secretaria := "secretaria"

  const CadastroCreate := "cadastro.create"
  const CadastroRead := "cadastro.read"
  const CadastroUpdate := "cadastro.update"
  const CadastroDelete := "cadastro.delete"
  const AgendamentoCreate := "agendamento.create"
  const AgendamentoRead := "agendamento.read"
  const AgendamentoUpdate := "agendamento.update"
  const AgendamentoDelete := "agendamento.delete"
  const ProntuarioRead := "prontuario.read"
  const ProntuarioWrite := "prontuario.write"
  const NeonatalRead := "neonatal.read"
  const NeonatalWrite := "neonatal.write"
  const CrescimentoRead := "crescimento.read"
  const CrescimentoWrite := "crescimento.write"
  const VacinacaoRead := "vacinacao.read"
  const VacinacaoWrite := "vacinacao.write"
  const AleitamentoRead := "aleitamento.read"
  const AleitamentoWrite := "aleitamento.write"
  const PuericulturaRead := "puericultura.read"
  const PuericulturaWrite := "puericultura.write"
  const IntercorrenciasRead := "intercorrencias.read"
  const IntercorrenciasWrite := "intercorrencias.write"
  const ReceituarioRead := "receituario.read"
  const ReceituarioWrite := "receituario.write"
  const AtestadoRead := "atestado.read"
  const AtestadoWrite := "atestado.write"
  const FinanceiroRead := "financeiro.read"
  const FinanceiroWrite := "financeiro.write"
  const RelatoriosRead := "relatorios.read"
  const RelatoriosExport := "relatorios.export"
  const ConfigRead := "config.read"
  const ConfigWrite := "config.write"

  /** `Object.values(PERMISSIONS)`, in declaration order. */
  const AllPermissions: seq<string> := [
    CadastroCreate, CadastroRead, CadastroUpdate, CadastroDelete,
    AgendamentoCreate, AgendamentoRead, AgendamentoUpdate, AgendamentoDelete,
    ProntuarioRead, ProntuarioWrite, NeonatalRead, NeonatalWrite,
    CrescimentoRead, CrescimentoWrite, VacinacaoRead, VacinacaoWrite,
    AleitamentoRead, AleitamentoWrite, PuericulturaRead, PuericulturaWrite,
    IntercorrenciasRead, IntercorrenciasWrite, ReceituarioRead, ReceituarioWrite,
    AtestadoRead, AtestadoWrite, FinanceiroRead, FinanceiroWrite,
    RelatoriosRead, RelatoriosExport, ConfigRead, ConfigWrite
  ]

  /** The front desk grant: patient registration without delete, and the whole scheduling group. */
  const SecretariaPermissions: seq<string> := [
    CadastroCreate, CadastroRead, CadastroUpdate,
    AgendamentoCreate, AgendamentoRead, AgendamentoUpdate, AgendamentoDelete
  ]

  /** The tokens that read or write clinical records. */
  const ClinicalPermissions: seq<string> := [
    ProntuarioRead, ProntuarioWrite, NeonatalRead, NeonatalWrite,
    CrescimentoRead, CrescimentoWrite, VacinacaoRead, VacinacaoWrite,
    AleitamentoRead, AleitamentoWrite, PuericulturaRead, PuericulturaWrite,
    IntercorrenciasRead, IntercorrenciasWrite, ReceituarioRead, ReceituarioWrite,
    AtestadoRead, AtestadoWrite
  ]

  /** `ROLE_PERMISSIONS[role]`: `None` for a role the table does not list. */
  function RolePermissions(role: string): Option<seq<string>>
  {
    if role == Medico then Some(AllPermissions)
    else if role == Secretaria then Some(SecretariaPermissions)
    else None
  }

  /** `hasPermission(role, permission)`. */
  function HasPermission(role: string, permission: string): (r: bool)
    ensures r ==> role != "" && permission != ""
    ensures r ==> role == Medico || role == Secretaria
    ensures r <==> RolePermissions(role).Some? && permission != "" && permission in RolePermissions(role).value
  {
    if role == "" || permission == "" then false
    else
      match RolePermissions(role)
      case None => false
      case Some(granted) => permission in granted
  }

  /** `permissions.every(p => hasPermission(role, p))`. */
  function Every(role: string, permissions: seq<string>): bool
  {
    if permissions == [] then true
    else HasPermission(role, permissions[0]) && Every(role, permissions[1..])
  }

  /** `permissions.some(p => hasPermission(role, p))`. */
  function Any(role: string, permissions: seq<string>): bool
  {
    if permissions == [] then false
    else HasPermission(role, permissions[0]) || Any(role, permissions[1..])
  }

  /** `hasAllPermissions(role, permissions)`; `None` is an argument that is not an array. */
  function HasAllPermissions(role: string, permissions: Option<seq<string>>): (r: bool)
    ensures permissions.None? ==> !r
    ensures permissions == Some([]) ==> r
  {
    match permissions
    case None => false
    case Some(ps) => Every(role, ps)
  }

  /** `hasAnyPermission(role, permissions)`; `None` is an argument that is not an array. */
  function HasAnyPermission(role: string, permissions: Option<seq<string>>): (r: bool)
    ensures permissions.None? ==> !r
    ensures permissions == Some([]) ==> !r
  {
    match permissions
    case None => false
    case Some(ps) => Any(role, ps)
  }

  /** A role outside the table is granted nothing. */
  lemma UnknownRoleGrantedNothing(role: string, permission: string)
    requires role != Medico && role != Secretaria
    ensures !HasPermission(role, permission)
    ensures forall ps :: !HasAnyPermission(role, Some(ps))
  {
    forall ps ensures !HasAnyPermission(role, Some(ps)) {
      HasAnyIsDisjunction(role, ps);
    }
  }

  /** `medico` holds exactly the values of PERMISSIONS. */
  lemma MedicoHoldsEveryPermission()
    ensures forall p :: HasPermission(Medico, p) <==> p in AllPermissions
    ensures |AllPermissions| == 32
  {
  }

  /** `secretaria` holds exactly seven tokens, none clinical and not `cadastro.delete`. */
  lemma SecretariaGrant()
    ensures forall p :: HasPermission(Secretaria, p) <==> p in SecretariaPermissions
    ensures |SecretariaPermissions| == 7
    ensures !HasPermission(Secretaria, CadastroDelete)
    ensures forall i :: 0 <= i < |ClinicalPermissions| ==> !HasPermission(Secretaria, ClinicalPermissions[i])
  {
  }

  /** Everything the front desk may do, the clinician may do too. */
  lemma SecretariaSubsetOfMedico()
    ensures forall p :: HasPermission(Secretaria, p) ==> HasPermission(Medico, p)
    ensures exists p :: HasPermission(Medico, p) && !HasPermission(Secretaria, p)
  {
    assert HasPermission(Medico, CadastroDelete) && !HasPermission(Secretaria, CadastroDelete);
  }

  /** `hasAllPermissions` on a list is the conjunction of `hasPermission` over it. */
  lemma {:induction false} HasAllIsConjunction(role: string, ps: seq<string>)
    ensures HasAllPermissions(role, Some(ps)) <==> forall i :: 0 <= i < |ps| ==> HasPermission(role, ps[i])
  {
    if ps != [] {
      HasAllIsConjunction(role, ps[1..]);
      assert forall i :: 1 <= i < |ps| ==> ps[i] == ps[1..][i - 1];
    }
  }

  /** `hasAnyPermission` on a list is the disjunction of `hasPermission` over it. */
  lemma {:induction false} HasAnyIsDisjunction(role: string, ps: seq<string>)
    ensures HasAnyPermission(role, Some(ps)) <==> exists i :: 0 <= i < |ps| && HasPermission(role, ps[i])
  {
    if ps != [] {
      HasAnyIsDisjunction(role, ps[1..]);
      assert forall i :: 1 <= i < |ps| ==> ps[i] == ps[1..][i - 1];
      if HasPermission(role, ps[0]) {
        assert HasPermission(role, ps[0]);
      } else if exists i :: 0 <= i < |ps| && HasPermission(role, ps[i]) {
        var i :| 0 <= i < |ps| && HasPermission(role, ps[i]);
        assert i >= 1 && HasPermission(role, ps[1..][i - 1]);
      }
    }
  }
}
