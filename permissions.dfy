/** Page access by role (utils/permissions.ts): a fixed table of the pages each role may
    open, and the membership test the navigation consults. */
module Permissions {
  import opened Types

  /** The `PERMISSIONS` table. */
  function PagesOf(role: UserRole): seq<Page> {
    match role
    case Admin => [Dashboard, Reservas, Hospedes, Quartos, Financeiro, Administracao]
    case Gerente => [Dashboard, Reservas, Hospedes, Quartos, Financeiro]
    case Recepcionista => [Dashboard, Reservas, Hospedes, Quartos]
  }

  /** `hasPermission`: the page is in the role's list. */
  predicate HasPermission(role: UserRole, page: Page) {
    page in PagesOf(role)
  }

  /** What the table grants: admin sees everything, gerente everything but administration,
      recepcionista neither finance nor administration. */
  lemma PermissionsByRole(role: UserRole, page: Page)
    ensures HasPermission(role, page) <==> match role
      case Admin => true
      case Gerente => page != Administracao
      case Recepcionista => page != Financeiro && page != Administracao
  {
    var pages := PagesOf(role);
    match page
    case Dashboard => assert pages[0] == page;
    case Reservas => assert pages[1] == page;
    case Hospedes => assert pages[2] == page;
    case Quartos => assert pages[3] == page;
    case Financeiro => if role != Recepcionista { assert pages[4] == page; }
    case Administracao => if role == Admin { assert pages[5] == page; }
  }

  /** Each role may do at least what the role below it may: recepcionista, then gerente,
      then admin. */
  lemma RolesNest(page: Page)
    ensures HasPermission(Recepcionista, page) ==> HasPermission(Gerente, page)
    ensures HasPermission(Gerente, page) ==> HasPermission(Admin, page)
  {
    PermissionsByRole(Recepcionista, page);
    PermissionsByRole(Gerente, page);
    PermissionsByRole(Admin, page);
  }

  /** Every role may open the dashboard. */
  lemma DashboardForAll(role: UserRole)
    ensures HasPermission(role, Dashboard)
  {
    PermissionsByRole(role, Dashboard);
  }

  /** Only admin may open the administration pages, and only recepcionista is kept out of
      finance. */
  lemma RestrictedPages(role: UserRole)
    ensures HasPermission(role, Administracao) <==> role == Admin
    ensures HasPermission(role, Financeiro) <==> role != Recepcionista
  {
    PermissionsByRole(role, Administracao);
    PermissionsByRole(role, Financeiro);
  }
}
