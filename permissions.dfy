/**
 * Who may see and change what: the helper `user_is_project_admin_or_manager`,
 * the base-template choice, the landing redirect of the index page and the
 * access checks the project pages repeat inline.
 */
module Permissions {
  import opened Wrappers
  import opened Users
  import opened Models

  /** Some project names `u` as its team head. */
  predicate HeadsSomeProject(t: Tables, u: UserId) {
    exists p :: p in t.projects && p.teamHead == Some(u)
  }

  /** `u` has a membership row (in any role) on the project. */
  predicate IsMember(t: Tables, project: Id, u: UserId) {
    exists m :: m in t.members && m.project == project && m.user == u
  }

  /**
   * `user_is_project_admin_or_manager(user, project)`: management always; with
   * a project, its team head; without one, anybody who heads some project.
   */
  function IsAdminOrManager(t: Tables, who: Principal, project: Option<Project>): (r: bool)
    ensures r ==> who.IsAuthenticated()
    ensures who.IsAuthenticated() && who.user.role == Management ==> r
  {
    if !who.IsAuthenticated() then false
    else if who.user.role == Management then true
    else if project.Some? then project.value.teamHead == Some(who.user.id)
    else HeadsSomeProject(t, who.user.id)
  }

  /**
   * Asked without a project, the helper holds exactly when it holds for some
   * project of the database (or the user is management).
   */
  lemma AdminWithoutProject(t: Tables, who: Principal)
    ensures IsAdminOrManager(t, who, None) <==>
      who.IsAuthenticated()
      && (who.user.role == Management || exists p :: p in t.projects && IsAdminOrManager(t, who, Some(p)))
  {
    if who.IsAuthenticated() && who.user.role.Employee? && HeadsSomeProject(t, who.user.id) {
      var p :| p in t.projects && p.teamHead == Some(who.user.id);
      assert IsAdminOrManager(t, who, Some(p));
    }
  }

  datatype BaseTemplate = BaseManagement | BaseEmployee

  /** `get_base_template`: the management layout exactly for management users. */
  function BaseTemplateOf(u: User): (r: BaseTemplate)
    ensures r == BaseManagement <==> u.role == Management
    ensures r == BaseEmployee <==> u.role.Employee?
  {
    if u.role == Management then BaseManagement else BaseEmployee
  }

  datatype Landing = LoginPage | ManagementDashboard | ProjectList

  /** `index_view` behind `login_required`. */
  function IndexView(t: Tables, who: Principal): (r: Landing)
    ensures r == LoginPage <==> !who.IsAuthenticated()
  {
    if !who.IsAuthenticated() then LoginPage
    else if IsAdminOrManager(t, who, None) then ManagementDashboard
    else if who.user.role.Employee? then ProjectList
    else LoginPage
  }

  /** A signed-in user lands on the management dashboard iff management or heading some project. */
  lemma IndexViewLanding(t: Tables, u: User)
    ensures IndexView(t, Authenticated(u)) == ManagementDashboard <==>
      u.role == Management || HeadsSomeProject(t, u.id)
    ensures IndexView(t, Authenticated(u)) == ProjectList <==>
      u.role.Employee? && !HeadsSomeProject(t, u.id)
  {
  }

  /** Project detail, chat, updates and meeting pages: management, members and the team head. */
  predicate CanViewProject(t: Tables, u: User, p: Project) {
    u.role == Management || IsMember(t, p.id, u.id) || p.teamHead == Some(u.id)
  }

  /** Posting updates, setting the meeting link, ending a meeting: management or the team head. */
  predicate CanLeadProject(u: User, p: Project) {
    u.role == Management || p.teamHead == Some(u.id)
  }

  /** `team_head_only_required`: the team head alone, management included or not. */
  predicate IsTeamHead(u: User, p: Project) {
    p.teamHead == Some(u.id)
  }

  /**
   * The checks nest: the team head may lead, whoever may lead may view, and
   * the helper asked about a project is exactly the lead check.
   */
  lemma AccessLadder(t: Tables, u: User, p: Project)
    ensures IsTeamHead(u, p) ==> CanLeadProject(u, p)
    ensures CanLeadProject(u, p) ==> CanViewProject(t, u, p)
    ensures IsAdminOrManager(t, Authenticated(u), Some(p)) <==> CanLeadProject(u, p)
  {
  }

  /** `is_team_head` of the project list: an employee who heads some project. */
  lemma ListTeamHead(t: Tables, u: User)
    ensures (IsAdminOrManager(t, Authenticated(u), None) && u.role != Management) <==>
      (u.role.Employee? && HeadsSomeProject(t, u.id))
  {
  }
}
