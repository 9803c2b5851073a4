/**
 * The project lists of the dashboards and of the project list page: which
 * projects a user sees, which of them are urgent, and the order they are
 * listed in.
 */
module Dashboard {
  import opened Wrappers
  import opened Choices
  import opened Users
  import opened Dates
  import opened Rows
  import opened Models
  import opened Permissions

  /** `today + timedelta(days=5)`; `None` where that raises `OverflowError`. */
  function Threshold(today: Date): (r: Option<Date>)
    requires Dates.Valid(today)
    ensures r.Some? ==> Dates.Valid(r.value)
  {
    AddDays(today, 5)
  }

  /** The codes the urgency annotation lists for `project_status_update`. */
  const UrgentCodes: seq<string> := ["PENDING", "PARTIALLY_DONE", "INCOMPLETE"]

  /** The `is_urgent` annotation: due by the threshold and not complete. */
  predicate IsUrgent(p: Project, threshold: Date) {
    p.endDate.Some? && Le(p.endDate.value, threshold) && p.statusUpdate.Code() in UrgentCodes
  }

  /**
   * A project is urgent exactly when it has an end date at most five days
   * from today and its status update is not COMPLETE.
   */
  lemma UrgentIff(p: Project, today: Date)
    requires Dates.Valid(today) && Threshold(today).Some?
    requires p.endDate.Some? ==> Dates.Valid(p.endDate.value)
    ensures IsUrgent(p, Threshold(today).value) <==>
      p.endDate.Some? && Ordinal(p.endDate.value) <= Ordinal(today) + 5 && p.statusUpdate != Complete
  {
    AddDaysOrdinal(today, 5);
    if p.endDate.Some? {
      LeIffOrdinal(p.endDate.value, Threshold(today).value);
    }
  }

  /** A COMPLETE project is never urgent, whatever its end date. */
  lemma CompleteNeverUrgent(p: Project, threshold: Date)
    requires p.statusUpdate == Complete
    ensures !IsUrgent(p, threshold)
  {
    assert Complete.Code() == "COMPLETE";
  }

  // ---------------------------------------------------------------------
  // Orderings
  // ---------------------------------------------------------------------

  /** `end_date` ascending, a missing end date after every present one. */
  predicate EndDateLe(a: Option<Date>, b: Option<Date>) {
    b.None? || (a.Some? && Le(a.value, b.value))
  }

  /** `order_by('-is_urgent', 'end_date')` of both dashboards. */
  predicate DashboardLe(a: Project, b: Project, threshold: Date) {
    (IsUrgent(a, threshold) && !IsUrgent(b, threshold))
    || (IsUrgent(a, threshold) == IsUrgent(b, threshold) && EndDateLe(a.endDate, b.endDate))
  }

  /** `order_by('-is_urgent', '-created_at')` of the project list page. */
  predicate ListLe(a: Project, b: Project, threshold: Date) {
    (IsUrgent(a, threshold) && !IsUrgent(b, threshold))
    || (IsUrgent(a, threshold) == IsUrgent(b, threshold) && a.createdAt >= b.createdAt)
  }

  lemma DashboardPreorder(threshold: Date)
    ensures TotalPreorder((a: Project, b: Project) => DashboardLe(a, b, threshold))
  {
    var le := (a: Project, b: Project) => DashboardLe(a, b, threshold);
    forall a: Project, b: Project, c: Project | le(a, b) && le(b, c) ensures le(a, c) {
      if a.endDate.Some? && b.endDate.Some? && c.endDate.Some? {
        assert Le(a.endDate.value, b.endDate.value) || IsUrgent(a, threshold) != IsUrgent(b, threshold);
      }
    }
  }

  lemma ListPreorder(threshold: Date)
    ensures TotalPreorder((a: Project, b: Project) => ListLe(a, b, threshold))
  {
  }

  /**
   * Projects ordered as the dashboards list them: urgent ones first, then by
   * end date; `None` where computing the threshold overflows.
   */
  function DashboardOrder(projects: seq<Project>, today: Date): (r: Option<seq<Project>>)
    requires Dates.Valid(today)
    ensures r.Some? <==> Threshold(today).Some?
    ensures r.Some? ==> multiset(r.value) == multiset(projects)
    ensures r.Some? ==> forall i, j :: 0 <= i < j < |r.value| ==>
      DashboardLe(r.value[i], r.value[j], Threshold(today).value)
  {
    match Threshold(today)
    case None => None
    case Some(th) =>
      DashboardPreorder(th);
      Some(SortWith(projects, (a: Project, b: Project) => DashboardLe(a, b, th)))
  }

  /** The project list page's order: urgent first, then newest first. */
  function ListOrder(projects: seq<Project>, today: Date): (r: Option<seq<Project>>)
    requires Dates.Valid(today)
    ensures r.Some? <==> Threshold(today).Some?
    ensures r.Some? ==> multiset(r.value) == multiset(projects)
    ensures r.Some? ==> forall i, j :: 0 <= i < j < |r.value| ==>
      ListLe(r.value[i], r.value[j], Threshold(today).value)
  {
    match Threshold(today)
    case None => None
    case Some(th) =>
      ListPreorder(th);
      Some(SortWith(projects, (a: Project, b: Project) => ListLe(a, b, th)))
  }

  /**
   * In a dashboard ordering no project listed after a non-urgent one is
   * urgent, and within the same urgency end dates do not decrease.
   */
  lemma UrgentFirst(r: seq<Project>, threshold: Date, i: int, j: int)
    requires forall x, y :: 0 <= x < y < |r| ==> DashboardLe(r[x], r[y], threshold)
    requires 0 <= i < j < |r|
    ensures IsUrgent(r[j], threshold) ==> IsUrgent(r[i], threshold)
    ensures IsUrgent(r[i], threshold) == IsUrgent(r[j], threshold) ==> EndDateLe(r[i].endDate, r[j].endDate)
  {
    assert DashboardLe(r[i], r[j], threshold);
  }

  // ---------------------------------------------------------------------
  // Who sees which projects
  // ---------------------------------------------------------------------

  function ProjectsLedOrJoined(t: Tables, u: UserId): (r: seq<Project>)
    ensures forall p :: p in r <==> p in t.projects && (IsMember(t, p.id, u) || p.teamHead == Some(u))
  {
    Filter(t.projects, (p: Project) => IsMember(t, p.id, u) || p.teamHead == Some(u))
  }

  /** The employee dashboard: projects the user belongs to or heads, dashboard order. */
  function EmployeeDashboard(t: Tables, u: User, today: Date): (r: Option<seq<Project>>)
    requires Dates.Valid(today)
    ensures r.Some? <==> Threshold(today).Some?
    ensures r.Some? ==> forall p :: p in r.value <==>
      p in t.projects && (IsMember(t, p.id, u.id) || p.teamHead == Some(u.id))
    ensures r.Some? ==> forall i, j :: 0 <= i < j < |r.value| ==>
      DashboardLe(r.value[i], r.value[j], Threshold(today).value)
  {
    var mine := ProjectsLedOrJoined(t, u.id);
    var r := DashboardOrder(mine, today);
    assert r.Some? ==> forall p :: p in r.value <==> p in multiset(mine);
    r
  }

  /** The project has a task page assigned to `u`. */
  predicate HasPageFor(t: Tables, project: Id, u: UserId) {
    exists p :: p in t.taskPages && p.project == project && p.assignedTo == u
  }

  /** Management sees every project; anyone else sees those they join, work on or head. */
  predicate SeesInList(t: Tables, u: User, p: Project) {
    u.role == Management || IsMember(t, p.id, u.id) || HasPageFor(t, p.id, u.id) || p.teamHead == Some(u.id)
  }

  function VisibleProjects(t: Tables, u: User): (r: seq<Project>)
    ensures forall p :: p in r <==> p in t.projects && SeesInList(t, u, p)
  {
    if u.role == Management then t.projects
    else Filter(t.projects, (p: Project) =>
      IsMember(t, p.id, u.id) || HasPageFor(t, p.id, u.id) || p.teamHead == Some(u.id))
  }

  /** The project list page: the visible projects, urgent first, then newest first. */
  function ProjectListFor(t: Tables, u: User, today: Date): (r: Option<seq<Project>>)
    requires Dates.Valid(today)
    ensures r.Some? <==> Threshold(today).Some?
    ensures r.Some? ==> forall p :: p in r.value <==> p in t.projects && SeesInList(t, u, p)
    ensures r.Some? ==> forall i, j :: 0 <= i < j < |r.value| ==>
      ListLe(r.value[i], r.value[j], Threshold(today).value)
  {
    var base := VisibleProjects(t, u);
    var r := ListOrder(base, today);
    assert r.Some? ==> forall p :: p in r.value <==> p in multiset(base);
    r
  }

  /** The employee's open task pages (`is_complete=False`). */
  function OpenTasks(t: Tables, u: UserId): (r: seq<TaskPage>)
    ensures forall p :: p in r <==> p in t.taskPages && p.assignedTo == u && !p.isComplete
  {
    Filter(t.taskPages, (p: TaskPage) => p.assignedTo == u && !p.isComplete)
  }

  /** `recent_projects = all_projects[:6]`. */
  function Recent(ordered: seq<Project>): (r: seq<Project>)
    ensures |r| == if |ordered| < 6 then |ordered| else 6
    ensures r <= ordered
  {
    if |ordered| < 6 then ordered else ordered[..6]
  }
}
