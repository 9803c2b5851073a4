/**
 * The views that change the database, as methods of one object holding the
 * tables and the channel layer the `post_save` receivers publish to. Each
 * method checks what the view checks, in the view's order, and on success
 * leaves the tables as the row-level edits of `Mutations` and `FanOut` say;
 * every method keeps the database consistent.
 */
module Store {
  import opened Wrappers
  import opened Choices
  import opened Users
  import opened Text
  import opened Models
  import opened Permissions
  import opened Mutations
  import opened ChannelLayer
  import opened Signals
  import opened FanOut

  /** How a view turns a request down. */
  datatype ViewError =
    | NotFound                // `get_object_or_404`
    | NoAccess                // redirect to the index page
    | PermissionDenied        // "Permission denied." and a redirect
    | Forbidden               // HTTP 403
    | AlreadyTeamHead
    | AlreadyInTeam
    | MemberMissing           // `ProjectMember.DoesNotExist`
    | InvalidForm
    | Raised(error: FanOutError)

  // ---------------------------------------------------------------------
  // Lookups and access checks
  // ---------------------------------------------------------------------

  /** The project with key `id`, if any. */
  function FindProject(projects: seq<Project>, id: Id): (r: Option<Project>)
    ensures r.Some? <==> exists p :: p in projects && p.id == id
    ensures r.Some? ==> r.value in projects && r.value.id == id
  {
    if projects == [] then None
    else if projects[0].id == id then Some(projects[0])
    else FindProject(projects[1..], id)
  }

  /** The issue with key `id`, if any. */
  function FindIssue(issues: seq<Issue>, id: Id): (r: Option<Issue>)
    ensures r.Some? <==> exists i :: i in issues && i.id == id
    ensures r.Some? ==> r.value in issues && r.value.id == id
  {
    if issues == [] then None
    else if issues[0].id == id then Some(issues[0])
    else FindIssue(issues[1..], id)
  }

  /** `team_head_only_required`: the project, which must exist and be headed by the user. */
  function TeamHeadOnly(t: Tables, actor: User, project: Id): (r: Result<Project, ViewError>)
    ensures r == Err(NotFound) <==> FindProject(t.projects, project).None?
    ensures r.Ok? <==> FindProject(t.projects, project).Some? && IsTeamHead(actor, FindProject(t.projects, project).value)
    ensures r.Ok? ==> r.value == FindProject(t.projects, project).value
    ensures r.Err? ==> r.error == NotFound || r.error == PermissionDenied
  {
    match FindProject(t.projects, project)
    case None => Err(NotFound)
    case Some(p) => if p.teamHead == Some(actor.id) then Ok(p) else Err(PermissionDenied)
  }

  /** The project detail, chat and update pages: the project, which the user must be allowed to see. */
  function ViewAccess(t: Tables, actor: User, project: Id): (r: Result<Project, ViewError>)
    ensures r == Err(NotFound) <==> FindProject(t.projects, project).None?
    ensures r.Ok? <==> FindProject(t.projects, project).Some? && CanViewProject(t, actor, FindProject(t.projects, project).value)
    ensures r.Ok? ==> r.value == FindProject(t.projects, project).value
    ensures r.Err? ==> r.error == NotFound || r.error == NoAccess
  {
    match FindProject(t.projects, project)
    case None => Err(NotFound)
    case Some(p) => if CanViewProject(t, actor, p) then Ok(p) else Err(NoAccess)
  }

  /** Saving a meeting link or posting an update: the user must also be management or the team head. */
  function LeadAccess(t: Tables, actor: User, project: Id): (r: Result<Project, ViewError>)
    ensures r.Ok? <==> ViewAccess(t, actor, project).Ok? && CanLeadProject(actor, ViewAccess(t, actor, project).value)
    ensures ViewAccess(t, actor, project).Err? ==> r == ViewAccess(t, actor, project)
    ensures ViewAccess(t, actor, project).Ok? && r.Err? ==> r.error == PermissionDenied
    ensures r.Ok? ==> r == ViewAccess(t, actor, project)
  {
    match ViewAccess(t, actor, project)
    case Err(e) => Err(e)
    case Ok(p) => if CanLeadProject(actor, p) then Ok(p) else Err(PermissionDenied)
  }

  /** Whoever may lead a project passes the view check too, so a lead check fails on viewing or on leading. */
  lemma LeadAccessNests(t: Tables, actor: User, project: Id)
    ensures LeadAccess(t, actor, project).Ok? ==> ViewAccess(t, actor, project).Ok?
    ensures TeamHeadOnly(t, actor, project).Ok? ==> LeadAccess(t, actor, project).Ok?
  {
    if TeamHeadOnly(t, actor, project).Ok? {
      AccessLadder(t, actor, FindProject(t.projects, project).value);
    }
  }

  // ---------------------------------------------------------------------
  // Links and messages
  // ---------------------------------------------------------------------

  /** `reverse('project_list')`. */
  const ProjectListUrl: string := "/projects/"

  /** `reverse('issues')`. */
  const IssuesUrl: string := "/issues/"

  /** `reverse('project_chat', args=[project])`. */
  function ChatUrl(project: Id): string {
    "/project/" + NatToString(project) + "/chat/"
  }

  /** `reverse('project_updates', args=[project])`. */
  function UpdatesUrl(project: Id): string {
    "/project/" + NatToString(project) + "/updates/"
  }

  function ToggleMessage(pageName: string, complete: bool): string {
    "Task '" + pageName + "' marked " + (if complete then "Complete" else "Incomplete")
  }

  function IssueMessage(status: IssueStatus): string {
    "Your issue updated: " + status.Code()
  }

  function MeetMessage(p: Project): string {
    "Meeting Link Added: " + p.name
  }

  function ChatMessage(actor: User): string {
    "Chat from " + actor.username
  }

  /** `f"Update: {u.title}"`; a missing title prints as `None`. */
  function UpdateMessage(title: Option<string>): string {
    "Update: " + (if title.None? then "None" else title.value)
  }

  /** The posted work-update form, once valid. */
  datatype WorkForm = WorkForm(status: WorkStatus, remarks: Option<string>)

  /** The database together with the channel layer its signals publish to. */
  class Store {
    var tables: Tables
    const layer: Layer
    /** `settings.MEDIA_URL`. */
    const mediaUrl: string

    constructor (tables: Tables, layer: Layer, mediaUrl: string)
      requires Valid(tables)
      ensures this.tables == tables && this.layer == layer && this.mediaUrl == mediaUrl
    {
      this.tables := tables;
      this.layer := layer;
      this.mediaUrl := mediaUrl;
    }

    // -------------------------------------------------------------------
    // Task pages
    // -------------------------------------------------------------------

    /**
     * `assign_project_pages_view` on a valid formset: the member's pages in
     * the project are deleted, then one page is created per kept row.
     */
    method AssignPages(actor: User, project: Id, user: UserId, rows: seq<PageRow>, now: Instant)
      returns (r: Result<(), ViewError>)
      requires Valid(tables)
      modifies this
      ensures Valid(tables)
      ensures TeamHeadOnly(old(tables), actor, project).Err? ==> r == Err(TeamHeadOnly(old(tables), actor, project).error)
      ensures TeamHeadOnly(old(tables), actor, project).Ok? ==>
        (r.Ok? <==> user in UserIds(old(tables))) && (r.Err? ==> r.error == NotFound)
      ensures r.Ok? ==> tables == ReplacePages(old(tables), project, user, rows, now)
      ensures r.Err? ==> tables == old(tables)
    {
      var access := TeamHeadOnly(tables, actor, project);
      if access.Err? {
        return Err(access.error);
      }
      if FindUser(tables.users, user).None? {
        return Err(NotFound);
      }
      ghost var t0 := tables;
      tables := RemovePairPages(tables, project, user);
      CreatePages(project, user, rows, now);
      ReplacePagesValid(t0, project, user, rows, now);
      return Ok(());
    }

    /** The formset loop of `assign_project_pages_view`: one new page per kept row, in form order. */
    method CreatePages(project: Id, user: UserId, rows: seq<PageRow>, now: Instant)
      modifies this
      ensures tables == AppendPages(old(tables), project, user, KeptNames(rows), now)
    {
      ghost var base := tables;
      for i := 0 to |rows|
        invariant tables == AppendPages(base, project, user, KeptNames(rows[..i]), now)
      {
        KeptNamesSnoc(rows[..i], rows[i]);
        assert rows[..i + 1] == rows[..i] + [rows[i]];
        if !rows[i].deleted && rows[i].pageName != "" {
          AppendPagesSnoc(base, project, user, KeptNames(rows[..i]), rows[i].pageName, now);
          tables := AddPage(tables, project, user, rows[i].pageName, now);
        } else {
          assert KeptNames(rows[..i + 1]) == KeptNames(rows[..i]);
        }
      }
      assert rows[..|rows|] == rows;
    }

    /** `complete_task_page_view`: only a page assigned to the user can be completed. */
    method CompleteTaskPage(actor: User, task: Id) returns (r: Result<(), ViewError>)
      requires Valid(tables)
      modifies this
      ensures Valid(tables)
      ensures r.Ok? <==> exists p :: p in old(tables).taskPages && p.id == task && p.assignedTo == actor.id
      ensures r.Ok? ==> tables == SetComplete(old(tables), task, true)
      ensures r.Err? ==> r.error == NotFound && tables == old(tables)
    {
      var found := FindPage(tables.taskPages, task, (p: TaskPage) => p.assignedTo == actor.id);
      if found.None? {
        return Err(NotFound);
      }
      SetCompleteValid(tables, task, true);
      tables := SetComplete(tables, task, true);
      return Ok(());
    }

    /**
     * `pm_toggle_task_status`: the team head flips a page of the project; an
     * assignee other than the head is notified, and the notification is
     * broadcast to the assignee's group.
     */
    method ToggleTask(actor: User, project: Id, task: Id, now: Instant) returns (r: Result<(), ViewError>)
      requires Valid(tables)
      modifies this, layer
      ensures layer.groups == old(layer.groups)
      ensures Valid(tables)
      ensures TeamHeadOnly(old(tables), actor, project).Err? ==> r == Err(TeamHeadOnly(old(tables), actor, project).error)
      ensures TeamHeadOnly(old(tables), actor, project).Ok? ==>
        (r.Ok? <==> exists p :: p in old(tables).taskPages && p.id == task && p.project == project)
        && (r.Err? ==> r.error == NotFound)
      ensures r.Err? ==> tables == old(tables) && layer.sent == old(layer.sent)
      ensures r.Ok? ==>
        var p := FindPage(old(tables).taskPages, task, (q: TaskPage) => q.project == project).value;
        var toggled := SetComplete(old(tables), task, !p.isComplete);
        var n := NewNotification(toggled.nextId, p.assignedTo, ToggleMessage(p.pageName, !p.isComplete), Some(ProjectListUrl), now);
        if p.assignedTo == actor.id then tables == toggled && layer.sent == old(layer.sent)
        else
          tables == AddNotification(toggled, p.assignedTo, n.message, n.link, now)
          && layer.sent == old(layer.sent) + [OnNotificationSaved(n, true).value]
    {
      var access := TeamHeadOnly(tables, actor, project);
      if access.Err? {
        return Err(access.error);
      }
      var found := FindPage(tables.taskPages, task, (q: TaskPage) => q.project == project);
      if found.None? {
        return Err(NotFound);
      }
      ApplyToggle(actor, found.value, now);
      return Ok(());
    }

    /** Flips the found page's completion and notifies its assignee unless the assignee is the actor. */
    method ApplyToggle(actor: User, p: TaskPage, now: Instant)
      requires Valid(tables) && p in tables.taskPages
      modifies this, layer
      ensures layer.groups == old(layer.groups)
      ensures Valid(tables)
      ensures var toggled := SetComplete(old(tables), p.id, !p.isComplete);
        var n := NewNotification(toggled.nextId, p.assignedTo, ToggleMessage(p.pageName, !p.isComplete), Some(ProjectListUrl), now);
        if p.assignedTo == actor.id then tables == toggled && layer.sent == old(layer.sent)
        else
          tables == AddNotification(toggled, p.assignedTo, n.message, n.link, now)
          && layer.sent == old(layer.sent) + [OnNotificationSaved(n, true).value]
    {
      assert p.assignedTo in UserIds(tables);
      SetCompleteValid(tables, p.id, !p.isComplete);
      tables := SetComplete(tables, p.id, !p.isComplete);
      if p.assignedTo != actor.id {
        var message := ToggleMessage(p.pageName, !p.isComplete);
        var n := NewNotification(tables.nextId, p.assignedTo, message, Some(ProjectListUrl), now);
        assert tables.users == old(tables).users;
        AddNotificationValid(tables, p.assignedTo, message, Some(ProjectListUrl), now);
        tables := AddNotification(tables, p.assignedTo, message, Some(ProjectListUrl), now);
        layer.GroupSend(NotificationGroup(n.user), NotificationEvent(n));
      }
    }

    /**
     * `pm_update_task_status_view`: the project's team head sets the page
     * complete exactly when the posted status is `complete`; anybody else
     * gets a 403.
     */
    method SetTaskStatus(actor: User, task: Id, status: Option<string>) returns (r: Result<(), ViewError>)
      requires Valid(tables)
      modifies this
      ensures Valid(tables)
      ensures var found := FindPage(old(tables).taskPages, task, (p: TaskPage) => true);
        && (found.None? ==> r == Err(NotFound))
        && (found.Some? ==>
              (r.Ok? <==> FindProject(old(tables).projects, found.value.project).Some?
                          && IsTeamHead(actor, FindProject(old(tables).projects, found.value.project).value))
              && (r.Err? ==> r.error == Forbidden))
      ensures r.Ok? ==> tables == SetComplete(old(tables), task, status == Some("complete"))
      ensures r.Err? ==> tables == old(tables)
    {
      var found := FindPage(tables.taskPages, task, (p: TaskPage) => true);
      if found.None? {
        return Err(NotFound);
      }
      var project := FindProject(tables.projects, found.value.project);
      if project.None? || project.value.teamHead != Some(actor.id) {
        return Err(Forbidden);
      }
      SetCompleteValid(tables, task, status == Some("complete"));
      tables := SetComplete(tables, task, status == Some("complete"));
      return Ok(());
    }

    // -------------------------------------------------------------------
    // Team membership
    // -------------------------------------------------------------------

    /**
     * `manage_project_team`, adding a member. The form accepts an existing
     * employee and a role; the team head and anybody already on the team
     * (in any role) are turned away.
     */
    method AddMember(actor: User, project: Id, user: Option<UserId>, role: Option<ProjectRole>)
      returns (r: Result<(), ViewError>)
      requires Valid(tables)
      modifies this
      ensures Valid(tables)
      ensures TeamHeadOnly(old(tables), actor, project).Err? ==> r == Err(TeamHeadOnly(old(tables), actor, project).error)
      ensures var form := user.Some? && role.Some? && FindUser(old(tables).users, user.value).Some?
                          && FindUser(old(tables).users, user.value).value.role == Employee;
        TeamHeadOnly(old(tables), actor, project).Ok? ==>
          && (!form ==> r == Err(InvalidForm))
          && (form && user == TeamHeadOnly(old(tables), actor, project).value.teamHead ==> r == Err(AlreadyTeamHead))
          && (form && user != TeamHeadOnly(old(tables), actor, project).value.teamHead && IsMember(old(tables), project, user.value)
              ==> r == Err(AlreadyInTeam))
          && (r.Ok? <==> form && user != TeamHeadOnly(old(tables), actor, project).value.teamHead
                         && !IsMember(old(tables), project, user.value))
      ensures r.Ok? ==> tables == AddMemberRow(old(tables), project, user.value, role.value)
      ensures r.Err? ==> tables == old(tables)
    {
      var access := TeamHeadOnly(tables, actor, project);
      if access.Err? {
        return Err(access.error);
      }
      if user.None? || role.None? || FindUser(tables.users, user.value).None?
         || FindUser(tables.users, user.value).value.role != Employee {
        return Err(InvalidForm);
      }
      if user == access.value.teamHead {
        return Err(AlreadyTeamHead);
      }
      if IsMember(tables, project, user.value) {
        return Err(AlreadyInTeam);
      }
      AddMemberValid(tables, project, user.value, role.value);
      tables := AddMemberRow(tables, project, user.value, role.value);
      return Ok(());
    }

    /** `manage_project_team`, removing the membership row with key `member`, which must belong to the project. */
    method RemoveMember(actor: User, project: Id, member: Id) returns (r: Result<(), ViewError>)
      requires Valid(tables)
      modifies this
      ensures Valid(tables)
      ensures TeamHeadOnly(old(tables), actor, project).Err? ==> r == Err(TeamHeadOnly(old(tables), actor, project).error)
      ensures TeamHeadOnly(old(tables), actor, project).Ok? ==>
        (r.Ok? <==> exists m :: m in old(tables).members && m.id == member && m.project == project)
        && (r.Err? ==> r.error == MemberMissing)
      ensures r.Ok? ==> tables == RemoveMemberRow(old(tables), member)
      ensures r.Err? ==> tables == old(tables)
    {
      var access := TeamHeadOnly(tables, actor, project);
      if access.Err? {
        return Err(access.error);
      }
      if !exists m :: m in tables.members && m.id == member && m.project == project {
        return Err(MemberMissing);
      }
      RemoveMemberValid(tables, member);
      tables := RemoveMemberRow(tables, member);
      return Ok(());
    }

    // -------------------------------------------------------------------
    // Work updates and issues
    // -------------------------------------------------------------------

    /** `employee_work_update_view`: the signed-in member's status for the project, created or overwritten. */
    method SaveWorkUpdate(actor: User, project: Id, form: Option<WorkForm>, now: Instant)
      returns (r: Result<(), ViewError>)
      requires Valid(tables) && actor.id in UserIds(tables)
      modifies this
      ensures Valid(tables)
      ensures FindProject(old(tables).projects, project).None? ==> r == Err(NotFound)
      ensures FindProject(old(tables).projects, project).Some? && form.None? ==> r == Err(InvalidForm)
      ensures FindProject(old(tables).projects, project).Some? && form.Some? ==>
        var u := UpsertWork(old(tables), project, actor.id, form.value.status, form.value.remarks, now);
        (r.Ok? <==> u.Some?) && (r.Ok? ==> tables == u.value)
        && (r.Err? ==> r == Err(Raised(MultipleObjectsReturned)))
      ensures r.Err? ==> tables == old(tables)
    {
      if FindProject(tables.projects, project).None? {
        return Err(NotFound);
      }
      if form.None? {
        return Err(InvalidForm);
      }
      var u := UpsertWork(tables, project, actor.id, form.value.status, form.value.remarks, now);
      if u.None? {
        return Err(Raised(MultipleObjectsReturned));
      }
      UpsertWorkValid(tables, project, actor.id, form.value.status, form.value.remarks, now);
      tables := u.value;
      return Ok(());
    }

    /**
     * `issue_detail_view`, posting a decision: management only. The issue is
     * saved with the status the action gives, and its author is notified of
     * it.
     */
    method DecideIssue(actor: User, issue: Id, action: Option<string>, now: Instant) returns (r: Result<(), ViewError>)
      requires Valid(tables)
      modifies this, layer
      ensures layer.groups == old(layer.groups)
      ensures Valid(tables)
      ensures actor.role != Management ==> r == Err(PermissionDenied)
      ensures actor.role == Management ==>
        (r.Ok? <==> FindIssue(old(tables).issues, issue).Some?) && (r.Err? ==> r.error == NotFound)
      ensures r.Err? ==> tables == old(tables) && layer.sent == old(layer.sent)
      ensures r.Ok? ==>
        var i := FindIssue(old(tables).issues, issue).value;
        var decided := SetIssueStatus(old(tables), issue, ActionStatus(action, i.status));
        var n := NewNotification(decided.nextId, i.user, IssueMessage(ActionStatus(action, i.status)), Some(IssuesUrl), now);
        tables == AddNotification(decided, i.user, n.message, n.link, now)
        && layer.sent == old(layer.sent) + [OnNotificationSaved(n, true).value]
    {
      if actor.role != Management {
        return Err(PermissionDenied);
      }
      var found := FindIssue(tables.issues, issue);
      if found.None? {
        return Err(NotFound);
      }
      var i := found.value;
      var status := ActionStatus(action, i.status);
      SetIssueStatusValid(tables, issue, status);
      tables := SetIssueStatus(tables, issue, status);
      var n := NewNotification(tables.nextId, i.user, IssueMessage(status), Some(IssuesUrl), now);
      assert UserIds(tables) == UserIds(old(tables));
      AddNotificationValid(tables, i.user, n.message, n.link, now);
      tables := AddNotification(tables, i.user, n.message, n.link, now);
      layer.GroupSend(NotificationGroup(n.user), NotificationEvent(n));
      return Ok(());
    }

    /** `notification_list_view`: the user's notifications as they were, newest first; then all are read. */
    method ReadNotifications(actor: User) returns (shown: seq<Notification>)
      requires Valid(tables)
      modifies this
      ensures Valid(tables)
      ensures shown == NotificationsOf(old(tables), actor.id)
      ensures tables == MarkRead(old(tables), actor.id)
    {
      shown := NotificationsOf(tables, actor.id);
      MarkReadValid(tables, actor.id);
      tables := MarkRead(tables, actor.id);
    }

    // -------------------------------------------------------------------
    // Fan-outs
    // -------------------------------------------------------------------

    /**
     * The loop of a fan-out: `get_or_create` for each recipient in the
     * order the set yields them (`order`), broadcasting each row created and
     * collecting the non-empty e-mail addresses; it stops at the first
     * exception. When it gets through, `order` lists every recipient once.
     */
    method NotifyEach(recipients: set<UserId>, message: string, link: Option<string>, now: Instant)
      returns (ok: bool, emails: seq<string>, ghost order: seq<UserId>)
      requires Valid(tables) && recipients <= UserIds(tables)
      modifies this, layer
      ensures layer.groups == old(layer.groups)
      ensures Valid(tables)
      ensures var f := NotifyAll(old(tables), order, message, link, now);
        tables == f.tables && (ok <==> f.error.None?) && layer.sent == old(layer.sent) + Broadcasts(f.created)
      ensures forall u :: u in order ==> u in recipients
      ensures ok ==> (forall u :: u in recipients ==> u in order) && |order| == |recipients|
      ensures ok ==> emails == EmailList(old(tables).users, order)
    {
      ghost var t0 := tables;
      ghost var sent0 := layer.sent;
      var rest := recipients;
      order := [];
      emails := [];
      while rest != {}
        invariant Drawn(order, recipients, rest)
        invariant Reached(t0, sent0, order, message, link, now, tables, layer.sent)
        invariant NotifyAll(t0, order, message, link, now).error.None?
        invariant emails == EmailList(t0.users, order) && tables.users == t0.users
        invariant layer.groups == old(layer.groups)
        decreases rest
      {
        var u :| u in rest;
        EmailListSnoc(t0.users, order, u);
        var found := NotifyStep(t0, sent0, order, u, message, link, now);
        if !found {
          DrawnStep(order, recipients, rest, u);
          order := order + [u];
          NotifyAllValid(t0, order, message, link, now);
          return false, emails, order;
        }
        var e := EmailOf(tables.users, u);
        if e != "" {
          emails := emails + [e];
        }
        DrawnStep(order, recipients, rest, u);
        order := order + [u];
        rest := rest - {u};
      }
      DrawnAll(order, recipients);
      NotifyAllValid(t0, order, message, link, now);
      ok := true;
    }

    /**
     * One turn of the fan-out loop: `get_or_create` for `u` takes the
     * database and the broadcasts from where the fan-out over `order` left
     * them to where the fan-out over `order + [u]` leaves them.
     */
    method NotifyStep(ghost t0: Tables, ghost sent0: seq<Sent>, ghost order: seq<UserId>, u: UserId,
                      message: string, link: Option<string>, now: Instant)
      returns (ok: bool)
      requires NotifyAll(t0, order, message, link, now).error.None?
      requires Reached(t0, sent0, order, message, link, now, tables, layer.sent)
      modifies this, layer
      ensures layer.groups == old(layer.groups)
      ensures Reached(t0, sent0, order + [u], message, link, now, tables, layer.sent)
      ensures ok <==> NotifyAll(t0, order + [u], message, link, now).error.None?
      ensures tables.users == old(tables).users
    {
      ghost var f := NotifyAll(t0, order, message, link, now);
      NotifyAllSnoc(t0, order, u, message, link, now);
      ghost var n := NewNotification(tables.nextId, u, message, link, now);
      BroadcastsSnoc(f.created, n);
      ok := GetOrCreateNotification(u, message, link, now);
    }

    /**
     * `Notification.objects.get_or_create(user=..., message=..., link=..., is_read=False)`
     * and, when it creates the row, the broadcast of `notification_created`;
     * `false` is the `MultipleObjectsReturned` it raises.
     */
    method GetOrCreateNotification(user: UserId, message: string, link: Option<string>, now: Instant)
      returns (ok: bool)
      modifies this, layer
      ensures layer.groups == old(layer.groups)
      ensures var c := MatchCount(old(tables).notifications, user, message, link);
        var n := NewNotification(old(tables).nextId, user, message, link, now);
        && (ok <==> c <= 1)
        && (c == 0 ==> tables == AddNotification(old(tables), user, message, link, now)
                       && layer.sent == old(layer.sent) + [OnNotificationSaved(n, true).value])
        && (c != 0 ==> tables == old(tables) && layer.sent == old(layer.sent))
    {
      var count := MatchCount(tables.notifications, user, message, link);
      if count > 1 {
        return false;
      }
      if count == 0 {
        var n := NewNotification(tables.nextId, user, message, link, now);
        tables := AddNotification(tables, user, message, link, now);
        layer.GroupSend(NotificationGroup(n.user), NotificationEvent(n));
      }
      return true;
    }

    /**
     * The project detail page, saving a meeting link: the link is stored,
     * then every member and the team head other than the user is notified
     * once; the result lists the addresses the invitation is mailed to.
     */
    method SaveMeetLink(actor: User, project: Id, link: Option<string>, now: Instant)
      returns (r: Result<seq<string>, ViewError>, ghost order: seq<UserId>)
      requires Valid(tables)
      modifies this, layer
      ensures layer.groups == old(layer.groups)
      ensures Valid(tables)
      ensures LeadAccess(old(tables), actor, project).Err? ==>
        r == Err(LeadAccess(old(tables), actor, project).error) && tables == old(tables) && layer.sent == old(layer.sent)
      ensures LeadAccess(old(tables), actor, project).Ok? ==>
        var p := LeadAccess(old(tables), actor, project).value;
        var f := NotifyAll(SetMeetLink(old(tables), project, link), order, MeetMessage(p), link, now);
        && tables == f.tables && layer.sent == old(layer.sent) + Broadcasts(f.created)
        && (r.Ok? <==> f.error.None?) && (r.Err? ==> r.error == Raised(MultipleObjectsReturned))
        && (forall u :: u in order ==> u in MeetRecipients(old(tables), p, actor.id))
        && (r.Ok? ==> (forall u :: u in MeetRecipients(old(tables), p, actor.id) ==> u in order)
                      && |order| == |MeetRecipients(old(tables), p, actor.id)|)
        && (r.Ok? ==> forall e :: e in r.value <==>
              e != "" && exists u :: u in MeetRecipients(old(tables), p, actor.id) && EmailOf(old(tables).users, u) == e)
    {
      var access := LeadAccess(tables, actor, project);
      if access.Err? {
        return Err(access.error), [];
      }
      var p := access.value;
      var recipients := MeetRecipients(tables, p, actor.id);
      RecipientsExist(tables, p, actor.id);
      SetMeetLinkValid(tables, project, link);
      tables := SetMeetLink(tables, project, link);
      assert UserIds(tables) == UserIds(old(tables));
      var ok, emails;
      ok, emails, order := NotifyEach(recipients, MeetMessage(p), link, now);
      if !ok {
        return Err(Raised(MultipleObjectsReturned)), order;
      }
      forall e ensures e in emails <==> e != "" && exists u :: u in recipients && EmailOf(old(tables).users, u) == e {
        EmailsOfRecipients(old(tables).users, order, recipients, e);
      }
      return Ok(emails), order;
    }

    /**
     * The chat page, posting a message: the update is saved and broadcast to
     * the project's group, then the creator, the team head and the members
     * other than the author are notified once each.
     */
    method PostChat(actor: User, project: Id, draft: ProjectUpdate, now: Instant)
      returns (r: Result<(), ViewError>, ghost order: seq<UserId>)
      requires Valid(tables) && actor in tables.users
      modifies this, layer
      ensures layer.groups == old(layer.groups)
      ensures Valid(tables)
      ensures ViewAccess(old(tables), actor, project).Err? ==>
        r == Err(ViewAccess(old(tables), actor, project).error) && tables == old(tables) && layer.sent == old(layer.sent)
      ensures ViewAccess(old(tables), actor, project).Ok? ==>
        var p := ViewAccess(old(tables), actor, project).value;
        var u := PostedUpdate(old(tables), draft, project, actor.id, now);
        var f := NotifyAll(AddUpdate(old(tables), u), order, ChatMessage(actor), Some(ChatUrl(project)), now);
        && tables == f.tables
        && layer.sent == old(layer.sent) + [OnUpdateSaved(u, Some(actor), true, mediaUrl).value.value] + Broadcasts(f.created)
        && (r.Ok? <==> f.error.None?) && (r.Err? ==> r.error == Raised(MultipleObjectsReturned))
        && (forall v :: v in order ==> v in Participants(old(tables), p, actor.id))
        && (r.Ok? ==> (forall v :: v in Participants(old(tables), p, actor.id) ==> v in order)
                      && |order| == |Participants(old(tables), p, actor.id)|)
    {
      var access := ViewAccess(tables, actor, project);
      if access.Err? {
        return Err(access.error), [];
      }
      var ok;
      ok, order := Publish(actor, access.value, draft, ChatMessage(actor), Some(ChatUrl(project)), now);
      r := if ok then Ok(()) else Err(Raised(MultipleObjectsReturned));
    }

    /**
     * The updates page, posting an update: as a chat message, but only
     * management or the team head may post, and the notification names the
     * update's title.
     */
    method PostUpdate(actor: User, project: Id, draft: ProjectUpdate, now: Instant)
      returns (r: Result<(), ViewError>, ghost order: seq<UserId>)
      requires Valid(tables) && actor in tables.users
      modifies this, layer
      ensures layer.groups == old(layer.groups)
      ensures Valid(tables)
      ensures LeadAccess(old(tables), actor, project).Err? ==>
        r == Err(LeadAccess(old(tables), actor, project).error) && tables == old(tables) && layer.sent == old(layer.sent)
      ensures LeadAccess(old(tables), actor, project).Ok? ==>
        var p := LeadAccess(old(tables), actor, project).value;
        var u := PostedUpdate(old(tables), draft, project, actor.id, now);
        var f := NotifyAll(AddUpdate(old(tables), u), order, UpdateMessage(draft.title), Some(UpdatesUrl(project)), now);
        && tables == f.tables
        && layer.sent == old(layer.sent) + [OnUpdateSaved(u, Some(actor), true, mediaUrl).value.value] + Broadcasts(f.created)
        && (r.Ok? <==> f.error.None?) && (r.Err? ==> r.error == Raised(MultipleObjectsReturned))
        && (forall v :: v in order ==> v in Participants(old(tables), p, actor.id))
        && (r.Ok? ==> (forall v :: v in Participants(old(tables), p, actor.id) ==> v in order)
                      && |order| == |Participants(old(tables), p, actor.id)|)
    {
      var access := LeadAccess(tables, actor, project);
      if access.Err? {
        return Err(access.error), [];
      }
      var ok;
      ok, order := Publish(actor, access.value, draft, UpdateMessage(draft.title), Some(UpdatesUrl(project)), now);
      r := if ok then Ok(()) else Err(Raised(MultipleObjectsReturned));
    }

    /** What the chat and update views share once access is granted: save, broadcast, notify. */
    method Publish(actor: User, p: Project, draft: ProjectUpdate, message: string, link: Option<string>, now: Instant)
      returns (ok: bool, ghost order: seq<UserId>)
      requires Valid(tables) && actor in tables.users && p in tables.projects
      modifies this, layer
      ensures layer.groups == old(layer.groups)
      ensures Valid(tables)
      ensures var u := PostedUpdate(old(tables), draft, p.id, actor.id, now);
        var f := NotifyAll(AddUpdate(old(tables), u), order, message, link, now);
        && tables == f.tables
        && layer.sent == old(layer.sent) + [OnUpdateSaved(u, Some(actor), true, mediaUrl).value.value] + Broadcasts(f.created)
        && (ok <==> f.error.None?)
      ensures forall v :: v in order ==> v in Participants(old(tables), p, actor.id)
      ensures ok ==> (forall v :: v in Participants(old(tables), p, actor.id) ==> v in order)
                     && |order| == |Participants(old(tables), p, actor.id)|
    {
      var recipients := Participants(tables, p, actor.id);
      RecipientsExist(tables, p, actor.id);
      assert actor.id in UserIds(tables);
      var u := PostedUpdate(tables, draft, p.id, actor.id, now);
      AddUpdateValid(tables, draft, p.id, actor.id, now);
      tables := AddUpdate(tables, u);
      var sent := OnUpdateSaved(u, Some(actor), true, mediaUrl).value.value;
      layer.GroupSend(sent.group, sent.event);
      assert UserIds(tables) == UserIds(old(tables));
      var emails;
      ok, emails, order := NotifyEach(recipients, message, link, now);
    }
  }

  /** Broadcasting one more created row adds its message at the end. */
  /** Where the fan-out over `order`, started from `t0` and `sent0`, leaves the database and the broadcasts. */
  /** `order` lists, once each, the members of `recipients` not left in `rest`. */
  ghost predicate Drawn(order: seq<UserId>, recipients: set<UserId>, rest: set<UserId>) {
    && rest <= recipients
    && (forall u :: u in order <==> u in recipients && u !in rest)
    && |order| + |rest| == |recipients|
  }

  lemma DrawnStep(order: seq<UserId>, recipients: set<UserId>, rest: set<UserId>, u: UserId)
    requires Drawn(order, recipients, rest) && u in rest
    ensures Drawn(order + [u], recipients, rest - {u})
    ensures forall v :: v in order + [u] ==> v in recipients
  {
    assert |rest - {u}| == |rest| - 1;
  }

  lemma DrawnAll(order: seq<UserId>, recipients: set<UserId>)
    requires Drawn(order, recipients, {})
    ensures (forall u :: u in recipients <==> u in order) && |order| == |recipients|
  {
  }

  ghost predicate Reached(t0: Tables, sent0: seq<Sent>, order: seq<UserId>, message: string, link: Option<string>,
                          now: Instant, tables: Tables, sent: seq<Sent>)
  {
    var f := NotifyAll(t0, order, message, link, now);
    tables == f.tables && sent == sent0 + Broadcasts(f.created)
  }

  lemma BroadcastsSnoc(created: seq<Notification>, n: Notification)
    ensures Broadcasts(created + [n]) == Broadcasts(created) + [Sent(NotificationGroup(n.user), NotificationEvent(n))]
  {
    var a := Broadcasts(created + [n]);
    var b := Broadcasts(created) + [Sent(NotificationGroup(n.user), NotificationEvent(n))];
    forall k | 0 <= k < |a| ensures a[k] == b[k] {
      if k < |created| {
        assert (created + [n])[k] == created[k];
      }
    }
  }
}
