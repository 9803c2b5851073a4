/**
 * The records of the project-management app and the integrity the database
 * keeps between them: primary keys, foreign keys, the `unique_together`
 * constraint on project members, the declared field defaults, the
 * `on_delete` rules (CASCADE or SET_NULL) and the default orderings.
 */
module Models {
  import opened Wrappers
  import opened Choices
  import opened Users
  import opened Dates
  import opened Rows

  type Id = nat

  /** A point in time: seconds since the Unix epoch, UTC. */
  type Instant = int

  datatype ProjectMember = ProjectMember(id: Id, project: Id, user: UserId, role: ProjectRole)

  datatype Project = Project(
    id: Id,
    name: string,
    description: Option<string>,
    status: ProjectStatus,
    priority: Priority,
    createdAt: Instant,
    googleMeetLink: Option<string>,
    createdBy: Option<UserId>,
    teamHead: Option<UserId>,
    clientName: Option<string>,
    startDate: Option<Date>,
    endDate: Option<Date>,
    statusUpdate: WorkStatus,
    statusDescription: Option<string>)

  datatype ProjectDocument = ProjectDocument(
    id: Id, project: Id, uploadedBy: Option<UserId>, document: string, description: string, uploadedAt: Instant)

  datatype TaskPage = TaskPage(
    id: Id, project: Id, assignedTo: UserId, pageName: string, createdAt: Instant, isComplete: bool)

  /** File fields (`image`, `file`, `voiceNote`) hold the stored name; "" is an empty field. */
  datatype ProjectUpdate = ProjectUpdate(
    id: Id,
    project: Id,
    user: Option<UserId>,
    category: UpdateCategory,
    title: Option<string>,
    remarks: Option<string>,
    endDate: Option<Date>,
    priority: Option<Priority>,
    subject: Option<ProjectUpdateIntent>,
    image: string,
    file: string,
    createdAt: Instant,
    updateStatus: Option<ProjectUpdateStatus>,
    voiceNote: string)

  datatype Attachment = Attachment(id: Id, projectUpdate: Id, file: string, uploadedAt: Instant)

  datatype WorkUpdate = WorkUpdate(
    id: Id, project: Id, member: UserId, remarks: Option<string>, status: WorkStatus, createdAt: Instant)

  datatype DailyUpdate = DailyUpdate(
    id: Id, user: UserId, date: Date, description: Option<string>, createdAt: Instant)

  datatype LineItem = LineItem(id: Id, dailyUpdate: Id, project: Id, taskPage: Id, timeSpent: string)

  datatype Issue = Issue(
    id: Id, subject: IssueSubject, description: string, attachment: string,
    status: IssueStatus, user: UserId, createdAt: Instant)

  datatype Notification = Notification(
    id: Id, user: UserId, message: string, isRead: bool, timestamp: Instant, link: Option<string>)

  /** Every table of the database; `nextId` is above every key handed out so far. */
  datatype Tables = Tables(
    users: seq<User>,
    projects: seq<Project>,
    members: seq<ProjectMember>,
    documents: seq<ProjectDocument>,
    taskPages: seq<TaskPage>,
    updates: seq<ProjectUpdate>,
    attachments: seq<Attachment>,
    workUpdates: seq<WorkUpdate>,
    dailyUpdates: seq<DailyUpdate>,
    lineItems: seq<LineItem>,
    issues: seq<Issue>,
    notifications: seq<Notification>,
    nextId: Id)

  // ---------------------------------------------------------------------
  // Declared defaults
  // ---------------------------------------------------------------------

  /** A project saved with only its name and owner set. */
  function NewProject(id: Id, name: string, createdBy: Option<UserId>, now: Instant): (p: Project)
    ensures p.status == ProjectPending && p.priority == Medium && p.statusUpdate == Incomplete
    ensures p.id == id && p.name == name && p.createdBy == createdBy && p.createdAt == now
    ensures p.teamHead == None && p.googleMeetLink == None && p.endDate == None
  {
    Project(id, name, None, ProjectPending, Medium, now, None, createdBy, None, None, None, None, Incomplete, None)
  }

  function NewTaskPage(id: Id, project: Id, assignedTo: UserId, pageName: string, now: Instant): (p: TaskPage)
    ensures !p.isComplete
    ensures p.id == id && p.project == project && p.assignedTo == assignedTo && p.pageName == pageName
    ensures p.createdAt == now
  {
    TaskPage(id, project, assignedTo, pageName, now, false)
  }

  function NewNotification(id: Id, user: UserId, message: string, link: Option<string>, now: Instant): (n: Notification)
    ensures !n.isRead
    ensures n.id == id && n.user == user && n.message == message && n.link == link && n.timestamp == now
  {
    Notification(id, user, message, false, now, link)
  }

  function NewIssue(id: Id, subject: IssueSubject, description: string, user: UserId, now: Instant): (i: Issue)
    ensures i.status == IssuePending
    ensures i.id == id && i.subject == subject && i.user == user && i.createdAt == now
  {
    Issue(id, subject, description, "", IssuePending, user, now)
  }

  /** A project update saved without a category is an ordinary update with medium priority. */
  function NewProjectUpdate(id: Id, project: Id, user: Option<UserId>, now: Instant): (u: ProjectUpdate)
    ensures u.category == Update && u.priority == Some(Medium)
    ensures u.id == id && u.project == project && u.user == user && u.createdAt == now
    ensures u.image == "" && u.file == "" && u.title == None
  {
    ProjectUpdate(id, project, user, Update, None, None, None, Some(Medium), None, "", "", now, None, "")
  }

  // ---------------------------------------------------------------------
  // Keys
  // ---------------------------------------------------------------------

  function UserKey(u: User): int { u.id }
  function ProjectKey(p: Project): int { p.id }
  function MemberKey(m: ProjectMember): int { m.id }
  function DocumentKey(d: ProjectDocument): int { d.id }
  function TaskPageKey(p: TaskPage): int { p.id }
  function UpdateKey(u: ProjectUpdate): int { u.id }
  function AttachmentKey(a: Attachment): int { a.id }
  function WorkUpdateKey(w: WorkUpdate): int { w.id }
  function DailyUpdateKey(d: DailyUpdate): int { d.id }
  function LineItemKey(l: LineItem): int { l.id }
  function IssueKey(i: Issue): int { i.id }
  function NotificationKey(n: Notification): int { n.id }

  /*
   * The keys present in a table, as a function of that table alone, so that
   * an edit of one table visibly leaves the key sets of the others alone.
   */
  function UserIdsOf(users: seq<User>): set<UserId> { set u | u in users :: u.id }
  function ProjectIdsOf(projects: seq<Project>): set<Id> { set p | p in projects :: p.id }
  function TaskPageIdsOf(pages: seq<TaskPage>): set<Id> { set p | p in pages :: p.id }
  function UpdateIdsOf(updates: seq<ProjectUpdate>): set<Id> { set u | u in updates :: u.id }
  function DailyUpdateIdsOf(daily: seq<DailyUpdate>): set<Id> { set d | d in daily :: d.id }

  function UserIds(t: Tables): set<UserId> { UserIdsOf(t.users) }
  function ProjectIds(t: Tables): set<Id> { ProjectIdsOf(t.projects) }
  function TaskPageIds(t: Tables): set<Id> { TaskPageIdsOf(t.taskPages) }
  function UpdateIds(t: Tables): set<Id> { UpdateIdsOf(t.updates) }
  function DailyUpdateIds(t: Tables): set<Id> { DailyUpdateIdsOf(t.dailyUpdates) }

  predicate OptIn(r: Option<Id>, ids: set<Id>) {
    r.None? || r.value in ids
  }

  /*
   * The foreign keys of each table, given the key sets they point into.
   * Nullable references (SET_NULL) may be null.
   */

  predicate ProjectRefs(projects: seq<Project>, users: set<UserId>) {
    forall p :: p in projects ==> OptIn(p.createdBy, users) && OptIn(p.teamHead, users)
  }

  predicate MemberRefs(members: seq<ProjectMember>, projects: set<Id>, users: set<UserId>) {
    forall m :: m in members ==> m.project in projects && m.user in users
  }

  predicate DocumentRefs(documents: seq<ProjectDocument>, projects: set<Id>, users: set<UserId>) {
    forall d :: d in documents ==> d.project in projects && OptIn(d.uploadedBy, users)
  }

  predicate TaskPageRefs(pages: seq<TaskPage>, projects: set<Id>, users: set<UserId>) {
    forall p :: p in pages ==> p.project in projects && p.assignedTo in users
  }

  predicate UpdateRefs(updates: seq<ProjectUpdate>, projects: set<Id>, users: set<UserId>) {
    forall u :: u in updates ==> u.project in projects && OptIn(u.user, users)
  }

  predicate AttachmentRefs(attachments: seq<Attachment>, updates: set<Id>) {
    forall a :: a in attachments ==> a.projectUpdate in updates
  }

  predicate WorkUpdateRefs(work: seq<WorkUpdate>, projects: set<Id>, users: set<UserId>) {
    forall w :: w in work ==> w.project in projects && w.member in users
  }

  predicate DailyUpdateRefs(daily: seq<DailyUpdate>, users: set<UserId>) {
    forall d :: d in daily ==> d.user in users
  }

  predicate LineItemRefs(items: seq<LineItem>, daily: set<Id>, projects: set<Id>, pages: set<Id>) {
    forall l :: l in items ==> l.dailyUpdate in daily && l.project in projects && l.taskPage in pages
  }

  predicate IssueRefs(issues: seq<Issue>, users: set<UserId>) {
    forall i :: i in issues ==> i.user in users
  }

  predicate NotificationRefs(ns: seq<Notification>, users: set<UserId>) {
    forall n :: n in ns ==> n.user in users
  }

  /** `unique_together = ('project', 'user', 'role')`: one row per triple. */
  predicate MembersUnique(members: seq<ProjectMember>) {
    forall i, j :: 0 <= i < j < |members| ==>
      !(members[i].project == members[j].project && members[i].user == members[j].user
        && members[i].role == members[j].role)
  }

  /** `AbstractUser.username` is unique. */
  predicate UsernamesUnique(users: seq<User>) {
    forall i, j :: 0 <= i < j < |users| ==> users[i].username != users[j].username
  }

  /**
   * The integrity the database maintains, table by table: unique primary
   * keys below `nextId` (so `nextId` is free everywhere), foreign keys that
   * name existing rows, and the two uniqueness constraints.
   */
  predicate Valid(t: Tables) {
    && Keyed(t.users, UserKey, t.nextId) && UsernamesUnique(t.users)
    && Keyed(t.projects, ProjectKey, t.nextId) && ProjectRefs(t.projects, UserIds(t))
    && Keyed(t.members, MemberKey, t.nextId) && MemberRefs(t.members, ProjectIds(t), UserIds(t))
    && MembersUnique(t.members)
    && Keyed(t.documents, DocumentKey, t.nextId) && DocumentRefs(t.documents, ProjectIds(t), UserIds(t))
    && Keyed(t.taskPages, TaskPageKey, t.nextId) && TaskPageRefs(t.taskPages, ProjectIds(t), UserIds(t))
    && Keyed(t.updates, UpdateKey, t.nextId) && UpdateRefs(t.updates, ProjectIds(t), UserIds(t))
    && Keyed(t.attachments, AttachmentKey, t.nextId) && AttachmentRefs(t.attachments, UpdateIds(t))
    && Keyed(t.workUpdates, WorkUpdateKey, t.nextId) && WorkUpdateRefs(t.workUpdates, ProjectIds(t), UserIds(t))
    && Keyed(t.dailyUpdates, DailyUpdateKey, t.nextId) && DailyUpdateRefs(t.dailyUpdates, UserIds(t))
    && Keyed(t.lineItems, LineItemKey, t.nextId)
    && LineItemRefs(t.lineItems, DailyUpdateIds(t), ProjectIds(t), TaskPageIds(t))
    && Keyed(t.issues, IssueKey, t.nextId) && IssueRefs(t.issues, UserIds(t))
    && Keyed(t.notifications, NotificationKey, t.nextId) && NotificationRefs(t.notifications, UserIds(t))
  }

  /** Handing out a key keeps the database valid: `nextId` only moves up. */
  lemma ValidBump(t: Tables)
    requires Valid(t)
    ensures Valid(t.(nextId := t.nextId + 1))
  {
    KeyedBump(t.users, UserKey, t.nextId);
    KeyedBump(t.projects, ProjectKey, t.nextId);
    KeyedBump(t.members, MemberKey, t.nextId);
    KeyedBump(t.documents, DocumentKey, t.nextId);
    KeyedBump(t.taskPages, TaskPageKey, t.nextId);
    KeyedBump(t.updates, UpdateKey, t.nextId);
    KeyedBump(t.attachments, AttachmentKey, t.nextId);
    KeyedBump(t.workUpdates, WorkUpdateKey, t.nextId);
    KeyedBump(t.dailyUpdates, DailyUpdateKey, t.nextId);
    KeyedBump(t.lineItems, LineItemKey, t.nextId);
    KeyedBump(t.issues, IssueKey, t.nextId);
    KeyedBump(t.notifications, NotificationKey, t.nextId);
  }

  /** Rewriting projects in place keeps the set of project keys. */
  lemma ProjectIdsRewrite(a: seq<Project>, b: seq<Project>)
    requires SameKeys(a, b, ProjectKey)
    ensures ProjectIdsOf(a) == ProjectIdsOf(b)
  {
    forall id | id in ProjectIdsOf(a) ensures id in ProjectIdsOf(b) {
      var i :| 0 <= i < |a| && a[i].id == id;
      assert ProjectKey(b[i]) == id;
    }
    forall id | id in ProjectIdsOf(b) ensures id in ProjectIdsOf(a) {
      var i :| 0 <= i < |b| && b[i].id == id;
      assert ProjectKey(a[i]) == id;
    }
  }

  /** Rewriting task pages in place keeps the set of task-page keys. */
  lemma TaskPageIdsRewrite(a: seq<TaskPage>, b: seq<TaskPage>)
    requires SameKeys(a, b, TaskPageKey)
    ensures TaskPageIdsOf(a) == TaskPageIdsOf(b)
  {
    forall id | id in TaskPageIdsOf(a) ensures id in TaskPageIdsOf(b) {
      var i :| 0 <= i < |a| && a[i].id == id;
      assert TaskPageKey(b[i]) == id;
    }
    forall id | id in TaskPageIdsOf(b) ensures id in TaskPageIdsOf(a) {
      var i :| 0 <= i < |b| && b[i].id == id;
      assert TaskPageKey(a[i]) == id;
    }
  }

  /** Rewriting project updates in place keeps the set of update keys. */
  lemma UpdateIdsRewrite(a: seq<ProjectUpdate>, b: seq<ProjectUpdate>)
    requires SameKeys(a, b, UpdateKey)
    ensures UpdateIdsOf(a) == UpdateIdsOf(b)
  {
    forall id | id in UpdateIdsOf(a) ensures id in UpdateIdsOf(b) {
      var i :| 0 <= i < |a| && a[i].id == id;
      assert UpdateKey(b[i]) == id;
    }
    forall id | id in UpdateIdsOf(b) ensures id in UpdateIdsOf(a) {
      var i :| 0 <= i < |b| && b[i].id == id;
      assert UpdateKey(a[i]) == id;
    }
  }

  /** The same user may belong to a project twice, once per role. */
  lemma SameUserTwoRoles(u: User, p: Project, a: ProjectRole, b: ProjectRole)
    requires a != b
    ensures MembersUnique([ProjectMember(1, p.id, u.id, a), ProjectMember(2, p.id, u.id, b)])
    ensures !MembersUnique([ProjectMember(1, p.id, u.id, a), ProjectMember(2, p.id, u.id, a)])
  {
    var twice := [ProjectMember(1, p.id, u.id, a), ProjectMember(2, p.id, u.id, a)];
    assert twice[0].project == twice[1].project && twice[0].user == twice[1].user && twice[0].role == twice[1].role;
  }

  /** In a valid database a user's display name (`__str__`) identifies the user. */
  lemma DisplayIdentifiesUser(t: Tables, a: User, b: User)
    requires Valid(t) && a in t.users && b in t.users
    requires Display(a) == Display(b)
    ensures a == b
  {
    var i :| 0 <= i < |t.users| && t.users[i] == a;
    var j :| 0 <= j < |t.users| && t.users[j] == b;
  }

  // ---------------------------------------------------------------------
  // on_delete
  // ---------------------------------------------------------------------

  /**
   * Deleting a task page also deletes the daily-update line items that log
   * time against it (`DailyUpdateLineItem.task_page` is CASCADE).
   */
  function DeleteTaskPage(t: Tables, page: Id): (r: Tables)
    ensures forall p :: p in r.taskPages <==> p in t.taskPages && p.id != page
    ensures forall l :: l in r.lineItems <==> l in t.lineItems && l.taskPage != page
    ensures r.(taskPages := t.taskPages, lineItems := t.lineItems) == t
  {
    t.(taskPages := Filter(t.taskPages, (p: TaskPage) => p.id != page),
       lineItems := Filter(t.lineItems, (l: LineItem) => l.taskPage != page))
  }

  /** The task pages of a project, whose deletion the project's deletion cascades to. */
  function PagesOfProject(t: Tables, project: Id): set<Id> {
    set p | p in t.taskPages && p.project == project :: p.id
  }

  function UpdatesOfProject(t: Tables, project: Id): set<Id> {
    set u | u in t.updates && u.project == project :: u.id
  }

  /**
   * Deleting a project deletes its members, documents, task pages, updates
   * (and their attachments), work updates and the line items that name the
   * project or one of its task pages. Users, daily updates, issues and
   * notifications are untouched.
   */
  function DeleteProject(t: Tables, project: Id): (r: Tables)
    ensures forall p :: p in r.projects <==> p in t.projects && p.id != project
    ensures forall m :: m in r.members <==> m in t.members && m.project != project
    ensures forall d :: d in r.documents <==> d in t.documents && d.project != project
    ensures forall p :: p in r.taskPages <==> p in t.taskPages && p.project != project
    ensures forall u :: u in r.updates <==> u in t.updates && u.project != project
    ensures forall a :: a in r.attachments <==> a in t.attachments && a.projectUpdate !in UpdatesOfProject(t, project)
    ensures forall w :: w in r.workUpdates <==> w in t.workUpdates && w.project != project
    ensures forall l :: l in r.lineItems <==>
      l in t.lineItems && l.project != project && l.taskPage !in PagesOfProject(t, project)
    ensures r.users == t.users && r.dailyUpdates == t.dailyUpdates && r.issues == t.issues
    ensures r.notifications == t.notifications && r.nextId == t.nextId
  {
    var pages := PagesOfProject(t, project);
    var updates := UpdatesOfProject(t, project);
    t.(projects := Filter(t.projects, (p: Project) => p.id != project),
       members := Filter(t.members, (m: ProjectMember) => m.project != project),
       documents := Filter(t.documents, (d: ProjectDocument) => d.project != project),
       taskPages := Filter(t.taskPages, (p: TaskPage) => p.project != project),
       updates := Filter(t.updates, (u: ProjectUpdate) => u.project != project),
       attachments := Filter(t.attachments, (a: Attachment) => a.projectUpdate !in updates),
       workUpdates := Filter(t.workUpdates, (w: WorkUpdate) => w.project != project),
       lineItems := Filter(t.lineItems, (l: LineItem) => l.project != project && l.taskPage !in pages))
  }

  function ClearIf(r: Option<UserId>, user: UserId): (c: Option<UserId>)
    ensures c == (if r == Some(user) then None else r)
  {
    if r == Some(user) then None else r
  }

  function PagesOfUser(t: Tables, user: UserId): set<Id> {
    set p | p in t.taskPages && p.assignedTo == user :: p.id
  }

  function DailyUpdatesOfUser(t: Tables, user: UserId): set<Id> {
    set d | d in t.dailyUpdates && d.user == user :: d.id
  }

  /**
   * Deleting a user cascades to the user's memberships, task pages, work
   * updates, daily updates (and the line items under them or under the
   * deleted pages), issues and notifications, and sets to null the
   * references that are SET_NULL: a project's creator and team head, an
   * update's author and a document's uploader. Those rows stay.
   */
  function DeleteUser(t: Tables, user: UserId): (r: Tables)
    ensures forall u :: u in r.users <==> u in t.users && u.id != user
    ensures |r.projects| == |t.projects| && forall i :: 0 <= i < |t.projects| ==>
      r.projects[i] == t.projects[i].(createdBy := ClearIf(t.projects[i].createdBy, user),
                                      teamHead := ClearIf(t.projects[i].teamHead, user))
    ensures |r.updates| == |t.updates| && forall i :: 0 <= i < |t.updates| ==>
      r.updates[i] == t.updates[i].(user := ClearIf(t.updates[i].user, user))
    ensures |r.documents| == |t.documents| && forall i :: 0 <= i < |t.documents| ==>
      r.documents[i] == t.documents[i].(uploadedBy := ClearIf(t.documents[i].uploadedBy, user))
    ensures forall m :: m in r.members <==> m in t.members && m.user != user
    ensures forall p :: p in r.taskPages <==> p in t.taskPages && p.assignedTo != user
    ensures forall w :: w in r.workUpdates <==> w in t.workUpdates && w.member != user
    ensures forall d :: d in r.dailyUpdates <==> d in t.dailyUpdates && d.user != user
    ensures forall l :: l in r.lineItems <==>
      l in t.lineItems && l.dailyUpdate !in DailyUpdatesOfUser(t, user) && l.taskPage !in PagesOfUser(t, user)
    ensures forall i :: i in r.issues <==> i in t.issues && i.user != user
    ensures forall n :: n in r.notifications <==> n in t.notifications && n.user != user
    ensures r.attachments == t.attachments && r.nextId == t.nextId
  {
    var pages := PagesOfUser(t, user);
    var days := DailyUpdatesOfUser(t, user);
    t.(users := Filter(t.users, (u: User) => u.id != user),
       projects := MapRows(t.projects, (p: Project) =>
         p.(createdBy := ClearIf(p.createdBy, user), teamHead := ClearIf(p.teamHead, user))),
       updates := MapRows(t.updates, (u: ProjectUpdate) => u.(user := ClearIf(u.user, user))),
       documents := MapRows(t.documents, (d: ProjectDocument) => d.(uploadedBy := ClearIf(d.uploadedBy, user))),
       members := Filter(t.members, (m: ProjectMember) => m.user != user),
       taskPages := Filter(t.taskPages, (p: TaskPage) => p.assignedTo != user),
       workUpdates := Filter(t.workUpdates, (w: WorkUpdate) => w.member != user),
       dailyUpdates := Filter(t.dailyUpdates, (d: DailyUpdate) => d.user != user),
       lineItems := Filter(t.lineItems, (l: LineItem) => l.dailyUpdate !in days && l.taskPage !in pages),
       issues := Filter(t.issues, (i: Issue) => i.user != user),
       notifications := Filter(t.notifications, (n: Notification) => n.user != user))
  }

  // ---------------------------------------------------------------------
  // Deletion keeps the database consistent
  // ---------------------------------------------------------------------

  lemma MembersUniqueFilter(s: seq<ProjectMember>, keep: ProjectMember -> bool)
    requires MembersUnique(s)
    ensures MembersUnique(Filter(s, keep))
  {
    var key := (m: ProjectMember) => m.id;
    MembersUniqueFilterRec(s, keep);
  }

  lemma {:induction false} MembersUniqueFilterRec(s: seq<ProjectMember>, keep: ProjectMember -> bool)
    requires MembersUnique(s)
    ensures MembersUnique(Filter(s, keep))
  {
    if s != [] {
      assert MembersUnique(s[1..]) by {
        forall i, j | 0 <= i < j < |s[1..]|
          ensures !(s[1..][i].project == s[1..][j].project && s[1..][i].user == s[1..][j].user
                    && s[1..][i].role == s[1..][j].role)
        {
          assert s[1..][i] == s[i + 1] && s[1..][j] == s[j + 1];
        }
      }
      MembersUniqueFilterRec(s[1..], keep);
      var rest := Filter(s[1..], keep);
      if keep(s[0]) {
        var r := [s[0]] + rest;
        forall i, j | 0 <= i < j < |r|
          ensures !(r[i].project == r[j].project && r[i].user == r[j].user && r[i].role == r[j].role)
        {
          if i == 0 {
            assert r[j] in s[1..];
            var k :| 0 <= k < |s[1..]| && s[1..][k] == r[j];
            assert s[k + 1] == r[j];
          } else {
            assert r[i] == rest[i - 1] && r[j] == rest[j - 1];
          }
        }
      }
    }
  }

  lemma {:induction false} UsernamesUniqueFilter(s: seq<User>, keep: User -> bool)
    requires UsernamesUnique(s)
    ensures UsernamesUnique(Filter(s, keep))
  {
    if s != [] {
      assert UsernamesUnique(s[1..]) by {
        forall i, j | 0 <= i < j < |s[1..]| ensures s[1..][i].username != s[1..][j].username {
          assert s[1..][i] == s[i + 1] && s[1..][j] == s[j + 1];
        }
      }
      UsernamesUniqueFilter(s[1..], keep);
      var rest := Filter(s[1..], keep);
      if keep(s[0]) {
        var r := [s[0]] + rest;
        forall i, j | 0 <= i < j < |r| ensures r[i].username != r[j].username {
          if i == 0 {
            assert r[j] in s[1..];
            var k :| 0 <= k < |s[1..]| && s[1..][k] == r[j];
            assert s[k + 1] == r[j];
          } else {
            assert r[i] == rest[i - 1] && r[j] == rest[j - 1];
          }
        }
      }
    }
  }

  lemma DeleteTaskPageValid(t: Tables, page: Id)
    requires Valid(t)
    ensures Valid(DeleteTaskPage(t, page))
  {
    var r := DeleteTaskPage(t, page);
    KeyedFilter(t.taskPages, (p: TaskPage) => p.id != page, TaskPageKey, t.nextId);
    KeyedFilter(t.lineItems, (l: LineItem) => l.taskPage != page, LineItemKey, t.nextId);
    assert TaskPageIds(t) - {page} <= TaskPageIds(r);
  }

  lemma DeleteProjectValid(t: Tables, project: Id)
    requires Valid(t)
    ensures Valid(DeleteProject(t, project))
  {
    DeleteProjectKeys(t, project);
    DeleteProjectRefs(t, project);
  }

  /** The rows a project deletion keeps still have unique keys below `nextId`. */
  lemma DeleteProjectKeys(t: Tables, project: Id)
    requires Valid(t)
    ensures var r := DeleteProject(t, project);
      && Keyed(r.projects, ProjectKey, r.nextId) && Keyed(r.members, MemberKey, r.nextId)
      && Keyed(r.documents, DocumentKey, r.nextId) && Keyed(r.taskPages, TaskPageKey, r.nextId)
      && Keyed(r.updates, UpdateKey, r.nextId) && Keyed(r.attachments, AttachmentKey, r.nextId)
      && Keyed(r.workUpdates, WorkUpdateKey, r.nextId) && Keyed(r.lineItems, LineItemKey, r.nextId)
      && MembersUnique(r.members)
  {
    var pages := PagesOfProject(t, project);
    var updates := UpdatesOfProject(t, project);
    KeyedFilter(t.projects, (p: Project) => p.id != project, ProjectKey, t.nextId);
    KeyedFilter(t.members, (m: ProjectMember) => m.project != project, MemberKey, t.nextId);
    KeyedFilter(t.documents, (d: ProjectDocument) => d.project != project, DocumentKey, t.nextId);
    KeyedFilter(t.taskPages, (p: TaskPage) => p.project != project, TaskPageKey, t.nextId);
    KeyedFilter(t.updates, (u: ProjectUpdate) => u.project != project, UpdateKey, t.nextId);
    KeyedFilter(t.attachments, (a: Attachment) => a.projectUpdate !in updates, AttachmentKey, t.nextId);
    KeyedFilter(t.workUpdates, (w: WorkUpdate) => w.project != project, WorkUpdateKey, t.nextId);
    KeyedFilter(t.lineItems, (l: LineItem) => l.project != project && l.taskPage !in pages, LineItemKey, t.nextId);
    MembersUniqueFilter(t.members, (m: ProjectMember) => m.project != project);
  }

  /** Every reference a kept row makes still names a kept row. */
  lemma DeleteProjectRefs(t: Tables, project: Id)
    requires Valid(t)
    ensures var r := DeleteProject(t, project);
      && ProjectRefs(r.projects, UserIds(r))
      && MemberRefs(r.members, ProjectIds(r), UserIds(r))
      && DocumentRefs(r.documents, ProjectIds(r), UserIds(r))
      && TaskPageRefs(r.taskPages, ProjectIds(r), UserIds(r))
      && UpdateRefs(r.updates, ProjectIds(r), UserIds(r))
      && AttachmentRefs(r.attachments, UpdateIds(r))
      && WorkUpdateRefs(r.workUpdates, ProjectIds(r), UserIds(r))
      && LineItemRefs(r.lineItems, DailyUpdateIds(r), ProjectIds(r), TaskPageIds(r))
  {
    var r := DeleteProject(t, project);
    var pages := PagesOfProject(t, project);
    var updates := UpdatesOfProject(t, project);
    assert ProjectIds(t) - {project} <= ProjectIds(r);
    assert UpdateIds(t) - updates <= UpdateIds(r) by {
      forall id | id in UpdateIds(t) - updates ensures id in UpdateIds(r) {
        var u :| u in t.updates && u.id == id;
        assert u.project != project;
      }
    }
    assert TaskPageIds(t) - pages <= TaskPageIds(r) by {
      forall id | id in TaskPageIds(t) - pages ensures id in TaskPageIds(r) {
        var p :| p in t.taskPages && p.id == id;
        assert p.project != project;
      }
    }
  }

  lemma DeleteUserValid(t: Tables, user: UserId)
    requires Valid(t)
    ensures Valid(DeleteUser(t, user))
  {
    DeleteUserKeys(t, user);
    DeleteUserUserRefs(t, user);
    DeleteUserRowRefs(t, user);
    UsernamesUniqueFilter(t.users, (u: User) => u.id != user);
  }

  /** The rows a user deletion keeps or rewrites still have unique keys below `nextId`. */
  lemma DeleteUserKeys(t: Tables, user: UserId)
    requires Valid(t)
    ensures var r := DeleteUser(t, user);
      && Keyed(r.users, UserKey, r.nextId) && Keyed(r.projects, ProjectKey, r.nextId)
      && Keyed(r.members, MemberKey, r.nextId) && Keyed(r.documents, DocumentKey, r.nextId)
      && Keyed(r.taskPages, TaskPageKey, r.nextId) && Keyed(r.updates, UpdateKey, r.nextId)
      && Keyed(r.workUpdates, WorkUpdateKey, r.nextId) && Keyed(r.dailyUpdates, DailyUpdateKey, r.nextId)
      && Keyed(r.lineItems, LineItemKey, r.nextId) && Keyed(r.issues, IssueKey, r.nextId)
      && Keyed(r.notifications, NotificationKey, r.nextId)
      && MembersUnique(r.members)
  {
    var r := DeleteUser(t, user);
    var pages := PagesOfUser(t, user);
    var days := DailyUpdatesOfUser(t, user);
    KeyedFilter(t.users, (u: User) => u.id != user, UserKey, t.nextId);
    KeyedRewrite(t.projects, r.projects, ProjectKey, t.nextId);
    KeyedRewrite(t.updates, r.updates, UpdateKey, t.nextId);
    KeyedRewrite(t.documents, r.documents, DocumentKey, t.nextId);
    KeyedFilter(t.members, (m: ProjectMember) => m.user != user, MemberKey, t.nextId);
    KeyedFilter(t.taskPages, (p: TaskPage) => p.assignedTo != user, TaskPageKey, t.nextId);
    KeyedFilter(t.workUpdates, (w: WorkUpdate) => w.member != user, WorkUpdateKey, t.nextId);
    KeyedFilter(t.dailyUpdates, (d: DailyUpdate) => d.user != user, DailyUpdateKey, t.nextId);
    KeyedFilter(t.lineItems, (l: LineItem) => l.dailyUpdate !in days && l.taskPage !in pages, LineItemKey, t.nextId);
    KeyedFilter(t.issues, (i: Issue) => i.user != user, IssueKey, t.nextId);
    KeyedFilter(t.notifications, (n: Notification) => n.user != user, NotificationKey, t.nextId);
    MembersUniqueFilter(t.members, (m: ProjectMember) => m.user != user);
  }

  /** Every reference to a user that a user deletion keeps names a kept user; SET_NULL ones are cleared. */
  lemma DeleteUserUserRefs(t: Tables, user: UserId)
    requires Valid(t)
    ensures var r := DeleteUser(t, user);
      && ProjectRefs(r.projects, UserIds(r))
      && DocumentRefs(r.documents, ProjectIds(r), UserIds(r))
      && UpdateRefs(r.updates, ProjectIds(r), UserIds(r))
  {
    var r := DeleteUser(t, user);
    assert UserIds(t) - {user} <= UserIds(r);
    DeleteUserProjectIds(t, user);
    forall i | 0 <= i < |r.projects|
      ensures OptIn(r.projects[i].createdBy, UserIds(r)) && OptIn(r.projects[i].teamHead, UserIds(r))
    {
      assert t.projects[i] in t.projects;
    }
    forall i | 0 <= i < |r.updates| ensures r.updates[i].project in ProjectIds(r) && OptIn(r.updates[i].user, UserIds(r)) {
      assert t.updates[i] in t.updates;
    }
    forall i | 0 <= i < |r.documents|
      ensures r.documents[i].project in ProjectIds(r) && OptIn(r.documents[i].uploadedBy, UserIds(r))
    {
      assert t.documents[i] in t.documents;
    }
  }

  /** A user deletion rewrites projects and updates in place, so their keys stay. */
  lemma DeleteUserProjectIds(t: Tables, user: UserId)
    ensures ProjectIds(DeleteUser(t, user)) == ProjectIds(t)
    ensures UpdateIds(DeleteUser(t, user)) == UpdateIds(t)
  {
    var r := DeleteUser(t, user);
    forall id | id in ProjectIds(t) ensures id in ProjectIds(r) {
      var i :| 0 <= i < |t.projects| && t.projects[i].id == id;
      assert r.projects[i].id == id;
    }
    forall id | id in UpdateIds(t) ensures id in UpdateIds(r) {
      var i :| 0 <= i < |t.updates| && t.updates[i].id == id;
      assert r.updates[i].id == id;
    }
  }

  /** The rows a user deletion keeps still reference kept rows. */
  lemma DeleteUserRowRefs(t: Tables, user: UserId)
    requires Valid(t)
    ensures var r := DeleteUser(t, user);
      && MemberRefs(r.members, ProjectIds(r), UserIds(r))
      && TaskPageRefs(r.taskPages, ProjectIds(r), UserIds(r))
      && AttachmentRefs(r.attachments, UpdateIds(r))
      && WorkUpdateRefs(r.workUpdates, ProjectIds(r), UserIds(r))
      && DailyUpdateRefs(r.dailyUpdates, UserIds(r))
      && LineItemRefs(r.lineItems, DailyUpdateIds(r), ProjectIds(r), TaskPageIds(r))
      && IssueRefs(r.issues, UserIds(r))
      && NotificationRefs(r.notifications, UserIds(r))
  {
    var r := DeleteUser(t, user);
    var pages := PagesOfUser(t, user);
    var days := DailyUpdatesOfUser(t, user);
    assert UserIds(t) - {user} <= UserIds(r);
    DeleteUserProjectIds(t, user);
    assert TaskPageIds(t) - pages <= TaskPageIds(r) by {
      forall id | id in TaskPageIds(t) - pages ensures id in TaskPageIds(r) {
        var p :| p in t.taskPages && p.id == id;
        assert p.assignedTo != user;
      }
    }
    assert DailyUpdateIds(t) - days <= DailyUpdateIds(r) by {
      forall id | id in DailyUpdateIds(t) - days ensures id in DailyUpdateIds(r) {
        var d :| d in t.dailyUpdates && d.id == id;
        assert d.user != user;
      }
    }
  }

  // ---------------------------------------------------------------------
  // Default orderings (`Meta.ordering`)
  // ---------------------------------------------------------------------

  /** `TaskPage.Meta.ordering = ['created_at']`. */
  function TaskPageOrder(a: TaskPage, b: TaskPage): bool { a.createdAt <= b.createdAt }

  /** `Notification.Meta.ordering = ['-timestamp']`. */
  function NotificationOrder(a: Notification, b: Notification): bool { a.timestamp >= b.timestamp }

  /** A user's notifications as a default query returns them: newest first. */
  function NotificationsOf(t: Tables, user: UserId): (r: seq<Notification>)
    ensures forall i, j :: 0 <= i < j < |r| ==> r[i].timestamp >= r[j].timestamp
    ensures multiset(r) == multiset(Filter(t.notifications, (n: Notification) => n.user == user))
  {
    SortWith(Filter(t.notifications, (n: Notification) => n.user == user), NotificationOrder)
  }

  /** The pages assigned to a user in a project, oldest first. */
  function PagesOf(t: Tables, project: Id, user: UserId): (r: seq<TaskPage>)
    ensures forall i, j :: 0 <= i < j < |r| ==> r[i].createdAt <= r[j].createdAt
    ensures multiset(r) == multiset(Filter(t.taskPages, (p: TaskPage) => p.project == project && p.assignedTo == user))
  {
    SortWith(Filter(t.taskPages, (p: TaskPage) => p.project == project && p.assignedTo == user), TaskPageOrder)
  }
}
