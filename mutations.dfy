/**
 * The row-level edits the views make, as functions on the tables: inserting
 * a notification, completing or toggling a task page, replacing a member's
 * task pages, adding and removing team members, the work-update upsert,
 * issue decisions and marking notifications read. Each comes with what it
 * guarantees and a proof that it keeps the database consistent.
 */
module Mutations {
  import opened Wrappers
  import opened Choices
  import opened Users
  import opened Rows
  import opened Models

  // ---------------------------------------------------------------------
  // Notifications
  // ---------------------------------------------------------------------

  /** `Notification.objects.create(user=..., message=..., link=...)`, with the next free id. */
  function AddNotification(t: Tables, user: UserId, message: string, link: Option<string>, now: Instant): (r: Tables)
    ensures r.notifications == t.notifications + [NewNotification(t.nextId, user, message, link, now)]
    ensures r.nextId == t.nextId + 1
    ensures r.(notifications := t.notifications, nextId := t.nextId) == t
  {
    t.(notifications := t.notifications + [NewNotification(t.nextId, user, message, link, now)], nextId := t.nextId + 1)
  }

  lemma AddNotificationValid(t: Tables, user: UserId, message: string, link: Option<string>, now: Instant)
    requires Valid(t) && user in UserIds(t)
    ensures Valid(AddNotification(t, user, message, link, now))
  {
    var n := NewNotification(t.nextId, user, message, link, now);
    ValidBump(t);
    KeyedAppend(t.notifications, n, NotificationKey, t.nextId);
  }

  // ---------------------------------------------------------------------
  // Rewriting rows in place
  // ---------------------------------------------------------------------

  /** `b` rewrites the pages of `a` in place, keeping each row's key and references. */
  predicate SamePageRefs(a: seq<TaskPage>, b: seq<TaskPage>) {
    |a| == |b| && forall i :: 0 <= i < |a| ==>
      a[i].id == b[i].id && a[i].project == b[i].project && a[i].assignedTo == b[i].assignedTo
  }

  /** An `UPDATE` of task-page fields other than keys and references keeps the database consistent. */
  lemma RetouchPagesValid(t: Tables, pages: seq<TaskPage>)
    requires Valid(t) && SamePageRefs(t.taskPages, pages)
    ensures Valid(t.(taskPages := pages))
  {
    assert SameKeys(t.taskPages, pages, TaskPageKey);
    KeyedRewrite(t.taskPages, pages, TaskPageKey, t.nextId);
    TaskPageIdsRewrite(t.taskPages, pages);
    forall p | p in pages ensures p.project in ProjectIds(t) && p.assignedTo in UserIds(t) {
      var i :| 0 <= i < |pages| && pages[i] == p;
      assert t.taskPages[i] in t.taskPages;
    }
  }

  /** `b` rewrites the work updates of `a` in place, keeping each row's key and references. */
  predicate SameWorkRefs(a: seq<WorkUpdate>, b: seq<WorkUpdate>) {
    |a| == |b| && forall i :: 0 <= i < |a| ==>
      a[i].id == b[i].id && a[i].project == b[i].project && a[i].member == b[i].member
  }

  lemma RetouchWorkValid(t: Tables, work: seq<WorkUpdate>)
    requires Valid(t) && SameWorkRefs(t.workUpdates, work)
    ensures Valid(t.(workUpdates := work))
  {
    assert SameKeys(t.workUpdates, work, WorkUpdateKey);
    KeyedRewrite(t.workUpdates, work, WorkUpdateKey, t.nextId);
    forall w | w in work ensures w.project in ProjectIds(t) && w.member in UserIds(t) {
      var i :| 0 <= i < |work| && work[i] == w;
      assert t.workUpdates[i] in t.workUpdates;
    }
  }

  /** `b` rewrites the issues of `a` in place, keeping each row's key and user. */
  predicate SameIssueRefs(a: seq<Issue>, b: seq<Issue>) {
    |a| == |b| && forall i :: 0 <= i < |a| ==> a[i].id == b[i].id && a[i].user == b[i].user
  }

  lemma RetouchIssuesValid(t: Tables, issues: seq<Issue>)
    requires Valid(t) && SameIssueRefs(t.issues, issues)
    ensures Valid(t.(issues := issues))
  {
    assert SameKeys(t.issues, issues, IssueKey);
    KeyedRewrite(t.issues, issues, IssueKey, t.nextId);
    forall x | x in issues ensures x.user in UserIds(t) {
      var i :| 0 <= i < |issues| && issues[i] == x;
      assert t.issues[i] in t.issues;
    }
  }

  /** `b` rewrites the notifications of `a` in place, keeping each row's key and user. */
  predicate SameNotificationRefs(a: seq<Notification>, b: seq<Notification>) {
    |a| == |b| && forall i :: 0 <= i < |a| ==> a[i].id == b[i].id && a[i].user == b[i].user
  }

  lemma RetouchNotificationsValid(t: Tables, ns: seq<Notification>)
    requires Valid(t) && SameNotificationRefs(t.notifications, ns)
    ensures Valid(t.(notifications := ns))
  {
    assert SameKeys(t.notifications, ns, NotificationKey);
    KeyedRewrite(t.notifications, ns, NotificationKey, t.nextId);
    forall x | x in ns ensures x.user in UserIds(t) {
      var i :| 0 <= i < |ns| && ns[i] == x;
      assert t.notifications[i] in t.notifications;
    }
  }

  // ---------------------------------------------------------------------
  // Task pages
  // ---------------------------------------------------------------------

  /** The first task page with key `id` that satisfies `scope`; `get_object_or_404`. */
  function FindPage(pages: seq<TaskPage>, id: Id, scope: TaskPage -> bool): (r: Option<TaskPage>)
    ensures r.Some? <==> exists p :: p in pages && p.id == id && scope(p)
    ensures r.Some? ==> r.value in pages && r.value.id == id && scope(r.value)
  {
    if pages == [] then None
    else if pages[0].id == id && scope(pages[0]) then Some(pages[0])
    else FindPage(pages[1..], id, scope)
  }

  /** In a table with unique keys, the page found is the only page with that key. */
  lemma FindPageUnique(pages: seq<TaskPage>, id: Id, scope: TaskPage -> bool, p: TaskPage)
    requires UniqueBy(pages, TaskPageKey)
    requires FindPage(pages, id, scope).Some? && p in pages && p.id == id
    ensures p == FindPage(pages, id, scope).value
  {
    var q := FindPage(pages, id, scope).value;
    var i :| 0 <= i < |pages| && pages[i] == p;
    var j :| 0 <= j < |pages| && pages[j] == q;
    assert TaskPageKey(pages[i]) == TaskPageKey(pages[j]);
  }

  /** `is_complete = value` on the page with key `page`; nothing else changes. */
  function SetComplete(t: Tables, page: Id, value: bool): (r: Tables)
    ensures |r.taskPages| == |t.taskPages|
    ensures forall i :: 0 <= i < |t.taskPages| ==>
      r.taskPages[i] == (if t.taskPages[i].id == page then t.taskPages[i].(isComplete := value) else t.taskPages[i])
    ensures r.(taskPages := t.taskPages) == t
  {
    t.(taskPages := MapRows(t.taskPages, (p: TaskPage) => if p.id == page then p.(isComplete := value) else p))
  }

  lemma SetCompleteValid(t: Tables, page: Id, value: bool)
    requires Valid(t)
    ensures Valid(SetComplete(t, page, value))
  {
    RetouchPagesValid(t, SetComplete(t, page, value).taskPages);
  }

  /** Setting a page back to the value it had undoes the change: toggling twice restores the table. */
  lemma SetCompleteRestores(t: Tables, page: Id, value: bool)
    requires forall p :: p in t.taskPages && p.id == page ==> p.isComplete == value
    ensures SetComplete(SetComplete(t, page, !value), page, value) == t
  {
    var r := SetComplete(SetComplete(t, page, !value), page, value);
    assert forall i :: 0 <= i < |t.taskPages| ==> t.taskPages[i] in t.taskPages;
    assert r.taskPages == t.taskPages;
  }

  /** Setting the same value twice is the same as setting it once. */
  lemma SetCompleteIdempotent(t: Tables, page: Id, value: bool)
    ensures SetComplete(SetComplete(t, page, value), page, value) == SetComplete(t, page, value)
  {
    var once := SetComplete(t, page, value);
    assert SetComplete(once, page, value).taskPages == once.taskPages;
  }

  /** One row of the task-page formset. */
  datatype PageRow = PageRow(deleted: bool, pageName: string)

  /** A row creates a page when it is not marked deleted and names a page. */
  predicate Kept(row: PageRow) {
    !row.deleted && row.pageName != ""
  }

  /** The page names the formset creates, in form order. */
  function KeptNames(rows: seq<PageRow>): (names: seq<string>)
    ensures |names| <= |rows|
    ensures forall n :: n in names <==> exists row :: row in rows && Kept(row) && row.pageName == n
    ensures forall n :: n in names ==> n != ""
  {
    if rows == [] then []
    else
      var rest := KeptNames(rows[1..]);
      assert forall row :: row in rows <==> row == rows[0] || row in rows[1..];
      if Kept(rows[0]) then [rows[0].pageName] + rest else rest
  }

  /** Reading one more row of the formset adds its name when the row is kept. */
  lemma {:induction false} KeptNamesSnoc(rows: seq<PageRow>, row: PageRow)
    ensures KeptNames(rows + [row]) == KeptNames(rows) + (if Kept(row) then [row.pageName] else [])
  {
    if rows != [] {
      assert (rows + [row])[1..] == rows[1..] + [row];
      KeptNamesSnoc(rows[1..], row);
    } else {
      assert rows + [row] == [row];
    }
  }

  /** `TaskPage.objects.create(project=..., assigned_to=..., page_name=...)`. */
  function AddPage(t: Tables, project: Id, user: UserId, name: string, now: Instant): Tables {
    t.(taskPages := t.taskPages + [NewTaskPage(t.nextId, project, user, name, now)], nextId := t.nextId + 1)
  }

  /** One created page per name, in order, with consecutive fresh keys. */
  function AppendPages(t: Tables, project: Id, user: UserId, names: seq<string>, now: Instant): (r: Tables)
    ensures |r.taskPages| == |t.taskPages| + |names| && r.taskPages[..|t.taskPages|] == t.taskPages
    ensures forall k :: 0 <= k < |names| ==>
      r.taskPages[|t.taskPages| + k] == NewTaskPage(t.nextId + k, project, user, names[k], now)
    ensures r.nextId == t.nextId + |names|
    ensures r.(taskPages := t.taskPages, nextId := t.nextId) == t
    decreases |names|
  {
    if names == [] then t
    else
      var prev := AppendPages(t, project, user, names[..|names| - 1], now);
      AddPage(prev, project, user, names[|names| - 1], now)
  }

  lemma AppendPagesSnoc(t: Tables, project: Id, user: UserId, names: seq<string>, name: string, now: Instant)
    ensures AppendPages(t, project, user, names + [name], now) == AddPage(AppendPages(t, project, user, names, now), project, user, name, now)
  {
    assert (names + [name])[..|names|] == names;
  }

  /** The keys of the pages assigned to `user` in `project`. */
  function PairPages(t: Tables, project: Id, user: UserId): set<Id> {
    set p | p in t.taskPages && p.project == project && p.assignedTo == user :: p.id
  }

  /** `existing.delete()`: the pair's pages go, and with them the line items logged against them. */
  function RemovePairPages(t: Tables, project: Id, user: UserId): (r: Tables)
    ensures forall p :: p in r.taskPages <==> p in t.taskPages && !(p.project == project && p.assignedTo == user)
    ensures forall l :: l in r.lineItems <==> l in t.lineItems && l.taskPage !in PairPages(t, project, user)
    ensures r.(taskPages := t.taskPages, lineItems := t.lineItems) == t
  {
    var gone := PairPages(t, project, user);
    t.(taskPages := Filter(t.taskPages, (p: TaskPage) => !(p.project == project && p.assignedTo == user)),
       lineItems := Filter(t.lineItems, (l: LineItem) => l.taskPage !in gone))
  }

  /** The whole replace: delete the pair's pages, then create one per kept row. */
  function ReplacePages(t: Tables, project: Id, user: UserId, rows: seq<PageRow>, now: Instant): Tables {
    AppendPages(RemovePairPages(t, project, user), project, user, KeptNames(rows), now)
  }

  /** Every page after appending was there before or is one of the fresh pages. */
  lemma AppendedPage(t: Tables, project: Id, user: UserId, names: seq<string>, now: Instant, p: TaskPage)
    requires p in AppendPages(t, project, user, names, now).taskPages
    ensures p in t.taskPages || exists k :: 0 <= k < |names| && p == NewTaskPage(t.nextId + k, project, user, names[k], now)
  {
    var r := AppendPages(t, project, user, names, now);
    var n := |t.taskPages|;
    var i :| 0 <= i < |r.taskPages| && r.taskPages[i] == p;
    if i < n {
      assert p == r.taskPages[..n][i];
    } else {
      assert p == NewTaskPage(t.nextId + (i - n), project, user, names[i - n], now);
    }
  }

  /** Appending keeps every page that was there and adds each fresh page. */
  lemma AppendedKeeps(t: Tables, project: Id, user: UserId, names: seq<string>, now: Instant)
    ensures var r := AppendPages(t, project, user, names, now);
      (forall p :: p in t.taskPages ==> p in r.taskPages)
      && forall k :: 0 <= k < |names| ==> NewTaskPage(t.nextId + k, project, user, names[k], now) in r.taskPages
  {
    var r := AppendPages(t, project, user, names, now);
    var n := |t.taskPages|;
    forall k | 0 <= k < |names|
      ensures NewTaskPage(t.nextId + k, project, user, names[k], now) in r.taskPages
    {
      assert r.taskPages[n + k] == NewTaskPage(t.nextId + k, project, user, names[k], now);
    }
    forall p | p in t.taskPages ensures p in r.taskPages {
      var i :| 0 <= i < n && t.taskPages[i] == p;
      assert r.taskPages[..n][i] == p;
    }
  }

  /**
   * The pages of the pair in `r` are exactly the fresh pages keyed from
   * `first`, one per name in order: every page of the pair is a fresh one,
   * and every fresh one is there.
   */
  ghost predicate PairIsFresh(r: Tables, first: Id, project: Id, user: UserId, names: seq<string>, now: Instant) {
    (forall p :: p in r.taskPages && p.project == project && p.assignedTo == user ==>
       exists k :: 0 <= k < |names| && p == NewTaskPage(first + k, project, user, names[k], now))
    && forall k :: 0 <= k < |names| ==> NewTaskPage(first + k, project, user, names[k], now) in r.taskPages
  }

  /**
   * After the replace the member's pages in the project are exactly one
   * fresh, incomplete page per kept row, named as the row names it.
   */
  lemma ReplacePagesPairs(t: Tables, project: Id, user: UserId, rows: seq<PageRow>, now: Instant)
    ensures PairIsFresh(ReplacePages(t, project, user, rows, now), t.nextId, project, user, KeptNames(rows), now)
  {
    var base := RemovePairPages(t, project, user);
    assert base.nextId == t.nextId;
    AppendedPairs(base, project, user, KeptNames(rows), now);
  }

  /** Appending to tables without pages of the pair leaves the pair exactly the fresh pages. */
  lemma AppendedPairs(t: Tables, project: Id, user: UserId, names: seq<string>, now: Instant)
    requires forall p :: p in t.taskPages ==> !(p.project == project && p.assignedTo == user)
    ensures PairIsFresh(AppendPages(t, project, user, names, now), t.nextId, project, user, names, now)
  {
    var r := AppendPages(t, project, user, names, now);
    AppendedKeeps(t, project, user, names, now);
    forall p | p in r.taskPages && p.project == project && p.assignedTo == user
      ensures exists k :: 0 <= k < |names| && p == NewTaskPage(t.nextId + k, project, user, names[k], now)
    {
      AppendedPage(t, project, user, names, now, p);
    }
  }

  /**
   * Every other page is as it was; only line items logged against the
   * removed pages are gone; and no other table changes.
   */
  lemma ReplacePagesOthers(t: Tables, project: Id, user: UserId, rows: seq<PageRow>, now: Instant)
    ensures var r := ReplacePages(t, project, user, rows, now);
      forall p :: p in r.taskPages && !(p.project == project && p.assignedTo == user) <==>
        p in t.taskPages && !(p.project == project && p.assignedTo == user)
    ensures var r := ReplacePages(t, project, user, rows, now);
      forall l :: l in r.lineItems <==> l in t.lineItems && l.taskPage !in PairPages(t, project, user)
    ensures var r := ReplacePages(t, project, user, rows, now);
      r.(taskPages := t.taskPages, lineItems := t.lineItems, nextId := t.nextId) == t
  {
    var base := RemovePairPages(t, project, user);
    var names := KeptNames(rows);
    var r := AppendPages(base, project, user, names, now);
    AppendedKeeps(base, project, user, names, now);
    forall p | p in r.taskPages && !(p.project == project && p.assignedTo == user)
      ensures p in base.taskPages
    {
      AppendedPage(base, project, user, names, now, p);
    }
  }

  lemma RemovePairPagesValid(t: Tables, project: Id, user: UserId)
    requires Valid(t)
    ensures Valid(RemovePairPages(t, project, user))
  {
    var gone := PairPages(t, project, user);
    var r := RemovePairPages(t, project, user);
    FilterUnique(t.taskPages, (p: TaskPage) => !(p.project == project && p.assignedTo == user), TaskPageKey);
    FilterUnique(t.lineItems, (l: LineItem) => l.taskPage !in gone, LineItemKey);
    assert TaskPageIds(t) - gone <= TaskPageIds(r) by {
      forall id | id in TaskPageIds(t) - gone ensures id in TaskPageIds(r) {
        var p :| p in t.taskPages && p.id == id;
        assert p in r.taskPages;
      }
    }
  }

  /** Appending pages for an existing project and user keeps the database consistent. */
  lemma {:induction false} AppendPagesValid(t: Tables, project: Id, user: UserId, names: seq<string>, now: Instant)
    requires Valid(t) && project in ProjectIds(t) && user in UserIds(t)
    ensures Valid(AppendPages(t, project, user, names, now))
    decreases |names|
  {
    if names != [] {
      var prev := AppendPages(t, project, user, names[..|names| - 1], now);
      AppendPagesValid(t, project, user, names[..|names| - 1], now);
      assert ProjectIds(prev) == ProjectIds(t) && UserIds(prev) == UserIds(t);
      AddPageValid(prev, project, user, names[|names| - 1], now);
    }
  }

  lemma AddPageValid(t: Tables, project: Id, user: UserId, name: string, now: Instant)
    requires Valid(t) && project in ProjectIds(t) && user in UserIds(t)
    ensures Valid(AddPage(t, project, user, name, now))
  {
    var r := AddPage(t, project, user, name, now);
    var p := NewTaskPage(t.nextId, project, user, name, now);
    AppendUnique(t.taskPages, p, TaskPageKey);
    assert TaskPageIds(t) <= TaskPageIds(r);
  }

  /** Replacing a member's pages in an existing project keeps the database consistent. */
  lemma ReplacePagesValid(t: Tables, project: Id, user: UserId, rows: seq<PageRow>, now: Instant)
    requires Valid(t) && project in ProjectIds(t) && user in UserIds(t)
    ensures Valid(ReplacePages(t, project, user, rows, now))
  {
    var base := RemovePairPages(t, project, user);
    RemovePairPagesValid(t, project, user);
    assert ProjectIds(base) == ProjectIds(t) && UserIds(base) == UserIds(t);
    AppendPagesValid(base, project, user, KeptNames(rows), now);
  }

  // ---------------------------------------------------------------------
  // Team membership
  // ---------------------------------------------------------------------

  /** `ProjectMember.objects.create(project=..., user=..., role=...)`. */
  function AddMemberRow(t: Tables, project: Id, user: UserId, role: ProjectRole): (r: Tables)
    ensures r.members == t.members + [ProjectMember(t.nextId, project, user, role)]
    ensures r.nextId == t.nextId + 1
    ensures r.(members := t.members, nextId := t.nextId) == t
  {
    t.(members := t.members + [ProjectMember(t.nextId, project, user, role)], nextId := t.nextId + 1)
  }

  /**
   * Adding a user who has no membership in the project, in any role, keeps
   * the database consistent, and leaves that user with exactly one role there.
   */
  lemma AddMemberValid(t: Tables, project: Id, user: UserId, role: ProjectRole)
    requires Valid(t) && project in ProjectIds(t) && user in UserIds(t)
    requires forall m :: m in t.members ==> !(m.project == project && m.user == user)
    ensures Valid(AddMemberRow(t, project, user, role))
    ensures forall m :: m in AddMemberRow(t, project, user, role).members && m.project == project && m.user == user ==>
      m == ProjectMember(t.nextId, project, user, role)
  {
    var r := AddMemberRow(t, project, user, role);
    var m := ProjectMember(t.nextId, project, user, role);
    AppendUnique(t.members, m, MemberKey);
    forall i, j | 0 <= i < j < |r.members|
      ensures !(r.members[i].project == r.members[j].project && r.members[i].user == r.members[j].user
        && r.members[i].role == r.members[j].role)
    {
      if j == |t.members| {
        assert r.members[i] in t.members;
      } else {
        assert r.members[i] == t.members[i] && r.members[j] == t.members[j];
      }
    }
  }

  /** `member.delete()` for the membership row with key `member`. */
  function RemoveMemberRow(t: Tables, member: Id): (r: Tables)
    ensures forall m :: m in r.members <==> m in t.members && m.id != member
    ensures r.(members := t.members) == t
  {
    t.(members := Filter(t.members, (m: ProjectMember) => m.id != member))
  }

  lemma RemoveMemberValid(t: Tables, member: Id)
    requires Valid(t)
    ensures Valid(RemoveMemberRow(t, member))
  {
    FilterUnique(t.members, (m: ProjectMember) => m.id != member, MemberKey);
    MembersUniqueFilter(t.members, (m: ProjectMember) => m.id != member);
  }

  // ---------------------------------------------------------------------
  // Work updates
  // ---------------------------------------------------------------------

  predicate IsWorkOf(w: WorkUpdate, project: Id, member: UserId) {
    w.project == project && w.member == member
  }

  /** No two work updates belong to the same project and member. */
  predicate AtMostOneWork(s: seq<WorkUpdate>, project: Id, member: UserId) {
    forall i, j :: 0 <= i < j < |s| && IsWorkOf(s[i], project, member) ==> !IsWorkOf(s[j], project, member)
  }

  /** The matched rows take the new `status` and `remarks`; every row keeps its key and references. */
  function UpdateWorkRows(s: seq<WorkUpdate>, project: Id, member: UserId, status: WorkStatus, remarks: Option<string>)
    : (r: seq<WorkUpdate>)
    ensures SameWorkRefs(s, r)
    ensures forall i :: 0 <= i < |s| ==>
      r[i] == (if IsWorkOf(s[i], project, member) then s[i].(status := status, remarks := remarks) else s[i])
  {
    MapRows(s, (w: WorkUpdate) => if IsWorkOf(w, project, member) then w.(status := status, remarks := remarks) else w)
  }

  /** A new work update for the pair, with the next free key. */
  function InsertWork(t: Tables, project: Id, member: UserId, status: WorkStatus, remarks: Option<string>, now: Instant)
    : (r: Tables)
    ensures r.workUpdates == t.workUpdates + [WorkUpdate(t.nextId, project, member, remarks, status, now)]
    ensures r.nextId == t.nextId + 1
    ensures r.(workUpdates := t.workUpdates, nextId := t.nextId) == t
  {
    t.(workUpdates := t.workUpdates + [WorkUpdate(t.nextId, project, member, remarks, status, now)], nextId := t.nextId + 1)
  }

  /**
   * `WorkUpdate.objects.update_or_create(project=..., member=..., defaults=...)`:
   * `None` is `MultipleObjectsReturned`, raised when two rows already match.
   * Afterwards exactly one row belongs to the pair and carries the new
   * values, and the rows of every other pair are as they were.
   */
  function UpsertWork(t: Tables, project: Id, member: UserId, status: WorkStatus, remarks: Option<string>, now: Instant)
    : (r: Option<Tables>)
    ensures r.None? <==> !AtMostOneWork(t.workUpdates, project, member)
    ensures r.Some? ==> AtMostOneWork(r.value.workUpdates, project, member)
    ensures r.Some? ==>
      exists w :: w in r.value.workUpdates && IsWorkOf(w, project, member) && w.status == status && w.remarks == remarks
    ensures r.Some? ==> forall w :: !IsWorkOf(w, project, member) ==>
      (w in r.value.workUpdates <==> w in t.workUpdates)
    ensures r.Some? ==> r.value.(workUpdates := t.workUpdates, nextId := t.nextId) == t
  {
    if !AtMostOneWork(t.workUpdates, project, member) then None
    else if exists w :: w in t.workUpdates && IsWorkOf(w, project, member) then
      var w :| w in t.workUpdates && IsWorkOf(w, project, member);
      UpdateWorkRowsSpec(t.workUpdates, project, member, status, remarks, w);
      Some(t.(workUpdates := UpdateWorkRows(t.workUpdates, project, member, status, remarks)))
    else
      InsertWorkSpec(t, project, member, status, remarks, now);
      Some(InsertWork(t, project, member, status, remarks, now))
  }

  /** Updating the pair's one row gives it the new values and leaves every other pair's rows alone. */
  lemma UpdateWorkRowsSpec(s: seq<WorkUpdate>, project: Id, member: UserId, status: WorkStatus,
                           remarks: Option<string>, w: WorkUpdate)
    requires AtMostOneWork(s, project, member) && w in s && IsWorkOf(w, project, member)
    ensures var r := UpdateWorkRows(s, project, member, status, remarks);
      && AtMostOneWork(r, project, member)
      && (exists x :: x in r && IsWorkOf(x, project, member) && x.status == status && x.remarks == remarks)
      && forall x :: !IsWorkOf(x, project, member) ==> (x in r <==> x in s)
  {
    var r := UpdateWorkRows(s, project, member, status, remarks);
    var i :| 0 <= i < |s| && s[i] == w;
    assert r[i] in r;
    forall x | !IsWorkOf(x, project, member) ensures x in r <==> x in s {
      if x in s {
        var k :| 0 <= k < |s| && s[k] == x;
        assert r[k] == x;
      }
      if x in r {
        var k :| 0 <= k < |r| && r[k] == x;
        assert s[k] == x;
      }
    }
  }

  /** Inserting the pair's first row gives it the new values and leaves every other pair's rows alone. */
  lemma InsertWorkSpec(t: Tables, project: Id, member: UserId, status: WorkStatus, remarks: Option<string>, now: Instant)
    requires forall w :: w in t.workUpdates ==> !IsWorkOf(w, project, member)
    ensures var r := InsertWork(t, project, member, status, remarks, now).workUpdates;
      && AtMostOneWork(r, project, member)
      && (exists x :: x in r && IsWorkOf(x, project, member) && x.status == status && x.remarks == remarks)
      && forall x :: !IsWorkOf(x, project, member) ==> (x in r <==> x in t.workUpdates)
  {
    var r := InsertWork(t, project, member, status, remarks, now).workUpdates;
    assert r[|t.workUpdates|] in r;
    assert forall i :: 0 <= i < |t.workUpdates| ==> r[i] == t.workUpdates[i];
  }

  /** Upserting the same values again changes nothing. */
  lemma UpsertIdempotent(t: Tables, project: Id, member: UserId, status: WorkStatus, remarks: Option<string>, now: Instant, later: Instant)
    requires UpsertWork(t, project, member, status, remarks, now).Some?
    ensures var r := UpsertWork(t, project, member, status, remarks, now).value;
      UpsertWork(r, project, member, status, remarks, later) == Some(r)
  {
    var r := UpsertWork(t, project, member, status, remarks, now).value;
    var w :| w in r.workUpdates && IsWorkOf(w, project, member) && w.status == status && w.remarks == remarks;
    var i :| 0 <= i < |r.workUpdates| && r.workUpdates[i] == w;
    assert forall k :: 0 <= k < |r.workUpdates| && IsWorkOf(r.workUpdates[k], project, member) ==> k == i;
    var s := UpdateWorkRows(r.workUpdates, project, member, status, remarks);
    assert s == r.workUpdates;
  }

  lemma InsertWorkValid(t: Tables, project: Id, member: UserId, status: WorkStatus, remarks: Option<string>, now: Instant)
    requires Valid(t) && project in ProjectIds(t) && member in UserIds(t)
    ensures Valid(InsertWork(t, project, member, status, remarks, now))
  {
    AppendUnique(t.workUpdates, WorkUpdate(t.nextId, project, member, remarks, status, now), WorkUpdateKey);
  }

  lemma UpsertWorkValid(t: Tables, project: Id, member: UserId, status: WorkStatus, remarks: Option<string>, now: Instant)
    requires Valid(t) && project in ProjectIds(t) && member in UserIds(t)
    requires UpsertWork(t, project, member, status, remarks, now).Some?
    ensures Valid(UpsertWork(t, project, member, status, remarks, now).value)
  {
    if exists w :: w in t.workUpdates && IsWorkOf(w, project, member) {
      RetouchWorkValid(t, UpdateWorkRows(t.workUpdates, project, member, status, remarks));
    } else {
      InsertWorkValid(t, project, member, status, remarks, now);
    }
  }

  // ---------------------------------------------------------------------
  // Issues
  // ---------------------------------------------------------------------

  /** The status an issue gets from the posted `action`; any other action keeps it. */
  function ActionStatus(action: Option<string>, current: IssueStatus): (s: IssueStatus)
    ensures action == Some("accept") ==> s == Accepted
    ensures action == Some("decline") ==> s == Declined
    ensures action == Some("wfh") ==> s == WfhApproved
    ensures action !in {Some("accept"), Some("decline"), Some("wfh")} ==> s == current
  {
    if action == Some("accept") then Accepted
    else if action == Some("decline") then Declined
    else if action == Some("wfh") then WfhApproved
    else current
  }

  /**
   * A decision never sets an issue back to PENDING, and the three actions
   * lead to three different statuses.
   */
  lemma ActionStatusDecides(action: Option<string>, current: IssueStatus)
    ensures ActionStatus(action, current) == IssuePending ==> current == IssuePending
    ensures ActionStatus(action, current) != current ==> action in {Some("accept"), Some("decline"), Some("wfh")}
    ensures ActionStatus(Some("accept"), current) != ActionStatus(Some("decline"), current)
    ensures ActionStatus(Some("accept"), current) != ActionStatus(Some("wfh"), current)
    ensures ActionStatus(Some("decline"), current) != ActionStatus(Some("wfh"), current)
  {
    assert "accept" != "decline" && "accept" != "wfh" && "decline" != "wfh";
  }

  /** `issue.status = status; issue.save()`. */
  function SetIssueStatus(t: Tables, issue: Id, status: IssueStatus): (r: Tables)
    ensures |r.issues| == |t.issues|
    ensures forall i :: 0 <= i < |t.issues| ==>
      r.issues[i] == (if t.issues[i].id == issue then t.issues[i].(status := status) else t.issues[i])
    ensures r.(issues := t.issues) == t
  {
    t.(issues := MapRows(t.issues, (i: Issue) => if i.id == issue then i.(status := status) else i))
  }

  lemma SetIssueStatusValid(t: Tables, issue: Id, status: IssueStatus)
    requires Valid(t)
    ensures Valid(SetIssueStatus(t, issue, status))
  {
    RetouchIssuesValid(t, SetIssueStatus(t, issue, status).issues);
  }

  // ---------------------------------------------------------------------
  // Projects and project updates
  // ---------------------------------------------------------------------

  /** `b` rewrites the projects of `a` in place, keeping each row's key and user references. */
  predicate SameProjectRefs(a: seq<Project>, b: seq<Project>) {
    |a| == |b| && forall i :: 0 <= i < |a| ==>
      a[i].id == b[i].id && a[i].createdBy == b[i].createdBy && a[i].teamHead == b[i].teamHead
  }

  lemma RetouchProjectsValid(t: Tables, projects: seq<Project>)
    requires Valid(t) && SameProjectRefs(t.projects, projects)
    ensures Valid(t.(projects := projects))
  {
    var r := t.(projects := projects);
    assert ProjectIds(r) == ProjectIds(t) by {
      forall id | id in ProjectIds(t) ensures id in ProjectIds(r) {
        var p :| p in t.projects && p.id == id;
        var i :| 0 <= i < |t.projects| && t.projects[i] == p;
        assert projects[i] in projects;
      }
      forall id | id in ProjectIds(r) ensures id in ProjectIds(t) {
        var p :| p in projects && p.id == id;
        var i :| 0 <= i < |projects| && projects[i] == p;
        assert t.projects[i] in t.projects;
      }
    }
    assert UniqueBy(projects, ProjectKey) by {
      forall i, j | 0 <= i < j < |projects| ensures ProjectKey(projects[i]) != ProjectKey(projects[j]) {
        assert ProjectKey(t.projects[i]) != ProjectKey(t.projects[j]);
      }
    }
    forall p | p in projects
      ensures p.id < t.nextId && OptIn(p.createdBy, UserIds(t)) && OptIn(p.teamHead, UserIds(t))
    {
      var i :| 0 <= i < |projects| && projects[i] == p;
      assert t.projects[i] in t.projects;
    }
  }

  /** `project.google_meet_link = link; project.save()` on the project with key `project`. */
  function SetMeetLink(t: Tables, project: Id, link: Option<string>): (r: Tables)
    ensures SameProjectRefs(t.projects, r.projects)
    ensures forall i :: 0 <= i < |t.projects| ==>
      r.projects[i] == (if t.projects[i].id == project then t.projects[i].(googleMeetLink := link) else t.projects[i])
    ensures r.(projects := t.projects) == t
  {
    t.(projects := MapRows(t.projects, (p: Project) => if p.id == project then p.(googleMeetLink := link) else p))
  }

  /** The link is stored on exactly the project it was saved for. */
  lemma SetMeetLinkStores(t: Tables, project: Id, link: Option<string>, p: Project)
    requires p in t.projects
    ensures p.id == project ==> p.(googleMeetLink := link) in SetMeetLink(t, project, link).projects
    ensures p.id != project ==> p in SetMeetLink(t, project, link).projects
    ensures forall q :: q in SetMeetLink(t, project, link).projects && q.id == project ==> q.googleMeetLink == link
  {
    var r := SetMeetLink(t, project, link);
    var i :| 0 <= i < |t.projects| && t.projects[i] == p;
    assert r.projects[i] in r.projects;
    forall q | q in r.projects && q.id == project ensures q.googleMeetLink == link {
      var k :| 0 <= k < |r.projects| && r.projects[k] == q;
      assert t.projects[k].id == project;
    }
  }

  lemma SetMeetLinkValid(t: Tables, project: Id, link: Option<string>)
    requires Valid(t)
    ensures Valid(SetMeetLink(t, project, link))
  {
    RetouchProjectsValid(t, SetMeetLink(t, project, link).projects);
  }

  /**
   * `u.project = project; u.user = request.user; u.category = 'UPDATE'; u.save()`
   * for the update the posted form describes.
   */
  function PostedUpdate(t: Tables, draft: ProjectUpdate, project: Id, user: UserId, now: Instant): (u: ProjectUpdate)
    ensures u.id == t.nextId && u.project == project && u.user == Some(user)
    ensures u.category == Update && u.createdAt == now
    ensures u.(id := draft.id, project := draft.project, user := draft.user, category := draft.category,
      createdAt := draft.createdAt) == draft
  {
    draft.(id := t.nextId, project := project, user := Some(user), category := Update, createdAt := now)
  }

  /** `ProjectUpdate.save()` of a new row. */
  function AddUpdate(t: Tables, u: ProjectUpdate): (r: Tables)
    ensures r.updates == t.updates + [u]
    ensures r.nextId == t.nextId + 1
    ensures r.(updates := t.updates, nextId := t.nextId) == t
  {
    t.(updates := t.updates + [u], nextId := t.nextId + 1)
  }

  lemma AddUpdateValid(t: Tables, draft: ProjectUpdate, project: Id, user: UserId, now: Instant)
    requires Valid(t) && project in ProjectIds(t) && user in UserIds(t)
    ensures Valid(AddUpdate(t, PostedUpdate(t, draft, project, user, now)))
  {
    var u := PostedUpdate(t, draft, project, user, now);
    var r := AddUpdate(t, u);
    AppendUnique(t.updates, u, UpdateKey);
    assert UpdateIds(t) <= UpdateIds(r);
  }

  // ---------------------------------------------------------------------
  // Reading notifications
  // ---------------------------------------------------------------------

  /** `Notification.objects.filter(user=..., is_read=False).update(is_read=True)`. */
  function MarkRead(t: Tables, user: UserId): (r: Tables)
    ensures |r.notifications| == |t.notifications|
    ensures forall i :: 0 <= i < |t.notifications| ==>
      r.notifications[i] == (if t.notifications[i].user == user then t.notifications[i].(isRead := true) else t.notifications[i])
    ensures r.(notifications := t.notifications) == t
  {
    t.(notifications := MapRows(t.notifications, (n: Notification) => if n.user == user then n.(isRead := true) else n))
  }

  /**
   * Afterwards the user has no unread notification, keeps every one of
   * them (read), and other users' notifications are exactly as before.
   */
  lemma MarkReadSpec(t: Tables, user: UserId)
    ensures forall n :: n in MarkRead(t, user).notifications && n.user == user ==> n.isRead
    ensures forall n :: n in t.notifications && n.user == user ==> n.(isRead := true) in MarkRead(t, user).notifications
    ensures forall n: Notification :: n.user != user ==> (n in MarkRead(t, user).notifications <==> n in t.notifications)
    ensures |MarkRead(t, user).notifications| == |t.notifications|
  {
    var r := MarkRead(t, user);
    forall n | n in t.notifications ensures n.user == user ==> n.(isRead := true) in r.notifications
      ensures n.user != user ==> n in r.notifications
    {
      var i :| 0 <= i < |t.notifications| && t.notifications[i] == n;
      assert r.notifications[i] in r.notifications;
    }
    forall n | n in r.notifications ensures n.user != user ==> n in t.notifications
      ensures n.user == user ==> n.isRead
    {
      var i :| 0 <= i < |r.notifications| && r.notifications[i] == n;
      assert t.notifications[i] in t.notifications;
    }
  }

  /** Marking twice is marking once. */
  lemma MarkReadIdempotent(t: Tables, user: UserId)
    ensures MarkRead(MarkRead(t, user), user) == MarkRead(t, user)
  {
    assert MarkRead(MarkRead(t, user), user).notifications == MarkRead(t, user).notifications;
  }

  lemma MarkReadValid(t: Tables, user: UserId)
    requires Valid(t)
    ensures Valid(MarkRead(t, user))
  {
    RetouchNotificationsValid(t, MarkRead(t, user).notifications);
  }
}
