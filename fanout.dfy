/**
 * Who is told when a project changes, and how: the recipient sets of the
 * meeting-link, chat and update fan-outs, the `get_or_create` that keeps a
 * user from getting the same unread notification twice, the broadcast each
 * new notification triggers, and the list of e-mail addresses invited to a
 * meeting.
 */
module FanOut {
  import opened Wrappers
  import opened Users
  import opened Rows
  import opened Models
  import opened Permissions
  import opened Mutations
  import opened ChannelLayer
  import opened Signals

  /** The exceptions a fan-out can raise half-way. */
  datatype FanOutError =
    | NoUserAttribute          // `m.user` on a `User`: `AttributeError`
    | MultipleObjectsReturned  // `get_or_create` matched more than one row

  // ---------------------------------------------------------------------
  // Recipients
  // ---------------------------------------------------------------------

  /** `project.members.all()`: the users of the project's membership rows, whatever their role. */
  function MemberUsers(t: Tables, project: Id): (r: set<UserId>)
    ensures forall u :: u in r <==> IsMember(t, project, u)
  {
    set m | m in t.members && m.project == project :: m.user
  }

  function OptSet(o: Option<UserId>): (r: set<UserId>)
    ensures forall u :: u in r <==> o == Some(u)
  {
    if o.None? then {} else {o.value}
  }

  /**
   * The users told about a new meeting link: the members and the team head,
   * never the user who saved the link.
   */
  function MeetRecipients(t: Tables, p: Project, actor: UserId): (r: set<UserId>)
    ensures forall u :: u in r <==> u != actor && (IsMember(t, p.id, u) || p.teamHead == Some(u))
    ensures actor !in r
  {
    var heads := if p.teamHead.Some? && p.teamHead.value != actor then {p.teamHead.value} else {};
    (MemberUsers(t, p.id) + heads) - {actor}
  }

  /**
   * The users told about a chat message or an update, as evidently
   * intended: creator, team head and members, never a missing user and never
   * the author.
   */
  function Participants(t: Tables, p: Project, actor: UserId): (r: set<UserId>)
    ensures forall u :: u in r <==>
      u != actor && (p.createdBy == Some(u) || p.teamHead == Some(u) || IsMember(t, p.id, u))
    ensures actor !in r
  {
    (OptSet(p.createdBy) + OptSet(p.teamHead) + MemberUsers(t, p.id)) - {actor}
  }

  /**
   * The recipient set as the chat and update views build it: the loop over
   * `project.members.all()` reads `m.user` from objects that are already
   * users, so it raises as soon as the project has a member.
   */
  function ParticipantsAsWritten(t: Tables, p: Project, actor: UserId): (r: Result<set<UserId>, FanOutError>)
    ensures r.Err? <==> exists m :: m in t.members && m.project == p.id
    ensures r.Err? ==> r.error == NoUserAttribute
  {
    if MemberUsers(t, p.id) != {} then Err(NoUserAttribute)
    else
      assert forall m :: m in t.members && m.project == p.id ==> m.user in MemberUsers(t, p.id);
      Ok((OptSet(p.createdBy) + OptSet(p.teamHead)) - {actor})
  }

  /**
   * Where the views as written get through, they pick the intended users;
   * but a member other than the author, whom the intended set includes,
   * makes them fail instead.
   */
  lemma ParticipantsAsWrittenFails(t: Tables, p: Project, actor: UserId, m: ProjectMember)
    requires m in t.members && m.project == p.id && m.user != actor
    ensures ParticipantsAsWritten(t, p, actor) == Err(NoUserAttribute)
    ensures m.user in Participants(t, p, actor)
  {
    assert IsMember(t, p.id, m.user);
  }

  lemma ParticipantsAsWrittenAgrees(t: Tables, p: Project, actor: UserId)
    requires ParticipantsAsWritten(t, p, actor).Ok?
    ensures ParticipantsAsWritten(t, p, actor).value == Participants(t, p, actor)
  {
    assert MemberUsers(t, p.id) == {};
  }

  /** In a consistent database every recipient is an existing user. */
  lemma RecipientsExist(t: Tables, p: Project, actor: UserId)
    requires Valid(t) && p in t.projects
    ensures MeetRecipients(t, p, actor) <= UserIds(t)
    ensures Participants(t, p, actor) <= UserIds(t)
  {
    forall u | IsMember(t, p.id, u) ensures u in UserIds(t) {
      var m :| m in t.members && m.project == p.id && m.user == u;
    }
  }

  // ---------------------------------------------------------------------
  // get_or_create
  // ---------------------------------------------------------------------

  /** The lookup `get_or_create(user=..., message=..., link=..., is_read=False)` filters on. */
  predicate Matches(n: Notification, user: UserId, message: string, link: Option<string>) {
    n.user == user && n.message == message && n.link == link && !n.isRead
  }

  /** How many rows the lookup finds. */
  function MatchCount(s: seq<Notification>, user: UserId, message: string, link: Option<string>): (c: nat)
    ensures c <= |s|
    ensures c == 0 <==> forall n :: n in s ==> !Matches(n, user, message, link)
  {
    if s == [] then 0
    else
      var init := MatchCount(s[..|s| - 1], user, message, link);
      assert forall n :: n in s <==> n in s[..|s| - 1] || n == s[|s| - 1];
      init + (if Matches(s[|s| - 1], user, message, link) then 1 else 0)
  }

  lemma {:induction false} MatchCountAppend(a: seq<Notification>, b: seq<Notification>, user: UserId,
                                             message: string, link: Option<string>)
    ensures MatchCount(a + b, user, message, link) == MatchCount(a, user, message, link) + MatchCount(b, user, message, link)
    decreases |b|
  {
    if b == [] {
      assert a + b == a;
    } else {
      assert (a + b)[..|a + b| - 1] == a + b[..|b| - 1];
      MatchCountAppend(a, b[..|b| - 1], user, message, link);
    }
  }

  /** What one `get_or_create` did: the tables afterwards and the row it created, if any. */
  datatype Got = Got(tables: Tables, created: Option<Notification>)

  /**
   * `Notification.objects.get_or_create(...)`: raises when two unread copies
   * exist, returns the one copy when there is one, and creates it otherwise.
   */
  function GetOrCreate(t: Tables, user: UserId, message: string, link: Option<string>, now: Instant)
    : (r: Result<Got, FanOutError>)
    ensures r.Err? <==> MatchCount(t.notifications, user, message, link) > 1
    ensures r.Err? ==> r.error == MultipleObjectsReturned
    ensures r.Ok? ==> (r.value.created.Some? <==> MatchCount(t.notifications, user, message, link) == 0)
    ensures r.Ok? && r.value.created.None? ==> r.value.tables == t
    ensures r.Ok? && r.value.created.Some? ==>
      r.value.created.value == NewNotification(t.nextId, user, message, link, now)
      && r.value.tables == AddNotification(t, user, message, link, now)
  {
    var c := MatchCount(t.notifications, user, message, link);
    if c > 1 then Err(MultipleObjectsReturned)
    else if c == 1 then Ok(Got(t, None))
    else Ok(Got(AddNotification(t, user, message, link, now), Some(NewNotification(t.nextId, user, message, link, now))))
  }

  /**
   * After a `get_or_create` that did not raise, exactly one unread copy
   * exists, and no other user's copies changed.
   */
  lemma GetOrCreateCounts(t: Tables, user: UserId, message: string, link: Option<string>, now: Instant)
    requires GetOrCreate(t, user, message, link, now).Ok?
    ensures var r := GetOrCreate(t, user, message, link, now).value.tables;
      MatchCount(r.notifications, user, message, link) == 1
    ensures var r := GetOrCreate(t, user, message, link, now).value.tables;
      forall v :: v != user ==> MatchCount(r.notifications, v, message, link) == MatchCount(t.notifications, v, message, link)
  {
    if MatchCount(t.notifications, user, message, link) == 0 {
      var n := NewNotification(t.nextId, user, message, link, now);
      forall v ensures MatchCount(t.notifications + [n], v, message, link) ==
        MatchCount(t.notifications, v, message, link) + (if v == user then 1 else 0)
      {
        MatchCountAppend(t.notifications, [n], v, message, link);
        assert [n][..0] == [];
      }
    }
  }

  // ---------------------------------------------------------------------
  // A whole fan-out
  // ---------------------------------------------------------------------

  /** The outcome of a fan-out: the tables, the rows created, and the exception that stopped it. */
  datatype Fan = Fan(tables: Tables, created: seq<Notification>, error: Option<FanOutError>)

  /**
   * `get_or_create` for each user of `order` in turn, stopping at the first
   * exception; the rows created before it stay, as nothing rolls them back.
   */
  function NotifyAll(t: Tables, order: seq<UserId>, message: string, link: Option<string>, now: Instant): Fan
    decreases |order|
  {
    if order == [] then Fan(t, [], None)
    else
      var f := NotifyAll(t, order[..|order| - 1], message, link, now);
      if f.error.Some? then f
      else
        match GetOrCreate(f.tables, order[|order| - 1], message, link, now)
        case Err(e) => Fan(f.tables, f.created, Some(e))
        case Ok(g) => Fan(g.tables, f.created + (if g.created.Some? then [g.created.value] else []), None)
  }

  /** One more recipient: what `get_or_create` does to the fan-out so far. */
  lemma NotifyAllSnoc(t: Tables, order: seq<UserId>, u: UserId, message: string, link: Option<string>, now: Instant)
    requires NotifyAll(t, order, message, link, now).error.None?
    ensures var f := NotifyAll(t, order, message, link, now);
      var c := MatchCount(f.tables.notifications, u, message, link);
      var g := NotifyAll(t, order + [u], message, link, now);
      && (c > 1 ==> g == Fan(f.tables, f.created, Some(MultipleObjectsReturned)))
      && (c == 1 ==> g == f)
      && (c == 0 ==> g == Fan(AddNotification(f.tables, u, message, link, now),
                              f.created + [NewNotification(f.tables.nextId, u, message, link, now)], None))
  {
    var o := order + [u];
    assert o[..|o| - 1] == order && o[|o| - 1] == u;
    var f := NotifyAll(t, order, message, link, now);
    var r := GetOrCreate(f.tables, u, message, link, now);
    assert NotifyAll(t, o, message, link, now) ==
      match r
      case Err(e) => Fan(f.tables, f.created, Some(e))
      case Ok(g) => Fan(g.tables, f.created + (if g.created.Some? then [g.created.value] else []), None);
  }

  /**
   * What a fan-out creates is appended to the notifications with
   * consecutive fresh keys.
   */
  lemma {:induction false} NotifyAllAppends(t: Tables, order: seq<UserId>, message: string, link: Option<string>, now: Instant)
    ensures var f := NotifyAll(t, order, message, link, now);
      f.tables.notifications == t.notifications + f.created && f.tables.nextId == t.nextId + |f.created|
    decreases |order|
  {
    if order != [] {
      var f := NotifyAll(t, order[..|order| - 1], message, link, now);
      NotifyAllAppends(t, order[..|order| - 1], message, link, now);
      var g := NotifyAll(t, order, message, link, now);
      if g.created != f.created {
        assert g.tables.notifications == f.tables.notifications + g.created[|f.created|..];
      }
    }
  }

  /** Each created row is a new unread notification, with the message and link, for a user of `order`. */
  lemma {:induction false} NotifyAllCreated(t: Tables, order: seq<UserId>, message: string, link: Option<string>, now: Instant)
    ensures var f := NotifyAll(t, order, message, link, now);
      forall k :: 0 <= k < |f.created| ==>
        f.created[k] == NewNotification(t.nextId + k, f.created[k].user, message, link, now) && f.created[k].user in order
    decreases |order|
  {
    if order != [] {
      var init := order[..|order| - 1];
      NotifyAllCreated(t, init, message, link, now);
      NotifyAllAppends(t, init, message, link, now);
      assert forall v :: v in init ==> v in order;
    }
  }

  /** A fan-out changes no table but the notifications. */
  lemma {:induction false} NotifyAllFrame(t: Tables, order: seq<UserId>, message: string, link: Option<string>, now: Instant)
    ensures var f := NotifyAll(t, order, message, link, now);
      f.tables.(notifications := t.notifications, nextId := t.nextId) == t
    decreases |order|
  {
    if order != [] {
      NotifyAllFrame(t, order[..|order| - 1], message, link, now);
    }
  }

  /**
   * A fan-out gets through exactly when no recipient already had two unread
   * copies; then every recipient has exactly one unread copy and everybody
   * else's copies are as they were.
   */
  lemma {:induction false} NotifyAllCounts(t: Tables, order: seq<UserId>, message: string, link: Option<string>, now: Instant)
    ensures NotifyAll(t, order, message, link, now).error.None? <==>
      forall u :: u in order ==> MatchCount(t.notifications, u, message, link) <= 1
    ensures var f := NotifyAll(t, order, message, link, now);
      f.error.None? ==>
        forall v :: MatchCount(f.tables.notifications, v, message, link) ==
          if v in order then 1 else MatchCount(t.notifications, v, message, link)
    decreases |order|
  {
    if order != [] {
      var init := order[..|order| - 1];
      var u := order[|order| - 1];
      assert forall v :: v in order <==> v in init || v == u;
      NotifyAllCounts(t, init, message, link, now);
      var f := NotifyAll(t, init, message, link, now);
      if f.error.None? && GetOrCreate(f.tables, u, message, link, now).Ok? {
        GetOrCreateCounts(f.tables, u, message, link, now);
      }
    }
  }

  /** Saving again with the same message and link creates nothing and changes nothing. */
  lemma {:induction false} NotifyAllNoop(t: Tables, order: seq<UserId>, message: string, link: Option<string>, now: Instant)
    requires forall u :: u in order ==> MatchCount(t.notifications, u, message, link) == 1
    ensures NotifyAll(t, order, message, link, now) == Fan(t, [], None)
    decreases |order|
  {
    if order != [] {
      NotifyAllNoop(t, order[..|order| - 1], message, link, now);
    }
  }

  /** Re-running a fan-out that got through, with the same message and link, creates no second copy. */
  lemma NotifyAllAgain(t: Tables, order: seq<UserId>, message: string, link: Option<string>, now: Instant, later: Instant)
    requires NotifyAll(t, order, message, link, now).error.None?
    ensures var r := NotifyAll(t, order, message, link, now).tables;
      NotifyAll(r, order, message, link, later) == Fan(r, [], None)
  {
    NotifyAllCounts(t, order, message, link, now);
    NotifyAllNoop(NotifyAll(t, order, message, link, now).tables, order, message, link, later);
  }

  /** Notifying existing users keeps the database consistent, whether or not the fan-out got through. */
  lemma {:induction false} NotifyAllValid(t: Tables, order: seq<UserId>, message: string, link: Option<string>, now: Instant)
    requires Valid(t) && forall u :: u in order ==> u in UserIds(t)
    ensures Valid(NotifyAll(t, order, message, link, now).tables)
    decreases |order|
  {
    if order != [] {
      var init := order[..|order| - 1];
      NotifyAllValid(t, init, message, link, now);
      NotifyAllFrame(t, init, message, link, now);
      var f := NotifyAll(t, init, message, link, now);
      if f.error.None? {
        var u := order[|order| - 1];
        assert UserIds(f.tables) == UserIds(t);
        if MatchCount(f.tables.notifications, u, message, link) == 0 {
          AddNotificationValid(f.tables, u, message, link, now);
        }
      }
    }
  }

  // ---------------------------------------------------------------------
  // Broadcasts
  // ---------------------------------------------------------------------

  /** What `notification_created` sends for each new row, in creation order. */
  function Broadcasts(created: seq<Notification>): (r: seq<Sent>)
    ensures |r| == |created|
    ensures forall k :: 0 <= k < |created| ==> Some(r[k]) == OnNotificationSaved(created[k], true)
  {
    MapRows(created, (n: Notification) => Sent(NotificationGroup(n.user), NotificationEvent(n)))
  }

  // ---------------------------------------------------------------------
  // E-mail recipients
  // ---------------------------------------------------------------------

  /** The user row with key `id`, if any. */
  function FindUser(users: seq<User>, id: UserId): (r: Option<User>)
    ensures r.Some? <==> exists u :: u in users && u.id == id
    ensures r.Some? ==> r.value in users && r.value.id == id
  {
    if users == [] then None
    else if users[0].id == id then Some(users[0])
    else FindUser(users[1..], id)
  }

  /**
   * `u_notify.email` of the recipient's row. The recipients are read from
   * the database, so a key without a row (which a valid database never
   * has) has no address.
   */
  function EmailOf(users: seq<User>, id: UserId): (e: string)
    ensures FindUser(users, id).Some? ==> e == FindUser(users, id).value.email
    ensures FindUser(users, id).None? ==> e == ""
    ensures e != "" ==> exists u :: u in users && u.id == id && u.email == e
  {
    match FindUser(users, id)
    case None => ""
    case Some(u) => u.email
  }

  /** With unique user keys, the address looked up for a user's key is that user's own e-mail. */
  lemma {:induction false} EmailOfUser(users: seq<User>, u: User)
    requires UniqueBy(users, UserKey) && u in users
    ensures EmailOf(users, u.id) == u.email
  {
    var v := FindUser(users, u.id).value;
    var i :| 0 <= i < |users| && users[i] == u;
    var j :| 0 <= j < |users| && users[j] == v;
    assert UserKey(users[i]) == UserKey(users[j]);
  }

  /** `email_recipients`: the non-empty address of each user, in the order they were notified. */
  function EmailList(users: seq<User>, order: seq<UserId>): (r: seq<string>)
    ensures |r| <= |order|
    ensures forall e :: e in r <==> exists k :: 0 <= k < |order| && e == EmailOf(users, order[k]) && e != ""
    decreases |order|
  {
    if order == [] then []
    else
      var init := EmailList(users, order[..|order| - 1]);
      var e := EmailOf(users, order[|order| - 1]);
      assert forall k :: 0 <= k < |order| - 1 ==> order[..|order| - 1][k] == order[k];
      init + (if e != "" then [e] else [])
  }

  lemma EmailListSnoc(users: seq<User>, order: seq<UserId>, u: UserId)
    ensures EmailList(users, order + [u]) ==
      EmailList(users, order) + (if EmailOf(users, u) != "" then [EmailOf(users, u)] else [])
  {
    assert (order + [u])[..|order|] == order;
  }

  /**
   * When `order` lists each recipient once, the addresses invited are
   * exactly the non-empty addresses of the recipients.
   */
  lemma EmailsOfRecipients(users: seq<User>, order: seq<UserId>, recipients: set<UserId>, e: string)
    requires forall u :: u in order <==> u in recipients
    ensures e in EmailList(users, order) <==> e != "" && exists u :: u in recipients && EmailOf(users, u) == e
  {
    if e != "" && exists u :: u in recipients && EmailOf(users, u) == e {
      var u :| u in recipients && EmailOf(users, u) == e;
      var k :| 0 <= k < |order| && order[k] == u;
    }
  }
}
