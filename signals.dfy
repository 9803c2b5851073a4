/**
 * The `post_save` receivers that push new notifications and new project
 * updates to the channel layer: the group each event goes to and the event
 * dictionary itself.
 */
module Signals {
  import opened Wrappers
  import opened Text
  import opened Users
  import opened Models
  import opened ChannelLayer

  // ---------------------------------------------------------------------
  // Group names
  // ---------------------------------------------------------------------

  /** `f"user_{user.id}_notifications"`. */
  function NotificationGroup(user: UserId): string {
    "user_" + NatToString(user) + "_notifications"
  }

  /** `f"project_{project.id}_updates"`. */
  function ProjectGroup(project: Id): string {
    "project_" + NatToString(project) + "_updates"
  }

  /** Two strings built from the same prefix and suffix are equal iff their middles are. */
  lemma Framed(pre: string, a: string, b: string, post: string)
    ensures pre + a + post == pre + b + post <==> a == b
  {
    if pre + a + post == pre + b + post {
      var s := pre + a + post;
      assert |a| == |b|;
      assert a == s[|pre|..|pre| + |a|];
      assert b == (pre + b + post)[|pre|..|pre| + |b|];
    }
  }

  /** Different users listen on different notification groups. */
  lemma NotificationGroupInjective(a: UserId, b: UserId)
    ensures NotificationGroup(a) == NotificationGroup(b) <==> a == b
  {
    Framed("user_", NatToString(a), NatToString(b), "_notifications");
  }

  /** Different projects publish on different groups. */
  lemma ProjectGroupInjective(a: Id, b: Id)
    ensures ProjectGroup(a) == ProjectGroup(b) <==> a == b
  {
    Framed("project_", NatToString(a), NatToString(b), "_updates");
  }

  /** A project's group is never a user's notification group. */
  lemma GroupsDisjoint(project: Id, user: UserId)
    ensures ProjectGroup(project) != NotificationGroup(user)
  {
    assert ProjectGroup(project)[0] == 'p' && NotificationGroup(user)[0] == 'u';
  }

  // ---------------------------------------------------------------------
  // Notifications
  // ---------------------------------------------------------------------

  /** A nullable text column as the event carries it. */
  function OptStr(o: Option<string>): (j: Json)
    ensures j == JNull <==> o.None?
    ensures o.Some? ==> j == JStr(o.value)
  {
    if o.None? then JNull else JStr(o.value)
  }

  /** The event `notification_created` sends for a new notification. */
  function NotificationEvent(n: Notification): (e: Event)
    ensures e.Keys == {Type, Message, Link}
    ensures e[Type] == JStr("send_notification")
    ensures e[Message] == JStr(n.message) && e[Link] == OptStr(n.link)
  {
    map[Type := JStr("send_notification"), Message := JStr(n.message), Link := OptStr(n.link)]
  }

  /**
   * `notification_created`: a newly created notification goes to its
   * user's group; saving an existing one sends nothing.
   */
  function OnNotificationSaved(n: Notification, created: bool): (r: Option<Sent>)
    ensures r.Some? <==> created
    ensures r.Some? ==> r.value.group == NotificationGroup(n.user) && r.value.event == NotificationEvent(n)
  {
    if created then Some(Sent(NotificationGroup(n.user), NotificationEvent(n))) else None
  }

  /** Each user's group receives only that user's notifications. */
  lemma NotificationReachesOwner(n: Notification, u: UserId)
    ensures OnNotificationSaved(n, true).value.group == NotificationGroup(u) <==> n.user == u
  {
    NotificationGroupInjective(n.user, u);
  }

  // ---------------------------------------------------------------------
  // Timestamps
  // ---------------------------------------------------------------------

  /** Hour of the day (UTC) of an instant. */
  function HourOf(t: Instant): (h: nat)
    ensures h < 24
  {
    (t % 86400) / 3600
  }

  /** Minute of the hour of an instant. */
  function MinuteOf(t: Instant): (m: nat)
    ensures m < 60
  {
    (t % 3600) / 60
  }

  /** `strftime("%I:%M %p")`: a two-digit 12-hour clock hour, the minute and AM or PM. */
  function FormatTime12(t: Instant): string {
    var h := HourOf(t);
    Pad2(if h % 12 == 0 then 12 else h % 12) + ":" + Pad2(MinuteOf(t)) + " " + (if h < 12 then "AM" else "PM")
  }

  /** The shape of a `%I:%M %p` timestamp. */
  lemma FormatTime12Shape(t: Instant)
    ensures var r := FormatTime12(t);
      && |r| == 8 && r[2] == ':' && r[5] == ' '
      && AllDigits(r[..2]) && AllDigits(r[3..5])
      && 1 <= DigitsValue(r[..2]) <= 12 && DigitsValue(r[..2]) % 12 == HourOf(t) % 12
      && DigitsValue(r[3..5]) == MinuteOf(t)
      && r[6..] == (if HourOf(t) < 12 then "AM" else "PM")
  {
    var h := HourOf(t);
    var hh := Pad2(if h % 12 == 0 then 12 else h % 12);
    var mm := Pad2(MinuteOf(t));
    var suffix := if h < 12 then "AM" else "PM";
    assert FormatTime12(t) == hh + ":" + mm + " " + suffix;
    ClockFields(hh, mm, suffix);
  }

  /** Where the hour, the minutes and the AM/PM marker sit in `hh:mm XM`. */
  lemma ClockFields(hh: string, mm: string, suffix: string)
    requires |hh| == 2 && |mm| == 2 && |suffix| == 2
    ensures var r := hh + ":" + mm + " " + suffix;
      |r| == 8 && r[..2] == hh && r[2] == ':' && r[3..5] == mm && r[5] == ' ' && r[6..] == suffix
  {
    var r := hh + ":" + mm + " " + suffix;
    assert r[..2] == hh;
    assert r[3..5] == mm;
    assert r[6..] == suffix;
  }

  /** Two instants show the same timestamp exactly when they fall in the same minute of the day. */
  lemma FormatTime12Iff(a: Instant, b: Instant)
    ensures FormatTime12(a) == FormatTime12(b) <==> HourOf(a) == HourOf(b) && MinuteOf(a) == MinuteOf(b)
  {
    if FormatTime12(a) == FormatTime12(b) {
      FormatTime12Shape(a);
      FormatTime12Shape(b);
      assert MinuteOf(a) == MinuteOf(b);
      assert HourOf(a) % 12 == HourOf(b) % 12;
      assert (HourOf(a) < 12) == (HourOf(b) < 12) by {
        assert "AM" != "PM" by { assert "AM"[0] != "PM"[0]; }
      }
      SameHalfDay(HourOf(a), HourOf(b));
    }
  }

  /** An hour of the day is fixed by its 12-hour clock value and by AM or PM. */
  lemma SameHalfDay(x: nat, y: nat)
    requires x < 24 && y < 24 && x % 12 == y % 12 && (x < 12) == (y < 12)
    ensures x == y
  {
  }

  // ---------------------------------------------------------------------
  // Project updates
  // ---------------------------------------------------------------------

  /** `instance.user.id` on an update whose user was deleted raises `AttributeError`. */
  datatype SignalError = AttributeError

  /** The layout the update is rendered with: the timeline item exactly when it has a title. */
  function TemplateOf(u: ProjectUpdate): (r: Template)
    ensures r == TimelineItem <==> u.title.Some? && u.title.value != ""
  {
    if u.title.Some? && u.title.value != "" then TimelineItem else ChatBubble
  }

  /** A file field's `.url`, or `None` when the field is empty. */
  function MediaLink(mediaUrl: string, name: string): (j: Json)
    ensures j == JNull <==> name == ""
    ensures name != "" ==> j == JStr(mediaUrl + name)
  {
    if name == "" then JNull else JStr(mediaUrl + name)
  }

  /**
   * The event for a new project update. `sender` is the update's user row
   * (`None` once that user has been deleted), `mediaUrl` the prefix file
   * URLs are built from.
   */
  function UpdateEvent(u: ProjectUpdate, sender: Option<User>, mediaUrl: string): (r: Result<Event, SignalError>)
    ensures r.Ok? <==> sender.Some?
  {
    match sender
    case None => Err(AttributeError)
    case Some(user) =>
      var photo := if user.profilePhoto != "" then JStr(mediaUrl + user.profilePhoto) else JNull;
      Ok(UpdatePayload(JStr("send_project_update"),
        JHtml(TemplateOf(u), u.id), JInt(user.id), OptStr(u.title), OptStr(u.remarks),
        JStr(user.username), photo, JStr(FormatTime12(u.createdAt)),
        MediaLink(mediaUrl, u.image), MediaLink(mediaUrl, u.file),
        if u.file != "" then JStr(Basename(u.file)) else JNull))
  }

  /** The payload of an update's event, value by value. */
  lemma UpdateEventLookups(u: ProjectUpdate, user: User, mediaUrl: string)
    ensures var e := UpdateEvent(u, Some(user), mediaUrl).value;
      && e.Keys == UpdateKeys
      && e[Type] == JStr("send_project_update")
      && e[Html] == JHtml(TemplateOf(u), u.id)
      && e[SenderId] == JInt(user.id)
      && e[Title] == OptStr(u.title) && e[Message] == OptStr(u.remarks)
      && e[SenderUsername] == JStr(user.username)
      && e[SenderProfilePhoto] == (if user.profilePhoto != "" then JStr(mediaUrl + user.profilePhoto) else JNull)
      && e[Timestamp] == JStr(FormatTime12(u.createdAt))
      && e[ImageUrl] == MediaLink(mediaUrl, u.image) && e[FileUrl] == MediaLink(mediaUrl, u.file)
      && e[FileName] == (if u.file != "" then JStr(Basename(u.file)) else JNull)
  {
    UpdatePayloadFields(JStr("send_project_update"),
      JHtml(TemplateOf(u), u.id), JInt(user.id), OptStr(u.title), OptStr(u.remarks),
      JStr(user.username), if user.profilePhoto != "" then JStr(mediaUrl + user.profilePhoto) else JNull,
      JStr(FormatTime12(u.createdAt)), MediaLink(mediaUrl, u.image), MediaLink(mediaUrl, u.file),
      if u.file != "" then JStr(Basename(u.file)) else JNull);
  }

  /**
   * The event carries exactly the documented keys: the type, the rendered
   * layout, the author's key, username and photo (null when the author has
   * none), title and remarks (null when absent), the `%I:%M %p` timestamp,
   * and the file links (null when the field is empty) with the file's
   * basename.
   */
  lemma UpdateEventSpec(u: ProjectUpdate, user: User, mediaUrl: string)
    ensures var e := UpdateEvent(u, Some(user), mediaUrl).value;
      && e.Keys == UpdateKeys
      && e[Type] == JStr("send_project_update")
      && e[Html] == JHtml(TemplateOf(u), u.id)
      && e[SenderId] == JInt(user.id)
      && e[SenderUsername] == JStr(user.username)
      && (e[SenderProfilePhoto] == JNull <==> user.profilePhoto == "")
      && e[Title] == OptStr(u.title) && e[Message] == OptStr(u.remarks)
      && e[Timestamp] == JStr(FormatTime12(u.createdAt))
      && e[ImageUrl] == MediaLink(mediaUrl, u.image)
      && e[FileUrl] == MediaLink(mediaUrl, u.file)
      && (e[FileName] == JNull <==> u.file == "")
      && (u.file != "" ==> e[FileName] == JStr(Basename(u.file)))
  {
    UpdateEventLookups(u, user, mediaUrl);
  }

  /**
   * `project_update_created`: a newly created update goes to its project's
   * group; saving an existing one sends nothing.
   */
  function OnUpdateSaved(u: ProjectUpdate, sender: Option<User>, created: bool, mediaUrl: string)
    : (r: Result<Option<Sent>, SignalError>)
    ensures !created ==> r == Ok(None)
    ensures created ==> (r.Err? <==> sender.None?)
    ensures created && r.Ok? ==>
      r.value.Some? && r.value.value.group == ProjectGroup(u.project)
      && r.value.value.event == UpdateEvent(u, sender, mediaUrl).value
  {
    if !created then Ok(None)
    else
      match UpdateEvent(u, sender, mediaUrl)
      case Err(e) => Err(e)
      case Ok(event) => Ok(Some(Sent(ProjectGroup(u.project), event)))
  }
}
