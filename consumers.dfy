/**
 * The two WebSocket consumers: the project-update socket, which joins the
 * group named in its URL, and the notification socket, which joins its
 * signed-in user's group. Each turns the events it receives into the
 * frames it writes to the browser.
 */
module Consumers {
  import opened Wrappers
  import opened Text
  import opened Users
  import opened Models
  import opened ChannelLayer
  import opened Signals

  /** `KeyError` for a missing event key; `GroupUnset` is the `AttributeError` of a group attribute never set. */
  datatype ConsumerError = KeyError(key: Key) | GroupUnset

  /** `f'project_{project_id}_updates'` with the id as the URL spelled it. */
  function RouteGroup(route: string): string {
    "project_" + route + "_updates"
  }

  /**
   * The route matches digit strings only. The socket hears a project's
   * updates exactly when its URL spells the project id the way `str` does:
   * `/ws/project/007/updates/` joins a group nobody publishes to.
   */
  lemma RouteGroupIff(route: string, project: Id)
    requires route != [] && AllDigits(route)
    ensures RouteGroup(route) == ProjectGroup(project) <==> Canonical(route) && DigitsValue(route) == project
  {
    Framed("project_", route, NatToString(project), "_updates");
    NatToStringIff(route, project);
  }

  /** `event.get(key)`: the value, or `None` when the key is missing. */
  function Get(e: Event, k: Key): (j: Json)
    ensures k in e ==> j == e[k]
    ensures k !in e ==> j == JNull
  {
    if k in e then e[k] else JNull
  }

  /** The keys `send_project_update` reads with `event[...]`. */
  const RequiredUpdateKeys: set<Key> := {SenderId, SenderUsername, Timestamp}

  /**
   * The frame `send_project_update` writes: `type` becomes `project_update`,
   * the optional keys default to `None`, and a missing required key raises
   * `KeyError`, checked in the order the dictionary names them.
   */
  function UpdateFrame(e: Event): (r: Result<Event, ConsumerError>)
    ensures r.Ok? <==> RequiredUpdateKeys <= e.Keys
    ensures r.Err? ==> r.error.KeyError? && r.error.key in RequiredUpdateKeys && r.error.key !in e
  {
    if SenderId !in e then Err(KeyError(SenderId))
    else if SenderUsername !in e then Err(KeyError(SenderUsername))
    else if Timestamp !in e then Err(KeyError(Timestamp))
    else
      Ok(UpdatePayload(JStr("project_update"), Get(e, Html), e[SenderId], Get(e, Title), Get(e, Message),
        e[SenderUsername], Get(e, SenderProfilePhoto), e[Timestamp], Get(e, ImageUrl), Get(e, FileUrl),
        Get(e, FileName)))
  }

  /**
   * A frame carries exactly the update keys; its type is `project_update`
   * and every other key is copied from the event, null when absent.
   */
  lemma UpdateFrameSpec(e: Event)
    requires RequiredUpdateKeys <= e.Keys
    ensures var f := UpdateFrame(e).value;
      && f.Keys == UpdateKeys
      && f[Type] == JStr("project_update")
      && forall k :: k in UpdateKeys && k != Type ==> f[k] == Get(e, k)
  {
    UpdatePayloadFields(JStr("project_update"), Get(e, Html), e[SenderId], Get(e, Title), Get(e, Message),
      e[SenderUsername], Get(e, SenderProfilePhoto), e[Timestamp], Get(e, ImageUrl), Get(e, FileUrl),
      Get(e, FileName));
  }

  /** The frame `send_notification` writes; `message` and `link` are required. */
  function NotificationFrame(e: Event): (r: Result<Event, ConsumerError>)
    ensures r.Ok? <==> Message in e && Link in e
    ensures r.Ok? ==> r.value.Keys == {Type, Message, Link} && r.value[Type] == JStr("notification")
    ensures r.Ok? ==> r.value[Message] == e[Message] && r.value[Link] == e[Link]
  {
    if Message !in e then Err(KeyError(Message))
    else if Link !in e then Err(KeyError(Link))
    else Ok(map[Type := JStr("notification"), Message := e[Message], Link := e[Link]])
  }

  /** An event carrying every frame key is passed through with only its `type` changed. */
  lemma UpdateFrameOfFull(e: Event)
    requires e.Keys == UpdateKeys
    ensures UpdateFrame(e) == Ok(e[Type := JStr("project_update")])
  {
    var f := UpdateFrame(e).value;
    var g := e[Type := JStr("project_update")];
    UpdateFrameSpec(e);
    forall k | k in f ensures k in g && f[k] == g[k] {
    }
    assert f == g;
  }

  /**
   * What the signal publishes for a new update reaches the browser intact:
   * the frame is the event with only its `type` changed.
   */
  lemma UpdateReachesBrowser(u: ProjectUpdate, sender: User, mediaUrl: string)
    ensures var e := UpdateEvent(u, Some(sender), mediaUrl).value;
      UpdateFrame(e) == Ok(e[Type := JStr("project_update")])
  {
    UpdateEventSpec(u, sender, mediaUrl);
    UpdateFrameOfFull(UpdateEvent(u, Some(sender), mediaUrl).value);
  }

  /** Likewise for notifications: message and link arrive unchanged. */
  lemma NotificationReachesBrowser(n: Notification)
    ensures var e := NotificationEvent(n);
      NotificationFrame(e) == Ok(e[Type := JStr("notification")])
  {
    var e := NotificationEvent(n);
    var f := NotificationFrame(e).value;
    var g := e[Type := JStr("notification")];
    assert f.Keys == g.Keys;
    forall k | k in f ensures f[k] == g[k] {
    }
    assert f == g;
  }

  /** `ProjectUpdateConsumer`. */
  class ProjectUpdateConsumer {
    const channelName: Channel
    var projectId: Option<string>
    var groupName: Option<string>
    var user: Option<Principal>
    var accepted: bool
    /** The frames written to the socket, oldest first. */
    var frames: seq<Event>

    constructor (channelName: Channel)
      ensures this.channelName == channelName
      ensures projectId == None && groupName == None && user == None && !accepted && frames == []
    {
      this.channelName := channelName;
      projectId := None;
      groupName := None;
      user := None;
      accepted := false;
      frames := [];
    }

    /** `connect`: join the URL's group and accept, whoever is signed in. */
    method Connect(route: string, who: Principal, layer: Layer)
      requires route != [] && AllDigits(route)
      modifies this, layer
      ensures projectId == Some(route) && groupName == Some(RouteGroup(route)) && user == Some(who)
      ensures accepted && frames == old(frames)
      ensures layer.groups == Joined(old(layer.groups), RouteGroup(route), channelName)
      ensures layer.sent == old(layer.sent)
    {
      projectId := Some(route);
      groupName := Some(RouteGroup(route));
      user := Some(who);
      layer.GroupAdd(RouteGroup(route), channelName);
      accepted := true;
    }

    /** `disconnect`: leave the group; before `connect` the group attribute does not exist. */
    method Disconnect(layer: Layer) returns (r: Result<(), ConsumerError>)
      modifies layer
      ensures r.Err? <==> groupName.None?
      ensures r.Err? ==> r.error == GroupUnset && layer.groups == old(layer.groups)
      ensures r.Ok? ==> layer.groups == Left(old(layer.groups), groupName.value, channelName)
      ensures layer.sent == old(layer.sent)
    {
      if groupName.None? {
        return Err(GroupUnset);
      }
      layer.GroupDiscard(groupName.value, channelName);
      return Ok(());
    }

    /** `send_project_update`: write the frame, or raise without writing. */
    method SendProjectUpdate(e: Event) returns (r: Result<(), ConsumerError>)
      modifies this
      ensures r.Ok? <==> UpdateFrame(e).Ok?
      ensures r.Ok? ==> frames == old(frames) + [UpdateFrame(e).value]
      ensures r.Err? ==> r == Err(UpdateFrame(e).error) && frames == old(frames)
      ensures projectId == old(projectId) && groupName == old(groupName) && user == old(user)
      ensures accepted == old(accepted)
    {
      match UpdateFrame(e)
      case Err(err) => r := Err(err);
      case Ok(frame) =>
        frames := frames + [frame];
        r := Ok(());
    }
  }

  /** `NotificationConsumer`. */
  class NotificationConsumer {
    const channelName: Channel
    var groupName: Option<string>
    var user: Option<Principal>
    var accepted: bool
    var closed: bool
    var frames: seq<Event>

    constructor (channelName: Channel)
      ensures this.channelName == channelName
      ensures groupName == None && user == None && !accepted && !closed && frames == []
    {
      this.channelName := channelName;
      groupName := None;
      user := None;
      accepted := false;
      closed := false;
      frames := [];
    }

    /**
     * `connect`: an anonymous socket is closed without joining anything; a
     * signed-in one joins its user's group and is accepted.
     */
    method Connect(who: Principal, layer: Layer)
      modifies this, layer
      ensures user == Some(who) && frames == old(frames)
      ensures !who.IsAuthenticated() ==>
        closed && accepted == old(accepted) && groupName == old(groupName) && layer.groups == old(layer.groups)
      ensures who.IsAuthenticated() ==>
        accepted && closed == old(closed) && groupName == Some(NotificationGroup(who.user.id))
        && layer.groups == Joined(old(layer.groups), NotificationGroup(who.user.id), channelName)
      ensures layer.sent == old(layer.sent)
    {
      user := Some(who);
      if !who.IsAuthenticated() {
        closed := true;
        return;
      }
      groupName := Some(NotificationGroup(who.user.id));
      layer.GroupAdd(NotificationGroup(who.user.id), channelName);
      accepted := true;
    }

    /** `disconnect`: a socket closed in `connect` never set its group and raises `AttributeError`. */
    method Disconnect(layer: Layer) returns (r: Result<(), ConsumerError>)
      modifies layer
      ensures r.Err? <==> groupName.None?
      ensures r.Err? ==> r.error == GroupUnset && layer.groups == old(layer.groups)
      ensures r.Ok? ==> layer.groups == Left(old(layer.groups), groupName.value, channelName)
      ensures layer.sent == old(layer.sent)
    {
      if groupName.None? {
        return Err(GroupUnset);
      }
      layer.GroupDiscard(groupName.value, channelName);
      return Ok(());
    }

    /** `send_notification`. */
    method SendNotification(e: Event) returns (r: Result<(), ConsumerError>)
      modifies this
      ensures r.Ok? <==> NotificationFrame(e).Ok?
      ensures r.Ok? ==> frames == old(frames) + [NotificationFrame(e).value]
      ensures r.Err? ==> r == Err(NotificationFrame(e).error) && frames == old(frames)
      ensures groupName == old(groupName) && user == old(user)
      ensures accepted == old(accepted) && closed == old(closed)
    {
      match NotificationFrame(e)
      case Err(err) => r := Err(err);
      case Ok(frame) =>
        frames := frames + [frame];
        r := Ok(());
    }
  }
}
