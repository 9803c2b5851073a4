/**
 * The channel layer as the rest of the model sees it: named groups of
 * channels and a log of the events sent to groups. Events are the
 * dictionaries the publishers build; their values are JSON-like.
 */
module ChannelLayer {

  /** A socket's channel name. */
  type Channel = string

  /** The two fragments a project update is rendered with. */
  datatype Template = TimelineItem | ChatBubble

  /**
   * A value inside an event or a frame. Rendered HTML is kept as the
   * template it came from and the update it shows.
   */
  datatype Json = JNull | JInt(i: int) | JStr(s: string) | JHtml(template: Template, update: nat)

  /** The keys events and frames use, each with the name it has on the wire. */
  datatype Key =
    | Type | Html | SenderId | Title | Message | SenderUsername
    | SenderProfilePhoto | Timestamp | ImageUrl | FileUrl | FileName | Link
  {
    function Name(): string {
      match this
      case Type => "type"
      case Html => "html"
      case SenderId => "sender_id"
      case Title => "title"
      case Message => "message"
      case SenderUsername => "sender_username"
      case SenderProfilePhoto => "sender_profile_photo"
      case Timestamp => "timestamp"
      case ImageUrl => "image_url"
      case FileUrl => "file_url"
      case FileName => "file_name"
      case Link => "link"
    }
  }

  /** Keys with different wire names are different keys, so keying by `Key` loses nothing. */
  lemma WireNamesDistinct(a: Key, b: Key)
    ensures a.Name() == b.Name() <==> a == b
  {
  }

  /** An event dictionary (and a frame, once a consumer rebuilt it). */
  type Event = map<Key, Json>

  datatype Sent = Sent(group: string, event: Event)

  /** The keys of a project-update event, and of the frame a consumer rebuilds from one. */
  const UpdateKeys: set<Key> := {
    Type, Html, SenderId, Title, Message, SenderUsername,
    SenderProfilePhoto, Timestamp, ImageUrl, FileUrl, FileName}

  /** A project-update dictionary from its eleven values; the event and the frame differ in `type` only. */
  function UpdatePayload(kind: Json, html: Json, senderId: Json, title: Json, message: Json, username: Json, photo: Json,
                         stamp: Json, image: Json, file: Json, fileName: Json): (e: Event)
  {
    map k | k in UpdateKeys ::
      match k
      case Type => kind
      case Html => html
      case SenderId => senderId
      case Title => title
      case Message => message
      case SenderUsername => username
      case SenderProfilePhoto => photo
      case Timestamp => stamp
      case ImageUrl => image
      case FileUrl => file
      case FileName => fileName
      case Link => JNull
  }

  /** Each key of the payload holds the value given for it. */
  lemma UpdatePayloadFields(kind: Json, html: Json, senderId: Json, title: Json, message: Json, username: Json, photo: Json,
                            stamp: Json, image: Json, file: Json, fileName: Json)
    ensures var e := UpdatePayload(kind, html, senderId, title, message, username, photo, stamp, image, file, fileName);
      && e.Keys == UpdateKeys
      && e[Type] == kind && e[Html] == html && e[SenderId] == senderId
      && e[Title] == title && e[Message] == message && e[SenderUsername] == username
      && e[SenderProfilePhoto] == photo && e[Timestamp] == stamp && e[ImageUrl] == image
      && e[FileUrl] == file && e[FileName] == fileName
  {
  }

  /** The channels in a group; a group nobody joined is empty. */
  function Members(groups: map<string, set<Channel>>, g: string): set<Channel> {
    if g in groups then groups[g] else {}
  }

  /** `group_add(g, c)`. */
  function Joined(groups: map<string, set<Channel>>, g: string, c: Channel): (r: map<string, set<Channel>>)
    ensures Members(r, g) == Members(groups, g) + {c}
    ensures forall h :: h != g ==> Members(r, h) == Members(groups, h)
  {
    groups[g := Members(groups, g) + {c}]
  }

  /** `group_discard(g, c)`; discarding a channel that is not there changes nothing. */
  function Left(groups: map<string, set<Channel>>, g: string, c: Channel): (r: map<string, set<Channel>>)
    ensures Members(r, g) == Members(groups, g) - {c}
    ensures forall h :: h != g ==> Members(r, h) == Members(groups, h)
  {
    groups[g := Members(groups, g) - {c}]
  }

  /** Leaving the group one joined restores every group a fresh channel was not in. */
  lemma LeaveUndoesJoin(groups: map<string, set<Channel>>, g: string, c: Channel)
    requires c !in Members(groups, g)
    ensures forall h :: Members(Left(Joined(groups, g, c), g, c), h) == Members(groups, h)
  {
    forall h ensures Members(Left(Joined(groups, g, c), g, c), h) == Members(groups, h) {
      if h == g {
        assert Members(groups, g) + {c} - {c} == Members(groups, g);
      }
    }
  }

  /** The in-memory channel layer. */
  class Layer {
    var groups: map<string, set<Channel>>
    var sent: seq<Sent>

    constructor ()
      ensures groups == map[] && sent == []
    {
      groups := map[];
      sent := [];
    }

    method GroupAdd(g: string, c: Channel)
      modifies this
      ensures groups == Joined(old(groups), g, c) && sent == old(sent)
    {
      groups := Joined(groups, g, c);
    }

    method GroupDiscard(g: string, c: Channel)
      modifies this
      ensures groups == Left(old(groups), g, c) && sent == old(sent)
    {
      groups := Left(groups, g, c);
    }

    method GroupSend(g: string, e: Event)
      modifies this
      ensures sent == old(sent) + [Sent(g, e)] && groups == old(groups)
    {
      sent := sent + [Sent(g, e)];
    }
  }
}
