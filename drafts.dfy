/** The values the bot keeps per user while a story is being collected:
    content items, the optional place of the event, and the draft record
    itself (the `user_stories` entries of bot.py). */
module Drafts {

  datatype Option<+T> = None | Some(value: T)

  /** Python's `x or default` on an optional string: a missing value and the
      empty string are both falsy and give way to the default. */
  function Or(x: Option<string>, default: string): (r: string)
    ensures x.Some? && x.value != "" ==> r == x.value
    ensures x.None? || x.value == "" ==> r == default
  {
    if x.Some? && x.value != "" then x.value else default
  }

  type UserId = int

  /** Shown instead of a Telegram handle when the user has none. */
  const NoUsername: string := "без username"

  /** Title given to an audio file that carries none. */
  const Untitled: string := "Без названия"

  /** The chat and message a piece of content came from: what a forward needs. */
  datatype MessageRef = MessageRef(chatId: int, messageId: int)

  /** The `type` tag of a stored item. */
  datatype Kind = Text | Photo | Voice | Video | VideoNote | Document | Audio

  /** One stored item: its kind, where it came from, and the extra data the
      handler of that kind records. */
  datatype Item =
    | TextItem(ref: MessageRef, content: string)
    | VoiceItem(ref: MessageRef, duration: int)
    | PhotoItem(ref: MessageRef, caption: string)
    | VideoItem(ref: MessageRef, caption: string, duration: int)
    | VideoNoteItem(ref: MessageRef, duration: int)
    | DocumentItem(ref: MessageRef, fileName: Option<string>, caption: string)
    | AudioItem(ref: MessageRef, duration: int, title: string)
  {
    function KindOf(): Kind {
      match this
      case TextItem(_, _) => Text
      case VoiceItem(_, _) => Voice
      case PhotoItem(_, _) => Photo
      case VideoItem(_, _, _) => Video
      case VideoNoteItem(_, _) => VideoNote
      case DocumentItem(_, _, _) => Document
      case AudioItem(_, _, _) => Audio
    }
  }

  /** What an incoming private message carries, per content type, before the
      handler turns it into an item. Optional fields are those Telegram may omit. */
  datatype Payload =
    | TextMsg(text: string)
    | VoiceMsg(duration: int)
    | PhotoMsg(caption: Option<string>)
    | VideoMsg(caption: Option<string>, duration: int)
    | VideoNoteMsg(duration: int)
    | DocumentMsg(fileName: Option<string>, caption: Option<string>)
    | AudioMsg(duration: int, title: Option<string>)
  {
    function KindOf(): Kind {
      match this
      case TextMsg(_) => Text
      case VoiceMsg(_) => Voice
      case PhotoMsg(_) => Photo
      case VideoMsg(_, _) => Video
      case VideoNoteMsg(_) => VideoNote
      case DocumentMsg(_, _) => Document
      case AudioMsg(_, _) => Audio
    }
  }

  /** The item a content handler builds from a message: same kind, same
      origin; a missing caption becomes empty; an audio title is kept unless
      it is missing or empty, in which case it becomes `Untitled`. */
  function ItemOf(ref: MessageRef, p: Payload): (it: Item)
    ensures it.ref == ref
    ensures it.KindOf() == p.KindOf()
    ensures p.TextMsg? ==> it.content == p.text
    ensures (p.VoiceMsg? || p.VideoMsg? || p.VideoNoteMsg? || p.AudioMsg?) ==> it.duration == p.duration
    ensures (p.PhotoMsg? || p.VideoMsg? || p.DocumentMsg?) && p.caption.Some? ==> it.caption == p.caption.value
    ensures (p.PhotoMsg? || p.VideoMsg? || p.DocumentMsg?) && p.caption.None? ==> it.caption == ""
    ensures p.DocumentMsg? ==> it.fileName == p.fileName
    ensures p.AudioMsg? && p.title.Some? && p.title.value != "" ==> it.title == p.title.value
    ensures p.AudioMsg? && (p.title.None? || p.title.value == "") ==> it.title == Untitled
  {
    match p
    case TextMsg(t) => TextItem(ref, t)
    case VoiceMsg(d) => VoiceItem(ref, d)
    case PhotoMsg(c) => PhotoItem(ref, Or(c, ""))
    case VideoMsg(c, d) => VideoItem(ref, Or(c, ""), d)
    case VideoNoteMsg(d) => VideoNoteItem(ref, d)
    case DocumentMsg(f, c) => DocumentItem(ref, f, Or(c, ""))
    case AudioMsg(d, t) => AudioItem(ref, d, Or(t, Untitled))
  }

  /** A shared place: coordinates (floats in Telegram, opaque here) and the
      message they came in, which is what the archive forwards. */
  datatype Location = Location(latitude: int, longitude: int, ref: MessageRef)

  /** The `waiting_for` tag: which kind of input the draft currently takes. */
  datatype Phase = AwaitingContent | AwaitingLocation

  /** One entry of the store. `startedAt` is the clock reading taken when the
      story was started, kept opaque. */
  datatype Draft = Draft(
    items: seq<Item>,
    userName: string,
    userUsername: string,
    userId: UserId,
    startedAt: int,
    location: Option<Location>,
    waitingFor: Phase)

  /** The record `start_story` stores: nothing collected yet, waiting for
      content, and a handle that is never empty. */
  function NewDraft(u: UserId, firstName: string, username: Option<string>, now: int): (d: Draft)
    ensures d.items == [] && d.location == None && d.waitingFor == AwaitingContent
    ensures d.userId == u && d.userName == firstName && d.startedAt == now
    ensures d.userUsername != ""
    ensures username.Some? && username.value != "" ==> d.userUsername == username.value
    ensures username.None? || username.value == "" ==> d.userUsername == NoUsername
  {
    Draft([], firstName, Or(username, NoUsername), u, now, None, AwaitingContent)
  }
}
