# Scary Archivist bot: story drafts and archive dispatch, in Dafny

The bot collects urban-folklore stories from users in private chat. The
stories are made of text, photo, voice, video, video-note, document and audio
messages, plus an optional place. It then posts each finished story to an
archive chat, either under the author's name or anonymously. All of its state
is one dictionary, `user_stories`. It maps a user id to that user's draft:
the items collected so far, the author's name and handle, the start time, an
optional location, and a `waiting_for` tag that is either `"content"` or
`"location"`.

This project models that dictionary and the handlers that change it:

- `drafts.dfy` (module `Drafts`): items, locations, phases and the draft
  record. It also holds the handlers' own defaults: Python's `x or default`
  for a missing handle, caption or audio title.
- `archive.dfy` (module `ArchiveDispatch`): what `send_to_archive` posts, as
  a sequence of abstract `Emission`s. First a header, then for each item
  either its text or a numbered label followed by a forward, then the place.
  It also holds the lemmas about the order and the anonymity of what is
  posted.
- `sessions.dfy` (module `Sessions`): each handler as a function on the
  dictionary, which is its specification. The module also has a `Run` of any
  sequence of handler calls, with lemmas that hold over every such run.
- `store.dfy` (module `StoryStore`): the class `Store`, whose fields
  `stories` (the dictionary) and `archive` (everything posted so far) are
  updated in place by one method per handler. Each method is proved to
  change the state exactly as its `Sessions` function says. `SendToArchive`
  posts item by item in a loop. A scenario method walks one story from start
  to a double-pressed send.

## What the code does

A few points about bot.py that the model keeps as they are:

- There is no confirmation phase. `finish_story` only checks and changes
  nothing.
- There is no cancel operation.
- `send_to_archive` checks only that a draft exists, not its phase.
- The draft is deleted only after every post has been made.
- Media items and the place are forwarded with `forward_message`, not
  copied. So in the anonymous mode the archive still receives forwards of
  the user's own private-chat messages (`AnonymousStillForwards`).

## Model

| member | source | states |
|---|---|---|
| `Drafts.Or` | bot.py:107 | Python's `or` on an optional string: a present, non-empty value is kept; a missing or empty one gives the default |
| `Drafts.ItemOf` | bot.py:267-311 | a content handler keeps the message's kind and origin and its text, duration and file name; a missing caption becomes empty; an audio title is kept when present and non-empty, and is "Без названия" otherwise |
| `Drafts.NewDraft` | bot.py:104-112 | a new draft has no items, no place, waits for content, carries the user's id, name and start time, and has a non-empty handle that defaults to "без username" |
| `ArchiveDispatch.HeaderOf` | bot.py:348-368 | the header names the author (name, handle, id) exactly when the mode is public; both modes report the start time, the item count and whether a place is attached |
| `ArchiveDispatch.ArchiveSends` | bot.py:370 | the first post for a story is its header |
| `ArchiveDispatch.PartOf` | bot.py:373-378 | the posts for item number n start with a post carrying n: the text itself for a text item, otherwise a label naming the item's kind (followed by a forward); none of them is a header |
| `ArchiveDispatch.Parts` | bot.py:372-378 | the item posts number one or two per item and contain no header |
| `ArchiveDispatch.LocationParts` | bot.py:380-386 | no post without a place; with one, the last post is the forward of the location message; none is a header |
| `ArchiveDispatch.DeliveriesOfPart` | bot.py:373-378 | the posts for one item deliver exactly that item's content: its text, or a forward of its message |
| `ArchiveDispatch.PartsPrefix` | bot.py:372-378 | the posts made for the first k items are a prefix of the posts for all items |
| `ArchiveDispatch.PartAt` | bot.py:372-378 | item j is posted under part number j + 1, right after the posts for items 0..j-1: a text as one message, any other kind as a label and then a forward |
| `ArchiveDispatch.PartsDeliverItems` | bot.py:372-378 | the content the archive receives from the item posts is exactly the items, one each, in collection order |
| `ArchiveDispatch.SingleHeader` | bot.py:348-370 | a dispatched story has exactly one header, in first place; it carries no identity when anonymous and all three identity fields when public, and reports the item count |
| `ArchiveDispatch.ArchiveDelivers` | bot.py:370-386 | the content of a whole dispatch is the items in order, then the place's forward if one is attached, and nothing else |
| `ArchiveDispatch.AnonymousStillForwards` | bot.py:375-378 | in the anonymous mode every non-text item still reaches the archive as a forward of the user's original message |
| `Sessions.Start` | bot.py:104-112 | the user's entry is replaced by a fresh draft whatever was there before; all other users' entries are unchanged; entries stay filed under their own user id |
| `Sessions.SetPhase` | bot.py:148-164 | with a draft, only its phase changes, to the requested one; with no draft, nothing changes; other users are untouched |
| `Sessions.Finish` | bot.py:186-198 | the answer is "not found" exactly when there is no draft and "nothing added" exactly when the draft is empty; otherwise ready with the item count (positive) and whether a place is attached |
| `Sessions.AddItem` | bot.py:237-256 | accepted exactly when a draft exists and waits for content; if refused, nothing changes; if accepted, exactly one item is appended at the end, and the earlier items, every other field and every other user are unchanged |
| `Sessions.SetLocation` | bot.py:320-334 | only a draft waiting for a place takes one; the new place replaces any earlier one and the phase returns to content, with items and other fields unchanged; otherwise nothing changes |
| `Sessions.Send` | bot.py:341-402 | succeeds exactly when a draft exists, in any phase; then it posts that draft's full archive sequence and removes only that entry; with no draft nothing is posted and nothing changes; with drafts filed under their owners, a public header names the sender's own id |
| `Sessions.Step` | bot.py:100-337 | one handler call (the callbacks at bot.py:100, 144, 159, 182 and 337, the content handlers at bot.py:267-311, the location handler at bot.py:313) changes at most the caller's own entry, keeps entries filed under their owners, and only a send adds to the archive, at its end. A `ContentEv` carrying the text "/start" never arises in the bot, because the `/start` handler at bot.py:79 is registered first and takes that message; the lemmas over `Run` hold for this larger set of events too |
| `Sessions.OthersUntouched` | bot.py:102-104 | over any run of handler calls made for other users, a user's draft (or its absence) is unchanged |
| `Sessions.ItemsOnlyGrow` | bot.py:247-256 | until the user starts again or sends, the draft survives every handler call and its earlier items stay a prefix of its items |
| `Sessions.NoDraftStaysSent` | bot.py:341-343 | once a user has no draft, and until they start a new story, every further send of theirs posts nothing and changes nothing: a story is posted at most once |
| `Sessions.ArchiveOnlyGrows` | bot.py:370-386 | over any run of handler calls, what was posted to the archive stays a prefix of the archive |
| `StoryStore.Store.constructor` | bot.py:32 | the store starts with no drafts and nothing posted |
| `StoryStore.Store.StartStory` | bot.py:101-112 | the dictionary becomes `Sessions.Start` of the old one, stays keyed by user id, and nothing is posted |
| `StoryStore.Store.AddMore` | bot.py:145-149 | the dictionary becomes `Sessions.SetPhase(old, u, AwaitingContent)`; nothing is posted |
| `StoryStore.Store.RequestLocation` | bot.py:160-164 | the dictionary becomes `Sessions.SetPhase(old, u, AwaitingLocation)`; nothing is posted |
| `StoryStore.Store.FinishStory` | bot.py:183-198 | returns `Sessions.Finish` of the current dictionary, with a positive count when ready; changes nothing |
| `StoryStore.Store.AddItemToStory` | bot.py:234-264 | returns and performs exactly `Sessions.AddItem`; nothing is posted |
| `StoryStore.Store.HandleContent` | bot.py:267-311 | messages from non-private chats change nothing; a private one is added as `Drafts.ItemOf` of the message |
| `StoryStore.Store.HandleLocation` | bot.py:313-334 | messages from non-private chats change nothing; a private one performs `Sessions.SetLocation` |
| `StoryStore.Store.SendToArchive` | bot.py:338-402 | the loop appends the header, then each item's posts in order, then the place's posts to the archive; then the draft is deleted; the result and new state are exactly `Sessions.Send`; a public header names the sender's own id `u` |
| `StoryStore.GhostStoryScenario` | bot.py:337-402 | a story made of a text, a photo and a place, sent anonymously, posts exactly: an identity-free header counting 2 items with a place, the text as part 1, the photo's label as part 2 and its forward, the place label and its forward; a second send posts nothing |

## Left out

- The Flask keep-alive server, `run_flask`, and the startup code with `infinity_polling`: process and network plumbing.
- Concurrency. The `TeleBot` created at bot.py:29 runs handlers on a pool of worker threads by default, and the code takes no lock, so two handler calls can interleave. The model runs handler calls one after another (`Sessions.Run`). `Sessions.NoDraftStaysSent` (a story is posted at most once) therefore holds only for calls that do not overlap; two overlapping presses of a send button could both post the story.
- Every reply to the user (`send_message` to the user, `reply_to`, `edit_message_text`, `answer_callback_query`, `get_me`), the keyboards, the `/start` welcome text and the `finish_story` preview. Only the archive posts are modelled, and a handler's answer only as a success flag or a `FinishCheck`.
- The exception path of `start_story` (failure to message the user). It runs after the draft is stored, so the draft exists in either case, as `StartStory` states.
- `StoryStore.Store.SendToArchive`: assumes every archive post succeeds, and also the confirmation `edit_message_text` to the user (bot.py:396-400), which runs before the draft is deleted (bot.py:402). In the source, any of these calls raising aborts the handler before the deletion. The draft then stays, and a later send posts the whole story again. That failure path is not modelled.
- `Sessions.SetLocation` and `StoryStore.Store.HandleLocation`: always store the place and reset the phase together. In the source, `reply_to` (bot.py:328-332) runs after the place is stored (bot.py:321-326) and before the phase is reset to content (bot.py:334). If that reply raises, the place is kept and the draft still waits for a place.
- Replies to the user are assumed to succeed. The two effects above are the only ones a failed reply would have on the stored state; every other reply comes after the handler's last change to the dictionary, or in handlers that change nothing.
- Message wording, emoji, the 50-character text preview and the date format. The header is a structured `Header`, a label carries the item's kind, and `started_at` is an opaque integer clock reading taken as a parameter.
- Latitude and longitude are floats in the source. Here they are opaque integers, and no operation computes with them.
- The environment settings (bot token and chat ids). The archive chat is the single `archive` sequence; `PUBLIC_GROUP_ID` is never used by the handlers.
