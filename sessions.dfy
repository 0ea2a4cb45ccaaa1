/** The `user_stories` dictionary as a value, and what each handler of bot.py
    does to it. The class in module StoryStore performs these same changes in
    place; the functions here are their specification, and the lemmas at the
    end follow the store through any sequence of handler calls. */
module Sessions {
  import opened Drafts
  import opened ArchiveDispatch

  /** User id to that user's draft. */
  type Stories = map<UserId, Draft>

  /** Every draft is filed under its own user's id. */
  predicate Keyed(s: Stories) {
    forall u :: u in s ==> s[u].userId == u
  }

  /** `start_story`: a fresh draft replaces whatever the user had. */
  function Start(s: Stories, u: UserId, firstName: string, username: Option<string>, now: int): (r: Stories)
    ensures u in r && r[u] == NewDraft(u, firstName, username, now)
    ensures r[u].items == [] && r[u].location == None && r[u].waitingFor == AwaitingContent
    ensures r - {u} == s - {u}
    ensures Keyed(s) ==> Keyed(r)
  {
    s[u := NewDraft(u, firstName, username, now)]
  }

  /** `add_more` and `request_location`: switch the phase of an existing
      draft; with no draft, nothing happens. */
  function SetPhase(s: Stories, u: UserId, phase: Phase): (r: Stories)
    ensures u in r <==> u in s
    ensures u in s ==> r[u].waitingFor == phase && r[u].(waitingFor := s[u].waitingFor) == s[u]
    ensures u !in s ==> r == s
    ensures r - {u} == s - {u}
    ensures Keyed(s) ==> Keyed(r)
  {
    if u in s then s[u := s[u].(waitingFor := phase)] else s
  }

  /** The answer `finish_story` gives; it never changes the store. */
  datatype FinishCheck = NotFound | NothingAdded | Ready(count: nat, hasLocation: bool)

  function Finish(s: Stories, u: UserId): (r: FinishCheck)
    ensures r == NotFound <==> u !in s
    ensures r == NothingAdded <==> u in s && s[u].items == []
    ensures r.Ready? ==> u in s && r.count == |s[u].items| > 0 && (r.hasLocation <==> s[u].location.Some?)
  {
    if u !in s then NotFound
    else if |s[u].items| == 0 then NothingAdded
    else Ready(|s[u].items|, s[u].location.Some?)
  }

  /** Result of `add_item_to_story`: whether the item was taken, and the store after. */
  datatype Appended = Appended(ok: bool, stories: Stories)

  /** `add_item_to_story`: accepted only when the user has a draft waiting for
      content; then exactly that item is appended and nothing else changes. */
  function AddItem(s: Stories, u: UserId, it: Item): (r: Appended)
    ensures r.ok <==> u in s && s[u].waitingFor == AwaitingContent
    ensures !r.ok ==> r.stories == s
    ensures r.ok ==>
      && u in r.stories
      && |r.stories[u].items| == |s[u].items| + 1
      && r.stories[u].items[..|s[u].items|] == s[u].items
      && r.stories[u].items[|s[u].items|] == it
      && r.stories[u].(items := s[u].items) == s[u]
    ensures r.stories - {u} == s - {u}
    ensures Keyed(s) ==> Keyed(r.stories)
  {
    if u !in s || s[u].waitingFor != AwaitingContent then Appended(false, s)
    else
      var d := s[u];
      var grown := d.items + [it];
      assert grown[..|d.items|] == d.items;
      Appended(true, s[u := d.(items := grown)])
  }

  /** `handle_location`: only a draft waiting for a place takes one; the new
      place replaces any earlier one and the draft waits for content again. */
  function SetLocation(s: Stories, u: UserId, loc: Location): (r: Stories)
    ensures u in r <==> u in s
    ensures u in s && s[u].waitingFor == AwaitingLocation ==>
      && r[u].location == Some(loc) && r[u].waitingFor == AwaitingContent && r[u].items == s[u].items
      && r[u].(location := s[u].location, waitingFor := AwaitingLocation) == s[u]
    ensures !(u in s && s[u].waitingFor == AwaitingLocation) ==> r == s
    ensures r - {u} == s - {u}
    ensures Keyed(s) ==> Keyed(r)
  {
    if u in s && s[u].waitingFor == AwaitingLocation
    then s[u := s[u].(location := Some(loc), waitingFor := AwaitingContent)]
    else s
  }

  /** Result of `send_to_archive`: whether a story was found, the store
      after, and the posts made to the archive chat. */
  datatype Dispatched = Dispatched(ok: bool, stories: Stories, sent: seq<Emission>)

  /** `send_to_archive`: with no draft nothing is posted; otherwise the whole
      draft is posted, whatever its phase, and then removed. */
  function Send(s: Stories, u: UserId, vis: Visibility): (r: Dispatched)
    ensures r.ok <==> u in s
    ensures !r.ok ==> r.stories == s && r.sent == []
    ensures r.ok ==> r.sent == ArchiveSends(s[u], vis)
    ensures u !in r.stories && r.stories == s - {u}
    ensures Keyed(s) ==> Keyed(r.stories)
    ensures Keyed(s) && r.ok && vis == Public ==> r.sent[0].header.identity.value.userId == u
  {
    if u !in s then Dispatched(false, s, [])
    else Dispatched(true, s - {u}, ArchiveSends(s[u], vis))
  }

  /** The whole mutable state of the bot: the drafts and what the archive
      chat has received so far. */
  datatype Bot = Bot(stories: Stories, archive: seq<Emission>)

  /** One handler call, as the chat library delivers them: the button
      callbacks and the private-chat content and location messages. */
  datatype Event =
    | StartStoryEv(user: UserId, firstName: string, username: Option<string>, now: int)
    | AddMoreEv(user: UserId)
    | AddLocationEv(user: UserId)
    | FinishEv(user: UserId)
    | ContentEv(privateChat: bool, user: UserId, ref: MessageRef, payload: Payload)
    | LocationEv(privateChat: bool, user: UserId, loc: Location)
    | SendEv(user: UserId, vis: Visibility)

  /** Which update each handler makes. Every handler touches at most the
      caller's own entry, and only a send posts to the archive, at its end. */
  function Step(b: Bot, e: Event): (r: Bot)
    ensures r.stories - {e.user} == b.stories - {e.user}
    ensures b.archive <= r.archive
    ensures !e.SendEv? ==> r.archive == b.archive
    ensures Keyed(b.stories) ==> Keyed(r.stories)
  {
    match e
    case StartStoryEv(u, n, h, t) => b.(stories := Start(b.stories, u, n, h, t))
    case AddMoreEv(u) => b.(stories := SetPhase(b.stories, u, AwaitingContent))
    case AddLocationEv(u) => b.(stories := SetPhase(b.stories, u, AwaitingLocation))
    case FinishEv(_) => b
    case ContentEv(p, u, ref, pl) =>
      if p then b.(stories := AddItem(b.stories, u, ItemOf(ref, pl)).stories) else b
    case LocationEv(p, u, loc) =>
      if p then b.(stories := SetLocation(b.stories, u, loc)) else b
    case SendEv(u, vis) =>
      var r := Send(b.stories, u, vis);
      Bot(r.stories, b.archive + r.sent)
  }

  /** Handler calls taken one after another. */
  function Run(b: Bot, evs: seq<Event>): Bot
    decreases |evs|
  {
    if evs == [] then b else Run(Step(b, evs[0]), evs[1..])
  }

  /** Handlers called for other users never touch this user's draft. */
  lemma {:induction false} OthersUntouched(b: Bot, evs: seq<Event>, u: UserId)
    requires forall i :: 0 <= i < |evs| ==> evs[i].user != u
    ensures u in Run(b, evs).stories <==> u in b.stories
    ensures u in b.stories ==> Run(b, evs).stories[u] == b.stories[u]
    decreases |evs|
  {
    if evs != [] {
      var b' := Step(b, evs[0]);
      var v := evs[0].user;
      assert b'.stories - {v} == b.stories - {v};
      assert u in b'.stories <==> u in b'.stories - {v};
      assert u in b.stories <==> u in b.stories - {v};
      if u in b.stories {
        assert b'.stories[u] == (b'.stories - {v})[u];
      }
      OthersUntouched(b', evs[1..], u);
    }
  }

  /** Until the user starts again or sends, their draft survives and its
      items only grow at the end: nothing collected is lost or reordered. */
  lemma {:induction false} ItemsOnlyGrow(b: Bot, evs: seq<Event>, u: UserId)
    requires u in b.stories
    requires forall i :: 0 <= i < |evs| && evs[i].user == u ==> !evs[i].StartStoryEv? && !evs[i].SendEv?
    ensures u in Run(b, evs).stories
    ensures b.stories[u].items <= Run(b, evs).stories[u].items
    decreases |evs|
  {
    if evs != [] {
      var b' := Step(b, evs[0]);
      var v := evs[0].user;
      assert u in b'.stories && b.stories[u].items <= b'.stories[u].items by {
        if v != u {
          assert b'.stories - {v} == b.stories - {v};
          assert u in b'.stories - {v};
          assert b'.stories[u] == (b'.stories - {v})[u];
        }
      }
      ItemsOnlyGrow(b', evs[1..], u);
    }
  }

  /** Once a user has no draft, and until they start a new story, every send
      of theirs finds nothing: a story reaches the archive at most once. */
  lemma {:induction false} NoDraftStaysSent(b: Bot, evs: seq<Event>, u: UserId)
    requires u !in b.stories
    requires forall i :: 0 <= i < |evs| ==> !(evs[i].StartStoryEv? && evs[i].user == u)
    ensures u !in Run(b, evs).stories
    ensures forall vis :: Step(Run(b, evs), SendEv(u, vis)) == Run(b, evs)
    decreases |evs|
  {
    if evs != [] {
      var b' := Step(b, evs[0]);
      var v := evs[0].user;
      assert u !in b'.stories by {
        if v != u {
          assert b'.stories - {v} == b.stories - {v};
        }
      }
      NoDraftStaysSent(b', evs[1..], u);
    } else {
      forall vis ensures Step(b, SendEv(u, vis)) == b {
        assert b.archive + [] == b.archive;
      }
    }
  }

  /** The archive only ever grows: nothing posted is taken back. */
  lemma {:induction false} ArchiveOnlyGrows(b: Bot, evs: seq<Event>)
    ensures b.archive <= Run(b, evs).archive
    decreases |evs|
  {
    if evs != [] {
      ArchiveOnlyGrows(Step(b, evs[0]), evs[1..]);
    }
  }
}
