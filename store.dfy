/** The bot's one piece of shared state, updated in place by its handlers:
    the `user_stories` dictionary, and the archive chat seen as the list of
    everything posted to it. Each handler method is proved to change the
    state exactly as the matching function of module Sessions says. */
module StoryStore {
  import opened Drafts
  import opened ArchiveDispatch
  import opened Sessions

  class Store {
    var stories: Stories
    var archive: seq<Emission>

    ghost predicate Valid()
      reads this
    {
      Keyed(stories)
    }

    constructor ()
      ensures Valid() && stories == map[] && archive == []
    {
      stories := map[];
      archive := [];
    }

    /** `start_story`. The draft is stored before any reply is attempted, so
        it exists whether or not the user can be messaged. */
    method StartStory(u: UserId, firstName: string, username: Option<string>, now: int)
      requires Valid()
      modifies this
      ensures Valid()
      ensures stories == Start(old(stories), u, firstName, username, now)
      ensures archive == old(archive)
    {
      stories := stories[u := NewDraft(u, firstName, username, now)];
    }

    /** `add_more`. */
    method AddMore(u: UserId)
      requires Valid()
      modifies this
      ensures Valid()
      ensures stories == SetPhase(old(stories), u, AwaitingContent)
      ensures archive == old(archive)
    {
      if u in stories {
        stories := stories[u := stories[u].(waitingFor := AwaitingContent)];
      }
    }

    /** `request_location`. */
    method RequestLocation(u: UserId)
      requires Valid()
      modifies this
      ensures Valid()
      ensures stories == SetPhase(old(stories), u, AwaitingLocation)
      ensures archive == old(archive)
    {
      if u in stories {
        stories := stories[u := stories[u].(waitingFor := AwaitingLocation)];
      }
    }

    /** `finish_story`: checks only; the preview it shows is not modelled. */
    method FinishStory(u: UserId) returns (r: FinishCheck)
      ensures r == Finish(stories, u)
      ensures r.Ready? ==> r.count > 0
    {
      if u !in stories {
        return NotFound;
      }
      var story := stories[u];
      if |story.items| == 0 {
        return NothingAdded;
      }
      r := Ready(|story.items|, story.location.Some?);
    }

    /** `add_item_to_story`. */
    method AddItemToStory(u: UserId, it: Item) returns (ok: bool)
      requires Valid()
      modifies this
      ensures Valid()
      ensures ok == AddItem(old(stories), u, it).ok
      ensures stories == AddItem(old(stories), u, it).stories
      ensures archive == old(archive)
    {
      if u !in stories {
        return false;
      }
      if stories[u].waitingFor != AwaitingContent {
        return false;
      }
      var story := stories[u];
      stories := stories[u := story.(items := story.items + [it])];
      ok := true;
    }

    /** The content handlers (`handle_text` to `handle_audio`): messages from
        group chats are ignored; a private one becomes an item. */
    method HandleContent(privateChat: bool, u: UserId, ref: MessageRef, p: Payload)
      requires Valid()
      modifies this
      ensures Valid()
      ensures stories == if privateChat then AddItem(old(stories), u, ItemOf(ref, p)).stories else old(stories)
      ensures archive == old(archive)
    {
      if !privateChat {
        return;
      }
      var _ := AddItemToStory(u, ItemOf(ref, p));
    }

    /** `handle_location`. */
    method HandleLocation(privateChat: bool, u: UserId, loc: Location)
      requires Valid()
      modifies this
      ensures Valid()
      ensures stories == if privateChat then SetLocation(old(stories), u, loc) else old(stories)
      ensures archive == old(archive)
    {
      if !privateChat {
        return;
      }
      if u in stories && stories[u].waitingFor == AwaitingLocation {
        stories := stories[u := stories[u].(location := Some(loc))];
        stories := stories[u := stories[u].(waitingFor := AwaitingContent)];
      }
    }

    /** `send_to_archive`: with no draft it only answers. Otherwise it posts
        the header, then each item in order (a text as one message, any other
        item as a numbered label and a forward), then the place as a label
        and a forward, and deletes the draft only after all of it has been
        posted. A draft is always filed under its owner, so a public header
        names the sender's own id. */
    method SendToArchive(u: UserId, vis: Visibility) returns (ok: bool)
      requires Valid()
      modifies this
      ensures Valid()
      ensures ok == Send(old(stories), u, vis).ok
      ensures stories == Send(old(stories), u, vis).stories
      ensures archive == old(archive) + Send(old(stories), u, vis).sent
      ensures ok && vis == Public ==> archive[|old(archive)|].header.identity.value.userId == u
    {
      if u !in stories {
        return false;
      }
      var story := stories[u];
      archive := archive + [SendHeader(HeaderOf(story, vis))];
      ghost var headed := archive;
      var i := 0;
      while i < |story.items|
        invariant 0 <= i <= |story.items|
        invariant stories == old(stories)
        invariant archive == headed + Parts(story.items[..i])
      {
        var it := story.items[i];
        if it.TextItem? {
          archive := archive + [SendText(i + 1, it.content)];
        } else {
          archive := archive + [SendLabel(i + 1, it.KindOf())];
          archive := archive + [Forward(it.ref)];
        }
        assert story.items[..i + 1][..i] == story.items[..i];
        i := i + 1;
      }
      assert story.items[..i] == story.items;
      if story.location.Some? {
        archive := archive + [SendLocationLabel];
        archive := archive + [Forward(story.location.value.ref)];
      }
      stories := stories - {u};
      ok := true;
    }
  }

  /** A whole session: a text and a photo, then a place, then an anonymous
      send; a second press of a send button afterwards posts nothing. */
  method GhostStoryScenario(t0: int, ref1: MessageRef, ref2: MessageRef, here: Location)
    returns (check: FinishCheck, sent: bool, posted: seq<Emission>, resent: bool)
    ensures check == Ready(2, true)
    ensures sent && !resent
    ensures posted == [
      SendHeader(Header(None, t0, 2, true)),
      SendText(1, "ghost story"),
      SendLabel(2, Photo),
      Forward(ref2),
      SendLocationLabel,
      Forward(here.ref)]
  {
    var store := new Store();
    store.StartStory(42, "Ana", Some("ana99"), t0);
    store.HandleContent(true, 42, ref1, TextMsg("ghost story"));
    store.HandleContent(true, 42, ref2, PhotoMsg(None));
    store.RequestLocation(42);
    store.HandleLocation(true, 42, here);
    var items := [TextItem(ref1, "ghost story"), PhotoItem(ref2, "")];
    assert store.stories[42].items == items;
    assert items[..1] == [items[0]] && [items[0]][..0] == [];
    assert Parts([items[0]]) == [SendText(1, "ghost story")];
    assert Parts(items) == [SendText(1, "ghost story"), SendLabel(2, Photo), Forward(ref2)];
    check := store.FinishStory(42);
    sent := store.SendToArchive(42, Anonymous);
    posted := store.archive;
    resent := store.SendToArchive(42, Public);
    assert store.archive == posted;
  }
}
