/** What `send_to_archive` posts to the archive chat for one draft: a header,
    then every item in the order it was collected, then the place of the
    event. Each post is one abstract `Emission`; the wording, emoji and date
    format of the messages are not modelled. */
module ArchiveDispatch {
  import opened Drafts

  /** The two confirmation buttons, `send_public` and `send_anonymous`. */
  datatype Visibility = Public | Anonymous

  /** Who sent the story, as the attributed header shows it. */
  datatype Identity = Identity(name: string, username: string, userId: UserId)

  /** The header block: the author (absent when anonymous), the start time,
      the number of items and whether a place is attached. */
  datatype Header = Header(identity: Option<Identity>, startedAt: int, itemCount: nat, hasLocation: bool)

  /** One call into the archive chat. */
  datatype Emission =
    | SendHeader(header: Header)
      // a text item, repeated in full under its part number
    | SendText(part: nat, content: string)
      // the numbered label announcing a forwarded item
    | SendLabel(part: nat, kind: Kind)
      // `forward_message` of the original message
    | Forward(ref: MessageRef)
      // the label announcing the place of the event
    | SendLocationLabel

  function HeaderOf(d: Draft, vis: Visibility): (h: Header)
    ensures h.identity.None? <==> vis == Anonymous
    ensures vis == Public ==> h.identity == Some(Identity(d.userName, d.userUsername, d.userId))
    ensures h.itemCount == |d.items|
    ensures h.hasLocation <==> d.location.Some?
    ensures h.startedAt == d.startedAt
  {
    var who := if vis == Anonymous then None else Some(Identity(d.userName, d.userUsername, d.userId));
    Header(who, d.startedAt, |d.items|, d.location.Some?)
  }

  /** The posts for the item numbered `n` (numbering starts at 1): the first
      carries the number, a media item's label names its kind, and none is a
      header. `DeliveriesOfPart` shows they deliver exactly the item. */
  function PartOf(it: Item, n: nat): (es: seq<Emission>)
    ensures |es| > 0 && (es[0].SendText? || es[0].SendLabel?) && es[0].part == n
    ensures es[0].SendLabel? <==> !it.TextItem?
    ensures es[0].SendLabel? ==> es[0].kind == it.KindOf()
    ensures forall i :: 0 <= i < |es| ==> !es[i].SendHeader?
  {
    if it.TextItem? then [SendText(n, it.content)]
    else [SendLabel(n, it.KindOf()), Forward(it.ref)]
  }

  /** The posts for all items, item k numbered k + 1: one or two per item,
      none of them a header. Built from the back so that it reads as the
      dispatch loop's progress. */
  function Parts(items: seq<Item>): (es: seq<Emission>)
    ensures |items| <= |es| <= 2 * |items|
    ensures forall i :: 0 <= i < |es| ==> !es[i].SendHeader?
    decreases |items|
  {
    if items == [] then []
    else Parts(items[..|items| - 1]) + PartOf(items[|items| - 1], |items|)
  }

  /** The posts for the place: none without one; otherwise a label and then
      the forward of the location message. */
  function LocationParts(loc: Option<Location>): (es: seq<Emission>)
    ensures loc.None? <==> es == []
    ensures loc.Some? ==> es[|es| - 1] == Forward(loc.value.ref)
    ensures forall i :: 0 <= i < |es| ==> !es[i].SendHeader?
  {
    if loc.Some? then [SendLocationLabel, Forward(loc.value.ref)] else []
  }

  /** Everything posted for one draft, in order. */
  function ArchiveSends(d: Draft, vis: Visibility): (es: seq<Emission>)
    ensures |es| > 0 && es[0] == SendHeader(HeaderOf(d, vis))
  {
    [SendHeader(HeaderOf(d, vis))] + Parts(d.items) + LocationParts(d.location)
  }

  /** What reaches the archive as the user's own content. */
  datatype Delivery = Said(text: string) | Forwarded(ref: MessageRef)

  function DeliveryOf(it: Item): Delivery {
    if it.TextItem? then Said(it.content) else Forwarded(it.ref)
  }

  /** The content-bearing posts of a sequence, in order; headers and labels drop out. */
  function Deliveries(es: seq<Emission>): seq<Delivery> {
    if es == [] then []
    else
      var first := match es[0]
        case SendText(_, t) => [Said(t)]
        case Forward(r) => [Forwarded(r)]
        case _ => [];
      first + Deliveries(es[1..])
  }

  lemma {:induction false} DeliveriesAppend(a: seq<Emission>, b: seq<Emission>)
    ensures Deliveries(a + b) == Deliveries(a) + Deliveries(b)
  {
    if a != [] {
      assert (a + b)[0] == a[0];
      assert (a + b)[1..] == a[1..] + b;
      DeliveriesAppend(a[1..], b);
    } else {
      assert a + b == b;
    }
  }

  /** The posts for one item deliver exactly that item's content. */
  lemma DeliveriesOfPart(it: Item, n: nat)
    ensures Deliveries(PartOf(it, n)) == [DeliveryOf(it)]
  {
    var es := PartOf(it, n);
    if !it.TextItem? {
      assert es[1..] == [Forward(it.ref)];
      assert es[1..][1..] == [];
      assert Deliveries(es[1..]) == [Forwarded(it.ref)] + Deliveries([]);
    } else {
      assert es[1..] == [];
    }
  }

  /** The posts for a prefix of the items are a prefix of the posts for all of them. */
  lemma {:induction false} PartsPrefix(items: seq<Item>, k: nat)
    requires k <= |items|
    ensures Parts(items[..k]) <= Parts(items)
    decreases |items|
  {
    if k < |items| {
      var init := items[..|items| - 1];
      assert init[..k] == items[..k];
      PartsPrefix(init, k);
    } else {
      assert items[..k] == items;
    }
  }

  /** Item j is posted, under number j + 1, right after everything posted for
      the items before it. */
  lemma PartAt(items: seq<Item>, j: nat)
    requires j < |items|
    ensures |Parts(items[..j])| + |PartOf(items[j], j + 1)| <= |Parts(items)|
    ensures Parts(items)[|Parts(items[..j])|..|Parts(items[..j])| + |PartOf(items[j], j + 1)|]
            == PartOf(items[j], j + 1)
  {
    var upto := items[..j + 1];
    assert upto[..j] == items[..j];
    assert Parts(upto) == Parts(items[..j]) + PartOf(items[j], j + 1);
    PartsPrefix(items, j + 1);
  }

  /** The archive receives the items' content exactly in collection order. */
  lemma {:induction false} PartsDeliverItems(items: seq<Item>)
    ensures |Deliveries(Parts(items))| == |items|
    ensures forall j :: 0 <= j < |items| ==> Deliveries(Parts(items))[j] == DeliveryOf(items[j])
    decreases |items|
  {
    if items != [] {
      var n := |items|;
      var init := items[..n - 1];
      PartsDeliverItems(init);
      DeliveriesAppend(Parts(init), PartOf(items[n - 1], n));
      DeliveriesOfPart(items[n - 1], n);
      var ds := Deliveries(Parts(items));
      assert ds == Deliveries(Parts(init)) + [DeliveryOf(items[n - 1])];
      forall j | 0 <= j < n ensures ds[j] == DeliveryOf(items[j]) {
        if j < n - 1 {
          assert init[j] == items[j];
        }
      }
    }
  }

  /** A story is posted with exactly one header, first; it names the author
      only in the public mode, and always reports the item count. It follows
      from the contracts of `HeaderOf`, `Parts` and `LocationParts`. */
  lemma SingleHeader(d: Draft, vis: Visibility)
    ensures forall i :: 0 < i < |ArchiveSends(d, vis)| ==> !ArchiveSends(d, vis)[i].SendHeader?
    ensures ArchiveSends(d, vis)[0].header.itemCount == |d.items|
    ensures vis == Anonymous ==> ArchiveSends(d, vis)[0].header.identity == None
    ensures vis == Public ==>
      ArchiveSends(d, vis)[0].header.identity == Some(Identity(d.userName, d.userUsername, d.userId))
  {
  }

  /** The content of a dispatched story: the items in collection order, then
      the place if one is attached, and nothing else. */
  lemma ArchiveDelivers(d: Draft, vis: Visibility)
    ensures |Deliveries(ArchiveSends(d, vis))| == |d.items| + (if d.location.Some? then 1 else 0)
    ensures forall j :: 0 <= j < |d.items| ==> Deliveries(ArchiveSends(d, vis))[j] == DeliveryOf(d.items[j])
    ensures d.location.Some? ==>
      Deliveries(ArchiveSends(d, vis))[|d.items|] == Forwarded(d.location.value.ref)
  {
    var hd := [SendHeader(HeaderOf(d, vis))];
    DeliveriesAppend(hd + Parts(d.items), LocationParts(d.location));
    DeliveriesAppend(hd, Parts(d.items));
    PartsDeliverItems(d.items);
    if d.location.Some? {
      var lp := LocationParts(d.location);
      assert lp[1..] == [Forward(d.location.value.ref)];
      assert lp[1..][1..] == [];
    }
  }

  /** Media items and the place are forwarded, not copied, in the anonymous
      mode too: the archive receives a forward of the user's own message. */
  lemma AnonymousStillForwards(d: Draft, j: nat)
    requires j < |d.items| && !d.items[j].TextItem?
    ensures Forward(d.items[j].ref) in ArchiveSends(d, Anonymous)
  {
    PartAt(d.items, j);
    var lo := |Parts(d.items[..j])|;
    assert Parts(d.items)[lo + 1] == Forward(d.items[j].ref);
    assert ArchiveSends(d, Anonymous)[1 + lo + 1] == Forward(d.items[j].ref);
  }
}
