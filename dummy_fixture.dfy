/** The built-in sample data the visualiser draws: three public keys, one profile
    and two notes, the second note tagging the profile event and its author. */
module DummyFixture {
  import opened NostrTypes
  import opened NodeLinkVisualization
  import EventTooltip

  /** The ids the sample's keys and events are named by. */
  const Key1 := "pubkey1"
  const Key2 := "pubkey2"
  const Key3 := "pubkey3"
  const Event1 := "event1"
  const Event2 := "event2"
  const Event3 := "event3"

  const DummyPubkeys := [PubKey(Key1), PubKey(Key2), PubKey(Key3)]

  /** Alice's profile object; `Profile1` carries it as its JSON text. */
  const Alice := UserMetadata("Alice", "I love Nostr!", "https://example.com/alice.jpg")

  const Profile1 := NostrEvent(0,
    "{\"name\":\"Alice\",\"about\":\"I love Nostr!\",\"picture\":\"https://example.com/alice.jpg\"}",
    1677825600, Event1, Key1, [], "signature1")

  /** A note with no tags. */
  const Note2 := NostrEvent(1, "Hello Nostr! This is my first post.", 1677825700, Event2, Key2, [], "signature2")

  /** A reply tagging Alice's profile event and her key. */
  const Reply3 := NostrEvent(1, "Reply to Alice's profile", 1677825800, Event3, Key3,
    [["e", Event1], ["p", Key1]], "signature3")

  const DummyEvents := [Profile1, Note2, Reply3]

  /** The reply's author link, then one link per tag, in tag order. */
  lemma ReplyLinks()
    ensures TagsWellFormed(Reply3.tags)
    ensures EventLinks(Reply3) == [Link(Key3, Event3), Link(Event3, Event1), Link(Event3, Key1)]
  {
    var tags := Reply3.tags;
    assert tags[1..][1..] == [];
    assert RefTags(tags) == tags;
  }

  /** Three events each of whose "e"/"p" tags has a target. */
  lemma WellFormedThree(events: seq<NostrEvent>)
    requires |events| == 3
    requires TagsWellFormed(events[0].tags) && TagsWellFormed(events[1].tags)
    requires TagsWellFormed(events[2].tags)
    ensures EventsWellFormed(events)
  {
    forall e | e in events ensures TagsWellFormed(e.tags) {
      var i :| 0 <= i < 3 && events[i] == e;
    }
  }

  /** Each event's author link, the reply's author link followed by its "e" and "p" links. */
  lemma DummyLinks()
    ensures EventsWellFormed(DummyEvents)
    ensures BuildLinks(DummyEvents) == [Link(Key1, Event1)] + [Link(Key2, Event2)]
      + [Link(Key3, Event3), Link(Event3, Event1), Link(Event3, Key1)]
  {
    ReplyLinks();
    WellFormedThree(DummyEvents);
    var rest1, rest2 := DummyEvents[1..], DummyEvents[2..];
    assert rest1[0] == Note2 && rest1[1..] == rest2 && rest2[0] == Reply3 && rest2[1..] == [];
    assert BuildLinks(rest2) == EventLinks(Reply3);
    assert BuildLinks(rest1) == EventLinks(Note2) + BuildLinks(rest2);
    assert EventLinks(Profile1) == [Link(Key1, Event1)] && EventLinks(Note2) == [Link(Key2, Event2)];
    assert BuildLinks(DummyEvents) == EventLinks(Profile1) + BuildLinks(rest1);
  }

  /** The ids of three keys, as a set. */
  lemma KeyIdsOfThree(keys: seq<PubKey>)
    requires |keys| == 3
    ensures (set p | p in keys :: p.id) == {keys[0].id, keys[1].id, keys[2].id}
  {
    var ids := set p | p in keys :: p.id;
    forall x | x in ids ensures x in {keys[0].id, keys[1].id, keys[2].id} {
      var p :| p in keys && p.id == x;
      var i :| 0 <= i < 3 && keys[i] == p;
    }
    assert keys[0] in keys && keys[1] in keys && keys[2] in keys;
  }

  /** The ids of three events, as a set. */
  lemma EventIdsOfThree(events: seq<NostrEvent>)
    requires |events| == 3
    ensures (set e | e in events :: e.id) == {events[0].id, events[1].id, events[2].id}
  {
    var ids := set e | e in events :: e.id;
    forall x | x in ids ensures x in {events[0].id, events[1].id, events[2].id} {
      var e :| e in events && e.id == x;
      var i :| 0 <= i < 3 && events[i] == e;
    }
    assert events[0] in events && events[1] in events && events[2] in events;
  }

  /** Public keys first, then events, each node named by its id. */
  lemma DummyNodes()
    ensures var nodes := BuildNodes(DummyPubkeys, DummyEvents);
      |nodes| == 6 && NodeIds(nodes) == {Key1, Key2, Key3} + {Event1, Event2, Event3}
  {
    NodeIdsOfBuildNodes(DummyPubkeys, DummyEvents);
    KeyIdsOfThree(DummyPubkeys);
    EventIdsOfThree(DummyEvents);
  }

  /** Three keys and three events wired like the sample: each event signed by its
      own key, the first two untagged, the third tagging the first event and key. */
  predicate SampleShape(keys: seq<PubKey>, events: seq<NostrEvent>)
  {
    |keys| == 3 && |events| == 3 &&
    events[0].pubkey == keys[0].id && events[1].pubkey == keys[1].id &&
    events[2].pubkey == keys[2].id &&
    events[0].tags == [] && events[1].tags == [] &&
    events[2].tags == [["e", events[0].id], ["p", keys[0].id]]
  }

  /** The reply's tags are well formed and name the first event and the first key. */
  lemma ShapeReplyTags(keys: seq<PubKey>, events: seq<NostrEvent>)
    requires SampleShape(keys, events)
    ensures TagsWellFormed(events[2].tags)
    ensures forall t :: t in events[2].tags ==> t[1] == events[0].id || t[1] == keys[0].id
  {
    var tags := events[2].tags;
    forall t | t in tags ensures |t| >= 2 && (t[1] == events[0].id || t[1] == keys[0].id) {
      var j :| 0 <= j < 2 && tags[j] == t;
    }
  }

  /** Every author and every tag target is among `ids` once the keys and the first event are. */
  lemma ShapeEndsNamed(keys: seq<PubKey>, events: seq<NostrEvent>, ids: set<string>)
    requires SampleShape(keys, events)
    requires keys[0].id in ids && keys[1].id in ids && keys[2].id in ids && events[0].id in ids
    ensures EndsNamed(events, ids)
  {
    ShapeReplyTags(keys, events);
    forall e | e in events
      ensures e.pubkey in ids
      ensures forall t :: t in e.tags && IsRefTag(t) && |t| > 1 ==> t[1] in ids
    {
      var i :| 0 <= i < 3 && events[i] == e;
    }
  }

  /** Every link of such data resolves. */
  lemma ShapeResolves(keys: seq<PubKey>, events: seq<NostrEvent>)
    requires SampleShape(keys, events)
    ensures EventsWellFormed(events) && LinksResolve(BuildGraph(keys, events))
  {
    ShapeReplyTags(keys, events);
    WellFormedThree(events);
    var ids := NodeIds(BuildNodes(keys, events));
    NodeIdsOfBuildNodes(keys, events);
    KeyIdsOfThree(keys);
    EventIdsOfThree(events);
    ShapeEndsNamed(keys, events, ids);
    LinksResolveIff(keys, events);
  }

  /** The sample yields six nodes and five links, and every link endpoint names a node. */
  lemma DummyGraph()
    ensures EventsWellFormed(DummyEvents)
    ensures var g := BuildGraph(DummyPubkeys, DummyEvents);
      |g.nodes| == 6 && |g.links| == 5 && LinksResolve(g)
  {
    DummyLinks();
    ShapeResolves(DummyPubkeys, DummyEvents);
  }

  /** With a decoder that reads Alice's profile from the sample's content, the
      profile event's hover text shows her name and description. */
  lemma AliceHover(decode: JsonDecoder)
    requires decode(Profile1.content) == Some(Alice)
    ensures NodeTooltip(decode, EventNode(Profile1)) == "User: " + "Alice" + "\nAbout: " + "I love Nostr!"
  {
  }

  /** The same decoder gives Alice's card: her picture, her name twice and her description. */
  lemma AliceCard(decode: JsonDecoder)
    requires decode(Profile1.content) == Some(Alice)
    ensures EventTooltip.EventTooltipView(decode, Profile1) == EventTooltip.ProfileView(
      "https://example.com/alice.jpg", "Alice", "Alice", "I love Nostr!")
  {
  }

  /** A key node's hover text is the key after `PubKey: `. */
  lemma KeyHover(decode: JsonDecoder)
    ensures NodeTooltip(decode, PubkeyNode(Key1)) == "PubKey: " + Key1
  {
  }
}
