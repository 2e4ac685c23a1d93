/** The node/link graph the force layout draws, derived from the known public keys
    and events, and the per-node style and hover text. The derivation neither
    de-duplicates, nor sorts, nor chains events by author, nor drops links whose
    endpoints name no node. */
module NodeLinkVisualization {
  import opened NostrTypes
  import NostrUtils

  /** A drawn node: a bare public key, or an event with all of its fields. */
  datatype Node = PubkeyNode(id: string) | EventNode(event: NostrEvent)
  {
    /** The id the layout uses to resolve link endpoints. */
    function Id(): string
    {
      match this
      case PubkeyNode(id) => id
      case EventNode(e) => e.id
    }
  }

  /** A link between two node ids; the ids need not name any node. */
  datatype Link = Link(source: string, target: string)

  datatype Graph = Graph(nodes: seq<Node>, links: seq<Link>)

  // ---------------------------------------------------------------- nodes

  function PubkeyNodes(pubkeys: seq<PubKey>): (r: seq<Node>)
    ensures |r| == |pubkeys|
    ensures forall i :: 0 <= i < |pubkeys| ==> r[i] == PubkeyNode(pubkeys[i].id)
  {
    if pubkeys == [] then [] else [PubkeyNode(pubkeys[0].id)] + PubkeyNodes(pubkeys[1..])
  }

  function EventNodes(events: seq<NostrEvent>): (r: seq<Node>)
    ensures |r| == |events|
    ensures forall j :: 0 <= j < |events| ==> r[j] == EventNode(events[j])
  {
    if events == [] then [] else [EventNode(events[0])] + EventNodes(events[1..])
  }

  /** Every public key as a node, in input order, then every event, in input order. */
  function BuildNodes(pubkeys: seq<PubKey>, events: seq<NostrEvent>): (r: seq<Node>)
    ensures |r| == |pubkeys| + |events|
    ensures forall i :: 0 <= i < |pubkeys| ==>
      r[i].PubkeyNode? && r[i].Id() == pubkeys[i].id
    ensures forall j :: 0 <= j < |events| ==>
      r[|pubkeys| + j].EventNode? && r[|pubkeys| + j].event == events[j]
  {
    PubkeyNodes(pubkeys) + EventNodes(events)
  }

  function NodeIds(nodes: seq<Node>): set<string>
  {
    set n | n in nodes :: n.Id()
  }

  /** The ids of the derived nodes are the public key ids and the event ids. */
  lemma {:induction false} NodeIdsOfBuildNodes(pubkeys: seq<PubKey>, events: seq<NostrEvent>)
    ensures NodeIds(BuildNodes(pubkeys, events))
      == (set p | p in pubkeys :: p.id) + (set e | e in events :: e.id)
  {
    var nodes := BuildNodes(pubkeys, events);
    var keys, ids := (set p | p in pubkeys :: p.id), (set e | e in events :: e.id);
    forall x | x in NodeIds(nodes) ensures x in keys + ids {
      var n :| n in nodes && n.Id() == x;
      var k :| 0 <= k < |nodes| && nodes[k] == n;
      if k < |pubkeys| {
        assert pubkeys[k] in pubkeys;
      } else {
        assert events[k - |pubkeys|] in events;
      }
    }
    forall x | x in keys + ids ensures x in NodeIds(nodes) {
      if x in keys {
        var p :| p in pubkeys && p.id == x;
        var i :| 0 <= i < |pubkeys| && pubkeys[i] == p;
        assert nodes[i] in nodes;
      } else {
        var e :| e in events && e.id == x;
        var j :| 0 <= j < |events| && events[j] == e;
        assert nodes[|pubkeys| + j] in nodes;
      }
    }
  }

  // ---------------------------------------------------------------- tags

  /** A tag that yields a link: its first element is "e" (event) or "p" (public key). */
  predicate IsRefTag(tag: seq<string>)
  {
    |tag| > 0 && (tag[0] == "e" || tag[0] == "p")
  }

  /** Every "e"/"p" tag names its target in its second element. */
  predicate TagsWellFormed(tags: seq<seq<string>>)
  {
    forall t :: t in tags && IsRefTag(t) ==> |t| >= 2
  }

  predicate EventsWellFormed(events: seq<NostrEvent>)
  {
    forall e :: e in events ==> TagsWellFormed(e.tags)
  }

  /** The "e"/"p" tags, and only those, in their original order. */
  function RefTags(tags: seq<seq<string>>): (r: seq<seq<string>>)
    ensures |r| <= |tags|
    ensures forall t :: t in r <==> t in tags && IsRefTag(t)
  {
    if tags == [] then []
    else (if IsRefTag(tags[0]) then [tags[0]] else []) + RefTags(tags[1..])
  }

  /** Filtering distributes over concatenation, so it keeps the tags' order. */
  lemma {:induction false} RefTagsAppend(a: seq<seq<string>>, b: seq<seq<string>>)
    ensures RefTags(a + b) == RefTags(a) + RefTags(b)
  {
    if a == [] {
      assert a + b == b;
    } else {
      assert (a + b)[0] == a[0];
      assert (a + b)[1..] == a[1..] + b;
      RefTagsAppend(a[1..], b);
    }
  }

  /** The positions of the "e"/"p" tags. */
  function RefTagPositions(tags: seq<seq<string>>): set<int>
  {
    set i | 0 <= i < |tags| && IsRefTag(tags[i])
  }

  lemma RefTagPositionsSnoc(init: seq<seq<string>>, last: seq<string>)
    ensures RefTagPositions(init + [last])
      == RefTagPositions(init) + (if IsRefTag(last) then {|init|} else {})
  {
    var tags := init + [last];
    forall i | 0 <= i < |init| ensures tags[i] == init[i] { }
  }

  /** The filter keeps one tag per "e"/"p" position. */
  lemma {:induction false} RefTagsCount(tags: seq<seq<string>>)
    ensures |RefTags(tags)| == |RefTagPositions(tags)|
  {
    if tags == [] {
      assert RefTagPositions(tags) == {};
    } else {
      var n := |tags| - 1;
      var init, last := tags[..n], tags[n];
      assert tags == init + [last];
      RefTagsAppend(init, [last]);
      assert [last][1..] == [];
      RefTagsCount(init);
      RefTagPositionsSnoc(init, last);
      assert n !in RefTagPositions(init);
    }
  }

  // ---------------------------------------------------------------- links

  /** One link from the event to the target of each "e"/"p" tag. */
  function TagLinks(eventId: string, tags: seq<seq<string>>): (r: seq<Link>)
    requires TagsWellFormed(tags)
    ensures |r| == |RefTags(tags)|
    ensures forall k :: 0 <= k < |r| ==> r[k].source == eventId
    ensures forall k :: 0 <= k < |r| ==>
      |RefTags(tags)[k]| >= 2 && r[k] == Link(eventId, RefTags(tags)[k][1])
  {
    var refs := RefTags(tags);
    seq(|refs|, k requires 0 <= k < |refs| => assert refs[k] in refs; Link(eventId, refs[k][1]))
  }

  /** A tag produces the link `eventId -> x` exactly when it is an "e"/"p" tag naming `x`. */
  lemma TagLinkIff(eventId: string, tags: seq<seq<string>>, l: Link)
    requires TagsWellFormed(tags)
    ensures l in TagLinks(eventId, tags) <==>
      l.source == eventId && exists t :: t in tags && TagNames(t, l.target)
  {
    var refs, r := RefTags(tags), TagLinks(eventId, tags);
    if l in r {
      var k :| 0 <= k < |r| && r[k] == l;
      assert refs[k] in refs;
    }
    if l.source == eventId && exists t :: t in tags && TagNames(t, l.target) {
      var t :| t in tags && TagNames(t, l.target);
      assert t in refs;
      var k :| 0 <= k < |refs| && refs[k] == t;
      assert r[k] == l;
    }
  }

  /** The links of one event: the author link first, then its tag links in tag order. */
  function EventLinks(e: NostrEvent): (r: seq<Link>)
    requires TagsWellFormed(e.tags)
    ensures |r| == 1 + |RefTags(e.tags)|
    ensures r[0] == Link(e.pubkey, e.id)
    ensures forall k :: 1 <= k < |r| ==> r[k].source == e.id
    ensures r[1..] == TagLinks(e.id, e.tags)
  {
    [Link(e.pubkey, e.id)] + TagLinks(e.id, e.tags)
  }

  /** Unless an event's author and id coincide, its author link occurs once among its links. */
  lemma AuthorLinkOnce(e: NostrEvent)
    requires TagsWellFormed(e.tags) && e.pubkey != e.id
    ensures multiset(EventLinks(e))[Link(e.pubkey, e.id)] == 1
  {
    var r := EventLinks(e);
    var tail := TagLinks(e.id, e.tags);
    assert r == [r[0]] + tail;
    assert Link(e.pubkey, e.id) !in tail;
  }

  /** The links of all events, grouped by event in event order. */
  function BuildLinks(events: seq<NostrEvent>): (r: seq<Link>)
    requires EventsWellFormed(events)
    ensures |r| >= |events|
  {
    if events == [] then []
    else EventLinks(events[0]) + BuildLinks(events[1..])
  }

  /** Well-formedness holds of a concatenation and of its parts alike. */
  lemma WellFormedConcat(a: seq<NostrEvent>, b: seq<NostrEvent>)
    ensures EventsWellFormed(a + b) <==> EventsWellFormed(a) && EventsWellFormed(b)
  {
    if EventsWellFormed(a + b) {
      assert forall e :: e in a ==> e in a + b;
      assert forall e :: e in b ==> e in a + b;
    }
  }

  lemma WellFormedTail(events: seq<NostrEvent>)
    requires EventsWellFormed(events) && events != []
    ensures TagsWellFormed(events[0].tags) && EventsWellFormed(events[1..])
  {
    assert events[0] in events;
    forall e | e in events[1..] ensures e in events {
      var i :| 0 <= i < |events[1..]| && events[1..][i] == e;
      assert events[i + 1] == e;
    }
  }

  lemma {:induction false} BuildLinksAppend(a: seq<NostrEvent>, b: seq<NostrEvent>)
    requires EventsWellFormed(a) && EventsWellFormed(b)
    ensures EventsWellFormed(a + b)
    ensures BuildLinks(a + b) == BuildLinks(a) + BuildLinks(b)
  {
    WellFormedConcat(a, b);
    if a == [] {
      assert a + b == b;
    } else {
      var ab := a + b;
      assert ab[0] == a[0];
      assert ab[1..] == a[1..] + b;
      WellFormedTail(a);
      BuildLinksAppend(a[1..], b);
    }
  }

  /** The links of event `j` form one contiguous block, starting where the links of
      the events before it end and ending where those of the next event begin. */
  lemma LinksOfEvent(events: seq<NostrEvent>, j: nat)
    requires EventsWellFormed(events) && j < |events|
    ensures var start, group := |BuildLinks(events[..j])|, EventLinks(events[j]);
      |BuildLinks(events[..j + 1])| == start + |group| &&
      start + |group| <= |BuildLinks(events)| &&
      BuildLinks(events)[start..start + |group|] == group
  {
    var before, e, after := events[..j], events[j], events[j + 1..];
    assert events[..j + 1] == before + [e];
    assert events == before + [e] + after;
    assert [e][1..] == [];
    BuildLinksAppend(before, [e]);
    BuildLinksAppend(before + [e], after);
  }

  /** Every event contributes one author link plus one link per "e"/"p" tag. */
  function LinkCount(events: seq<NostrEvent>): nat
  {
    if events == [] then 0
    else 1 + |RefTagPositions(events[0].tags)| + LinkCount(events[1..])
  }

  lemma {:induction false} LinkCountMatches(events: seq<NostrEvent>)
    requires EventsWellFormed(events)
    ensures |BuildLinks(events)| == LinkCount(events)
  {
    if events != [] {
      RefTagsCount(events[0].tags);
      LinkCountMatches(events[1..]);
    }
  }

  /** The tag is an "e"/"p" tag whose target is `x`. */
  predicate TagNames(t: seq<string>, x: string)
  {
    IsRefTag(t) && |t| > 1 && t[1] == x
  }

  /** The event's own links: its author link and the links of its "e"/"p" tags. */
  predicate Yields(e: NostrEvent, l: Link)
  {
    l == Link(e.pubkey, e.id) || (l.source == e.id && exists t :: t in e.tags && TagNames(t, l.target))
  }

  /** A link is derived exactly when some event yields it; there is no check that
      its ends are nodes. */
  lemma {:induction false} LinkIff(events: seq<NostrEvent>, l: Link)
    requires EventsWellFormed(events)
    ensures l in BuildLinks(events) <==> exists e :: e in events && Yields(e, l)
  {
    if events != [] {
      var e := events[0];
      TagLinkIff(e.id, e.tags, l);
      LinkIff(events[1..], l);
      if l in BuildLinks(events[1..]) {
        var e' :| e' in events[1..] && Yields(e', l);
        assert e' in events;
      }
      if exists e' :: e' in events && Yields(e', l) {
        var e' :| e' in events && Yields(e', l);
        if e' != e {
          assert e' in events[1..];
        }
      }
    }
  }

  // ---------------------------------------------------------------- graph

  /** The graph handed to the force layout. */
  function BuildGraph(pubkeys: seq<PubKey>, events: seq<NostrEvent>): (g: Graph)
    requires EventsWellFormed(events)
    ensures |g.nodes| == |pubkeys| + |events|
    ensures |g.links| == LinkCount(events)
  {
    LinkCountMatches(events);
    Graph(BuildNodes(pubkeys, events), BuildLinks(events))
  }

  /** Both ends of every link name a node. */
  predicate LinksResolve(g: Graph)
  {
    forall l :: l in g.links ==> l.source in NodeIds(g.nodes) && l.target in NodeIds(g.nodes)
  }

  /** Every author is among `ids` and every "e"/"p" tag names a member of `ids`. */
  predicate EndsNamed(events: seq<NostrEvent>, ids: set<string>)
  {
    forall e :: e in events ==>
      e.pubkey in ids && forall t :: t in e.tags && IsRefTag(t) && |t| > 1 ==> t[1] in ids
  }

  lemma ResolvedEndsNamed(events: seq<NostrEvent>, ids: set<string>)
    requires EventsWellFormed(events)
    requires forall l :: l in BuildLinks(events) ==> l.source in ids && l.target in ids
    ensures EndsNamed(events, ids)
  {
    forall e | e in events
      ensures e.pubkey in ids
      ensures forall t :: t in e.tags && IsRefTag(t) && |t| > 1 ==> t[1] in ids
    {
      LinkIff(events, Link(e.pubkey, e.id));
      forall t | t in e.tags && IsRefTag(t) && |t| > 1 ensures t[1] in ids {
        LinkIff(events, Link(e.id, t[1]));
      }
    }
  }

  lemma NamedEndsResolve(events: seq<NostrEvent>, ids: set<string>)
    requires EventsWellFormed(events) && EndsNamed(events, ids)
    requires forall e :: e in events ==> e.id in ids
    ensures forall l :: l in BuildLinks(events) ==> l.source in ids && l.target in ids
  {
    forall l | l in BuildLinks(events) ensures l.source in ids && l.target in ids {
      LinkIff(events, l);
    }
  }

  /** The links resolve exactly when every author is a node id and every
      "e"/"p" tag names a node id. */
  lemma LinksResolveIff(pubkeys: seq<PubKey>, events: seq<NostrEvent>)
    requires EventsWellFormed(events)
    ensures var g := BuildGraph(pubkeys, events);
      LinksResolve(g) <==> EndsNamed(events, NodeIds(g.nodes))
  {
    var g := BuildGraph(pubkeys, events);
    var ids := NodeIds(g.nodes);
    NodeIdsOfBuildNodes(pubkeys, events);
    assert forall e :: e in events ==> e.id in ids;
    if LinksResolve(g) {
      ResolvedEndsNamed(events, ids);
    }
    if EndsNamed(events, ids) {
      NamedEndsResolve(events, ids);
    }
  }

  /** A tag naming no node still yields a link: nothing is filtered. */
  lemma DanglingTagLinkKept(e: NostrEvent, x: string)
    requires e.tags == [["e", x]] && x != e.id
    ensures EventsWellFormed([e])
    ensures var g := BuildGraph([], [e]);
      Link(e.id, x) in g.links && x !in NodeIds(g.nodes) && !LinksResolve(g)
  {
    assert EventsWellFormed([e]);
    var g := BuildGraph([], [e]);
    assert RefTags(e.tags) == [["e", x]];
    assert [e][1..] == [];
    assert g.links == EventLinks(e) + BuildLinks([]);
    assert g.links[1] == Link(e.id, x);
    NodeIdsOfBuildNodes([], [e]);
    assert NodeIds(g.nodes) == {e.id};
  }

  /** Event nodes are made one event at a time. */
  lemma EventNodesAppend(a: seq<NostrEvent>, b: seq<NostrEvent>)
    ensures EventNodes(a + b) == EventNodes(a) + EventNodes(b)
  {
    var nodes, ab := EventNodes(a + b), a + b;
    forall j | 0 <= j < |nodes| ensures nodes[j] == (EventNodes(a) + EventNodes(b))[j] {
      if j >= |a| {
        assert ab[j] == b[j - |a|];
      }
    }
  }

  /** Delivering the same events twice doubles the nodes and the links: nothing is
      de-duplicated. */
  lemma NoDeduplication(pubkeys: seq<PubKey>, events: seq<NostrEvent>)
    requires EventsWellFormed(events)
    ensures EventsWellFormed(events + events)
    ensures var once, twice := BuildGraph(pubkeys, events), BuildGraph(pubkeys, events + events);
      twice.nodes == once.nodes + EventNodes(events) &&
      twice.links == once.links + once.links
  {
    BuildLinksAppend(events, events);
    EventNodesAppend(events, events);
    var keys, evs := PubkeyNodes(pubkeys), EventNodes(events);
    assert BuildNodes(pubkeys, events + events) == keys + (evs + evs);
    assert keys + (evs + evs) == (keys + evs) + evs;
  }

  // ---------------------------------------------------------------- style

  /** Circle radius: public keys are drawn larger than any event. */
  function NodeRadius(n: Node): (r: int)
    ensures r in {4, 5, 8, 10}
    ensures n.PubkeyNode? <==> r == 10
    ensures n.EventNode? ==> r == NostrUtils.EventSize(n.event)
  {
    if n.PubkeyNode? then 10 else NostrUtils.EventSize(n.event)
  }

  /** Fill colour: orange for public keys, a colour no event receives. */
  function NodeFill(n: Node): (r: string)
    ensures n.PubkeyNode? <==> r == "#FFA500"
    ensures n.EventNode? ==> r == NostrUtils.EventColor(n.event)
  {
    if n.PubkeyNode? then "#FFA500" else NostrUtils.EventColor(n.event)
  }

  /** Hover text: "PubKey: " and the id for a public key, which no event's text starts with. */
  function NodeTooltip(decode: JsonDecoder, n: Node): (r: string)
    ensures n.PubkeyNode? <==> "PubKey: " <= r
    ensures n.PubkeyNode? ==> r[8..] == n.id
    ensures n.EventNode? ==> r == NostrUtils.EventTooltipContent(decode, n.event)
  {
    if n.PubkeyNode? then "PubKey: " + n.id
    else
      var r := NostrUtils.EventTooltipContent(decode, n.event);
      var prefix := NostrUtils.TooltipPrefix(n.event.kind);
      assert prefix <= r && r[0] == prefix[0] != 'P';
      assert "PubKey: "[0] == 'P';
      r
  }
}
