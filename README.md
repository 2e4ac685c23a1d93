# Nostr node-link visualiser: graph derivation and display dispatch

The visualiser draws Nostr events (NIP-01 "Events and signatures", "Kinds" and
"Tags") as a force-directed graph. This project models the pure part of that
program in Dafny and proves what it computes:

- **Records** (`NostrTypes`): `PubKey`, `NostrEvent` and `UserMetadata`, as the
  program declares them. `JSON.parse` is a parameter `decode: string -> Option<UserMetadata>`.
  `None` stands for a parse that throws.
- **Graph derivation** (`NodeLinkVisualization`): every public key becomes a node, then
  every event becomes a node carrying all of its fields. Each event yields its author link
  `pubkey -> id`, then one link `id -> tag[1]` for every tag whose head is `"e"` or `"p"`.
  The derivation does not de-duplicate, sort by `created_at`, chain events per author
  or drop links whose ends name no node. `NoDeduplication` states the first fact.
  The ordering in the `ensures` of `BuildNodes` and the blocks of `LinksOfEvent` state
  the second and third. `LinkIff` and `DanglingTagLinkKept` state the last.
  The per-node radius, fill and hover text are modelled too.
- **Kind dispatch** (`NostrUtils`): colour and size by kind, profile decoding with its fixed
  fallback `{name: "Unknown", about: "", picture: ""}`, and the hover text. A note's hover
  text is cut at 50 characters, with `...` only when the note was longer.
- **Tooltip card** (`EventTooltip`): a datatype of three views (profile, note, other)
  holding the strings the card displays. Empty profile fields show their defaults. A note
  preview is cut at 100 characters and always ends in `...`.
- **Sample data** (`DummyFixture`): the built-in three keys and three events. They give
  six nodes and five links, and every link endpoint names a node.

The code has no event store, no upsert by id, no relay-status events, no sorting by
`created_at`, no chains of events per author and kind, and no filter for dangling links.
The model has none of these either. The note card appends `...` to its preview whether
or not the content was cut (`src/components/EventTooltip.tsx:32`), while the hover text
appends it only when the note was longer than 50 characters.
`EventTooltip.ShortNoteTooltipsDisagree` states the resulting difference.

## Model

| member | source | states |
|---|---|---|
| `NostrUtils.EventColor` | src/utils/nostrUtils.ts:1-10 | green `#4CAF50` exactly for kind 0, blue `#2196F3` exactly for kind 1, grey `#9E9E9E` exactly for every other kind |
| `NostrUtils.EventSize` | src/utils/nostrUtils.ts:12-21 | the size is always 4, 5 or 8; it is 8 exactly for kind 0 and 5 exactly for kind 1; every non-metadata event is strictly smaller than a metadata event |
| `NostrUtils.ParseUserMetadata` | src/utils/nostrUtils.ts:23-30 | total: returns the decoded profile when decoding succeeds and `{Unknown, "", ""}` when it fails |
| `NostrUtils.EventTooltipContent` | src/utils/nostrUtils.ts:32-42 | the text starts with the prefix fixed by the kind; kind 0 shows the decoded name and about; a note of at most 50 characters appears whole with no ellipsis, a longer one is cut to 50 characters followed by `...`; other kinds show `Event: ` and the id |
| `NostrUtils.MalformedProfileTooltip` | src/utils/nostrUtils.ts:28-36 | a kind 0 event whose content does not parse reads `User: Unknown\nAbout: ` |
| `NostrUtils.NoteTooltipBounded` | src/utils/nostrUtils.ts:37-38 | a note's hover text is at most 59 characters; short content is recovered whole after the prefix; long content gives its first 50 characters and then `...` |
| `NostrUtils.TooltipDeterminesKindClass` | src/utils/nostrUtils.ts:32-41 | equal hover texts come from events of the same class (metadata, note, other): the class can be read back from the text |
| `EventTooltip.ProfileViewOf` | src/components/EventTooltip.tsx:12-27 | every displayed field is non-empty; the image source is the picture or `/default-avatar.png`; the alt text is the name or `User`; the heading is the name or `Unknown`; the description is `about` or `No description` |
| `EventTooltip.EventTooltipView` | src/components/EventTooltip.tsx:9-42 | exactly one view, chosen by kind alone: the profile for kind 0, built from the decoded metadata; for kind 1, the first min(100, length) characters of the content followed by `...`; otherwise `Event ID: ` and the id |
| `EventTooltip.MalformedProfileView` | src/components/EventTooltip.tsx:10-25 | undecodable profile content shows the default avatar, `Unknown` as alt text and heading, and `No description` |
| `EventTooltip.ShortNoteTooltipsDisagree` | src/components/EventTooltip.tsx:29-33 | for a note of at most 50 characters the hover text has no ellipsis while the card always appends one |
| `NodeLinkVisualization.PubkeyNodes` | src/components/NodeLinkVisualization.tsx:30 | one `pubkey` node per key, at the key's position, with the key's id |
| `NodeLinkVisualization.EventNodes` | src/components/NodeLinkVisualization.tsx:31 | one `event` node per event, at the event's position, carrying the event unchanged |
| `NodeLinkVisualization.BuildNodes` | src/components/NodeLinkVisualization.tsx:29-32 | there are as many nodes as keys plus events; the key nodes come first in input order, then the event nodes in input order, each event unchanged |
| `NodeLinkVisualization.NodeIdsOfBuildNodes` | src/components/NodeLinkVisualization.tsx:29-32 | the node ids are exactly the key ids together with the event ids |
| `NodeLinkVisualization.RefTags` | src/components/NodeLinkVisualization.tsx:37 | a tag is kept if and only if it is in the input and its head is `"e"` or `"p"` |
| `NodeLinkVisualization.RefTagsAppend` | src/components/NodeLinkVisualization.tsx:36-38 | the tag filter distributes over concatenation, so kept tags stay in tag order |
| `NodeLinkVisualization.RefTagsCount` | src/components/NodeLinkVisualization.tsx:36-38 | the filter keeps exactly as many tags as there are `"e"`/`"p"` positions |
| `NodeLinkVisualization.TagLinks` | src/components/NodeLinkVisualization.tsx:36-38 | one link per kept tag, in tag order: link k goes from the event to the second element of the k-th `"e"`/`"p"` tag |
| `NodeLinkVisualization.TagLinkIff` | src/components/NodeLinkVisualization.tsx:36-38 | the event's tags yield the link `id -> x` if and only if some `"e"`/`"p"` tag names `x` |
| `NodeLinkVisualization.EventLinks` | src/components/NodeLinkVisualization.tsx:34-38 | an event's links are its author link first, then exactly its tag links, in tag order |
| `NodeLinkVisualization.AuthorLinkOnce` | src/components/NodeLinkVisualization.tsx:35 | when author and id differ, the author link occurs exactly once among the event's links |
| `NodeLinkVisualization.BuildLinks` | src/components/NodeLinkVisualization.tsx:34-39 | every event contributes at least one link |
| `NodeLinkVisualization.BuildLinksAppend` | src/components/NodeLinkVisualization.tsx:34-39 | the links of two event lists concatenated are the links of each list concatenated |
| `NodeLinkVisualization.LinksOfEvent` | src/components/NodeLinkVisualization.tsx:34-39 | the links of each event form one contiguous block; it starts where the previous event's block ends and ends where the next one's starts |
| `NodeLinkVisualization.LinkCountMatches` | src/components/NodeLinkVisualization.tsx:34-39 | the number of links is the sum over events of one plus the number of `"e"`/`"p"` tags |
| `NodeLinkVisualization.LinkIff` | src/components/NodeLinkVisualization.tsx:34-39 | a link is derived if and only if it is some event's author link or the link of one of its `"e"`/`"p"` tags, with no check on the endpoints |
| `NodeLinkVisualization.BuildGraph` | src/components/NodeLinkVisualization.tsx:29-39 | the graph has one node per key and per event, and as many links as the per-event count |
| `NodeLinkVisualization.LinksResolveIff` | src/components/NodeLinkVisualization.tsx:29-45 | every link endpoint names a node if and only if every author and every `"e"`/`"p"` target is a key or event id |
| `NodeLinkVisualization.DanglingTagLinkKept` | src/components/NodeLinkVisualization.tsx:36-38 | a tag naming no node still yields its link, so the links do not all resolve |
| `NodeLinkVisualization.EventNodesAppend` | src/components/NodeLinkVisualization.tsx:31 | the event nodes of two event lists concatenated are the event nodes of each list concatenated |
| `NodeLinkVisualization.NoDeduplication` | src/components/NodeLinkVisualization.tsx:29-39 | deriving from the events twice over repeats every event node and every link |
| `NodeLinkVisualization.NodeRadius` | src/components/NodeLinkVisualization.tsx:64 | key nodes have radius 10, and a node has radius 10 only if it is a key node; event nodes take the event size |
| `NodeLinkVisualization.NodeFill` | src/components/NodeLinkVisualization.tsx:65-66 | a node is filled `#FFA500` if and only if it is a key node; event nodes take the event colour |
| `NodeLinkVisualization.NodeTooltip` | src/components/NodeLinkVisualization.tsx:86-87 | the text starts with `PubKey: ` if and only if the node is a key node, and the key is what follows; event nodes show the event's hover text |
| `DummyFixture.ReplyLinks` | src/fixtures/dummy.ts:30-38 | the reply's links are its author link `pubkey3 -> event3`, then `event3 -> event1` and `event3 -> pubkey1` from its `"e"` and `"p"` tags |
| `DummyFixture.DummyLinks` | src/fixtures/dummy.ts:1-40 | the sample's links, grouped by event in event order: one author link for each untagged event, then the reply's author link and its `"e"` and `"p"` links |
| `DummyFixture.DummyNodes` | src/fixtures/dummy.ts:1-40 | the sample gives six nodes whose ids are the three keys and the three event ids |
| `DummyFixture.ShapeResolves` | src/fixtures/dummy.ts:1-40 | for any three keys and three events wired like the sample (each event signed by its own key, only the third tagged, naming the first event and the first key) every link endpoint names a node |
| `DummyFixture.DummyGraph` | src/fixtures/dummy.ts:1-40 | the sample gives six nodes and five links, and every link endpoint names a node |
| `DummyFixture.AliceHover` | src/fixtures/dummy.ts:8-20 | with a decoder that reads Alice's profile from its JSON text, her profile event's hover text is `User: Alice`, a newline character and `About: I love Nostr!` |
| `DummyFixture.AliceCard` | src/fixtures/dummy.ts:8-20 | with the same decoder her card shows her picture, her name as alt text and heading, and her description |
| `DummyFixture.KeyHover` | src/fixtures/dummy.ts:3 | the node of `pubkey1` shows `PubKey: pubkey1` |
## Left out

- The d3 force simulation, its tick handler and the node positions it writes
  (`src/components/NodeLinkVisualization.tsx:41-48`, `97-105`) are floating-point physics
  inside a foreign library. How d3 handles a link id that names no node is that library's
  behaviour and is not modelled. `LinksResolveIff` only states when that case arises.
- SVG and DOM construction, stroke and tooltip styling, the fade transitions, and tooltip
  placement from `pageX`/`pageY` and the window size are rendering and I/O. The hover
  text is inserted with `.html(content)` (`src/components/NodeLinkVisualization.tsx:89`),
  so the browser reads note content as markup and shows a newline as a space. The model
  gives the string before it is rendered.
- The React markup, the `Image` component and the CSS classes of the tooltip card are
  left out. Only the chosen view and the strings it shows are kept.
- `JSON.parse` is the `decode` parameter, and the `console.error` on failure is not
  modelled. A parse that succeeds with a value that is not an object of three strings is
  not modelled. For content `null`, `JSON.parse` returns `null` and reading `metadata.name`
  throws a `TypeError` outside the `try` (`src/utils/nostrUtils.ts:36`); the card throws
  the same way reading `metadata.picture` (`src/components/EventTooltip.tsx:16`). The
  model does not capture that throw. For a number, or an object missing `name`, the
  JavaScript shows `undefined` or falls back through `||`.
- NodeLinkVisualization.BuildGraph: requires every `"e"`/`"p"` tag to have a second
  element, because the source reads `tag[1]`, which is `undefined` for a one-element tag.
- Strings are sequences of characters. `slice` and `length` in JavaScript count UTF-16 code
  units, and surrogate pairs are not modelled.
- `kind` is an integer. JavaScript numbers that are not integers are not modelled.
- The `type` field (`"pubkey"`/`"event"`) of a node object is the constructor of `Node`.
  An event object that already had its own `type` field is not modelled.
- `next.config.mjs` is build configuration.
