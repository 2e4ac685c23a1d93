/** The records exchanged by the visualiser: Nostr events, public keys and the
    profile metadata carried by kind 0 events (NIP-01, "Events and signatures"). */
module NostrTypes {

  datatype Option<T> = None | Some(value: T)

  /** A public key shown as a node of its own. */
  datatype PubKey = PubKey(id: string)

  /** A Nostr event. `createdAt` is the wire field `created_at` (seconds);
      `tags` is the list of tag arrays, each a list of strings. */
  datatype NostrEvent = NostrEvent(
    kind: int,
    content: string,
    createdAt: int,
    id: string,
    pubkey: string,
    tags: seq<seq<string>>,
    sig: string)

  /** The profile decoded from the content of a kind 0 event. */
  datatype UserMetadata = UserMetadata(name: string, about: string, picture: string)

  /** `JSON.parse` applied to event content and read as a profile: `None` when it throws. */
  type JsonDecoder = string -> Option<UserMetadata>
}

/** The two pieces of JavaScript string semantics the display code relies on. */
module JsText {

  /** `s.slice(0, n)` for a non-negative `n`: the first `min(n, |s|)` characters. */
  function Slice(s: string, n: nat): (r: string)
    ensures |r| == if |s| <= n then |s| else n
    ensures r <= s
  {
    if |s| <= n then s else s[..n]
  }

  /** `s || fallback` on strings: the empty string is the only falsy string. */
  function Or(s: string, fallback: string): (r: string)
    ensures s != "" ==> r == s
    ensures s == "" ==> r == fallback
  {
    if s == "" then fallback else s
  }
}
