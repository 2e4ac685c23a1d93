/** Per-kind display helpers: colour, size, profile decoding and tooltip text. */
module NostrUtils {
  import opened NostrTypes
  import JsText

  /** Fill colour of an event: green for metadata, blue for text notes, grey otherwise. */
  function EventColor(e: NostrEvent): (r: string)
    ensures r == "#4CAF50" <==> e.kind == 0
    ensures r == "#2196F3" <==> e.kind == 1
    ensures r == "#9E9E9E" <==> e.kind != 0 && e.kind != 1
  {
    match e.kind
    case 0 => "#4CAF50"
    case 1 => "#2196F3"
    case _ => "#9E9E9E"
  }

  /** Circle radius of an event; metadata events are drawn strictly largest. */
  function EventSize(e: NostrEvent): (r: int)
    ensures r in {4, 5, 8}
    ensures r == 8 <==> e.kind == 0
    ensures r == 5 <==> e.kind == 1
    ensures e.kind != 0 ==> r < 8
  {
    match e.kind
    case 0 => 8
    case 1 => 5
    case _ => 4
  }

  /** The profile used when the content of a kind 0 event does not parse. */
  const FallbackMetadata := UserMetadata("Unknown", "", "")

  /** Decodes profile metadata; a parse failure is caught and replaced by the fallback. */
  function ParseUserMetadata(decode: JsonDecoder, content: string): (m: UserMetadata)
    ensures decode(content).Some? ==> m == decode(content).value
    ensures decode(content).None? ==> m == UserMetadata("Unknown", "", "")
  {
    match decode(content)
    case Some(parsed) => parsed
    case None => FallbackMetadata
  }

  /** The fixed opening of the tooltip text, chosen by the kind alone. */
  function TooltipPrefix(kind: int): string
  {
    if kind == 0 then "User: " else if kind == 1 then "Note: " else "Event: "
  }

  /** Hover text of an event node. */
  function EventTooltipContent(decode: JsonDecoder, e: NostrEvent): (r: string)
    ensures TooltipPrefix(e.kind) <= r
    ensures e.kind == 0 ==>
      var m := ParseUserMetadata(decode, e.content);
      r == "User: " + m.name + "\nAbout: " + m.about
    ensures e.kind == 1 && |e.content| <= 50 ==> r == "Note: " + e.content
    ensures e.kind == 1 && |e.content| > 50 ==> r == "Note: " + e.content[..50] + "..."
    ensures e.kind != 0 && e.kind != 1 ==> r == "Event: " + e.id
  {
    match e.kind
    case 0 =>
      var metadata := ParseUserMetadata(decode, e.content);
      "User: " + metadata.name + "\nAbout: " + metadata.about
    case 1 =>
      "Note: " + JsText.Slice(e.content, 50) + (if |e.content| > 50 then "..." else "")
    case _ =>
      "Event: " + e.id
  }

  /** A kind 0 event whose content does not parse reads as the fallback profile. */
  lemma MalformedProfileTooltip(decode: JsonDecoder, e: NostrEvent)
    requires e.kind == 0 && decode(e.content).None?
    ensures EventTooltipContent(decode, e) == "User: Unknown\nAbout: "
  {
  }

  /** A note tooltip never exceeds its prefix, fifty characters and the ellipsis,
      and the ellipsis is there exactly when the content was cut. */
  lemma NoteTooltipBounded(decode: JsonDecoder, e: NostrEvent)
    requires e.kind == 1
    ensures var r := EventTooltipContent(decode, e);
      |r| <= 59 &&
      (|e.content| <= 50 ==> r[6..] == e.content) &&
      (|e.content| > 50 ==> |r| == 59 && r[6..56] == e.content[..50] && r[56..] == "...")
  {
    var r := EventTooltipContent(decode, e);
    if |e.content| > 50 {
      assert r == "Note: " + e.content[..50] + "...";
      assert r[6..56] == e.content[..50];
    }
  }

  /** The kind class (metadata, note, other) can be read back from the tooltip text:
      equal texts come from events of the same class. */
  lemma {:induction false} TooltipDeterminesKindClass(decode: JsonDecoder, e1: NostrEvent, e2: NostrEvent)
    requires EventTooltipContent(decode, e1) == EventTooltipContent(decode, e2)
    ensures e1.kind == 0 <==> e2.kind == 0
    ensures e1.kind == 1 <==> e2.kind == 1
  {
    var r := EventTooltipContent(decode, e1);
    var p1, p2 := TooltipPrefix(e1.kind), TooltipPrefix(e2.kind);
    assert p1 <= r && p2 <= r;
    assert p1[0] == r[0] == p2[0];
  }
}
