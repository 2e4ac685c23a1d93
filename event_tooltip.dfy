/** The rich hover card of an event, reduced to the strings it displays. */
module EventTooltip {
  import opened NostrTypes
  import JsText
  import NostrUtils

  /** Exactly one of three cards: a profile with avatar, a note preview, or a bare id. */
  datatype TooltipView =
    | ProfileView(imageSrc: string, imageAlt: string, name: string, about: string)
    | NoteView(text: string)
    | OtherView(text: string)

  const DefaultAvatar := "/default-avatar.png"

  /** The profile card for decoded metadata: each empty field shows its default. */
  function ProfileViewOf(m: UserMetadata): (v: TooltipView)
    ensures v.ProfileView?
    ensures v.imageSrc != "" && v.imageAlt != "" && v.name != "" && v.about != ""
    ensures m.picture != "" ==> v.imageSrc == m.picture
    ensures m.picture == "" ==> v.imageSrc == "/default-avatar.png"
    ensures m.name != "" ==> v.imageAlt == m.name && v.name == m.name
    ensures m.name == "" ==> v.imageAlt == "User" && v.name == "Unknown"
    ensures m.about != "" ==> v.about == m.about
    ensures m.about == "" ==> v.about == "No description"
  {
    ProfileView(
      JsText.Or(m.picture, DefaultAvatar),
      JsText.Or(m.name, "User"),
      JsText.Or(m.name, "Unknown"),
      JsText.Or(m.about, "No description"))
  }

  /** The card shown for an event, selected by its kind alone. A note shows at most
      one hundred characters of its content and is always followed by an ellipsis. */
  function EventTooltipView(decode: JsonDecoder, e: NostrEvent): (v: TooltipView)
    ensures v.ProfileView? <==> e.kind == 0
    ensures v.NoteView? <==> e.kind == 1
    ensures v.OtherView? <==> e.kind != 0 && e.kind != 1
    ensures e.kind == 0 ==> v == ProfileViewOf(NostrUtils.ParseUserMetadata(decode, e.content))
    ensures e.kind == 1 ==>
      |v.text| == (if |e.content| <= 100 then |e.content| else 100) + 3 &&
      v.text[..|v.text| - 3] <= e.content &&
      v.text[|v.text| - 3..] == "..."
    ensures v.OtherView? ==> v.text == "Event ID: " + e.id
  {
    if e.kind == 0 then
      ProfileViewOf(NostrUtils.ParseUserMetadata(decode, e.content))
    else if e.kind == 1 then
      NoteView(JsText.Slice(e.content, 100) + "...")
    else
      OtherView("Event ID: " + e.id)
  }

  /** A kind 0 event whose content does not parse shows the fallback profile:
      "Unknown" (also as the image's alternative text), "No description" and the
      default avatar. */
  lemma MalformedProfileView(decode: JsonDecoder, e: NostrEvent)
    requires e.kind == 0 && decode(e.content).None?
    ensures EventTooltipView(decode, e)
      == ProfileView("/default-avatar.png", "Unknown", "Unknown", "No description")
  {
  }

  /** For a note of at most fifty characters the two tooltips disagree: the hover
      text shows the content with no ellipsis, the card always appends one. */
  lemma ShortNoteTooltipsDisagree(decode: JsonDecoder, e: NostrEvent)
    requires e.kind == 1 && |e.content| <= 50
    ensures NostrUtils.EventTooltipContent(decode, e) == "Note: " + e.content
    ensures EventTooltipView(decode, e) == NoteView(e.content + "...")
  {
    var v := EventTooltipView(decode, e);
    assert v.text[..|v.text| - 3] == e.content;
    assert v.text == v.text[..|v.text| - 3] + v.text[|v.text| - 3..];
  }
}
