/** `showError` (src/script.js:65-99): which text an error message is shown
    as, and the single notification slot `currentErrorElement`. A shown
    notification is identified by a number standing for the identity of its
    DOM element; the page itself is not modelled. */
module Notification {
  import opened Wrappers
  import opened JsText

  const NetworkMessage := "Network error. Please check your connection."
  const ServerMessage := "Server error. Please try again later."

  /** The text displayed for `message`: a message mentioning "Failed to" or
      "failed to" that has a colon is cut down to its second colon-separated
      piece, trimmed; a network failure or a JSON parse failure anywhere in
      the message replaces the text with a fixed one. */
  function DisplayText(message: string): string {
    var parts := Split(message, ':');
    var shown :=
      if (Contains(message, "Failed to") || Contains(message, "failed to")) && |parts| > 1
      then Trim(parts[1])
      else message;
    if Contains(message, "Failed to fetch") then NetworkMessage
    else if Contains(message, "Unexpected token") then ServerMessage
    else shown
  }

  /** Whatever is displayed is one of the two fixed texts or a part of the
      message itself. */
  lemma DisplayTextFromMessage(message: string)
    ensures var d := DisplayText(message);
      d == NetworkMessage || d == ServerMessage || Contains(message, d)
  {
    var parts := Split(message, ':');
    if |parts| > 1 {
      SplitPiecesOccur(message, ':', 1);
      TrimSpec(parts[1]);
      var lo := |parts[1]| - |TrimStart(parts[1])|;
      assert OccursAt(parts[1], Trim(parts[1]), lo);
      ContainsTransitive(message, parts[1], Trim(parts[1]));
    }
    ContainsSelf(message);
  }

  /** "Failed to fetch" anywhere in the message shows the network text. */
  lemma FetchFailureShownAsNetworkError(message: string)
    requires Contains(message, "Failed to fetch")
    ensures DisplayText(message) == NetworkMessage
  {
  }

  /** Otherwise "Unexpected token" anywhere shows the server-error text. */
  lemma ParseFailureShownAsServerError(message: string)
    requires !Contains(message, "Failed to fetch") && Contains(message, "Unexpected token")
    ensures DisplayText(message) == ServerMessage
  {
  }

  /** A message that mentions neither "Failed to"/"failed to" nor
      "Unexpected token", or one that has no colon, is shown as it is. */
  lemma MessageShownVerbatim(message: string)
    requires !Contains(message, "Unexpected token")
    requires (!Contains(message, "Failed to") && !Contains(message, "failed to")) || ':' !in message
    requires !Contains(message, "Failed to fetch")
    ensures DisplayText(message) == message
  {
    SplitCount(message, ':');
  }

  /** A message built as `prefix + ":" + rest`, whose prefix mentions
      "Failed to" (or "failed to") and has no colon, is shown as the part of
      `rest` before its first colon, trimmed; the prefix is never shown. */
  lemma PrefixedMessageKeepsSecondPart(message: string, prefix: string, rest: string)
    requires message == prefix + [':'] + rest
    requires ':' !in prefix
    requires Contains(prefix, "Failed to") || Contains(prefix, "failed to")
    requires !Contains(message, "Failed to fetch") && !Contains(message, "Unexpected token")
    ensures DisplayText(message) == Trim(Split(rest, ':')[0])
  {
    SecondPieceAfterPrefix(message, prefix, rest);
    MentionSurvivesSuffix(message, prefix, rest);
    FailureMessageKeepsSecondPart(message);
  }

  lemma SecondPieceAfterPrefix(message: string, prefix: string, rest: string)
    requires message == prefix + [':'] + rest
    requires ':' !in prefix
    ensures |Split(message, ':')| > 1 && Split(message, ':')[1] == Split(rest, ':')[0]
  {
    SplitAfterFirst(prefix, ':', rest);
  }

  /** A mention of a failure survives text appended to it. */
  lemma MentionSurvivesSuffix(message: string, prefix: string, rest: string)
    requires message == prefix + [':'] + rest
    requires Contains(prefix, "Failed to") || Contains(prefix, "failed to")
    ensures Contains(message, "Failed to") || Contains(message, "failed to")
  {
    assert [] + prefix + ([':'] + rest) == message;
    if Contains(prefix, "Failed to") {
      ContainsInContext([], prefix, [':'] + rest, "Failed to");
    } else {
      ContainsInContext([], prefix, [':'] + rest, "failed to");
    }
  }

  /** The general rule behind the previous lemma. */
  lemma FailureMessageKeepsSecondPart(message: string)
    requires Contains(message, "Failed to") || Contains(message, "failed to")
    requires |Split(message, ':')| > 1
    requires !Contains(message, "Failed to fetch") && !Contains(message, "Unexpected token")
    ensures DisplayText(message) == Trim(Split(message, ':')[1])
  {
  }

  /** A failure message that is cut at its colons never shows a colon. */
  lemma CutMessageHasNoColon(message: string)
    requires Contains(message, "Failed to") || Contains(message, "failed to")
    requires ':' in message
    requires !Contains(message, "Failed to fetch") && !Contains(message, "Unexpected token")
    ensures ':' !in DisplayText(message)
  {
    SplitCount(message, ':');
    FailureMessageKeepsSecondPart(message);
    PieceHasNoSeparator(message, ':', 1);
    TrimAddsNothing(Split(message, ':')[1], ':');
  }

  // ---------------------------------------------------------------------
  // the single slot

  /** A notification on the page: its element's identity and its text. */
  datatype Notice = Notice(id: nat, text: string)

  /** `currentErrorElement`, and the identity the next element will get. */
  datatype Slot = Slot(current: Option<Notice>, nextId: nat)

  /** Every identity in use is below `nextId`. */
  predicate SlotValid(slot: Slot) {
    slot.current.Some? ==> slot.current.value.id < slot.nextId
  }

  /** `showError(message)`: the current notification is removed and a new
      one, with a fresh identity, takes the slot. */
  function ShowNotice(slot: Slot, message: string): (r: Slot)
    ensures SlotValid(r)
  {
    Slot(Some(Notice(slot.nextId, DisplayText(message))), slot.nextId + 1)
  }

  /** The timer set for notification `id` fires: it clears the slot only if
      the slot still holds that very notification. */
  function TimerFires(slot: Slot, id: nat): (r: Slot)
    ensures SlotValid(slot) ==> SlotValid(r)
  {
    if slot.current.Some? && slot.current.value.id == id then Slot(None, slot.nextId) else slot
  }

  /** The notice shown is new: no earlier notice had its identity. */
  lemma ShowNoticeIsFresh(slot: Slot, message: string)
    requires SlotValid(slot)
    ensures var r := ShowNotice(slot, message);
      r.current.Some? && r.current.value.text == DisplayText(message) &&
      (slot.current.Some? ==> r.current.value.id != slot.current.value.id)
  {
  }

  /** The timer of a notice that has since been replaced leaves the newer
      notice in place. */
  lemma StaleTimerIgnored(slot: Slot, first: string, second: string)
    requires SlotValid(slot)
    ensures var s1 := ShowNotice(slot, first);
      var s2 := ShowNotice(s1, second);
      TimerFires(s2, s1.current.value.id) == s2
  {
  }

  /** The timer of the notice still shown empties the slot. */
  lemma CurrentTimerClears(slot: Slot, message: string)
    ensures var s1 := ShowNotice(slot, message);
      TimerFires(s1, s1.current.value.id).current == None
  {
  }
}
