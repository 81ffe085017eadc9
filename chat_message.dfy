/** The `ChatMessage` record of MainPage.cs and the duplicate rule the page
    applies to incoming messages. */
module ChatMessages {
  import opened Wrappers

  /** A `DateTime`, as its count of 100-nanosecond ticks. */
  type Instant = int

  const TicksPerSecond: int := 10_000_000

  /** Two messages less than this far apart may be duplicates of each other. */
  const DuplicateWindow: int := 2 * TicksPerSecond

  /** Every property of the C# class, in declaration order; the reference
      properties may be null. */
  datatype ChatMessage = ChatMessage(
    userName: NullableString,
    message: NullableString,
    timestamp: Instant,
    isFromCurrentUser: bool,
    isSystemMessage: bool,
    timeString: NullableString,
    userNameColor: NullableString,
    messageTextColor: NullableString,
    timeTextColor: NullableString)

  function Abs(x: int): (r: nat)
    ensures r == x || r == -x
  {
    if x < 0 then -x else x
  }

  /** `a` and `b` come from the same sender, carry the same text and are
      less than two seconds apart. */
  predicate NearDuplicate(a: ChatMessage, b: ChatMessage)
  {
    a.userName == b.userName && a.message == b.message
    && Abs(a.timestamp - b.timestamp) < DuplicateWindow
  }

  /** The `_messages.Any(...)` test: some entry of `s` is a near duplicate of `m`. */
  predicate HasNearDuplicate(s: seq<ChatMessage>, m: ChatMessage)
  {
    exists i :: 0 <= i < |s| && NearDuplicate(s[i], m)
  }

  /** No two entries of `s` are near duplicates of each other. */
  ghost predicate NoNearDuplicates(s: seq<ChatMessage>)
  {
    forall i, j :: 0 <= i < j < |s| ==> !NearDuplicate(s[i], s[j])
  }

  /** Appending `y` keeps `s` free of near duplicates exactly when `y` has no
      near duplicate in `s`. */
  lemma NoNearDuplicatesSnoc(s: seq<ChatMessage>, y: ChatMessage)
    ensures NoNearDuplicates(s + [y]) <==> NoNearDuplicates(s) && !HasNearDuplicate(s, y)
  {
    var t := s + [y];
    if NoNearDuplicates(t) {
      assert forall i, j :: 0 <= i < j < |s| ==> s[i] == t[i] && s[j] == t[j];
      assert forall i :: 0 <= i < |s| ==> t[i] == s[i] && t[|s|] == y && !NearDuplicate(t[i], t[|s|]);
    }
  }

  /** The near-duplicate test does not depend on which of the two messages
      is the one on screen, and a message is a near duplicate of itself, so
      an exact repeat is always caught. */
  lemma NearDuplicateIsSymmetric(a: ChatMessage, b: ChatMessage)
    ensures NearDuplicate(a, b) <==> NearDuplicate(b, a)
    ensures NearDuplicate(a, a)
  {
  }

  /** Membership form of `HasNearDuplicate`; in particular a message already
      in `s` has a near duplicate there. */
  lemma HasNearDuplicateIn(s: seq<ChatMessage>, m: ChatMessage)
    ensures HasNearDuplicate(s, m) <==> exists e :: e in s && NearDuplicate(e, m)
    ensures m in s ==> HasNearDuplicate(s, m)
  {
    if m in s {
      var i :| 0 <= i < |s| && s[i] == m;
      assert NearDuplicate(s[i], m);
    }
  }
}
