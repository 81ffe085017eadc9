/** The subscriber body of `StartListeningToMessages`: how one incoming
    database event changes the page's message list. */
module Aggregation {
  import opened Wrappers
  import opened ChatMessages
  import opened TimestampOrder

  /** The two `.Where` filters: the event carries a message, and its sender
      is one of the two participants. */
  predicate FromConversation(item: Option<ChatMessage>, currentUser: string, otherUser: string)
  {
    item.Some? && (item.value.userName == Some(currentUser) || item.value.userName == Some(otherUser))
  }

  /** The two devices filter alike: swapping the current and the other user
      accepts the same events, and only events carrying a message from a
      named sender pass. */
  lemma FromConversationIsSymmetric(item: Option<ChatMessage>, currentUser: string, otherUser: string)
    ensures FromConversation(item, currentUser, otherUser) <==> FromConversation(item, otherUser, currentUser)
    ensures FromConversation(item, currentUser, otherUser) ==> item.Some? && item.value.userName.Some?
  {
  }

  /** The handler's first statements: mark who sent the message and fill in
      a missing time string with the formatted timestamp. */
  function Complete(m: ChatMessage, currentUser: string, formatTime: Instant -> string): (r: ChatMessage)
    ensures r.isFromCurrentUser <==> m.userName == Some(currentUser)
    ensures !IsNullOrEmpty(m.timeString) ==> r.timeString == m.timeString
    ensures IsNullOrEmpty(m.timeString) ==> r.timeString == Some(formatTime(m.timestamp))
    ensures r.(isFromCurrentUser := m.isFromCurrentUser, timeString := m.timeString) == m
  {
    m.(isFromCurrentUser := m.userName == Some(currentUser),
       timeString := if IsNullOrEmpty(m.timeString) then Some(formatTime(m.timestamp)) else m.timeString)
  }

  /** The event passes the filters and its message has no near duplicate in `s`. */
  predicate Accepts(s: seq<ChatMessage>, item: Option<ChatMessage>, currentUser: string, otherUser: string,
                    formatTime: Instant -> string)
  {
    FromConversation(item, currentUser, otherUser)
    && !HasNearDuplicate(s, Complete(item.value, currentUser, formatTime))
  }

  /** The list `_messages` holds as the page keeps it: ordered by time and
      free of near duplicates. */
  ghost predicate Consistent(s: seq<ChatMessage>)
  {
    Sorted(s) && NoNearDuplicates(s)
  }

  /** What the message list becomes when `item` arrives: unchanged when the
      event is filtered out or is a near duplicate; otherwise the completed
      message is added and the list re-sorted by timestamp. */
  function Receive(s: seq<ChatMessage>, item: Option<ChatMessage>, currentUser: string, otherUser: string,
                   formatTime: Instant -> string): (r: seq<ChatMessage>)
    ensures !FromConversation(item, currentUser, otherUser) ==> r == s
    ensures (FromConversation(item, currentUser, otherUser)
             && HasNearDuplicate(s, Complete(item.value, currentUser, formatTime))) ==> r == s
    ensures Accepts(s, item, currentUser, otherUser, formatTime) ==>
              multiset(r) == multiset(s) + multiset{Complete(item.value, currentUser, formatTime)}
              && |r| == |s| + 1
    ensures Accepts(s, item, currentUser, otherUser, formatTime) ==>
              Sorted(r) && Stable(s + [Complete(item.value, currentUser, formatTime)], r)
  {
    if !FromConversation(item, currentUser, otherUser) then s
    else
      var m := Complete(item.value, currentUser, formatTime);
      if HasNearDuplicate(s, m) then s
      else
        assert |s + [m]| == |s| + 1;
        OrderByTimestampIsStable(s + [m]);
        OrderByTimestamp(s + [m])
  }

  /** Receiving keeps the list consistent. */
  lemma ReceiveKeepsConsistent(s: seq<ChatMessage>, item: Option<ChatMessage>, currentUser: string,
                               otherUser: string, formatTime: Instant -> string)
    requires Consistent(s)
    ensures Consistent(Receive(s, item, currentUser, otherUser, formatTime))
  {
    if Accepts(s, item, currentUser, otherUser, formatTime) {
      var m := Complete(item.value, currentUser, formatTime);
      NoNearDuplicatesSnoc(s, m);
      OrderByKeepsNoNearDuplicates(s + [m]);
    }
  }

  /** Into a sorted list, an accepted message is inserted at one position,
      after every entry not later than it and before every later one; the
      old entries keep their order. */
  lemma ReceiveInserts(s: seq<ChatMessage>, item: Option<ChatMessage>, currentUser: string,
                       otherUser: string, formatTime: Instant -> string) returns (k: nat)
    requires Sorted(s)
    requires Accepts(s, item, currentUser, otherUser, formatTime)
    ensures k <= |s|
    ensures Receive(s, item, currentUser, otherUser, formatTime)
            == s[..k] + [Complete(item.value, currentUser, formatTime)] + s[k..]
    ensures forall i :: 0 <= i < k ==> s[i].timestamp <= item.value.timestamp
    ensures forall i :: k <= i < |s| ==> s[i].timestamp > item.value.timestamp
  {
    var m := Complete(item.value, currentUser, formatTime);
    OrderBySortedIsIdentity(s);
    assert (s + [m])[..|s|] == s;
    assert OrderByTimestamp(s + [m]) == InsertByTimestamp(s, m);
    k := InsertIntoSorted(s, m);
  }

  /** A redelivered event changes nothing: receiving the same event twice is
      receiving it once. */
  lemma ReceiveIsIdempotent(s: seq<ChatMessage>, item: Option<ChatMessage>, currentUser: string,
                            otherUser: string, formatTime: Instant -> string)
    ensures var r := Receive(s, item, currentUser, otherUser, formatTime);
            Receive(r, item, currentUser, otherUser, formatTime) == r
  {
    var r := Receive(s, item, currentUser, otherUser, formatTime);
    if Accepts(s, item, currentUser, otherUser, formatTime) {
      var m := Complete(item.value, currentUser, formatTime);
      assert m in multiset(r);
      HasNearDuplicateIn(r, m);
      assert NearDuplicate(m, m);
    }
  }

  /** The list after the events `items` arrive in order. */
  function ReceiveAll(s: seq<ChatMessage>, items: seq<Option<ChatMessage>>, currentUser: string,
                      otherUser: string, formatTime: Instant -> string): seq<ChatMessage>
    decreases |items|
  {
    if items == [] then s
    else ReceiveAll(Receive(s, items[0], currentUser, otherUser, formatTime), items[1..],
                    currentUser, otherUser, formatTime)
  }

  /** Starting from the empty list the page is created with, any sequence of
      arrivals leaves the list sorted and free of near duplicates. */
  lemma {:induction false} ArrivalsKeepConsistent(items: seq<Option<ChatMessage>>, currentUser: string,
                                                  otherUser: string, formatTime: Instant -> string)
    ensures Consistent(ReceiveAll([], items, currentUser, otherUser, formatTime))
  {
    ReceiveAllKeepsConsistent([], items, currentUser, otherUser, formatTime);
  }

  lemma {:induction false} ReceiveAllKeepsConsistent(s: seq<ChatMessage>, items: seq<Option<ChatMessage>>,
                                                     currentUser: string, otherUser: string,
                                                     formatTime: Instant -> string)
    requires Consistent(s)
    ensures Consistent(ReceiveAll(s, items, currentUser, otherUser, formatTime))
    decreases |items|
  {
    if items != [] {
      ReceiveKeepsConsistent(s, items[0], currentUser, otherUser, formatTime);
      ReceiveAllKeepsConsistent(Receive(s, items[0], currentUser, otherUser, formatTime), items[1..],
                                currentUser, otherUser, formatTime);
    }
  }

  /** "hi" from Fs arriving twice, one second apart, into an empty list
      shows one message. */
  lemma {:induction false} RepeatedArrivalShownOnce(t: Instant, formatTime: Instant -> string)
    ensures var hi := ChatMessage(Some("Fs"), Some("hi"), t, false, false, None, None, None, None);
            var again := hi.(timestamp := t + TicksPerSecond);
            |ReceiveAll([], [Some(hi), Some(again)], "Fs", "Mg", formatTime)| == 1
  {
    var hi := ChatMessage(Some("Fs"), Some("hi"), t, false, false, None, None, None, None);
    var again := hi.(timestamp := t + TicksPerSecond);
    var items := [Some(hi), Some(again)];
    var first := Receive([], Some(hi), "Fs", "Mg", formatTime);
    assert |first| == 1;
    var m := Complete(hi, "Fs", formatTime);
    assert first[0] == m by {
      assert m in multiset(first);
    }
    assert NearDuplicate(first[0], Complete(again, "Fs", formatTime));
    assert Receive(first, Some(again), "Fs", "Mg", formatTime) == first;
    assert items[0] == Some(hi) && items[1..] == [Some(again)] && items[1..][1..] == [];
    assert ReceiveAll([], items, "Fs", "Mg", formatTime) == ReceiveAll(first, [Some(again)], "Fs", "Mg", formatTime);
    assert ReceiveAll(first, [Some(again)], "Fs", "Mg", formatTime)
        == ReceiveAll(first, [], "Fs", "Mg", formatTime);
  }
}
