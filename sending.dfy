/** The validation and message construction of `SendMessage`. */
module Sending {
  import opened Wrappers
  import opened ChatMessages
  import opened TextInput
  import opened Aggregation

  const UserNameColor: string := "#007800"
  const MessageTextColor: string := "#FFFFFF"
  const TimeTextColor: string := "#C8DCFF"

  /** `messageEntry?.Text?.Trim()` and the `IsNullOrEmpty` return, then the
      `ChatMessage` initialiser: no message when there is no text or only
      white space, otherwise the trimmed text sent as the current user. */
  function Compose(entryText: NullableString, currentUser: string, now: Instant,
                   formatTime: Instant -> string): (r: Option<ChatMessage>)
    ensures r.None? <==> entryText.None? || AllWhiteSpace(entryText.value)
    ensures r.Some? ==> r.value.message == Some(Trim(entryText.value)) && Trim(entryText.value) != ""
    ensures r.Some? ==> r.value.userName == Some(currentUser) && r.value.isFromCurrentUser
    ensures r.Some? ==> r.value.timestamp == now && r.value.timeString == Some(formatTime(now))
    ensures r.Some? ==> !r.value.isSystemMessage
  {
    if entryText.None? then None
    else
      var text := Trim(entryText.value);
      TrimEmptyIffWhiteSpace(entryText.value);
      if IsNullOrEmpty(Some(text)) then None
      else Some(ChatMessage(
        userName := Some(currentUser),
        message := Some(text),
        timestamp := now,
        isFromCurrentUser := true,
        isSystemMessage := false,
        timeString := Some(formatTime(now)),
        userNameColor := Some(UserNameColor),
        messageTextColor := Some(MessageTextColor),
        timeTextColor := Some(TimeTextColor)))
  }

  /** A sent message comes back through the sender's own subscription as it
      was sent: it passes the filters, completing it changes nothing, and it
      is shown unless a near duplicate is already on screen. */
  lemma SentMessageEchoes(s: seq<ChatMessage>, entryText: NullableString, currentUser: string,
                          otherUser: string, now: Instant, formatTime: Instant -> string)
    requires Compose(entryText, currentUser, now, formatTime).Some?
    ensures var m := Compose(entryText, currentUser, now, formatTime).value;
            && FromConversation(Some(m), currentUser, otherUser)
            && Complete(m, currentUser, formatTime) == m
            && (!HasNearDuplicate(s, m) <==> m in Receive(s, Some(m), currentUser, otherUser, formatTime)
                                             && |Receive(s, Some(m), currentUser, otherUser, formatTime)| == |s| + 1)
  {
    var m := Compose(entryText, currentUser, now, formatTime).value;
    var r := Receive(s, Some(m), currentUser, otherUser, formatTime);
    if !HasNearDuplicate(s, m) {
      assert m in multiset(r);
    }
  }

  /** The same text sent twice less than two seconds apart, for example by a
      retried send, adds at most one entry to the list, and exactly the first
      one when the list held no near duplicate of it. */
  lemma {:induction false} RepeatedSendShownOnce(s: seq<ChatMessage>, entryText: NullableString,
                                                 currentUser: string, otherUser: string,
                                                 t1: Instant, t2: Instant, formatTime: Instant -> string)
    requires Compose(entryText, currentUser, t1, formatTime).Some?
    requires Abs(t2 - t1) < DuplicateWindow
    ensures var m1 := Compose(entryText, currentUser, t1, formatTime).value;
            var m2 := Compose(entryText, currentUser, t2, formatTime).value;
            var r := Receive(s, Some(m1), currentUser, otherUser, formatTime);
            && |Receive(r, Some(m2), currentUser, otherUser, formatTime)| <= |s| + 1
            && (!HasNearDuplicate(s, m1) ==> Receive(r, Some(m2), currentUser, otherUser, formatTime) == r)
  {
    var m1 := Compose(entryText, currentUser, t1, formatTime).value;
    var m2 := Compose(entryText, currentUser, t2, formatTime).value;
    SentMessageEchoes(s, entryText, currentUser, otherUser, t1, formatTime);
    var r := Receive(s, Some(m1), currentUser, otherUser, formatTime);
    SentMessageEchoes(r, entryText, currentUser, otherUser, t2, formatTime);
    if !HasNearDuplicate(s, m1) {
      assert NearDuplicate(m1, m2);
      HasNearDuplicateIn(r, m2);
    }
  }
}
