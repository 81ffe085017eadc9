/** The state `MainPage` keeps and the handlers that change it. Database
    requests are appended to `outbox` in the order the page issues them. */
module ChatPage {
  import opened Wrappers
  import opened ChatMessages
  import opened TimestampOrder
  import opened Aggregation
  import opened Participants
  import opened Database
  import opened Sending
  import opened Typing

  /** The typing write for a debounce step's output, if it has one. */
  function TypingWrites(p: Pair, out: Option<bool>, now: Instant): seq<Request>
  {
    if out.Some? then [TypingWrite(p, out.value, now)] else []
  }

  class MainPage {
    /** `_messages`, as the list it holds. */
    var messages: seq<ChatMessage>
    var currentUser: string
    var otherUser: string
    var lastTypingTime: Instant
    var typingTimerRunning: bool
    var onlineTimerRunning: bool
    /** The requests issued to the database so far. */
    var outbox: seq<Request>

    /** The message list is always sorted by time and free of near duplicates. */
    ghost predicate Valid()
      reads this
    {
      Consistent(messages)
    }

    function Conversation(): Pair
      reads this
    {
      Pair(currentUser, otherUser)
    }

    function TypingState(): Debounce
      reads this
    {
      Debounce(lastTypingTime, typingTimerRunning)
    }

    constructor ()
      ensures Valid()
      ensures messages == [] && currentUser == "" && otherUser == ""
      ensures TypingState() == Initial && !onlineTimerRunning && outbox == []
    {
      messages := [];
      currentUser, otherUser := "", "";
      lastTypingTime, typingTimerRunning := 0, false;
      onlineTimerRunning := false;
      outbox := [];
    }

    /** `SetUserOnlineStatus`. */
    method SetUserOnlineStatus(isOnline: bool, now: Instant)
      modifies this`outbox
      ensures outbox == old(outbox) + [PresenceWrite(Conversation(), isOnline, now)]
    {
      outbox := outbox + [PresenceWrite(Conversation(), isOnline, now)];
    }

    /** `SetTypingStatus`. */
    method SetTypingStatus(isTyping: bool, now: Instant)
      modifies this`outbox
      ensures outbox == old(outbox) + [TypingWrite(Conversation(), isTyping, now)]
    {
      outbox := outbox + [TypingWrite(Conversation(), isTyping, now)];
    }

    /** `ShowUserSelection` with the action sheet's answer, followed on a
        valid answer by `InitializeChat`. On any other answer nothing
        changes and the caller asks again. */
    method ShowUserSelection(answer: NullableString, now: Instant) returns (selected: bool)
      modifies this
      ensures selected <==> SelectUser(answer).Some?
      ensures selected ==> Conversation() == SelectUser(answer).value && onlineTimerRunning
      ensures selected ==> outbox == old(outbox) + InitializeChat(Conversation(), now)
      ensures selected ==> messages == old(messages) && TypingState() == old(TypingState())
      ensures !selected ==> unchanged(this)
    {
      if answer == Some(UserFs) {
        currentUser, otherUser := UserFs, UserMg;
      } else if answer == Some(UserMg) {
        currentUser, otherUser := UserMg, UserFs;
      } else {
        return false;
      }
      selected := true;
      SetUserOnlineStatus(true, now);
      onlineTimerRunning := true;
      outbox := outbox + [MessagesListen, PresenceListen(Conversation()), TypingListen(Conversation())];
    }

    /** The five-second presence timer: renews the online record. */
    method OnlineTimerElapsed(now: Instant)
      modifies this`outbox
      ensures outbox == old(outbox) + (if onlineTimerRunning then [PresenceWrite(Conversation(), true, now)] else [])
    {
      if onlineTimerRunning {
        SetUserOnlineStatus(true, now);
      }
    }

    /** The message subscriber: filter, complete, reject near duplicates,
        otherwise add and rebuild the list in timestamp order. */
    method ReceiveMessage(item: Option<ChatMessage>, formatTime: Instant -> string)
      requires Valid()
      modifies this`messages
      ensures Valid()
      ensures messages == Receive(old(messages), item, currentUser, otherUser, formatTime)
    {
      ghost var before := messages;
      ReceiveKeepsConsistent(before, item, currentUser, otherUser, formatTime);
      if !FromConversation(item, currentUser, otherUser) {
        return;
      }
      var message := Complete(item.value, currentUser, formatTime);
      if !HasNearDuplicate(messages, message) {
        messages := messages + [message];
        var sortedMessages := OrderByTimestamp(messages);
        messages := [];
        for i := 0 to |sortedMessages|
          invariant messages == sortedMessages[..i]
        {
          messages := messages + [sortedMessages[i]];
        }
        assert sortedMessages[..|sortedMessages|] == sortedMessages;
      }
    }

    /** `SendMessage` with the entry's text. When there is a message it is
        posted; if the post succeeds the entry is cleared and typing is
        switched off, and if it fails the page only shows an alert. */
    method SendMessage(entryText: NullableString, now: Instant, formatTime: Instant -> string,
                       postSucceeds: bool) returns (clearEntry: bool)
      modifies this`outbox
      ensures Compose(entryText, currentUser, now, formatTime).None? ==> outbox == old(outbox) && !clearEntry
      ensures Compose(entryText, currentUser, now, formatTime).Some? ==>
                clearEntry == postSucceeds
                && outbox == old(outbox) + [MessagePost(Compose(entryText, currentUser, now, formatTime).value)]
                             + (if postSucceeds then [TypingWrite(Conversation(), false, now)] else [])
    {
      var chatMessage := Compose(entryText, currentUser, now, formatTime);
      if chatMessage.None? {
        return false;
      }
      outbox := outbox + [MessagePost(chatMessage.value)];
      if !postSucceeds {
        return false;
      }
      clearEntry := true;
      SetTypingStatus(false, now);
    }

    /** `OnTextChanged` with the event's old and new text. */
    method OnTextChanged(oldText: NullableString, newText: NullableString, now: Instant)
      modifies this`lastTypingTime, this`typingTimerRunning, this`outbox
      ensures TypingState() == TextChanged(old(TypingState()), oldText, newText, now).0
      ensures outbox == old(outbox) + TypingWrites(Conversation(), TextChanged(old(TypingState()), oldText, newText, now).1, now)
    {
      lastTypingTime := now;
      if !IsNullOrEmpty(newText) && newText != oldText {
        outbox := outbox + [TypingWrite(Conversation(), true, now)];
        typingTimerRunning := true;
      } else if IsNullOrEmpty(newText) {
        SetTypingStatus(false, now);
      }
    }

    /** The typing timer's `Elapsed` handler. */
    method TypingTimerElapsed(now: Instant)
      modifies this`typingTimerRunning, this`outbox
      ensures TypingState() == TimerElapsed(old(TypingState()), now).0
      ensures outbox == old(outbox) + TypingWrites(Conversation(), TimerElapsed(old(TypingState()), now).1, now)
    {
      if typingTimerRunning && now - lastTypingTime >= QuietWindow {
        SetTypingStatus(false, now);
        typingTimerRunning := false;
      }
    }
  }
}
