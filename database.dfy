/** The requests the page sends to the realtime database, as values: the
    database client itself is not part of this model. */
module Database {
  import opened Wrappers
  import opened ChatMessages
  import opened Participants

  /** The two record shapes the page writes (`UserStatus`, `TypingStatus`);
      the time is kept as an instant rather than its ISO-8601 text. */
  datatype Record =
    | UserStatus(isOnline: bool, lastSeen: Instant, name: string)
    | TypingStatus(isTyping: bool, timestamp: Instant, user: string)

  /** `PutAsync` (overwrite a node), `PostAsync` (add a child) and
      `AsObservable` (subscribe to a node), each with its node path. */
  datatype Request =
    | Put(path: seq<string>, record: Record)
    | Post(path: seq<string>, message: ChatMessage)
    | Listen(path: seq<string>)

  /** `SetUserOnlineStatus`. */
  function PresenceWrite(p: Pair, isOnline: bool, now: Instant): Request
  {
    Put(["activeUsers", UserKey(p.currentUser)], UserStatus(isOnline, now, p.currentUser))
  }

  /** `StartListeningToOnlineStatusSimple`. */
  function PresenceListen(p: Pair): Request
  {
    Listen(["activeUsers", UserKey(p.otherUser), "isOnline"])
  }

  /** `SetTypingStatus`, and the write `OnTextChanged` makes directly. */
  function TypingWrite(p: Pair, isTyping: bool, now: Instant): Request
  {
    Put(["typing", OutgoingTypingKey(p)], TypingStatus(isTyping, now, p.currentUser))
  }

  /** `StartListeningToTypingStatusSimple`. */
  function TypingListen(p: Pair): Request
  {
    Listen(["typing", IncomingTypingKey(p), "isTyping"])
  }

  /** `StartListeningToMessages`. */
  const MessagesListen: Request := Listen(["messages"])

  /** The `PostAsync` of `SendMessage`. */
  function MessagePost(m: ChatMessage): Request
  {
    Post(["messages"], m)
  }

  /** `InitializeChat`: go online, then subscribe to messages, the peer's
      presence and the peer's typing, in that order. */
  function InitializeChat(p: Pair, now: Instant): seq<Request>
  {
    [PresenceWrite(p, true, now), MessagesListen, PresenceListen(p), TypingListen(p)]
  }

  /** Once the second device has picked the remaining participant, the
      subscriptions each device's `InitializeChat` opens are exactly on the
      nodes the other device writes (its presence record's `isOnline`, its
      outgoing typing record's `isTyping`, and the list both post to), and a
      device never subscribes to the typing node it writes itself. */
  lemma {:induction false} PeersListenToEachOther(answer: NullableString, isOnline: bool, isTyping: bool,
                                                  now: Instant, later: Instant, m: ChatMessage)
    requires SelectUser(answer).Some?
    ensures var p := SelectUser(answer).value;
            var q := SelectUser(Some(p.otherUser)).value;
            var mine := InitializeChat(p, now);
            var theirs := InitializeChat(q, later);
            && theirs[1].path == MessagePost(m).path && mine[1].path == MessagePost(m).path
            && theirs[2].path == PresenceWrite(p, isOnline, now).path + ["isOnline"]
            && mine[2].path == PresenceWrite(q, isOnline, later).path + ["isOnline"]
            && theirs[3].path == TypingWrite(p, isTyping, now).path + ["isTyping"]
            && mine[3].path == TypingWrite(q, isTyping, later).path + ["isTyping"]
            && mine[3].path != TypingWrite(p, isTyping, now).path + ["isTyping"]
  {
    var p := SelectUser(answer).value;
    SelectedKeysMatch(answer);
    assert InitializeChat(p, now)[3].path[1] == IncomingTypingKey(p);
    assert (TypingWrite(p, isTyping, now).path + ["isTyping"])[1] == OutgoingTypingKey(p);
  }
}
