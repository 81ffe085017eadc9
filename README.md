# FirebaseMauiApp chat page, modelled in Dafny

FirebaseMauiApp is a two-person chat screen (users `Fs` and `Mg`) whose
`MainPage` reads and writes a hosted realtime database. This project models
the sequential logic of that page:

- the **message aggregator**: the subscriber of `StartListeningToMessages`.
  It drops events without a message or from anyone outside the pair. It
  marks each message as the current user's or not, and fills in a missing
  time string. It rejects near duplicates: same sender, same text, less than
  two seconds apart. Anything else it adds, then rebuilds the list in stable
  timestamp order.
- **sending**: the entry text is trimmed; empty text sends nothing;
  otherwise a `ChatMessage` from the current user is posted.
- **participants and keys**: picking one user makes the other the peer.
  Both the presence node (`user1`/`user2`) and the typing nodes
  (`<from>To<to>`) are derived from the names.
- **typing debounce**: every text change records its time. New non-empty
  text writes typing = true and restarts a timer. Empty text writes
  typing = false. The timer clears typing once two seconds have passed
  since the last change.

Modules, one file each:

- `Wrappers`: `Option`, with nullable C# strings as `Option<string>`.
- `ChatMessages`: the `ChatMessage` record and the near-duplicate rule.
- `TimestampOrder`: LINQ's stable `OrderBy(m => m.Timestamp)`, written as
  an insertion sort. It is proved sorted, a permutation and stable.
- `Aggregation`: the subscriber as a function on the message list, with
  the list invariant (sorted, no near duplicates) and its preservation over
  any run of arrivals.
- `Participants`: user selection and key derivation.
- `Database`: the page's database requests (`Put`, `Post`, `Listen`) as
  values. The functions that build them (`PresenceWrite`, `PresenceListen`,
  `TypingWrite`, `TypingListen`, `MessagePost`, `InitializeChat`) only
  assemble a path and a record; what they mean together is stated by
  `PeersListenToEachOther` and by the `MainPage` methods that issue them.
- `TextInput`: `string.Trim` over `char.IsWhiteSpace`.
- `Sending`: validation and construction of the outgoing message.
- `Typing`: the debounce as a state machine over time, with runs of events.
- `ChatPage`: class `MainPage`. Its fields are the page's state:
  `_messages`, `_currentUser`, `_otherUser`, `_lastTypingTime`, the two
  timers, and a log of issued requests. Its methods are the page's handlers.
  Each is proved against the functions above.

Time is an integer count of `DateTime` ticks (100 ns), so the two-second
comparisons are exact. I/O is left out: the database client, the clock, the
time-of-day formatter, the action sheet's answer and whether a post succeeds
are all parameters. Database requests become entries of `MainPage.outbox`.

The page assigns no message ids. Messages with equal timestamps keep the
order they had in the list. Presence has no expiry when it is read. Typing
is cleared only by the page's own timer and writes.

## Model

| member | source | states |
|---|---|---|
| `ChatMessages.NearDuplicateIsSymmetric` | FirebaseMauiApp/MainPage.cs:202-204 | the duplicate test gives the same answer with the two messages swapped, and an exact repeat of a message is always a near duplicate of it |
| `ChatMessages.HasNearDuplicateIn` | FirebaseMauiApp/MainPage.cs:202-204 | the `.Any` test holds exactly when some entry of the list is a near duplicate; a message already on screen always has one |
| `ChatMessages.NoNearDuplicatesSnoc` | FirebaseMauiApp/MainPage.cs:202-206 | appending a message keeps a list free of near duplicates exactly when the list has no near duplicate of it (the `.Any` test) |
| `TimestampOrder.InsertByTimestamp` | FirebaseMauiApp/MainPage.cs:209 | inserting adds exactly the one message and removes none (multiset) |
| `TimestampOrder.InsertKeepsSorted` | FirebaseMauiApp/MainPage.cs:209 | inserting a message into a list ordered by timestamp leaves it ordered |
| `TimestampOrder.OrderByTimestamp` | FirebaseMauiApp/MainPage.cs:209 | the ordered list is a permutation of its input and non-decreasing by timestamp |
| `TimestampOrder.InsertByTimestampIsStable` | FirebaseMauiApp/MainPage.cs:209 | inserting keeps every timestamp's entries in the order they have in the list with the new message appended |
| `TimestampOrder.OrderByTimestampIsStable` | FirebaseMauiApp/MainPage.cs:209 | the order is stable: entries with equal timestamps keep their relative order |
| `TimestampOrder.OrderBySortedIsIdentity` | FirebaseMauiApp/MainPage.cs:209-214 | ordering an already ordered list changes nothing |
| `TimestampOrder.InsertIntoSorted` | FirebaseMauiApp/MainPage.cs:206-214 | into a sorted list the message lands at one index k: after every entry not later than it, before every later one, with everything else in place |
| `TimestampOrder.InsertKeepsNoNearDuplicates` | FirebaseMauiApp/MainPage.cs:202-214 | inserting a message with no near duplicate keeps the list free of near duplicates |
| `TimestampOrder.OrderByKeepsNoNearDuplicates` | FirebaseMauiApp/MainPage.cs:209 | re-ordering keeps a list free of near duplicates |
| `Aggregation.FromConversationIsSymmetric` | FirebaseMauiApp/MainPage.cs:185-187 | the two filters accept the same events whichever of the two users is the current one, and only events with a message from a named sender |
| `Aggregation.Complete` | FirebaseMauiApp/MainPage.cs:192-199 | `IsFromCurrentUser` is true exactly when the sender is the current user; `TimeString` is replaced only when it was null or empty, by the formatted timestamp; no other field changes |
| `Aggregation.Receive` | FirebaseMauiApp/MainPage.cs:185-214 | a null event or one from outside the pair leaves the list unchanged; a near duplicate leaves it unchanged; otherwise the new list is the old one plus the completed message (multiset, one longer), sorted and stable |
| `Aggregation.ReceiveKeepsConsistent` | FirebaseMauiApp/MainPage.cs:202-214 | an arrival keeps the list sorted and free of near duplicates |
| `Aggregation.ReceiveInserts` | FirebaseMauiApp/MainPage.cs:206-214 | into a sorted list an accepted message is inserted at one position after all entries not later than it; the old entries keep their order |
| `Aggregation.ReceiveIsIdempotent` | FirebaseMauiApp/MainPage.cs:202-206 | delivering the same event a second time changes nothing |
| `Aggregation.ReceiveAllKeepsConsistent` | FirebaseMauiApp/MainPage.cs:185-214 | any sequence of arrivals keeps a consistent list consistent |
| `Aggregation.ArrivalsKeepConsistent` | FirebaseMauiApp/MainPage.cs:34 | from the empty list the page starts with, any sequence of arrivals leaves it sorted and free of near duplicates |
| `Aggregation.RepeatedArrivalShownOnce` | FirebaseMauiApp/MainPage.cs:202-204 | "hi" from Fs arriving twice one second apart into an empty list gives one entry |
| `Participants.SelectUser` | FirebaseMauiApp/MainPage.cs:43-58 | a pair is selected exactly for the answers `Fs` and `Mg`; the answer becomes the current user and the other one of the two the peer, so they differ |
| `Participants.UserKey` | FirebaseMauiApp/MainPage.cs:104 | the presence key is `user2` exactly when the name is `Fs`, and `user1` otherwise |
| `Participants.TypingKeyDeterminesDirection` | FirebaseMauiApp/MainPage.cs:284 | between `Fs` and `Mg`, two typing keys `<from>To<to>` are equal exactly when sender and recipient are the same |
| `Participants.TypingHeardOnlyByPeer` | FirebaseMauiApp/MainPage.cs:145 | for any two selections, a device's typing subscription is the node the other device writes exactly when the other device picked its peer |
| `Participants.SelectionsArePeers` | FirebaseMauiApp/MainPage.cs:44-53 | picking the other user on the second device gives exactly the peer's pair |
| `Participants.SelectedKeysMatch` | FirebaseMauiApp/MainPage.cs:104-145 | when the second device picks the remaining user, the two presence keys differ, each device reads the presence key the other writes and listens to the typing key the other writes, and no device listens to its own |
| `Database.PeersListenToEachOther` | FirebaseMauiApp/MainPage.cs:80-147 | when the second device picks the remaining user, the subscriptions each device's `InitializeChat` opens are the `messages` list both post to and the `isOnline` and `isTyping` fields of exactly the nodes the other device writes, never the typing node it writes itself |
| `TextInput.TrimStart` | FirebaseMauiApp/MainPage.cs:241 | the result is a suffix of the text, what was cut off is white space, and it is empty or starts with a non-white-space character |
| `TextInput.TrimEnd` | FirebaseMauiApp/MainPage.cs:241 | the result is a prefix of the text, what was cut off is white space, and it is empty or ends with a non-white-space character |
| `TextInput.Trim` | FirebaseMauiApp/MainPage.cs:241 | the trimmed text is no longer than the entry text and neither starts nor ends with white space |
| `TextInput.TrimIsSlice` | FirebaseMauiApp/MainPage.cs:241 | the trimmed text is a slice s[i..j] with white space on both sides cut off and no white space at either end |
| `TextInput.TrimEmptyIffWhiteSpace` | FirebaseMauiApp/MainPage.cs:241-243 | trimming leaves nothing exactly when the text is all white space |
| `TextInput.TrimIsIdempotent` | FirebaseMauiApp/MainPage.cs:241 | trimming twice is trimming once |
| `Sending.Compose` | FirebaseMauiApp/MainPage.cs:241-255 | no message exactly when the text is null or all white space; otherwise the message is the trimmed, non-empty text from the current user, marked as the current user's, stamped with the send time |
| `Sending.SentMessageEchoes` | FirebaseMauiApp/MainPage.cs:245-255 | a sent message, coming back through the sender's own subscription, passes the filters unchanged by completion, and is shown (one more entry) exactly when no near duplicate is on screen |
| `Sending.RepeatedSendShownOnce` | FirebaseMauiApp/MainPage.cs:237-259 | the same text sent twice less than two seconds apart adds at most one entry, and exactly the first when it had no near duplicate |
| `Typing.TextChanged` | FirebaseMauiApp/MainPage.cs:298-342 | every change records its time; typing = true is written exactly for new non-empty text and restarts the timer; typing = false exactly for null or empty text; otherwise nothing is written and the timer is left alone |
| `Typing.TimerElapsed` | FirebaseMauiApp/MainPage.cs:328-335 | a timer firing writes something only when it runs and two seconds have passed since the last change; what it writes is typing = false, and then it stops |
| `Typing.TicksInsideWindowAreSilent` | FirebaseMauiApp/MainPage.cs:328-334 | within two seconds of the last change the timer may fire any number of times without writing or stopping |
| `Typing.StoppedTimerIsSilent` | FirebaseMauiApp/MainPage.cs:333 | after the timer is stopped, firings write nothing |
| `Typing.QuietWindowClearsTyping` | FirebaseMauiApp/MainPage.cs:300-336 | from any state, new text writes typing = true; then firings inside the window are silent and the first firing after two seconds writes typing = false and stops the timer |
| `ChatPage.MainPage.constructor` | FirebaseMauiApp/MainPage.cs:32-38 | a new page has an empty (hence consistent) message list, empty user names, no timers and no requests |
| `ChatPage.MainPage.SetUserOnlineStatus` | FirebaseMauiApp/MainPage.cs:100-120 | issues one presence write under the current user's key and changes nothing else |
| `ChatPage.MainPage.SetTypingStatus` | FirebaseMauiApp/MainPage.cs:278-296 | issues one typing write under current + "To" + other and changes nothing else |
| `ChatPage.MainPage.ShowUserSelection` | FirebaseMauiApp/MainPage.cs:41-98 | on `Fs` or `Mg` sets the pair, starts the presence timer and issues the online write and the three subscriptions; on any other answer changes nothing |
| `ChatPage.MainPage.OnlineTimerElapsed` | FirebaseMauiApp/MainPage.cs:86-87 | a running presence timer renews the online record; nothing else changes |
| `ChatPage.MainPage.ReceiveMessage` | FirebaseMauiApp/MainPage.cs:180-235 | the message list becomes `Receive` of the old list and stays sorted and free of near duplicates; nothing else changes |
| `ChatPage.MainPage.SendMessage` | FirebaseMauiApp/MainPage.cs:237-276 | no text: nothing happens; otherwise the message of `Compose` is posted; if the post succeeds the entry is cleared and typing = false is written |
| `ChatPage.MainPage.OnTextChanged` | FirebaseMauiApp/MainPage.cs:298-342 | the debounce state and the writes follow `Typing.TextChanged` |
| `ChatPage.MainPage.TypingTimerElapsed` | FirebaseMauiApp/MainPage.cs:328-335 | the debounce state and the writes follow `Typing.TimerElapsed` |

## Left out

- The database client (`PutAsync`, `PostAsync`, `AsObservable`) is a foreign library. Its calls are recorded as `Request` values in `outbox`. Failed presence and typing writes are only logged by the page, so the model records the request either way.
- A failed `PostAsync` is the `postSucceeds` parameter of `SendMessage`. The alert it shows is UI and is not modelled.
- `Task.Run` and `MainThread.BeginInvokeOnMainThread` are scheduling and are left out. Requests are logged in the order the handlers issue them, not the order they reach the database. The `.Where` filters and the handler read the user names at the same moment.
- `System.Timers.Timer` threads are left out. A firing is an explicit call with the time. The 2000 ms and 5000 ms periods are not enforced on the times passed in. The race between a firing and a concurrent `Stop` or restart is not modelled.
- `DateTime.Now` and `DateTime.UtcNow` are one `now` parameter. The time-zone offset between them, and the two separate `DateTime.Now` reads in `SendMessage`, are not modelled.
- `TotalSeconds` as a `double` is not modelled: the two-second tests compare integer ticks exactly.
- The `"HH:mm"` and ISO-8601 formatting depend on the library and locale. `HH:mm` is the `formatTime` parameter. The ISO-8601 `lastSeen` and `timestamp` texts are kept as instants.
- `ChatMessage` is a value here. In C# it is a reference that the handler mutates and the collection shares; that aliasing is not modelled.
- The entry widget is not modelled. `SendMessage` receives its text and returns whether to clear it. The `TextChanged` event that clearing raises is left to the caller, as a later call to `OnTextChanged`.
- `ShowUserSelection` asks again on an invalid answer. The model returns `false` and leaves asking again to the caller.
- The presence and typing listener callbacks (`_isOtherUserOnline`, `UpdateStatusLabel`, label visibility) only drive labels. They are UI and are left out.
- `Build`, colours of the layout, `ScrollTo`, `HapticFeedback`, `DisplayActionSheet`, `DisplayAlert` and `UpdateUIAfterUserSelection` are UI and are left out.
- `OnDisappearing` is lifecycle and is left out: the offline write and the disposal of subscriptions and timers.
- FirebaseMauiApp/AppShell.cs is navigation only and is not part of this model.
- `Sending.Compose`: its contract does not state the three colour fields (`#007800`, `#FFFFFF`, `#C8DCFF`) that it sets; they only affect rendering.
