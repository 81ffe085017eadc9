/** The two fixed participants, user selection, and the database keys
    derived from a participant's name. */
module Participants {
  import opened Wrappers

  const UserFs: string := "Fs"
  const UserMg: string := "Mg"

  /** `_currentUser` and `_otherUser` once a user has been picked. */
  datatype Pair = Pair(currentUser: string, otherUser: string)

  /** The same conversation seen from the other participant's device. */
  function Peer(p: Pair): Pair
  {
    Pair(p.otherUser, p.currentUser)
  }

  /** `ShowUserSelection`: picking one participant makes the other one the peer;
      any other answer of the action sheet (including none) selects nobody. */
  function SelectUser(answer: NullableString): (r: Option<Pair>)
    ensures r.Some? <==> answer == Some(UserFs) || answer == Some(UserMg)
    ensures r.Some? ==> r.value.currentUser == answer.value
    ensures r.Some? ==> r.value.currentUser != r.value.otherUser
    ensures r.Some? ==> {r.value.currentUser, r.value.otherUser} == {UserFs, UserMg}
    ensures r.Some? ==> r.value.otherUser == UserFs || r.value.otherUser == UserMg
  {
    if answer == Some(UserFs) then Some(Pair(UserFs, UserMg))
    else if answer == Some(UserMg) then Some(Pair(UserMg, UserFs))
    else None
  }

  /** The node under `activeUsers` that holds a participant's presence. */
  function UserKey(name: string): (k: string)
    ensures k == "user2" <==> name == UserFs
    ensures k != "user2" ==> k == "user1"
  {
    if name == UserFs then "user2" else "user1"
  }

  /** The node under `typing` for typing from `from` directed at `to`. */
  function TypingKey(from: string, to: string): string
  {
    from + "To" + to
  }

  /** The typing key a device writes: current user to other user. */
  function OutgoingTypingKey(p: Pair): string
  {
    TypingKey(p.currentUser, p.otherUser)
  }

  /** The typing key a device listens to: other user to current user. */
  function IncomingTypingKey(p: Pair): string
  {
    TypingKey(p.otherUser, p.currentUser)
  }

  /** Whoever is picked on one device, picking the other participant on the
      second device gives exactly the peer's view of the conversation. */
  lemma SelectionsArePeers(answer: NullableString)
    requires SelectUser(answer).Some?
    ensures SelectUser(Some(SelectUser(answer).value.otherUser)) == Some(Peer(SelectUser(answer).value))
  {
  }

  /** Between the two participants, a typing key names its direction: two
      keys are equal exactly when they have the same sender and the same
      recipient. */
  lemma {:induction false} TypingKeyDeterminesDirection(a: string, b: string, c: string, d: string)
    requires a == UserFs || a == UserMg
    requires b == UserFs || b == UserMg
    requires c == UserFs || c == UserMg
    requires d == UserFs || d == UserMg
    ensures TypingKey(a, b) == TypingKey(c, d) <==> a == c && b == d
  {
    if TypingKey(a, b) == TypingKey(c, d) {
      assert TypingKey(a, b)[0] == a[0] && TypingKey(c, d)[0] == c[0];
      assert TypingKey(a, b)[4] == b[0] && TypingKey(c, d)[4] == d[0];
    }
  }

  /** Of all the selections two devices can make, a device's typing
      subscription is the node the other device writes exactly when the two
      picked different participants: nobody hears their own typing, and
      each hears the peer's. */
  lemma {:induction false} TypingHeardOnlyByPeer(answer: NullableString, otherAnswer: NullableString)
    requires SelectUser(answer).Some? && SelectUser(otherAnswer).Some?
    ensures var p := SelectUser(answer).value;
            var q := SelectUser(otherAnswer).value;
            IncomingTypingKey(q) == OutgoingTypingKey(p) <==> q == Peer(p)
  {
    var p := SelectUser(answer).value;
    var q := SelectUser(otherAnswer).value;
    TypingKeyDeterminesDirection(q.otherUser, q.currentUser, p.currentUser, p.otherUser);
  }

  /** For either selection, once the second device picks the remaining
      participant the two devices' keys line up: their presence keys differ,
      each reads the presence key the other writes, each listens to the
      typing key the other writes, and no device hears its own typing. */
  lemma {:induction false} SelectedKeysMatch(answer: NullableString)
    requires SelectUser(answer).Some?
    ensures var p := SelectUser(answer).value;
            var q := SelectUser(Some(p.otherUser)).value;
            && UserKey(p.currentUser) != UserKey(q.currentUser)
            && UserKey(q.otherUser) == UserKey(p.currentUser)
            && UserKey(p.otherUser) == UserKey(q.currentUser)
            && IncomingTypingKey(q) == OutgoingTypingKey(p)
            && IncomingTypingKey(p) == OutgoingTypingKey(q)
            && OutgoingTypingKey(p) != IncomingTypingKey(p)
  {
    var p := SelectUser(answer).value;
    SelectionsArePeers(answer);
    assert OutgoingTypingKey(p)[0] == p.currentUser[0];
    assert IncomingTypingKey(p)[0] == p.otherUser[0];
  }
}
