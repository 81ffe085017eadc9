/** `OrderBy(m => m.Timestamp)`: LINQ's stable sort on the message list,
    written as an insertion sort and proved sorted, a permutation and stable. */
module TimestampOrder {
  import opened ChatMessages

  /** Non-decreasing by timestamp. */
  ghost predicate Sorted(s: seq<ChatMessage>)
  {
    forall i, j :: 0 <= i < j < |s| ==> s[i].timestamp <= s[j].timestamp
  }

  /** The entries of `s` whose timestamp is `t`, in their order in `s`. */
  function WithTimestamp(s: seq<ChatMessage>, t: Instant): seq<ChatMessage>
  {
    if s == [] then []
    else WithTimestamp(s[..|s| - 1], t) + (if s[|s| - 1].timestamp == t then [s[|s| - 1]] else [])
  }

  /** `output` keeps, for every timestamp, the entries of `input` with that
      timestamp in their original relative order. */
  ghost predicate Stable(input: seq<ChatMessage>, output: seq<ChatMessage>)
  {
    forall t :: WithTimestamp(output, t) == WithTimestamp(input, t)
  }

  /** Puts `x` directly after the last entry of `s` whose timestamp is not
      later than `x`'s: where a stable sort of `s + [x]` puts it. */
  function InsertByTimestamp(s: seq<ChatMessage>, x: ChatMessage): (r: seq<ChatMessage>)
    ensures multiset(r) == multiset(s) + multiset{x}
  {
    if s == [] || s[|s| - 1].timestamp <= x.timestamp then s + [x]
    else
      assert s == s[..|s| - 1] + [s[|s| - 1]];
      InsertByTimestamp(s[..|s| - 1], x) + [s[|s| - 1]]
  }

  /** Inserting into a sorted list keeps it sorted. */
  lemma {:induction false} InsertKeepsSorted(s: seq<ChatMessage>, x: ChatMessage)
    requires Sorted(s)
    ensures Sorted(InsertByTimestamp(s, x))
    decreases |s|
  {
    if s != [] && s[|s| - 1].timestamp > x.timestamp {
      var front, last := s[..|s| - 1], s[|s| - 1];
      SplitLast(s);
      SortedFront(s);
      InsertKeepsSorted(front, x);
      var r' := InsertByTimestamp(front, x);
      forall i | 0 <= i < |r'| ensures r'[i].timestamp <= last.timestamp {
        assert r'[i] in multiset(r');
        if r'[i] != x {
          assert r'[i] in front;
        }
      }
      assert InsertByTimestamp(s, x) == r' + [last];
    }
  }

  /** The stable sort by timestamp. */
  function OrderByTimestamp(s: seq<ChatMessage>): (r: seq<ChatMessage>)
    ensures multiset(r) == multiset(s)
    ensures Sorted(r)
  {
    if s == [] then []
    else
      assert s == s[..|s| - 1] + [s[|s| - 1]];
      InsertKeepsSorted(OrderByTimestamp(s[..|s| - 1]), s[|s| - 1]);
      InsertByTimestamp(OrderByTimestamp(s[..|s| - 1]), s[|s| - 1])
  }

  lemma {:induction false} WithTimestampAppend(a: seq<ChatMessage>, b: seq<ChatMessage>, t: Instant)
    ensures WithTimestamp(a + b, t) == WithTimestamp(a, t) + WithTimestamp(b, t)
    decreases |b|
  {
    if b == [] {
      assert a + b == a;
    } else {
      var b', y := b[..|b| - 1], b[|b| - 1];
      assert (a + b)[..|a + b| - 1] == a + b';
      WithTimestampAppend(a, b', t);
    }
  }

  /** Inserting keeps every timestamp's entries in the order of `s + [x]`. */
  lemma {:induction false} InsertByTimestampIsStable(s: seq<ChatMessage>, x: ChatMessage, t: Instant)
    ensures WithTimestamp(InsertByTimestamp(s, x), t) == WithTimestamp(s + [x], t)
    decreases |s|
  {
    if s != [] && s[|s| - 1].timestamp > x.timestamp {
      var front, last := s[..|s| - 1], s[|s| - 1];
      var r' := InsertByTimestamp(front, x);
      assert InsertByTimestamp(s, x) == r' + [last];
      InsertByTimestampIsStable(front, x, t);
      var lx := if x.timestamp == t then [x] else [];
      var ll := if last.timestamp == t then [last] else [];
      assert lx == [] || ll == [];
      calc {
        WithTimestamp(r' + [last], t);
        { assert (r' + [last])[..|r'|] == r'; }
        WithTimestamp(r', t) + ll;
        { assert (front + [x])[..|front|] == front; }
        WithTimestamp(front, t) + lx + ll;
        WithTimestamp(front, t) + ll + lx;
        { assert (s + [x])[..|s|] == s; }
        WithTimestamp(s + [x], t);
      }
    }
  }

  /** `OrderByTimestamp` is a stable sort. */
  lemma {:induction false} OrderByTimestampIsStable(s: seq<ChatMessage>)
    ensures Stable(s, OrderByTimestamp(s))
    decreases |s|
  {
    if s != [] {
      var front, last := s[..|s| - 1], s[|s| - 1];
      SplitLast(s);
      OrderByTimestampIsStable(front);
      var o := OrderByTimestamp(front);
      assert OrderByTimestamp(s) == InsertByTimestamp(o, last);
      forall t ensures WithTimestamp(OrderByTimestamp(s), t) == WithTimestamp(s, t) {
        calc {
          WithTimestamp(InsertByTimestamp(o, last), t);
          { InsertByTimestampIsStable(o, last, t); }
          WithTimestamp(o + [last], t);
          { WithTimestampAppend(o, [last], t); }
          WithTimestamp(o, t) + WithTimestamp([last], t);
          WithTimestamp(front, t) + WithTimestamp([last], t);
          { WithTimestampAppend(front, [last], t); }
          WithTimestamp(s, t);
        }
      }
    }
  }

  lemma SplitLast(s: seq<ChatMessage>)
    requires s != []
    ensures s == s[..|s| - 1] + [s[|s| - 1]]
  {
  }

  lemma InsertAtEnd(s: seq<ChatMessage>, x: ChatMessage)
    requires s == [] || s[|s| - 1].timestamp <= x.timestamp
    ensures InsertByTimestamp(s, x) == s + [x]
  {
  }

  lemma SortedFront(s: seq<ChatMessage>)
    requires Sorted(s) && s != []
    ensures Sorted(s[..|s| - 1])
  {
  }

  /** Ordering an already sorted list leaves it as it is. */
  lemma {:induction false} OrderBySortedIsIdentity(s: seq<ChatMessage>)
    requires Sorted(s)
    ensures OrderByTimestamp(s) == s
    decreases |s|
  {
    if s != [] {
      var front, last := s[..|s| - 1], s[|s| - 1];
      SortedFront(s);
      OrderBySortedIsIdentity(front);
      SplitLast(s);
      assert OrderByTimestamp(s) == InsertByTimestamp(front, last);
      if front != [] {
        assert front[|front| - 1] == s[|s| - 2];
      }
      InsertAtEnd(front, last);
    }
  }

  /** Cutting the last entry off `s` and then splitting at `k`. */
  lemma SplitSlices(s: seq<ChatMessage>, k: nat)
    requires k < |s|
    ensures s[..|s| - 1][..k] == s[..k]
    ensures s[..|s| - 1][k..] + [s[|s| - 1]] == s[k..]
    ensures forall i :: k <= i < |s| - 1 ==> s[..|s| - 1][i] == s[i]
  {
  }

  /** Wherever `x` is inserted, it goes in at one index `k` with nothing
      else moved: after an entry not later than it, before later entries. */
  lemma {:induction false} InsertPosition(s: seq<ChatMessage>, x: ChatMessage) returns (k: nat)
    ensures k <= |s|
    ensures InsertByTimestamp(s, x) == s[..k] + [x] + s[k..]
    ensures k > 0 ==> s[k - 1].timestamp <= x.timestamp
    ensures forall i :: k <= i < |s| ==> s[i].timestamp > x.timestamp
    decreases |s|
  {
    if s == [] || s[|s| - 1].timestamp <= x.timestamp {
      k := |s|;
      assert s[..k] == s && s[k..] == [];
    } else {
      k := InsertPosition(s[..|s| - 1], x);
      SplitSlices(s, k);
    }
  }

  /** Inserting into a sorted list puts `x` at one position `k`, after every
      entry not later than `x` and before every later one, and moves nothing else. */
  lemma InsertIntoSorted(s: seq<ChatMessage>, x: ChatMessage) returns (k: nat)
    requires Sorted(s)
    ensures k <= |s|
    ensures InsertByTimestamp(s, x) == s[..k] + [x] + s[k..]
    ensures forall i :: 0 <= i < k ==> s[i].timestamp <= x.timestamp
    ensures forall i :: k <= i < |s| ==> s[i].timestamp > x.timestamp
  {
    k := InsertPosition(s, x);
    forall i | 0 <= i < k ensures s[i].timestamp <= x.timestamp {
      assert s[i].timestamp <= s[k - 1].timestamp;
    }
  }

  /** Inserting `x` into a list keeps it free of near duplicates when `x`
      has none among its entries. */
  lemma {:induction false} InsertKeepsNoNearDuplicates(s: seq<ChatMessage>, x: ChatMessage)
    requires NoNearDuplicates(s + [x])
    ensures NoNearDuplicates(InsertByTimestamp(s, x))
    decreases |s|
  {
    if s == [] || s[|s| - 1].timestamp <= x.timestamp {
    } else {
      var front, last := s[..|s| - 1], s[|s| - 1];
      assert s == front + [last];
      NoNearDuplicatesSnoc(s, x);
      NoNearDuplicatesSnoc(front, last);
      NoNearDuplicatesSnoc(front, x) by {
        assert !HasNearDuplicate(front, x) by {
          forall i | 0 <= i < |front| ensures !NearDuplicate(front[i], x) {
            assert front[i] == s[i];
          }
        }
      }
      InsertKeepsNoNearDuplicates(front, x);
      var r' := InsertByTimestamp(front, x);
      HasNearDuplicateIn(r', last);
      forall e | e in r' ensures !NearDuplicate(e, last) {
        assert e in multiset(r');
        if e == x {
          assert !NearDuplicate(last, x) by {
            assert s[|s| - 1] == last;
          }
        } else {
          assert e in front;
          HasNearDuplicateIn(front, last);
        }
      }
      NoNearDuplicatesSnoc(r', last);
    }
  }

  /** Ordering by timestamp keeps a list free of near duplicates. */
  lemma {:induction false} OrderByKeepsNoNearDuplicates(s: seq<ChatMessage>)
    requires NoNearDuplicates(s)
    ensures NoNearDuplicates(OrderByTimestamp(s))
    decreases |s|
  {
    if s != [] {
      var front, last := s[..|s| - 1], s[|s| - 1];
      assert s == front + [last];
      NoNearDuplicatesSnoc(front, last);
      OrderByKeepsNoNearDuplicates(front);
      var o := OrderByTimestamp(front);
      HasNearDuplicateIn(o, last);
      HasNearDuplicateIn(front, last);
      forall e | e in o ensures !NearDuplicate(e, last) {
        assert e in multiset(o);
      }
      NoNearDuplicatesSnoc(o, last);
      InsertKeepsNoNearDuplicates(o, last);
    }
  }
}
