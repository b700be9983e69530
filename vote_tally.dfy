/**
 * The ranked participant list of the voting page: the reducer that applies one live vote
 * message, the debug boost, the winner counter, and the two lists the page renders from it.
 */
module VoteTally {
  import opened Common

  /**
   * A voting participant. Only the fields the logic reads are kept; the display fields
   * (title, photo, url, vote_code) are copied unchanged by every operation here.
   */
  datatype Item = Item(id: int, votesCount: int, votesPercents: int)

  // ---------------------------------------------------------------------------------------
  // Ranking: a stable sort by votesCount, descending
  // ---------------------------------------------------------------------------------------

  /** Ranked: votesCount never increases along the list. */
  predicate SortedDesc(s: seq<Item>)
  {
    forall i, j :: 0 <= i < j < |s| ==> s[i].votesCount >= s[j].votesCount
  }

  /** The items with votesCount `c`, in list order (the tie class of `c`). */
  function WithCount(s: seq<Item>, c: int): seq<Item>
  {
    if s == [] then []
    else if s[0].votesCount == c then [s[0]] + WithCount(s[1..], c)
    else WithCount(s[1..], c)
  }

  /** Inserts `x` into a ranked list in front of every item whose count does not exceed its own. */
  function Insert(x: Item, s: seq<Item>): seq<Item>
  {
    if s == [] then [x]
    else if s[0].votesCount > x.votesCount then [s[0]] + Insert(x, s[1..])
    else [x] + s
  }

  /**
   * `items.sort((a, b) => b.votes_count - a.votes_count)`. The engine's sort is stable, and
   * StableSortUnique shows that every stable sort yields this same list.
   */
  function SortByVotes(s: seq<Item>): seq<Item>
  {
    if s == [] then [] else Insert(s[0], SortByVotes(s[1..]))
  }

  lemma SortedCons(a: Item, r: seq<Item>)
    requires SortedDesc(r)
    requires forall k :: 0 <= k < |r| ==> a.votesCount >= r[k].votesCount
    ensures SortedDesc([a] + r)
  {
    forall i, j | 0 <= i < j < |[a] + r|
      ensures ([a] + r)[i].votesCount >= ([a] + r)[j].votesCount
    {
      assert ([a] + r)[j] == r[j - 1];
      if i > 0 {
        assert ([a] + r)[i] == r[i - 1];
      }
    }
  }

  lemma {:induction false} InsertPermutes(x: Item, s: seq<Item>)
    ensures multiset(Insert(x, s)) == multiset(s) + multiset{x}
    ensures |Insert(x, s)| == |s| + 1
  {
    if s != [] && s[0].votesCount > x.votesCount {
      InsertPermutes(x, s[1..]);
      assert s == [s[0]] + s[1..];
    }
  }

  lemma {:induction false} InsertSorted(x: Item, s: seq<Item>)
    requires SortedDesc(s)
    ensures SortedDesc(Insert(x, s))
  {
    if s == [] {
    } else if s[0].votesCount > x.votesCount {
      var r := Insert(x, s[1..]);
      InsertSorted(x, s[1..]);
      InsertPermutes(x, s[1..]);
      forall k | 0 <= k < |r| ensures s[0].votesCount >= r[k].votesCount {
        assert r[k] in multiset(r);
        if r[k] != x {
          assert r[k] in s[1..];
        }
      }
      SortedCons(s[0], r);
    } else {
      SortedCons(x, s);
    }
  }

  lemma {:induction false} WithCountInsert(x: Item, s: seq<Item>, c: int)
    ensures WithCount(Insert(x, s), c) == WithCount([x] + s, c)
  {
    assert ([x] + s)[1..] == s;
    if s != [] && s[0].votesCount > x.votesCount {
      WithCountInsert(x, s[1..], c);
      assert ([s[0]] + Insert(x, s[1..]))[1..] == Insert(x, s[1..]);
      assert ([x] + s[1..])[1..] == s[1..];
    }
  }

  /** The sort ranks the list, keeps its items, and keeps every tie class in its prior order. */
  lemma {:induction false} SortByVotesCorrect(s: seq<Item>)
    ensures SortedDesc(SortByVotes(s))
    ensures multiset(SortByVotes(s)) == multiset(s) && |SortByVotes(s)| == |s|
    ensures forall c :: WithCount(SortByVotes(s), c) == WithCount(s, c)
  {
    if s != [] {
      var t := SortByVotes(s[1..]);
      SortByVotesCorrect(s[1..]);
      InsertSorted(s[0], t);
      InsertPermutes(s[0], t);
      assert s == [s[0]] + s[1..];
      forall c ensures WithCount(SortByVotes(s), c) == WithCount(s, c) {
        WithCountInsert(s[0], t, c);
        assert ([s[0]] + t)[1..] == t;
      }
    }
  }

  /** A list that is already ranked is returned unchanged. */
  lemma {:induction false} SortByVotesRanked(s: seq<Item>)
    requires SortedDesc(s)
    ensures SortByVotes(s) == s
  {
    if s != [] {
      assert SortedDesc(s[1..]) by {
        forall i, j | 0 <= i < j < |s[1..]|
          ensures s[1..][i].votesCount >= s[1..][j].votesCount
        {
          assert s[1..][i] == s[i + 1] && s[1..][j] == s[j + 1];
        }
      }
      SortByVotesRanked(s[1..]);
      assert s == [s[0]] + s[1..];
    }
  }

  lemma {:induction false} WithCountMembers(s: seq<Item>, c: int)
    ensures forall y :: y in WithCount(s, c) <==> y in s && y.votesCount == c
  {
    if s != [] {
      WithCountMembers(s[1..], c);
      assert s == [s[0]] + s[1..];
    }
  }

  /** The head of a non-empty list heads its own tie class. */
  lemma HeadLeadsTieClass(s: seq<Item>)
    requires s != []
    ensures WithCount(s, s[0].votesCount) == [s[0]] + WithCount(s[1..], s[0].votesCount)
  {
  }

  lemma HeadInTieClass(s: seq<Item>)
    ensures s != [] ==> s[0] in WithCount(s, s[0].votesCount)
  {
  }

  /**
   * Two ranked lists with the same tie classes are equal: ranking plus stability determine
   * the result, so SortByVotes agrees with any stable sort by descending count.
   */
  lemma {:induction false} StableSortUnique(a: seq<Item>, b: seq<Item>)
    requires SortedDesc(a) && SortedDesc(b)
    requires forall c :: WithCount(a, c) == WithCount(b, c)
    ensures a == b
    decreases |a| + |b|
  {
    if a != [] && b != [] {
      var m := a[0].votesCount;
      WithCountMembers(a, b[0].votesCount);
      WithCountMembers(b, m);
      HeadLeadsTieClass(a);
      HeadLeadsTieClass(b);
      assert b[0] in WithCount(b, b[0].votesCount);
      assert a[0] in WithCount(a, m);
      assert b[0].votesCount == m;
      assert WithCount(a, m) == WithCount(b, m);
      assert WithCount(a, m)[0] == a[0] && WithCount(b, m)[0] == b[0];
      assert SortedDesc(a[1..]) by {
        forall i, j | 0 <= i < j < |a[1..]|
          ensures a[1..][i].votesCount >= a[1..][j].votesCount
        {
          assert a[1..][i] == a[i + 1] && a[1..][j] == a[j + 1];
        }
      }
      assert SortedDesc(b[1..]) by {
        forall i, j | 0 <= i < j < |b[1..]|
          ensures b[1..][i].votesCount >= b[1..][j].votesCount
        {
          assert b[1..][i] == b[i + 1] && b[1..][j] == b[j + 1];
        }
      }
      forall c ensures WithCount(a[1..], c) == WithCount(b[1..], c) {
        assert WithCount(a, c) == WithCount(b, c);
        if a[0].votesCount == c {
          assert WithCount(a[1..], c) == WithCount(a, c)[1..];
          assert WithCount(b[1..], c) == WithCount(b, c)[1..];
        }
      }
      StableSortUnique(a[1..], b[1..]);
      assert a == [a[0]] + a[1..];
      assert b == [b[0]] + b[1..];
    } else {
      // An empty list has no tie classes, a non-empty one has the class of its head.
      HeadInTieClass(a);
      HeadInTieClass(b);
    }
  }

  /** Any ranked list with the tie classes of `s` is exactly the sort of `s`. */
  lemma SortByVotesCharacterized(s: seq<Item>, r: seq<Item>)
    requires SortedDesc(r)
    requires forall c :: WithCount(r, c) == WithCount(s, c)
    ensures r == SortByVotes(s)
  {
    SortByVotesCorrect(s);
    StableSortUnique(r, SortByVotes(s));
  }

  // ---------------------------------------------------------------------------------------
  // Measures that a sort leaves unchanged
  // ---------------------------------------------------------------------------------------

  function Ids(s: seq<Item>): seq<int>
  {
    if s == [] then [] else [s[0].id] + Ids(s[1..])
  }

  /** Sum of votesCount over the list. */
  function Total(s: seq<Item>): int
  {
    if s == [] then 0 else s[0].votesCount + Total(s[1..])
  }

  /** Sum of votesCount over the items carrying id `k`. */
  function VotesFor(s: seq<Item>, k: int): int
  {
    if s == [] then 0 else (if s[0].id == k then s[0].votesCount else 0) + VotesFor(s[1..], k)
  }

  /** How many items carry id `k`. */
  function Matches(s: seq<Item>, k: int): nat
  {
    multiset(Ids(s))[k]
  }

  lemma {:induction false} IdsInsert(x: Item, s: seq<Item>)
    ensures multiset(Ids(Insert(x, s))) == multiset(Ids(s)) + multiset{x.id}
  {
    if s != [] && s[0].votesCount > x.votesCount {
      IdsInsert(x, s[1..]);
      assert Ids(s) == [s[0].id] + Ids(s[1..]);
    }
  }

  lemma {:induction false} TotalInsert(x: Item, s: seq<Item>)
    ensures Total(Insert(x, s)) == x.votesCount + Total(s)
  {
    if s != [] && s[0].votesCount > x.votesCount {
      TotalInsert(x, s[1..]);
    }
  }

  lemma {:induction false} VotesForInsert(x: Item, s: seq<Item>, k: int)
    ensures VotesFor(Insert(x, s), k) == VotesFor([x] + s, k)
  {
    assert ([x] + s)[1..] == s;
    if s != [] && s[0].votesCount > x.votesCount {
      VotesForInsert(x, s[1..], k);
      assert ([s[0]] + Insert(x, s[1..]))[1..] == Insert(x, s[1..]);
      assert ([x] + s[1..])[1..] == s[1..];
    }
  }

  lemma {:induction false} MeasuresSort(s: seq<Item>)
    ensures multiset(Ids(SortByVotes(s))) == multiset(Ids(s))
    ensures Total(SortByVotes(s)) == Total(s)
  {
    if s != [] {
      MeasuresSort(s[1..]);
      IdsInsert(s[0], SortByVotes(s[1..]));
      TotalInsert(s[0], SortByVotes(s[1..]));
    }
  }

  lemma {:induction false} VotesForSort(s: seq<Item>, k: int)
    ensures VotesFor(SortByVotes(s), k) == VotesFor(s, k)
  {
    if s != [] {
      VotesForSort(s[1..], k);
      VotesForInsert(s[0], SortByVotes(s[1..]), k);
      assert ([s[0]] + SortByVotes(s[1..]))[1..] == SortByVotes(s[1..]);
    }
  }

  // ---------------------------------------------------------------------------------------
  // handleWebSocketMessage: one vote message
  // ---------------------------------------------------------------------------------------

  /** One item as the message's `map` leaves it: +1 on a matching id, untouched otherwise. */
  function Bump(item: Item, votingItemId: int): Item
  {
    if item.id == votingItemId then item.(votesCount := item.votesCount + 1) else item
  }

  function BumpAll(s: seq<Item>, votingItemId: int): seq<Item>
  {
    if s == [] then [] else [Bump(s[0], votingItemId)] + BumpAll(s[1..], votingItemId)
  }

  /** The state updater for one parsed message: map the matching items, then re-sort. */
  function HandleMessage(items: seq<Item>, votingItemId: int): seq<Item>
  {
    SortByVotes(BumpAll(items, votingItemId))
  }

  /** The map step: same length, each matching item gains exactly one vote, nothing else changes. */
  lemma {:induction false} BumpAllPointwise(s: seq<Item>, votingItemId: int)
    ensures |BumpAll(s, votingItemId)| == |s|
    ensures forall i :: 0 <= i < |s| ==>
      BumpAll(s, votingItemId)[i] ==
        if s[i].id == votingItemId then s[i].(votesCount := s[i].votesCount + 1) else s[i]
  {
    if s != [] {
      BumpAllPointwise(s[1..], votingItemId);
    }
  }

  lemma {:induction false} MeasuresBump(s: seq<Item>, votingItemId: int)
    ensures Ids(BumpAll(s, votingItemId)) == Ids(s)
    ensures Total(BumpAll(s, votingItemId)) == Total(s) + Matches(s, votingItemId)
    ensures forall k :: (VotesFor(BumpAll(s, votingItemId), k) ==
      VotesFor(s, k) + (if k == votingItemId then Matches(s, k) else 0))
  {
    if s != [] {
      MeasuresBump(s[1..], votingItemId);
      assert Ids(s) == [s[0].id] + Ids(s[1..]);
    }
  }

  /**
   * The reducer ranks its result, and the result is the stable sort of the mapped list:
   * every tie class keeps the order the mapped list gave it.
   */
  lemma HandleMessageRanks(items: seq<Item>, votingItemId: int)
    ensures SortedDesc(HandleMessage(items, votingItemId))
    ensures |HandleMessage(items, votingItemId)| == |items|
    ensures multiset(HandleMessage(items, votingItemId)) == multiset(BumpAll(items, votingItemId))
    ensures forall c :: (WithCount(HandleMessage(items, votingItemId), c) ==
      WithCount(BumpAll(items, votingItemId), c))
  {
    SortByVotesCorrect(BumpAll(items, votingItemId));
    BumpAllPointwise(items, votingItemId);
  }

  /**
   * The reducer keeps the ids; the item(s) named by the message gain one vote each and all
   * other ids keep their vote totals, so the list's total rises by the number of matches.
   */
  lemma HandleMessageCounts(items: seq<Item>, votingItemId: int)
    ensures multiset(Ids(HandleMessage(items, votingItemId))) == multiset(Ids(items))
    ensures Total(HandleMessage(items, votingItemId)) == Total(items) + Matches(items, votingItemId)
    ensures forall k :: (VotesFor(HandleMessage(items, votingItemId), k) ==
      VotesFor(items, k) + (if k == votingItemId then Matches(items, k) else 0))
  {
    MeasuresBump(items, votingItemId);
    MeasuresSort(BumpAll(items, votingItemId));
    forall k ensures VotesFor(HandleMessage(items, votingItemId), k) ==
      VotesFor(BumpAll(items, votingItemId), k)
    {
      VotesForSort(BumpAll(items, votingItemId), k);
    }
  }

  lemma {:induction false} BumpAllNoMatch(s: seq<Item>, votingItemId: int)
    requires forall i :: 0 <= i < |s| ==> s[i].id != votingItemId
    ensures BumpAll(s, votingItemId) == s
  {
    if s != [] {
      BumpAllNoMatch(s[1..], votingItemId);
      assert s == [s[0]] + s[1..];
    }
  }

  /**
   * A message naming no listed item only re-sorts the list; on a ranked list it changes nothing.
   */
  lemma HandleMessageUnknownId(items: seq<Item>, votingItemId: int)
    requires forall i :: 0 <= i < |items| ==> items[i].id != votingItemId
    ensures HandleMessage(items, votingItemId) == SortByVotes(items)
    ensures SortedDesc(items) ==> HandleMessage(items, votingItemId) == items
  {
    BumpAllNoMatch(items, votingItemId);
    if SortedDesc(items) {
      SortByVotesRanked(items);
    }
  }

  /** Messages applied one after another, in arrival order. */
  function HandleMessages(items: seq<Item>, messageIds: seq<int>): seq<Item>
    decreases |messageIds|
  {
    if messageIds == [] then items
    else HandleMessages(HandleMessage(items, messageIds[0]), messageIds[1..])
  }

  lemma {:induction false} HandleMessagesIds(items: seq<Item>, messageIds: seq<int>)
    ensures multiset(Ids(HandleMessages(items, messageIds))) == multiset(Ids(items))
    decreases |messageIds|
  {
    if messageIds != [] {
      HandleMessageCounts(items, messageIds[0]);
      HandleMessagesIds(HandleMessage(items, messageIds[0]), messageIds[1..]);
    }
  }

  lemma CountStep(n: int, m: int)
    ensures (n + 1) * m == n * m + m
  {
  }

  /**
   * After a run of messages, the votes of id `k` have grown by (messages naming `k`) times
   * (items carrying `k`); with unique ids that is one vote per message. Ids never change.
   */
  lemma {:induction false} HandleMessagesCounts(items: seq<Item>, messageIds: seq<int>, k: int)
    ensures multiset(Ids(HandleMessages(items, messageIds))) == multiset(Ids(items))
    ensures VotesFor(HandleMessages(items, messageIds), k) ==
      VotesFor(items, k) + multiset(messageIds)[k] * Matches(items, k)
    decreases |messageIds|
  {
    HandleMessagesIds(items, messageIds);
    if messageIds != [] {
      var next := HandleMessage(items, messageIds[0]);
      var rest := messageIds[1..];
      HandleMessageCounts(items, messageIds[0]);
      HandleMessagesCounts(next, rest, k);
      var m := Matches(items, k);
      assert Matches(next, k) == m;
      var n := multiset(rest)[k];
      assert messageIds == [messageIds[0]] + rest;
      assert multiset(messageIds)[k] == n + (if messageIds[0] == k then 1 else 0);
      assert VotesFor(next, k) == VotesFor(items, k) + (if messageIds[0] == k then m else 0);
      CountStep(n, m);
    }
  }

  /** The concrete scenario: a vote for the second of two tied leaders moves it to the top. */
  lemma VoteBreaksTie()
    ensures HandleMessage([Item(1, 10, 0), Item(2, 10, 0), Item(3, 5, 0)], 2)
      == [Item(2, 11, 0), Item(1, 10, 0), Item(3, 5, 0)]
  {
    var s := [Item(1, 10, 0), Item(2, 10, 0), Item(3, 5, 0)];
    assert BumpAll(s, 2) == [Item(1, 10, 0), Item(2, 11, 0), Item(3, 5, 0)] by {
      assert s[1..] == [Item(2, 10, 0), Item(3, 5, 0)];
      assert s[2..] == [Item(3, 5, 0)];
    }
  }

  // ---------------------------------------------------------------------------------------
  // addVotes: the debug boost of the sixth item
  // ---------------------------------------------------------------------------------------

  const BOOST_INDEX: nat := 5
  const BOOST_VOTES: int := 10000

  /** The boost's `map`: only index 5, when present, gains 10000 votes. */
  function BoostSixth(s: seq<Item>): seq<Item>
  {
    if |s| > BOOST_INDEX
    then s[BOOST_INDEX := s[BOOST_INDEX].(votesCount := s[BOOST_INDEX].votesCount + BOOST_VOTES)]
    else s
  }

  /** The state updater of addVotes: boost, then re-sort. */
  function AddVotes(items: seq<Item>): seq<Item>
  {
    SortByVotes(BoostSixth(items))
  }

  lemma {:induction false} IdsAt(s: seq<Item>)
    ensures |Ids(s)| == |s|
    ensures forall i :: 0 <= i < |s| ==> Ids(s)[i] == s[i].id
  {
    if s != [] {
      IdsAt(s[1..]);
    }
  }

  lemma {:induction false} TotalUpdate(s: seq<Item>, i: nat, y: Item)
    requires i < |s|
    ensures Total(s[i := y]) == Total(s) - s[i].votesCount + y.votesCount
  {
    if i == 0 {
      assert s[i := y][1..] == s[1..];
    } else {
      TotalUpdate(s[1..], i - 1, y);
      assert s[i := y][1..] == s[1..][i - 1 := y];
    }
  }

  /**
   * addVotes ranks its result and keeps the ids; the total rises by 10000 exactly when there
   * is a sixth item, and with fewer than six items it is a plain re-sort.
   */
  lemma AddVotesSpec(items: seq<Item>)
    ensures SortedDesc(AddVotes(items))
    ensures multiset(Ids(AddVotes(items))) == multiset(Ids(items))
    ensures Total(AddVotes(items)) == Total(items) + (if |items| > BOOST_INDEX then BOOST_VOTES else 0)
    ensures forall c :: WithCount(AddVotes(items), c) == WithCount(BoostSixth(items), c)
    ensures |items| <= BOOST_INDEX ==> AddVotes(items) == SortByVotes(items)
  {
    var b := BoostSixth(items);
    SortByVotesCorrect(b);
    MeasuresSort(b);
    if |items| > BOOST_INDEX {
      TotalUpdate(items, BOOST_INDEX, b[BOOST_INDEX]);
      IdsAt(items);
      IdsAt(b);
      assert Ids(b) == Ids(items);
    }
  }

  // ---------------------------------------------------------------------------------------
  // winnersCountHandle
  // ---------------------------------------------------------------------------------------

  /** The winner test: full percentage and the head's vote count. */
  predicate IsWinner(item: Item, top: int)
  {
    item.votesPercents == 100 && item.votesCount == top
  }

  /** The items that pass the winner test against `top`, in list order. */
  function Winners(s: seq<Item>, top: int): seq<Item>
  {
    if s == [] then []
    else if IsWinner(s[0], top) then [s[0]] + Winners(s[1..], top)
    else Winners(s[1..], top)
  }

  lemma {:induction false} WinnersSnoc(s: seq<Item>, x: Item, top: int)
    ensures Winners(s + [x], top) == Winners(s, top) + (if IsWinner(x, top) then [x] else [])
  {
    if s == [] {
      assert [x][1..] == [];
    } else {
      WinnersSnoc(s[1..], x, top);
      assert (s + [x])[1..] == s[1..] + [x];
    }
  }

  /**
   * Counts the winners, writing the winners-count state on every match: the count is the
   * number of winners and the state changes only when there is at least one.
   */
  method WinnersCountHandle(winners: seq<Item>, winnersCount: int) returns (count: nat, newWinnersCount: int)
    ensures winners == [] ==> count == 0
    ensures winners != [] ==> count == |Winners(winners, winners[0].votesCount)|
    ensures newWinnersCount == if count > 0 then count else winnersCount
  {
    count := 0;
    newWinnersCount := winnersCount;
    var i := 0;
    while i < |winners|
      invariant 0 <= i <= |winners|
      invariant winners != [] ==> count == |Winners(winners[..i], winners[0].votesCount)|
      invariant winners == [] ==> count == 0
      invariant newWinnersCount == if count > 0 then count else winnersCount
    {
      if winners[i].votesPercents == 100 && winners[i].votesCount == winners[0].votesCount {
        count := count + 1;
        newWinnersCount := count;
      }
      WinnersSnoc(winners[..i], winners[i], winners[0].votesCount);
      assert winners[..i + 1] == winners[..i] + [winners[i]];
      i := i + 1;
    }
    assert winners[..i] == winners;
  }

  lemma {:induction false} WinnersWithinTieClass(s: seq<Item>, top: int)
    ensures forall y :: y in Winners(s, top) <==> y in s && IsWinner(y, top)
    ensures |Winners(s, top)| <= |WithCount(s, top)|
  {
    if s != [] {
      WinnersWithinTieClass(s[1..], top);
      assert s == [s[0]] + s[1..];
    }
  }

  /**
   * The winners are exactly the full-percentage items tied with the head, so there are never
   * more of them than cards in the top block; with no item at 100 percent there are none.
   */
  lemma WinnersSpec(s: seq<Item>)
    requires s != []
    ensures forall y :: y in Winners(s, s[0].votesCount) <==>
      y in s && y.votesPercents == 100 && y.votesCount == s[0].votesCount
    ensures |Winners(s, s[0].votesCount)| <= |WithCount(s, s[0].votesCount)|
    ensures (forall i :: 0 <= i < |s| ==> s[i].votesPercents != 100) ==>
      Winners(s, s[0].votesCount) == []
  {
    WinnersWithinTieClass(s, s[0].votesCount);
    if Winners(s, s[0].votesCount) != [] {
      assert Winners(s, s[0].votesCount)[0] in Winners(s, s[0].votesCount);
    }
  }

  // ---------------------------------------------------------------------------------------
  // The two rendered lists
  // ---------------------------------------------------------------------------------------

  /** What the top ("winner") block renders. Reading the head of an empty list throws. */
  datatype TopBlock = TypeError | Hidden | Shown(cards: seq<Item>)

  function TopBlockView(s: seq<Item>): TopBlock
  {
    if s == [] then TypeError
    else if s[0].votesCount > 0 then Shown(WithCount(s, s[0].votesCount))
    else Hidden
  }

  /** The items whose id differs from `id`, in list order. */
  function WithoutId(s: seq<Item>, id: int): seq<Item>
  {
    if s == [] then []
    else if s[0].id != id then [s[0]] + WithoutId(s[1..], id)
    else WithoutId(s[1..], id)
  }

  /** The lower list: every item whose id differs from the head's, once the vote status is set. */
  function LowerList(s: seq<Item>, voteStatus: Option<string>): seq<Item>
  {
    if s == [] || !Truthy(voteStatus) then [] else WithoutId(s, s[0].id)
  }

  lemma {:induction false} WithoutIdMembers(s: seq<Item>, id: int)
    ensures forall y :: y in WithoutId(s, id) <==> y in s && y.id != id
  {
    if s != [] {
      WithoutIdMembers(s[1..], id);
      assert s == [s[0]] + s[1..];
    }
  }

  /**
   * The top block fails on an empty list, is shown exactly when the head has votes, and then
   * holds exactly the items tied with the head, the head first.
   */
  lemma TopBlockSpec(s: seq<Item>)
    ensures TopBlockView(s) == TypeError <==> s == []
    ensures TopBlockView(s).Shown? <==> s != [] && s[0].votesCount > 0
    ensures TopBlockView(s).Shown? ==>
      TopBlockView(s).cards != [] && TopBlockView(s).cards[0] == s[0] &&
      forall y :: y in TopBlockView(s).cards <==> y in s && y.votesCount == s[0].votesCount
  {
    if s != [] {
      WithCountMembers(s, s[0].votesCount);
    }
  }

  /** The lower list holds exactly the items with an id other than the head's, and only with a status. */
  lemma LowerListSpec(s: seq<Item>, voteStatus: Option<string>)
    ensures forall y :: y in LowerList(s, voteStatus) <==>
      Truthy(voteStatus) && y in s && y.id != s[0].id
  {
    if s != [] {
      WithoutIdMembers(s, s[0].id);
    }
  }

  /** An item tied with the head but carrying another id is rendered in both lists. */
  lemma TiedItemShownTwice(s: seq<Item>, voteStatus: Option<string>, k: nat)
    requires k < |s| && Truthy(voteStatus)
    requires s[0].votesCount > 0 && s[k].votesCount == s[0].votesCount && s[k].id != s[0].id
    ensures TopBlockView(s).Shown? && s[k] in TopBlockView(s).cards
    ensures s[k] in LowerList(s, voteStatus)
  {
    TopBlockSpec(s);
    LowerListSpec(s, voteStatus);
  }
}
