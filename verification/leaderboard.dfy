/**
 * The leaderboard page's local projection of the two completion tables: the
 * bulk load, the live-insert handlers that append a record and re-sort, the
 * per-puzzle views, the duration text and the rank labels. Timestamps are
 * milliseconds (the parsed `completed_at`).
 */
module Leaderboard {
  import opened Text

  datatype Completion = Completion(
    teamName: string,
    puzzleId: Option<int>,
    completedAt: int,
    durationSeconds: Option<int>)

  /** Sort key of the puzzle list: completion time. */
  function PuzzleKey(c: Completion): int {
    c.completedAt
  }

  /** Sort key of the emoji list: the duration, a missing one counting as 0. */
  function EmojiKey(c: Completion): int {
    if c.durationSeconds.Some? then c.durationSeconds.value else 0
  }

  predicate SortedBy(s: seq<Completion>, key: Completion -> int) {
    forall i, j :: 0 <= i < j < |s| ==> key(s[i]) <= key(s[j])
  }

  // ---------------------------------------------------------------------------
  // Stable sort

  /** `c` placed before the first record with a larger key, so after every record with an equal key. */
  function Insert(c: Completion, s: seq<Completion>, key: Completion -> int): (r: seq<Completion>)
    ensures |r| == |s| + 1
    ensures multiset(r) == multiset(s) + multiset{c}
    decreases |s|
  {
    if s == [] then [c]
    else if key(s[0]) > key(c) then [c] + s
    else
      assert s == [s[0]] + s[1..];
      [s[0]] + Insert(c, s[1..], key)
  }

  /** Insertion keeps a sorted list sorted. */
  lemma {:induction false} InsertSorted(c: Completion, s: seq<Completion>, key: Completion -> int)
    requires SortedBy(s, key)
    ensures SortedBy(Insert(c, s, key), key)
    decreases |s|
  {
    if s != [] && key(s[0]) <= key(c) {
      var rest := Insert(c, s[1..], key);
      InsertSorted(c, s[1..], key);
      forall j | 0 <= j < |rest| ensures key(s[0]) <= key(rest[j]) {
        assert rest[j] in multiset(rest);
        if rest[j] != c {
          assert rest[j] in multiset(s[1..]);
          var i :| 0 <= i < |s[1..]| && s[1..][i] == rest[j];
          assert s[i + 1] == rest[j];
        }
      }
      assert Insert(c, s, key) == [s[0]] + rest;
    }
  }

  /**
   * `Array.prototype.sort` with a key comparator: ascending by key, and stable
   * (records with equal keys keep their relative order).
   */
  function SortBy(s: seq<Completion>, key: Completion -> int): (r: seq<Completion>)
    ensures |r| == |s|
    ensures multiset(r) == multiset(s)
    ensures SortedBy(r, key)
    decreases |s|
  {
    if s == [] then []
    else
      assert s == s[..|s| - 1] + [s[|s| - 1]];
      InsertSorted(s[|s| - 1], SortBy(s[..|s| - 1], key), key);
      Insert(s[|s| - 1], SortBy(s[..|s| - 1], key), key)
  }

  /** The records of `s` whose key is `k`, in order. */
  function WithKey(s: seq<Completion>, key: Completion -> int, k: int): (r: seq<Completion>)
    decreases |s|
  {
    if s == [] then []
    else (if key(s[0]) == k then [s[0]] else []) + WithKey(s[1..], key, k)
  }

  lemma {:induction false} WithKeyAppend(a: seq<Completion>, b: seq<Completion>, key: Completion -> int, k: int)
    ensures WithKey(a + b, key, k) == WithKey(a, key, k) + WithKey(b, key, k)
    decreases |a|
  {
    if a != [] {
      var head := if key(a[0]) == k then [a[0]] else [];
      assert (a + b)[0] == a[0];
      assert (a + b)[1..] == a[1..] + b;
      WithKeyAppend(a[1..], b, key, k);
      calc {
        WithKey(a + b, key, k);
        head + WithKey(a[1..] + b, key, k);
        head + (WithKey(a[1..], key, k) + WithKey(b, key, k));
        (head + WithKey(a[1..], key, k)) + WithKey(b, key, k);
      }
    } else {
      assert a + b == b;
    }
  }

  lemma {:induction false} NoneWithKey(s: seq<Completion>, key: Completion -> int, k: int)
    requires forall i :: 0 <= i < |s| ==> key(s[i]) != k
    ensures WithKey(s, key, k) == []
    decreases |s|
  {
    if s != [] {
      NoneWithKey(s[1..], key, k);
    }
  }

  lemma SortedFirstIsLeast(s: seq<Completion>, key: Completion -> int, x: Completion)
    requires SortedBy(s, key) && x in s
    ensures key(s[0]) <= key(x)
  {
    var i :| 0 <= i < |s| && s[i] == x;
    if i > 0 {
      assert key(s[0]) <= key(s[i]);
    }
  }

  lemma {:induction false} WithKeyInsert(c: Completion, s: seq<Completion>, key: Completion -> int, k: int)
    requires SortedBy(s, key)
    ensures WithKey(Insert(c, s, key), key, k) ==
      if key(c) == k then WithKey(s, key, k) + [c] else WithKey(s, key, k)
    decreases |s|
  {
    if s == [] {
      assert WithKey([c], key, k) == (if key(c) == k then [c] else []) + WithKey([c][1..], key, k);
    } else if key(s[0]) > key(c) {
      WithKeyInsertFront(c, s, key, k);
    } else {
      assert SortedBy(s[1..], key);
      WithKeyInsert(c, s[1..], key, k);
      WithKeyInsertStep(c, s, key, k);
    }
  }

  lemma WithKeyInsertFront(c: Completion, s: seq<Completion>, key: Completion -> int, k: int)
    requires SortedBy(s, key) && s != [] && key(s[0]) > key(c)
    ensures WithKey(Insert(c, s, key), key, k) ==
      if key(c) == k then WithKey(s, key, k) + [c] else WithKey(s, key, k)
  {
    assert Insert(c, s, key) == [c] + s;
    WithKeyAppend([c], s, key, k);
    assert WithKey([c], key, k) == (if key(c) == k then [c] else []) + WithKey([c][1..], key, k);
    assert [c][1..] == [];
    if key(c) == k {
      forall i | 0 <= i < |s| ensures key(s[i]) != k {
        assert key(s[0]) <= key(s[i]);
      }
      NoneWithKey(s, key, k);
    }
  }

  lemma WithKeyInsertStep(c: Completion, s: seq<Completion>, key: Completion -> int, k: int)
    requires s != [] && key(s[0]) <= key(c)
    requires WithKey(Insert(c, s[1..], key), key, k) ==
      if key(c) == k then WithKey(s[1..], key, k) + [c] else WithKey(s[1..], key, k)
    ensures WithKey(Insert(c, s, key), key, k) ==
      if key(c) == k then WithKey(s, key, k) + [c] else WithKey(s, key, k)
  {
    var rest := Insert(c, s[1..], key);
    var head := if key(s[0]) == k then [s[0]] else [];
    var w := WithKey(s[1..], key, k);
    var tail := if key(c) == k then [c] else [];
    InsertUnfold(c, s, key);
    WithKeyCons(s[0], rest, key, k);
    WithKeyUnfold(s, key, k);
    calc {
      WithKey(Insert(c, s, key), key, k);
      WithKey([s[0]] + rest, key, k);
      head + WithKey(rest, key, k);
      head + (w + tail);
      { AppendAssoc(head, w, tail); }
      (head + w) + tail;
    }
  }

  lemma WithKeyUnfold(s: seq<Completion>, key: Completion -> int, k: int)
    requires s != []
    ensures WithKey(s, key, k) == (if key(s[0]) == k then [s[0]] else []) + WithKey(s[1..], key, k)
  {
  }

  lemma AppendAssoc(a: seq<Completion>, b: seq<Completion>, c: seq<Completion>)
    ensures a + (b + c) == (a + b) + c
  {
  }

  /** Insertion past a record whose key is not larger keeps that record in front. */
  lemma InsertUnfold(c: Completion, s: seq<Completion>, key: Completion -> int)
    requires s != [] && key(s[0]) <= key(c)
    ensures Insert(c, s, key) == [s[0]] + Insert(c, s[1..], key)
  {
  }

  lemma WithKeyCons(x: Completion, s: seq<Completion>, key: Completion -> int, k: int)
    ensures WithKey([x] + s, key, k) == (if key(x) == k then [x] else []) + WithKey(s, key, k)
  {
    assert ([x] + s)[0] == x;
    assert ([x] + s)[1..] == s;
  }

  /** Stability: for every key value, the records with that key appear in the sorted list in their original order. */
  lemma {:induction false} SortByStable(s: seq<Completion>, key: Completion -> int, k: int)
    ensures WithKey(SortBy(s, key), key, k) == WithKey(s, key, k)
    decreases |s|
  {
    if s != [] {
      var p, c := s[..|s| - 1], s[|s| - 1];
      assert s == p + [c];
      SortByStable(p, key, k);
      WithKeyInsert(c, SortBy(p, key), key, k);
      WithKeyAppend(p, [c], key, k);
    }
  }

  /** Re-sorting an already sorted list after appending one record is inserting that record. */
  lemma SortAfterAppend(prev: seq<Completion>, c: Completion, key: Completion -> int)
    requires SortedBy(prev, key)
    ensures SortBy(prev + [c], key) == Insert(c, SortBy(prev, key), key)
    ensures SortBy(prev, key) == prev
  {
    assert (prev + [c])[..|prev|] == prev;
    SortOfSorted(prev, key);
  }

  lemma {:induction false} SortOfSorted(s: seq<Completion>, key: Completion -> int)
    requires SortedBy(s, key)
    ensures SortBy(s, key) == s
    decreases |s|
  {
    if s != [] {
      var p, c := s[..|s| - 1], s[|s| - 1];
      assert SortedBy(p, key);
      SortOfSorted(p, key);
      assert forall i :: 0 <= i < |p| ==> key(p[i]) <= key(c);
      InsertLast(c, p, key);
      assert p + [c] == s;
      assert SortBy(s, key) == Insert(c, SortBy(p, key), key);
    }
  }

  lemma {:induction false} InsertLast(c: Completion, s: seq<Completion>, key: Completion -> int)
    requires forall i :: 0 <= i < |s| ==> key(s[i]) <= key(c)
    ensures Insert(c, s, key) == s + [c]
    decreases |s|
  {
    if s != [] {
      forall i | 0 <= i < |s[1..]| ensures key(s[1..][i]) <= key(c) {
        assert s[1..][i] == s[i + 1];
      }
      InsertLast(c, s[1..], key);
      InsertUnfold(c, s, key);
      assert [s[0]] + (s[1..] + [c]) == s + [c];
    }
  }

  // ---------------------------------------------------------------------------
  // Live inserts

  /** A puzzle-completion insert: append, then sort by completion time. */
  function AfterPuzzleInsert(prev: seq<Completion>, c: Completion): (r: seq<Completion>)
    ensures SortedBy(r, PuzzleKey) && multiset(r) == multiset(prev) + multiset{c}
    ensures SortedBy(prev, PuzzleKey) ==> r == Insert(c, prev, PuzzleKey)
  {
    assert SortedBy(prev, PuzzleKey) ==> SortBy(prev + [c], PuzzleKey) == Insert(c, prev, PuzzleKey) by {
      if SortedBy(prev, PuzzleKey) {
        SortAfterAppend(prev, c, PuzzleKey);
      }
    }
    SortBy(prev + [c], PuzzleKey)
  }

  /** An emoji-completion insert: append, then sort by duration (missing as 0). */
  function AfterEmojiInsert(prev: seq<Completion>, c: Completion): (r: seq<Completion>)
    ensures SortedBy(r, EmojiKey) && multiset(r) == multiset(prev) + multiset{c}
    ensures SortedBy(prev, EmojiKey) ==> r == Insert(c, prev, EmojiKey)
  {
    assert SortedBy(prev, EmojiKey) ==> SortBy(prev + [c], EmojiKey) == Insert(c, prev, EmojiKey) by {
      if SortedBy(prev, EmojiKey) {
        SortAfterAppend(prev, c, EmojiKey);
      }
    }
    SortBy(prev + [c], EmojiKey)
  }

  /**
   * An insert grows the list by exactly one and drops nothing: the result is
   * sorted and a permutation of the old list plus the new record, even when an
   * equal record was already there.
   */
  lemma InsertIsSortedPermutation(prev: seq<Completion>, c: Completion)
    ensures |AfterPuzzleInsert(prev, c)| == |prev| + 1 && |AfterEmojiInsert(prev, c)| == |prev| + 1
    ensures multiset(AfterPuzzleInsert(prev, c)) == multiset(prev) + multiset{c}
    ensures multiset(AfterEmojiInsert(prev, c)) == multiset(prev) + multiset{c}
    ensures SortedBy(AfterPuzzleInsert(prev, c), PuzzleKey) && SortedBy(AfterEmojiInsert(prev, c), EmojiKey)
    ensures multiset(AfterPuzzleInsert(prev, c))[c] == multiset(prev)[c] + 1
  {
  }

  // ---------------------------------------------------------------------------
  // Per-puzzle views

  /** `completions.filter(c => c.puzzle_id === id)`. */
  function ForPuzzle(s: seq<Completion>, id: int): (r: seq<Completion>)
    ensures |r| <= |s|
    ensures forall i :: 0 <= i < |r| ==> r[i].puzzleId == Some(id)
    decreases |s|
  {
    if s == [] then []
    else (if s[0].puzzleId == Some(id) then [s[0]] else []) + ForPuzzle(s[1..], id)
  }

  lemma ForPuzzleCons(x: Completion, s: seq<Completion>, id: int)
    ensures ForPuzzle([x] + s, id) == (if x.puzzleId == Some(id) then [x] else []) + ForPuzzle(s, id)
  {
    assert ([x] + s)[0] == x;
    assert ([x] + s)[1..] == s;
  }

  /** The view holds exactly the records of that puzzle. */
  lemma {:induction false} ForPuzzleMembers(s: seq<Completion>, id: int)
    ensures forall x :: x in ForPuzzle(s, id) <==> x in s && x.puzzleId == Some(id)
    decreases |s|
  {
    if s != [] {
      ForPuzzleMembers(s[1..], id);
      var head := if s[0].puzzleId == Some(id) then [s[0]] else [];
      assert ForPuzzle(s, id) == head + ForPuzzle(s[1..], id);
      forall x ensures x in ForPuzzle(s, id) <==> x in s && x.puzzleId == Some(id) {
        assert x in s <==> x == s[0] || x in s[1..];
      }
    }
  }

  /** Filtering distributes over concatenation, so the view keeps the list's order. */
  lemma {:induction false} ForPuzzleAppend(a: seq<Completion>, b: seq<Completion>, id: int)
    ensures ForPuzzle(a + b, id) == ForPuzzle(a, id) + ForPuzzle(b, id)
    decreases |a|
  {
    if a != [] {
      var head := if a[0].puzzleId == Some(id) then [a[0]] else [];
      assert (a + b)[0] == a[0];
      assert (a + b)[1..] == a[1..] + b;
      ForPuzzleAppend(a[1..], b, id);
      calc {
        ForPuzzle(a + b, id);
        head + ForPuzzle(a[1..] + b, id);
        head + (ForPuzzle(a[1..], id) + ForPuzzle(b, id));
        (head + ForPuzzle(a[1..], id)) + ForPuzzle(b, id);
      }
    } else {
      assert a + b == b;
    }
  }

  lemma {:induction false} ForPuzzleSorted(s: seq<Completion>, id: int)
    requires SortedBy(s, PuzzleKey)
    ensures SortedBy(ForPuzzle(s, id), PuzzleKey)
    decreases |s|
  {
    if s != [] {
      ForPuzzleSorted(s[1..], id);
      ForPuzzleMembers(s[1..], id);
      var head := if s[0].puzzleId == Some(id) then [s[0]] else [];
      var w := ForPuzzle(s[1..], id);
      assert ForPuzzle(s, id) == head + w;
      assert forall x :: x in w ==> x in s[1..];
      assert forall j :: 0 <= j < |s[1..]| ==> PuzzleKey(s[0]) <= PuzzleKey(s[1..][j]);
    }
  }

  /**
   * A live insert for one puzzle leaves every other puzzle's view exactly as
   * it was, and places the record into its own puzzle's view in time order.
   */
  lemma {:induction false} InsertUpdatesOneView(c: Completion, s: seq<Completion>, id: int)
    requires SortedBy(s, PuzzleKey)
    ensures c.puzzleId != Some(id) ==> ForPuzzle(Insert(c, s, PuzzleKey), id) == ForPuzzle(s, id)
    ensures c.puzzleId == Some(id) ==>
      ForPuzzle(Insert(c, s, PuzzleKey), id) == Insert(c, ForPuzzle(s, id), PuzzleKey)
    decreases |s|
  {
    if s == [] {
      assert ForPuzzle([c], id) == (if c.puzzleId == Some(id) then [c] else []) + ForPuzzle([c][1..], id);
    } else if PuzzleKey(s[0]) > PuzzleKey(c) {
      InsertUpdatesOneViewFront(c, s, id);
    } else {
      assert SortedBy(s[1..], PuzzleKey);
      InsertUpdatesOneView(c, s[1..], id);
      InsertUpdatesOneViewStep(c, s, id);
    }
  }

  lemma InsertUpdatesOneViewFront(c: Completion, s: seq<Completion>, id: int)
    requires SortedBy(s, PuzzleKey) && s != [] && PuzzleKey(s[0]) > PuzzleKey(c)
    ensures c.puzzleId != Some(id) ==> ForPuzzle(Insert(c, s, PuzzleKey), id) == ForPuzzle(s, id)
    ensures c.puzzleId == Some(id) ==>
      ForPuzzle(Insert(c, s, PuzzleKey), id) == Insert(c, ForPuzzle(s, id), PuzzleKey)
  {
    assert Insert(c, s, PuzzleKey) == [c] + s;
    ForPuzzleAppend([c], s, id);
    assert ForPuzzle([c], id) == (if c.puzzleId == Some(id) then [c] else []) + ForPuzzle([c][1..], id);
    assert [c][1..] == [];
    var v := ForPuzzle(s, id);
    if v != [] {
      ForPuzzleMembers(s, id);
      SortedFirstIsLeast(s, PuzzleKey, v[0]);
    }
  }

  lemma InsertUpdatesOneViewStep(c: Completion, s: seq<Completion>, id: int)
    requires s != [] && PuzzleKey(s[0]) <= PuzzleKey(c)
    requires c.puzzleId != Some(id) ==> ForPuzzle(Insert(c, s[1..], PuzzleKey), id) == ForPuzzle(s[1..], id)
    requires c.puzzleId == Some(id) ==>
      ForPuzzle(Insert(c, s[1..], PuzzleKey), id) == Insert(c, ForPuzzle(s[1..], id), PuzzleKey)
    ensures c.puzzleId != Some(id) ==> ForPuzzle(Insert(c, s, PuzzleKey), id) == ForPuzzle(s, id)
    ensures c.puzzleId == Some(id) ==>
      ForPuzzle(Insert(c, s, PuzzleKey), id) == Insert(c, ForPuzzle(s, id), PuzzleKey)
  {
    var rest := Insert(c, s[1..], PuzzleKey);
    var w := ForPuzzle(s[1..], id);
    InsertUnfold(c, s, PuzzleKey);
    ForPuzzleCons(s[0], rest, id);
    if s[0].puzzleId == Some(id) {
      assert ForPuzzle(s, id) == [s[0]] + w;
      if c.puzzleId == Some(id) {
        InsertUnfold(c, [s[0]] + w, PuzzleKey);
        assert ([s[0]] + w)[1..] == w;
      }
    } else {
      assert ForPuzzle(s, id) == w;
    }
  }

  // ---------------------------------------------------------------------------
  // Text

  /** `formatDuration`: a placeholder for a missing or zero duration, otherwise `m:ss`. */
  function FormatDuration(seconds: Option<int>): (r: string)
    ensures seconds.None? || seconds.value == 0 ==> r == "--:--"
    ensures seconds.Some? && seconds.value > 0 ==> ParseClock(r) == Some(seconds.value)
  {
    assert seconds.Some? && seconds.value > 0 ==> ParseClock(ClockText(seconds.value)) == Some(seconds.value) by {
      if seconds.Some? && seconds.value > 0 {
        ClockRoundTrip(seconds.value);
      }
    }
    if seconds.None? || seconds.value == 0 then "--:--" else ClockText(seconds.value)
  }

  /**
   * A positive duration is shown as text that reads back as that duration; the
   * placeholder reads back as no time at all.
   */
  lemma FormatDurationReadsBack(seconds: Option<int>)
    ensures seconds.None? || seconds.value == 0 ==> ParseClock(FormatDuration(seconds)) == None
    ensures seconds.Some? && seconds.value > 0 ==> ParseClock(FormatDuration(seconds)) == Some(seconds.value)
  {
    if seconds.Some? && seconds.value > 0 {
      ClockRoundTrip(seconds.value);
    } else if seconds.None? || seconds.value == 0 {
      assert !IsDigit('-');
    }
  }

  /** The rank cell of row `idx`: gold, silver and bronze medals for the first three, `#n` (1-based) after. */
  function RankLabel(idx: nat): (r: string)
    ensures idx == 0 ==> r == "\U{1F947}"
    ensures idx == 1 ==> r == "\U{1F948}"
    ensures idx == 2 ==> r == "\U{1F949}"
    ensures idx >= 3 ==> |r| >= 2 && r[0] == '#' && ParseNat(r[1..]) == Some(idx + 1)
  {
    if idx == 0 then "\U{1F947}"
    else if idx == 1 then "\U{1F948}"
    else if idx == 2 then "\U{1F949}"
    else
      ParseNatRoundTrip(idx + 1);
      "#" + IntToString(idx + 1)
  }

  /** Distinct rows never share a rank label. */
  lemma RankLabelInjective(i: nat, j: nat)
    requires RankLabel(i) == RankLabel(j)
    ensures i == j
  {
    if i >= 3 && j >= 3 {
      assert RankLabel(i)[1..] == RankLabel(j)[1..];
    }
  }

  // ---------------------------------------------------------------------------
  // State

  class LeaderboardView {
    var completions: seq<Completion>
    var emojiCompletions: seq<Completion>
    var isLoading: bool

    constructor ()
      ensures completions == [] && emojiCompletions == [] && isLoading
    {
      completions := [];
      emojiCompletions := [];
      isLoading := true;
    }

    /**
     * The bulk load's result: each list is replaced only when its query
     * returned data (`None` stands for no data), and loading ends.
     */
    method ApplyFetch(puzzles: Option<seq<Completion>>, emojis: Option<seq<Completion>>)
      modifies this
      ensures completions == if puzzles.Some? then puzzles.value else old(completions)
      ensures emojiCompletions == if emojis.Some? then emojis.value else old(emojiCompletions)
      ensures !isLoading
    {
      if puzzles.Some? {
        completions := puzzles.value;
      }
      if emojis.Some? {
        emojiCompletions := emojis.value;
      }
      isLoading := false;
    }

    /** A record arrives on the puzzle channel. */
    method OnPuzzleInsert(c: Completion)
      modifies this`completions
      ensures completions == AfterPuzzleInsert(old(completions), c)
      ensures SortedBy(completions, PuzzleKey)
      ensures multiset(completions) == multiset(old(completions)) + multiset{c}
    {
      completions := SortBy(completions + [c], PuzzleKey);
    }

    /** A record arrives on the emoji channel. */
    method OnEmojiInsert(c: Completion)
      modifies this`emojiCompletions
      ensures emojiCompletions == AfterEmojiInsert(old(emojiCompletions), c)
      ensures SortedBy(emojiCompletions, EmojiKey)
      ensures multiset(emojiCompletions) == multiset(old(emojiCompletions)) + multiset{c}
    {
      emojiCompletions := SortBy(emojiCompletions + [c], EmojiKey);
    }
  }
}
