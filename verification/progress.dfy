/**
 * Level progress of one game type (`useGameState`): the list of solved level
 * ids, kept free of duplicates, persisted in a string-valued local store under
 * `christmas_games_<type>`, and the two queries the puzzle pages ask of it.
 */
module Progress {
  import opened Text

  datatype GameType = Puzzles | Emojis

  function TypeName(t: GameType): string {
    match t
    case Puzzles => "puzzles"
    case Emojis => "emojis"
  }

  const KeyPrefix: string := "christmas_games_"

  /** The local-store key of a game type: the fixed prefix followed by the type's name. */
  function StorageKey(t: GameType): (k: string)
    ensures StartsWith(k, KeyPrefix) && k[|KeyPrefix|..] == TypeName(t)
  {
    KeyPrefix + TypeName(t)
  }

  /** The two game types never share a key, so one game's progress cannot overwrite the other's. */
  lemma StorageKeyInjective(a: GameType, b: GameType)
    requires StorageKey(a) == StorageKey(b)
    ensures a == b
  {
    assert StorageKey(a)[|KeyPrefix|..] == TypeName(a);
    assert StorageKey(b)[|KeyPrefix|..] == TypeName(b);
    assert |TypeName(a)| == |TypeName(b)|;
  }

  // ---------------------------------------------------------------------------
  // The solved list as a JavaScript array passed through `new Set(...)`

  predicate NoDuplicates(s: seq<int>) {
    forall i, j :: 0 <= i < j < |s| ==> s[i] != s[j]
  }

  /**
   * `[...new Set(s)]`: each value once, in the order of its first occurrence
   * (a Set keeps insertion order and ignores re-insertion).
   */
  function Dedup(s: seq<int>): (r: seq<int>)
    ensures NoDuplicates(r)
    ensures forall x :: x in r <==> x in s
    ensures |r| <= |s|
    decreases |s|
  {
    if s == [] then []
    else
      var d := Dedup(s[..|s| - 1]);
      if s[|s| - 1] in d then d else d + [s[|s| - 1]]
  }

  /** Index of the first occurrence of `x` in `s`. */
  function FirstIndex(s: seq<int>, x: int): (i: nat)
    requires x in s
    ensures i < |s| && s[i] == x && x !in s[..i]
  {
    if s[0] == x then 0 else 1 + FirstIndex(s[1..], x)
  }

  lemma {:induction false} FirstIndexExtend(s: seq<int>, y: int, x: int)
    requires x in s
    ensures FirstIndex(s + [y], x) == FirstIndex(s, x)
  {
    if s[0] != x {
      assert (s + [y])[1..] == s[1..] + [y];
      FirstIndexExtend(s[1..], y, x);
    }
  }

  /** `Dedup` lists the distinct values of `s` in order of first occurrence. */
  lemma {:induction false} DedupFirstOccurrenceOrder(s: seq<int>, i: int, j: int)
    requires 0 <= i < j < |Dedup(s)|
    ensures FirstIndex(s, Dedup(s)[i]) < FirstIndex(s, Dedup(s)[j])
    decreases |s|
  {
    var p, y := s[..|s| - 1], s[|s| - 1];
    assert s == p + [y];
    var d := Dedup(p);
    var r := Dedup(s);
    if y in d {
      assert r == d;
      DedupFirstOccurrenceOrder(p, i, j);
      FirstIndexExtend(p, y, d[i]);
      FirstIndexExtend(p, y, d[j]);
    } else {
      assert r == d + [y];
      FirstIndexExtend(p, y, r[i]);
      if j < |d| {
        DedupFirstOccurrenceOrder(p, i, j);
        FirstIndexExtend(p, y, r[j]);
      } else {
        assert r[j] == y && y !in p;
        assert FirstIndex(s, y) == |p| by {
          assert forall m :: 0 <= m < |p| ==> s[m] == p[m];
        }
      }
    }
  }

  /** A list that already has no duplicates is returned as it is. */
  lemma {:induction false} DedupOfDistinct(s: seq<int>)
    requires NoDuplicates(s)
    ensures Dedup(s) == s
    decreases |s|
  {
    if s != [] {
      var p := s[..|s| - 1];
      DedupOfDistinct(p);
      assert s[|s| - 1] !in p;
      assert s == p + [s[|s| - 1]];
    }
  }

  /** The list `markSolved(levelId)` stores: the union of the old list with the new id. */
  function WithSolved(solved: seq<int>, levelId: int): (r: seq<int>)
    ensures levelId in r && NoDuplicates(r)
    ensures |r| <= |solved| + 1
  {
    Dedup(solved + [levelId])
  }

  /**
   * On a duplicate-free list, marking an id solved keeps the list when the id is
   * already there and appends it at the end otherwise.
   */
  lemma WithSolvedAppends(solved: seq<int>, levelId: int)
    requires NoDuplicates(solved)
    ensures levelId in solved ==> WithSolved(solved, levelId) == solved
    ensures levelId !in solved ==> WithSolved(solved, levelId) == solved + [levelId]
  {
    DedupOfDistinct(solved);
    assert (solved + [levelId])[..|solved|] == solved;
  }

  /** The new list holds the new id and every old one, nothing else, once each. */
  lemma WithSolvedContents(solved: seq<int>, levelId: int)
    ensures NoDuplicates(WithSolved(solved, levelId))
    ensures forall x :: x in WithSolved(solved, levelId) <==> x in solved || x == levelId
  {
  }

  /** Marking the same id twice gives the list marking it once gives. */
  lemma {:induction false} WithSolvedIdempotent(solved: seq<int>, levelId: int)
    ensures WithSolved(WithSolved(solved, levelId), levelId) == WithSolved(solved, levelId)
  {
    var once := WithSolved(solved, levelId);
    WithSolvedAppends(once, levelId);
  }

  // ---------------------------------------------------------------------------
  // Queries

  /** `isUnlocked(levelId)`: level 1 is always open, any other level once its predecessor is solved. */
  predicate Unlocked(solved: seq<int>, levelId: int)
    ensures levelId == 1 ==> Unlocked(solved, levelId)
    ensures solved == [] ==> (Unlocked(solved, levelId) <==> levelId == 1)
    ensures levelId != 1 && Unlocked(solved, levelId) ==> solved != [] && levelId <= NextLevel(solved)
  {
    levelId == 1 || (levelId - 1) in solved
  }

  function Max(s: seq<int>): (m: int)
    requires s != []
    ensures m in s && forall x :: x in s ==> x <= m
  {
    if |s| == 1 then s[0]
    else
      var rest := Max(s[1..]);
      assert forall x :: x in s ==> x == s[0] || x in s[1..];
      if s[0] >= rest then s[0] else rest
  }

  /** `getNextLevel()`: 1 when nothing is solved, otherwise one past the largest solved id. */
  function NextLevel(solved: seq<int>): (r: int)
    ensures solved == [] ==> r == 1
    ensures solved != [] ==> (r - 1) in solved && forall x :: x in solved ==> x < r
  {
    if |solved| == 0 then 1 else Max(solved) + 1
  }

  /** The level `getNextLevel` names is always one the player may open. */
  lemma NextLevelUnlocked(solved: seq<int>)
    ensures Unlocked(solved, NextLevel(solved))
  {
  }

  /** Solving a level opens the one after it, and keeps open every level that was open. */
  lemma WithSolvedUnlocks(solved: seq<int>, levelId: int, other: int)
    ensures Unlocked(WithSolved(solved, levelId), levelId + 1)
    ensures Unlocked(solved, other) ==> Unlocked(WithSolved(solved, levelId), other)
  {
    WithSolvedContents(solved, levelId);
  }

  /** After any solve, the next level lies beyond every solved id, the new one included. */
  lemma WithSolvedNextLevel(solved: seq<int>, levelId: int)
    ensures NextLevel(WithSolved(solved, levelId)) > levelId
    ensures solved != [] ==> NextLevel(WithSolved(solved, levelId)) >= NextLevel(solved)
  {
    WithSolvedContents(solved, levelId);
    var after := WithSolved(solved, levelId);
    assert levelId in after;
    if solved != [] {
      assert NextLevel(solved) - 1 in after;
    }
  }

  // ---------------------------------------------------------------------------
  // The stored form: JSON text of an integer array

  function JoinCommas(parts: seq<string>): string
    decreases |parts|
  {
    if |parts| == 0 then ""
    else if |parts| == 1 then parts[0]
    else parts[0] + "," + JoinCommas(parts[1..])
  }

  /** The comma-separated fields of `s` (always at least one, possibly empty). */
  function SplitCommas(s: string): (r: seq<string>)
    ensures |r| >= 1
    decreases |s|
  {
    if s == [] then [""]
    else if s[0] == ',' then [""] + SplitCommas(s[1..])
    else
      var rest := SplitCommas(s[1..]);
      [[s[0]] + rest[0]] + rest[1..]
  }

  lemma {:induction false} SplitNoComma(a: string)
    requires ',' !in a
    ensures SplitCommas(a) == [a]
    decreases |a|
  {
    if a != [] {
      SplitNoComma(a[1..]);
      assert [a[0]] + a[1..] == a;
    }
  }

  lemma {:induction false} SplitAfterField(a: string, b: string)
    requires ',' !in a
    ensures SplitCommas(a + "," + b) == [a] + SplitCommas(b)
    decreases |a|
  {
    if a == [] {
      assert a + "," + b == [','] + b;
      assert (a + "," + b)[1..] == b;
    } else {
      assert (a + "," + b)[1..] == a[1..] + "," + b;
      SplitAfterField(a[1..], b);
      assert [a[0]] + a[1..] == a;
    }
  }

  lemma {:induction false} SplitJoin(parts: seq<string>)
    requires |parts| >= 1
    requires forall i :: 0 <= i < |parts| ==> ',' !in parts[i]
    ensures SplitCommas(JoinCommas(parts)) == parts
    decreases |parts|
  {
    if |parts| == 1 {
      SplitNoComma(parts[0]);
    } else {
      SplitAfterField(parts[0], JoinCommas(parts[1..]));
      SplitJoin(parts[1..]);
      assert [parts[0]] + parts[1..] == parts;
    }
  }

  function IntLiterals(xs: seq<int>): (r: seq<string>)
    ensures |r| == |xs| && forall i :: 0 <= i < |xs| ==> r[i] == IntToString(xs[i])
  {
    if xs == [] then [] else [IntToString(xs[0])] + IntLiterals(xs[1..])
  }

  /** `JSON.stringify` of an integer array: `[` , the literals separated by commas, `]`. */
  function EncodeLevels(xs: seq<int>): (r: string)
    ensures |r| >= 2 && r[0] == '[' && r[|r| - 1] == ']'
    ensures xs == [] ==> r == "[]"
  {
    "[" + JoinCommas(IntLiterals(xs)) + "]"
  }

  function ParseFields(fields: seq<string>): (r: Option<seq<int>>)
    ensures r.Some? ==> |r.value| == |fields|
    decreases |fields|
  {
    if fields == [] then Some([])
    else
      match ParseInt(fields[0])
      case None => None
      case Some(x) =>
        match ParseFields(fields[1..])
        case None => None
        case Some(rest) => Some([x] + rest)
  }

  /**
   * `JSON.parse` of the stored text, read as an integer array: brackets around
   * comma-separated integer literals; anything else does not decode.
   */
  function DecodeLevels(text: string): (r: Option<seq<int>>)
    ensures r.Some? ==> |text| >= 2 && text[0] == '[' && text[|text| - 1] == ']'
  {
    if |text| >= 2 && text[0] == '[' && text[|text| - 1] == ']' then
      var body := text[1..|text| - 1];
      if body == "" then Some([]) else ParseFields(SplitCommas(body))
    else
      None
  }

  lemma {:induction false} ParseFieldsLiterals(xs: seq<int>)
    ensures ParseFields(IntLiterals(xs)) == Some(xs)
    decreases |xs|
  {
    if xs != [] {
      var lits := IntLiterals(xs);
      var tail := IntLiterals(xs[1..]);
      assert lits == [IntToString(xs[0])] + tail;
      assert lits[0] == IntToString(xs[0]) && lits[1..] == tail;
      ParseIntRoundTrip(xs[0]);
      ParseFieldsLiterals(xs[1..]);
      ParseFieldsStep(lits, xs[0], xs[1..]);
      assert [xs[0]] + xs[1..] == xs;
    }
  }

  lemma ParseFieldsStep(fields: seq<string>, x: int, rest: seq<int>)
    requires fields != [] && ParseInt(fields[0]) == Some(x) && ParseFields(fields[1..]) == Some(rest)
    ensures ParseFields(fields) == Some([x] + rest)
  {
  }

  lemma IntLiteralHasNoComma(x: int)
    ensures ',' !in IntToString(x)
  {
    var s := IntToString(x);
    if x < 0 {
      assert forall i :: 1 <= i < |s| ==> s[i] == s[1..][i - 1];
    }
  }

  /** What the store is given decodes to exactly the list that was encoded. */
  lemma DecodeEncode(xs: seq<int>)
    ensures DecodeLevels(EncodeLevels(xs)) == Some(xs)
  {
    var parts := IntLiterals(xs);
    var text := EncodeLevels(xs);
    assert text[1..|text| - 1] == JoinCommas(parts);
    if xs != [] {
      forall i | 0 <= i < |parts| ensures ',' !in parts[i] {
        IntLiteralHasNoComma(xs[i]);
      }
      SplitJoin(parts);
      assert JoinCommas(parts) != "" by {
        assert |JoinCommas(parts)| >= |parts[0]|;
      }
      ParseFieldsLiterals(xs);
    }
  }

  // ---------------------------------------------------------------------------
  // Loading

  function Lookup(items: map<string, string>, key: string): Option<string> {
    if key in items then Some(items[key]) else None
  }

  /**
   * The list after the load effect: a missing or empty stored value, or one that
   * does not decode, leaves the current list; a decodable one replaces it.
   */
  function LoadedLevels(current: seq<int>, stored: Option<string>): (r: seq<int>)
    ensures r == current || (stored.Some? && DecodeLevels(stored.value) == Some(r))
  {
    match stored
    case None => current
    case Some(text) =>
      if text == "" then current
      else
        match DecodeLevels(text)
        case None => current
        case Some(xs) => xs
  }

  lemma LoadCases(current: seq<int>, stored: Option<string>)
    ensures stored.None? ==> LoadedLevels(current, stored) == current
    ensures stored.Some? && DecodeLevels(stored.value).None? ==> LoadedLevels(current, stored) == current
    ensures stored.Some? && DecodeLevels(stored.value).Some? ==> LoadedLevels(current, stored) == DecodeLevels(stored.value).value
  {
  }

  /** A list written by `markSolved` is the list the next load produces. */
  lemma LoadAfterSave(current: seq<int>, xs: seq<int>)
    ensures LoadedLevels(current, Some(EncodeLevels(xs))) == xs
  {
    DecodeEncode(xs);
  }

  // ---------------------------------------------------------------------------
  // State

  /** The browser's local store: string keys to string values. */
  class LocalStore {
    var items: map<string, string>

    constructor (initial: map<string, string>)
      ensures items == initial
    {
      items := initial;
    }

    method SetItem(key: string, value: string)
      modifies this
      ensures items == old(items)[key := value]
    {
      items := items[key := value];
    }
  }

  /** The hook's state for one game type over a shared local store. */
  class GameProgress {
    const kind: GameType
    const store: LocalStore
    var solvedLevels: seq<int>
    var isLoaded: bool

    constructor (kind: GameType, store: LocalStore)
      ensures this.kind == kind && this.store == store
      ensures solvedLevels == [] && !isLoaded
    {
      this.kind := kind;
      this.store := store;
      solvedLevels := [];
      isLoaded := false;
    }

    /** The mount effect: read the key, decode it if present, and mark the state loaded. */
    method Load()
      modifies this
      ensures isLoaded
      ensures solvedLevels == LoadedLevels(old(solvedLevels), Lookup(store.items, StorageKey(kind)))
    {
      var key := StorageKey(kind);
      if key in store.items && store.items[key] != "" {
        var decoded := DecodeLevels(store.items[key]);
        if decoded.Some? {
          solvedLevels := decoded.value;
        }
      }
      isLoaded := true;
    }

    /** `markSolved`: store the union with the new id and write the same list to the store. */
    method MarkSolved(levelId: int)
      modifies this, store
      ensures solvedLevels == WithSolved(old(solvedLevels), levelId)
      ensures store.items == old(store.items)[StorageKey(kind) := EncodeLevels(solvedLevels)]
      ensures isLoaded == old(isLoaded)
      ensures NoDuplicates(solvedLevels) && levelId in solvedLevels
      ensures Unlocked(solvedLevels, levelId + 1)
      ensures DecodeLevels(store.items[StorageKey(kind)]) == Some(solvedLevels)
    {
      var updated := Dedup(solvedLevels + [levelId]);
      solvedLevels := updated;
      store.SetItem(StorageKey(kind), EncodeLevels(updated));
      WithSolvedUnlocks(old(solvedLevels), levelId, 1);
      DecodeEncode(updated);
    }
  }
}
