# Christmas games: a Dafny model of the game logic

The site offers three party games and a host dashboard: matchstick puzzles
and an emoji quiz whose local progress is kept in browser storage, a
"forehead" word game with a 45-second round, and a live leaderboard fed by
two completion tables. This project models the logic behind those pages:

- `text.dfy` (`Text`): the ECMAScript string operations the pages rely on:
  integer rendering, `padStart`, `startsWith`, `trim`, the truncating `%`,
  and the `m:ss` clock text shared by the quiz and the leaderboard. It also
  holds parsers that invert these renderings.
- `progress.dfy` (`Progress`): the `useGameState` hook. It covers the storage
  key per game type and `markSolved` (append, then de-duplicate keeping first
  occurrences), `isUnlocked` and `getNextLevel`. Persistence is modelled as
  JSON text in a key/value store; `LocalStore` stands for `localStorage`.
- `emoji_quiz.dfy` (`EmojiQuiz`): the quiz page as a class whose handlers
  update its state: start, next, previous, finish, insert settled, timer tick.
  It also covers the elapsed-seconds arithmetic and `formatTime`.
- `forehead.dfy` (`Forehead`): the Fisher-Yates shuffle over a copied array,
  the deck choice with its fallback, and the word cursor that wraps around.
  It also models the countdown effect as a step function, and the game as a
  class.
- `leaderboard.dfy` (`Leaderboard`): the live-insert handlers (append, then
  stable sort by key), the per-puzzle filtered views, `formatDuration` and
  the medal/rank labels.
- `layout.dfy` (`Layout`): the layout wrapper. It decides from the path
  whether the navigation bar is shown and chooses the main area's padding.

Timestamps are integers in milliseconds. Every reading of the clock
(`Date.now()`) and every draw of `Math.random()` is an explicit parameter.
ECMAScript truthiness is written out where the code relies on it:
- a timestamp of 0 counts as missing;
- an empty stored string counts as no stored value;
- a duration of 0 is shown as the placeholder;
- an empty word id is not sent for update.

Behaviours of the code that the model keeps:
- The submitted quiz duration is floored with `Math.floor`.
- The storage key is `christmas_games_` followed by the game type.
- The live-insert handlers append the new record and re-sort; a record
  already in the list is not removed or merged.
- `handleFinish` runs whatever view is showing.

Replaying the forehead game after a round ran out shows a quirk of the
effect. `startGame` sets the state to loading while `timeLeft` is still 0,
so the countdown effect immediately sets it to finished again.
`Forehead.ForeheadGame.BeginStart` states this outcome.

## Model

| member | source | states |
|---|---|---|
| Text.IsBlank | src/app/emojis/page.tsx:31 | a team name is refused exactly when every character is ECMAScript whitespace (WhiteSpace or LineTerminator) |
| Text.PadStart | src/app/emojis/page.tsx:84 | a shorter string is left-filled to the width and keeps its original characters at the end; a long enough one is unchanged |
| Text.JsRem | src/app/emojis/page.tsx:83 | `a % b` is `a - b * trunc(a / b)`: dividend equals divisor times the truncated quotient plus the remainder, whose sign follows the dividend and whose size is below the divisor |
| Text.ParseIntRoundTrip | src/hooks/useGameState.ts:26 | the decimal text of every integer reads back as that integer |
| Text.IntToStringInjective | src/hooks/useGameState.ts:26 | distinct integers have distinct texts |
| Text.ClockRoundTrip | src/app/emojis/page.tsx:81-85 | for non-negative seconds, the `m:ss` text reads back as 60 × minutes + seconds, which is the same count |
| Progress.StorageKey | src/hooks/useGameState.ts:9 | the key starts with the shared prefix and continues with the game type's name |
| Progress.StorageKeyInjective | src/hooks/useGameState.ts:9 | the puzzle and emoji games never share a storage entry |
| Progress.WithSolved | src/hooks/useGameState.ts:24 | the stored list holds the new id, has no duplicates, and grows by at most one |
| Progress.Dedup | src/hooks/useGameState.ts:24 | the result has no duplicates, holds exactly the input's members, and is no longer than the input |
| Progress.DedupFirstOccurrenceOrder | src/hooks/useGameState.ts:24 | the de-duplicated list orders values by their first occurrence in the input, as a `Set` iterates |
| Progress.DedupOfDistinct | src/hooks/useGameState.ts:24 | a list without duplicates is left exactly as it is |
| Progress.WithSolvedAppends | src/hooks/useGameState.ts:24 | on a duplicate-free list, marking appends a new id at the end and leaves a known id's list unchanged |
| Progress.WithSolvedContents | src/hooks/useGameState.ts:24 | after marking, the list is duplicate-free and its members are the old members plus the id |
| Progress.WithSolvedIdempotent | src/hooks/useGameState.ts:23-27 | marking the same level twice equals marking it once |
| Progress.Unlocked | src/hooks/useGameState.ts:29-32 | level 1 is always open; with no progress only level 1 is; any other open level lies at or below the next level |
| Progress.Max | src/hooks/useGameState.ts:36 | the maximum is a member of the list and no member exceeds it |
| Progress.NextLevel | src/hooks/useGameState.ts:34-37 | 1 for no progress; otherwise one more than a solved level, and above every solved level |
| Progress.NextLevelUnlocked | src/hooks/useGameState.ts:29-37 | the level offered next is always unlocked |
| Progress.WithSolvedUnlocks | src/hooks/useGameState.ts:23-32 | marking a level unlocks the following one, and every level that was unlocked stays unlocked |
| Progress.WithSolvedNextLevel | src/hooks/useGameState.ts:23-37 | after marking a level the next level is past it, and never goes back for non-empty progress |
| Progress.EncodeLevels | src/hooks/useGameState.ts:26 | the stored text is a bracketed array, `[]` for no progress |
| Progress.DecodeLevels | src/hooks/useGameState.ts:15 | only bracketed text decodes; each comma-separated field must be a canonical integer literal |
| Progress.DecodeEncode | src/hooks/useGameState.ts:26 | the JSON text written for a list of level ids parses back to that list |
| Progress.LoadedLevels | src/hooks/useGameState.ts:12-19 | the load either keeps the current list or takes exactly the list the stored text decodes to |
| Progress.LoadCases | src/hooks/useGameState.ts:12-19 | loading keeps the current list when nothing (or an empty string) is stored, or when parsing fails; otherwise it takes the parsed list |
| Progress.LoadAfterSave | src/hooks/useGameState.ts:12-26 | loading what `markSolved` stored restores exactly the saved list |
| Progress.LocalStore.SetItem | src/hooks/useGameState.ts:26 | writing an item replaces that key's value and leaves every other key as it was |
| Progress.GameProgress.constructor | src/hooks/useGameState.ts:5-9 | a new hook instance has no solved levels and is not loaded |
| Progress.GameProgress.Load | src/hooks/useGameState.ts:11-21 | the load effect sets the loaded flag and replaces the list with the parsed stored value when there is one |
| Progress.GameProgress.MarkSolved | src/hooks/useGameState.ts:23-27 | the list becomes the de-duplicated append; storage at this game's key gets its JSON text, which decodes back to the list; the next level unlocks |
| EmojiQuiz.WholeSeconds | src/app/emojis/page.tsx:24 | the result is the floor of the millisecond difference over 1000, bracketed to within one second |
| EmojiQuiz.WholeSecondsMonotone | src/app/emojis/page.tsx:22-25 | later clock readings never show fewer elapsed seconds |
| EmojiQuiz.FinishDuration | src/app/emojis/page.tsx:52 | the submitted duration brackets the elapsed milliseconds over 1000, measured from 0 when there is no start time |
| EmojiQuiz.TotalTime | src/app/emojis/page.tsx:118 | the time shown on FINISH is 0 unless both timestamps are truthy; otherwise it is the floored difference in seconds |
| EmojiQuiz.TotalTimeIsSubmittedDuration | src/app/emojis/page.tsx:50-64 | for a started quiz, the time shown on FINISH equals the duration sent to the completion table |
| EmojiQuiz.FormatTime | src/app/emojis/page.tsx:81-85 | the quiz's clock text for non-negative seconds reads back as that count |
| EmojiQuiz.QuizSession.constructor | src/app/emojis/page.tsx:12-18 | the page opens on START at question 0 with no timestamps, an empty name and nothing submitting |
| EmojiQuiz.QuizSession.SetTeamName | src/app/emojis/page.tsx:103 | only the team name changes |
| EmojiQuiz.QuizSession.HandleStart | src/app/emojis/page.tsx:30-36 | a blank name changes nothing; otherwise the quiz starts at `now` on question 0 with elapsed 0 |
| EmojiQuiz.QuizSession.HandleNext | src/app/emojis/page.tsx:38-42 | advances by one except on the last of the ten questions, where it stays |
| EmojiQuiz.QuizSession.HandlePrev | src/app/emojis/page.tsx:44-48 | goes back by one except on the first question, where it stays |
| EmojiQuiz.QuizSession.HandleFinish | src/app/emojis/page.tsx:50-64 | stops the clock, shows FINISH and marks the submission in flight; the row carries the team name and the floored duration, with a missing start counting as 0 |
| EmojiQuiz.QuizSession.SubmitSettled | src/app/emojis/page.tsx:58-71 | whether the insert succeeds or fails, submitting ends and the view stays |
| EmojiQuiz.QuizSession.Tick | src/app/emojis/page.tsx:20-28 | the interval updates elapsed only in QUIZ with a truthy start time |
| EmojiQuiz.FinishedEvenWhenInsertFails | src/app/emojis/page.tsx:50-71 | a started and finished quiz ends on FINISH, not submitting, even if the insert fails; it shows the elapsed whole seconds, which is the duration submitted under the team name |
| Forehead.SwapIndex | src/app/forehead/page.tsx:24 | the random partner index never exceeds the current position |
| Forehead.ShuffleArray | src/app/forehead/page.tsx:21-28 | the shuffled deck is a permutation of the input; decks of at most one word are returned unchanged |
| Forehead.FallbackDeck | src/app/forehead/page.tsx:49 | the fallback deck holds the built-in words, in order and without ids |
| Forehead.FetchWords | src/app/forehead/page.tsx:30-50 | a non-empty fetch is a permutation of the fetched rows; an empty or failed fetch is a permutation of the fallback deck, and none of its words has an id |
| Forehead.LastSeenTarget | src/app/forehead/page.tsx:78-80 | an update is sent exactly when the current word exists and has a truthy id, and it names that id |
| Forehead.NoIdsNoUpdate | src/app/forehead/page.tsx:62-80 | a fallback-style deck without ids never triggers a last-seen update |
| Forehead.NextIndex | src/app/forehead/page.tsx:87-92 | the cursor moves to the next word, and wraps to 0 after the last one, staying in range |
| Forehead.AdvanceCompose | src/app/forehead/page.tsx:87-92 | a moves and then b moves equal a + b moves |
| Forehead.AdvanceFirstLap | src/app/forehead/page.tsx:87-92 | from the first word, k moves land on word k within the first lap and back on word 0 after a full lap |
| Forehead.AdvanceRevolves | src/app/forehead/page.tsx:87-92 | advancing through a full deck's worth of words returns the cursor to where it would otherwise be |
| Forehead.CountdownEffect | src/app/forehead/page.tsx:101-103 | when no timer is armed, a time of 0 forces the finished state and nothing else changes |
| Forehead.Tick | src/app/forehead/page.tsx:95-105 | while playing with time left, one second is taken off; otherwise the effect's zero check applies; time never goes negative |
| Forehead.CountdownRuns | src/app/forehead/page.tsx:95-105 | from t seconds of play, k ticks leave t − k seconds while k < t, and end the round finished at 0 otherwise |
| Forehead.FinishedStaysFinished | src/app/forehead/page.tsx:95-105 | a finished round at 0 stays finished at 0 |
| Forehead.RoundEndsAtZero | src/app/forehead/page.tsx:95-105 | a full 45-second round ends finished at 0 |
| Forehead.ForeheadGame.constructor | src/app/forehead/page.tsx:14-17 | the game opens in the lobby with 45 seconds, cursor 0 and no words |
| Forehead.ForeheadGame.BeginStart | src/app/forehead/page.tsx:52-53 | starting shows loading, except after a finished round, where the effect flips it straight back to finished |
| Forehead.ForeheadGame.CompleteStart | src/app/forehead/page.tsx:54-59 | the fetched deck is installed with the cursor at 0 and 45 seconds, and play begins |
| Forehead.ForeheadGame.NextWord | src/app/forehead/page.tsx:74-93 | outside play nothing changes; in play it reports the current word's id and moves the cursor with wrap-around |
| Forehead.ForeheadGame.CountdownTick | src/app/forehead/page.tsx:95-105 | the state and time after one tick are those of the countdown step function |
| Leaderboard.Insert | src/app/leaderboard/page.tsx:39-41 | inserting a record grows the list by one and yields a permutation of the list plus that record |
| Leaderboard.InsertSorted | src/app/leaderboard/page.tsx:39-41 | inserting a record into a sorted list keeps it sorted |
| Leaderboard.SortBy | src/app/leaderboard/page.tsx:39-41 | the comparator sort returns a sorted permutation of its input |
| Leaderboard.SortByStable | src/app/leaderboard/page.tsx:39-41 | for every key value, records with that key keep their original relative order |
| Leaderboard.WithKeyInsert | src/app/leaderboard/page.tsx:39-41 | inserting into a sorted list places the record after every record with an equal key |
| Leaderboard.SortOfSorted | src/app/leaderboard/page.tsx:39-41 | sorting an already sorted list leaves it unchanged |
| Leaderboard.SortAfterAppend | src/app/leaderboard/page.tsx:39-41 | appending to a sorted list and re-sorting equals inserting the record in place |
| Leaderboard.AfterPuzzleInsert | src/app/leaderboard/page.tsx:39-41 | the new puzzle list is sorted by completion time and is the old list plus one copy of the record; on a sorted list it is the record inserted in place |
| Leaderboard.AfterEmojiInsert | src/app/leaderboard/page.tsx:50-52 | the new emoji list is sorted by duration (missing as 0) and is the old list plus one copy of the record; on a sorted list it is the record inserted in place |
| Leaderboard.InsertIsSortedPermutation | src/app/leaderboard/page.tsx:39-52 | each live insert adds exactly one copy of the record (duplicates are kept), drops nothing, and leaves the list sorted by its key |
| Leaderboard.ForPuzzle | src/app/leaderboard/page.tsx:131-132 | every record in a puzzle's view has that puzzle id, and the view is no longer than the list |
| Leaderboard.ForPuzzleMembers | src/app/leaderboard/page.tsx:131-132 | a puzzle's view holds exactly the records with that puzzle id |
| Leaderboard.ForPuzzleAppend | src/app/leaderboard/page.tsx:131-132 | filtering distributes over concatenation, so views keep list order |
| Leaderboard.ForPuzzleSorted | src/app/leaderboard/page.tsx:131-133 | views of a time-sorted list are time-sorted |
| Leaderboard.InsertUpdatesOneView | src/app/leaderboard/page.tsx:131-133 | a live insert leaves the other puzzles' views unchanged and inserts the record into its own puzzle's view in time order |
| Leaderboard.FormatDuration | src/app/leaderboard/page.tsx:63-68 | a missing or zero duration shows `--:--`; a positive duration shows text that reads back as that duration |
| Leaderboard.FormatDurationReadsBack | src/app/leaderboard/page.tsx:63-68 | a positive duration's text reads back as that duration; a missing or zero duration shows the placeholder, which reads back as nothing |
| Leaderboard.RankLabel | src/app/leaderboard/page.tsx:96 | the first three rows get gold, silver and bronze medals; row i after them gets `#` and i + 1 |
| Leaderboard.RankLabelInjective | src/app/leaderboard/page.tsx:96 | no two rows share a rank label |
| Leaderboard.LeaderboardView.constructor | src/app/leaderboard/page.tsx:15-17 | the dashboard opens with empty lists, still loading |
| Leaderboard.LeaderboardView.ApplyFetch | src/app/leaderboard/page.tsx:27-29 | each list is replaced only when its query returned data, and loading ends |
| Leaderboard.LeaderboardView.OnPuzzleInsert | src/app/leaderboard/page.tsx:39-41 | the puzzle list becomes the appended record sorted by completion time: a sorted permutation with one more copy of the record |
| Leaderboard.LeaderboardView.OnEmojiInsert | src/app/leaderboard/page.tsx:50-52 | the emoji list becomes the appended record sorted by duration, with a missing duration counting as 0 |
| Layout.IsHideHeader | src/components/LayoutWrapper.tsx:8-10 | a hiding path has at least seven characters and starts with a slash followed by `p` or `e`; shorter paths, the home page among them, show the bar |
| Layout.MainClass | src/components/LayoutWrapper.tsx:25 | the main area gets small padding when the bar is hidden and room for the fixed bar when it is shown |
| Layout.Render | src/components/LayoutWrapper.tsx:7-25 | the bar is shown exactly when the path is neither under `/puzzles/` nor starts with `/emojis`, and the padding matches |
| Layout.HideHeaderExtends | src/components/LayoutWrapper.tsx:8-10 | hiding is decided by a prefix, so every extension of a hiding path also hides |
| Layout.WhereTheBarShows | src/components/LayoutWrapper.tsx:8-21 | both navigation links lead to pages without the bar; the home page, the bare `/puzzles` path, the forehead game and the leaderboard keep it |

## Left out

- The remote database is not modelled. Each query, insert, update and
  realtime subscription becomes a parameter: an `Option` for a result, or the
  row handed back by a handler. Error logging is dropped.
- The leaderboard's `fetchData` returns early when the database URL is not
  configured. `ApplyFetch` models only a fetch that completed.
- Timers and `async` interleavings are not modelled. Each handler, effect run
  and timer firing is one method call. Effects that read stale closure values
  between renders are not modelled.
- The confetti, the forehead page's background flash and all markup are not
  modelled.
- `Math.random()` becomes a sequence of draws in [0, 1), one per swap.
- `Date` parsing of `completed_at` and `toLocaleTimeString` are not modelled.
  Completion times are integers in milliseconds.
- Numbers are unbounded integers. Floating-point level ids, durations and
  timestamps are not modelled.
- The data module of built-in forehead words is not part of this model. The
  fallback word list is a parameter.
- Progress.GameProgress.Load: a stored value is parsed only if it is a compact
  JSON array of integer literals, as `JSON.stringify` writes it. Any other
  text `JSON.parse` would accept, such as arrays with spaces, floats or
  non-array values, is treated as a parse failure that keeps the current list.
- The puzzle rows' plain position numbers on the leaderboard are not modelled
  separately. They are the row index plus one.
