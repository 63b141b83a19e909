# Football World Cup score board, in Dafny

This project models the `ScoreBoard` of `src/index.js`: a live board of
football matches that can be started, scored, finished, queried for one
score, and summarised as text lines ordered by total goals.

The board is a JavaScript `Map` from a match key to a match record, so it
is modelled as an ordered sequence of entries (`Board.Entry`, key plus
`Board.Match`) with unique keys:

- `Board.Get`, `Board.Set` and `Board.Delete` behave like `Map.get`, `Map.set`
  and `Map.delete`. `Set` keeps an existing key in its position and appends
  a new one at the end. `Delete` drops the entry and closes the gap.
- The key of a pair is `home + " - " + away` (`Board.MatchKey`). Two
  different pairs can share a key (`ScoreBoards.KeyCollision`).
- `ScoreBoards.ScoreBoard` is a class whose field `board` the methods
  `StartGame`, `FinishGame` and `UpdateScore` reassign. An error is an
  `Outcome.Fail` with the message's kind, and the board is then left as it
  was. `Valid()` holds at all times: keys are unique, every entry is filed
  under the key of its own team names, and both names are non-empty.
- The clock reading `Date.now()` is the parameter `now` of `StartGame`.
- `getScore` and `getSummaryByTotalScore` only read the board. They are the
  functions `ScoreBoards.GetScore` and `Summary.GetSummaryByTotalScore` over
  the entry sequence.

How the code behaves, where its comments and documentation promise more:

- `startGame` on a pair that is already on the board does not fail. It
  replaces that match with a fresh 0-0 match in the same board position.
- `updateScore` looks the match up before it looks at the score, so an
  unknown pair with a bad score is reported as "match not found". Any
  number is accepted as a score, negative ones included. Neither
  `updateScore` nor `getScore` checks the team names.
- The comparator's tie-break reads `createdAt` from the `[key, match]`
  pairs, which have no such property. It therefore evaluates to NaN, which
  `sort` reads as "equal". Matches with equal totals stay in board order,
  which is the order in which they were added to the board, not the order
  of their creation times. Re-starting a pair that is present keeps its
  place (`ScoreBoards.RestartScenario` shows a board where this makes the
  two orders differ). Starting a pair again after `finishGame` puts it at
  the end (`Board.DeleteThenSet`).
- ECMAScript requires a stable `sort`. The model sorts by insertion
  (`Summary.SortByTotal`) and proves that every stable sort gives the same
  result (`Summary.StableSortIsSortByTotal`).

Files: `wrappers.dfy` (Option), `numerals.dfy` (decimal rendering of
scores), `board.dfy` (the ordered map), `summary.dfy` (the comparator, the
sort and the summary lines), `scoreboard.dfy` (errors, `getScore`, the
class, and the scenarios of `src/index.test.js`).

## Model

| member | source | states |
|---|---|---|
| Board.MatchKey | src/index.js:14 | the key of a pair is the home name, then " - ", then the away name (also built at src/index.js:35, :51 and :78) |
| Board.MatchKeyParts | src/index.js:14 | a key splits into the home name, " - " and the away name, at the home name's length |
| Board.Total | src/index.js:99-100 | the total of a match is its home score plus its away score |
| Board.IndexOf | src/index.js:52 | the first position holding key k, or None exactly when no entry has key k |
| Board.Get | src/index.js:79 | a match is found exactly when some entry has key k, and it is the match stored in such an entry |
| Board.Set | src/index.js:16-22 | a present key keeps its position and a new key goes to the end; every other entry is unchanged, and `get` then finds the new match |
| Board.Delete | src/index.js:41 | an absent key leaves the board unchanged; a present key shortens it by one, and with unique keys the key is gone afterwards |
| Board.GetAt | src/index.js:79 | with unique keys, looking up the key of entry i finds entry i's match |
| Board.SetGetOther | src/index.js:64-68 | setting key k does not change what any other key finds |
| Board.SetPreservesWellFormed | src/index.js:14-22 | filing a match with non-empty names under its own key keeps the board well formed |
| Board.WithoutConcat | src/index.js:41 | the reference filter distributes over concatenation |
| Board.WithoutAbsent | src/index.js:41 | the reference filter keeps a board without key k unchanged |
| Board.DeleteIsWithout | src/index.js:41 | with unique keys, delete equals the reference filter: all other entries stay, in order |
| Board.GetCons | src/index.js:79 | looking up a key on a board with one entry in front |
| Board.WithoutGetOther | src/index.js:41 | filtering out key k does not change what any other key finds |
| Board.DeleteGetOther | src/index.js:41 | deleting key k does not change what any other key finds |
| Board.DeleteThenSet | src/index.js:16-22 | starting a pair again after it was finished (deleted at src/index.js:41) files it behind every other entry |
| Board.DeletePreservesWellFormed | src/index.js:41 | deleting an entry keeps the board well formed |
| Numerals.Digit | src/index.js:110 | the character of a decimal digit is a digit character of that value |
| Numerals.NatToString | src/index.js:110 | the numeral is non-empty, all digits, and starts with '0' only for zero |
| Numerals.NatToStringRoundTrip | src/index.js:110 | reading the numeral of n back as a decimal gives n |
| Numerals.IntToString | src/index.js:110 | the numeral is non-empty, starts with '-' exactly for negative numbers, and is digits otherwise |
| Numerals.NatToStringInjective | src/index.js:110 | different natural numbers render differently |
| Numerals.IntToStringInjective | src/index.js:110 | different scores render differently |
| Summary.Comparator | src/index.js:98-106 | negative exactly when a's total is larger, and zero exactly when the totals are equal, whatever the creation times |
| Summary.Insert | src/index.js:98 | inserting adds exactly one entry |
| Summary.SortByTotal | src/index.js:98 | the sorted board has the board's length |
| Summary.Render | src/index.js:108-110 | one summary line is `homeTeam + " " + IntToString(homeTeamScore) + " - " + awayTeam + " " + IntToString(awayTeamScore)` |
| Summary.RenderSplit | src/index.js:110 | a summary line is the home name and a space, then the home score, then " - ", the away name, a space and the away score |
| Summary.NumeralHasNoSpace | src/index.js:110 | no character of a score's numeral is a space |
| Summary.LeadingScore | src/index.js:110 | a numeral followed by text starting with a space determines both the score and the text |
| Summary.RenderScoresInjective | src/index.js:108-110 | two summary lines for the same pair of names are equal only if both scores are equal |
| Summary.RenderAll | src/index.js:107-111 | one line per entry, line i rendering entry i |
| Summary.GetSummaryByTotalScore | src/index.js:97-114 | one line per match, and as a multiset the lines are those of the board |
| Summary.InsertPermutes | src/index.js:98 | insertion adds exactly the inserted entry to the multiset |
| Summary.InsertKeepsOrder | src/index.js:98-104 | insertion into a sequence ordered by total keeps it ordered |
| Summary.InsertWithTotal | src/index.js:98-106 | insertion keeps the order among entries of equal total |
| Summary.SortPermutes | src/index.js:98 | the sorted board is a permutation of the board |
| Summary.SortOrdersByTotal | src/index.js:99-104 | totals never increase along the sorted board |
| Summary.SortIsStable | src/index.js:106 | for every total, the entries with that total keep their board order |
| Summary.WithTotalMembers | src/index.js:99-104 | the entries selected for a total are board entries with that total |
| Summary.WithTotalFinds | src/index.js:99-104 | every entry is selected under its own total |
| Summary.WithTotalTail | src/index.js:99-104 | removing the first entry removes it from the selection of its own total only |
| Summary.SameLeadingTotal | src/index.js:99-104 | two ordered sequences with the same entries per total start with the same total |
| Summary.SortedIsUnique | src/index.js:98-106 | two sequences ordered by total with the same entries per total, in order, are equal |
| Summary.StableSortIsSortByTotal | src/index.js:98-106 | every stable sort of the board with this comparator gives SortByTotal's result |
| Summary.RenderInsert | src/index.js:107-111 | the lines of an insertion are the inserted entry's line plus the lines before |
| Summary.SummaryPermutes | src/index.js:97-111 | the summary lines are a permutation of the board's lines |
| Summary.SummarySpec | src/index.js:97-114 | the summary renders a permutation of the board that is ordered by total and keeps board order within a total |
| Summary.TestBoardOrder | src/index.test.js:85-104 | totals 3, 3, 10 sort as the 10 first, then the two 3s in board order |
| Summary.TestBoardSummary | src/index.test.js:85-104 | the test board's summary is Germany 5-5, Mexico 1-2, Spain 2-1, for any clock readings |
| Summary.TieSummary | src/index.js:106 | two entries with equal totals are summarised in board order |
| Summary.RestartBoardSummary | src/index.js:106 | the re-started board's summary keeps board order, although the first match has the later creation time |
| ScoreBoards.GetScore | src/index.js:77-91 | both scores of the match under the pair's key, and "match not found" exactly when no entry has that key |
| ScoreBoards.ScoreBoard.constructor | src/index.js:1-2 | a new board is empty and valid |
| ScoreBoards.ScoreBoard.StartGame | src/index.js:9-23 | "invalid teams" for an empty name and otherwise a 0-0 match set under the key; the board stays valid and only that key changes |
| ScoreBoards.ScoreBoard.FinishGame | src/index.js:30-42 | "invalid teams" first, then "match not found", otherwise the entry is removed with the rest kept in order; the board stays valid |
| ScoreBoards.ScoreBoard.UpdateScore | src/index.js:50-69 | "match not found" before "invalid score", otherwise the scores are replaced; names, creation time, positions and other keys are kept |
| ScoreBoards.StartAndUpdate | src/index.test.js:54-65 | starting a new pair and scoring it appends one entry with those scores |
| ScoreBoards.SummaryScenario | src/index.test.js:85-104 | the test suite's ordering scenario ends with the expected three summary lines |
| ScoreBoards.ErrorScenario | src/index.test.js:16-81 | each error case of the test suite gives its error and leaves the board unchanged |
| ScoreBoards.RestartScenario | src/index.js:14-22 | a re-started match keeps its position and is reset to 0-0; ties are summarised in board order, not creation order |
| ScoreBoards.KeyCollision | src/index.js:14 | the pairs ("Guinea - Bissau", "Chad") and ("Guinea", "Bissau - Chad") have the same key, so getScore for the second pair, never started, finds the first pair's match |

## Left out

- `Date.now()` is not modelled; its reading is the parameter `now` of `StartGame`.
- Team names are strings. A falsy name (`''`, `undefined`, `null`) is modelled as the empty string. Non-string names and the text that `undefined` or `null` produce inside a key are not modelled.
- Strings are sequences of Unicode scalar values, while JavaScript strings are sequences of UTF-16 code units, so a name holding a lone surrogate cannot be represented. No proved property depends on this.
- Scores are integers. JavaScript numbers that are fractional, NaN or infinite, and the rounding of large sums, are not modelled.
- Numerals.IntToString: does not model JavaScript's exponent notation for scores of magnitude 1e21 or more.
- ScoreBoards.ScoreBoard.UpdateScore: a missing `score` argument makes the source throw a TypeError when it destructures it; the model has no such case, because `ScoreUpdate` always has both sides.
- Object identity is not modelled: the source stores a fresh match object on every `set`, and the model stores values.
- Summary.Comparator: the NaN that the tie-break evaluates to is modelled as 0, which is how `sort` reads it.
- Summary.SortByTotal: the engine's own sort algorithm is not modelled; insertion sort stands for it, and StableSortIsSortByTotal shows that any stable sort gives the same result.
- The Jest assertions and the test runner are not modelled. The scenarios of `src/index.test.js` appear as methods and lemmas with fixed inputs.
