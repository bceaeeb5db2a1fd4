# Kidz learning app: the game rules in Dafny

This project models the rules behind the exercises and learning pages of a React
learning app for young children, and proves properties of them. The rules are pulled
out of the components:

- the memory (colour-sequence) game;
- the number-to-word matching game and its hook;
- the numbers, alphabet and phonics carousels;
- the jigsaw puzzle and its timer display;
- the word builder;
- shape sorting;
- the counting quiz;
- the ABC quiz.

Each game's state is a `class` whose fields are the component's state variables. Its
event handlers are methods with `modifies this`. Each method is proved against a pure
transition function on a state datatype, and the properties (scores, levels, the
consecutive-win bonus, conservation of letters, a board that stays a permutation of the
grid cells) are proved about those functions. Loops in the source are `while` loops
carrying invariants:

- `generateSequence`;
- the shape and option generators;
- the numbers list;
- the puzzle's layout and Fisher-Yates shuffle, which works in place on an `array`.

Pure helpers (number words, carousel arithmetic, `formatTime`, sentence templates) are
functions with lemmas.

Shared modules:

- `Chance` stands for `Math.random`. A draw is a fraction `num/den` in [0, 1), and
  `Pick(d, n)` is `floor(d * n)`. Every `sort(() => Math.random() - 0.5)` becomes a list
  of swaps chosen by the caller, so a shuffle is only known to be a permutation.
- `Streak` is the consecutive-correct counter that fires the rocket bonus on every third
  win and then restarts at 0.
- `Decimal` is `Number.toString` on naturals and its inverse.
- `Carousel` is next/previous index arithmetic with wrap-around.

Timed callbacks (`setTimeout`) are modelled by their net effect. Either they are merged
into the handler, or they are a separate method the caller invokes when the timer fires.
A `useEffect` that regenerates a round when its dependency changes is folded into the
method that changes the dependency.

## Model

| member | source | states |
|---|---|---|
| Streak.Bump | src/components/exercises/MemoryGame.tsx:117-123 | a win moves the counter up by one; it returns to 0 exactly when the win is the third in a row (the rocket fires), so a counter below 3 stays below 3 |
| Streak.EveryThirdWin | src/components/exercises/MemoryGame.tsx:117-123 | after k wins in a row from 0 the counter is k mod 3 and the rocket has fired k div 3 times |
| Streak.StaysBelowBonus | src/components/exercises/MemoryGame.tsx:117-123 | from any counter below 3, any number of wins keeps it below 3 |
| Chance.Pick | src/components/exercises/MemoryGame.tsx:65 | `floor(random * n)` is an index below n for every draw |
| Chance.PickReaches | src/components/exercises/MemoryGame.tsx:65 | every index below n is the outcome of some draw |
| Chance.Swap | src/components/exercises/PuzzleGame.tsx:65-70 | exchanging two positions swaps exactly those two elements and leaves every other one alone |
| Chance.SwapPermutes | src/components/exercises/PuzzleGame.tsx:65-70 | an exchange keeps the multiset of elements |
| Chance.Shuffle | src/components/exercises/NumberMatch/hooks/useNumberMatch.ts:36 | a random-comparator sort keeps the length of the list |
| Chance.ShufflePermutes | src/components/exercises/NumberMatch/hooks/useNumberMatch.ts:36 | whatever the comparator's choices, the sorted list is a permutation: same multiset |
| Chance.Rearrange | src/components/exercises/WordBuilder.tsx:50 | a shuffle driven by arbitrary swap choices (taken modulo the length) is still a permutation |
| Chance.RearrangeFits | src/components/exercises/WordBuilder.tsx:50 | with in-range swaps, the modulo form is exactly the plain shuffle |
| Chance.ShuffleKeepsDistinct | src/components/exercises/ABCQuiz.tsx:53 | shuffling a list of distinct elements leaves them distinct |
| Decimal.Show | src/components/exercises/NumberMatch/hooks/useNumberMatch.ts:27 | `toString` of a natural is a non-empty digit string, without a leading zero unless the number is 0, one character long exactly for numbers below 10 |
| Decimal.ParseShow | src/components/exercises/NumberMatch/hooks/useNumberMatch.ts:27 | reading back the decimal text gives the number again |
| Decimal.ParseLeadingZero | src/components/exercises/PuzzleGame.tsx:150 | padding with a leading '0' does not change the value read back |
| Decimal.PadStart | src/components/exercises/PuzzleGame.tsx:150 | `padStart(width, '0')` gives length max(width, length), ends with the original text and has only '0's before it |
| Carousel.Next | src/components/AlphabetPage.tsx:43-45 | the next index stays in range: one more, or 0 after the last |
| Carousel.Prev | src/components/AlphabetPage.tsx:47-49 | the previous index stays in range: one less, or the last after 0 |
| Carousel.PrevAfterNext | src/components/AlphabetPage.tsx:43-49 | going forward and then back returns to the same card |
| Carousel.NextAfterPrev | src/components/AlphabetPage.tsx:43-49 | going back and then forward returns to the same card |
| Carousel.ForwardIsModular | src/components/NumbersPage.tsx:89-91 | pressing next k times moves to (i + k) mod len |
| Alphabet.DataInOrder | src/components/AlphabetPage.tsx:9-35 | the alphabet table has 26 entries, letters 'A'..'Z' in order, and each word starts with its letter |
| Alphabet.LettersDistinct | src/components/exercises/ABCQuiz.tsx:9-36 | two entries share a letter exactly when they are the same entry |
| AlphabetPage.NextLetter | src/components/AlphabetPage.tsx:43-45 | the next letter's index: one more, or A (0) after Z, always in [0, 26) |
| AlphabetPage.PrevLetter | src/components/AlphabetPage.tsx:47-49 | the previous letter's index: one less, or Z (25) before A, always in [0, 26) |
| AlphabetPage.LetterNavigation | src/components/AlphabetPage.tsx:43-49 | Z wraps to A and A back to Z; next and previous undo each other; next moves to the following letter of the alphabet |
| AlphabetPage.Sentence | src/components/AlphabetPage.tsx:80 | the spoken sentence is the letter, then the five characters " for ", then the word, and nothing else |
| AlphabetPage.SentencesDistinct | src/components/AlphabetPage.tsx:85 | different cards speak different sentences |
| PhonicsPage.LevelSizes | src/components/PhonicsPage.tsx:12-74 | the beginner, intermediate and advanced lists hold 26, 12 and 10 sounds, never none |
| PhonicsPage.WithColors | src/components/PhonicsPage.tsx:77-87 | card i copies letter, sound and word from entry i and takes colour i mod 12 |
| PhonicsPage.ColorsDistinct | src/components/PhonicsPage.tsx:77-87 | the palette has 12 distinct colours |
| PhonicsPage.ColorCycle | src/components/PhonicsPage.tsx:77-87 | cards 12 apart share a colour; cards closer than 12 never do |
| PhonicsPage.NextSound | src/components/PhonicsPage.tsx:106-108 | the next sound is (i + 1) mod len, inside the list |
| PhonicsPage.PrevSound | src/components/PhonicsPage.tsx:110-112 | the previous sound is (i - 1 + len) mod len, inside the list |
| PhonicsPage.SoundNavigation | src/components/PhonicsPage.tsx:106-112 | next and previous undo each other for every index of every level |
| PhonicsPage.Sentence | src/components/PhonicsPage.tsx:139 | the sentence is the letter, " makes the ", the sound, " sound, like in " and the word, in that order and nothing else |
| PhonicsPage.SentencesDiffer | src/components/PhonicsPage.tsx:144 | two sounds whose letters are not prefixes of one another speak different sentences |
| NumberWords.Below100Injective | src/components/exercises/NumberMatch/hooks/useNumberMatch.ts:15-28 | two numbers below 100 with the same English word are equal |
| NumberWords.Below100 | src/components/exercises/NumberMatch/hooks/useNumberMatch.ts:15-28 | every number below 100 has a non-empty English word |
| NumberMatchHook.NumberWord | src/components/exercises/NumberMatch/hooks/useNumberMatch.ts:15-28 | below 100 it is the English word (ones, teens, tens, tens-ones); from 100 on it is decimal text that reads back as the number |
| NumberMatchHook.RoundNumbers | src/components/exercises/NumberMatch/hooks/useNumberMatch.ts:31-32 | round r holds the six consecutive numbers starting at 6(r - 1) |
| NumberMatchHook.WordsOf | src/components/exercises/NumberMatch/hooks/useNumberMatch.ts:33 | word i is the word of number i |
| NumberMatchHook.RoundWords | src/components/exercises/NumberMatch/hooks/useNumberMatch.ts:30-39 | the shuffled word column is a permutation of the round's words |
| NumberMatchHook.FindNumber | src/components/exercises/NumberMatch.tsx:45 | a number found for a word is on the board and has that word; when none is found, no number on the board has it |
| NumberMatchHook.FindNumberOfWord | src/components/exercises/NumberMatch.tsx:45 | looking up the word of n (all below 100) finds n exactly when n is on the board |
| NumberMatchHook.RoundNumbersBelow100 | src/components/exercises/NumberMatch/hooks/useNumberMatch.ts:31-32 | every number of rounds 1 to 3 is below 18, so it has an English word |
| NumberMatchHook.Initial | src/components/exercises/NumberMatch/hooks/useNumberMatch.ts:5-13 | the game opens in round 1 with score 0, nothing matched, not complete, no selections, no wrong attempts, streak 0, no rocket, and round 1's numbers with their shuffled words |
| NumberMatchHook.Reset | src/components/exercises/NumberMatch/hooks/useNumberMatch.ts:118-128 | reset returns to the opening state; only the rocket flag survives |
| NumberMatchHook.Checked | src/components/exercises/NumberMatch/hooks/useNumberMatch.ts:67-116 | a right match adds 10, clears both selections and bumps the streak. Below six pairs the number joins the matched set. The sixth pair completes the game in round 3 and otherwise starts the next round with nothing matched and new shuffled words. A wrong match adds one wrong attempt, resets the streak and clears the selections, changing nothing else |
| NumberMatchHook.InitialInv | src/components/exercises/NumberMatch/hooks/useNumberMatch.ts:5-41 | the opening state satisfies the game invariant: round in 1..3, the board's numbers and a permutation of their words, matched pairs a subset of the board with fewer than six unless complete, score 10 per matched pair over the rounds played |
| NumberMatchHook.CheckedInv | src/components/exercises/NumberMatch/hooks/useNumberMatch.ts:67-116 | checking an unmatched board number against any word keeps the invariant |
| NumberMatchHook.ScoredInv | src/components/exercises/NumberMatch/hooks/useNumberMatch.ts:70-89 | a right match that does not finish the round keeps the invariant |
| NumberMatchHook.CompletedInv | src/components/exercises/NumberMatch/hooks/useNumberMatch.ts:91-95 | the sixth pair of round 3 completes the game and keeps the invariant |
| NumberMatchHook.NextRoundInv | src/components/exercises/NumberMatch/hooks/useNumberMatch.ts:96-101 | the sixth pair of rounds 1 and 2 starts the next round and keeps the invariant |
| NumberMatchHook.MissedInv | src/components/exercises/NumberMatch/hooks/useNumberMatch.ts:104-115 | a wrong match keeps the invariant |
| NumberMatchHook.OnlyOwnWordMatches | src/components/exercises/NumberMatch/hooks/useNumberMatch.ts:68-70 | on the board, only a number's own word can match it |
| NumberMatchHook.NumberMatchGame.constructor | src/components/exercises/NumberMatch/hooks/useNumberMatch.ts:5-41 | the hook's state starts in the opening state, invariant established |
| NumberMatchHook.NumberMatchGame.SelectNumber | src/components/exercises/NumberMatch.tsx:36 | selecting a number records it and changes nothing else |
| NumberMatchHook.NumberMatchGame.SelectWord | src/components/exercises/NumberMatch.tsx:48 | selecting a word records it and changes nothing else |
| NumberMatchHook.NumberMatchGame.CheckMatch | src/components/exercises/NumberMatch/hooks/useNumberMatch.ts:67-116 | the fields end as `Checked` describes, invariant kept |
| NumberMatchHook.NumberMatchGame.Score | src/components/exercises/NumberMatch/hooks/useNumberMatch.ts:70-85 | the right-match updates: matched set, score, selections, streak |
| NumberMatchHook.NumberMatchGame.StartNextRound | src/components/exercises/NumberMatch/hooks/useNumberMatch.ts:96-99 | the round timeout: next round, empty matched set, new board |
| NumberMatchHook.NumberMatchGame.Miss | src/components/exercises/NumberMatch/hooks/useNumberMatch.ts:104-115 | the wrong-match updates and the cleared selections |
| NumberMatchHook.NumberMatchGame.ResetGame | src/components/exercises/NumberMatch/hooks/useNumberMatch.ts:118-128 | the fields end as `Reset` describes, invariant kept |
| NumberMatchBoard.NumberClickedInv | src/components/exercises/NumberMatch.tsx:33-42 | clicking any board number keeps the game invariant |
| NumberMatchBoard.NumberClicked | src/components/exercises/NumberMatch.tsx:33-42 | a matched number changes nothing; otherwise it is selected, and with a word already selected the pair is checked: both selections clear and 10 points come exactly when the word is the number's |
| NumberMatchBoard.WordClicked | src/components/exercises/NumberMatch.tsx:44-54 | a word whose number is matched changes nothing; otherwise it is selected, and with a number already selected the pair is checked: both selections clear and 10 points come exactly when the word is the number's |
| NumberMatchBoard.WordClickedInv | src/components/exercises/NumberMatch.tsx:44-54 | clicking any board word keeps the game invariant |
| NumberMatchBoard.NumberThenWord | src/components/exercises/NumberMatch.tsx:33-54 | from no selection, clicking an unmatched number and then a word scores 10 exactly when the word is the number's; otherwise it costs one wrong attempt and no points |
| NumberMatchBoard.HandleNumberClick | src/components/exercises/NumberMatch.tsx:33-42 | a matched number is ignored; otherwise it is selected and checked against a selected word, invariant kept |
| NumberMatchBoard.HandleWordClick | src/components/exercises/NumberMatch.tsx:44-54 | a word whose number is matched is ignored; otherwise it is selected and checked against a selected number, invariant kept |
| NumbersPage.PageWord | src/components/NumbersPage.tsx:11-25 | below 100 it is the English word, 100 is "One Hundred", larger numbers are decimal text |
| NumbersPage.WordsAgree | src/components/NumbersPage.tsx:11-25 | the page's word agrees with the matching game's on 0..99 and differs from it only at 100 |
| NumbersPage.Range | src/components/NumbersPage.tsx:29-40 | each level is a range inside 0..100 |
| NumbersPage.CardShows | src/components/NumbersPage.tsx:57-65 | card i shows a numeral that reads back as i, min(i, 10) objects, the page's word for i, and colour and emoji i mod 18 of the palettes |
| NumbersPage.CardFor | src/components/NumbersPage.tsx:57-65 | card i has a decimal numeral, shows min(i, 10) objects, carries `PageWord(i)`, and takes colour i mod 18 and emoji i mod 18, so both palettes are used cyclically |
| NumbersPage.Cards | src/components/NumbersPage.tsx:56-67 | the level's cards are the cards of every number of its range, in order |
| NumbersPage.BuildNumbersData | src/components/NumbersPage.tsx:56-67 | the push loop builds exactly the level's cards |
| NumbersPage.CardsBetween | src/components/NumbersPage.tsx:56-67 | the loop pushes one card per number from start to end, in order |
| NumbersPage.LevelSizes | src/components/NumbersPage.tsx:29-40 | the levels have 21, 31 and 51 cards and share their boundary numbers 20 and 50 |
| NumbersPage.CardNumbersInOrder | src/components/NumbersPage.tsx:56-67 | the cards for i < j read back j - i apart, so, placed at positions start + k by `Cards`, no number repeats on a level |
| NumbersPage.NextNumber | src/components/NumbersPage.tsx:89-91 | next is (i + 1) mod len, inside the level |
| NumbersPage.PrevNumber | src/components/NumbersPage.tsx:93-95 | previous is (i - 1 + len) mod len, inside the level |
| NumbersPage.NumberNavigation | src/components/NumbersPage.tsx:89-95 | next and previous undo each other, and len presses of next come back to the same card |
| MemoryGame.Picks | src/components/exercises/MemoryGame.tsx:62-68 | one colour per draw, each below the palette size 6 |
| MemoryGame.EverySequencePossible | src/components/exercises/MemoryGame.tsx:62-68 | every sequence of palette colours is the outcome of some draws |
| MemoryGame.GenerateSequence | src/components/exercises/MemoryGame.tsx:62-68 | the loop yields exactly `length` colours, each below 6 |
| MemoryGame.Initial | src/components/exercises/MemoryGame.tsx:20-30 | the opening state satisfies the game invariant: score 5(level - 1)(level + 4), streak below 3, the clicks so far a proper prefix of a level + 2 sequence while playing, playback only at a round's start |
| MemoryGame.Started | src/components/exercises/MemoryGame.tsx:70-77 | start deals level + 2 colours, clears the clicks and plays back the sequence, keeping score, level and streak |
| MemoryGame.Clicked | src/components/exercises/MemoryGame.tsx:94-127 | clicks are ignored during playback and outside play. A wrong colour loses and resets the streak, keeping score and level. The last right colour wins 10 × length, a level and a streak step, leaving the sequence and the playback flag as they are. Other right colours only extend the clicks |
| MemoryGame.Reset | src/components/exercises/MemoryGame.tsx:129-137 | reset gives score 0, level 1, streak 0, waiting, with empty sequence and clicks |
| MemoryGame.StartedInv | src/components/exercises/MemoryGame.tsx:70-77 | starting keeps the invariant |
| MemoryGame.ClickedInv | src/components/exercises/MemoryGame.tsx:94-127 | any click keeps the invariant, so the clicks always repeat the start of the sequence |
| MemoryGame.ResetInv | src/components/exercises/MemoryGame.tsx:129-137 | reset outside playback keeps the invariant |
| MemoryGame.RepeatingWins | src/components/exercises/MemoryGame.tsx:98-115 | repeating the rest of the sequence wins the round, adds 10 × its length and one level |
| MemoryGame.Game.constructor | src/components/exercises/MemoryGame.tsx:20-30 | the component starts in the opening state |
| MemoryGame.Game.StartGame | src/components/exercises/MemoryGame.tsx:70-77 | the fields end as `Started` describes, invariant kept |
| MemoryGame.Game.FinishShowing | src/components/exercises/MemoryGame.tsx:79-92 | the end of playback releases the click lock and changes nothing else |
| MemoryGame.Game.HandleColorClick | src/components/exercises/MemoryGame.tsx:94-127 | the fields end as `Clicked` describes, invariant kept |
| MemoryGame.Game.ResetGame | src/components/exercises/MemoryGame.tsx:129-137 | the fields end as `Reset` describes, invariant kept |
| PuzzleTime.FormatTimeReadsBack | src/components/exercises/PuzzleGame.tsx:147-151 | the text is minutes, ':' and two digits; the minutes read back as seconds div 60 and the two digits as seconds mod 60 |
| PuzzleTime.FormatTime | src/components/exercises/PuzzleGame.tsx:147-151 | the clock text is digits, a colon and exactly two digits |
| PuzzleTime.ReadFormatTime | src/components/exercises/PuzzleGame.tsx:147-151 | reading the displayed time back gives the elapsed seconds |
| PuzzleTime.FormatTimeInjective | src/components/exercises/PuzzleGame.tsx:147-151 | different times never display the same |
| Puzzle.Dimensions | src/components/exercises/PuzzleGame.tsx:37-44 | the grid is square, 3 to 5 cells a side |
| Puzzle.Size | src/components/exercises/PuzzleGame.tsx:37-44 | a puzzle has at least 9 pieces |
| Puzzle.HarderIsBigger | src/components/exercises/PuzzleGame.tsx:37-44 | easy, medium and hard are 3×3, 4×4 and 5×5: 9, 16 and 25 pieces |
| Puzzle.Cells | src/components/exercises/PuzzleGame.tsx:50-61 | the current cells of the pieces, position by position |
| Puzzle.Laid | src/components/exercises/PuzzleGame.tsx:50-61 | one unplaced piece per grid cell, at the given current cells |
| Puzzle.HomesInReadingOrder | src/components/exercises/PuzzleGame.tsx:50-61 | piece k's home is inside the grid and its id is row × cols + col |
| Puzzle.HomeCells | src/components/exercises/PuzzleGame.tsx:50-61 | one home cell per piece |
| Puzzle.HomeCellsDistinct | src/components/exercises/PuzzleGame.tsx:50-61 | no two pieces share a home |
| Puzzle.RandomCells | src/components/exercises/PuzzleGame.tsx:56-57 | the randomly drawn current cells lie inside the grid |
| Puzzle.LayOut | src/components/exercises/PuzzleGame.tsx:50-61 | the nested loops build exactly the laid-out pieces |
| Puzzle.Exchange | src/components/exercises/PuzzleGame.tsx:65-70 | exchanging two pieces' current cells swaps those cells and keeps every piece's identity and home |
| Puzzle.Exchanges | src/components/exercises/PuzzleGame.tsx:63-71 | a series of exchanges permutes the current cells and keeps every identity and home |
| Puzzle.FisherYates | src/components/exercises/PuzzleGame.tsx:63-64 | the shuffle pairs i = n-1 down to 1 with a draw j in [0, i] |
| Puzzle.ShuffleCells | src/components/exercises/PuzzleGame.tsx:63-71 | the in-place loop on the array performs exactly the Fisher-Yates exchanges |
| Puzzle.ExchangeInPlace | src/components/exercises/PuzzleGame.tsx:65-70 | the in-place field swap leaves the array as `Exchange` describes |
| Puzzle.ExchangedCellsCameFrom | src/components/exercises/PuzzleGame.tsx:63-71 | after the shuffle every piece sits on a cell some piece occupied before |
| Puzzle.InitialPiecesCanStack | src/components/exercises/PuzzleGame.tsx:56-57 | as written, independent random cells can put the first two pieces on the same cell |
| Puzzle.InitialPiecesAsWritten | src/components/exercises/PuzzleGame.tsx:46-79 | as written: one unplaced piece per grid cell, numbered in order, on the randomly drawn cells as the shuffle exchanges them |
| Puzzle.InitialLayout | src/components/exercises/PuzzleGame.tsx:46-79 | the initialisation builds exactly the corrected opening board |
| Puzzle.InitialPieces | src/components/exercises/PuzzleGame.tsx:46-79 | as intended: one unplaced piece per grid cell, numbered in order with its home in reading order, starting from the home cells before the shuffle |
| Puzzle.InitialPiecesBoard | src/components/exercises/PuzzleGame.tsx:46-79 | the opening board is a board (ids and homes in reading order, cells inside the grid and distinct, placed pieces at home) and no piece starts placed |
| Puzzle.InitialCellsInGrid | src/components/exercises/PuzzleGame.tsx:46-79 | every opening cell lies inside the grid |
| Puzzle.InitialCellsDistinct | src/components/exercises/PuzzleGame.tsx:46-79 | no two pieces start on the same cell |
| Puzzle.FindAt | src/components/exercises/PuzzleGame.tsx:106 | the occupant found is the first piece on that cell; when none is found the cell is empty |
| Puzzle.DropOnPieceStacks | src/components/exercises/PuzzleGame.tsx:111-119 | as written, a drop on another piece leaves both pieces on the target cell, the occupant unchanged |
| Puzzle.DroppedAsWritten | src/components/exercises/PuzzleGame.tsx:101-135 | as written: the dragged piece lands on the target and is placed exactly when that is its home, and no other piece moves, not even the occupant |
| Puzzle.DropStacksExample | src/components/exercises/PuzzleGame.tsx:111-119 | a two-piece board with distinct cells loses distinctness after one drop as written |
| Puzzle.Dropped | src/components/exercises/PuzzleGame.tsx:101-135 | the dragged piece moves to the target and is placed exactly when that is its home; an occupant moves to the dragged piece's old cell with its flag recomputed; every other piece and every identity and home stay |
| Puzzle.DroppedBoard | src/components/exercises/PuzzleGame.tsx:101-135 | a drop inside the grid keeps a board: the cells remain a permutation of distinct grid cells |
| Puzzle.PlacedCount | src/components/exercises/PuzzleGame.tsx:138 | the placed count is at most the piece count; it equals it exactly when every piece is placed and is 0 exactly when none is |
| Puzzle.CompleteIsSolved | src/components/exercises/PuzzleGame.tsx:137-145 | a completed board has every piece in its home cell |
| Puzzle.Started | src/components/exercises/PuzzleGame.tsx:46-79 | starting gives a fresh board, timer 0, nothing placed, not done |
| Puzzle.DroppedOn | src/components/exercises/PuzzleGame.tsx:101-145 | with nothing dragged a drop is a no-op; otherwise the pieces drop as `Dropped` says, the drag ends, the count is the placed pieces and the puzzle is done once all are placed |
| Puzzle.DroppedOnInv | src/components/exercises/PuzzleGame.tsx:101-145 | a drop keeps the invariant, and a drop that completes the puzzle leaves every piece at home |
| Puzzle.Game.constructor | src/components/exercises/PuzzleGame.tsx:20-28 | the component starts on easy, not started, with no pieces |
| Puzzle.Game.SetDifficulty | src/components/exercises/PuzzleGame.tsx:181 | choosing a difficulty before starting changes only the difficulty |
| Puzzle.Game.Initialize | src/components/exercises/PuzzleGame.tsx:46-79 | the fields end as `Started` describes, invariant kept |
| Puzzle.Game.DragStart | src/components/exercises/PuzzleGame.tsx:91-94 | starting a drag records the piece and changes nothing else |
| Puzzle.Game.HandleDrop | src/components/exercises/PuzzleGame.tsx:101-145 | the fields end as `DroppedOn` describes, invariant kept |
| Puzzle.Game.Tick | src/components/exercises/PuzzleGame.tsx:81-89 | the timer counts a second only while started and not done |
| Puzzle.Game.ChooseAnother | src/components/exercises/PuzzleGame.tsx:354 | returning to the menu only clears the started flag |
| WordBuilder.WordAt | src/components/exercises/WordBuilder.tsx:22-31 | every word has 3 to 7 letters |
| WordBuilder.ExtraPool | src/components/exercises/WordBuilder.tsx:45 | the pool of extra letters has 24 letters |
| WordBuilder.ExtraCount | src/components/exercises/WordBuilder.tsx:48 | min(4, 8 - length): the pile never exceeds 8 letters |
| WordBuilder.ExtrasFromPool | src/components/exercises/WordBuilder.tsx:44-48 | the extras are at most `ExtraCount` letters of the pool, none of them in the word |
| WordBuilder.Extras | src/components/exercises/WordBuilder.tsx:44-48 | at most `ExtraCount` extra letters, and fewer only when the pool letters absent from the word run out |
| WordBuilder.Deal | src/components/exercises/WordBuilder.tsx:44-50 | the pile holds exactly the word's letters plus the extras, in some order |
| WordBuilder.DealIsDeal | src/components/exercises/WordBuilder.tsx:44-50 | every dealt pile contains the word's letters, stays within the size bound and adds only pool letters absent from the word |
| WordBuilder.Empty | src/components/exercises/WordBuilder.tsx:52 | n empty slots |
| WordBuilder.FirstEmpty | src/components/exercises/WordBuilder.tsx:59 | the first empty slot, preceded only by filled slots; none exactly when all are filled |
| WordBuilder.IndexOf | src/components/exercises/WordBuilder.tsx:66 | the first position of the letter in the pile |
| WordBuilder.Removed | src/components/exercises/WordBuilder.tsx:65-68 | the splice removes the first copy of the letter and keeps the letters before and after it in order, so the multiset loses exactly that one letter |
| WordBuilder.Formed | src/components/exercises/WordBuilder.tsx:84 | the joined slots are at most as long as the slots |
| WordBuilder.FormedFull | src/components/exercises/WordBuilder.tsx:113-117 | with every slot filled, the joined word has one letter per slot, in slot order |
| WordBuilder.FormedFill | src/components/exercises/WordBuilder.tsx:59-68 | filling an empty slot adds exactly that letter to the joined word's letters |
| WordBuilder.EmptyFormsNothing | src/components/exercises/WordBuilder.tsx:52 | empty slots join to the empty word |
| WordBuilder.CanSpellIff | src/components/exercises/WordBuilder.tsx:56-81 | the letters on the board can spell the word exactly when the word's multiset is contained in them |
| WordBuilder.Dealt | src/components/exercises/WordBuilder.tsx:43-54 | a new deal puts the pile on the board with the word's length of empty slots and hides the success banner, changing nothing else |
| WordBuilder.LetterPicked | src/components/exercises/WordBuilder.tsx:57-69 | with all slots full it is a no-op; otherwise the letter fills the first empty slot and its first copy is spliced out of the pile, the rest kept in order |
| WordBuilder.PickKeepsLetters | src/components/exercises/WordBuilder.tsx:57-69 | picking a letter conserves the multiset of letters on the board (slots plus pile) |
| WordBuilder.SlotCleared | src/components/exercises/WordBuilder.tsx:70-80 | clicking an empty slot is a no-op; a filled slot empties and its letter goes to the end of the pile; the letters on the board are conserved |
| WordBuilder.Checked | src/components/exercises/WordBuilder.tsx:83-111 | a wrong word changes nothing. A right word adds 10 and steps the streak. Then it moves to the next word, dealt fresh, with the level rising after every third word, or it completes the game after the last word |
| WordBuilder.Succeeded | src/components/exercises/WordBuilder.tsx:86-97 | a right word adds 10, shows success and steps the streak, changing nothing else |
| WordBuilder.Advanced | src/components/exercises/WordBuilder.tsx:99-109 | the timeout moves to the next word with a fresh deal and the level rule, or completes after the last word |
| WordBuilder.Initial | src/components/exercises/WordBuilder.tsx:12-20 | the game opens on word 0, level 1, score 0, with three empty slots and the invariant: level 1 + index div 3, 10 points per word spelled, streak below 3, one slot per letter, and the board's letters can spell the word; the pile is word 0's deal: its letters plus at most `ExtraCount` pool letters absent from it |
| WordBuilder.Restarted | src/components/exercises/WordBuilder.tsx:119-126 | restart returns to word 0, level 1, score 0, streak 0, not complete, invariant kept, with word 0 dealt afresh (its letters plus at most `ExtraCount` pool letters absent from it); only the rocket flag survives |
| WordBuilder.DealtInv | src/components/exercises/WordBuilder.tsx:43-54 | a deal that contains the word's letters keeps the invariant |
| WordBuilder.CheckedInv | src/components/exercises/WordBuilder.tsx:83-111 | checking keeps the invariant when the next deal is a proper deal of the next word |
| WordBuilder.NextWordInv | src/components/exercises/WordBuilder.tsx:99-108 | moving on after a right word keeps the invariant |
| WordBuilder.LevelStep | src/components/exercises/WordBuilder.tsx:101-104 | the level rule "add one when (index + 1) mod 3 is 0" keeps level = 1 + index div 3 |
| WordBuilder.PickedInv | src/components/exercises/WordBuilder.tsx:57-69 | picking a letter keeps the invariant and the word |
| WordBuilder.AvailableClickedInv | src/components/exercises/WordBuilder.tsx:56-117 | a pile click, with the check it may trigger, keeps the invariant |
| WordBuilder.AvailableClicked | src/components/exercises/WordBuilder.tsx:56-117 | with the slots full a pile click changes nothing; otherwise it only picks the letter, unless that spells the word, which scores 10 |
| WordBuilder.SlotClearedInv | src/components/exercises/WordBuilder.tsx:70-80 | a slot click keeps the invariant |
| WordBuilder.CompleteScore | src/components/exercises/WordBuilder.tsx:99-109 | a completed game has 80 points and ends on level 3 |
| WordBuilder.SpellingScores | src/components/exercises/WordBuilder.tsx:56-117 | clicking the word's letters in order on a fresh board spells it: 10 points, a streak step, then the next word or completion |
| WordBuilder.Builder.constructor | src/components/exercises/WordBuilder.tsx:12-41 | the component starts in the opening state, invariant established |
| WordBuilder.Builder.ResetWord | src/components/exercises/WordBuilder.tsx:43-54 | the "Reset Word" button: the fields end as `Dealt` describes for the pile that `Deal` computes, and the game invariant is kept |
| WordBuilder.Builder.Redeal | src/components/exercises/WordBuilder.tsx:43-54 | the fields end as `Dealt` describes for the given pile |
| WordBuilder.Builder.ClickAvailable | src/components/exercises/WordBuilder.tsx:56-117 | the fields end as a pile click and its check describe, invariant kept |
| WordBuilder.Builder.CheckWord | src/components/exercises/WordBuilder.tsx:83-111 | the fields end as `Checked` describes |
| WordBuilder.Builder.Advance | src/components/exercises/WordBuilder.tsx:99-109 | the fields end as `Advanced` describes |
| WordBuilder.Builder.ClickSlot | src/components/exercises/WordBuilder.tsx:70-80 | the fields end as `SlotCleared` describes, invariant kept |
| WordBuilder.Builder.RestartGame | src/components/exercises/WordBuilder.tsx:119-126 | the fields end as `Restarted` describes, invariant kept |
| ShapeSorting.ShapeCounts | src/components/exercises/ShapeSorting.tsx:37 | min(6 + 2·level, 12): 8 shapes on level 1, 10 on level 2, 12 from level 3 |
| ShapeSorting.ShapesPerLevel | src/components/exercises/ShapeSorting.tsx:37 | the level's shape count is 6 + 2·level, capped at 12 |
| ShapeSorting.ShapeIdInjective | src/components/exercises/ShapeSorting.tsx:41 | different positions get different `shape-i` ids |
| ShapeSorting.NewShape | src/components/exercises/ShapeSorting.tsx:40-45 | a new shape has id `shape-i` and is not sorted |
| ShapeSorting.Generated | src/components/exercises/ShapeSorting.tsx:35-49 | a level deals its shape count of unsorted shapes numbered `shape-0`, `shape-1`, … |
| ShapeSorting.EveryDealPossible | src/components/exercises/ShapeSorting.tsx:42-43 | every choice of types and colours is the outcome of some draws |
| ShapeSorting.GenerateShapes | src/components/exercises/ShapeSorting.tsx:35-49 | the push loop builds exactly the generated shapes |
| ShapeSorting.Bins | src/components/exercises/ShapeSorting.tsx:28-29 | colour mode shows one bin per colour, type mode one bin per type, in table order |
| ShapeSorting.OneRightBin | src/components/exercises/ShapeSorting.tsx:88-90 | every shape matches exactly one of the bins on show |
| ShapeSorting.Marked | src/components/exercises/ShapeSorting.tsx:93-97 | marking changes only `sorted` flags, and a shape ends sorted when it was sorted or has the dropped id |
| ShapeSorting.MarkedAt | src/components/exercises/ShapeSorting.tsx:93-97 | with numbered shapes, marking the id of position j sets that shape's flag and nothing else |
| ShapeSorting.SortedCount | src/components/exercises/ShapeSorting.tsx:56 | the number of sorted shapes is at most the number of shapes |
| ShapeSorting.SortedCountFull | src/components/exercises/ShapeSorting.tsx:56 | the count reaches the number of shapes exactly when every shape is sorted |
| ShapeSorting.SortedCountUpdate | src/components/exercises/ShapeSorting.tsx:93-97 | replacing one shape changes the count by the change in its flag |
| ShapeSorting.ModesByLevel | src/components/exercises/ShapeSorting.tsx:71-74 | levels 1 to 5 sort by colour, colour, type, colour, type |
| ShapeSorting.NextMode | src/components/exercises/ShapeSorting.tsx:73 | the level entered after `level` is sorted by colour exactly when it is even, since the timeout reads the old level |
| ShapeSorting.Initial | src/components/exercises/ShapeSorting.tsx:18-53 | the game opens on level 1 in colour mode with score 0 and a fresh deal |
| ShapeSorting.InitialInv | src/components/exercises/ShapeSorting.tsx:18-53 | the opening state satisfies the invariant: level in 1..5 with its mode, the level's shape count, numbered shapes, score 5·level·(level - 1) plus 10·level once completed, completed exactly when all are sorted, streak below 3 |
| ShapeSorting.DragStarted | src/components/exercises/ShapeSorting.tsx:81-83 | starting a drag records the shape and changes nothing else |
| ShapeSorting.Settled | src/components/exercises/ShapeSorting.tsx:55-67 | when every shape is sorted and the level is not yet completed, it completes with 10·level points and a streak step; otherwise nothing changes |
| ShapeSorting.Dropped | src/components/exercises/ShapeSorting.tsx:85-110 | with nothing dragged a drop is a no-op; a drop keeps level, mode and the number of shapes and ends the drag |
| ShapeSorting.Advanced | src/components/exercises/ShapeSorting.tsx:70-77 | below level 5 the level goes up by one, the mode becomes `NextMode` of the old level, a fresh deal for the new level arrives and completion clears, with score, streak, rocket and dragged shape kept; the last level stays as it is |
| ShapeSorting.Reset | src/components/exercises/ShapeSorting.tsx:112-118 | reset gives level 1, score 0, colour mode, streak 0, not completed, and a fresh level-1 deal of unsorted shapes |
| ShapeSorting.DragStartedInv | src/components/exercises/ShapeSorting.tsx:81-83 | starting a drag keeps the invariant |
| ShapeSorting.DroppedInv | src/components/exercises/ShapeSorting.tsx:85-110 | any drop keeps the invariant |
| ShapeSorting.WrongDrop | src/components/exercises/ShapeSorting.tsx:99-107 | a wrong bin resets the streak and ends the drag, leaving shapes and score alone |
| ShapeSorting.RightDrop | src/components/exercises/ShapeSorting.tsx:85-110 | the right bin sorts exactly the dragged shape. The count rises by one if it was unsorted. The level completes exactly when all are sorted, and the first completion earns 10·level |
| ShapeSorting.AdvancedInv | src/components/exercises/ShapeSorting.tsx:70-77 | moving on from a completed level keeps the invariant: the new level's mode is `ModeAt` of it and its score is the sum over the earlier levels |
| ShapeSorting.ResetInv | src/components/exercises/ShapeSorting.tsx:112-118 | reset establishes the invariant from any state |
| ShapeSorting.FinalScore | src/components/exercises/ShapeSorting.tsx:56-77 | completing level 5 means 150 points |
| ShapeSorting.RightBin | src/components/exercises/ShapeSorting.tsx:88-90 | the bin of the shape's colour or type matches it |
| ShapeSorting.SortingCompletes | src/components/exercises/ShapeSorting.tsx:55-110 | when the first k shapes are already sorted, dropping each remaining shape in its bin completes the level once: 10·level points and one streak step |
| ShapeSorting.SortingEveryShape | src/components/exercises/ShapeSorting.tsx:55-110 | dropping every shape into its right bin completes the level with 10·level points |
| ShapeSorting.Sorter.constructor | src/components/exercises/ShapeSorting.tsx:18-53 | the component starts in the opening state, invariant established |
| ShapeSorting.Sorter.Deal | src/components/exercises/ShapeSorting.tsx:35-49 | the shapes become the level's fresh deal and completion clears |
| ShapeSorting.Sorter.HandleDragStart | src/components/exercises/ShapeSorting.tsx:81-83 | the fields end as `DragStarted` describes, invariant kept |
| ShapeSorting.Sorter.CompletionEffect | src/components/exercises/ShapeSorting.tsx:55-67 | the fields end as `Settled` describes |
| ShapeSorting.Sorter.HandleDrop | src/components/exercises/ShapeSorting.tsx:85-110 | the fields end as `Dropped` describes, invariant kept |
| ShapeSorting.Sorter.Advance | src/components/exercises/ShapeSorting.tsx:70-77 | the fields end as `Advanced` describes, invariant kept |
| ShapeSorting.Sorter.ResetGame | src/components/exercises/ShapeSorting.tsx:112-118 | the fields end as `Reset` describes, invariant kept |
| CountingFun.QuestionCountBounds | src/components/exercises/CountingFun.tsx:44 | min(level + 2, 10) lies in 3..10 and is 10 from level 8 on |
| CountingFun.QuestionCount | src/components/exercises/CountingFun.tsx:44 | the level plus two, capped at 10 |
| CountingFun.WrongAnswer | src/components/exercises/CountingFun.tsx:53 | every wrong-answer draw lies in [1, count + 3] |
| CountingFun.GrownOptions | src/components/exercises/CountingFun.tsx:52-57 | when the loop ends, the options are 4 distinct values: the count first, the others in [1, count + 3] |
| CountingFun.Grown | src/components/exercises/CountingFun.tsx:52-57 | the loop stops at once with four options; when it ends, the options it started with are a prefix of at least four |
| CountingFun.LoopProgresses | src/components/exercises/CountingFun.tsx:52-57 | with fewer than 4 options, some draw adds a new option |
| CountingFun.ThreeDrawsSuffice | src/components/exercises/CountingFun.tsx:52-57 | three suitable draws finish the loop, so it can always end |
| CountingFun.GenerateOptions | src/components/exercises/CountingFun.tsx:48-57 | the while loop yields exactly the options the draws grow |
| CountingFun.Asked | src/components/exercises/CountingFun.tsx:43-67 | the question shows min(level + 2, 10) objects |
| CountingFun.AskedWell | src/components/exercises/CountingFun.tsx:43-67 | the question's options are 4 distinct values including the count, the others in [1, count + 3], and they are a permutation of the generated options |
| CountingFun.OneRightOption | src/components/exercises/CountingFun.tsx:48-60 | the count occurs exactly once among the options |
| CountingFun.Initial | src/components/exercises/CountingFun.tsx:11-19 | the game opens on level 1 with score 0, no result and not complete |
| CountingFun.Selected | src/components/exercises/CountingFun.tsx:73-105 | with a result on show it is a no-op. Otherwise the answer is recorded and judged right exactly when it is the count. A right answer adds 10 and steps the streak; a wrong one only resets the streak. Level and question stay |
| CountingFun.NextAsked | src/components/exercises/CountingFun.tsx:107-112 | next question: one level up, result cleared, a new question for the new level, score and streak kept |
| CountingFun.AfterRightAnswer | src/components/exercises/CountingFun.tsx:93-100 | the timeout after a right answer completes the game from level 8 on and otherwise moves to the next question |
| CountingFun.Reset | src/components/exercises/CountingFun.tsx:114-123 | reset gives level 1, score 0, streak 0, nothing selected, not complete, and a new level-1 question |
| CountingFun.InitialInv | src/components/exercises/CountingFun.tsx:11-71 | the opening state satisfies the invariant: a well-asked question for the level, score a multiple of 10 within 10 per level passed (plus the shown right answer), completion only after a right answer from level 8, streak below 3 |
| CountingFun.SelectedInv | src/components/exercises/CountingFun.tsx:73-105 | answering keeps the invariant |
| CountingFun.NextQuestionInv | src/components/exercises/CountingFun.tsx:107-112 | the next-question button, with a result on show, keeps the invariant |
| CountingFun.AfterRightInv | src/components/exercises/CountingFun.tsx:93-100 | the right-answer timeout keeps the invariant |
| CountingFun.ResetInv | src/components/exercises/CountingFun.tsx:114-123 | reset establishes the invariant from any state |
| CountingFun.ScoreBound | src/components/exercises/CountingFun.tsx:81-100 | the score never exceeds 10 points per level reached |
| CountingFun.SteadyRolls | src/components/exercises/CountingFun.tsx:52-57 | for every count there are draws that let the option loop finish |
| CountingFun.AllRightCompletes | src/components/exercises/CountingFun.tsx:81-112 | answering right at every level from here completes the game on level 8 with 10 points per level played |
| CountingFun.PerfectGame | src/components/exercises/CountingFun.tsx:81-123 | a game answered right throughout completes with 80 points |
| CountingFun.Counter.constructor | src/components/exercises/CountingFun.tsx:11-71 | the component starts in the opening state, invariant established |
| CountingFun.Counter.GenerateQuestion | src/components/exercises/CountingFun.tsx:43-67 | only the question changes, to the one asked for the current level |
| CountingFun.Counter.HandleAnswerSelect | src/components/exercises/CountingFun.tsx:73-105 | the fields end as `Selected` describes, invariant kept |
| CountingFun.Counter.NextQuestion | src/components/exercises/CountingFun.tsx:107-112 | the fields end as `NextAsked` describes, invariant kept |
| CountingFun.Counter.AfterRight | src/components/exercises/CountingFun.tsx:93-100 | the fields end as `AfterRightAnswer` describes, invariant kept |
| CountingFun.Counter.ResetGame | src/components/exercises/CountingFun.tsx:114-123 | the fields end as `Reset` describes, invariant kept |
| ABCQuiz.RestIndices | src/components/exercises/ABCQuiz.tsx:48-49 | the other cards: 25 distinct indices, exactly those different from the question |
| ABCQuiz.RestIsFilter | src/components/exercises/ABCQuiz.tsx:48-49 | an index is among the others exactly when its letter differs from the question's |
| ABCQuiz.Candidates | src/components/exercises/ABCQuiz.tsx:47-52 | the right card plus three shuffled others: 4 distinct cards including the right one |
| ABCQuiz.ShuffledOptions | src/components/exercises/ABCQuiz.tsx:53 | shuffling keeps 4 distinct cards including the right one |
| ABCQuiz.Options | src/components/exercises/ABCQuiz.tsx:46-57 | every generated question offers 4 distinct cards including the right one |
| ABCQuiz.ExactlyOneRight | src/components/exercises/ABCQuiz.tsx:47-53 | exactly one option carries the question's letter |
| ABCQuiz.Initial | src/components/exercises/ABCQuiz.tsx:39-61 | the quiz opens on question 0, score 0, nothing selected, not finished, with the invariant: index in [0, 26), score at most the questions answered, proper options |
| ABCQuiz.Answered | src/components/exercises/ABCQuiz.tsx:87-108 | while a result is on show an answer is ignored (the buttons are disabled then). Otherwise the score rises by one exactly when the letter is right. Before the last question the quiz moves on with new options; the last question finishes it |
| ABCQuiz.AnsweredInv | src/components/exercises/ABCQuiz.tsx:87-108 | answering keeps the invariant |
| ABCQuiz.ScoreAtMost26 | src/components/exercises/ABCQuiz.tsx:87-108 | the score never exceeds 26 |
| ABCQuiz.Quiz.constructor | src/components/exercises/ABCQuiz.tsx:39-61 | the component starts in the opening state, invariant established |
| ABCQuiz.Quiz.HandleAnswer | src/components/exercises/ABCQuiz.tsx:87-108 | the fields end as `Answered` describes, invariant kept |
| ABCQuiz.Quiz.Record | src/components/exercises/ABCQuiz.tsx:87-100 | the immediate part: the answer, the result flag and the score |
| ABCQuiz.Quiz.Advance | src/components/exercises/ABCQuiz.tsx:101-107 | the timeout: next question with new options |
| ABCQuiz.Quiz.ResetQuiz | src/components/exercises/ABCQuiz.tsx:110-115 | restarting returns to the opening state, invariant kept |

## Left out

- Sound and speech are left out: the WebAudio tones, `speechSynthesis`, the voice-feedback helper and the voice toggle. They are output only.
- Timers have no durations here. Each `setTimeout` callback is its net effect, either merged into the handler or a separate method such as `Advance` or `AfterRight`. The interleaving of a pending callback with other clicks is not modelled.
- The memory game's `showSequence` playback is only its lock: `StartGame` sets it and `FinishShowing` releases it.
- Stale closures and batched state updates are out. Each handler reads the current state and applies its updates in order. Where a reset both regenerates directly and through an effect, the net result is one fresh deal.
- Randomness is out as a distribution. Every random choice is a parameter (draws, or swap lists), and lemmas such as `EverySequencePossible` show every outcome is reachable.
- Rendering is out: JSX, CSS, drag-event plumbing, the rocket animation and its end callback, and floating-point progress and percentage displays. The shape-sorting shake animation is left out for the same reason.
- Shape-sorting bins are a datatype instead of the colour and type name strings they compare against.
- Counting objects are not modelled, neither their emoji nor their names; only the count matters to the rules.
- The numbers page's colour and emoji tables are not modelled; only their indices are.
- CountingFun.Counter.GenerateQuestion: the option loop is given finitely many draws, so its callers require draws that let it finish (`Finishes`). `ThreeDrawsSuffice` and `SteadyRolls` show such draws always exist.
- CountingFun.Counter.NextQuestion: requires the game not to be complete. Once complete, the completion screen replaces the board, so the button is not on show.
- MemoryGame.Game.ResetGame: requires the playback not to be running. Reset is reachable only from the lost screen, where playback is never running.
- WordBuilder.ExtrasFromPool: states that the number of extra letters is at most min(4, 8 - length), not exactly that number.
- WordBuilder.Builder.ClickAvailable: the next word's pile is a parameter constrained by `IsDeal`, not recomputed from swaps inside the click.
- Puzzle.Game.Tick: only the elapsed count is modelled, not the interval's start and stop.
- Puzzle images, the preview toggle and the image selector are not modelled; they do not affect the rules.
- The puzzle is modelled with the corrected initial layout and drop (see Findings). The code as written is modelled as `InitialPiecesAsWritten` and `DroppedAsWritten`, with lemmas showing where it breaks.
- The menu, welcome, profile and settings screens, the level selectors and the shared header are presentation and are not part of this model.

## Findings

| source | as written | input that shows it | evidently intended | confidence | as-written member | corrected member |
|---|---|---|---|---|---|---|
| src/components/exercises/PuzzleGame.tsx:111-119 | `draggedPieceData` is the same object as `newPieces[draggedPiece]`. Its coordinates are overwritten with the target before they are copied to the occupant, so the occupant keeps the target cell and the two pieces end up stacked | two pieces at (0,1) and (0,0); drag piece 0 onto (0,0): both are at (0,0) | swap the two pieces' cells, using the dragged piece's saved cell, and recompute both placed flags | not executed | Puzzle.DropOnPieceStacks | Puzzle.DroppedBoard |
| src/components/exercises/PuzzleGame.tsx:56-57 | every piece's starting cell is drawn independently at random, so several pieces can share a cell and others stay empty | draws of 0 for both coordinates put pieces 0 and 1 on (0,0) | start every piece on a distinct cell (its home) and let the Fisher-Yates loop at lines 63-71 permute them | not executed | Puzzle.InitialPiecesCanStack | Puzzle.InitialCellsDistinct |
