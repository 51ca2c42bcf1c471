# Hanzi Wonderland session controller, in Dafny

This project models the session state machine of a flashcard app for learning Chinese
characters. The app holds a fixed bank of characters, each with a pinyin reading, a meaning
and a mnemonic. A session shuffles the bank and draws its first 20 cards. The learner marks
each card as remembered or not. When the last card is answered, the missed characters are
folded into a persistent "forgotten" list kept across sessions. That list is read back from
browser storage on load, and it can be cleared after confirmation.

The state is one record with five fields: `view`, `currentSet`, `currentIndex`,
`sessionForgotten` and `persistentForgotten`. Here it is a class, `App.AppState`, whose
methods are the app's handlers. Each method states the whole new state. A ghost field,
`answers`, records the outcome of every answered card. The invariant `Valid()` says:

- the index stays on a card of the set, or is 0 when the set is empty;
- the set is drawn from the bank;
- `sessionForgotten` holds exactly the cards answered "not remembered", in order;
- every stored character belongs to the bank.

The two pure list operations inside the handlers are functions with lemmas:

- the load filter (`FilterValid`);
- the order-preserving merge `Array.from(new Set([...stored, ...added]))`
  (`Merge`, built on `Seqs.Dedup`).

Files:

- `types.dfy` (module `Types`): the `HanziChar` record and the `View` screens, from types.ts.
  The source field `char` is called `character` here, because `char` is a Dafny keyword.
- `seqs.dfy` (module `Seqs`): duplicate-freedom, subsequences, first occurrence, and `Dedup`,
  which keeps the first occurrence of each element, as JavaScript's `Set` does.
- `app.dfy` (module `App`): `CHARS_PER_SET = 20`, the load filter, the merge, session
  sampling, the record of missed cards, and the `AppState` class with its handlers.

Inputs that are not deterministic become parameters:

- The random sort `sort(() => 0.5 - Math.random())` becomes a caller-supplied permutation
  of the bank (`multiset(shuffled) == multiset(bank)`).
- The answer to the `confirm()` prompt becomes a boolean.
- Reading and parsing the stored list becomes an `Option<seq<string>>`. `None` covers
  four cases: nothing stored, an empty string, a JSON error, and a value that is not an
  array. In all four the source catches the error or skips the update, so
  `persistentForgotten` stays as it was (`[]` on mount).

Further facts about App.tsx that shape the model:

- The only entry into the quiz screen is `handleStartSession`, reached from the start screen
  or from "restart" on the results screen (App.tsx:100, App.tsx:119).
- The persistent list is an ordered list of strings. The load filter keeps repeats
  (`FilterValidMultiplicity`); only the merge at the end of a session removes duplicates.
- A session ends when `currentIndex >= currentSet.length - 1` (App.tsx:64).
- `CHARS_PER_SET` is 20 (App.tsx:8).

## Model

| member | source | states |
|---|---|---|
| App.AppState.constructor | App.tsx:12-18 | the initial state: start view, empty set, index 0, empty session and persistent lists |
| App.AppState.LoadStored | App.tsx:21-33 | loading sets the persistent list to the parsed list filtered by the bank. If nothing can be parsed, the state is unchanged. Every other field is kept |
| App.AppState.StartSession | App.tsx:40-52 | view becomes quiz, index 0, session list empty. The set is the first min(20, bank size) cards of the shuffled bank, with no duplicates if the bank has none. The persistent list is unchanged |
| App.AppState.NextChar | App.tsx:54-83 | a miss appends exactly the current card to the session list. Before the last card: the index goes up by one, the view stays quiz and the persistent list is unchanged. On the last card: the view becomes results, the index stays, and the session list is exactly the missed cards. The persistent list becomes the merge of the old list with their characters, so it is duplicate-free, holds every missed character, and has the old list as a prefix when the old list was duplicate-free |
| App.AppState.ClearHistory | App.tsx:85-89 | confirmed: the persistent list becomes empty and every other field is kept. Not confirmed: nothing changes |
| App.AppState.GoHome | App.tsx:91-93 | only the view changes, to start. Quitting mid-quiz leaves the persistent list as it was, whatever the session list holds |
| App.AppState.GoToResults | App.tsx:102 | only the view changes, to results |
| App.FilterValid | App.tsx:27 | the loaded list is no longer than the parsed one, and every entry is a character of the bank |
| App.FilterValidSubsequence | App.tsx:27 | the loaded list is a subsequence of the parsed list, in the same order |
| App.FilterValidMembers | App.tsx:27 | a character is kept if and only if it is in the parsed list and is the char of some bank item |
| App.FilterValidMultiplicity | App.tsx:27 | no de-duplication: a bank character occurs as often as in the parsed list, any other character not at all |
| App.FilterValidKeepsValid | App.tsx:27 | a parsed list made only of bank characters is loaded unchanged |
| App.Merge | App.tsx:66-67 | the merged list has no duplicates and holds exactly the characters of the stored list and the added list |
| App.MergeKeepsStored | App.tsx:67 | the de-duplicated stored list is a prefix of the merge. A duplicate-free stored list is itself a prefix, so nothing stored is dropped or moved |
| App.MergeIdempotent | App.tsx:67 | merging the same characters twice gives the same list as merging them once |
| App.MergeFirstOccurrenceOrder | App.tsx:67 | the merged list is ordered by first occurrence in the concatenation of stored and added |
| App.SessionSubsetFromBank | App.tsx:42-43 | for any permutation of the bank, the slice has min(20, bank size) cards, every card's count is at most its count in the bank (the whole bank when the bank is small), and there are no duplicates if the bank has none |
| App.MissedSubsequence | App.tsx:58-61 | the missed cards are among the cards answered, in the order they were shown |
| App.AdvancePreserves | App.tsx:55-61 | answering a card that is not the last keeps the state invariant, with the index moved to the next card |
| App.FinishPreserves | App.tsx:55-74 | answering the last card keeps the state invariant on the results screen. The session list is all the missed cards. The merged list holds every missed character and, if it was duplicate-free before, keeps the old list as a prefix |
| App.MergeMissedFacts | App.tsx:64-67 | merging a session's missed characters into a list of bank characters gives a list of bank characters that holds every missed character |
| Seqs.Dedup | App.tsx:67 | the definition of `Array.from(new Set(xs))`: each element is appended when first met and skipped later. Its properties are the Dedup lemmas below |
| App.SessionSubset | App.tsx:43 | the definition of `shuffled.slice(0, CHARS_PER_SET)`, the whole list when it is shorter. Its properties are stated by App.SessionSubsetFromBank |
| App.Chars | App.tsx:66 | the definition of `newSessionForgotten.map(h => h.char)`. Its use is stated by App.MergeMissedFacts and App.AppState.NextChar |
| App.InBank | App.tsx:27 | the definition of `HANZI_BANK.some(h => h.char === c)`. Its use is stated by the FilterValid lemmas |
| Seqs.DedupMembers | App.tsx:67 | de-duplication keeps exactly the elements of its input |
| Seqs.DedupNoDups | App.tsx:67 | the result has no duplicates |
| Seqs.DedupOfNoDups | App.tsx:67 | a duplicate-free input comes back unchanged |
| Seqs.DedupSubsequence | App.tsx:67 | the result is a subsequence of the input |
| Seqs.DedupFirstOccurrenceOrder | App.tsx:67 | the result lists elements in the order of their first occurrence |
| Seqs.DedupPrefix | App.tsx:67 | de-duplicating a longer list only adds to the end of the result |
| Seqs.DedupAbsorbs | App.tsx:67 | appending only elements already present leaves the result unchanged |

## Left out

- Rendering, animation and icons in every component. This is presentation only.
- The progress percentage in components/QuizView.tsx:16. It is floating-point arithmetic used only for display.
- The card's flip state in components/Flashcard.tsx:11-16. It is local UI state.
- The display conditions in ResultsView: the "perfect" banner, and showing the clear button only when the list is non-empty.
- StartView, which is presentation only.
- vite.config.ts, which is build configuration.
- The storage write effect (App.tsx:36-38) and the storage read and JSON parsing (App.tsx:23-25). These are I/O. The model keeps only the filter applied after parsing.
- Non-string entries of a parsed JSON array. The filter drops them, since no bank character equals them, so the model takes the parsed list as a list of strings.
- The bank data file data/hanziData is not part of this model. The bank is a constructor parameter.
- `Math.random` and the comparator sort: any resulting permutation is passed in.
- The `confirm()` dialog: its answer is passed in.
- App.AppState.NextChar: it requires the quiz view and an index on a card. Only the quiz screen offers the answer buttons (App.tsx:106-113). That screen renders `currentSet[currentIndex]` (components/QuizView.tsx:15, 47), and the card reads its `char` (components/Flashcard.tsx:40). So with an empty bank, rendering the quiz screen fails before any answer can be given. The model does not represent that rendering failure: with an empty bank, `StartSession` enters the quiz view with an empty set, and from there `NextChar` cannot be called.
