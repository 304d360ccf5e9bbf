# Expert vote stream — the voting core in Dafny

A group of experts compares a fixed list of objects. An administrator creates
a session with a number of objects and one of four elicitation methods:

- **ranking**: drag the objects into order;
- **direct**: score each object from 0 to 10;
- **pairwise**: pick a winner in every pair of objects;
- **churchman**: give each object a non-negative weight, stored normalised to sum 1.

Each expert submits one ballot: one `votes` row per object. A later ballot
replaces the earlier one. The results page averages each object's rows and
sorts the objects by that average, ascending for ranking and descending for
the other methods, ties kept in `object_order`. It then numbers the rows
from 1.

This project models:

- how the objects are created from the administrator's form;
- the editing state and ballot construction of each of the four widgets;
- the delete-then-insert submit they all share;
- the aggregation and ranking of the results page.

Numbers are mathematical reals. Storage replies are parameters.

Modules, one file each:

| module | contents |
|---|---|
| `Wrappers` | `Option` and `Result` |
| `Records` | a JS `Record<string, number>` as an association list: insert-or-replace, delete, sums |
| `Domain` | objects, vote rows with their JSON payload (`map<string, real>`, a missing field reads as 0), submit errors |
| `Store` | the shared delete-then-insert submit, as written and corrected |
| `ObjectSetup` | `trim`, the name form, `handleCreateObjects` |
| `RankingBallot` | drag and drop on the ranked list, rank rows |
| `DirectBallot` | score editing and score rows |
| `ChurchmanBallot` | weight editing, total, normalisation, weight rows |
| `PairwiseBallot` | pair generation, the comparison cursor, win counting |
| `Results` | `calculateResults`: means, the stable sort, ranks |

## Model

| member | source | states |
|---|---|---|
| Records.Put | src/components/voting/DirectVoting.tsx:49 | `{...prev, [id]: v}`: afterwards `id` maps to `v`, every other key keeps its value, keys stay unique, and the length grows by one exactly when `id` was new |
| Records.Delete | src/components/voting/DirectVoting.tsx:51-55 | `delete copy[id]`: afterwards `id` is absent, every other key keeps its value, keys stay unique |
| Records.SumBoundsValues | src/components/voting/ChurchmanVoting.tsx:59-61 | a sum of non-negative values is non-negative and at least every single value |
| Records.SumAtCoversRecord | src/components/voting/ChurchmanVoting.tsx:86-98 | summing a record through a duplicate-free key list that covers all its keys gives the sum of the record |
| Records.CountedRecordIsComplete | src/components/voting/DirectVoting.tsx:61 | a duplicate-free record with as many keys as there are objects, and only object keys, has a value for every object |
| Domain.PermutationKeepsDistinctIds | src/components/voting/RankingVoting.tsx:47-58 | reordering a list of objects keeps their ids distinct |
| Store.Replace | src/components/voting/DirectVoting.tsx:68-83 | delete-then-insert: the expert's rows in the session become exactly the new ballot; all other rows are unchanged |
| Store.SubmitAsWritten | src/components/voting/DirectVoting.tsx:59-94 | the submit as written: a refused ballot changes nothing; for an accepted ballot the expert's rows become what the delete left (none if it succeeded, the old ballot if it failed) followed by the new ballot if the insert succeeded; other experts' rows are untouched; `has_voted` becomes true exactly when a ballot was accepted and the insert succeeded |
| Store.SubmitAsWrittenKeepsStaleBallot | src/components/voting/DirectVoting.tsx:68-85 | a failed delete followed by a successful insert leaves the expert with the old ballot and the new one side by side |
| Store.Submit | src/components/voting/DirectVoting.tsx:59-94 | corrected submit: a refused ballot or a failed delete changes nothing; on success the expert's rows are exactly the ballot; a failed insert after a successful delete leaves none; others are untouched; the `has_voted` iff |
| ObjectSetup.Trim | src/pages/Voting.tsx:172 | `trim`: the result sits between an all-white-space prefix and suffix, starts and ends with a visible character, and is empty exactly when the input is all white space |
| ObjectSetup.TrimIdempotent | src/pages/Voting.tsx:182-186 | trimming a trimmed name changes nothing |
| ObjectSetup.FilledIsTrimNonEmpty | src/pages/Voting.tsx:172 | a name counts as filled exactly when its trim is non-empty |
| ObjectSetup.FilledCountBound | src/pages/Voting.tsx:172-173 | at most every name is filled; all are exactly when the count equals the number of names |
| ObjectSetup.InitialNames | src/pages/Voting.tsx:104-106 | the empty form has one blank name per object and none filled |
| ObjectSetup.EditName | src/pages/Voting.tsx:272-276 | typing into field k replaces name k and no other |
| ObjectSetup.CreateObjects | src/pages/Voting.tsx:168-186 | accepted exactly when the filled count equals `objects_count`; then one object per name in input order, trimmed, with `object_order` = position + 1, hence strictly increasing within 1..N; no name is blank when the form has exactly N fields |
| ObjectSetup.InitialFormRefused | src/pages/Voting.tsx:104-106 | submitting the untouched form is refused exactly when there is an object to name |
| RankingBallot.RemoveAt | src/components/voting/RankingVoting.tsx:53 | `splice(i, 1)`: the items before `i` stay, the later ones shift down one, the multiset loses exactly `s[i]` |
| RankingBallot.InsertAt | src/components/voting/RankingVoting.tsx:54 | `splice(i, 0, x)`: `x` lands at `i`; removing it gives back the input |
| RankingBallot.Move | src/components/voting/RankingVoting.tsx:51-54 | the dragged item lands at the target; the others keep their relative order; the multiset is unchanged |
| RankingBallot.InsertRemovedBack | src/components/voting/RankingVoting.tsx:53-54 | putting a removed item back where it was restores the list |
| RankingBallot.MoveBackRestores | src/components/voting/RankingVoting.tsx:47-58 | dragging an item back to where it came from undoes the move |
| RankingBallot.StartRanking | src/components/voting/RankingVoting.tsx:26-29 | the ranking starts as the object list, with nothing dragged |
| RankingBallot.DragStart | src/components/voting/RankingVoting.tsx:43-45 | starting a drag records the index and leaves the list alone |
| RankingBallot.DragOver | src/components/voting/RankingVoting.tsx:47-58 | no change without a dragged item or over itself; otherwise the item moves to the target and the drag follows it; always a permutation |
| RankingBallot.DragTracksItem | src/components/voting/RankingVoting.tsx:47-58 | over any sequence of drag-overs the dragged index keeps pointing at the same item |
| RankingBallot.DragKeepsPermutation | src/components/voting/RankingVoting.tsx:47-58 | any sequence of drag-overs permutes the list |
| RankingBallot.RankRows | src/components/voting/RankingVoting.tsx:71-76 | one row per ranked object, in order, with rank = position + 1 |
| RankingBallot.PositionalRanks | src/components/voting/RankingVoting.tsx:75 | ranks numbered by position form exactly the set {1..N} |
| RankingBallot.RanksAreOneToN | src/components/voting/RankingVoting.tsx:71-76 | a ranking ballot's ranks are exactly {1..N}, pairwise distinct, the first being 1 |
| RankingBallot.RankBallotCoversObjects | src/components/voting/RankingVoting.tsx:60-76 | a ballot built from a reordering of the objects has a row for every object, no object twice |
| DirectBallot.ChangeScore | src/components/voting/DirectVoting.tsx:46-57 | a number in [0, 10] is stored; an empty field deletes the score; any other input changes nothing; scores stay within [0, 10] |
| DirectBallot.ScoreRows | src/components/voting/DirectVoting.tsx:76-81 | one row per object, in object order, with `score || 0` |
| DirectBallot.CaptureScores | src/components/voting/DirectVoting.tsx:59-81 | refused with `MissingValues` exactly when the number of distinct scored keys differs from the number of objects; else the score rows, each in [0, 10] |
| DirectBallot.ScoresWithin | src/components/voting/DirectVoting.tsx:80 | with valid scores every stored score, or its 0 default, is in [0, 10] |
| DirectBallot.AcceptedBallotScoresEveryObject | src/components/voting/DirectVoting.tsx:61-81 | when only objects are scored and the ballot is accepted, every object has a score: none falls back to 0 |
| ChurchmanBallot.ChangeWeight | src/components/voting/ChurchmanVoting.tsx:46-57 | a non-negative number is stored; an empty field deletes the weight; any other input changes nothing; weights stay non-negative |
| ChurchmanBallot.TotalWeight | src/components/voting/ChurchmanVoting.tsx:59-61 | the total of non-negative weights is non-negative and at least each weight |
| ChurchmanBallot.Normalize | src/components/voting/ChurchmanVoting.tsx:86-89 | each weight divided by the total, keys and order kept; the new sum is the old sum over the total |
| ChurchmanBallot.NormalizeGet | src/components/voting/ChurchmanVoting.tsx:86-89 | a key has a normalised weight exactly when it has a weight, and the value is weight / total |
| ChurchmanBallot.NormalizedSumIsOne | src/components/voting/ChurchmanVoting.tsx:85-89 | normalised weights sum to 1 |
| ChurchmanBallot.NormalizedInUnitRange | src/components/voting/ChurchmanVoting.tsx:85-89 | normalised non-negative weights lie in [0, 1] |
| ChurchmanBallot.NormalizeKeepsOrder | src/components/voting/ChurchmanVoting.tsx:86-89 | normalising by a positive total keeps the order between any two weights, both ways |
| ChurchmanBallot.NormalizeIdempotent | src/components/voting/ChurchmanVoting.tsx:86-89 | weights that already sum to 1 normalise to themselves |
| ChurchmanBallot.WeightRows | src/components/voting/ChurchmanVoting.tsx:92-100 | one row per object, in object order; each row's `weight` reads back as `weights[id] || 0`, `normalized_weight` is present exactly when the normalised record has the id and reads back as `normalized[id] || 0` |
| ChurchmanBallot.CaptureWeights | src/components/voting/ChurchmanVoting.tsx:63-100 | `MissingValues` when the number of distinct weighted keys differs from the number of objects, then `ZeroTotalWeight` when the total is 0, else accepted; the rows carry weight `|| 0` and weight / total |
| ChurchmanBallot.RowSumIsKeySum | src/components/voting/ChurchmanVoting.tsx:92-100 | the rows' `normalized_weight` fields add up to the normalised record summed over the object ids |
| ChurchmanBallot.AcceptedBallotSumsToOne | src/components/voting/ChurchmanVoting.tsx:63-100 | an accepted ballot weighting only objects has `normalized_weight` summing to 1 over its rows |
| ChurchmanBallot.AcceptedBallotInUnitRange | src/components/voting/ChurchmanVoting.tsx:85-100 | each accepted row's `normalized_weight` lies in [0, 1] |
| PairwiseBallot.Rows | src/components/voting/PairwiseVoting.tsx:38-46 | the first i rows of the double loop hold i(2n−i−1)/2 pairs (a, b) with a < b < n and a < i |
| PairwiseBallot.AllPairsAreEachPairOnce | src/components/voting/PairwiseVoting.tsx:36-48 | the double loop yields n(n−1)/2 pairs; every pair a < b appears, each once, in lexicographic order |
| PairwiseBallot.GenerateComparisons | src/components/voting/PairwiseVoting.tsx:36-48 | the nested loops produce exactly the reference list of pairs, n(n−1)/2 of them, all unanswered |
| PairwiseBallot.StartPairwise | src/components/voting/PairwiseVoting.tsx:31-48 | the widget starts on the first comparison, none answered |
| PairwiseBallot.Choose | src/components/voting/PairwiseVoting.tsx:62-70 | the current comparison gets the picked side as winner; nothing else changes; the cursor advances unless on the last pair |
| PairwiseBallot.Previous | src/components/voting/PairwiseVoting.tsx:72-76 | the cursor steps back one, stopping at 0, and the comparisons are unchanged |
| PairwiseBallot.ChooseAll | src/components/voting/PairwiseVoting.tsx:62-70 | a run of picks keeps the pairs and keeps every winner one of its pair |
| PairwiseBallot.PickingEveryPairAnswersAll | src/components/voting/PairwiseVoting.tsx:62-83 | picking from the cursor to the end answers every comparison |
| PairwiseBallot.AnsweredStaysAnswered | src/components/voting/PairwiseVoting.tsx:62-70 | picks never un-answer a comparison |
| PairwiseBallot.WinRows | src/components/voting/PairwiseVoting.tsx:95-110 | one row per object with its win count and `total_comparisons` = the number of comparisons |
| PairwiseBallot.CapturePairwise | src/components/voting/PairwiseVoting.tsx:78-110 | refused with `UnansweredComparison` exactly when some comparison has no winner; else the win rows |
| PairwiseBallot.WinsAddUp | src/components/voting/PairwiseVoting.tsx:98-102 | when every winner is one of distinct ids, the wins over those ids add up to the number of comparisons |
| PairwiseBallot.AcceptedWinsSumToComparisons | src/components/voting/PairwiseVoting.tsx:78-110 | an accepted ballot's `wins` fields add up to the number of comparisons |
| PairwiseBallot.RowsInvolving | src/components/voting/PairwiseVoting.tsx:38-46 | the first i rows of the double loop hold i pairs involving object x while i ≤ x, and all n − 1 of them once i > x |
| PairwiseBallot.WinsAtMostOthers | src/components/voting/PairwiseVoting.tsx:95-102 | no object wins more than N − 1 comparisons |
| Results.CountRows | src/pages/Results.tsx:124 | the loop counts exactly the rows for the object |
| Results.SumRows | src/pages/Results.tsx:111-120 | every listed object starts at 0 and ends with the sum of its rows' field; rows for unlisted objects touch no listed object |
| Results.Aggregate | src/pages/Results.tsx:108-171 | every listed object gets the mean of its rows' field, and 0 when it has no rows |
| Results.MeanWithinBounds | src/pages/Results.tsx:123-128 | a mean lies within any bounds holding for every row it averages |
| Results.InsertKeepsSorted | src/pages/Results.tsx:180-187 | insertion keeps a list sorted in the method's direction |
| Results.InsertStable | src/pages/Results.tsx:180-187 | insertion keeps the items of every score in their order |
| Results.SortScored | src/pages/Results.tsx:174-187 | the sort is a sorted, stable permutation of its input |
| Results.CalculateResults | src/pages/Results.tsx:108-194 | the table lists each object as often as given, with its mean and rank = position + 1; sorted ascending for ranking, descending otherwise; equal means keep the listed order |
| Results.TiesFollowObjectOrder | src/pages/Results.tsx:180-187 | when the objects come strictly ordered by `object_order` (the query orders them so), equal means appear in increasing `object_order` |
| Results.StableSortIsUnique | src/pages/Results.tsx:174-186 | any two scored sequences sorted in the method's direction, with the same items of every score in the same order, are equal |
| Results.ResultsTableIsUnique | src/pages/Results.tsx:174-191 | any two ranking tables numbered from 1, sorted in the method's direction and listing every aggregate's objects in listed order are the same table, so the contract of `CalculateResults` fixes the page's output |

## Left out

- Authentication, the session and expert pages, realtime subscriptions, toasts and loading flags are not modelled. Only their effect on the table is.
- Concurrency is not modelled. Delete-then-insert is treated as one sequential step, so nothing is said about readers that see the table between the two calls.
- The `has_voted` update's own reply is not inspected by the code. The model assumes that update succeeds.
- `checkExistingVotes` is left out. It locks the widget when the expert already voted. The direct and Churchman widgets also reload the stored `score` / `weight` of each row into their editing state (DirectVoting.tsx:36-42, ChurchmanVoting.tsx:36-42), so a returning expert starts from their stored ballot. The model always starts from an empty record. The `hasVoted` flag that disables the buttons is left out too.
- Parsing is abstracted: `parseFloat` becomes `NumberInput` (blank, a number, or not a number). Numbers are exact reals, so floating-point rounding, `NaN`, `toFixed` display and the concordance label are not modelled.
- `Results.Aggregate`: `resultMap[id] += x` for an id not in the object list creates a `NaN` entry in the source. The model drops the row, which leaves every listed object the same.
- `Results.CalculateResults` takes the method as `Method`; `MethodNamed` maps any other `session.method` text to `Unrecognised`, whose aggregates are all 0, as in the source.
- `PairwiseBallot.StartPairwise`: when the object list changes, the source regenerates the comparisons without resetting `currentIndex`. The model starts from index 0.
- The ranking widget submits without validation. Its ballot is always accepted.
- Duplicate object ids are allowed in the object list. Lemmas that need distinct ids require them.

## Findings

| source | as written | input that shows it | evidently intended | confidence | as-written member | corrected member |
|---|---|---|---|---|---|---|
| src/components/voting/DirectVoting.tsx:68-85 (the same in every voting widget) | the result of `delete()` is never checked, so the insert runs even when the delete failed | an expert with a stored score 2 for object `a` resubmits 8; the delete fails and the insert succeeds | the old ballot is removed before the new one is stored, so the expert has one ballot | not executed | Store.SubmitAsWritten, Store.SubmitAsWrittenKeepsStaleBallot | Store.Submit |
