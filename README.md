# Interactive widgets of the presentation site, modelled in Dafny

The site is a scrolling presentation. Almost all of it is static content and scroll animation. Four components keep state that the user changes, and this project models those four:

- **Review quiz** (`review.dfy`, module `Review`). A list of `{question, options, answer}` items is loaded once. Each question is then answered in three steps: select an option, reveal the answer, go to the next question. Revealing scores the question at most once. After the last question the quiz is finished, and a restart goes back to the first question with the same list. Class `Quiz` has the component's state fields: `currentIndex`, `selectedOption`, `showAnswer`, `score`, `completed`. It also has a ghost history `picks`, the option locked in at each reveal. Every method states what becomes of `picks`: a successful reveal appends the selection, restart clears it, the others keep it. The invariant `Valid()` says `score == Correct(questions, picks)`, the number of right picks, which bounds the score by the questions reached.
- **Opening activity** (`opening_activity.dfy`, module `OpeningActivity`). One question with the choices A, B and C; C is right. A selection locks the choices, is written to browser storage under `opening-activity-choice`, and comes back on the next mount only if the stored string is `A`, `B` or `C`. A reset clears it in memory and in storage. Browser storage is class `Storage`, a map from string to string whose methods `GetItem`, `SetItem` and `RemoveItem` behave like the Web Storage calls of the same names. Because the storage object outlives the widget (class `Activity`), a second mount can be shown to read what the first one wrote.
- **Milestone image carousel** (`milestone.dfy`, module `Milestone`). `Milestone1` and `Milestone2` contain the same carousel code line for line, so class `ImageCarousel` models both. An image index moves forwards and backwards modulo the image count: by the arrow buttons, by an auto-slide tick, or directly by an indicator dot. A boolean shows or hides the long description. JavaScript's `%` is modelled as a remainder truncated towards zero (`JsRemainder`). The operands here are never negative, where it agrees with Dafny's `%`.
- **Timeline accordion** (`section1.dfy`, module `Section1`). `expandedItem` is either no card or one card id. Clicking a card opens it, or closes it if it is the open one.

The UI disables some controls, and the handlers rely on that. Their preconditions say so:
- `Quiz.GoNext` requires `showAnswer`, because the next button is disabled until the answer is shown.
- `Activity.HandleSelect` requires that nothing is selected, because the choices are disabled once one is picked.
- `ImageCarousel.SelectImage` requires an index in range, because there is one indicator per image.

Where a handler guards itself, the guard is modelled as a no-op branch, not as a precondition: `HandleSelect` and `RevealAnswer` of the quiz.

The model follows the code in these details:
- The restore effect checks the stored value against `A`/`B`/`C` (`OpeningActivity.tsx:25`), so an unknown stored value restores nothing.
- Nothing catches a failing storage call, so there is no "storage unavailable" path.
- `handleSelect` takes a `ChoiceKey`, so a key outside the choice set cannot be passed; `ChoiceKey` is a closed datatype.
- A failed quiz fetch leaves an empty list. That renders the same "loading" view as a fetch still in flight (`Quiz.View` returns `Loading` for both).

## Model

| member | source | states |
|---|---|---|
| Review.Correct | src/components/Review.tsx:49-51 | the number of revealed picks that equal their question's answer is at most the number of picks |
| Review.CorrectSnoc | src/components/Review.tsx:49-51 | one more reveal adds exactly 1 to the count if the pick equals that question's answer, and 0 otherwise |
| Review.CorrectIsFull | src/components/Review.tsx:49-51 | the count equals the number of picks iff every pick was the right answer |
| Review.ProgressPercent | src/components/Review.tsx:36-39 | 0 without questions, otherwise currentIndex / total of 100; always in [0, 100) while the index is in range |
| Review.Quiz.ScoreBound | src/components/Review.tsx:16-20 | in every valid state, score <= currentIndex + (1 if shown), hence score <= number of questions |
| Review.Quiz.constructor | src/components/Review.tsx:15-20 | on mount: no questions, index 0, no selection, not shown, score 0, not completed |
| Review.Quiz.Load | src/components/Review.tsx:23-33 | the loaded list (possibly empty) replaces the empty one; no other field changes; the invariant holds |
| Review.Quiz.HandleSelect | src/components/Review.tsx:41-44 | before the reveal the selection becomes the given option, so only the last pick is kept; after the reveal nothing changes |
| Review.Quiz.RevealAnswer | src/components/Review.tsx:46-52 | no-op when already shown, nothing selected or no current question; otherwise shown, and score + 1 iff selection == answer, else unchanged |
| Review.Quiz.GoNext | src/components/Review.tsx:54-62 | requires the answer shown; before the last question index + 1, selection cleared, not shown; on the last, completed with index and score kept |
| Review.Quiz.Restart | src/components/Review.tsx:64-70 | index 0, no selection, not shown, score 0, not completed; questions untouched |
| Review.Quiz.View | src/components/Review.tsx:85-106 | loading iff no questions; finished shows the score <= total; otherwise question number currentIndex + 1 of total |
| Review.TwoQuestionSession | src/components/Review.tsx:41-70 | a wrong then a right answer on two questions ends completed with score 1 of 2; a second reveal does not score again |
| OpeningActivity.ChoicesWellFormed | src/components/OpeningActivity.tsx:14-18 | three choices with distinct keys A, B, C, each shown with its own name |
| OpeningActivity.ParseKey | src/components/OpeningActivity.tsx:25 | a stored string yields a key iff it is that key's name; any other string yields none |
| OpeningActivity.ParseKeyName | src/components/OpeningActivity.tsx:24-32 | parsing the stored name of a key returns that key |
| OpeningActivity.Restored | src/components/OpeningActivity.tsx:23-28 | a mount restores a key only when the storage key holds its name; a missing or other value restores nothing |
| OpeningActivity.RestoredAfterSelect | src/components/OpeningActivity.tsx:24-32 | after key k is written under the storage key, a mount restores k |
| OpeningActivity.RestoredAfterReset | src/components/OpeningActivity.tsx:24-37 | after the storage key is removed, a mount restores nothing |
| OpeningActivity.RestoredIgnoresOtherKeys | src/components/OpeningActivity.tsx:9-24 | writing or removing any other key does not change what a mount restores |
| OpeningActivity.FeedbackFor | src/components/OpeningActivity.tsx:93-101 | prompt iff nothing selected; "correct" iff the selection is C; otherwise "wrong" naming the chosen key |
| OpeningActivity.Activity.Feedback | src/components/OpeningActivity.tsx:93-101 | the widget's feedback is "correct" iff its selection is the right answer, and the prompt iff nothing is selected |
| OpeningActivity.Storage.GetItem | src/components/OpeningActivity.tsx:24 | the stored value under a key, or none when the key is absent; storage is only read |
| OpeningActivity.Storage.SetItem | src/components/OpeningActivity.tsx:32 | the entry under the key becomes the value; all other entries stay |
| OpeningActivity.Storage.RemoveItem | src/components/OpeningActivity.tsx:37 | the entry under the key is removed; all other entries stay |
| OpeningActivity.Activity.Mount | src/components/OpeningActivity.tsx:21-28 | the selection after mounting is what the storage restores; storage is only read |
| OpeningActivity.Activity.HandleSelect | src/components/OpeningActivity.tsx:30-33 | requires no selection (choices disabled after a pick); selection becomes k, k's name is stored under the storage key, every other key untouched |
| OpeningActivity.Activity.HandleReset | src/components/OpeningActivity.tsx:35-38 | selection cleared; the storage key removed; every other key untouched |
| OpeningActivity.SelectThenRemount | src/components/OpeningActivity.tsx:23-33 | round trip: select k, then a fresh mount on the same storage restores k |
| OpeningActivity.ResetTwiceThenRemount | src/components/OpeningActivity.tsx:35-38 | a second reset leaves the storage as the first did, and a later mount restores nothing |
| Milestone.JsRemainder | src/components/Milestone1.tsx:165 | JavaScript's `%` on a positive divisor; in [0, n) and equal to Dafny's `%` for non-negative dividends |
| Milestone.NextIndex | src/components/Milestone1.tsx:164-166 | stays in [0, count); it is i + 1, except that the last index wraps to 0 |
| Milestone.PrevIndex | src/components/Milestone1.tsx:168-170 | stays in [0, count); it is i - 1, except that 0 wraps to count - 1 |
| Milestone.PrevAfterNext | src/components/Milestone1.tsx:164-170 | a step back after a step forwards is the identity |
| Milestone.NextAfterPrev | src/components/Milestone1.tsx:164-170 | a step forwards after a step back is the identity |
| Milestone.Advanced | src/components/Milestone1.tsx:49-51 | any number of forward steps or auto-slide ticks keeps the index in [0, count) |
| Milestone.AdvancedCompose | src/components/Milestone1.tsx:49-51 | a forward steps followed by b forward steps equal a + b steps |
| Milestone.AdvancedWithin | src/components/Milestone1.tsx:165 | while no wrap happens, k forward steps add k to the index |
| Milestone.FullCycle | src/components/Milestone1.tsx:165 | as many forward steps as there are images return to the starting index |
| Milestone.ImageCarousel.constructor | src/components/Milestone2.tsx:18-19 | on mount: first image, description collapsed |
| Milestone.ImageCarousel.NextImage | src/components/Milestone2.tsx:165-167 | index becomes NextIndex of the old index; stays in range; the toggle is untouched |
| Milestone.ImageCarousel.PrevImage | src/components/Milestone2.tsx:169-171 | index becomes PrevIndex of the old index; stays in range; the toggle is untouched |
| Milestone.ImageCarousel.AutoSlideTick | src/components/Milestone2.tsx:50-52 | a timer tick has exactly the effect of NextImage |
| Milestone.ImageCarousel.SelectImage | src/components/Milestone2.tsx:290-293 | an indicator click sets the index to exactly the clicked in-range index |
| Milestone.ImageCarousel.ToggleExpanded | src/components/Milestone2.tsx:161-163 | the description flag is negated; the image index is untouched |
| Milestone.ToggleTwice | src/components/Milestone1.tsx:160-162 | two toggles leave the card as it was |
| Milestone.TwoImageCard | src/components/Milestone1.tsx:164-170 | a mounted two-image card: next shows image 1, a tick wraps to 0, previous wraps back to 1 |
| Milestone.TickFullCycle | src/components/Milestone1.tsx:47-56 | as many auto-slide ticks as there are images return the carousel to its image |
| Section1.Toggled | src/components/Section1.tsx:415-417 | the result is empty iff the clicked card was the open one; otherwise it is exactly the clicked card |
| Section1.OnlyClickedOpen | src/components/Section1.tsx:415-503 | after a click no other card renders as expanded, and the clicked one does iff it was not open before |
| Section1.ToggleTwice | src/components/Section1.tsx:416 | two clicks on one card end with all collapsed, unless that card was the open one, which is then open again |
| Section1.Timeline.constructor | src/components/Section1.tsx:25 | on mount no card is expanded |
| Section1.Timeline.ToggleExpanded | src/components/Section1.tsx:415-417 | the expanded card becomes Toggled(old, id): none or the clicked id |
| Section1.ClickSequence | src/components/Section1.tsx:415-417 | clicking card 1, then 2, then 2 again leaves card 2 open and then none |

`Storage.GetItem`, `SetItem` and `RemoveItem` stand in for the browser's `localStorage` calls at the cited lines; `Storage.constructor` only sets up the initial contents and models no source function.

`Milestone2.tsx` repeats `Milestone1.tsx` exactly, with these line correspondences (Milestone1 to Milestone2):
- state fields: 18-19 to 18-19
- auto-slide tick: 49-51 to 50-52
- toggle: 160-162 to 161-163
- next: 164-166 to 165-167
- previous: 168-170 to 169-171
- indicators: 253-256 to 290-293

## Left out

- The fetch of `quiz.json` (`Review.tsx:23-33`) is asynchronous I/O. Its outcome arrives as `Quiz.Load(data)`, with `[]` for a failed fetch. `Load` requires that no list is loaded yet, because the effect fetches once per mount. The effect has no cleanup, so a fetch that resolves after unmount still calls `setQuestions`; the model has no unmount step, so this case is not represented.
- Browser `localStorage` is modelled only as the `Storage` map. Quotas, other tabs and throwing storage are not modelled.
- React's batching of state updates is not modelled: each handler runs as one atomic step on one state. This is equivalent here because each handler sets each field at most once. The functional updaters read the latest pending state and compose in order: `setScore((s) => s + 1)` at `Review.tsx:50`, and `(prev) => …` at `Milestone1.tsx:50,165,169` and `Milestone2.tsx:51,166,170`. The plain setters read the rendered state, which is the latest state when a user event is handled.
- Floating point: `ProgressPercent` is exact real arithmetic.
- Rendering is left out: button styling for selected, correct and wrong options, captions, and labels. Four rendered items are modelled: the choice of view (`Quiz.View`), the progress-bar width (`ProgressPercent`, `Review.tsx:81`), the feedback line (`FeedbackFor`) and which timeline card renders expanded (`Section1.IsExpanded`, `Section1.tsx:489,503`).
- Navigation to story pages (`handleImageClick`) is left out.
- All GSAP and ScrollTrigger animation timelines are left out: presentation timing.
- The audio player, the section detection of the next-section button, the typing effect of the hero, the story detail page, `Milestone3` (a boolean flip like the carousel toggle) and the static content components carry no state logic of their own and are not part of this model.
- Milestone.ImageCarousel: the image count is a constructor parameter required to be positive. Both cards use 2 (`ImageCount`, mounted in `TwoImageCard`). The source never divides by an empty image list.
