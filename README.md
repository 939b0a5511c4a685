# GoalSync goal tracker: a Dafny model

GoalSync is a single-page dashboard for team goals. Each goal has a progress bar,
a list of milestones and a comment thread. All state lives in one component,
`GoalTracker` (src/app/page.tsx), and starts from three demo goals. This project
models that state and its event handlers:

- `toggleMilestone` flips one milestone and recomputes the goal's progress as a rounded percentage.
- `addComment` appends the composer's draft to a goal's thread. A blank draft is rejected.
- `likeComment` adds one like to a comment.
- `handleAddGoal` appends a goal built from the form. A blank title is rejected, and empty optional fields get defaults.
- `toggleGoalExpansion` and the composer and dialog buttons drive the single "expanded goal" slot, the single "open composer" slot and the dialog flag.

Layout:

- `text.dfy` (module `Text`): the whitespace set that JavaScript's `trim()` removes, `Trim`, and `IsBlank`.
- `goals.dfy` (module `Goals`): `Comment`, `Milestone`, `Goal` and the form draft as datatypes. It also holds the pure list transforms that the handlers build with `goals.map(...)`, and the lemmas about them. The invariant `WellFormed` says that ids are 1-based positions and that progress lies in 0..100.
- `seed.dfy` (module `Seed`): the demo data, plus lemmas about what the handlers do to it.
- `tracker.dfy` (module `Tracker`): the class `GoalTracker`. Its fields are the component's state slots, and there is one method per handler. Each method replaces `goals` by the matching transform and names in `modifies` exactly the slots it updates.

Progress is `Math.round((c / n) * 100)` for `c` completed milestones out of `n`. It is modelled in exact integer arithmetic as `(200c + n) div 2n`. `RoundedPercent` characterises this as the integer nearest to 100c/n, with halves rounded up.

Behaviour of the code worth noting:

- A goal has no priority field (src/app/page.tsx:20-31).
- New goal and comment ids are the list length plus one (src/app/page.tsx:160,207).
- A comment's author is always "You" (src/app/page.tsx:161).
- There is a single open-composer slot, so opening one goal's composer closes any other (src/app/page.tsx:104,422). The same holds for the expanded goal (src/app/page.tsx:105,232).
- The seeded progress values 65, 42 and 20 (src/app/page.tsx:41,62,81) do not match the milestone ratios, which round to 60, 50 and 33, until a toggle recomputes them (`Seed.SeedProgressDisagreesWithMilestones`).
- A toggle recomputes the progress even when no milestone id matched (src/app/page.tsx:136-142).

## Model

| member | source | states |
|---|---|---|
| Text.TrimStart | src/app/page.tsx:151 | the result is a suffix of the input; what it drops is all whitespace; it does not start with whitespace |
| Text.TrimEnd | src/app/page.tsx:151 | the result is a prefix of the input; what it drops is all whitespace; it does not end with whitespace |
| Text.Trim | src/app/page.tsx:151 | `s.trim()` neither starts nor ends with whitespace |
| Text.TrimIsEmptyIffBlank | src/app/page.tsx:196 | `s.trim()` is empty exactly when every character of `s` is whitespace |
| Text.TrimsToEmpty | src/app/page.tsx:151 | the test `!s.trim()` that rejects a draft holds exactly for blank strings |
| Goals.WellFormedIdsDistinct | src/app/page.tsx:207 | under positional numbering, goal ids are pairwise distinct, and so are comment ids and milestone ids within each goal |
| Goals.CompletedCount | src/app/page.tsx:136 | the completed count is at most the number of milestones; it is 0 iff none is completed and n iff all are |
| Goals.RoundedPercent | src/app/page.tsx:137 | the result is 100c/n rounded half up (n(2p-1) <= 200c < n(2p+1)) and lies in 0..100 when c <= n |
| Goals.ProgressOf | src/app/page.tsx:136-137 | the progress computed from a non-empty milestone list lies in 0..100; it is 0 when no milestone is completed and 100 when all are |
| Goals.FlipMilestone | src/app/page.tsx:128-133 | same length; ids and titles kept; `completed` changes exactly on the milestones whose id matches |
| Goals.FlipMilestoneTwice | src/app/page.tsx:128-133 | flipping the same milestone id twice restores the milestone list |
| Goals.FlipAbsentMilestone | src/app/page.tsx:128-133 | if no milestone has the id, the list is unchanged |
| Goals.FlipMilestoneCount | src/app/page.tsx:128-136 | flipping the one milestone with a given id moves the completed count by exactly +1 or -1 |
| Goals.ToggledGoal | src/app/page.tsx:127-143 | the toggled goal differs from the old one only in its milestones, which are flipped, and its progress, which agrees with them and lies in 0..100 |
| Goals.ToggleMilestoneIn | src/app/page.tsx:125-146 | same length; other goals are unchanged; a matching goal changes only its milestones (flipped) and its progress, which is recomputed from them (even with no milestone match) and lies in 0..100 |
| Goals.ToggleMilestoneTwice | src/app/page.tsx:125-146 | two toggles of the same milestone restore every milestone list; a goal whose progress already agreed with its milestones comes back unchanged |
| Goals.ToggleMilestoneKeepsWellFormed | src/app/page.tsx:125-146 | a toggle keeps ids positional and progress in 0..100 |
| Goals.AppendCommentTo | src/app/page.tsx:153-170 | a matching goal gains exactly one comment at the end, earlier ones kept in order, with id old length + 1, user "You", the draft text, 0 likes and time "Just now"; nothing else changes |
| Goals.AppendCommentKeepsWellFormed | src/app/page.tsx:160 | a comment appended with id length + 1 keeps comment ids positional |
| Goals.LikeIn | src/app/page.tsx:182-187 | same length; a matching comment gains exactly one like; no other field or comment changes |
| Goals.LikeCommentIn | src/app/page.tsx:177-192 | same length; each comment `cid` of a goal `gid` gains exactly one like; no other comment, field or goal changes |
| Goals.LikeRepeatedAdds | src/app/page.tsx:177-192 | n likes add exactly n to every matching comment; every other comment, field and goal is unchanged |
| Goals.LikeCommentKeepsWellFormed | src/app/page.tsx:177-192 | liking keeps ids positional and likes non-negative |
| Goals.OrDefault | src/app/page.tsx:209-213 | `s \|\| fallback` on strings: a non-empty string is kept, and only the empty string is replaced |
| Goals.NewGoal | src/app/page.tsx:206-217 | the new goal has the given id and colour, the title as typed, progress 0, no comments and no milestones; each optional field keeps any non-empty input (whitespace included) and otherwise gets its default |
| Goals.AddGoalKeepsWellFormed | src/app/page.tsx:207 | appending the new goal with id length + 1 keeps ids positional |
| Seed.InitialGoalsWellFormed | src/app/page.tsx:36-98 | the seed has positional ids and progress in 0..100, and every seed goal has milestones |
| Seed.SeedCompletedCounts | src/app/page.tsx:49-94 | the seed goals have 3 of 5, 2 of 4 and 2 of 6 milestones completed |
| Seed.SeedProgressDisagreesWithMilestones | src/app/page.tsx:41-81 | the seeded progress values 65, 42 and 20 differ from the milestone ratios, which round to 60, 50 and 33 |
| Seed.WebsiteToggleProgress | src/app/page.tsx:49-54 | completing "Testing Phase" on "Launch New Website" gives 4 of 5 milestones done and a progress of 80 |
| Seed.SeedToggleScenario | src/app/page.tsx:49-54 | on "Launch New Website", toggling milestone 4 gives progress 80 |
| Seed.SeedToggleUnknownMilestone | src/app/page.tsx:37-57 | toggling an id that no milestone has leaves the milestones alone but changes the progress from 65 to 60 |
| Seed.SeedLikeScenario | src/app/page.tsx:46 | liking the seed comment with 3 likes gives 4; liking it n times gives 3 + n |
| Tracker.NextExpanded | src/app/page.tsx:231-233 | the slot becomes the goal exactly when it did not hold it before, and becomes empty exactly when it did |
| Tracker.GoalTracker.constructor | src/app/page.tsx:101-113 | the initial state is the seed goals, empty drafts and nothing open, and it satisfies the invariant |
| Tracker.GoalTracker.ToggleMilestone | src/app/page.tsx:125-147 | the goals become the toggled list, the invariant is kept, and no other slot changes |
| Tracker.GoalTracker.AddComment | src/app/page.tsx:150-174 | with a blank draft nothing changes; otherwise the draft as typed is appended, the draft is cleared and the composer is closed, even if no goal matched |
| Tracker.GoalTracker.LikeComment | src/app/page.tsx:177-192 | the goals become the liked list, the invariant is kept, and no other slot changes |
| Tracker.GoalTracker.HandleAddGoal | src/app/page.tsx:195-228 | with a blank title nothing changes; otherwise exactly one goal with id length + 1 and a palette colour is appended at the end, the form is reset and the dialog is closed |
| Tracker.GoalTracker.ToggleGoalExpansion | src/app/page.tsx:231-233 | the expanded slot becomes the next value given by `NextExpanded`, so at most one goal is expanded |
| Tracker.GoalTracker.OpenCommentComposer | src/app/page.tsx:422 | this goal's composer becomes the single open one |
| Tracker.GoalTracker.CancelComment | src/app/page.tsx:407 | no composer is open; the draft is kept |
| Tracker.GoalTracker.SetCommentDraft | src/app/page.tsx:400 | the comment draft becomes the typed text |
| Tracker.GoalTracker.OpenAddGoal | src/app/page.tsx:267 | the dialog is shown |
| Tracker.GoalTracker.CloseAddGoal | src/app/page.tsx:455 | the dialog is hidden; the draft is kept |
| Tracker.GoalTracker.SetGoalDraft | src/app/page.tsx:465-506 | the form draft becomes the typed fields |

## Left out

- Rendering, styling, animations and icons (src/app/page.tsx:235-527): these are presentation only.
- The dark-mode flag and its effect on the document's class list (src/app/page.tsx:101,116-122,252): this is DOM I/O.
- Text.Trim: its own contract states only that the result neither starts nor ends with whitespace. That the result is the stretch of the input between a blank prefix and a blank suffix is stated by the contracts of `TrimStart` and `TrimEnd`, which it composes, and not as one clause of its own, because that combined clause is too costly for the solver.
- Floating point: `Math.round((c / n) * 100)` is modelled with exact integer arithmetic, so any rounding error of the double division is not captured.
- Tracker.GoalTracker.ToggleMilestone: it requires the goal to have at least one milestone. On a goal without milestones the source computes 0/0 and stores NaN as the progress, and NaN is not modelled. The dashboard only calls this handler from a rendered milestone, so a goal without milestones never receives it.
- Math.random in the colour choice (src/app/page.tsx:216): it is replaced by the parameter `colorIndex`, which ranges over the five palette entries.
- JavaScript numbers are doubles; ids, likes and progress are modelled as unbounded integers.
- React's batching and stale-closure semantics for `setGoals(goals.map(...))`: each handler is modelled as one atomic step on the current state.
