# Verification of the video-production pipeline's stateful cores

This project models, in Dafny, the five parts of the pipeline where state or arithmetic can go wrong,
and proves what they promise over all inputs and all runs.

| part | modules | repository files |
|---|---|---|
| Continuous-video segments: plan and replan, delete with two-pass renumbering, approve and propagate | `Segments`, `SegmentPlanning`, `SegmentContents`, `SegmentRenumbering`, `SegmentPropagation`, `SegmentRuns`, `SegmentExamples`, `SegmentSurvival`, `SegmentStores` | `app/video_generation/continuous.py`, `app/video_generation/continuous_frames.py` |
| Scene plans: sentences over shots, clips over scenes, fitting and renumbering a model-written plan | `Beats`, `Clips`, `ScriptPlans`, `Texts`, `ShotFitting`, `Runs`, `ModelPlans` | `app/storytelling/scene_plan_normalization.py` |
| Job lifecycle and in-process dispatcher under interleaving | `Jobs`, `JobRuntimes` | `app/jobs/service.py`, `app/jobs/runner.py` |
| Cost ledger | `Costs` | `app/costs/service.py` |
| Artifact versions and approvals | `Approvals` | `app/projects/versioning.py`, `app/approvals/service.py` |

Each part has the same shape. A specification gives the effect of an operation as a function from
state to state; the code that updates rows, lists and dictionaries step by step is a method, or a
method of a class with those fields, proved equal to that function; and the promises are lemmas about
the function, over whole runs where the promise is about runs. `dafny verify dfyconfig.toml` checks
everything.

## What the proofs turned up

The model follows the code. Where the code does less than its own description says, the exact
condition under which the description holds is proved.

- Deleting a segment: the docstring (`app/video_generation/continuous.py:469-472`) says the following
  segment keeps its start frame; the code clears it together with the link (lines 557-560).
  `DeletedIsWithout` states what happens.
- Links do not always name the segment numbered exactly one less. A replan may leave a gap behind
  (a later segment with work survives), and propagating a frame links across the gap: `GapRunBreaksAdjacency`.
  So does a plan that creates a segment right after a key found a lower one. The invariant that does hold
  on every run is `Segments.Valid`; `ApplyKeepsAdjacentIff` gives the guard that separates the two.
- A linked segment does not always start on its source's final frame: generating, regenerating or
  clearing a frame breaks the agreement, and so can an approval. `ApplyKeepsFramesIff` says exactly which
  writes do. (`propagate_approved_storyboard_frame` is called only from tests in this repository; what is
  proved of it here holds wherever it comes to be called.)
- A replan can take a start frame. If a segment past the new plan continues from one that is swept away,
  its own start frame goes with the link (`app/video_generation/continuous.py:970-975`), although a start
  frame counts as work: `OwnFrameIsStripped`. Which start frames some sequence of plans can take is stated by
  `ReplansKeepAllWorkIff`; never one that depends on the first segment, which every plan covers. All other
  work always survives (`ReplansNeverLoseWork`; kind by kind, `ReplansKeepEveryResult`).
- Renumbering after a delete keeps idempotency keys, which are made from the old numbers, and a create first
  looks its key up (`app/video_generation/continuous.py:712-714`). Planning an unchanged script after a delete
  therefore returns a lower, renumbered segment in place of a missing one (`KeyRunSkipsANumber`; `PlanFillsIff`
  for exactly when), and a replan that must rewrite a segment whose key a worked one still holds is refused by
  the database (`RefusedRunChangesNothing`; `PlanRaisesIff`).
- Repeated beats are to become distinct moments, but from the third shot on one sentence the results
  are equal again. `PartitionNeighboursDifferIff`: distinct if and only if there are at most twice as
  many shots as sentences.
- A cancelled job can still succeed without being resumed or retried, by way of start-up recovery: it
  reads its list of stale jobs, awaits, and dispatches the listed jobs without looking at their rows again.
  If in between a job was enqueued and started, is cancelled, and its runner fails after the cancel, the
  row is FAILED and the dispatch runs it to SUCCEEDED without even counting an attempt (`CancelIsUndone`).
  `CancelIsFinalIff` gives the exact condition; without a listing left over, no interleaving does it.
- A job enqueued again while the task of its cancelled run is still alive gets no new task, as the old one
  is still registered; once that ends the job is PENDING with nothing to run it until it is found stale
  (`EnqueuedWillStartIff`, `EnqueuedIsStranded`).
- A job created with `max_attempts` below 1 starts out PENDING with no attempt left (`CreateKeepsRowsIff`).
- An approval that repeats an earlier one of the same version is accepted and ignored, so a version
  approved, then rejected, cannot be approved again (`SpentApprovalStaysSpent`).
- Budget checks protect the limit only when checking and recording alternate (`InterleavedChecksOverspend`).

## Model

| member | source | states |
|---|---|---|
| SegmentRuns.EveryRunIsValid | app/video_generation/continuous.py:905-1049 | after every sequence of plans, replans, deletes, approvals, propagations and other writes to a row from an empty project, whatever frames were generated or cleared in it and whatever rows plans found by old keys: numbers are distinct and positive, every link names an existing earlier row, idempotency keys are distinct, and none is made from a lower number than its row has |
| SegmentRuns.RunKeepsValid | app/video_generation/continuous.py:905-1049 | the same invariant from any table that satisfies it |
| SegmentRuns.ApplyKeepsValid | app/video_generation/continuous.py:905-1049 | every single operation keeps that invariant |
| SegmentRuns.EditIsAnyContent | app/video_generation/continuous_review.py:652-690 | the edit of these runs covers every write that keeps number and link, or drops the link, and keeps the key or takes a free one: editing a prompt among them |
| SegmentRuns.ApplyKeepsFramesIff | app/video_generation/continuous.py:951-966 | "every linked row starts on its source's final frame" (null included) survives every plan, delete and propagation; it survives another write to a row if and only if the row then still starts where its source ends and its final frame is the old one or nobody continues from it, and an approval under the condition below |
| SegmentRuns.RunKeepsFrames | app/video_generation/continuous.py:905-1049 | so over every run whose approvals and other writes meet those conditions, linked frames agree throughout |
| SegmentRuns.ApplyKeepsAdjacentIff | app/video_generation/continuous.py:913-1049 | "every link names the row numbered exactly one less" survives an operation if and only if the operation writes no link across a gap: no propagation to a row numbered more than one higher, and no plan that creates or rewrites a linked row right after its payload before found a row by key |
| SegmentRuns.RunKeepsAdjacent | app/video_generation/continuous.py:905-1049 | over every run without such a link every link names the row numbered exactly one less |
| SegmentRuns.RunKeepsNested | app/video_generation/continuous.py:905-1049 | over every such run no link reaches across another |
| SegmentExamples.GapRunBreaksAdjacency | app/video_generation/continuous_frames.py:335-346 | a concrete run of four operations after which segment 3 continues from segment 1 by propagation |
| SegmentExamples.KeyRunSkipsANumber | app/video_generation/continuous.py:712-714 | plan three segments, delete the third and the first, plan the same three: the second payload finds the first segment by its old key, number 2 stays empty, and segment 3 continues from segment 1 without any propagation |
| SegmentExamples.RefusedRunChangesNothing | app/video_generation/continuous.py:1033-1042 | plan three segments, work on the second, delete the first, replan the same three: the rewrite would repeat the key that the worked segment kept, the database refuses it and nothing changes |
| SegmentExamples.PlanMayCrossLinks | app/video_generation/continuous.py:985-988 | a table on which a link written right after a hit reaches across another, so the guard is needed |
| SegmentSurvival.ReplansNeverLoseWork | app/video_generation/continuous.py:885-902 | over any sequence of plans and replans a row with work other than its start frame is never removed, and its number, prompt, status, video assets, final frame and, but for the refresh marks, metadata never change |
| SegmentSurvival.ReplansKeepEveryResult | app/video_generation/continuous.py:885-902 | the same kind by kind, read off the columns: succeeded, with a video asset, generated video or final frame, with `custom_prompt` true, or with variants, a frame or a video named in the metadata, a row survives every sequence of plans and replans with number, prompt, content, status, assets and final frame unchanged |
| SegmentSurvival.ReplanRewritesTheRest | app/video_generation/continuous.py:1014-1042 | a row in range with none of these and no start frame takes the prompt, content and key of its payload, PENDING and without results, in every replan that goes through |
| SegmentSurvival.ReplansKeepAllWorkIff | app/video_generation/continuous.py:959-1013 | all work of a row, the start frame included, survives every sequence of plans and replans of at least one segment each if and only if the start frame is not endangered: no chain of rows past the first, without other work, lies under it |
| SegmentSurvival.AgreeingIsSafe | app/video_generation/continuous.py:951-966 | where linked frames agree no start frame is endangered |
| SegmentSurvival.OwnFrameIsStripped | app/video_generation/continuous.py:967-984 | a run that plans three segments, gives the third, linked one a start frame of its own and replans to one: the frame is cleared |
| SegmentRuns.Chain | app/video_generation/continuous.py:951-966 | following links from any row ends, after at most as many rows as its number, at a row without a source |
| SegmentPlanning.SweepKeepsValid | app/video_generation/continuous.py:959-984 | unlinking and deleting the stale rows keeps the table invariant, and adjacency, frame agreement and non-crossing each if it held |
| SegmentPlanning.SweepKeepsWork | app/video_generation/continuous.py:959-984 | the stale sweep, which clears links before work is tested again, removes no row with work and touches none inside the plan's range; it takes a start frame if and only if the row continues from a stale one |
| SegmentPlanning.PlanKeepsValid | app/video_generation/continuous.py:905-1049 | a plan or replan keeps the table invariant, and frame agreement if it held |
| SegmentContents.PlanKeepsWork | app/video_generation/continuous.py:1005-1013 | on every table, no plan or replan removes a row with work or alters anything but its link, start frame and refresh marks; it keeps the start frame unless, and only unless, it goes through, replaces and sweeps away the row's source; inside the new range, or without replacing, link and source video stay as well |
| SegmentContents.PlanRowByRow | app/video_generation/continuous.py:959-1042 | the whole effect on each earlier row, by its columns: with a result or a start frame it gets the two refresh marks and no other change in range, and beyond it stays as it is or, if the plan sweeps its source away, loses just the link and what came with it; any other row, in range or past it, stays as it is without replacing, and in a replan is written anew in range and goes past it |
| SegmentContents.AddedRowIsFresh | app/video_generation/continuous.py:716-735 | every row a plan adds is numbered in its range and written from its payload |
| SegmentContents.ReplanLeavesOnlyWork | app/video_generation/continuous.py:959-1049 | after a replacing plan that goes through, a number 1..n is taken exactly if its payload is no hit, and the rows beyond n are exactly the earlier ones that carried work |
| SegmentContents.PlanFollowsPayloads | app/video_generation/continuous.py:951-1049 | after a plan the row each payload landed on is the earlier one with its work; without replacing, the earlier one unchanged; otherwise pending, without results, with the payload's content and key, and starting where the row that the payload before landed on ends, unless it is first or breaks continuity |
| SegmentContents.PlanFillsIff | app/video_generation/continuous.py:685-735 | a plan fills a number of its range if and only if no hit: a row had the number already, or no row that stays holds the payload's key |
| SegmentContents.PlanRaisesIff | app/video_generation/continuous.py:1014-1042 | a plan is refused if and only if it replaces and some payload is to rewrite an idle row while another row, with work, holds the payload's key |
| SegmentContents.OneNeverRaises | app/video_generation/continuous.py:1014-1042 | a plan of one segment is never refused and never a hit |
| SegmentContents.ShiftedKeysCollide | app/video_generation/continuous.py:1033-1042 | where two idle rows hold keys shifted by one, writing the second row's new key before the first has given it up repeats a key |
| SegmentContents.PlanKeepsAdjacentIff | app/video_generation/continuous.py:985-988 | a plan keeps adjacency if and only if it is refused or writes no link right after a hit |
| SegmentContents.PlanKeepsNested | app/video_generation/continuous.py:985-988 | under the same condition it keeps links from crossing |
| SegmentContents.LinkPastHitCrosses | app/video_generation/continuous.py:985-988 | a link written right after a hit crosses every kept link that starts between the hit's row and the new one and reaches back past the hit's row |
| SegmentRenumbering.RenumberedIsDense | app/video_generation/continuous.py:566-626 | renumbering any rows with distinct numbers gives exactly 1..n in the original order |
| SegmentRenumbering.RenumberedReferences | app/video_generation/continuous.py:603-624 | renumbering clears exactly the references to the deleted id, with the start frame they brought, stamps exactly the rows whose number changed, and alters nothing else |
| SegmentRenumbering.DeletedIsWithout | app/video_generation/continuous.py:504-535 | a delete removes the one row, clears exactly the references to it (so the following segment does lose its start frame), and keeps order and final frames |
| SegmentRenumbering.DeletedIsDense | app/video_generation/continuous.py:504-535 | and leaves numbers 1..n |
| SegmentRenumbering.DeleteKeepsKeyed | app/video_generation/continuous.py:603-624 | renumbering keeps every key and never raises a number, so keys stay distinct and none falls behind its row's number |
| SegmentRenumbering.DeleteLeavesTheRest | app/video_generation/continuous.py:603-624 | a surviving row keeps every other field, and gets `renumbered_at` exactly if its number changed |
| SegmentRenumbering.DeleteKeepsValid | app/video_generation/continuous.py:462-535 | a delete keeps the table invariant, and frame agreement if it held |
| SegmentRenumbering.DeleteKeepsAdjacent | app/video_generation/continuous.py:462-535 | a delete keeps adjacency of links |
| SegmentRenumbering.EveryWriteKeepsNumbersUnique | alembic/versions/202608110022_continuous_video_segments.py:95-99 | within both renumbering passes, whatever subset of the rows has been written, segment numbers are distinct |
| SegmentRenumbering.SinglePassCollides | app/video_generation/continuous.py:574-580 | writing the final numbers in one pass can violate the unique constraint, so two passes are needed |
| SegmentRenumbering.RankInOrder | app/video_generation/continuous.py:588-593 | the position in the list ordered by segment number is the number of rows numbered at most as high |
| SegmentPropagation.PropagatedSpreads | app/video_generation/continuous_frames.py:337-366 | a changed frame: the next segment starts on it, every later final frame is void, and every segment past the next is unlinked; an unchanged one alters no segment but the next; with no final frame or no later segment nothing changes |
| SegmentPropagation.PropagatedMetadata | app/video_generation/continuous_frames.py:340-366 | the next segment's metadata repeats its new link; a changed frame voids the approvals of every later segment; those past the next keep no trace of the old link; nothing but links, frames and metadata is written |
| SegmentPropagation.PropagatedOtherMetadata | app/video_generation/continuous_frames.py:340-366 | metadata that speaks of neither link, final frame nor approval stays; the next segment takes over the address of the approved frame exactly if the segment has one |
| SegmentPropagation.PropagateIsIdempotent | app/video_generation/continuous_frames.py:329-366 | propagating twice is propagating once |
| SegmentPropagation.PropagateKeepsValid | app/video_generation/continuous_frames.py:329-366 | propagation keeps the table invariant |
| SegmentPropagation.PropagateKeepsFrames | app/video_generation/continuous_frames.py:329-366 | propagation keeps the agreement of linked frames |
| SegmentPropagation.ApproveKeepsValid | app/video_generation/continuous_frames.py:329-366 | so does setting a new final frame and propagating it |
| SegmentPropagation.ApproveKeepsFramesIff | app/video_generation/continuous_frames.py:329-366 | a new final frame breaks agreement with every row continuing from it; propagating it restores agreement for the whole table unless, and only unless, the next row already starts on the new frame while a further row continues from the segment |
| SegmentPropagation.FreshFrameKeepsFrames | app/video_generation/continuous_frames.py:329-366 | a frame no row starts on, such as a newly generated one, always restores it |
| SegmentPropagation.PropagateKeepsAdjacentIff | app/video_generation/continuous_frames.py:335-346 | propagation keeps adjacency if and only if there is no final frame or no gap between the segment and the next one |
| SegmentPropagation.ApproveKeepsAdjacentIff | app/video_generation/continuous_frames.py:335-346 | the same for approving a new final frame |
| SegmentStores.SegmentStore.WriteRow | alembic/versions/202608110022_continuous_video_segments.py:95-103 | one row write, allowed only if no other row holds the number, nor the key where it changes; it keeps numbers unique |
| SegmentStores.SegmentStore.PlanSegments | app/video_generation/continuous.py:905-1049 | the row-by-row plan code computes exactly the specified table and, by columns, does to each earlier row what `PlanRowByRow` says and adds only rows written from their payloads; it fails exactly when the database refuses a key, and then changes nothing; otherwise it returns the rows the payloads landed on, in order |
| SegmentStores.SegmentStore.PlanOne | app/video_generation/continuous.py:987-1042 | one payload, by columns: a row found with a result or start frame is only marked; another is kept or, in a replan, takes the payload's content; with none found the holder of the key is returned unchanged, or a row created with that key where there is none; no other row changes; refused exactly when the key of a rewrite is taken |
| SegmentStores.SegmentStore.FindByKey | app/video_generation/continuous.py:673-682 | the lookup by idempotency key |
| SegmentStores.SegmentStore.SweepStale | app/video_generation/continuous.py:959-984 | unlink, then delete, the stale rows: exactly the specified sweep |
| SegmentStores.SegmentStore.ClearReverseLinks | app/video_generation/continuous.py:538-563 | clears link and start frame of exactly the rows that continued from the deleted one, and counts them |
| SegmentStores.SegmentStore.Renumber | app/video_generation/continuous.py:566-626 | the two passes, each writing its rows in any order under the unique constraint, reach exactly the specified table |
| SegmentStores.SegmentStore.DeleteSegment | app/video_generation/continuous.py:462-535 | delete-one computes exactly the specified table; when there is no such row it says so and changes nothing |
| SegmentStores.SegmentStore.PropagateApprovedFrame | app/video_generation/continuous_frames.py:329-366 | the loop over the following segments computes exactly the specified table |
| Beats.MarkRepeats | app/storytelling/scene_plan_normalization.py:109-126 | the in-place nested run scan, which writes into the list it compares, equals the pointwise rule: element i is prefixed iff i > 0 and original i equals original i-1 |
| Beats.DifferentiateRepeatedBeats | app/storytelling/scene_plan_normalization.py:98-126 | the same over sentences, with the source's prefix |
| Beats.NeighboursEqualIff | app/storytelling/scene_plan_normalization.py:98-108 | two neighbouring results are equal exactly from the third element of a run on (or when a sentence already is the prefixed form of the repeated one) |
| Beats.PartitionLength | app/storytelling/scene_plan_normalization.py:72-95 | one beat per shot |
| Beats.SharesPartition | app/storytelling/scene_plan_normalization.py:79-87 | with enough sentences the slices concatenate to the sentences, none is empty and sizes differ by at most one |
| Beats.PartitionKeepsText | app/storytelling/scene_plan_normalization.py:79-87 | the beats read in order are the sentences: no text lost, repeated or reordered |
| Beats.AssignmentWalks | app/storytelling/scene_plan_normalization.py:91-94 | with more shots than sentences the assignment is monotone, skips nothing, starts at the first and ends at the last sentence, and never needs its clamp |
| Beats.AssignmentHits | app/storytelling/scene_plan_normalization.py:91-94 | every sentence gets a shot |
| Beats.SpreadBeat | app/storytelling/scene_plan_normalization.py:89-126 | with more shots than sentences, shot i is told by sentence floor(i * sentences / shots), prefixed as a continuation exactly if the shot before it is told by an equal one |
| Beats.NothingToTell | app/storytelling/scene_plan_normalization.py:75-77 | without sentences every shot is told by the fallback, or a set phrase if that is empty, prefixed from the second on |
| Beats.PartitionNeighboursDifferIff | app/storytelling/scene_plan_normalization.py:89-108 | neighbouring shots get different beats if and only if there are at most twice as many shots as sentences (for sentences that differ from their neighbours) |
| Clips.SceneIndexInRange | app/storytelling/scene_plan_normalization.py:323-325 | the clamp of the proportional branch never bites |
| Clips.GroupProportionally | app/storytelling/scene_plan_normalization.py:321-326 | one group per section, concatenating to the clip list; section j starts at clip ceil(j*clips/sections); none empty with at least as many clips as sections |
| Clips.GroupGreedily | app/storytelling/scene_plan_normalization.py:328-345 | greedy grouping: concatenation in order; each non-last group stops as soon as it reaches its wanted duration or the reserve of one clip per later section; none empty with enough clips |
| Clips.GreedyIsUnique | app/storytelling/scene_plan_normalization.py:328-345 | for positive clip lengths the greedy description determines the grouping completely |
| Clips.ClipGroupsForScriptSections | app/storytelling/scene_plan_normalization.py:313-345 | one group a section; greedy by the stated durations if and only if every section states one and they sum to more than 0; otherwise section j starts at clip ceil(j*clips/sections) |
| ScriptPlans.SceneContinuityData | app/storytelling/scene_plan_normalization.py:235-255 | the loop over character cues computes the specified states |
| ScriptPlans.KnownCharactersStay | app/storytelling/scene_plan_normalization.py:242-255 | a character known after some scene is known after every later one |
| ScriptPlans.KnownIffCued | app/storytelling/scene_plan_normalization.py:241-255 | the characters known after a scene are exactly those cued in it or an earlier one |
| ScriptPlans.UnmentionedKeepState | app/storytelling/scene_plan_normalization.py:243-254 | a character named by no action of a scene that cues them keeps exactly the earlier state, over any number of scenes |
| ScriptPlans.MentionedGetNewState | app/storytelling/scene_plan_normalization.py:244-249 | a cued character whom an action names gets the last such action as condition, cut to 300 characters, and all such actions joined as notes, cut to 700 |
| ScriptPlans.UntoldGetSetPhrase | app/storytelling/scene_plan_normalization.py:250-254 | a character first cued in a scene whose actions do not name it gets the set phrase as notes and no condition |
| ScriptPlans.ScenePlanFromScriptSections | app/storytelling/scene_plan_normalization.py:348-416 | the clips are shared out by the sections' durations as above; the plan's shot durations in order are the clip list, scene durations sum to the total, and scene k is built from section k, its group of clips and the states carried so far |
| ScriptPlans.SceneFits | app/storytelling/scene_plan_normalization.py:360-411 | a scene's shots last as its clips do, and the scene as long as its shots |
| ScriptPlans.ShotsContinue | app/storytelling/scene_plan_normalization.py:361-399 | shots are numbered from 1, narrated by their action and as long as their clip; continuity breaks only at the first, which opens on a set phrase, and every other shot continues from the action of the one before it |
| ScriptPlans.SceneKeepsSection | app/storytelling/scene_plan_normalization.py:129-134 | a scene has its section's title and summary; without action sentences its shots are told by the summary or, failing that, the title |
| ScriptPlans.SceneSpreadsItsScript | app/storytelling/scene_plan_normalization.py:129-134 | with more shots than sentences every shot is told by the sentence it falls to |
| ScriptPlans.SceneTellsItsScript | app/storytelling/scene_plan_normalization.py:129-134 | with at least as many sentences as shots the scene's actions read together are its script text |
| ShotFitting.FitShots | app/storytelling/scene_plan_normalization.py:462-490 | padding and folding compute exactly the specified list of one shot per clip |
| ShotFitting.FitKeepsShots | app/storytelling/scene_plan_normalization.py:462-490 | every original shot but the last kept one stays in place; with too few shots all of them do, with too many nothing but the last one's action changes, and that only if a dropped action says something; added shots belong to the last shot's scene |
| ShotFitting.AddedShotContinues | app/storytelling/scene_plan_normalization.py:465-476 | an added shot has the last scene and dialogue; its action is the last action, its narration the last narration or else action, each stripped in front and followed by the numbered phrase |
| ShotFitting.ContinuationsDiffer | app/storytelling/scene_plan_normalization.py:465-476 | the added continuation actions are pairwise distinct, also in the white-space-normalised form in which the validation compares them |
| ShotFitting.ExtraActionsComplete | app/storytelling/scene_plan_normalization.py:481-485 | every non-blank dropped action is among the folded ones, in shot order |
| ShotFitting.FoldKeepsActions | app/storytelling/scene_plan_normalization.py:481-489 | the last kept shot's action becomes its own text followed by all dropped actions in order |
| ModelPlans.Flatten | app/storytelling/scene_plan_normalization.py:441-460 | all shots in order, scene after scene, or an error exactly when some scene has no shots |
| ModelPlans.FlatHolds | app/storytelling/scene_plan_normalization.py:441-456 | the flattened list holds, after the shots of the earlier scenes, those of each scene in its order |
| ModelPlans.GroupedSpells | app/storytelling/scene_plan_normalization.py:492-514 | regrouping spells out the fitted shots one by one, each with its clip; groups are non-empty, shots numbered from 1, neighbouring groups of different scenes |
| ModelPlans.GroupedDurations | app/storytelling/scene_plan_normalization.py:492-498 | the flattened durations are the clip list |
| ModelPlans.GroupShots | app/storytelling/scene_plan_normalization.py:492-514 | the grouping loop computes exactly the specified groups |
| ModelPlans.NarrationIs | app/storytelling/normalization_common.py:61-68 | a shot is narrated by its stripped narration; if that is blank by its stripped dialogue; if both are by its stripped action; and by nothing exactly if all three are blank |
| ModelPlans.BuildScenes | app/storytelling/scene_plan_normalization.py:516-525 | scenes numbered from 1, with the raw title or a numbered one, the raw summary or the first shot's narration, else dialogue, else action, and summed durations; or an error exactly when narration, dialogue and action of some scene's first shot are all blank |
| ModelPlans.ElementCount | app/storytelling/scene_plan_normalization.py:263-264 | a set of actions is as large as the list exactly when no action repeats |
| ModelPlans.ValidateDistinctShotActions | app/storytelling/scene_plan_normalization.py:258-267 | accepts exactly the plans whose actions differ, up to white space, within each scene |
| ModelPlans.GroupedRepeatsIff | app/storytelling/scene_plan_normalization.py:258-267 | some scene of the result repeats an action exactly if two shots of one raw scene, with none of another between them, have actions of the same words, where a missing action is the narration or a set phrase |
| ModelPlans.GroupedSilentIff | app/storytelling/scene_plan_normalization.py:499-521 | some scene of the result cannot be narrated exactly if a fitted shot that opens one has blank narration, dialogue and action and no default fills a missing one with text |
| ModelPlans.NormalizeModelPlan | app/storytelling/scene_plan_normalization.py:440-537 | no scenes, a scene without shots, a silent opening shot, a repeated action: each error is raised exactly under its condition on the entries of the raw plan and its fitted shots, a later one only where no earlier one applies; the duration mismatch never; anything returned is normal |
| ModelPlans.NormalizeScenePlan | app/storytelling/scene_plan_normalization.py:432-537 | with more sections than raw scenes the plan is made from the sections, scene by scene, and spends the clips in order; otherwise the model's plan is refused with each error exactly under its condition on the entries, and is normal when returned |
| ModelPlans.NormalPlanMatchesClips | app/storytelling/scene_plan_normalization.py:516-537 | a returned plan has scenes 1..k, non-empty, lasting as long as their shots, shots numbered from 1, actions that differ in their words within a scene, and durations that are the clip list |
| ModelPlans.NormalPlanKeepsActions | app/storytelling/scene_plan_normalization.py:493-514 | every present action, narration and dialogue of a fitted shot reaches the plan untouched, in its place and scene and with its clip; a missing dialogue becomes empty, a missing narration the action, a missing action the narration, or a set phrase if that is empty |
| ModelPlans.NormalPlanLosesNoAction | app/storytelling/scene_plan_normalization.py:462-514 | from the raw plan to the returned one no action is lost: each kept shot has its own, and with surplus shots the last has its own followed by every non-blank dropped action in order |
| Texts.CanonicalNumeralInjective | app/storytelling/scene_plan_normalization.py:263-264 | texts that differ only in a numeral stay different when white space is normalised |
| Texts.CanonicalIsWords | app/storytelling/scene_plan_normalization.py:263-264 | the compared form of an action is its words one space apart |
| Texts.CanonicalEqualIff | app/storytelling/scene_plan_normalization.py:263-264 | two actions count as the same exactly if they have the same words in the same order |
| Texts.DecimalReads | app/storytelling/scene_plan_normalization.py:520 | a numeral has only digits, no leading zero, and reads as its number |
| Jobs.RunKeepsRegistered | app/jobs/service.py:445-473 | over every interleaving the registry names every live task and nothing but live tasks and finished ones whose callback is due |
| Jobs.OneLiveTask | app/jobs/service.py:458-466 | a job has at most one live task, and it is the registered one |
| Jobs.CallbacksOnlyForgetThemselves | app/jobs/service.py:468-473 | however late, a callback never evicts another task; when all is over nothing stays registered |
| Jobs.RunKeepsRows | app/jobs/service.py:161-318 | in every reachable row: PENDING implies attempts < max_attempts, attempts <= max_attempts + reclaims, progress is 100 exactly when SUCCEEDED, completed_at is set exactly in SUCCEEDED, FAILED or CANCELLED |
| Jobs.AttemptsAreStarts | app/jobs/service.py:255-266 | over every run the attempts recorded on a row are exactly the runs begun on it while PENDING or RUNNING |
| Jobs.CreateKeepsRowsIff | app/jobs/service.py:188-200 | a new row is in order if and only if it may be attempted at least once |
| Jobs.OnlyBody | app/jobs/service.py:458-463 | once a runner leaves its body no other is in one over the same job |
| Jobs.SucceededIsFinal | app/jobs/runner.py:298-311 | a succeeded row is never written again, in any interleaving |
| Jobs.CancelStops | app/jobs/service.py:408-426 | a cancel of any unfinished job stops it |
| Jobs.CancelledNeverSucceeds | app/jobs/runner.py:298-311 | a job cancelled before it succeeds stays CANCELLED or FAILED in every interleaving that neither requeues it nor has recovery dispatch it while its row is FAILED with attempts left |
| Jobs.CancelIsFinalIff | app/jobs/service.py:408-426 | against every interleaving without a resume or retry a cancel holds if and only if it is not the case that recovery still holds the job on its list, a runner is in its body over it, and it has attempts left |
| Jobs.CancelIsUndone | app/jobs/service.py:558-573 | that case is reached: a run from the empty system in which recovery lists a job and the user enqueues it again before recovery dispatches it; cancelled there, the job can still go on to SUCCEEDED |
| Jobs.RecoverKeepsStoppedIff | app/jobs/service.py:571-573 | a recovery dispatch undoes a cancel exactly if it finds the row FAILED with attempts left and no live task |
| Jobs.RevivedTaskRuns | app/jobs/runner.py:213-220 | a FAILED row dispatched so is run to SUCCEEDED without counting an attempt |
| Jobs.FailingRunLeavesCancelled | app/jobs/runner.py:281-288 | a run that fails after the cancel moves the row from CANCELLED to FAILED |
| JobRuntimes.JobRuntime.CreateOrResumeProjectJob | app/jobs/service.py:185-233 | column by column: a new row, a CANCELLED one, a FAILED one with attempts left become PENDING without progress or outcome, the limit raised to one more attempt only where none is left; dispatch is advised exactly for these and for a stale PENDING row; nothing else changes |
| JobRuntimes.JobRuntime.CancelGenerationJob | app/jobs/service.py:408-426 | exactly a row neither SUCCEEDED nor CANCELLED becomes CANCELLED and completed, and cancellation of exactly the live registered task is requested |
| JobRuntimes.JobRuntime.RetryGenerationJob | app/jobs/service.py:429-440 | exactly a FAILED row with attempts left becomes PENDING without error, and nothing else changes |
| JobRuntimes.JobRuntime.DispatchProjectJob | app/jobs/service.py:445-473 | creates and registers one new task exactly when no live one is registered; otherwise, and to rows always, nothing |
| Jobs.EnqueuedWillStartIff | app/jobs/service.py:215-233 | an enqueue of a job that is new, CANCELLED, FAILED with attempts left, or PENDING and stale leaves it PENDING with a live task, and that task has yet to start if and only if the job had no live task or one that had yet to start; every other enqueue changes nothing |
| Jobs.EnqueueLeavesNoneWaiting | app/jobs/service.py:476-488 | no enqueue that creates a row or turns one PENDING leaves it without a live task |
| Jobs.ScheduledTaskStarts | app/jobs/runner.py:207-220 | a task that has yet to start a PENDING row puts it to RUNNING with one more attempt |
| Jobs.ResumedCanRun | app/jobs/service.py:215-231 | a CANCELLED row, or FAILED one with attempts left, is resumed with its attempts kept, no progress, error or completion, and room for an attempt, the limit raised only where there was none; any other row stays as it is |
| Jobs.RecoveryStartsIff | app/jobs/service.py:549-575 | after a restart recovery gives a task to exactly the PENDING and RUNNING jobs among those old enough, and the task starts the row with one more attempt |
| Jobs.EnqueuedIsStranded | app/jobs/service.py:458-473 | where its live task is past its last write to the row, as after a cancelled run, the job is left PENDING without any task once that task ends and is forgotten |
| JobRuntimes.JobRuntime.EnqueueProjectStep | app/jobs/service.py:476-488 | create or resume, then dispatch if advised, with the effect on rows and tasks that `EnqueuedWillStartIff` states by the earlier row; no row it creates or turns PENDING is left without a live task |
| JobRuntimes.JobRuntime.ListStaleJobs | app/jobs/service.py:512-546 | lists exactly the PENDING and RUNNING rows among those old enough |
| JobRuntimes.JobRuntime.RecoverListedJobs | app/jobs/service.py:571-575 | the dispatch loop, which does not look at the rows again: afterwards every listed job has a live task and no other job has gained one, no row is written, and registry and rows stay in order |
| JobRuntimes.JobRuntime.MarkJobRunning | app/jobs/service.py:255-271 | counts an attempt if and only if the row is PENDING or RUNNING, which then is RUNNING with no old outcome; any other row, and every other job, is left alone |
| JobRuntimes.JobRuntime.RunnerStart | app/jobs/runner.py:207-220 | the runner enters its body if and only if the job exists and can run; otherwise no row is written; it keeps registry and rows in order |
| JobRuntimes.JobRuntime.MarkJobProgress | app/jobs/service.py:274-283 | the progress written is the given one, held within 0..99; nothing else of the row, and no other row, changes; registry and rows stay in order |
| JobRuntimes.JobRuntime.RunnerSucceed | app/jobs/runner.py:302-311 | re-check and success write as one step: success exactly when the row is not CANCELLED |
| JobRuntimes.JobRuntime.RunnerFail | app/jobs/runner.py:266-288 | the row ends FAILED and completed with the error even from CANCELLED, attempts and progress kept; no other row or task changes; registry and rows stay in order |
| JobRuntimes.JobRuntime.TaskEnds | app/jobs/service.py:448-452 | a task that ends is no longer live; it stays registered until its callback has run |
| JobRuntimes.JobRuntime.ForgetProjectTask | app/jobs/service.py:468-471 | the done-callback removes its job's entry if and only if that entry still names its own task, and no other entry: a job with a live task keeps it |
| Costs.RoundIsNearest | app/costs/service.py:47-48 | rounding gives the nearest millionth, halves away from zero, and nothing else does |
| Costs.SumExact | app/costs/service.py:366-376 | rounding after adding or subtracting stored amounts changes nothing |
| Costs.EstimateOrderedIff | app/costs/service.py:55-67 | 0 <= minimum <= estimated <= maximum exactly when neither base nor uncertainty is negative |
| Costs.EstimateBounds | app/costs/service.py:55-67 | for every count, quantity, unit cost and ratio the schema admits the figures are ordered, the minimum is the estimate less the uncertainty or 0 if that is larger, the estimate is within half a millionth of count times units times unit cost, and the uncertainty within half a millionth of base times ratio |
| Costs.RoundedSumCovers | app/costs/service.py:250-262 | the check on the rounded projection admits exactly the estimates whose rounded value fits |
| Costs.AdmittedIff | app/costs/service.py:250-262 | a charge is admitted exactly when there is no limit or its rounded estimate still fits under it |
| Costs.NetGrows | app/costs/service.py:271-275 | an estimate or an actual raises the net cost by its amount, a credit lowers it by its amount |
| Costs.NetByKind | app/costs/service.py:278-306 | the net cost of any list is its estimates plus its actuals minus its credits |
| Costs.AdmittedByKind | app/costs/service.py:250-262 | an estimate is admitted exactly when it fits under the limit together with all estimates and actuals of the summary less its credits |
| Costs.CreditMakesRoom | app/costs/service.py:271-275 | a credit lowers the budget cost by its amount and admits exactly the estimates that fit under a limit larger by it |
| Costs.RunStaysWithinLimit | app/costs/service.py:278-328 | for a fixed limit, any serial run of checked entries worth at most their rounded estimate keeps the signed total within the limit |
| Costs.SumByPermutation | app/costs/service.py:397-427 | every total over entries is independent of their order |
| Costs.SummaryIgnoresOrder | app/costs/service.py:383-427 | the whole summary is independent of entry order |
| Costs.SummaryGrows | app/costs/service.py:397-422 | one more entry adds its amount to the figure of its own kind alone; the total is the larger of estimates and actuals less credits, the delta actuals less estimates; an empty list sums to 0 |
| Costs.EntryIsFiled | app/costs/service.py:405-416 | one more entry changes only the items under its own provider, model and stage (its operation where it has no stage, a set key where it has neither), and there only the figure of its kind and the total |
| Costs.BreakdownSnoc | app/costs/service.py:366-376 | adding an entry to the item of its key, rounding each time, gives the breakdown by exact sums of the longer list |
| Costs.BreakdownAddsUp | app/costs/service.py:404-416 | along stage, provider and model the breakdown's estimates, actuals and credits sum exactly to the totals |
| Costs.SummaryAgrees | app/costs/service.py:397-427 | the three-way agreement of the breakdowns with the top-level figures; the top-level total is at most the sum of breakdown totals, and equal exactly when estimates, or actuals, win under every key |
| Costs.ProjectCostSummary | app/costs/service.py:383-427 | the loop that rounds as it goes computes exactly the summary by plain sums |
| Costs.CostLedger.ProjectCostForBudget | app/costs/service.py:278-306 | the sum over all entries, which is estimates plus actuals minus credits of the summary |
| Costs.CostLedger.CheckProjectBudget | app/costs/service.py:309-328 | the check against the net cost: current cost, rounded estimate and limit are reported as such, the projection is the nearest millionth of their sum, and it is allowed exactly if it does not exceed the limit |
| Costs.CostLedger.CheckAndRecord | app/costs/service.py:309-328 | the entry is appended exactly if the check admits it, that is if estimates plus actuals minus credits plus the rounded estimate do not exceed the limit; a ledger stays within its limit |
| Approvals.EveryRunIsValid | app/projects/versioning.py:21-40 | over any run of version creations, decisions and outside status changes: versions are exactly 1..current_version in order, each (version, decision) has at most one record, approvals are recorded in version order, and the artifact is locked exactly when a version was blocked |
| Approvals.StepKeepsValid | app/approvals/service.py:8-63 | every single call keeps that |
| Approvals.DecisionKeepsCurrent | app/approvals/service.py:40-55 | no decision, accepted or not, changes current_version or the version list |
| Approvals.DecisionRefusedIff | app/approvals/service.py:19-44 | a decision is refused, and then changes nothing, exactly if it names another artifact's version, one that does not exist, or approves an outdated version that it did not approve before |
| Approvals.DecisionTakesEffect | app/approvals/service.py:46-62 | an accepted decision not yet on record is put on record; an approval leaves the artifact APPROVED, a rejection, request for changes or block leaves it REJECTED, a block locks it too; one on record changes nothing |
| Approvals.FirstApprovalIff | app/approvals/service.py:37-55 | a version not approved before can be approved exactly while it is the current one |
| Approvals.LastEffectiveDecides | app/approvals/service.py:53-60 | over every run the last event with any effect decides the status: a first approval of the current version leaves APPROVED, any other new decision REJECTED, a new version READY_FOR_REVIEW |
| Approvals.RunExtends | app/approvals/service.py:46-60 | history is append-only and the lock is never released |
| Approvals.LockFreezesVersions | app/projects/versioning.py:25-26 | once locked, no run changes the versions |
| Approvals.BlockFreezesVersions | app/approvals/service.py:56-58 | after an accepted BLOCKED of any version the version history is frozen, whatever follows |
| Approvals.ApprovedIsJustified | app/approvals/service.py:53-55 | while only this service sets APPROVED, that status always has a recorded approval of the current version behind it |
| Approvals.SpentApprovalStaysSpent | app/approvals/service.py:24-35 | a version that was approved and then lost that status is never APPROVED again by any run of decisions, until a new version is added |
| Approvals.SpentAndLockedIsFinal | app/approvals/service.py:24-35 | so a locked artifact in that state is never approved again |
| Approvals.ReapprovalIsIgnored | app/approvals/service.py:24-35 | approve, reject, approve version 1: the last call is accepted and changes nothing |
| Approvals.ArtifactLedger.CreateArtifactVersion | app/projects/versioning.py:21-40 | refused without effect when locked; otherwise the next version is appended and current, ready for review, with the approvals kept |
| Approvals.ArtifactLedger.RecordApproval | app/approvals/service.py:8-63 | each refusal exactly under its condition, without effect; a decision on record is returned and changes nothing; a new approval is recorded and leaves APPROVED, any other new decision REJECTED, and the lock is set by exactly a new block; versions and current_version never move |

## Left out

Segments
- Asset rows and files: deleting them is part of a delete but not of this model, and so is the database refusing to delete an asset that another row still refers to.
- An idempotency key is taken to be equal to another exactly if the number and everything else it is made from are (SHA-256 without collisions). The project id is left out of it, as all rows here are of one project.
- The order in which one flush emits rewritten rows. An unlucky order makes the database refuse a replan that shifts keys (`ShiftedKeysCollide`); like every refused plan it leaves the table as it was.
- `generation_job_id`, plan rows, validation messages and request fingerprints.
- SegmentContents.PlanKeepsNested: that links do not cross is shown one way, for plans that write no link right after a hit; `LinkPastHitCrosses` says which of the others cross one.
- Title, script, shot, duration, provider, model and review status are one opaque value, with whatever stripping the code applies already done; payloads are numbered 1..n and carry neither a source link nor a key of their own, as the builder leaves both unset.
- How frames, videos and prompts are made: every write to a row outside the four operations (generation, regeneration, extraction, invalidation, review) is one arbitrary edit that does not renumber the row or give it a new link.
- Deleting all segments at once, which leaves nothing to keep.
- Reads and writes inside one operation are atomic; only the order of row writes while renumbering is left open.

Scene plans
- Parsing scripts, cleaning sentences, title casing, prompt wording, emotion, composition, lighting, location and camera texts. Sentences and actions are opaque cleaned strings; whether an action names a character is a parameter, so case folding is not modelled, and the phrase that asks to preserve a character's state is a constructor.
- `video_clip_durations` and the check of single clip lengths: clips are any non-empty list (`GreedyIsUnique` takes them positive).
- JSON values other than text for narration, dialogue, action, title and summary, including objects where lists or mappings are expected and the type errors for them; white space is the ASCII kind.
- Shot and scene dictionaries are values here, so two entries of the raw plan that are the same object are not modelled.

Jobs
- The IntegrityError path of two simultaneous creations, and reads made stale inside one step: every service function, the runner's opening, its re-check with the success write, and recovery's two queries are one step each.
- Response payloads, action history, operational events, start times, media jobs and the Redis queue; a retry is modelled as far as its row. RETRY_SCHEDULED is never set by this code.
- Which progress figures a step reports.
- The clock: whether a pending row is stale is a parameter.
- JobRuntimes.JobRuntime.CancelGenerationJob: reports the task it asks to stop; when and where that task then ends is left open, and every possibility is covered by the runs.

Costs
- Decimal's 28-digit context: amounts are unbounded, so inexact products of very large figures are not modelled. Stored totals are whole millionths, as the column type makes them.
- The stage filter of the budget query, stage limits and currency conversion: the check uses the whole project and one fixed limit, which is not negative, as parsed limits never are.
- Breakdowns are maps; the listing sorts them by key. Stages are taken as already stripped and lower-cased.
- Costs.RunStaysWithinLimit: recorded totals are taken to be non-negative, as the schema for entries ensures.

Approvals
- Marking dependents stale, and other modules setting a status directly: any status change from outside is allowed at any point of a run. `ApprovedIsJustified` and the lemmas about spent approvals except outside writes of APPROVED.
- Payloads, notes, row locking and soft deletion of versions. A version row that does not exist is refused before the service is called (`app/projects/router.py:152-155`).
