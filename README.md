# Word-pill voice game: the simulation and the speech matcher

`game.js` is a browser game. Ten word pills, each labelled with an animal
name (`Lion`, `Tiger`, … `Penguin`, game.js:7), float around a canvas. They
bounce off its walls and off each other. When the speech recogniser
finalises a transcript that names one of the pills, that pill leaves the
field and its label is added to the enclosure.

This project models the state-changing core of that file:

- `Pills.WordPill` is the `WordPill` class (game.js:13-86). It has the
  mutable fields `x`, `y`, `vx`, `vy` and the fixed `text`, `width` and
  `height`. Every pill is 80 by 30 (game.js:10-11). Its methods are:
  - `Move`, the wall bounce;
  - `CheckCollision`, the box overlap test;
  - `ResolveCollision`, the velocity swap followed by the separation
    loop.
- `Game.Game` holds the pill list, the enclosure (a list of labels) and
  the feedback line. Its methods are:
  - `Update`, one animation frame without the drawing;
  - `OnResult`, the handler of a speech-result event.
- `Transcript` splits the event's result list into the final and the
  interim transcript.
- `Matcher` holds the remove-first-match rule that follows a final
  transcript.
- `Text` holds the ASCII `trim` and `toLowerCase`.

The field size (`canvas.width`, `canvas.height`) is a parameter.
Coordinates are exact reals.

The overlap test `checkCollision` (game.js:63-66) uses strict comparisons,
so boxes that only touch along an edge or at a corner collide
(`Pills.TouchingEdgesOverlap` for an edge, `Pills.OverlapsIffSharedPoint`
for any shared point, a corner included).

Only `move` keeps a pill inside the field. The separation loop of
`resolveCollision` (game.js:79-84) moves pills without looking at the
walls, and `Scenarios.SeparationLeavesField` shows a pill pushed past the
left wall.

The separation loop ends when the two pills do not overlap, or when their
velocities differ after the swap. A colliding pair with equal velocities
makes it spin forever (`Pills.SameVelocityNeverSeparates`). In the model:

- `Pills.WordPill.ResolveCollision` requires differing velocities or
  boxes that do not overlap. Its termination measure is the number of
  steps the relative offset can still take inside the overlap range.
- `Game.Game.Update` stops the frame at a colliding pair with equal
  velocities and reports it as `frozen`.

A frame of `update` is also written on values. `Game.Pair` is one check
of the inner loop, `Game.Turn` is the inner loop for one pill, and
`Game.Frame` is the whole outer loop. Each frame method of `Game.Game`
(`Update`, `TakeTurns`, `TakeTurn`, `MoveAt`, `CheckLater`, `CheckPair`)
is proved to compute the matching function on the pills' states. The facts about
the frame (the order of the work, which pills moved, when it gets stuck)
are lemmas about those functions. The frame carries a ghost log of events:
`Moved(i)` for pill i's `move`, and `Resolved(i, j)` for a resolved
collision of pills i and j.

## Model

| member | source | states |
|---|---|---|
| Pills.Bounce | game.js:40-57 | On one axis, after `move` the coordinate lies in `[0, extent - size]` whenever the pill fits the field. The velocity is kept or negated, so the speed never changes. |
| Pills.Step | game.js:39-57 | After `move` the pill lies inside the field on both axes, whenever it fits. |
| Pills.BounceOffNearWall | game.js:44-46 | If the new coordinate reaches or passes 0, it becomes 0 and the velocity is negated. Touching the wall counts. |
| Pills.BounceOffFarWall | game.js:47-50 | A pill moving towards the far wall that reaches or passes it ends with its far edge on the wall, moving back. |
| Pills.BounceInterior | game.js:40-41 | A step that reaches neither wall is plain motion with an unchanged velocity. |
| Pills.WordPill.constructor | game.js:14-22 | The new pill has the given label, the fixed size 80 by 30, and the given place and velocity. |
| Pills.WordPill.Move | game.js:39-58 | The new position and velocity are those of `Bounce` applied to each axis independently. The label and size cannot change. |
| Pills.WordPill.CheckCollision | game.js:60-67 | A pill never collides with itself. Two different pills collide exactly when their boxes overlap. |
| Pills.Overlaps | game.js:63-66 | The negated strict four-way comparison: two boxes are apart only when one lies strictly beyond the other on some axis. |
| Pills.OverlapsIffSharedPoint | game.js:63-66 | The overlap test holds exactly when the two closed rectangles share a point. |
| Pills.OverlapsSymmetric | game.js:63-66 | The overlap test does not depend on the order of the two boxes. |
| Pills.TouchingEdgesOverlap | game.js:63-66 | Two boxes side by side with a common edge overlap. |
| Pills.SeparationProgress | game.js:79-84 | While two overlapping pills with different velocities advance, the loop's bound is a natural number and drops by one each pass. |
| Pills.Separate | game.js:79-84 | The separation loop on values ends whenever the velocities differ or the boxes do not overlap. The two boxes no longer overlap at the end. Velocities and sizes are kept. |
| Pills.SeparateDisplaces | game.js:79-84 | The loop displaces both boxes by the same number k of steps of their own velocities. The boxes overlapped at every count below k. |
| Pills.Resolve | game.js:69-85 | After `resolveCollision` on values, each pill moves with the other's old velocity and keeps its size, and the two boxes no longer overlap. |
| Pills.WordPill.ResolveCollision | game.js:69-85 | For two pills the new states are those of `Resolve`. Each pill ends with the other's old velocity. Both positions are displaced by the same number of steps of the new velocities, with no wall clamping. The pills overlapped at every earlier step count and no longer collide on return. |
| Pills.WordPill.Drift | game.js:80-83 | One pass of the separation loop for one pill: the new value is `Advance` of the old one, the position plus the velocity, with the velocity and size unchanged. |
| Pills.SameVelocityNeverSeparates | game.js:79-84 | Two overlapping boxes displaced by the same velocity overlap after any number of steps, so the loop cannot end for them. |
| Pills.StepsLeftDecrease | game.js:79-84 | While the relative offset lies in the overlap range and the relative velocity is non-zero, one loop pass uses up exactly one of the finitely many steps left. |
| Transcript.Assemble | game.js:133-143 | The final string is the concatenation of the finalised transcripts from `resultIndex` on, and the interim string is that of the others, each in order. A `resultIndex` past the end gives two empty strings. |
| Transcript.FinalTextAppend | game.js:136-143 | Assembling a concatenation of result lists gives the concatenation of the assembled parts, for both strings. |
| Transcript.FinalText | game.js:136-143 | The final string on values: the transcripts of the finalised results, concatenated in list order. |
| Transcript.InterimText | game.js:136-143 | The interim string on values: the transcripts of the results not yet finalised, concatenated in list order. |
| Transcript.AssemblyLosesNothing | game.js:136-143 | The characters of the final and the interim string together are, as a multiset, exactly those of all transcripts, and their lengths add up to the total length of the transcripts. |
| Transcript.NoFinalResult | game.js:136-151 | With interim results only, the final string is empty, so the matcher does not run. The interim string is empty only when every transcript is. |
| Text.LowerChar | game.js:156 | `toLowerCase` maps an ASCII capital to its small letter and leaves every other character alone. |
| Text.Lower | game.js:156 | `toLowerCase` lowers each character in place and leaves no capital. |
| Text.TrimStart | game.js:156 | The result is a suffix of the input. What it drops is all white space, and it does not start with white space. |
| Text.TrimEnd | game.js:156 | The result is a prefix of the input. What it drops is all white space, and it does not end with white space. |
| Text.Trim | game.js:156 | `trim` leaves no white space at either end. |
| Text.TrimStripsPadding | game.js:156 | A word padded with white space on both sides trims back to exactly the word. |
| Text.TrimIdempotent | game.js:156 | Trimming twice is trimming once. |
| Text.Normalize | game.js:156 | The matcher's key: the transcript trimmed, then lowered. |
| Text.NormalizePadded | game.js:156 | The key of a padded word is the lowered word. |
| Matcher.Matches | game.js:156 | The `findIndex` callback: the pill's lowered label equals the key. |
| Matcher.FindIndex | game.js:156 | `findIndex` returns -1 exactly when no pill's lowered label equals the key. Otherwise it returns the first pill that matches. |
| Matcher.SpokenLabelMatches | game.js:156 | A pill's label said in any mix of cases, with any white space around it, matches that pill. |
| Matcher.Recognize | game.js:156-165 | With no match, the pills and the enclosure are unchanged. Otherwise exactly the first matching pill is removed, the others keep their order, and its label is appended to the enclosure. |
| Matcher.RecognizeOwnLabel | game.js:156-164 | When no other pill's label has the same key, saying a pill's own label removes exactly that pill and encloses its label. |
| Matcher.RecognizeKeepsDistinct | game.js:157-158 | Removing a pill keeps the list free of repeats. The number of pills plus enclosure entries is kept. |
| Matcher.RecognizeConservesLabels | game.js:157-164 | The multiset of labels on the field and in the enclosure together is the same before and after. |
| Game.AnimalKeysDistinct | game.js:7 | No two of the ten animal names have the same lowered key, so a spoken name selects at most one starting pill. |
| Game.Pair | game.js:98-101 | One inner check on values; it keeps the number of pills. Its full behaviour is stated by `Game.PairSpec`. |
| Game.Turn | game.js:97-102 | Pill i's inner loop on values: later pills are checked in order against pill i, stopping at a stuck pair. It keeps the number of pills and every pill's size. |
| Game.Frame | game.js:92-105 | One frame on values: each pill moves and then takes its inner loop, stopping where stuck. It keeps the number of pills and every pill's size. |
| Game.PairSpec | game.js:98-101 | One inner check on values: pills that do not collide are left alone, as is the log. A colliding pair with equal velocities is stuck. Any other colliding pair swaps velocities, ends apart and is logged, and no other pill changes. |
| Game.TurnLog | game.js:97-102 | Pill i's inner loop keeps the events already logged and adds only resolutions of pairs `(i, j)` with `j` after `i`. |
| Game.TurnKeepsEarlier | game.js:97-102 | Pill i's inner loop leaves the pills before pill i alone. |
| Game.TurnOrdered | game.js:97-102 | Pill i's inner loop keeps the log ordered and well formed, and logs no event of a pill after pill i. |
| Game.TurnMoves | game.js:97-102 | Pill i's inner loop logs no move. |
| Game.TurnStuck | game.js:97-102 | Pill i's inner loop gets stuck only at a colliding pair with equal velocities. |
| Game.PairProgress | game.js:98-101 | One inner check keeps every pill that no logged collision involved where it was. |
| Game.TurnProgress | game.js:97-102 | After pill i's inner loop, a pill that no logged collision involved has made one `move` if it is among pills `0..i`, and none otherwise. |
| Game.FrameOrdered | game.js:92-105 | The frame's log is ordered: each pill moves before its own pairs, and each pair `(i, j)` is resolved at most once, after pill i moves and before pill j does. |
| Game.FrameMoves | game.js:92-105 | A frame that runs to the end moves every pill exactly once, in list order. |
| Game.FrameStuck | game.js:92-105 | A frame gets stuck only where some colliding pair has equal velocities. |
| Game.FrameProgress | game.js:92-105 | After a frame that runs to the end, a pill that no logged collision involved has made exactly one `move`. |
| Game.ResolvedBeforePartnerMoves | game.js:92-102 | In the frame's log, a pair `(i, j)` is resolved before pill `j` moves. |
| Game.Game.constructor | game.js:110-113 | A game starts with the given pills, an empty enclosure and no feedback text. |
| Game.Game.Update | game.js:88-108 | The pill list itself is unchanged. The new pill states, the log and `frozen` are those of `Frame`. The log is ordered and well formed. `frozen` is reported only when some colliding pair has equal velocities. Otherwise every pill's move is logged once, in list order, and a pill that took part in no collision has made exactly one `move`. |
| Game.Game.TakeTurns | game.js:92-105 | The outer loop leaves the pill list alone and computes `Frame` on the pills' states. |
| Game.Game.TakeTurn | game.js:93-102 | Pill i's turn, its `move` and then its inner loop, computes `Turn` on the states after the move. |
| Game.Game.MoveAt | game.js:93-94 | Pill i makes exactly one `move` and no other pill changes. |
| Game.Game.CheckLater | game.js:97-102 | The inner loop computes `Turn` on the pills' states: every later pill is checked in order, and the loop stops at a stuck pair. |
| Game.Game.CheckPair | game.js:98-101 | One check computes `Pair` on the pills' states: a colliding pair is resolved and logged, and a pair that does not collide is left alone. |
| Game.Game.OnResult | game.js:132-167 | A non-empty final transcript clears the feedback. It then removes the first pill whose lowered label equals the trimmed and lowered transcript, as `Recognize` says. With no final transcript, the pills and the enclosure are unchanged, and the feedback shows "You said: " plus the interim transcript when there is one. |
| Scenarios.PaddedCapitalsMatch | game.js:156 | "  LION  " matches the pill labelled Lion. |
| Scenarios.TigerKeyRecognized | game.js:156-164 | The key of Tiger's label, given to Lion, Tiger, Elephant, leaves Lion, Elephant and puts Tiger in the enclosure. |
| Scenarios.TigerRecognized | game.js:156-164 | Saying " tiger " to Lion, Tiger, Elephant leaves Lion, Elephant and puts Tiger in the enclosure. |
| Scenarios.SevenLetterKeyIgnored | game.js:156-157 | A key of seven letters matches none of Lion, Tiger, Elephant and changes nothing. |
| Scenarios.GiraffeIgnored | game.js:156-157 | Saying " Giraffe " to Lion, Tiger, Elephant changes nothing. |
| Scenarios.AnimalNameRecognized | game.js:156-164 | On a field with the ten animal pills in order, saying animal a's name removes exactly pill a and encloses its name. |
| Scenarios.SeparationLeavesField | game.js:79-84 | A pill on the left wall that receives a leftward velocity in a collision ends outside the field. |

## Left out

- Drawing (`draw`, `clearRect` and the canvas styling, game.js:24-37, 89) has no state effect that is checked.
- The endless `requestAnimationFrame` loop (game.js:107) is left out. One call of `Game.Game.Update` is one frame.
- The constructor's random position and velocity (game.js:18-21) are constructor parameters instead.
- The setup of the ten pills from the animal list (game.js:111-113) is left out, and `Game.Game.constructor` takes any list of distinct pills. `Game.Animals` holds the names, and `Scenarios.AnimalNameRecognized` uses it.
- The browser plumbing is left out: speech API detection and configuration, `alert`, `onerror` and `console` output, and the start button (game.js:119-130, 153, 169-175).
- The enclosure's DOM `div`s (game.js:161-164) are a list of labels.
- `innerHTML` is a plain string field.
- Only the first recognition alternative of each result is used (`results[i][0]`), so a result is one transcript and a flag.
- Coordinates are exact reals. IEEE double rounding is not modelled.
- `Text.Lower`: lowers ASCII capitals only. Non-ASCII letters are not case-folded, unlike `toLowerCase`.
- `Text.Trim`: strips ASCII white space only. Non-ASCII white space such as U+00A0 or U+FEFF is kept, unlike `trim`.
- Game.Game.Update: where the source would spin forever in `resolveCollision` (a colliding pair with equal velocities), the frame stops early and returns `frozen`. The rest of that frame is not modelled.
- Pills.WordPill.ResolveCollision: requires the two velocities to differ, or the boxes not to overlap, or the pill to be resolved against itself. On the remaining inputs, two overlapping pills with equal velocities, the source never returns.
