# Dots and boxes with trivia questions — a verified model

The game is dots and boxes on a 6 × 6 grid of dots, which makes 5 × 5 boxes.
Before a player may draw the line they clicked, they must answer a trivia question.

- A correct answer draws the line for that player. Every box whose four sides are now drawn goes to them.
- A player who closed a box scores it and moves again. A player who closed none hands the turn over.
- A wrong answer hands the turn over.
- The game ends when the scores add up to 25. The higher score wins; equal scores are a draw.
- Questions are dealt from a shuffled pool, last element first. The pool is refilled with a fresh shuffle of the master list when it runs out.

The model has five modules:

- `Wrappers`: `Option`.
- `Grid`: the board as values.
  - Three grids of owners: horizontal lines, vertical lines and boxes. A cell holds 0 for unclaimed, otherwise 1 or 2.
  - Drawing a line (`Claim`) and the full-grid box scan (`Scan`).
  - Counting lemmas that relate the scan's count to the boxes each player owns.
  - The specification of the pointer scan that picks the line under the mouse.
- `Turns`: one session as a value (`Play`).
  - The player toggle, the verdict, the end check (`EndCheck`) and the deferred consequence of an answer (`ResolveStep`).
  - The invariant `Consistent`, which every answer keeps: each score equals the boxes its player owns, a box is owned exactly when its four sides are drawn, and the game is over exactly when the scores add up to 25.
- `QuestionPool`: one draw with the refill rule (`Draw`), and what a run of draws deals (`Drain`).
- `DotsAndBoxes`: class `Game`, whose fields the game logic updates in place.
  - The three grids are fields of type `seq<seq<int>>` that the methods reassign cell by cell.
  - The box scan and the pointer scan are nested loops with invariants.
  - Every method is proved against the value-level functions above, through `Snapshot()` (the grids as a `Board`) and `Session()` (the turn state as a `Play`).
  - `Valid()` is the object invariant between user events. The constructor, `Init`, `MouseMove`, `MouseOut`, `HandleCanvasClick`, `ShowQuestionModal`, `CheckAnswer` and `Continue` keep it. `Resolve` requires it but does not re-establish it; `CheckAnswer` restores it after calling `Resolve`, through `Turns.ResolveKeepsConsistent`. The steps inside an answer (`ClaimSelected`, `ClaimLine`, `CheckForNewBoxes`, `SwitchPlayer`, `CheckGameEnd`) and `NextQuestion` neither require nor ensure it: between drawing a line and the box scan a board need not be settled.

The question modal is modelled as the field `stage`, with three values:
- `Selecting`: the modal is hidden.
- `Answering`: answer buttons are shown.
- `Reviewing`: feedback and the continue button are shown.

## Model

| member | source | states |
|---|---|---|
| DotsAndBoxes.Game.constructor | script.js:527-529 | Page load starts a round. The session is the initial one and `Valid()` holds. The pool is the given shuffle, nothing is selected, hovered or asked, and the modal is hidden. |
| DotsAndBoxes.Game.Init | script.js:51-67 | Restart. The session becomes `NewRound()`: a 6×5 and a 5×6 line grid and a 5×5 box grid, all 0; player 1 to move; scores 1:0 and 2:0; game running; no verdict. Selection, question and hover are cleared and the pool is the given permutation of the master list, with `Valid()` re-established. |
| Turns.NewRound | script.js:51-64 | The reset session as a value: all-zero grids of 6×5, 5×6 and 5×5 cells, player 1, scores 1:0 and 2:0, game running, no verdict. Its properties are stated by `Turns.InitialConsistent`. |
| Turns.InitialConsistent | script.js:51-64 | The new round satisfies the session invariant and every line of it is undrawn. |
| DotsAndBoxes.Game.GetHoveredLine | script.js:254-282 | With the game running and the modal hidden, the result is the first selectable line in scan order. A selectable line is undrawn and within the pick band. The scan order is every horizontal line row by row, then every vertical line. The result is None when no line is selectable, and None when the game is over or the modal is up. |
| Grid.Near | script.js:267-276 | The pick-band tests: for a horizontal line the vertical distance is below the threshold and the pointer lies strictly between the line's ends, and symmetrically for a vertical line. It is a predicate without a contract, used by `GetHoveredLine` and `ScanResult`. |
| Grid.HorizontalFirst | script.js:264-281 | If any horizontal line is selectable, the scan answers a horizontal line no later in scan order, so vertical lines are tried only when no horizontal line qualifies. |
| Grid.ScanResultUnique | script.js:264-281 | The scan answer is determined by the board and the pointer. |
| DotsAndBoxes.Game.MouseMove | script.js:296-303 | The hovered line becomes the scan's answer, and `Valid()` is kept. |
| DotsAndBoxes.Game.MouseOut | script.js:517-523 | Leaving the board clears the hovered line. |
| DotsAndBoxes.Game.HandleCanvasClick | script.js:287-291 | If the game is over or nothing is hovered, nothing changes. Otherwise the hovered line is selected, the next question is drawn from the pool by the refill rule, and the modal shows it. The session is unchanged and `Valid()` is kept. |
| DotsAndBoxes.Game.ShowQuestionModal | script.js:308-351 | The current question and the pool are the result of one `Draw`. The modal opens exactly when a question was drawn. |
| DotsAndBoxes.Game.NextQuestion | script.js:310-313 | The pool is refilled from the shuffle only when it is empty, then its last question is popped. No question is drawn only when both are empty. |
| QuestionPool.Draw | script.js:310-313 | A non-empty pool deals its last element and shrinks by exactly that element. An empty pool is first replaced by the refill, which deals its last element. When both are empty, nothing is dealt. |
| QuestionPool.DrawConserves | script.js:310-313 | What a draw deals plus what it leaves is, as a multiset, the pool it drew from. |
| QuestionPool.DrawWithin | script.js:310-313 | Suppose the pool holds no question more often than the master list, and the refill is a permutation of the master list. Then the draw deals a master question and leaves a pool with the same property. |
| QuestionPool.DrawThenDrain | script.js:313 | `Drain` is what successive draws deal: a draw yields the first element of the drain and leaves a pool whose drain is the rest. |
| QuestionPool.DrainDealsTop | script.js:313 | Successive draws deal the pool from the top down: draw i yields the element at position length−1−i. |
| QuestionPool.DrainDistinct | script.js:313 | M draws from a pool of M distinct questions repeat none. |
| QuestionPool.DrainAllIsPermutation | script.js:311-313 | Draining a freshly shuffled pool deals each master question exactly as often as the master list holds it. |
| DotsAndBoxes.Game.CheckAnswer | script.js:359-412 | The answer is correct exactly when it equals the question's correct answer. The new session is `ResolveStep` of the old one for the selected line, claims are never taken back, `Valid()` is kept, the continue button shows, and selection, question and pool are unchanged. |
| DotsAndBoxes.Game.Resolve | script.js:382-412 | The deferred body of the answer as one step: the new session is `ResolveStep` of the old one. The hovered line is cleared and the modal moves on to the feedback. |
| DotsAndBoxes.Game.ClaimSelected | script.js:383-397 | A correct answer changes the session to `ClaimTurn` of the old one: line drawn, boxes scanned, then the score rises or the turn passes. |
| Turns.ResolveStepRules | script.js:383-404 | The turn rule. A wrong answer leaves board and scores unchanged and toggles the player. A correct one gives the line to the player to move. If that closes boxes, the player's score rises by their number and the turn stays; otherwise the scores stay and the turn passes. The game is over afterwards exactly when it was already, or when the scores add up to the box count. |
| Turns.ResolveKeepsConsistent | script.js:383-409 | Starting from a consistent running session and an undrawn line, an answer of either kind yields a consistent session: scores equal owned boxes, a box is owned iff complete, and the game is over iff the scores sum to 25. No claimed line or box is taken back. |
| Turns.ClaimTurn | script.js:383-397 | The correct-answer branch as a value: draw the line, scan, then add the count to the player's score or toggle the player. It has no contract of its own; `ClaimSelected` is proved equal to it and `ResolveStepRules` states its effect. |
| Turns.ResolveStep | script.js:383-409 | The whole deferred body of an answer as a value, followed by the end check. Its contract is only the precondition; its behaviour is stated by `Turns.ResolveStepRules` and `Turns.ResolveKeepsConsistent`. |
| Grid.Claim | script.js:385-389 | The board after a line is drawn. Its contract gives only the shape and that the boxes are unchanged; the behaviour is stated by `Grid.ClaimDraws`. |
| DotsAndBoxes.Game.ClaimLine | script.js:385-389 | The selected line's cell, horizontal or vertical, is set to the current player, and nothing else changes. |
| Grid.ClaimDraws | script.js:385-389 | Drawing a line gives it to the player and leaves every other line and every box unchanged. An undrawn line is drawn without taking anything back, and every owned box stays complete. |
| DotsAndBoxes.Game.CheckForNewBoxes | script.js:428-447 | After the nested loops, the grids are `Scan` of the old ones, and the returned count is the number of boxes that were unclaimed with four drawn sides. |
| Grid.Scan | script.js:432-442 | The board after the box scan. Its contract gives only the shape and that the lines are unchanged; the behaviour is stated by `Grid.ScanSettles` and `Grid.ScanCount`. |
| Grid.ScanSettles | script.js:428-447 | The scan sets exactly the unclaimed boxes with four drawn sides to the player and leaves every other box unchanged. It takes nothing back, leaves no box with four drawn sides unowned, and settles a board on which every owned box was complete. |
| Grid.ScanCount | script.js:428-447 | The scan's count is the number of boxes it hands out. The player's boxes grow by it, the unclaimed ones shrink by it, and the other player's stay the same. |
| Grid.RescanFindsNothing | script.js:432-442 | A second scan right after the first finds no new box. |
| DotsAndBoxes.Game.SwitchPlayer | script.js:452-454 | The player to move becomes `Toggle` of the old one. |
| Turns.Toggle | script.js:452-454 | The toggle yields a player, and a different player when given one. |
| Turns.ToggleTwice | script.js:452-454 | Toggling twice is the identity on players. |
| DotsAndBoxes.Game.CheckGameEnd | script.js:477-495 | The session becomes `EndCheck` of the old one. |
| Turns.EndCheck | script.js:477-495 | The game ends exactly when the scores add up to the box count (or had already ended), and the verdict is then fixed. Below the box count nothing changes. Board, player and scores are untouched. |
| Turns.WinnerText | script.js:484-490 | "Player 1 Wins!" exactly when score 1 is strictly higher, "Player 2 Wins!" exactly when score 2 is, "It's a Draw!" exactly when they are equal. |
| Turns.WinnerTextSwap | script.js:484-490 | Swapping the scores swaps the two winning verdicts and keeps a draw. |
| Turns.FinalVerdict | script.js:481-490 | In every finished consistent session the verdict is "Player 1 Wins!" exactly when score 1 is strictly higher and "Player 2 Wins!" exactly when score 2 is. |
| Turns.NoDrawAtEnd | script.js:481-490 | No finished consistent session shows "It's a Draw!": the scores add up to the odd box count 25, so they differ. |
| Turns.ScoreSumBound | script.js:391-393 | In a consistent session the two scores add up to the number of owned boxes, so they never exceed 25. |
| Grid.ClaimedBoxes | script.js:478-481 | The boxes owned by players 1 and 2 together are all boxes but the unclaimed ones, at most 25, and exactly 25 iff no box is unclaimed. |
| Turns.EndedIffAllLinesDrawn | script.js:477-482 | In a consistent session the game is over exactly when every line is drawn. |
| Grid.FullBoardIffAllLines | script.js:432-442 | On a settled board every box is owned exactly when every line is drawn. |
| DotsAndBoxes.Game.Continue | script.js:418-422 | The continue button hides the modal, drops the selection and the question, and keeps `Valid()`. |

## Left out

- Rendering is left out. That covers `drawGame` and the drawing helpers (script.js:94-245), `resizeCanvas` (76-89), `updateScoreboard` (459-472) and `hexToRgba` (505-510), which only compute pixels, colours and text for display.
- The DOM is left out: element lookups, construction of the modal and the answer buttons, feedback texts and classes, and the listener wiring. An answer button press is `CheckAnswer` with the option's text.
- `setTimeout` delays are not modelled (1200 ms or 2200 ms). The deferred body runs as the atomic step `Resolve`. So the model cannot represent a restart between submitting an answer and its resolution. In the source such a restart clears the selection and the question (script.js:55-56), and the pending timer then throws (at script.js:385 after a correct answer, at 402 after a wrong one, which first toggles the new round to player 2 at 400). The continue button (411) never appears and the game locks up.
- The `sort(() => 0.5 - Math.random())` shuffle is not modelled. Its random order is the parameter `shuffled`, required to be a permutation of the master list. The bias of that comparator-based shuffle is not modelled.
- Pointer geometry is simplified:
  - The transformation from client to canvas coordinates (script.js:257-262) is left out. `Pointer` carries coordinates already relative to the top-left dot, together with the cell size.
  - Pixel arithmetic uses exact `real`s instead of floating point.
- The master list `questions` is defined outside script.js and is an input to the constructor.
- Init: requires that no question is awaiting an answer. A restart in that state sets `currentQuestionObj` to null (script.js:56), so the next answer button would throw at script.js:360; the model does not describe that crash. The buttons are already disabled by then (script.js:344), so in the source the round locks up, which the model cannot represent.
- NextQuestion gets no question when the master list is empty. In the source, the next access to the question's text fails in that case. The model leaves the modal as it was and keeps the undefined question as None.
- CheckAnswer relies on an invariant that the source never checks. The source does no bounds check and no "already drawn" check on the selected line. The model instead keeps the invariant that a line can only be hovered, and so selected, while undrawn.
- The grids are sequences of rows that the methods reassign. They are not reference arrays: the source never aliases them, so nothing is lost.
- Grid.Claim and Grid.Scan: their function contracts state only the shape and the unchanged parts. Their full behaviour is stated by the lemmas `Grid.ClaimDraws` and `Grid.ScanSettles`.
- Turns.ResolveStep and Turns.ClaimTurn: they carry no contract of their own. Their behaviour is stated by `Turns.ResolveStepRules` and `Turns.ResolveKeepsConsistent`.
- Turns.NewRound and Grid.Near: they carry no contract of their own. `Turns.InitialConsistent` states what the reset gives; `Near` is used by the pointer-scan specification.
