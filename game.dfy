/** The game session of the dots-and-boxes trivia game: its state lives in
    mutable fields (the three grids are sequences of rows that the game
    logic reassigns cell by cell), and every operation is proved against
    the value-level rules of `Grid`, `Turns` and `QuestionPool`. */
module DotsAndBoxes {
  import opened Wrappers
  import opened Grid
  import opened Turns
  import opened QuestionPool

  datatype Question = Question(text: string, options: seq<string>, correctAnswer: string)

  /** What the question modal shows: nothing (the board takes pointer
      input), the answer buttons of an unanswered question, or the feedback
      with the continue button. */
  datatype Stage = Selecting | Answering | Reviewing

  /** Two grids with the same rows and the same cells are equal. */
  lemma SameGrid(g1: seq<seq<int>>, g2: seq<seq<int>>)
    requires |g1| == |g2| && forall i :: 0 <= i < |g1| ==> |g1[i]| == |g2[i]|
    requires forall i, j :: 0 <= i < |g1| && 0 <= j < |g1[i]| ==> g1[i][j] == g2[i][j]
    ensures g1 == g2
  {
    forall i | 0 <= i < |g1| ensures g1[i] == g2[i] {
      assert forall j :: 0 <= j < |g1[i]| ==> g1[i][j] == g2[i][j];
    }
  }

  class Game {
    /** The master question list, read-only for the whole session. */
    const questions: seq<Question>

    var currentPlayer: int
    var scores: map<int, int>
    /** Owner of each horizontal line, DOT_COUNT rows of SIDE. */
    var hLines: seq<seq<int>>
    /** Owner of each vertical line, SIDE rows of DOT_COUNT. */
    var vLines: seq<seq<int>>
    /** Owner of each box, SIDE rows of SIDE. */
    var boxes: seq<seq<int>>
    var gameEnded: bool
    /** The verdict in the winner message area; empty while the game runs. */
    var winnerText: string
    var selectedLine: Option<Line>
    var currentQuestion: Option<Question>
    /** Questions not yet dealt in this round; the next one is the last. */
    var pool: seq<Question>
    var hoveredLine: Option<Line>
    var stage: Stage

    /** The three grids as a board value. */
    function Snapshot(): Board
      reads this`hLines, this`vLines, this`boxes
    {
      Board(hLines, vLines, boxes)
    }

    /** The fields the turn rules act on, as a session value. */
    ghost function Session(): Play
      reads this`hLines, this`vLines, this`boxes, this`currentPlayer, this`scores, this`gameEnded, this`winnerText
    {
      Play(Snapshot(), currentPlayer, scores, gameEnded, winnerText)
    }

    /** The object invariant: the session is consistent, the hovered line
        and, while a question is open, the selected line are undrawn lines,
        an open question comes from the master list, and the pool holds no
        question more often than the master list does. */
    ghost predicate Valid()
      reads this
    {
      Consistent(Session()) &&
      (hoveredLine.Some? ==>
        LineInBounds(hoveredLine.value) && LineOwner(Snapshot(), hoveredLine.value) == 0) &&
      (stage == Answering ==>
        !gameEnded && selectedLine.Some? && currentQuestion.Some? &&
        LineInBounds(selectedLine.value) && LineOwner(Snapshot(), selectedLine.value) == 0) &&
      (currentQuestion.Some? ==> currentQuestion.value in questions) &&
      multiset(pool) <= multiset(questions)
    }

    /** Page load: the game starts as `Init` leaves it. `shuffled` is the
        random order in which the pool is dealt. */
    constructor (questions: seq<Question>, shuffled: seq<Question>)
      requires IsPermutation(shuffled, questions)
      ensures Valid() && Session() == NewRound()
      ensures this.questions == questions && pool == shuffled
      ensures selectedLine == None && currentQuestion == None && hoveredLine == None
      ensures stage == Selecting
    {
      this.questions := questions;
      stage := Selecting;
      new;
      Init(shuffled);
    }

    /** Starts a new round: fresh empty grids, player 1 to move, no scores,
        nothing hovered, selected or asked, and the pool set to `shuffled`.
        A restart while a question awaits its answer would leave the answer
        buttons reading a cleared question, so that case is excluded. */
    method Init(shuffled: seq<Question>)
      requires IsPermutation(shuffled, questions)
      requires stage != Answering
      modifies this
      ensures Valid() && Session() == NewRound()
      ensures selectedLine == None && currentQuestion == None && hoveredLine == None
      ensures pool == shuffled && stage == old(stage)
    {
      currentPlayer := 1;
      scores := map[1 := 0, 2 := 0];
      gameEnded := false;
      selectedLine := None;
      currentQuestion := None;
      hoveredLine := None;
      winnerText := "";
      hLines := Zeros(DOT_COUNT, SIDE);
      vLines := Zeros(SIDE, DOT_COUNT);
      boxes := Zeros(SIDE, SIDE);
      pool := shuffled;
      InitialConsistent();
    }

    /** The pointer scan: the first undrawn line, all horizontal lines row by
        row before any vertical line, whose pick band holds the pointer; no
        line while the game is over or the modal is up. */
    method GetHoveredLine(ptr: Pointer) returns (line: Option<Line>)
      requires Valid()
      ensures gameEnded || stage != Selecting ==> line == None
      ensures !gameEnded && stage == Selecting ==> ScanResult(Snapshot(), ptr, line)
    {
      if gameEnded || stage != Selecting {
        return None;
      }
      ghost var bd := Snapshot();
      for r := 0 to DOT_COUNT
        invariant forall l :: LineInBounds(l) && ScanIndex(l) < r * SIDE ==> !Selectable(bd, ptr, l)
      {
        for c := 0 to SIDE
          invariant forall l :: LineInBounds(l) && ScanIndex(l) < r * SIDE + c ==> !Selectable(bd, ptr, l)
        {
          if hLines[r][c] == 0 && Near(ptr, H(r, c)) {
            return Some(H(r, c));
          }
        }
      }
      for r := 0 to SIDE
        invariant forall l :: LineInBounds(l) && ScanIndex(l) < DOT_COUNT * SIDE + r * DOT_COUNT ==>
          !Selectable(bd, ptr, l)
      {
        for c := 0 to DOT_COUNT
          invariant forall l :: LineInBounds(l) && ScanIndex(l) < DOT_COUNT * SIDE + r * DOT_COUNT + c ==>
            !Selectable(bd, ptr, l)
        {
          if vLines[r][c] == 0 && Near(ptr, V(r, c)) {
            return Some(V(r, c));
          }
        }
      }
      return None;
    }

    /** Pointer movement: the hovered line becomes the scan's answer. */
    method MouseMove(ptr: Pointer)
      requires Valid()
      modifies this`hoveredLine
      ensures Valid()
      ensures gameEnded || stage != Selecting ==> hoveredLine == None
      ensures !gameEnded && stage == Selecting ==> ScanResult(Snapshot(), ptr, hoveredLine)
    {
      hoveredLine := GetHoveredLine(ptr);
    }

    /** The pointer leaves the board: nothing is hovered any more. */
    method MouseOut()
      requires Valid()
      modifies this`hoveredLine
      ensures Valid() && hoveredLine == None
    {
      hoveredLine := None;
    }

    /** A click on the board: unless the game is over or no line is hovered,
        the hovered line is selected and a question is put up for it. */
    method HandleCanvasClick(shuffled: seq<Question>)
      requires Valid() && IsPermutation(shuffled, questions)
      modifies this
      ensures Valid() && Session() == old(Session())
      ensures old(gameEnded) || old(hoveredLine) == None ==>
        selectedLine == old(selectedLine) && currentQuestion == old(currentQuestion) &&
        pool == old(pool) && stage == old(stage)
      ensures !old(gameEnded) && old(hoveredLine).Some? ==>
        selectedLine == old(hoveredLine) &&
        (currentQuestion, pool) == Draw(old(pool), shuffled) &&
        stage == (if currentQuestion.Some? then Answering else old(stage))
      ensures hoveredLine == old(hoveredLine)
    {
      if gameEnded || hoveredLine.None? {
        return;
      }
      selectedLine := hoveredLine;
      ShowQuestionModal(shuffled);
    }

    /** Puts up the next question for the selected line. With an empty
        master list there is none and the modal stays as it was. */
    method ShowQuestionModal(shuffled: seq<Question>)
      requires Valid() && IsPermutation(shuffled, questions) && !gameEnded
      requires selectedLine.Some? && LineInBounds(selectedLine.value)
      requires LineOwner(Snapshot(), selectedLine.value) == 0
      modifies this`currentQuestion, this`pool, this`stage
      ensures Valid()
      ensures (currentQuestion, pool) == Draw(old(pool), shuffled)
      ensures stage == (if currentQuestion.Some? then Answering else old(stage))
    {
      DrawWithin(pool, shuffled, questions);
      var q := NextQuestion(shuffled);
      currentQuestion := q;
      if q.Some? {
        stage := Answering;
      }
    }

    /** Takes the last question off the pool, first refilling an empty pool
        with `shuffled`, a shuffle of the master list. */
    method NextQuestion(shuffled: seq<Question>) returns (q: Option<Question>)
      requires IsPermutation(shuffled, questions)
      modifies this`pool
      ensures (q, pool) == Draw(old(pool), shuffled)
    {
      if |pool| == 0 {
        pool := shuffled;
      }
      if pool == [] {
        q := None;
      } else {
        q := Some(Last(pool));
        pool := DropLast(pool);
      }
    }

    /** An answer button: the answer is correct when it is the question's
        correct answer, and its consequence is applied. */
    method CheckAnswer(selectedAnswer: string) returns (isCorrect: bool)
      requires Valid() && stage == Answering
      modifies this
      ensures isCorrect == (selectedAnswer == old(currentQuestion).value.correctAnswer)
      ensures Valid()
      ensures Session() == ResolveStep(old(Session()), old(selectedLine).value, isCorrect)
      ensures Extends(old(Snapshot()), Snapshot())
      ensures stage == Reviewing && hoveredLine == None
      ensures selectedLine == old(selectedLine) && currentQuestion == old(currentQuestion)
      ensures pool == old(pool)
    {
      isCorrect := selectedAnswer == currentQuestion.value.correctAnswer;
      ghost var s := Session();
      Resolve(isCorrect);
      ResolveKeepsConsistent(s, selectedLine.value, isCorrect);
    }

    /** The deferred consequence of an answer, as one step: a correct answer
        draws the selected line for the current player and scores the boxes
        it closes, keeping the turn if there are any; otherwise, and after
        any wrong answer, the turn passes. Then the end of the game is
        checked and the continue button appears. */
    method Resolve(isCorrect: bool)
      requires Valid() && stage == Answering
      modifies this
      ensures Session() == ResolveStep(old(Session()), old(selectedLine).value, isCorrect)
      ensures stage == Reviewing && hoveredLine == None
      ensures selectedLine == old(selectedLine) && currentQuestion == old(currentQuestion)
      ensures pool == old(pool)
    {
      if isCorrect {
        ClaimSelected();
      } else {
        SwitchPlayer();
      }
      hoveredLine := None;
      CheckGameEnd();
      stage := Reviewing;
    }

    /** A correct answer: the current player draws the selected line, the
        box scan runs, and the boxes it hands out are scored, or the turn
        passes when there are none. */
    method ClaimSelected()
      requires WellFormed(Snapshot()) && IsPlayer(currentPlayer) && currentPlayer in scores
      requires selectedLine.Some? && LineInBounds(selectedLine.value)
      modifies this`hLines, this`vLines, this`boxes, this`scores, this`currentPlayer
      ensures Session() == ClaimTurn(old(Session()), selectedLine.value)
    {
      ClaimLine(selectedLine.value);
      var boxesMade := CheckForNewBoxes();
      if boxesMade > 0 {
        scores := scores[currentPlayer := scores[currentPlayer] + boxesMade];
      } else {
        SwitchPlayer();
      }
    }

    /** Writes the current player into the cell of line `l`. */
    method ClaimLine(l: Line)
      requires WellFormed(Snapshot()) && IsPlayer(currentPlayer) && LineInBounds(l)
      modifies this`hLines, this`vLines
      ensures Snapshot() == Claim(old(Snapshot()), l, currentPlayer)
    {
      match l {
        case H(r, c) =>
          hLines := hLines[r := hLines[r][c := currentPlayer]];
        case V(r, c) =>
          vLines := vLines[r := vLines[r][c := currentPlayer]];
      }
    }

    /** The full-grid box scan: hands every unclaimed box whose four sides are
        drawn to the current player and returns how many it handed out. */
    method CheckForNewBoxes() returns (newBoxesCount: nat)
      requires WellFormed(Snapshot()) && IsPlayer(currentPlayer)
      modifies this`boxes
      ensures Snapshot() == Scan(old(Snapshot()), currentPlayer)
      ensures newBoxesCount == NewCount(old(Snapshot()))
    {
      ghost var bd := Snapshot();
      newBoxesCount := 0;
      for r := 0 to SIDE
        invariant |boxes| == SIDE && forall i :: 0 <= i < SIDE ==> |boxes[i]| == SIDE
        invariant newBoxesCount == NewInRows(bd, r)
        invariant forall i, j :: InGrid(i, j) ==>
          boxes[i][j] == (if i < r then ScanCell(bd, currentPlayer, i, j) else bd.b[i][j])
      {
        for c := 0 to SIDE
          invariant |boxes| == SIDE && forall i :: 0 <= i < SIDE ==> |boxes[i]| == SIDE
          invariant newBoxesCount == NewInRows(bd, r) + NewInRow(bd, r, c)
          invariant forall i, j :: InGrid(i, j) ==>
            boxes[i][j] == (if i < r || (i == r && j < c) then ScanCell(bd, currentPlayer, i, j) else bd.b[i][j])
        {
          if boxes[r][c] == 0 {
            var topLine := hLines[r][c];
            var bottomLine := hLines[r + 1][c];
            var leftLine := vLines[r][c];
            var rightLine := vLines[r][c + 1];
            if topLine != 0 && bottomLine != 0 && leftLine != 0 && rightLine != 0 {
              boxes := boxes[r := boxes[r][c := currentPlayer]];
              newBoxesCount := newBoxesCount + 1;
            }
          }
        }
      }
      SameGrid(boxes, Scan(bd, currentPlayer).b);
    }

    /** Passes the turn to the other player. */
    method SwitchPlayer()
      modifies this`currentPlayer
      ensures currentPlayer == Toggle(old(currentPlayer))
    {
      currentPlayer := if currentPlayer == 1 then 2 else 1;
    }

    /** Ends the game once every box is scored and records the verdict. */
    method CheckGameEnd()
      requires 1 in scores && 2 in scores
      modifies this`gameEnded, this`winnerText
      ensures Session() == EndCheck(old(Session()))
    {
      var totalBoxes := SIDE * SIDE;
      var claimedBoxes := scores[1] + scores[2];
      if claimedBoxes == totalBoxes {
        gameEnded := true;
        var verdict;
        if scores[1] > scores[2] {
          verdict := PLAYER_1_WINS;
        } else if scores[2] > scores[1] {
          verdict := PLAYER_2_WINS;
        } else {
          verdict := DRAW;
        }
        winnerText := verdict;
      }
    }

    /** The continue button: the modal closes and the selection and the
        question are dropped. */
    method Continue()
      requires Valid() && stage == Reviewing
      modifies this`stage, this`selectedLine, this`currentQuestion
      ensures Valid() && stage == Selecting && selectedLine == None && currentQuestion == None
    {
      ghost var s := Session();
      stage := Selecting;
      selectedLine := None;
      currentQuestion := None;
      assert Session() == s;
    }
  }
}
