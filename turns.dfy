/** The turn and score rules as values: the record of one game session, the
    player toggle, the end-of-game check and the step that applies an answered
    question, with the invariant that every step keeps. */
module Turns {
  import opened Grid

  /** The part of a game session that the turn rules read and write. */
  datatype Play = Play(board: Board, currentPlayer: int, scores: map<int, int>,
                       gameEnded: bool, winnerText: string)

  /** The other player. */
  function Toggle(p: int): (q: int)
    ensures IsPlayer(q)
    ensures IsPlayer(p) ==> q != p
  {
    if p == 1 then 2 else 1
  }

  /** Toggling twice gives the player back. */
  lemma ToggleTwice(p: int)
    requires IsPlayer(p)
    ensures Toggle(Toggle(p)) == p
  {
  }

  const PLAYER_1_WINS: string := "Player 1 Wins!"
  const PLAYER_2_WINS: string := "Player 2 Wins!"
  const DRAW: string := "It's a Draw!"

  /** The verdict shown when the board is full: a strictly higher score wins,
      equal scores are a draw. */
  function WinnerText(score1: int, score2: int): (w: string)
    ensures w == PLAYER_1_WINS <==> score1 > score2
    ensures w == PLAYER_2_WINS <==> score2 > score1
    ensures w == DRAW <==> score1 == score2
  {
    if score1 > score2 then PLAYER_1_WINS
    else if score2 > score1 then PLAYER_2_WINS
    else DRAW
  }

  /** Swapping the two scores swaps the two winning verdicts. */
  lemma WinnerTextSwap(score1: int, score2: int)
    ensures WinnerText(score1, score2) == PLAYER_1_WINS <==> WinnerText(score2, score1) == PLAYER_2_WINS
    ensures WinnerText(score1, score2) == DRAW <==> WinnerText(score2, score1) == DRAW
  {
  }

  function ScoreSum(s: Play): int
    requires 1 in s.scores && 2 in s.scores
  {
    s.scores[1] + s.scores[2]
  }

  /** The end-of-game check: once the two scores add up to the number of
      boxes the game is over and the verdict is fixed; otherwise nothing
      changes. */
  function EndCheck(s: Play): (t: Play)
    requires 1 in s.scores && 2 in s.scores
    ensures t.board == s.board && t.currentPlayer == s.currentPlayer && t.scores == s.scores
    ensures t.gameEnded <==> s.gameEnded || ScoreSum(s) == BOX_COUNT
    ensures ScoreSum(s) == BOX_COUNT ==> t.winnerText == WinnerText(s.scores[1], s.scores[2])
    ensures ScoreSum(s) != BOX_COUNT ==> t == s
  {
    if ScoreSum(s) == BOX_COUNT then
      s.(gameEnded := true, winnerText := WinnerText(s.scores[1], s.scores[2]))
    else s
  }

  /** What a correct answer does before the end check: the current player
      draws `l`, the box scan runs, and a player who closed boxes scores them
      and moves again while one who closed none hands the turn over. */
  function ClaimTurn(s: Play, l: Line): Play
    requires WellFormed(s.board) && IsPlayer(s.currentPlayer) && s.currentPlayer in s.scores
    requires LineInBounds(l)
  {
    var p := s.currentPlayer;
    var claimed := Claim(s.board, l, p);
    var made := NewCount(claimed);
    var board := Scan(claimed, p);
    if made > 0 then s.(board := board, scores := s.scores[p := s.scores[p] + made])
    else s.(board := board, currentPlayer := Toggle(p))
  }

  /** The deferred consequence of an answer to the question asked for line
      `l`, followed by the end check. */
  function ResolveStep(s: Play, l: Line, isCorrect: bool): Play
    requires WellFormed(s.board) && IsPlayer(s.currentPlayer) && 1 in s.scores && 2 in s.scores
    requires LineInBounds(l)
  {
    var next := if isCorrect then ClaimTurn(s, l) else s.(currentPlayer := Toggle(s.currentPlayer));
    EndCheck(next)
  }

  /** The turn rule. A wrong answer changes nothing but the player to move.
      A correct one draws `l` for the player to move; if that closes boxes
      the player scores them and moves again, otherwise the turn passes.
      Either way the game is over afterwards exactly when it was already,
      or when the scores add up to the number of boxes. */
  lemma ResolveStepRules(s: Play, l: Line, isCorrect: bool)
    requires WellFormed(s.board) && IsPlayer(s.currentPlayer) && 1 in s.scores && 2 in s.scores
    requires LineInBounds(l)
    ensures WellFormed(ResolveStep(s, l, isCorrect).board)
    ensures ResolveStep(s, l, isCorrect).scores.Keys == s.scores.Keys
    ensures !isCorrect ==>
      var t := ResolveStep(s, l, isCorrect);
      t.board == s.board && t.scores == s.scores && t.currentPlayer == Toggle(s.currentPlayer)
    ensures isCorrect ==> LineOwner(ResolveStep(s, l, isCorrect).board, l) == s.currentPlayer
    ensures isCorrect ==>
      var t := ResolveStep(s, l, isCorrect);
      var p := s.currentPlayer;
      var made := NewCount(Claim(s.board, l, p));
      (made > 0 ==> t.currentPlayer == p && t.scores == s.scores[p := s.scores[p] + made]) &&
      (made == 0 ==> t.currentPlayer == Toggle(p) && t.scores == s.scores)
    ensures var t := ResolveStep(s, l, isCorrect);
      t.gameEnded <==> s.gameEnded || t.scores[1] + t.scores[2] == BOX_COUNT
  {
    if isCorrect {
      ClaimDraws(s.board, l, s.currentPlayer);
    }
  }

  /** The invariant of a session between answers: a well-formed board on
      which a box is owned exactly when its four sides are drawn, a current
      player, each player's score equal to the boxes that player owns, the
      game over exactly when the scores add up to the number of boxes, and
      the verdict shown exactly then. */
  ghost predicate Consistent(s: Play) {
    WellFormed(s.board) && Settled(s.board) && IsPlayer(s.currentPlayer) &&
    s.scores.Keys == {1, 2} &&
    s.scores[1] == Owned(s.board.b, 1) && s.scores[2] == Owned(s.board.b, 2) &&
    (s.gameEnded <==> ScoreSum(s) == BOX_COUNT) &&
    s.winnerText == (if s.gameEnded then WinnerText(s.scores[1], s.scores[2]) else "")
  }

  /** A grid of `rows` rows of `cols` unclaimed cells. */
  function Zeros(rows: nat, cols: nat): (g: seq<seq<int>>)
    ensures Shaped(g, rows, cols)
    ensures forall i, j :: 0 <= i < rows && 0 <= j < cols ==> g[i][j] == 0
  {
    seq(rows, _ => seq(cols, _ => 0))
  }

  /** The session a new round starts from. */
  function NewRound(): Play {
    Play(Board(Zeros(DOT_COUNT, SIDE), Zeros(SIDE, DOT_COUNT), Zeros(SIDE, SIDE)), 1, map[1 := 0, 2 := 0], false, "")
  }

  /** A new round is consistent: nothing drawn, nothing owned, nothing scored. */
  lemma InitialConsistent()
    ensures Consistent(NewRound())
    ensures forall l :: LineInBounds(l) ==> LineOwner(NewRound().board, l) == 0
  {
    var g := NewRound().board.b;
    GridCountZero(g, 1, SIDE);
    GridCountZero(g, 2, SIDE);
  }

  /** Every answer keeps the session consistent and never takes back a line
      or a box, provided the line asked about was undrawn and the game was
      still running. */
  lemma ResolveKeepsConsistent(s: Play, l: Line, isCorrect: bool)
    requires Consistent(s) && !s.gameEnded
    requires LineInBounds(l) && LineOwner(s.board, l) == 0
    ensures Consistent(ResolveStep(s, l, isCorrect))
    ensures Extends(s.board, ResolveStep(s, l, isCorrect).board)
  {
    if isCorrect {
      var p := s.currentPlayer;
      var claimed := Claim(s.board, l, p);
      var board := Scan(claimed, p);
      ClaimDraws(s.board, l, p);
      ScanSettles(claimed, p);
      ScanCount(claimed, p, 1);
      ScanCount(claimed, p, 2);
      ExtendsTransitive(s.board, claimed, board);
    }
  }

  lemma ExtendsTransitive(a: Board, b: Board, c: Board)
    requires WellFormed(a) && WellFormed(b) && WellFormed(c)
    requires Extends(a, b) && Extends(b, c)
    ensures Extends(a, c)
  {
  }

  /** The two scores add up to the number of owned boxes and so never exceed
      the number of boxes. */
  lemma ScoreSumBound(s: Play)
    requires Consistent(s)
    ensures ScoreSum(s) == BOX_COUNT - Owned(s.board.b, 0)
    ensures ScoreSum(s) <= BOX_COUNT
  {
    ClaimedBoxes(s.board.b);
  }

  /** The game is over exactly when every line has been drawn. */
  lemma EndedIffAllLinesDrawn(s: Play)
    requires Consistent(s)
    ensures s.gameEnded <==> AllLinesClaimed(s.board)
  {
    ClaimedBoxes(s.board.b);
    FullBoardIffAllLines(s.board);
  }

  /** A finished game never ends in a draw: the box count is odd, so two
      scores that add up to it differ. */
  lemma NoDrawAtEnd(s: Play)
    requires Consistent(s) && s.gameEnded
    ensures s.winnerText != DRAW
  {
  }

  /** The verdict of a finished game names the player with the strictly
      higher score. */
  lemma FinalVerdict(s: Play)
    requires Consistent(s) && s.gameEnded
    ensures s.winnerText == PLAYER_1_WINS <==> s.scores[1] > s.scores[2]
    ensures s.winnerText == PLAYER_2_WINS <==> s.scores[2] > s.scores[1]
  {
  }
}
