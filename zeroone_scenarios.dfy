/**
 * The engine's documented examples, replayed on the model: two players, Alice throwing
 * first, each example starting from a fresh game with one field adjusted.
 */
module ZeroOneScenarios {

  import opened Optional
  import opened BoardInfo
  import opened Players
  import opened ZeroOne

  const Alice := Player("1", "Alice")
  const Bob := Player("2", "Bob")

  function Fresh(mode: ZeroOneMode, doubleOut: bool, maxRounds: nat): (s: GameState)
    ensures Valid(s) && |s.players| == 2
  {
    CreateInitialGameState([Alice, Bob], mode, doubleOut, maxRounds)
  }

  /** A fresh game of 501 with Alice's score set to `score`. */
  function AliceAt(score: int, doubleOut: bool): (s: GameState)
    ensures Valid(s) && s.currentPlayerIndex == 0 && s.players[0].currentScore == score
  {
    var s := Fresh(FiveOhOne, doubleOut, 0);
    s.(players := s.players[0 := s.players[0].(currentScore := score)])
  }

  lemma StartingScores()
    ensures CreateInitialPlayerState(Alice, ThreeOhOne).currentScore == 301
    ensures CreateInitialPlayerState(Alice, FiveOhOne).currentScore == 501
    ensures CreateInitialPlayerState(Alice, SevenOhOne).currentScore == 701
  {
  }

  lemma SegmentsScoreTheirValue()
    ensures ProcessDartHit(Fresh(FiveOhOne, false, 0), Triple20, None).players[0].currentScore == 441
    ensures ProcessDartHit(Fresh(FiveOhOne, false, 0), Inner20, None).players[0].currentScore == 481
    ensures ProcessDartHit(Fresh(FiveOhOne, false, 0), Double20, None).players[0].currentScore == 461
    ensures ProcessDartHit(Fresh(FiveOhOne, false, 0), Bull, None).players[0].currentScore == 476
    ensures ProcessDartHit(Fresh(FiveOhOne, false, 0), DoubleBull, None).players[0].currentScore == 451
    ensures ProcessDartHit(Fresh(FiveOhOne, false, 0), MissSegment, None).players[0].currentScore == 501
    ensures ProcessDartHit(Fresh(FiveOhOne, false, 0), MissSegment, None).dartsThrown == 1
  {
  }

  lemma BustExamples()
    ensures var r := ProcessDartHit(AliceAt(40, false), Triple20, None);
      r.players[0].currentScore == 40 && r.players[0].busts == 1 && r.dartsThrown == 3
    ensures var r := ProcessDartHit(AliceAt(21, false), Inner20, None);
      r.players[0].currentScore == 21 && r.players[0].busts == 1 && r.dartsThrown == 3
    ensures var r := ProcessDartHit(AliceAt(20, true), Inner20, None);
      r.players[0].currentScore == 20 && r.players[0].busts == 1
  {
  }

  lemma WinExamples()
    ensures var r := ProcessDartHit(AliceAt(60, false), Triple20, None);
      r.players[0].currentScore == 0 && r.gameFinished && r.winner == Some(Alice)
    ensures var r := ProcessDartHit(AliceAt(40, true), Double20, None);
      r.players[0].currentScore == 0 && r.gameFinished && r.winner == Some(Alice)
  {
  }

  lemma DuplicateHitExample()
    ensures var once := ProcessDartHit(Fresh(FiveOhOne, false, 0), Inner20, Some("unique-hit-123"));
      var twice := ProcessDartHit(once, Inner20, Some("unique-hit-123"));
      twice.players[0].currentScore == 481 && twice.players[0].dartsThrown == 1
  {
  }

  /** Three treble twenties from 501: 441, 381, then 321, with 180 scored in three darts. */
  lemma ThreeTrebleTwenties()
    ensures var s := Fresh(FiveOhOne, false, 0);
      var r := ProcessDartHit(ProcessDartHit(ProcessDartHit(s, Triple20, None), Triple20, None), Triple20, None);
      && r.players[0].currentScore == 321 && r.players[0].totalPointsScored == 180
      && r.players[0].dartsThrown == 3 && r.players[0].busts == 0 && r.dartsThrown == 3
  {
  }

  lemma TurnExamples()
    ensures var r := NextPlayer(Fresh(FiveOhOne, false, 0).(dartsThrown := 3));
      r.currentPlayerIndex == 1 && r.dartsThrown == 0 && r.players[0].roundsPlayed == 1
    ensures var r := NextPlayer(Fresh(FiveOhOne, false, 0).(currentPlayerIndex := 1, dartsThrown := 3));
      r.currentPlayerIndex == 0 && r.currentRound == 2
    ensures NextPlayer(Fresh(FiveOhOne, false, 1).(currentPlayerIndex := 1, dartsThrown := 3)).gameFinished
  {
  }

  lemma StatisticsExamples()
    ensures CalculatePPD(CreateInitialPlayerState(Alice, FiveOhOne).(totalPointsScored := 180, dartsThrown := 9)) == 20.0
    ensures CalculatePPD(CreateInitialPlayerState(Alice, FiveOhOne)) == 0.0
    ensures CalculatePPD(CreateInitialPlayerState(Alice, FiveOhOne).(totalPointsScored := 100, dartsThrown := 9)) == 100.0 / 9.0
    ensures CalculateAverage(CreateInitialPlayerState(Alice, FiveOhOne).(totalPointsScored := 180, roundsPlayed := 3)) == 60.0
    ensures CalculateAverage(CreateInitialPlayerState(Alice, FiveOhOne)) == 0.0
    ensures CalculateAverage(CreateInitialPlayerState(Alice, FiveOhOne).(totalPointsScored := 100, roundsPlayed := 2)) == 50.0
  {
  }
}
