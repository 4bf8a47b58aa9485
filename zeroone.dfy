/**
 * The 01 scoring engine: every player counts down from 301, 501 or 701; a dart that
 * would leave a negative score, a score of 1, or (under double-out) a zero reached
 * without a double is a bust; reaching exactly zero legally wins. Every operation is a
 * pure transition that returns a new game state.
 */
module ZeroOne {

  import opened Optional
  import opened BoardInfo
  import opened Players

  datatype ZeroOneMode = ThreeOhOne | FiveOhOne | SevenOhOne

  /** The score every player starts from in a game of the given mode. */
  function StartingScore(mode: ZeroOneMode): nat {
    match mode
    case ThreeOhOne => 301
    case FiveOhOne => 501
    case SevenOhOne => 701
  }

  datatype PlayerState = PlayerState(
    player: Player,
    currentScore: int,
    dartsThrown: nat,
    totalPointsScored: nat,
    busts: nat,
    roundsPlayed: nat)

  /**
   * `dartsThrown` counts the darts of the current turn only; `lastHitId` is the id of
   * the most recent hit processed with an id, used to ignore a repeated delivery.
   */
  datatype GameState = GameState(
    players: seq<PlayerState>,
    currentPlayerIndex: nat,
    dartsThrown: nat,
    currentRound: nat,
    maxRounds: nat,
    gameStarted: bool,
    gameFinished: bool,
    winner: Option<Player>,
    mode: ZeroOneMode,
    doubleOut: bool,
    lastHitId: Option<string>)

  /** The shape every engine operation relies on: someone is at the oche. */
  predicate Valid(s: GameState) {
    |s.players| > 0 && s.currentPlayerIndex < |s.players| && s.currentRound >= 1
  }

  /**
   * The score bookkeeping every reachable state keeps: no score is negative, and what a
   * player has scored plus what is left is the mode's starting score.
   */
  predicate ScoresConsistent(s: GameState) {
    forall j :: 0 <= j < |s.players| ==>
      && s.players[j].currentScore >= 0
      && s.players[j].currentScore + s.players[j].totalPointsScored == StartingScore(s.mode)
  }

  /** A winner, when there is one, is a player of the game and the game is over. */
  predicate WinnerConsistent(s: GameState) {
    s.winner.Some? ==>
      s.gameFinished && exists j :: 0 <= j < |s.players| && s.players[j].player == s.winner.value
  }

  function CreateInitialPlayerState(player: Player, mode: ZeroOneMode): (r: PlayerState)
    ensures r.player == player && r.currentScore == StartingScore(mode)
    ensures r.dartsThrown == 0 && r.totalPointsScored == 0 && r.busts == 0 && r.roundsPlayed == 0
  {
    PlayerState(player, StartingScore(mode), 0, 0, 0, 0)
  }

  function CreateInitialGameState(players: seq<Player>, mode: ZeroOneMode, doubleOut: bool, maxRounds: nat)
    : (r: GameState)
    ensures |r.players| == |players|
    ensures forall j :: 0 <= j < |players| ==> r.players[j] == CreateInitialPlayerState(players[j], mode)
    ensures r.currentPlayerIndex == 0 && r.dartsThrown == 0 && r.currentRound == 1
    ensures r.gameStarted && !r.gameFinished && r.winner == None && r.lastHitId == None
    ensures r.mode == mode && r.doubleOut == doubleOut && r.maxRounds == maxRounds
    ensures |players| > 0 ==> Valid(r)
    ensures ScoresConsistent(r) && WinnerConsistent(r)
  {
    var states := seq(|players|, j requires 0 <= j < |players| => CreateInitialPlayerState(players[j], mode));
    GameState(states, 0, 0, 1, maxRounds, true, false, None, mode, doubleOut, None)
  }

  /**
   * Whether a dart that would leave `remaining` points is a bust. A dart stands exactly
   * when it leaves at least 2 points, or checks out at zero on a double when double-out
   * is on (on any segment when it is off).
   */
  predicate IsBust(remaining: int, segment: Segment, doubleOut: bool): (r: bool)
    ensures !r <==> remaining >= 2 || (remaining == 0 && (doubleOut ==> segment.zone == Double))
  {
    remaining < 0 || remaining == 1 || (remaining == 0 && doubleOut && segment.zone != Double)
  }

  /** Whether the dart is a repeat delivery of the hit processed last. */
  predicate IsDuplicate(s: GameState, hitId: Option<string>) {
    hitId.Some? && s.lastHitId == hitId
  }

  /**
   * Applies one dart to the current player. A repeated hit id is ignored. A bust keeps
   * the score, counts the bust and ends the turn; an exact legal zero wins and ends the
   * turn; any other dart is taken off the score.
   */
  function ProcessDartHit(s: GameState, segment: Segment, hitId: Option<string>): (r: GameState)
    requires Valid(s)
    ensures Valid(r)
    ensures |r.players| == |s.players| && r.currentPlayerIndex == s.currentPlayerIndex
    ensures forall j :: 0 <= j < |s.players| && j != s.currentPlayerIndex ==> r.players[j] == s.players[j]
    ensures r.players[s.currentPlayerIndex].player == s.players[s.currentPlayerIndex].player
    ensures r.currentRound == s.currentRound && r.maxRounds == s.maxRounds
    ensures r.mode == s.mode && r.doubleOut == s.doubleOut && r.gameStarted == s.gameStarted
    ensures hitId.Some? ==> r.lastHitId == hitId
    ensures hitId.None? ==> r.lastHitId == s.lastHitId
  {
    if IsDuplicate(s, hitId) then s
    else
      var i := s.currentPlayerIndex;
      var p := s.players[i];
      var remaining := p.currentScore - segment.value;
      var lastHitId := if hitId.Some? then hitId else s.lastHitId;
      if IsBust(remaining, segment, s.doubleOut) then
        s.(players := s.players[i := p.(busts := p.busts + 1)],
           dartsThrown := 3,
           lastHitId := lastHitId)
      else
        var p' := p.(currentScore := remaining,
                     totalPointsScored := p.totalPointsScored + segment.value,
                     dartsThrown := p.dartsThrown + 1);
        if remaining == 0 then
          s.(players := s.players[i := p'],
             dartsThrown := 3,
             gameFinished := true,
             winner := Some(p.player),
             lastHitId := lastHitId)
        else
          s.(players := s.players[i := p'],
             dartsThrown := s.dartsThrown + 1,
             lastHitId := lastHitId)
  }

  /** A hit whose id was the last one processed changes nothing. */
  lemma DuplicateHitIgnored(s: GameState, segment: Segment, hitId: Option<string>)
    requires Valid(s) && IsDuplicate(s, hitId)
    ensures ProcessDartHit(s, segment, hitId) == s
  {
  }

  /** Delivering the same identified hit twice in a row has the effect of delivering it once. */
  lemma ProcessDartHitIdempotent(s: GameState, segment: Segment, hitId: string)
    requires Valid(s)
    ensures var once := ProcessDartHit(s, segment, Some(hitId));
      ProcessDartHit(once, segment, Some(hitId)) == once
  {
    var once := ProcessDartHit(s, segment, Some(hitId));
    assert IsDuplicate(once, Some(hitId));
  }

  /**
   * A dart that is neither a bust nor a finish is taken off the thrower's score, added to
   * their points, and counted both for the player and for the turn; nothing else changes.
   */
  lemma ScoringHit(s: GameState, segment: Segment, hitId: Option<string>)
    requires Valid(s) && !IsDuplicate(s, hitId)
    requires var p := s.players[s.currentPlayerIndex];
      !IsBust(p.currentScore - segment.value, segment, s.doubleOut) && p.currentScore != segment.value
    ensures var p := s.players[s.currentPlayerIndex];
      var r := ProcessDartHit(s, segment, hitId);
      var q := r.players[s.currentPlayerIndex];
      && q.currentScore == p.currentScore - segment.value
      && q.totalPointsScored == p.totalPointsScored + segment.value
      && q.dartsThrown == p.dartsThrown + 1
      && q.busts == p.busts && q.roundsPlayed == p.roundsPlayed
      && r.dartsThrown == s.dartsThrown + 1
      && r.gameFinished == s.gameFinished && r.winner == s.winner
  {
  }

  /**
   * A bust leaves the thrower's score and points as they were, adds one bust and ends the
   * turn (three darts counted for it); it never finishes the game.
   */
  lemma BustHit(s: GameState, segment: Segment, hitId: Option<string>)
    requires Valid(s) && !IsDuplicate(s, hitId)
    requires IsBust(s.players[s.currentPlayerIndex].currentScore - segment.value, segment, s.doubleOut)
    ensures var p := s.players[s.currentPlayerIndex];
      var r := ProcessDartHit(s, segment, hitId);
      && r.players[s.currentPlayerIndex] == p.(busts := p.busts + 1)
      && r.dartsThrown == 3
      && r.gameFinished == s.gameFinished && r.winner == s.winner
  {
  }

  /**
   * The game is won by this dart exactly when it brings the score to zero and, under
   * double-out, lands in a double; the winner is the thrower, whose score is then 0.
   * The winning dart counts like any scored dart: its value goes to the thrower's
   * points, it adds one to their darts, and no bust is counted.
   */
  lemma WinningHit(s: GameState, segment: Segment, hitId: Option<string>)
    requires Valid(s) && !IsDuplicate(s, hitId) && !s.gameFinished
    ensures var p := s.players[s.currentPlayerIndex];
      var r := ProcessDartHit(s, segment, hitId);
      r.gameFinished <==> p.currentScore == segment.value && (!s.doubleOut || segment.zone == Double)
    ensures var p := s.players[s.currentPlayerIndex];
      var r := ProcessDartHit(s, segment, hitId);
      r.gameFinished ==>
        && r.winner == Some(p.player)
        && r.players[s.currentPlayerIndex] ==
             p.(currentScore := 0,
                totalPointsScored := p.totalPointsScored + segment.value,
                dartsThrown := p.dartsThrown + 1)
        && r.dartsThrown == 3
  {
  }

  /**
   * Every new dart adds one to the thrower's busts exactly when `IsBust` holds of it,
   * and leaves their completed rounds alone.
   */
  lemma BustCounted(s: GameState, segment: Segment, hitId: Option<string>)
    requires Valid(s) && !IsDuplicate(s, hitId)
    ensures var p := s.players[s.currentPlayerIndex];
      var q := ProcessDartHit(s, segment, hitId).players[s.currentPlayerIndex];
      && q.busts == p.busts + (if IsBust(p.currentScore - segment.value, segment, s.doubleOut) then 1 else 0)
      && q.roundsPlayed == p.roundsPlayed
  {
  }

  /** Under double-out, reaching zero with anything but a double is a bust, never a win. */
  lemma DoubleOutRequiresDouble(s: GameState, segment: Segment, hitId: Option<string>)
    requires Valid(s) && !IsDuplicate(s, hitId) && !s.gameFinished
    requires s.doubleOut && segment.zone != Double
    requires s.players[s.currentPlayerIndex].currentScore == segment.value
    ensures var r := ProcessDartHit(s, segment, hitId);
      && !r.gameFinished
      && r.players[s.currentPlayerIndex].currentScore == s.players[s.currentPlayerIndex].currentScore
      && r.players[s.currentPlayerIndex].busts == s.players[s.currentPlayerIndex].busts + 1
  {
  }

  /** Processing a dart keeps the score bookkeeping and the winner consistent. */
  lemma ProcessDartHitKeepsInvariants(s: GameState, segment: Segment, hitId: Option<string>)
    requires Valid(s) && ScoresConsistent(s) && WinnerConsistent(s)
    ensures ScoresConsistent(ProcessDartHit(s, segment, hitId))
    ensures WinnerConsistent(ProcessDartHit(s, segment, hitId))
  {
    ProcessDartHitKeepsScores(s, segment, hitId);
    ProcessDartHitKeepsWinner(s, segment, hitId);
  }

  lemma ProcessDartHitKeepsScores(s: GameState, segment: Segment, hitId: Option<string>)
    requires Valid(s) && ScoresConsistent(s)
    ensures ScoresConsistent(ProcessDartHit(s, segment, hitId))
  {
    var r := ProcessDartHit(s, segment, hitId);
    var i := s.currentPlayerIndex;
    var p := s.players[i];
    var remaining := p.currentScore - segment.value;
    if !IsDuplicate(s, hitId) {
      var q := r.players[i];
      assert r.players == s.players[i := q];
      assert q.currentScore >= 0 && q.currentScore + q.totalPointsScored == StartingScore(s.mode) by {
        if !IsBust(remaining, segment, s.doubleOut) {
          assert q.currentScore == remaining;
        }
      }
    }
  }

  lemma ProcessDartHitKeepsWinner(s: GameState, segment: Segment, hitId: Option<string>)
    requires Valid(s) && WinnerConsistent(s)
    ensures WinnerConsistent(ProcessDartHit(s, segment, hitId))
  {
    var r := ProcessDartHit(s, segment, hitId);
    var i := s.currentPlayerIndex;
    if r.winner.Some? {
      if s.winner.Some? && r.winner == s.winner {
        var j :| 0 <= j < |s.players| && s.players[j].player == s.winner.value;
        assert r.players[j].player == r.winner.value;
      } else {
        assert r.players[i].player == r.winner.value;
      }
    }
  }

  /**
   * The index of the player with the lowest remaining score; on a tie, the one who
   * throws first.
   */
  function LowestScoreIndex(players: seq<PlayerState>): (k: nat)
    requires |players| > 0
    ensures k < |players|
    ensures forall j :: 0 <= j < |players| ==> players[k].currentScore <= players[j].currentScore
    ensures forall j :: 0 <= j < k ==> players[j].currentScore > players[k].currentScore
  {
    if |players| == 1 then 0
    else
      var k := LowestScoreIndex(players[..|players| - 1]);
      if players[|players| - 1].currentScore < players[k].currentScore then |players| - 1 else k
  }

  /**
   * Ends the current player's turn: their completed rounds go up by one, the turn's dart
   * count is reset, the next player in order is up, and a new round begins when play
   * wraps to the first player. When that wrap passes a positive round limit, the game
   * ends and the lowest remaining score wins. A finished game is left as it is.
   */
  function NextPlayer(s: GameState): (r: GameState)
    requires Valid(s)
    ensures Valid(r)
    ensures |r.players| == |s.players| && r.maxRounds == s.maxRounds && r.mode == s.mode
    ensures forall j :: 0 <= j < |s.players| ==> r.players[j].player == s.players[j].player
    ensures r.doubleOut == s.doubleOut && r.gameStarted == s.gameStarted && r.lastHitId == s.lastHitId
    ensures s.gameFinished ==> r == s
  {
    if s.gameFinished then s
    else
      var i := s.currentPlayerIndex;
      var p := s.players[i];
      var players := s.players[i := p.(roundsPlayed := p.roundsPlayed + 1)];
      var next := (i + 1) % |s.players|;
      var round := if next == 0 then s.currentRound + 1 else s.currentRound;
      var rotated := s.(players := players, currentPlayerIndex := next, dartsThrown := 0, currentRound := round);
      if s.maxRounds > 0 && round > s.maxRounds && next == 0 then
        rotated.(gameFinished := true, winner := Some(players[LowestScoreIndex(players)].player))
      else
        rotated
  }

  /**
   * Passing the turn moves to the next player modulo the number of players, resets the
   * turn's darts, credits the outgoing player with a completed round and starts a new
   * round exactly on the wrap to the first player.
   */
  lemma NextPlayerRotates(s: GameState)
    requires Valid(s) && !s.gameFinished
    ensures var r := NextPlayer(s);
      var i := s.currentPlayerIndex;
      && r.currentPlayerIndex == (i + 1) % |s.players|
      && r.dartsThrown == 0
      && r.players[i] == s.players[i].(roundsPlayed := s.players[i].roundsPlayed + 1)
      && (forall j :: 0 <= j < |s.players| && j != i ==> r.players[j] == s.players[j])
      && r.currentRound == (if r.currentPlayerIndex == 0 then s.currentRound + 1 else s.currentRound)
  {
  }

  /**
   * With a positive round limit, the game ends exactly when the last player's turn of the
   * final round is passed, and the player with the lowest score is declared winner.
   */
  lemma NextPlayerMaxRounds(s: GameState)
    requires Valid(s) && !s.gameFinished
    ensures var r := NextPlayer(s);
      r.gameFinished <==>
        s.maxRounds > 0 && s.currentPlayerIndex == |s.players| - 1 && s.currentRound >= s.maxRounds
    ensures var r := NextPlayer(s);
      r.gameFinished ==>
        && r.winner == Some(r.players[LowestScoreIndex(r.players)].player)
        && forall j :: 0 <= j < |r.players| ==>
             r.players[LowestScoreIndex(r.players)].currentScore <= r.players[j].currentScore
  {
    WrapsAtLastPlayer(s.currentPlayerIndex, |s.players|);
  }

  /** Play wraps to the first player exactly after the last one. */
  lemma WrapsAtLastPlayer(i: nat, n: nat)
    requires i < n
    ensures (i + 1) % n == 0 <==> i == n - 1
  {
    if i + 1 < n {
      assert (i + 1) % n == i + 1;
    }
  }

  /** Passing the turn keeps the score bookkeeping and the winner consistent. */
  lemma NextPlayerKeepsInvariants(s: GameState)
    requires Valid(s) && ScoresConsistent(s) && WinnerConsistent(s)
    ensures ScoresConsistent(NextPlayer(s)) && WinnerConsistent(NextPlayer(s))
  {
    var r := NextPlayer(s);
    if r.winner.Some? && !s.gameFinished {
      assert r.players[LowestScoreIndex(r.players)].player == r.winner.value;
    } else if r.winner.Some? {
      var j :| 0 <= j < |s.players| && s.players[j].player == s.winner.value;
      assert r.players[j].player == r.winner.value;
    }
  }

  /** `k` successive turn changes. */
  function NextPlayerTimes(s: GameState, k: nat): (r: GameState)
    requires Valid(s)
    ensures Valid(r) && |r.players| == |s.players| && r.maxRounds == s.maxRounds
  {
    if k == 0 then s else NextPlayer(NextPlayerTimes(s, k - 1))
  }

  /** Euclidean division is determined by quotient and remainder. */
  lemma DivModUnique(a: int, n: int, q: int, m: int)
    requires n > 0 && 0 <= m < n && a == q * n + m
    ensures a / n == q && a % n == m
  {
    var q0, m0 := a / n, a % n;
    assert a == q0 * n + m0;
    assert (q - q0) * n == m0 - m;
    if q > q0 {
      MulAtLeast(q - q0, n);
    } else if q < q0 {
      MulAtLeast(q0 - q, n);
    }
  }

  lemma MulAtLeast(x: int, n: int)
    requires x >= 1 && n > 0
    ensures x * n >= n
  {
    assert x * n == (x - 1) * n + n;
  }

  /** How the position and the wrap count move when one more turn is taken. */
  lemma DivModSuccessor(a: nat, n: nat)
    requires n > 0
    ensures (a + 1) % n == (a % n + 1) % n
    ensures (a + 1) / n == a / n + (if a % n + 1 == n then 1 else 0)
    ensures (a + 1) % n == 0 <==> a % n + 1 == n
  {
    var q, m := a / n, a % n;
    if m + 1 == n {
      DivModUnique(a + 1, n, q + 1, 0);
      DivModUnique(m + 1, n, 1, 0);
    } else {
      DivModUnique(a + 1, n, q, m + 1);
      DivModUnique(m + 1, n, 0, m + 1);
    }
  }

  /**
   * In a game without a round limit, after `k` turn changes the player at index
   * (i + k) mod n is up and (i + k) div n new rounds have begun.
   */
  lemma {:induction false} RoundRobin(s: GameState, k: nat)
    requires Valid(s) && !s.gameFinished && s.maxRounds == 0
    ensures var r := NextPlayerTimes(s, k);
      && !r.gameFinished
      && r.currentPlayerIndex == (s.currentPlayerIndex + k) % |s.players|
      && r.currentRound == s.currentRound + (s.currentPlayerIndex + k) / |s.players|
  {
    if k > 0 {
      var prev := NextPlayerTimes(s, k - 1);
      RoundRobin(s, k - 1);
      TurnStep(prev, s.currentPlayerIndex + k - 1);
      assert NextPlayerTimes(s, k) == NextPlayer(prev);
    }
  }

  /** One turn change seen through the running turn count `a`. */
  lemma TurnStep(prev: GameState, a: nat)
    requires Valid(prev) && !prev.gameFinished && prev.maxRounds == 0
    requires prev.currentPlayerIndex == a % |prev.players|
    ensures var r := NextPlayer(prev);
      && !r.gameFinished
      && r.currentPlayerIndex == (a + 1) % |prev.players|
      && r.currentRound == prev.currentRound + (a + 1) / |prev.players| - a / |prev.players|
  {
    NextPlayerRotates(prev);
    NextPlayerMaxRounds(prev);
    DivModSuccessor(a, |prev.players|);
  }

  /**
   * Without a round limit, one full cycle of n turn changes brings play back to the same
   * player and advances the round counter by exactly one.
   */
  lemma FullCycleAdvancesRound(s: GameState)
    requires Valid(s) && !s.gameFinished && s.maxRounds == 0
    ensures var r := NextPlayerTimes(s, |s.players|);
      r.currentPlayerIndex == s.currentPlayerIndex && r.currentRound == s.currentRound + 1
  {
    var n := |s.players|;
    var i := s.currentPlayerIndex;
    RoundRobin(s, n);
    DivModUnique(i + n, n, 1, i);
  }

  /** Points per dart: points scored over darts thrown, 0 before the first dart. */
  function CalculatePPD(ps: PlayerState): (r: real)
    ensures ps.dartsThrown == 0 ==> r == 0.0
    ensures ps.dartsThrown > 0 ==> r * ps.dartsThrown as real == ps.totalPointsScored as real
    ensures r >= 0.0
  {
    if ps.dartsThrown == 0 then 0.0 else ps.totalPointsScored as real / ps.dartsThrown as real
  }

  /** Average per completed round: points over rounds played, 0 before the first round. */
  function CalculateAverage(ps: PlayerState): (r: real)
    ensures ps.roundsPlayed == 0 ==> r == 0.0
    ensures ps.roundsPlayed > 0 ==> r * ps.roundsPlayed as real == ps.totalPointsScored as real
    ensures r >= 0.0
  {
    if ps.roundsPlayed == 0 then 0.0 else ps.totalPointsScored as real / ps.roundsPlayed as real
  }

  function ClonePlayerState(p: PlayerState): PlayerState {
    PlayerState(p.player, p.currentScore, p.dartsThrown, p.totalPointsScored, p.busts, p.roundsPlayed)
  }

  function ClonePlayers(players: seq<PlayerState>): (r: seq<PlayerState>)
    ensures |r| == |players|
  {
    if players == [] then [] else [ClonePlayerState(players[0])] + ClonePlayers(players[1..])
  }

  /**
   * A field-by-field deep copy of a game state. It has the same contents as the
   * original; as game states are values here, a change made to the clone can never be
   * seen through the original.
   */
  function CloneGameState(s: GameState): (r: GameState)
    ensures r == s
  {
    ClonePlayersIsIdentity(s.players);
    GameState(ClonePlayers(s.players), s.currentPlayerIndex, s.dartsThrown, s.currentRound,
      s.maxRounds, s.gameStarted, s.gameFinished, s.winner, s.mode, s.doubleOut, s.lastHitId)
  }

  lemma {:induction false} ClonePlayersIsIdentity(players: seq<PlayerState>)
    ensures ClonePlayers(players) == players
  {
    if players != [] {
      ClonePlayersIsIdentity(players[1..]);
      assert players == [players[0]] + players[1..];
    }
  }
}
