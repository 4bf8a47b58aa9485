/**
 * The undo history of a game screen: each time the watched turn position changes, the
 * state seen before the change is appended (with the hits of the turn it interrupted) to
 * a log that keeps only the twenty newest entries; undo pops the newest entry, and the
 * state it restores is not itself recorded when it is next observed.
 */
module GameHistory {

  import opened Optional
  import opened BoardInfo

  /** How many entries the log keeps. */
  const Capacity: nat := 20

  datatype Entry<T> = Entry(gameState: T, turnHits: seq<Segment>)

  /** The two fields of a game state whose change triggers a recording. */
  datatype TurnKey = TurnKey(dartsThrown: int, currentPlayerIndex: int)

  /**
   * The log after appending `e` and keeping only the `Capacity` newest entries: `e` is
   * last, preceded, in their original order, by the newest entries of `log` that fit.
   */
  function Appended<T>(log: seq<Entry<T>>, e: Entry<T>): (r: seq<Entry<T>>)
    ensures |r| == if |log| < Capacity then |log| + 1 else Capacity
    ensures r[|r| - 1] == e
    ensures r[..|r| - 1] == log[|log| - (|r| - 1)..]
  {
    var all := log + [e];
    if |all| > Capacity then all[|all| - Capacity..] else all
  }

  /**
   * Undo right after a recording gives back the recorded entry and leaves the log as it
   * was, except that a full log has lost its oldest entry to the recording.
   */
  lemma UndoAfterAppend<T>(log: seq<Entry<T>>, e: Entry<T>)
    requires |log| <= Capacity
    ensures var r := Appended(log, e);
      && r[|r| - 1] == e
      && r[..|r| - 1] == if |log| < Capacity then log else log[1..]
  {
  }

  class History<T> {
    /** Reads the watched fields of a game state. */
    const keyOf: T -> TurnKey
    var gameHistory: seq<Entry<T>>
    var previousGameState: Option<T>
    var previousTurnHits: seq<Segment>
    var isRestoring: bool
    /** The watched fields at the last render; None before the first render. */
    var lastDeps: Option<Option<TurnKey>>

    ghost predicate Valid()
      reads this
    {
      |gameHistory| <= Capacity
    }

    constructor(keyOf: T -> TurnKey)
      ensures Valid() && this.keyOf == keyOf
      ensures gameHistory == [] && previousGameState == None && previousTurnHits == []
      ensures !isRestoring && lastDeps == None
    {
      this.keyOf := keyOf;
      gameHistory := [];
      previousGameState := None;
      previousTurnHits := [];
      isRestoring := false;
      lastDeps := None;
    }

    /** The watched fields of the (possibly absent) game state. */
    function Deps(gameState: Option<T>): Option<TurnKey> {
      if gameState.Some? then Some(keyOf(gameState.value)) else None
    }

    /** Whether the log holds something to undo. */
    predicate HasHistory()
      reads this
    {
      |gameHistory| > 0
    }

    /**
     * One render of the screen. The recording step runs on the first render and on every
     * render whose watched fields differ from the previous render's; otherwise nothing
     * happens.
     */
    method Render(gameState: Option<T>, currentTurnHits: seq<Segment>)
      requires Valid()
      modifies this
      ensures Valid() && lastDeps == Some(Deps(gameState))
      ensures old(lastDeps) == Some(Deps(gameState)) ==>
        && gameHistory == old(gameHistory) && previousGameState == old(previousGameState)
        && previousTurnHits == old(previousTurnHits) && isRestoring == old(isRestoring)
      ensures old(lastDeps) != Some(Deps(gameState)) ==>
        Observed(old(gameHistory), old(previousGameState), old(previousTurnHits), old(isRestoring),
                 gameState, currentTurnHits)
    {
      var deps := Deps(gameState);
      if lastDeps != Some(deps) {
        lastDeps := Some(deps);
        Observe(gameState, currentTurnHits);
      }
    }

    /**
     * What one run of the recording step leaves behind, given the fields before it:
     * nothing without a game state; after an undo, the flag is cleared and the restored
     * state and hits become the previous ones; otherwise the previous snapshot, if any,
     * is appended and the current state becomes the previous one.
     */
    ghost predicate Observed(log: seq<Entry<T>>, prevState: Option<T>, prevHits: seq<Segment>,
                             restoring: bool, gameState: Option<T>, currentTurnHits: seq<Segment>)
      reads this
    {
      if gameState.None? then
        gameHistory == log && previousGameState == prevState
        && previousTurnHits == prevHits && isRestoring == restoring
      else if restoring then
        gameHistory == log && previousGameState == gameState
        && previousTurnHits == currentTurnHits && !isRestoring
      else
        && gameHistory == (if prevState.Some? then Appended(log, Entry(prevState.value, prevHits)) else log)
        && previousGameState == gameState && previousTurnHits == prevHits && !isRestoring
    }

    /** The recording step itself. */
    method Observe(gameState: Option<T>, currentTurnHits: seq<Segment>)
      requires Valid()
      modifies this`gameHistory, this`previousGameState, this`previousTurnHits, this`isRestoring
      ensures Valid()
      ensures Observed(old(gameHistory), old(previousGameState), old(previousTurnHits), old(isRestoring),
                       gameState, currentTurnHits)
    {
      if gameState.None? {
        return;
      }
      if isRestoring {
        isRestoring := false;
        previousGameState := gameState;
        previousTurnHits := currentTurnHits;
        return;
      }
      if previousGameState.Some? {
        gameHistory := Appended(gameHistory, Entry(previousGameState.value, previousTurnHits));
      }
      previousGameState := gameState;
    }

    /** Remembers a copy of the hits of the turn in progress. */
    method SaveCurrentTurnHits(hits: seq<Segment>)
      modifies this`previousTurnHits
      ensures previousTurnHits == hits
    {
      previousTurnHits := hits;
    }

    /**
     * Pops and returns the newest entry and marks the next observation as a restoration;
     * with an empty log, returns None and changes nothing.
     */
    method UndoLastAction() returns (r: Option<Entry<T>>)
      requires Valid()
      modifies this`gameHistory, this`isRestoring
      ensures Valid()
      ensures r.None? <==> !old(HasHistory())
      ensures !old(HasHistory()) ==> gameHistory == old(gameHistory) && isRestoring == old(isRestoring)
      ensures old(HasHistory()) ==>
        && r == Some(old(gameHistory)[|old(gameHistory)| - 1])
        && gameHistory == old(gameHistory)[..|old(gameHistory)| - 1]
        && isRestoring
    {
      if |gameHistory| == 0 {
        return None;
      }
      r := Some(gameHistory[|gameHistory| - 1]);
      gameHistory := gameHistory[..|gameHistory| - 1];
      isRestoring := true;
    }
  }

  /**
   * Undo followed by the render of the restored state: the popped entry comes back, the
   * log is one shorter, and the restored state is not recorded again.
   */
  method UndoThenRender<T>(h: History<T>) returns (r: Option<Entry<T>>)
    requires h.Valid() && h.HasHistory()
    requires h.lastDeps.Some? && h.lastDeps.value.Some?
    requires h.keyOf(h.gameHistory[|h.gameHistory| - 1].gameState) != h.lastDeps.value.value
    modifies h
    ensures h.Valid() && r == Some(old(h.gameHistory)[|old(h.gameHistory)| - 1])
    ensures h.gameHistory == old(h.gameHistory)[..|old(h.gameHistory)| - 1]
    ensures !h.isRestoring && h.previousGameState == Some(r.value.gameState)
    ensures h.previousTurnHits == r.value.turnHits
    ensures h.lastDeps == Some(h.Deps(Some(r.value.gameState)))
  {
    r := h.UndoLastAction();
    h.Render(Some(r.value.gameState), r.value.turnHits);
  }
}
