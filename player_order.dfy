/**
 * The dialog that fixes the throwing order before a game: hand the players over as
 * they are, or reorder them by hand with up/down moves and confirm. (The random order
 * and the throw-for-order option are not part of this model.)
 */
module PlayerOrder {

  datatype Direction = Up | Down

  /** The position a move at `index` swaps with. */
  function Target(index: int, direction: Direction): int {
    if direction == Up then index - 1 else index + 1
  }

  /**
   * The list after moving the player at `index` one place up or down: the player and its
   * neighbour in that direction trade places; a move past either end leaves the list as
   * it is.
   */
  function Moved<P>(players: seq<P>, index: nat, direction: Direction): (r: seq<P>)
    requires index < |players|
    ensures |r| == |players| && multiset(r) == multiset(players)
    ensures (direction == Up && index == 0) || (direction == Down && index == |players| - 1) ==> r == players
    ensures var t := Target(index, direction);
      0 <= t < |players| ==>
        && r[index] == players[t] && r[t] == players[index]
        && forall j :: 0 <= j < |players| && j != index && j != t ==> r[j] == players[j]
  {
    var t := Target(index, direction);
    if t < 0 || t >= |players| then players
    else
      var r := players[index := players[t]][t := players[index]];
      SwapIsPermutation(players, index, t);
      r
  }

  lemma SwapIsPermutation<P>(s: seq<P>, i: nat, j: nat)
    requires i < |s| && j < |s|
    ensures multiset(s[i := s[j]][j := s[i]]) == multiset(s)
  {
    if i != j {
      var t := s[i := s[j]];
      assert t[j] == s[j];
      assert multiset(t) == multiset(s) - multiset{s[i]} + multiset{s[j]};
      assert multiset(t[j := s[i]]) == multiset(t) - multiset{s[j]} + multiset{s[i]};
    }
  }

  /** Moving a player up and then back down from its new place restores the list. */
  lemma UpThenDownRestores<P>(players: seq<P>, index: nat)
    requires 0 < index < |players|
    ensures Moved(Moved(players, index, Up), index - 1, Down) == players
  {
    var once := Moved(players, index, Up);
    var twice := Moved(once, index - 1, Down);
    assert forall j :: 0 <= j < |players| ==> twice[j] == players[j];
  }

  /** Moving the second player up puts them first and the former first player second. */
  lemma SecondUpBecomesFirst<P>(players: seq<P>)
    requires |players| >= 2
    ensures Moved(players, 1, Up)[0] == players[1] && Moved(players, 1, Up)[1] == players[0]
  {
  }

  class PlayerOrderDialog<P> {
    /** The players as the setup screen listed them. */
    const players: seq<P>
    var manualPlayers: seq<P>
    var showManualOrder: bool

    /** The manual list starts as a copy of the players, in their given order. */
    constructor(players: seq<P>)
      ensures this.players == players && manualPlayers == players && !showManualOrder
    {
      this.players := players;
      manualPlayers := players;
      showManualOrder := false;
    }

    method OpenManualOrder()
      modifies this`showManualOrder
      ensures showManualOrder
    {
      showManualOrder := true;
    }

    method CloseManualOrder()
      modifies this`showManualOrder
      ensures !showManualOrder
    {
      showManualOrder := false;
    }

    /** Copies the manual list, swaps two entries of the copy in place, and keeps the copy. */
    method MovePlayer(index: nat, direction: Direction)
      requires index < |manualPlayers|
      modifies this`manualPlayers
      ensures manualPlayers == Moved(old(manualPlayers), index, direction)
    {
      var current := manualPlayers;
      var newPlayers := new P[|current|](j requires 0 <= j < |current| => current[j]);
      var t := Target(index, direction);
      if t < 0 || t >= newPlayers.Length {
        return;
      }
      newPlayers[index], newPlayers[t] := newPlayers[t], newPlayers[index];
      manualPlayers := newPlayers[..];
      assert manualPlayers == current[index := current[t]][t := current[index]];
    }

    /** Confirming hands over the manual list as it now stands. */
    method ValidateManualOrder() returns (ordered: seq<P>)
      ensures ordered == manualPlayers
    {
      ordered := manualPlayers;
    }

    /** "Current order" hands over the players unchanged, so the first one added throws first. */
    method CurrentOrder() returns (ordered: seq<P>)
      ensures ordered == players
    {
      ordered := players;
    }
  }
}
