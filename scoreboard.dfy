/**
 * The Cricket score board's display rules: the mark symbols, when a number counts as
 * closed by every player, how the players are split between the two columns either
 * side of the numbers, and which header carries the current-player marker.
 */
module CricketScoreBoard {

  import opened Strings
  import opened Players

  /** A Cricket player's state as the board reads it. */
  datatype CricketPlayerState = CricketPlayerState(player: Player, marks: map<int, nat>, totalPoints: int)

  /** The number of marks a player has on a target number (none recorded reads as 0). */
  function GetMarks(ps: CricketPlayerState, num: int): nat {
    if num in ps.marks then ps.marks[num] else 0
  }

  /**
   * Whether every player has at least three marks on `num`: exactly when every
   * player's cell for `num` shows the closed symbol.
   */
  predicate IsNumberClosedByAll(players: seq<CricketPlayerState>, num: int): (r: bool)
    ensures r <==> forall j :: 0 <= j < |players| ==> GetMarkSymbol(GetMarks(players[j], num)) == "\U{2297}"
  {
    forall j :: 0 <= j < |players| ==> GetMarks(players[j], num) >= 3
  }

  /** A number is closed by all the players exactly when it is closed by each column. */
  lemma ClosedByAllColumns(left: seq<CricketPlayerState>, right: seq<CricketPlayerState>, num: int)
    ensures IsNumberClosedByAll(left + right, num) <==>
      IsNumberClosedByAll(left, num) && IsNumberClosedByAll(right, num)
  {
    if IsNumberClosedByAll(left, num) && IsNumberClosedByAll(right, num) {
      forall j | 0 <= j < |left + right| ensures GetMarks((left + right)[j], num) >= 3 {
        if j >= |left| {
          assert (left + right)[j] == right[j - |left|];
        }
      }
    }
    if IsNumberClosedByAll(left + right, num) {
      forall j | 0 <= j < |left| ensures GetMarks(left[j], num) >= 3 {
        assert left[j] == (left + right)[j];
      }
      forall j | 0 <= j < |right| ensures GetMarks(right[j], num) >= 3 {
        assert right[j] == (left + right)[|left| + j];
      }
    }
  }

  /** The symbol for a mark count: one slash, a cross, a circled cross once closed. */
  function GetMarkSymbol(marks: int): (r: string)
    ensures r == "" <==> marks <= 0
    ensures r == "/" <==> marks == 1
    ensures r == "X" <==> marks == 2
    ensures r == "\U{2297}" <==> marks >= 3
  {
    if marks == 0 then ""
    else if marks == 1 then "/"
    else if marks == 2 then "X"
    else if marks >= 3 then "\U{2297}"
    else ""
  }

  /** What a cell shows: its symbol, or a dash when there is none. */
  function CellText(marks: int): (r: string)
    ensures r == "-" <==> marks <= 0
    ensures marks > 0 ==> r == GetMarkSymbol(marks)
  {
    var symbol := GetMarkSymbol(marks);
    if symbol == "" then "-" else symbol
  }

  datatype CellTone = Muted | ClosedOpen | Marked | Unmarked

  /** The colouring of a cell: muted once everyone has closed the number. */
  function CellToneOf(marks: int, allClosed: bool): (r: CellTone)
    ensures r == Muted <==> marks >= 3 && allClosed
    ensures r == ClosedOpen <==> marks >= 3 && !allClosed
    ensures r == Marked <==> 0 < marks < 3
    ensures r == Unmarked <==> marks <= 0
  {
    var isClosed := marks >= 3;
    if isClosed then (if allClosed then Muted else ClosedOpen)
    else if marks > 0 then Marked
    else Unmarked
  }

  /** The tone of a player's cell on `num` on a board showing `players`. */
  function Cell(players: seq<CricketPlayerState>, ps: CricketPlayerState, num: int): CellTone {
    CellToneOf(GetMarks(ps, num), IsNumberClosedByAll(players, num))
  }

  /** Once every player has closed a number, every cell of its row is muted. */
  lemma RowMutedWhenClosedByAll(players: seq<CricketPlayerState>, num: int)
    requires IsNumberClosedByAll(players, num)
    ensures forall j :: 0 <= j < |players| ==> Cell(players, players[j], num) == Muted
  {
  }

  /** The left column's size: half the players, rounded up. */
  function MidPoint(n: nat): nat {
    (n + 1) / 2
  }

  /**
   * The two columns: the first half (rounded up) on the left, the rest on the right.
   * Together they list every player once, in order, and the left column has the same
   * number of players as the right or one more.
   */
  function SplitColumns(players: seq<CricketPlayerState>): (r: (seq<CricketPlayerState>, seq<CricketPlayerState>))
    ensures r.0 + r.1 == players
    ensures |r.0| == MidPoint(|players|)
    ensures |r.0| == |r.1| || |r.0| == |r.1| + 1
  {
    var mid := MidPoint(|players|);
    (players[..mid], players[mid..])
  }

  /** The first position of `x` in `s`, or -1 when it does not occur. */
  function IndexOf<X(==)>(s: seq<X>, x: X): (r: int)
    ensures -1 <= r < |s|
    ensures r >= 0 ==> s[r] == x && forall j :: 0 <= j < r ==> s[j] != x
    ensures r == -1 ==> forall j :: 0 <= j < |s| ==> s[j] != x
  {
    if s == [] then -1
    else if s[0] == x then 0
    else
      var k := IndexOf(s[1..], x);
      if k == -1 then -1 else k + 1
  }

  /**
   * Whether the header of `ps` carries the current-player marker: the game is on and
   * the current position holds the first occurrence of `ps` (or, as `indexOf` answers
   * -1 for a missing element, `ps` is absent and the current index is -1).
   */
  predicate ShowsCurrentMarker(players: seq<CricketPlayerState>, ps: CricketPlayerState,
                               currentPlayerIndex: int, gameFinished: bool): (r: bool)
    ensures r <==> (
      && !gameFinished
      && ((0 <= currentPlayerIndex < |players| && players[currentPlayerIndex] == ps
           && forall j :: 0 <= j < currentPlayerIndex ==> players[j] != ps)
          || (currentPlayerIndex == -1 && forall j :: 0 <= j < |players| ==> players[j] != ps)))
  {
    IndexOf(players, ps) == currentPlayerIndex && !gameFinished
  }

  predicate Distinct<X(==)>(s: seq<X>) {
    forall i, j :: 0 <= i < j < |s| ==> s[i] != s[j]
  }

  /**
   * With every player listed once, the marker is on the header at position
   * `currentPlayerIndex` and on no other, and no header has it once the game is over.
   */
  lemma CurrentMarkerPlacement(players: seq<CricketPlayerState>, currentPlayerIndex: int,
                               gameFinished: bool, k: nat)
    requires Distinct(players) && k < |players|
    ensures ShowsCurrentMarker(players, players[k], currentPlayerIndex, gameFinished) <==>
      k == currentPlayerIndex && !gameFinished
  {
  }

  /** A right-column header at column position `k` carries the marker of player `mid + k`. */
  lemma RightColumnMarker(players: seq<CricketPlayerState>, currentPlayerIndex: int,
                          gameFinished: bool, k: nat)
    requires Distinct(players) && k < |SplitColumns(players).1|
    ensures var right := SplitColumns(players).1;
      ShowsCurrentMarker(players, right[k], currentPlayerIndex, gameFinished) <==>
        MidPoint(|players|) + k == currentPlayerIndex && !gameFinished
  {
    var mid := MidPoint(|players|);
    assert SplitColumns(players).1[k] == players[mid + k];
    CurrentMarkerPlacement(players, currentPlayerIndex, gameFinished, mid + k);
  }

  /**
   * The label of a number row: "Bull" for 25, otherwise the number's digits with no
   * leading zero, as rendering the number itself shows them.
   */
  function NumberLabel(num: nat): (r: string)
    ensures r == "Bull" <==> num == 25
    ensures num != 25 ==> AllDigits(r) && DigitsValue(r) == num
    ensures num != 25 ==> r != [] && (r[0] == '0' ==> r == "0")
  {
    if num == 25 then "Bull"
    else
      var text := NatToString(num);
      DigitsValueOfNatToString(num);
      assert !IsDigit('B');
      assert text != "Bull" by { assert IsDigit(text[0]); }
      text
  }
}
