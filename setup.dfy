/**
 * The 01 setup screen: a roster built one name at a time, the mode, the double-out
 * option and a round limit; starting needs at least two players and opens the order
 * dialog, whose chosen order is written to session storage for the game screen.
 */
module ZeroOneSetup {

  import opened Optional
  import opened Strings
  import opened Players
  import opened ZeroOne

  /** The fewest players a game can start with. */
  const MinPlayers: nat := 2
  /** The name field accepts at most this many characters. */
  const MaxNameLength: nat := 20

  const PlayersKey := "zeroOnePlayers"
  const ModeKey := "zeroOneMode"
  const DoubleOutKey := "zeroOneDoubleOut"
  const MaxRoundsKey := "zeroOneMaxRounds"

  /** A value handed to the game screen through session storage. */
  datatype Stored = StoredPlayers(players: seq<Player>) | StoredMode(mode: ZeroOneMode)
                  | StoredFlag(flag: bool) | StoredCount(count: int)

  /** A roster name as `addPlayer` produces it: non-empty, no whitespace at either end, within the field's limit. */
  predicate WellFormedName(name: string) {
    name != [] && !IsWhitespace(name[0]) && !IsWhitespace(name[|name| - 1]) && |name| <= MaxNameLength
  }

  predicate NamesWellFormed(players: seq<Player>) {
    forall j :: 0 <= j < |players| ==> WellFormedName(players[j].name)
  }

  /** A name field that is not blank, trimmed, gives a well-formed roster name. */
  lemma TrimmedNameWellFormed(text: string)
    requires |text| <= MaxNameLength && !AllWhitespace(text)
    ensures WellFormedName(Trim(text))
  {
  }

  lemma WithoutIdKeepsNames(players: seq<Player>, id: string)
    requires NamesWellFormed(players)
    ensures NamesWellFormed(WithoutId(players, id))
  {
    var r := WithoutId(players, id);
    forall j | 0 <= j < |r| ensures WellFormedName(r[j].name) {
      assert r[j] in players;
    }
  }

  lemma AppendKeepsNamesWellFormed(players: seq<Player>, p: Player)
    requires NamesWellFormed(players) && WellFormedName(p.name)
    ensures NamesWellFormed(players + [p])
  {
    assert forall j :: 0 <= j < |players| ==> (players + [p])[j] == players[j];
  }

  /** The roster without the players whose id is `id`, the others kept in order. */
  function WithoutId(players: seq<Player>, id: string): (r: seq<Player>)
    ensures |r| <= |players|
    ensures forall p :: p in r ==> p in players && p.id != id
    ensures forall p :: p in players && p.id != id ==> p in r
  {
    if players == [] then []
    else if players[0].id == id then WithoutId(players[1..], id)
    else [players[0]] + WithoutId(players[1..], id)
  }

  /** Filtering a roster split in two filters each part and keeps them in order. */
  lemma {:induction false} WithoutIdDistributes(a: seq<Player>, b: seq<Player>, id: string)
    ensures WithoutId(a + b, id) == WithoutId(a, id) + WithoutId(b, id)
  {
    if a == [] {
      assert a + b == b;
    } else {
      assert (a + b)[0] == a[0] && (a + b)[1..] == a[1..] + b;
      WithoutIdDistributes(a[1..], b, id);
    }
  }

  /** Removing an id that nobody has leaves the roster exactly as it was. */
  lemma {:induction false} WithoutAbsentId(players: seq<Player>, id: string)
    requires forall j :: 0 <= j < |players| ==> players[j].id != id
    ensures WithoutId(players, id) == players
  {
    if players != [] {
      WithoutAbsentId(players[1..], id);
    }
  }

  /** Removing a player whose id is unique removes exactly one entry. */
  lemma {:induction false} WithoutUniqueId(players: seq<Player>, k: nat)
    requires k < |players|
    requires forall j :: 0 <= j < |players| && j != k ==> players[j].id != players[k].id
    ensures WithoutId(players, players[k].id) == players[..k] + players[k + 1..]
  {
    var id := players[k].id;
    var before, after := players[..k], players[k + 1..];
    assert players == before + ([players[k]] + after);
    assert WithoutId([players[k]], id) == [] by {
      assert [players[k]][1..] == [];
    }
    IdAbsentAround(players, k, before, after);
    calc {
      WithoutId(players, id);
      { WithoutIdDistributes(before, [players[k]] + after, id); }
      WithoutId(before, id) + WithoutId([players[k]] + after, id);
      { WithoutIdDistributes([players[k]], after, id); }
      WithoutId(before, id) + (WithoutId([players[k]], id) + WithoutId(after, id));
      { WithoutAbsentId(before, id); WithoutAbsentId(after, id); assert [] + after == after; }
      before + after;
    }
  }

  /** A unique id occurs neither before nor after its own position. */
  lemma IdAbsentAround(players: seq<Player>, k: nat, before: seq<Player>, after: seq<Player>)
    requires k < |players| && before == players[..k] && after == players[k + 1..]
    requires forall j :: 0 <= j < |players| && j != k ==> players[j].id != players[k].id
    ensures forall j :: 0 <= j < |before| ==> before[j].id != players[k].id
    ensures forall j :: 0 <= j < |after| ==> after[j].id != players[k].id
  {
    assert forall j :: 0 <= j < |after| ==> after[j] == players[k + 1 + j];
  }

  /**
   * The round limit read from the number field: `Math.max(0, parseInt(text) || 0)`.
   * Text without a leading number gives 0 (unlimited) and a negative number gives 0.
   */
  function MaxRoundsFromInput(text: string): (r: nat)
    ensures ParseInt(text).None? ==> r == 0
    ensures ParseInt(text).Some? && ParseInt(text).value <= 0 ==> r == 0
    ensures ParseInt(text).Some? && ParseInt(text).value > 0 ==> r == ParseInt(text).value
  {
    match ParseInt(text)
    case None => 0
    case Some(v) => if v > 0 then v else 0
  }

  /** Whatever whole number is typed as its decimal text becomes the round limit. */
  lemma MaxRoundsFromNumber(n: nat)
    ensures MaxRoundsFromInput(NatToString(n)) == n
  {
    ParseIntOfNatToString(n);
  }

  class Setup {
    var players: seq<Player>
    var currentName: string
    var gameMode: ZeroOneMode
    var doubleOut: bool
    var maxRounds: int
    var showOrderDialog: bool
    var showOrderModal: bool
    var session: map<string, Stored>
    /** Whether navigation to the game screen was requested. */
    var gameRequested: bool

    ghost predicate Valid()
      reads this
    {
      |currentName| <= MaxNameLength && maxRounds >= 0 && NamesWellFormed(players)
    }

    /** The screen opens with no players, 501, no double-out and no round limit. */
    constructor(session: map<string, Stored>)
      ensures Valid()
      ensures players == [] && currentName == "" && gameMode == FiveOhOne && !doubleOut
      ensures maxRounds == 0 && !showOrderDialog && !showOrderModal && !gameRequested
      ensures this.session == session
    {
      players := [];
      currentName := "";
      gameMode := FiveOhOne;
      doubleOut := false;
      maxRounds := 0;
      showOrderDialog := false;
      showOrderModal := false;
      this.session := session;
      gameRequested := false;
    }

    /** Typing in the name field; the field holds at most `MaxNameLength` characters. */
    method SetCurrentName(text: string)
      requires Valid() && |text| <= MaxNameLength
      modifies this`currentName
      ensures Valid() && currentName == text
    {
      currentName := text;
    }

    /**
     * Adds a player named after the trimmed field and clears the field; a blank field
     * changes nothing. `newId` stands for the randomly generated id.
     */
    method AddPlayer(newId: string)
      requires Valid()
      modifies this`players, this`currentName
      ensures Valid()
      ensures AllWhitespace(old(currentName)) ==>
        players == old(players) && currentName == old(currentName)
      ensures !AllWhitespace(old(currentName)) ==>
        players == old(players) + [Player(newId, Trim(old(currentName)))] && currentName == ""
    {
      var name := Trim(currentName);
      if name == "" {
        return;
      }
      TrimmedNameWellFormed(currentName);
      AppendKeepsNamesWellFormed(players, Player(newId, name));
      players := players + [Player(newId, name)];
      currentName := "";
    }

    /** Drops every player with the given id. */
    method RemovePlayer(id: string)
      requires Valid()
      modifies this`players
      ensures Valid() && players == WithoutId(old(players), id)
    {
      WithoutIdKeepsNames(players, id);
      players := WithoutId(players, id);
    }

    method SelectMode(mode: ZeroOneMode)
      modifies this`gameMode
      ensures gameMode == mode
    {
      gameMode := mode;
    }

    method SetDoubleOut(checked: bool)
      modifies this`doubleOut
      ensures doubleOut == checked
    {
      doubleOut := checked;
    }

    /** Editing the round limit field. */
    method SetMaxRoundsInput(text: string)
      requires Valid()
      modifies this`maxRounds
      ensures Valid() && maxRounds == MaxRoundsFromInput(text)
    {
      maxRounds := MaxRoundsFromInput(text);
    }

    /** The start button is disabled while fewer than two players are listed. */
    predicate StartDisabled()
      reads this
    {
      |players| < MinPlayers
    }

    /**
     * With fewer than two players, raises the minimum-players alert and opens nothing;
     * otherwise opens the order dialog.
     */
    method StartGame() returns (minPlayersAlert: bool)
      modifies this`showOrderDialog
      ensures minPlayersAlert <==> old(StartDisabled())
      ensures showOrderDialog == (if minPlayersAlert then old(showOrderDialog) else true)
    {
      if |players| < MinPlayers {
        return true;
      }
      minPlayersAlert := false;
      showOrderDialog := true;
    }

    method CloseOrderDialog()
      modifies this`showOrderDialog
      ensures !showOrderDialog
    {
      showOrderDialog := false;
    }

    /** The session entries the game screen reads, for the given roster and the current options. */
    function Handoff(ordered: seq<Player>): (m: map<string, Stored>)
      reads this
      ensures m.Keys == session.Keys + {PlayersKey, ModeKey, DoubleOutKey, MaxRoundsKey}
      ensures m[PlayersKey] == StoredPlayers(ordered) && m[ModeKey] == StoredMode(gameMode)
      ensures m[DoubleOutKey] == StoredFlag(doubleOut) && m[MaxRoundsKey] == StoredCount(maxRounds)
      ensures forall k :: k in session && k !in {PlayersKey, ModeKey, DoubleOutKey, MaxRoundsKey} ==> m[k] == session[k]
    {
      session[PlayersKey := StoredPlayers(ordered)][ModeKey := StoredMode(gameMode)]
             [DoubleOutKey := StoredFlag(doubleOut)][MaxRoundsKey := StoredCount(maxRounds)]
    }

    /**
     * The order dialog's choice: the roster becomes the ordered list, the dialog closes,
     * the roster and options are written for the game screen, which is then requested.
     */
    method HandleOrderSet(ordered: seq<Player>)
      requires Valid() && NamesWellFormed(ordered)
      modifies this`players, this`showOrderDialog, this`session, this`gameRequested
      ensures Valid() && players == ordered && !showOrderDialog && gameRequested
      ensures session == old(Handoff(ordered))
    {
      players := ordered;
      showOrderDialog := false;
      session := Handoff(ordered);
      gameRequested := true;
    }

    /** The same hand-over when the order was decided by throwing at the board. */
    method HandleOrderDetermined(ordered: seq<Player>)
      requires Valid() && NamesWellFormed(ordered)
      modifies this`players, this`showOrderModal, this`session, this`gameRequested
      ensures Valid() && players == ordered && !showOrderModal && gameRequested
      ensures session == old(Handoff(ordered))
    {
      players := ordered;
      showOrderModal := false;
      session := Handoff(ordered);
      gameRequested := true;
    }
  }
}
