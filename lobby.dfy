/** The lobby: players register by connection, edit their name and colour,
    toggle ready, and once the lobby is full and everyone is ready a
    countdown runs before the game scene loads. */
module Lobby {
  import Countdown

  /** Lobby capacity. */
  const MaxPlayers: nat := 2
  /** The countdown setting, a float in seconds; the loop starts from its
      truncation to int. */
  const CountdownDuration: real := 3.0

  datatype Color = Color(r: real, g: real, b: real, a: real)

  datatype PlayerLobbyData = PlayerLobbyData(
    connectionId: int,
    playerIndex: int,
    playerName: string,
    playerColor: Color,
    isReady: bool)

  /** What a registration request came to. A second registration of the
      same connection fails inside the dictionary's Add, which throws on a
      duplicate key before anything is changed. */
  datatype RegisterOutcome = Registered | LobbyFull | DuplicateConnection

  /** The test of CheckAllPlayersReady: the lobby is full and every entry
      is ready. */
  predicate AllReady(players: map<int, PlayerLobbyData>) {
    |players| >= MaxPlayers && forall c :: c in players ==> players[c].isReady
  }

  /** The values the countdown writes to countdownTime, in order:
      the duration, down to 1, and then 0. */
  function CountdownWrites(): (r: seq<int>)
    ensures r == [3, 2, 1, 0]
  {
    Countdown.Ticks(Countdown.TruncateToInt(CountdownDuration)) + [0]
  }

  /** A non-empty set of connections has a member. */
  lemma HasMember(s: set<int>)
    requires s != {}
    ensures exists c :: c in s
  {
    if forall c :: c !in s {
      assert false;
    }
  }

  class LobbyManager {
    var players: map<int, PlayerLobbyData>
    var countdownActive: bool
    var countdownTime: int
    /** Every value written to countdownTime, in order: the replicated
        stream observers see. */
    var countdownLog: seq<int>
    /** Set when the countdown has finished and the game scene is loaded. */
    var gameStarted: bool

    /** The lobby's invariant: at most MaxPlayers entries, each stored under
        its own connection id, with distinct indexes below the count. */
    predicate Valid()
      reads this
    {
      && |players| <= MaxPlayers
      && (forall c :: c in players ==> players[c].connectionId == c)
      && (forall c :: c in players ==> 0 <= players[c].playerIndex < |players|)
      && (forall c, d :: c in players && d in players && c != d ==>
            players[c].playerIndex != players[d].playerIndex)
    }

    constructor ()
      ensures Valid() && players == map[]
      ensures !countdownActive && countdownTime == 3 && countdownLog == [] && !gameStarted
    {
      players := map[];
      countdownActive := false;
      countdownTime := 3;
      countdownLog := [];
      gameStarted := false;
    }

    /** Adds an entry for `conn` at the next index, not ready, unless the
        lobby is full or the connection is already registered. */
    method RegisterPlayerServerRpc(conn: int, playerName: string, playerColor: Color)
      returns (outcome: RegisterOutcome)
      requires Valid()
      modifies this
      ensures Valid()
      ensures outcome == Registered <==> old(|players|) < MaxPlayers && conn !in old(players)
      ensures outcome == LobbyFull <==> old(|players|) >= MaxPlayers
      ensures outcome == Registered ==>
        players == old(players)[conn := PlayerLobbyData(conn, old(|players|), playerName, playerColor, false)]
      ensures outcome != Registered ==> players == old(players)
      ensures unchanged(`countdownActive, `countdownTime, `countdownLog, `gameStarted)
    {
      var playerIndex := |players|;
      if playerIndex >= MaxPlayers {
        return LobbyFull;
      }
      if conn in players {
        return DuplicateConnection;
      }
      var data := PlayerLobbyData(conn, playerIndex, playerName, playerColor, false);
      players := players[conn := data];
      outcome := Registered;
    }

    method UpdatePlayerNameServerRpc(conn: int, newName: string)
      requires Valid()
      modifies this
      ensures Valid()
      ensures conn in old(players) ==> players == old(players)[conn := old(players)[conn].(playerName := newName)]
      ensures conn !in old(players) ==> players == old(players)
      ensures unchanged(`countdownActive, `countdownTime, `countdownLog, `gameStarted)
    {
      if conn in players {
        var data := players[conn];
        data := data.(playerName := newName);
        players := players[conn := data];
      }
    }

    method UpdatePlayerColorServerRpc(conn: int, newColor: Color)
      requires Valid()
      modifies this
      ensures Valid()
      ensures conn in old(players) ==> players == old(players)[conn := old(players)[conn].(playerColor := newColor)]
      ensures conn !in old(players) ==> players == old(players)
      ensures unchanged(`countdownActive, `countdownTime, `countdownLog, `gameStarted)
    {
      if conn in players {
        var data := players[conn];
        data := data.(playerColor := newColor);
        players := players[conn := data];
      }
    }

    /** Flips the ready flag of a registered connection and then runs the
        all-ready check, which starts the countdown when everyone is ready. */
    method ToggleReadyServerRpc(conn: int)
      requires Valid()
      modifies this
      ensures Valid()
      ensures conn !in old(players) ==> unchanged(this)
      ensures conn in old(players) ==>
        players == old(players)[conn := old(players)[conn].(isReady := !old(players)[conn].isReady)]
      ensures conn in old(players) && AllReady(players) ==> CountdownRan()
      ensures conn in old(players) && !AllReady(players) ==>
        unchanged(`countdownActive, `countdownTime, `countdownLog, `gameStarted)
    {
      if conn in players {
        var data := players[conn];
        data := data.(isReady := !data.isReady);
        players := players[conn := data];
        CheckAllPlayersReady();
      }
    }

    /** The effect of a full countdown between two states. */
    twostate predicate CountdownRan()
      reads this
    {
      && countdownActive
      && countdownTime == 0
      && countdownLog == old(countdownLog) + CountdownWrites()
      && gameStarted
    }

    method CheckAllPlayersReady()
      requires Valid()
      modifies this
      ensures players == old(players) && Valid()
      ensures AllReady(players) ==> CountdownRan()
      ensures !AllReady(players) ==> unchanged(this)
    {
      if |players| < MaxPlayers {
        return;
      }
      if exists c :: c in players && !players[c].isReady {
        return;
      }
      StartGameCountdown();
    }

    /** The countdown: marks it active, writes the duration down to 1, one
        value a second, then 0, and loads the game scene. The one-second
        waits are not modelled. */
    method StartGameCountdown()
      modifies this
      ensures players == old(players)
      ensures CountdownRan()
    {
      countdownActive := true;
      var start := Countdown.TruncateToInt(CountdownDuration);
      var i := start;
      while i > 0
        invariant 0 <= i <= start
        invariant countdownLog == old(countdownLog) + Countdown.Ticks(start)[..start - i]
        invariant countdownActive && players == old(players) && gameStarted == old(gameStarted)
      {
        countdownTime := i;
        countdownLog := countdownLog + [i];
        assert Countdown.Ticks(start)[..start - (i - 1)] == Countdown.Ticks(start)[..start - i] + [i];
        i := i - 1;
      }
      countdownTime := 0;
      countdownLog := countdownLog + [0];
      gameStarted := true;
    }

    /** A copy of the entries, built one entry at a time: the same
        connections with the same data. */
    method GetPlayerData() returns (result: map<int, PlayerLobbyData>)
      ensures result.Keys == players.Keys
      ensures forall c :: c in result ==> result[c] == players[c]
    {
      result := map[];
      var remaining := players.Keys;
      while remaining != {}
        invariant remaining <= players.Keys
        invariant result.Keys == players.Keys - remaining
        invariant forall c :: c in result ==> result[c] == players[c]
        decreases remaining
      {
        HasMember(remaining);
        var c :| c in remaining;
        result := result[c := players[c]];
        remaining := remaining - {c};
      }
    }

    function IsCountdownActive(): (r: bool)
      reads this
      ensures r == countdownActive
    {
      countdownActive
    }

    function GetCountdownTime(): (r: int)
      reads this
      ensures r == countdownTime
    {
      countdownTime
    }

    function GetPlayerCount(): (n: nat)
      reads this
      requires Valid()
      ensures n <= MaxPlayers
    {
      |players|
    }
  }
}
