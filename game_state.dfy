/** The match state machine: Lobby, then Playing, then Victory or GameOver.
    The server evaluates the end conditions once per frame while Playing;
    what it learns from the scene (the spawner, the number of objects
    tagged "Enemy", the objects tagged "Player" with their health) is given
    as a `World` value. */
module GameFlow {
  import opened Common
  import opened Scene

  datatype GameState = Lobby | Playing | GameOver | Victory

  datatype World = World(spawner: Option<SpawnerView>, enemyCount: nat, players: seq<PlayerView>)

  /** A player counts as alive only when it has a PlayerHealth component
      that reports alive; one without the component does not. */
  predicate IsAlive(p: PlayerView) {
    p.health == Some(true)
  }

  /** The number of alive players, counted from the front as the loop does. */
  function AliveCount(players: seq<PlayerView>): (n: nat)
    ensures n <= |players|
  {
    if players == [] then 0
    else AliveCount(players[..|players| - 1]) + (if IsAlive(players[|players| - 1]) then 1 else 0)
  }

  /** No player is counted alive exactly when none of them is alive. */
  lemma {:induction false} AliveCountZeroIffNoneAlive(players: seq<PlayerView>)
    ensures AliveCount(players) == 0 <==> forall i :: 0 <= i < |players| ==> !IsAlive(players[i])
  {
    if players != [] {
      var init := players[..|players| - 1];
      AliveCountZeroIffNoneAlive(init);
      assert forall i :: 0 <= i < |init| ==> init[i] == players[i];
    }
  }

  /** The victory test: a spawner exists, it is at the final wave or later,
      that wave is no longer active, and no enemy is left. */
  function VictoryCondition(w: World): (r: bool)
    ensures w.spawner.None? ==> !r
    ensures w.spawner.Some? ==>
      (r <==> w.spawner.value.wave >= FinalWave && !w.spawner.value.active && w.enemyCount == 0)
  {
    && w.spawner.Some?
    && w.spawner.value.wave >= FinalWave
    && !w.spawner.value.active
    && w.enemyCount == 0
  }

  /** The game-over test: no player object, or none of them alive. With no
      players nobody is alive, so the test is simply that nobody is alive. */
  function GameOverCondition(w: World): (r: bool)
    ensures r <==> forall i :: 0 <= i < |w.players| ==> !IsAlive(w.players[i])
  {
    AliveCountZeroIffNoneAlive(w.players);
    |w.players| == 0 || AliveCount(w.players) == 0
  }

  /** The state after one Update. Nothing happens off the server or outside
      Playing; otherwise the victory check runs first and the game-over
      check second, so when both hold the later write, GameOver, stands. */
  function Tick(state: GameState, isServer: bool, w: World): (r: GameState)
    ensures !isServer || state != Playing ==> r == state
    ensures isServer && state == Playing ==>
      (r == GameOver <==> GameOverCondition(w)) &&
      (r == Victory <==> VictoryCondition(w) && !GameOverCondition(w)) &&
      (r == Playing <==> !VictoryCondition(w) && !GameOverCondition(w))
  {
    if !isServer || state != Playing then state
    else
      var afterVictory := if VictoryCondition(w) then Victory else state;
      if GameOverCondition(w) then GameOver else afterVictory
  }

  /** The state after a sequence of frames, each a server flag and a world. */
  function Run(state: GameState, frames: seq<(bool, World)>): GameState
    decreases |frames|
  {
    if frames == [] then state else Run(Tick(state, frames[0].0, frames[0].1), frames[1..])
  }

  /** Frames change nothing outside Playing: Victory and GameOver are final
      within a session, and Lobby is left only by StartGameServer. */
  lemma {:induction false} FrozenOutsidePlaying(state: GameState, frames: seq<(bool, World)>)
    requires state != Playing
    ensures Run(state, frames) == state
    decreases |frames|
  {
    if frames != [] {
      FrozenOutsidePlaying(Tick(state, frames[0].0, frames[0].1), frames[1..]);
    }
  }

  class GameStateManager {
    var currentState: GameState

    constructor ()
      ensures currentState == Lobby
    {
      currentState := Lobby;
    }

    /** Starts the match, from whatever state. */
    method StartGameServer()
      modifies this
      ensures currentState == Playing
    {
      currentState := Playing;
    }

    /** One frame: the end checks run only on the server while Playing. */
    method Update(isServer: bool, w: World)
      modifies this
      ensures currentState == Tick(old(currentState), isServer, w)
    {
      if !isServer {
        return;
      }
      if currentState == Playing {
        CheckVictoryCondition(w);
        CheckGameOverCondition(w);
      }
    }

    method CheckVictoryCondition(w: World)
      modifies this
      ensures currentState == if VictoryCondition(w) then Victory else old(currentState)
    {
      if w.spawner.None? {
        return;
      }
      if w.spawner.value.wave >= FinalWave && !w.spawner.value.active {
        var enemiesRemaining := w.enemyCount;
        if enemiesRemaining == 0 {
          currentState := Victory;
        }
      }
    }

    /** Counts the alive players in a loop and ends the match when there is
        no player or none is alive. */
    method CheckGameOverCondition(w: World)
      modifies this
      ensures currentState == if GameOverCondition(w) then GameOver else old(currentState)
    {
      var players := w.players;
      if |players| == 0 {
        currentState := GameOver;
        return;
      }
      var alivePlayers := 0;
      var i := 0;
      while i < |players|
        invariant 0 <= i <= |players|
        invariant alivePlayers == AliveCount(players[..i])
      {
        assert players[..i + 1][..i] == players[..i];
        if players[i].health.Some? && players[i].health.value {
          alivePlayers := alivePlayers + 1;
        }
        i := i + 1;
      }
      assert players[..i] == players;
      if alivePlayers == 0 {
        currentState := GameOver;
      }
    }

    function GetCurrentState(): (r: GameState)
      reads this
      ensures r == currentState
    {
      currentState
    }

    function IsPlaying(): (r: bool)
      reads this
      ensures r <==> GetCurrentState() == Playing
    {
      currentState == Playing
    }

    function IsGameOver(): (r: bool)
      reads this
      ensures r <==> GetCurrentState() == GameOver
    {
      currentState == GameOver
    }

    function IsVictory(): (r: bool)
      reads this
      ensures r <==> GetCurrentState() == Victory
    {
      currentState == Victory
    }
  }

  /** At most one of IsPlaying, IsGameOver and IsVictory holds. */
  lemma AtMostOneOutcomeFlag(m: GameStateManager)
    ensures (if m.IsPlaying() then 1 else 0) + (if m.IsGameOver() then 1 else 0) + (if m.IsVictory() then 1 else 0) <= 1
  {
  }
}
