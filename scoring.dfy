/** The score ledger: the team total, the kill count and the individual
    scores keyed by the killer's network object id. The fields are C#
    `int`s, whose additions wrap around at 32 bits (the project does not
    turn on overflow checking), so the ledger works in `Int32` with an
    explicit wrapping add. */
module Scoring {
  import opened Common

  newtype Int32 = x: int | -0x8000_0000 <= x < 0x8000_0000

  /** Points for one kill. */
  const KillReward: Int32 := 10
  /** Points for clearing a wave. */
  const WaveClearBonus: Int32 := 50

  /** C#'s unchecked `a + b` on `int`: the true sum, folded back into the
      32-bit range. */
  function AddWrapped(a: Int32, b: Int32): (r: Int32)
    ensures -0x8000_0000 <= a as int + b as int < 0x8000_0000 ==> r as int == a as int + b as int
    ensures (r as int - (a as int + b as int)) % 0x1_0000_0000 == 0
  {
    var sum := a as int + b as int;
    if sum >= 0x8000_0000 then (sum - 0x1_0000_0000) as Int32
    else if sum < -0x8000_0000 then (sum + 0x1_0000_0000) as Int32
    else sum as Int32
  }

  /** A player object as the ledger sees it: `Some(id)` when it has a
      NetworkObject with object id `id`, `None` when it has none. */
  datatype PlayerRef = PlayerRef(networkObjectId: Option<int>)

  /** The id under which a (possibly null) player is scored, if any. */
  function ScoredId(player: Option<PlayerRef>): Option<int> {
    if player.Some? then player.value.networkObjectId else None
  }

  /** GetPlayerScore's answer for a map of individual scores: the stored
      score of the player's id, and 0 for a null player, a player without a
      NetworkObject or an id with no entry. */
  function ScoreOf(scores: map<int, Int32>, player: Option<PlayerRef>): (r: Int32)
    ensures ScoredId(player).None? ==> r == 0
    ensures ScoredId(player).Some? && ScoredId(player).value !in scores ==> r == 0
    ensures ScoredId(player).Some? && ScoredId(player).value in scores ==> r == scores[ScoredId(player).value]
  {
    match ScoredId(player)
    case None => 0
    case Some(id) => if id in scores then scores[id] else 0
  }

  /** Adds `amount` to the entry of `id`, creating it at 0 first when it is
      missing; no id leaves the map as it is. */
  function Credit(scores: map<int, Int32>, id: Option<int>, amount: Int32): (r: map<int, Int32>)
    ensures id.None? ==> r == scores
    ensures id.Some? ==> r.Keys == scores.Keys + {id.value}
    ensures id.Some? ==> r[id.value] == AddWrapped(if id.value in scores then scores[id.value] else 0, amount)
    ensures forall k :: k in scores && Some(k) != id ==> r[k] == scores[k]
  {
    match id
    case None => scores
    case Some(k) => scores[k := AddWrapped(if k in scores then scores[k] else 0, amount)]
  }

  /** Crediting one player moves only that player's score, by the amount
      (wrapping at 32 bits), and leaves every other player's answer alone. */
  lemma CreditMovesOnlyThatPlayer(scores: map<int, Int32>, killer: Option<PlayerRef>, amount: Int32, other: Option<PlayerRef>)
    ensures ScoredId(killer).Some? && ScoredId(other) == ScoredId(killer) ==>
      ScoreOf(Credit(scores, ScoredId(killer), amount), other) == AddWrapped(ScoreOf(scores, killer), amount)
    ensures ScoredId(other) != ScoredId(killer) || ScoredId(killer).None? ==>
      ScoreOf(Credit(scores, ScoredId(killer), amount), other) == ScoreOf(scores, other)
  {
  }

  class ScoreManager {
    var teamScore: Int32
    var totalKills: Int32
    var playerScores: map<int, Int32>

    /** The ledger as the server starts it: everything at zero, no entries. */
    constructor ()
      ensures teamScore == 0 && totalKills == 0 && playerScores == map[]
    {
      teamScore := 0;
      totalKills := 0;
      playerScores := map[];
    }

    /** Server start: the team score and the kill count go back to zero;
        the individual scores are kept. */
    method OnStartServer()
      modifies this
      ensures teamScore == 0 && totalKills == 0 && playerScores == old(playerScores)
    {
      teamScore := 0;
      totalKills := 0;
    }

    /** A kill: the team gains `KillReward`, the kill count grows by one,
        and the killer, when it has a network id, is credited `KillReward`. */
    method AddKillScore(killerPlayer: Option<PlayerRef>)
      modifies this
      ensures teamScore == AddWrapped(old(teamScore), KillReward)
      ensures totalKills == AddWrapped(old(totalKills), 1)
      ensures playerScores == Credit(old(playerScores), ScoredId(killerPlayer), KillReward)
    {
      teamScore := AddWrapped(teamScore, KillReward);
      totalKills := AddWrapped(totalKills, 1);
      if killerPlayer.Some? {
        var netObj := killerPlayer.value.networkObjectId;
        if netObj.Some? {
          var playerId := netObj.value;
          if playerId !in playerScores {
            playerScores := playerScores[playerId := 0];
          }
          playerScores := playerScores[playerId := AddWrapped(playerScores[playerId], KillReward)];
        }
      }
    }

    /** A cleared wave: the team gains `WaveClearBonus`; the wave number is
        only logged. */
    method AddWaveBonus(waveNumber: int)
      modifies this
      ensures teamScore == AddWrapped(old(teamScore), WaveClearBonus)
      ensures totalKills == old(totalKills) && playerScores == old(playerScores)
    {
      teamScore := AddWrapped(teamScore, WaveClearBonus);
    }

    /** Any client may add any number of points, negative ones included. */
    method AddScoreServerRpc(points: Int32)
      modifies this
      ensures teamScore == AddWrapped(old(teamScore), points)
      ensures totalKills == old(totalKills) && playerScores == old(playerScores)
    {
      teamScore := AddWrapped(teamScore, points);
    }

    method ResetScore()
      modifies this
      ensures teamScore == 0 && totalKills == 0 && playerScores == map[]
    {
      teamScore := 0;
      totalKills := 0;
      playerScores := map[];
    }

    function GetTeamScore(): (r: Int32)
      reads this
      ensures r == teamScore
    {
      teamScore
    }

    function GetTotalKills(): (r: Int32)
      reads this
      ensures r == totalKills
    {
      totalKills
    }

    function GetKillReward(): (r: Int32)
      ensures r == 10
    {
      KillReward
    }

    function GetWaveBonus(): (r: Int32)
      ensures r == 50
    {
      WaveClearBonus
    }

    function GetPlayerScore(player: Option<PlayerRef>): (r: Int32)
      reads this
      ensures r != 0 ==> ScoredId(player).Some? && ScoredId(player).value in playerScores
    {
      ScoreOf(playerScores, player)
    }
  }
}
