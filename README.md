# Bullet_Love gameplay core in Dafny

This project models the server-side gameplay rules of Bullet_Love, a
two-player cooperative top-down bullet-hell shooter built on Unity and
FishNet. The Unity and networking plumbing is left out. What remains is
modelled:

- **Projectiles** (`projectiles.dfy`). `BulletPool` is a queue of reusable
  bullets. Its checkout loop is bounded at ten attempts. It drops destroyed
  entries, sends still-active ones to the back and takes the first inactive
  one. When that fails the pool grows by one bullet. `Bullet` owns the
  lifetime timer, returns itself to its pool and resolves hits. Bullets and
  the pool are classes over a heap, so Unity's "destroyed object reads as
  null" and the `activeInHierarchy` flag are object state. The pool's
  mutations are checked against the functions `Checkout` and
  `FirstReusable`.
- **Score ledger** (`scoring.dfy`). `ScoreManager` keeps a team score, a
  kill count and per-player scores keyed by network object id. The values
  are 32-bit C# `int`s with wrapping addition.
- **Match state machine** (`game_state.dfy`). `GameStateManager` goes
  Lobby → Playing → Victory/GameOver. The end conditions are checked once
  per frame while Playing. `Tick` and `Run` state the transition as a
  function.
- **Lobby** (`lobby.dfy`). `LobbyManager` handles registration up to two
  players, name and colour edits, ready toggling, the all-ready test and
  the 3-2-1-0 countdown.
- **Ranged enemy** (`enemy_shooter.dfy`). `EnemyShooter` selects the nearest
  living player and picks one of three movement regimes by distance. It
  fires a five-bullet fan on a 1.2 s interval, taking the bullets from the
  pool model.
- **Wave banner** (`wave_transition.dfy`). `WaveTransitionUI` watches the
  spawner's wave number and active flag. On a falling edge of the active
  flag before wave 3 it runs a 5-4-3-2-1 countdown.
- Shared pieces: `Common.Option`, plane vectors (`geometry.dfy`), the scene
  views the queries return (`scene.dfy`) and the countdown loop's values
  (`countdown.dfy`).

Scene queries become inputs to the methods: the players tagged "Player"
with their health, the number of objects tagged "Enemy", the spawner's wave
and active flag, the time, and whether the instance is the server. A player
is a `PlayerView` with `health: Option<bool>`. `None` means the object has
no PlayerHealth component, and `Some(alive)` gives its state. PlayerHealth
itself is not part of this model, so `IsDead()` is taken to be the negation
of `IsAlive()`. Coroutines (the lobby countdown and the wave banner) are
modelled as running to completion within the call that starts them. Every
value they write is recorded in a log field, in order.

Three behaviours of the code are easy to miss, and the model keeps them:

- After a request on an empty pool and a return, two entries are queued.
  The expansion path both enqueues the new bullet
  (`BulletPool.cs:62`) and hands it out (`BulletPool.cs:99`, `:109`), and the
  return enqueues it again. `Projectiles.ExpansionScenario` proves the queue
  sizes 1, 2, 1.
- When Victory and GameOver both hold in one frame, GameOver stands,
  because the game-over check runs second (`GameStateManager.cs:97-98`);
  `GameFlow.Tick` states this.
- `ReturnBullet` has no guard against a bullet that is already queued, so
  a double return queues it twice (`BulletPool.cs:116-124`).

## Model

| member | source | states |
|---|---|---|
| Projectiles.FirstReusable | Assets/_Project/Scripts/Projectiles/BulletPool.cs:80-85 | The bullet it picks is in the queue, exists and is inactive. It is null exactly when no entry is both existing and inactive. |
| Projectiles.FirstReusableIsFirst | Assets/_Project/Scripts/Projectiles/BulletPool.cs:76-94 | The picked bullet is the first reusable entry: it occupies a position before which no entry exists and is inactive. A bullet queued twice is judged by its earlier occurrence. |
| Projectiles.Checkout | Assets/_Project/Scripts/Projectiles/BulletPool.cs:76-94 | The checkout loop with a given number of attempts. A chosen bullet is a queue entry that exists and is inactive. The loop only drops, rotates or takes entries, so the queue never grows and is shorter by one when a bullet is chosen. |
| Projectiles.CheckoutPicksFirstReusable | Assets/_Project/Scripts/Projectiles/BulletPool.cs:76-94 | The checkout loop hands out exactly the first existing, inactive bullet among the first min(10, queue length) entries. It hands out none when those entries hold none. |
| Projectiles.GrowsBehindTenLiveBullets | Assets/_Project/Scripts/Projectiles/BulletPool.cs:76-101 | When the first ten entries are live, active bullets, the loop chooses nothing and the pool expands. This holds even when a reusable bullet waits further back. |
| Projectiles.CheckoutKeepsLiveBullets | Assets/_Project/Scripts/Projectiles/BulletPool.cs:78-91 | No existing bullet leaves the queue except the chosen one. The live entries left, plus the chosen bullet, equal the live entries before, as a multiset. |
| Projectiles.CheckoutAddsNothing | Assets/_Project/Scripts/Projectiles/BulletPool.cs:78-91 | The loop adds no entry. The entries left, plus the chosen bullet, are a sub-multiset of the entries before. |
| Projectiles.Bullet.Instantiate | Assets/_Project/Scripts/Projectiles/BulletPool.cs:60 | A freshly instantiated bullet is active, exists, has timer 0 and no owner pool. |
| Projectiles.Bullet.Initialize | Assets/_Project/Scripts/Projectiles/Bullet.cs:41-45 | Records the owner pool and resets the lifetime timer to 0. Nothing else changes. |
| Projectiles.Bullet.ReturnToPool | Assets/_Project/Scripts/Projectiles/Bullet.cs:67-78 | With an owner pool the bullet goes through ReturnBullet: it is deactivated and appended, or ignored if destroyed. Without a pool it is destroyed. |
| Projectiles.Bullet.FixedUpdate | Assets/_Project/Scripts/Projectiles/Bullet.cs:47-65 | Off the server nothing changes. On the server the timer grows by the step length, and the bullet returns to its pool exactly when the timer reaches the 5 s lifetime. |
| Projectiles.Bullet.OnTriggerEnter2D | Assets/_Project/Scripts/Projectiles/Bullet.cs:80-97 | On the server, damage 10 is dealt exactly when the collider is tagged "Enemy" and has an EnemyHealth component. The bullet returns to its pool whatever it hit. Off the server nothing happens. |
| Projectiles.BulletPool.constructor | Assets/_Project/Scripts/Projectiles/BulletPool.cs:35 | The queue starts empty. |
| Projectiles.BulletPool.InitializePool | Assets/_Project/Scripts/Projectiles/BulletPool.cs:45-56 | Appends exactly `initialPoolSize` new, distinct, inactive bullets (none when the size is not positive). Existing entries are kept. |
| Projectiles.BulletPool.CreateNewBullet | Assets/_Project/Scripts/Projectiles/BulletPool.cs:58-64 | Returns a new inactive bullet and appends it to the queue. |
| Projectiles.BulletPool.GetBullet | Assets/_Project/Scripts/Projectiles/BulletPool.cs:70-110 | Never returns null. The returned bullet is active, exists and sits at the requested pose. The queue and the choice are those of `Checkout` with 10 attempts. On expansion the queue also keeps the new, handed-out bullet. A bullet that was active before is never handed out, and other queued bullets are untouched. |
| Projectiles.BulletPool.ReturnBullet | Assets/_Project/Scripts/Projectiles/BulletPool.cs:116-124 | A null or destroyed bullet changes nothing. Otherwise the bullet is deactivated and appended unconditionally, so a double return queues it twice. |
| Projectiles.ExpansionScenario | Assets/_Project/Scripts/Projectiles/BulletPool.cs:97-123 | Starting from an empty pool: request, return, request. The queue sizes are 1, 2, 1, and the second request reuses the first bullet. |
| Scoring.AddWrapped | Assets/_Project/Scripts/Gameflow/ScoreManager.cs:94-96 | C# unchecked `int` addition. The true sum when it fits in 32 bits, and congruent to it modulo 2^32 always. |
| Scoring.ScoreOf | Assets/_Project/Scripts/Gameflow/ScoreManager.cs:169-178 | 0 for a null player, a player without a NetworkObject or an unknown id. The stored score otherwise. |
| Scoring.Credit | Assets/_Project/Scripts/Gameflow/ScoreManager.cs:104-111 | The killer's entry is created at 0 when absent and raised by the amount. Every other entry is unchanged, and a missing id changes nothing. |
| Scoring.CreditMovesOnlyThatPlayer | Assets/_Project/Scripts/Gameflow/ScoreManager.cs:99-111 | After a credit the killer's reported score is its old score plus the amount. Every other player's reported score is unchanged. |
| Scoring.ScoreManager.constructor | Assets/_Project/Scripts/Gameflow/ScoreManager.cs:43-47 | Team score and kills start at 0 with no individual scores. |
| Scoring.ScoreManager.OnStartServer | Assets/_Project/Scripts/Gameflow/ScoreManager.cs:81-86 | Team score and kills reset to 0. Individual scores are kept. |
| Scoring.ScoreManager.AddKillScore | Assets/_Project/Scripts/Gameflow/ScoreManager.cs:92-120 | Team score +10 and kills +1, both wrapping. The per-player map is credited 10 for the killer's id, and is unchanged for a null killer or one without a NetworkObject. |
| Scoring.ScoreManager.AddWaveBonus | Assets/_Project/Scripts/Gameflow/ScoreManager.cs:126-130 | Team score +50. Kills and individual scores are untouched. |
| Scoring.ScoreManager.AddScoreServerRpc | Assets/_Project/Scripts/Gameflow/ScoreManager.cs:136-140 | Adds the given points as they are, negative ones included. Nothing else changes. |
| Scoring.ScoreManager.ResetScore | Assets/_Project/Scripts/Gameflow/ScoreManager.cs:152-158 | Team score and kills become 0 and the map is emptied. |
| Scoring.ScoreManager.GetPlayerScore | Assets/_Project/Scripts/Gameflow/ScoreManager.cs:169-178 | A nonzero answer means the player has a network id with an entry in the map. |
| Scoring.ScoreManager.GetTeamScore | Assets/_Project/Scripts/Gameflow/ScoreManager.cs:161 | Reports the replicated team score. |
| Scoring.ScoreManager.GetTotalKills | Assets/_Project/Scripts/Gameflow/ScoreManager.cs:162 | Reports the replicated kill count. |
| Scoring.ScoreManager.GetKillReward | Assets/_Project/Scripts/Gameflow/ScoreManager.cs:163 | Reports the kill reward setting, 10. |
| Scoring.ScoreManager.GetWaveBonus | Assets/_Project/Scripts/Gameflow/ScoreManager.cs:164 | Reports the wave-clear bonus setting, 50. |
| GameFlow.AliveCount | Assets/_Project/Scripts/Gameflow/GameStateManager.cs:140-148 | The number of players whose PlayerHealth reports alive, at most the number of players. |
| GameFlow.AliveCountZeroIffNoneAlive | Assets/_Project/Scripts/Gameflow/GameStateManager.cs:140-154 | The alive count is 0 exactly when no player is alive. A player without PlayerHealth counts as not alive. |
| GameFlow.VictoryCondition | Assets/_Project/Scripts/Gameflow/GameStateManager.cs:110-121 | Without a spawner there is no victory. With one, victory holds exactly when its wave is at least 3, the wave is not active, and no object tagged "Enemy" remains. |
| GameFlow.GameOverCondition | Assets/_Project/Scripts/Gameflow/GameStateManager.cs:127-154 | Game over holds exactly when no player is alive. An empty player list is the case where this holds vacuously, and a player without PlayerHealth does not count as alive. |
| GameFlow.Tick | Assets/_Project/Scripts/Gameflow/GameStateManager.cs:90-124 | Off the server or outside Playing the state is kept. Otherwise the result is GameOver iff there are no players or none alive. It is Victory iff a spawner is at wave ≥ 3, inactive, with no enemies left, and game over does not hold. It stays Playing iff neither holds. |
| GameFlow.FrozenOutsidePlaying | Assets/_Project/Scripts/Gameflow/GameStateManager.cs:90-100 | Any sequence of frames leaves a state other than Playing unchanged, so Victory and GameOver are absorbing. |
| GameFlow.GameStateManager.constructor | Assets/_Project/Scripts/Gameflow/GameStateManager.cs:48 | The state starts at Lobby. |
| GameFlow.GameStateManager.StartGameServer | Assets/_Project/Scripts/Gameflow/GameStateManager.cs:103-107 | The state becomes Playing. |
| GameFlow.GameStateManager.Update | Assets/_Project/Scripts/Gameflow/GameStateManager.cs:90-100 | The new state is `Tick` of the old one: the victory check, then the game-over check, only on the server while Playing. |
| GameFlow.GameStateManager.CheckVictoryCondition | Assets/_Project/Scripts/Gameflow/GameStateManager.cs:110-124 | Sets Victory exactly when the victory condition holds. Otherwise the state is kept. |
| GameFlow.GameStateManager.CheckGameOverCondition | Assets/_Project/Scripts/Gameflow/GameStateManager.cs:127-155 | Counts alive players in a loop. Sets GameOver exactly when there is no player or none is alive, and otherwise keeps the state. |
| GameFlow.GameStateManager.GetCurrentState | Assets/_Project/Scripts/Gameflow/GameStateManager.cs:186 | Reports the replicated state. |
| GameFlow.GameStateManager.IsPlaying | Assets/_Project/Scripts/Gameflow/GameStateManager.cs:187 | Holds exactly when the reported state is Playing. |
| GameFlow.GameStateManager.IsGameOver | Assets/_Project/Scripts/Gameflow/GameStateManager.cs:188 | Holds exactly when the reported state is GameOver. |
| GameFlow.GameStateManager.IsVictory | Assets/_Project/Scripts/Gameflow/GameStateManager.cs:189 | Holds exactly when the reported state is Victory. |
| GameFlow.AtMostOneOutcomeFlag | Assets/_Project/Scripts/Gameflow/GameStateManager.cs:187-189 | At most one of IsPlaying, IsGameOver and IsVictory holds. |
| Countdown.TruncateToInt | Assets/_Project/Scripts/UI/Lobby/LobbyManager.cs:202 | The C# `(int)` cast of a float truncates toward zero: the result lies within 1 of the value, on the zero side. |
| Countdown.Ticks | Assets/_Project/Scripts/UI/Lobby/LobbyManager.cs:202-207 | The loop counter's values: n, n-1, …, 1 (n values), none when n ≤ 0. |
| Countdown.TicksDescendToOne | Assets/_Project/Scripts/UI/WaveTransitionUI.cs:144-149 | For a positive start the values strictly decrease and end at 1. |
| Lobby.CountdownWrites | Assets/_Project/Scripts/UI/Lobby/LobbyManager.cs:200-209 | With the 3 s setting, `countdownTime` takes the values 3, 2, 1, 0. |
| Lobby.LobbyManager.constructor | Assets/_Project/Scripts/UI/Lobby/LobbyManager.cs:62-64 | An empty lobby: countdown inactive and countdown time 3. |
| Lobby.LobbyManager.RegisterPlayerServerRpc | Assets/_Project/Scripts/UI/Lobby/LobbyManager.cs:105-128 | Rejected exactly when 2 players are registered already. A duplicate connection fails in the dictionary's Add and changes nothing. Otherwise the new entry has index equal to the prior count and is not ready. The lobby invariant is kept: count ≤ 2, distinct indexes below the count. |
| Lobby.LobbyManager.UpdatePlayerNameServerRpc | Assets/_Project/Scripts/UI/Lobby/LobbyManager.cs:134-142 | Only the name of that connection's entry changes. An unregistered connection changes nothing. |
| Lobby.LobbyManager.UpdatePlayerColorServerRpc | Assets/_Project/Scripts/UI/Lobby/LobbyManager.cs:148-156 | Only the colour of that connection's entry changes. An unregistered connection changes nothing. |
| Lobby.LobbyManager.ToggleReadyServerRpc | Assets/_Project/Scripts/UI/Lobby/LobbyManager.cs:162-172 | Flips `isReady` of a registered connection only, with the other fields kept. The countdown then runs exactly when the lobby is full and all are ready. |
| Lobby.LobbyManager.CheckAllPlayersReady | Assets/_Project/Scripts/UI/Lobby/LobbyManager.cs:175-195 | Starts the countdown exactly when the count is ≥ 2 and every entry is ready. Otherwise nothing changes. |
| Lobby.LobbyManager.StartGameCountdown | Assets/_Project/Scripts/UI/Lobby/LobbyManager.cs:198-217 | Sets the countdown active, writes 3, 2, 1, then 0 to the countdown time, and starts the game. |
| Lobby.LobbyManager.GetPlayerData | Assets/_Project/Scripts/UI/Lobby/LobbyManager.cs:255-263 | Copies the dictionary entry by entry: the copy has exactly the registered connections, each with its stored data. |
| Lobby.LobbyManager.IsCountdownActive | Assets/_Project/Scripts/UI/Lobby/LobbyManager.cs:265 | Reports whether the countdown is running. |
| Lobby.LobbyManager.GetCountdownTime | Assets/_Project/Scripts/UI/Lobby/LobbyManager.cs:266 | Reports the replicated countdown time. |
| Lobby.LobbyManager.GetPlayerCount | Assets/_Project/Scripts/UI/Lobby/LobbyManager.cs:267 | The count never exceeds 2. |
| EnemyAI.NearestIsUnique | Assets/_Project/Scripts/Enemies/EnemyShooter.cs:78-95 | The nearest-player description (minimal distance, earlier ties strictly farther) picks at most one player. |
| EnemyAI.PositionOf | Assets/_Project/Scripts/Enemies/EnemyShooter.cs:62-66 | A target reads as null exactly when it is unset or no present player has its id. Otherwise it yields that player's position. |
| EnemyAI.MoveDirection | Assets/_Project/Scripts/Enemies/EnemyShooter.cs:98-116 | Closer than 5 units the direction points straight away from the target, and farther than 7 straight at it (dot ±|t|², cross 0). In between it is the perpendicular (-y, x): zero dot product with the line of sight, turned counter-clockwise. |
| EnemyAI.EnemyShooter.constructor | Assets/_Project/Scripts/Enemies/EnemyShooter.cs:35-38 | No target, last fire time 0, no pool. |
| EnemyAI.EnemyShooter.OnStartServer | Assets/_Project/Scripts/Enemies/EnemyShooter.cs:45-56 | Looks for the nearest player, then stores the scene's pool, which may be null. |
| EnemyAI.EnemyShooter.FindNearestPlayer | Assets/_Project/Scripts/Enemies/EnemyShooter.cs:72-96 | An empty player list keeps the target. Otherwise the target becomes a non-dead player at minimal distance, the first one winning ties, or null when every player is dead. |
| EnemyAI.EnemyShooter.TryShoot | Assets/_Project/Scripts/Enemies/EnemyShooter.cs:122-168 | Skipped (no bullets, nothing changes) while time < last fire time + 1.2, or with no pool or no target. Otherwise the last fire time becomes the current time. Five distinct bullets are then taken from the pool at offsets -40, -20, 0, 20, 40 degrees, each active, at the enemy's position and owned by the pool. Each is new or was a queued, reusable bullet before the call. Queued bullets not fired are untouched, and the queue gains nothing but fired bullets. |
| EnemyAI.EnemyShooter.FixedUpdate | Assets/_Project/Scripts/Enemies/EnemyShooter.cs:58-70 | Off the server nothing happens, to the enemy or the pool. With a null target the step only re-acquires: no movement, no shot, the pool untouched. Otherwise it moves by `MoveDirection` and fires exactly when the interval has passed and a pool exists. A volley is five distinct bullets at the fan offsets, taken as in TryShoot, and sets the last fire time to the current time. Without a volley the last fire time is kept. |
| WaveTransition.TextWrites | Assets/_Project/Scripts/UI/WaveTransitionUI.cs:144-149 | One text write per counter value, in order. |
| WaveTransition.TransitionWrites | Assets/_Project/Scripts/UI/WaveTransitionUI.cs:135-154 | The display shows the panel, writes 5, 4, 3, 2, 1 and hides the panel. |
| WaveTransition.Observe | Assets/_Project/Scripts/UI/WaveTransitionUI.cs:101-132 | After a step the memory equals the current wave and active flag. A countdown for wave+1 starts exactly on an active→inactive edge below wave 3, and sets `countdownShown`. A wave increase resets `countdownShown` to false. |
| WaveTransition.MonitorStartsCountdownsAtEdges | Assets/_Project/Scripts/UI/WaveTransitionUI.cs:101-132 | Over any sequence of observations the countdowns started are exactly the falling edges below wave 3, each for the next wave, in order. The final memory is the last observation. |
| WaveTransition.WaveTransitionUI.constructor | Assets/_Project/Scripts/UI/WaveTransitionUI.cs:59-61 | Memory starts at wave 0, inactive, no countdown shown, with no spawner held. |
| WaveTransition.WaveTransitionUI.Start | Assets/_Project/Scripts/UI/WaveTransitionUI.cs:63-84 | A missing panel or text reference disables the component. Otherwise the panel is hidden. |
| WaveTransition.WaveTransitionUI.Update | Assets/_Project/Scripts/UI/WaveTransitionUI.cs:86-133 | A disabled component does nothing. Without a live spawner the frame only looks it up and, if one is found, seeds the memory from it. Otherwise the step is `Observe`, and the display's writes are appended exactly when it starts a countdown. |
| WaveTransition.WaveTransitionUI.ShowWaveTransition | Assets/_Project/Scripts/UI/WaveTransitionUI.cs:135-154 | Appends the display's writes (shown, 5…1, hidden) and leaves the panel hidden. Nothing else changes. |
| WaveTransition.WaveTransitionUI.TriggerCountdown | Assets/_Project/Scripts/UI/WaveTransitionUI.cs:159-162 | Runs the same display. |

## Left out

- FishNet replication is not modelled: SyncVar and SyncDictionary change callbacks, the C# events they raise, `ServerManager.Spawn`/`Despawn`, and RPC routing and ownership. Fields are plain fields.
- Unity physics and float vector maths are not modelled: bullet motion along `transform.up`, the optional spin, `Rigidbody2D.MovePosition`, normalisation and the `Atan2`/`Cos`/`Sin` fan directions. Positions are exact reals, and a bullet's rotation is recorded as (line of sight, offset in degrees).
- EnemyAI.PositionOf: a targeted player is taken to leave the tag query only by being destroyed. A target that is deactivated but not destroyed drops out of the query, yet the source keeps the reference and goes on chasing and shooting at it; the model re-acquires instead.
- EnemyAI.MoveDirection: the vector is not normalised, so it has the source's direction but not unit length. Distances are compared squared, which orders them the same way.
- EnemyAI.EnemyShooter.TryShoot: the bullets' velocities are not modelled.
- Coroutine timing is not modelled. The lobby countdown and the wave display run to completion within the call that starts them. The source's one-second waits, and other frames interleaving with them, are not represented. Nor is a second countdown started while one is running.
- Scene loading is not modelled: the lobby's `StartGame` (`gameStarted` only records it), `TransferPlayerDataToGame` (empty in the source), and `RequestRestartServerRpc`/`RestartGame`.
- Singleton `Awake`, the `Invoke` delay before `StartGameServer`, `poolParent` creation and re-parenting, the text colour set in `Start`, and all debug logging are not modelled.
- Scene lookups (`FindGameObjectsWithTag`, `FindAnyObjectByType`, `GetComponent`) become inputs. The wave banner assumes the scene has at most one spawner.
- Inspector-configurable settings take their default values: pool size (a parameter), lifetime 5, damage 10, kill reward 10, wave bonus 50, 2 players, countdowns 3 and 5, distances 5 and 7, fire rate 1.2.
- PlayerHealth, EnemyHealth and EnemySpawner are not part of this model. They appear only as the values their queries return.
- PlayerSetupUI, the menu video and audio scripts and the PHP score backend are not part of this model.
