/** What the gameplay code learns from the scene by tag and type lookups,
    given to the model as plain values. */
module Scene {
  import opened Common
  import opened Geometry

  /** An object tagged "Player". `health` is `Some(alive)` when the object has
      a PlayerHealth component reporting `alive`, and `None` when it has none. */
  datatype PlayerView = PlayerView(id: nat, position: Vec2, health: Option<bool>)

  /** What the EnemySpawner reports: its current wave number and whether
      that wave is still active. */
  datatype SpawnerView = SpawnerView(wave: int, active: bool)

  /** The wave number after which the match is won and no countdown is shown. */
  const FinalWave: int := 3

}
