/**
  The game scene's own simulation state and the callbacks the engine invokes
  on it: the per-frame update, the wave, treasure, fire and clock timers, and
  the three collision handlers (given an already matched pair).

  Randomness is passed in: the wave's jitter draws, the treasure's x and type
  index, and the fire draw as an integer percentage.
*/
module Scene {
  import Waves
  import opened Entities

  /** Seconds on the clock when the scene starts. */
  const InitialTime := 300

  /** Points per enemy destroyed by a bullet. */
  const ScorePerKill := 10

  /** Where the player's ship is created (400 px, 550 px). */
  const PlayerStartX := 400 * Waves.Scale
  const PlayerStartY := 550 * Waves.Scale

  /** A bullet appears this far above the player (20 px). */
  const BulletOffset := 20 * Waves.Scale

  /** Leftmost and rightmost x of a new treasure, in whole pixels. */
  const TreasureMinX := 50
  const TreasureMaxX := 750

  /** Running, or the game-over explosion has started, or the scene is paused for good. */
  datatype Phase = Running | Exploding | Paused

  /** Chance in percent that one tick of the fire timer fires a bullet. */
  function FireChance(boost: bool): nat {
    if boost then 60 else 40
  }

  /** Whether the fire timer fires, given a uniform draw in 0..99 (Math.random() * 100, rounded down). */
  predicate Fires(boost: bool, draw: nat) {
    draw < FireChance(boost)
  }

  /** How many of the draws 0 .. n-1 fire. */
  function FiringDraws(boost: bool, n: nat): nat {
    if n == 0 then 0 else FiringDraws(boost, n - 1) + (if Fires(boost, n - 1) then 1 else 0)
  }

  lemma {:induction false} FiringDrawsBelow(boost: bool, n: nat)
    ensures FiringDraws(boost, n) == Waves.Min(n, FireChance(boost))
  {
    if n > 0 {
      FiringDrawsBelow(boost, n - 1);
    }
  }

  /**
    Exactly FireChance(boost) of the 100 equally likely draws fire: 40% without
    the EW boost, 60% with it.
  */
  lemma FireRate(boost: bool)
    ensures FiringDraws(boost, 100) == FireChance(boost)
  {
    FiringDrawsBelow(boost, 100);
  }

  /** The enemies of a freshly laid out wave. */
  function Spawned(wave: seq<Waves.Pos>): (enemies: seq<Entity>)
    ensures |enemies| == |wave|
    ensures forall i :: 0 <= i < |wave| ==> enemies[i] == Enemy(wave[i].x, wave[i].y)
  {
    if wave == [] then [] else [Enemy(wave[0].x, wave[0].y)] + Spawned(wave[1..])
  }

  /** The scalar part of the scene state, for stating what an operation leaves alone. */
  datatype Status = Status(
    score: int, gameTime: int, waveCount: nat, hasEWBoost: bool,
    playerX: int, playerY: int, playerVisible: bool,
    gameOvers: nat, paused: bool, kills: nat)

  /** The sequence without its element at position i. */
  function Without(s: seq<Entity>, i: nat): (r: seq<Entity>)
    requires i < |s|
    ensures |r| == |s| - 1
    ensures forall j :: 0 <= j < i ==> r[j] == s[j]
    ensures forall j :: i <= j < |r| ==> r[j] == s[j + 1]
  {
    s[..i] + s[i + 1..]
  }

  class GameScene {
    var score: int
    /** Seconds left on the clock. */
    var gameTime: int
    /** Number of waves spawned so far. */
    var waveCount: nat
    /** The EW fire-rate boost; never set by the handlers the scene actually runs. */
    var hasEWBoost: bool
    var playerX: int
    var playerY: int
    var playerVisible: bool
    /** Game-over explosions started whose completion has not fired yet. */
    var gameOvers: nat
    var paused: bool
    var bullets: seq<Entity>
    var enemies: seq<Entity>
    var treasures: seq<Entity>
    /** Enemies destroyed by bullets so far. */
    ghost var kills: nat

    ghost function Snapshot(): Status
      reads this
    {
      Status(score, gameTime, waveCount, hasEWBoost, playerX, playerY, playerVisible,
             gameOvers, paused, kills)
    }

    function Phase(): Phase
      reads this
    {
      if paused then Paused else if gameOvers > 0 then Exploding else Running
    }

    /**
      The scene invariant: the score is 10 per enemy destroyed, the clock has
      never been wound up, the EW boost is never active, each group holds only
      its own kind, and once game over has begun the player stays hidden.
    */
    ghost predicate Valid()
      reads this
    {
      score == ScorePerKill * kills &&
      gameTime <= InitialTime &&
      !hasEWBoost &&
      AllOfKind(bullets, BulletKind) &&
      AllOfKind(enemies, EnemyKind) &&
      AllOfKind(treasures, TreasureKind) &&
      (Phase() != Running ==> !playerVisible)
    }

    /** The scene as it stands after construction and creation, before the first wave. */
    constructor ()
      ensures Valid()
      ensures Snapshot() == Status(0, InitialTime, 0, false, PlayerStartX, PlayerStartY, true, 0, false, 0)
      ensures Phase() == Running
      ensures bullets == [] && enemies == [] && treasures == []
    {
      score := 0;
      gameTime := InitialTime;
      waveCount := 0;
      hasEWBoost := false;
      playerX, playerY := PlayerStartX, PlayerStartY;
      playerVisible := true;
      gameOvers := 0;
      paused := false;
      bullets, enemies, treasures := [], [], [];
      kills := 0;
    }

    /**
      The wave timer: count the wave, then lay out EnemyCount(waveCount)
      enemies, one jitter draw per column, and add them to the enemies.
    */
    method SpawnEnemyWave(draws: seq<int>)
      requires Valid()
      requires |draws| == Waves.EnemyCount(waveCount + 1) && Waves.JitterDraws(draws)
      modifies this
      ensures Valid()
      ensures Snapshot() == old(Snapshot()).(waveCount := old(waveCount) + 1)
      ensures enemies == old(enemies) + Spawned(Waves.WaveLayout(Waves.EnemyCount(waveCount), draws))
      ensures |old(enemies)| <= |enemies| <= |old(enemies)| + Waves.EnemyCount(waveCount)
      ensures bullets == old(bullets) && treasures == old(treasures)
    {
      waveCount := waveCount + 1;
      var enemyCount := Waves.EnemyCount(waveCount);
      var wave := Waves.LayoutWave(enemyCount, draws);
      Waves.WaveShape(enemyCount, draws);
      enemies := enemies + Spawned(wave);
    }

    /** The per-frame update: every group advances by one frame. */
    method Update()
      requires Valid()
      modifies this
      ensures Valid()
      ensures Snapshot() == old(Snapshot())
      ensures bullets == AfterFrame(old(bullets))
      ensures enemies == AfterFrame(old(enemies))
      ensures treasures == AfterFrame(old(treasures))
    {
      FrameKeepsKind(bullets, BulletKind);
      FrameKeepsKind(enemies, EnemyKind);
      FrameKeepsKind(treasures, TreasureKind);
      bullets := AdvanceGroup(bullets);
      enemies := AdvanceGroup(enemies);
      treasures := AdvanceGroup(treasures);
    }

    /** A bullet hits an enemy: both are destroyed and the score rises by 10. */
    method HitEnemy(bullet: nat, enemy: nat)
      requires Valid()
      requires bullet < |bullets| && enemy < |enemies|
      modifies this
      ensures Valid()
      ensures Snapshot() == old(Snapshot()).(score := old(score) + ScorePerKill, kills := old(kills) + 1)
      ensures bullets == Without(old(bullets), bullet)
      ensures enemies == Without(old(enemies), enemy)
      ensures treasures == old(treasures)
    {
      bullets := Without(bullets, bullet);
      enemies := Without(enemies, enemy);
      score := score + ScorePerKill;
      kills := kills + 1;
    }

    /**
      The player touches a treasure: the treasure is destroyed and nothing
      else changes (in particular the EW boost stays off).
    */
    method CollectTreasure(treasure: nat)
      requires Valid()
      requires treasure < |treasures|
      modifies this
      ensures Valid()
      ensures Snapshot() == old(Snapshot())
      ensures treasures == Without(old(treasures), treasure)
      ensures bullets == old(bullets) && enemies == old(enemies)
    {
      treasures := Without(treasures, treasure);
    }

    /**
      Game over, from the clock or from the player touching an enemy: the
      player is hidden and an explosion starts. The scene is not paused yet,
      and nothing guards against a second call.
    */
    method GameOver()
      requires Valid()
      modifies this
      ensures Valid()
      ensures Snapshot() == old(Snapshot()).(playerVisible := false, gameOvers := old(gameOvers) + 1)
      ensures bullets == old(bullets) && enemies == old(enemies) && treasures == old(treasures)
      ensures Phase() == if old(paused) then Paused else Exploding
    {
      playerVisible := false;
      gameOvers := gameOvers + 1;
    }

    /** A game-over explosion has finished playing: the scene pauses for good. */
    method ExplosionComplete()
      requires Valid()
      requires gameOvers > 0
      modifies this
      ensures Valid()
      ensures Snapshot() == old(Snapshot()).(gameOvers := old(gameOvers) - 1, paused := true)
      ensures bullets == old(bullets) && enemies == old(enemies) && treasures == old(treasures)
      ensures Phase() == Paused
    {
      gameOvers := gameOvers - 1;
      paused := true;
    }

    /** The one-second clock: one second less, and game over once it reaches 0. */
    method UpdateTimer()
      requires Valid()
      modifies this
      ensures Valid()
      ensures gameTime == old(gameTime) - 1
      ensures Snapshot() == if gameTime <= 0
        then old(Snapshot()).(gameTime := gameTime, playerVisible := false, gameOvers := old(gameOvers) + 1)
        else old(Snapshot()).(gameTime := gameTime)
      ensures bullets == old(bullets) && enemies == old(enemies) && treasures == old(treasures)
    {
      gameTime := gameTime - 1;
      if gameTime <= 0 {
        GameOver();
      }
    }

    /** The treasure timer: a treasure of the drawn type at the drawn x, at the top. */
    method SpawnTreasure(x: int, typeIndex: int)
      requires Valid()
      requires TreasureMinX <= x <= TreasureMaxX && 0 <= typeIndex < |TreasureTypes|
      modifies this
      ensures Valid()
      ensures Snapshot() == old(Snapshot())
      ensures treasures == old(treasures) + [Treasure(x * Waves.Scale, 0, TreasureTypes[typeIndex])]
      ensures bullets == old(bullets) && enemies == old(enemies)
    {
      treasures := treasures + [Treasure(x * Waves.Scale, 0, TreasureTypes[typeIndex])];
    }

    /** The fire timer: a bullet 20 px above the player when the draw is under the fire chance. */
    method FireBullet(draw: nat)
      requires Valid()
      requires draw < 100
      modifies this
      ensures Valid()
      ensures Snapshot() == old(Snapshot())
      ensures bullets == old(bullets) +
        if draw < 40 then [Bullet(playerX, playerY - BulletOffset)] else []
      ensures enemies == old(enemies) && treasures == old(treasures)
    {
      if Fires(hasEWBoost, draw) {
        bullets := bullets + [Bullet(playerX, playerY - BulletOffset)];
      }
    }
  }

  /**
    The clock alone ends the game on its 300th tick: after 299 ticks a fresh
    scene is still running, after the 300th it is exploding.
  */
  method ClockRunsOut() returns (after299: Phase, after300: Phase)
    ensures after299 == Running && after300 == Exploding
  {
    var scene := new GameScene();
    var ticks := 0;
    while ticks < InitialTime - 1
      invariant 0 <= ticks <= InitialTime - 1
      invariant scene.Valid()
      invariant scene.gameTime == InitialTime - ticks
      invariant scene.gameOvers == 0 && !scene.paused
    {
      scene.UpdateTimer();
      ticks := ticks + 1;
    }
    after299 := scene.Phase();
    scene.UpdateTimer();
    after300 := scene.Phase();
  }
}
