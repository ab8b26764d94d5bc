/** The game component's mutable state (app/game/game-canvas.tsx): the
    player, camera and obstacle refs and the game state, updated in place by
    `startGame` and by the update half of `gameLoop`. Canvas size, held keys
    and `Math.random()` values are passed in. */
module GameLoop {
  import opened GameWorld

  class GameCanvas {
    var player: Player
    var camera: real
    var obstacles: array<Obstacle>
    var state: GameState

    /** The player keeps its 60 by 60 size, and every obstacle lies where
        `startGame` places obstacles. */
    ghost predicate Valid()
      reads this, obstacles
    {
      player.width == PLAYER_SIZE && player.height == PLAYER_SIZE
      && forall i :: 0 <= i < obstacles.Length ==> Placed(obstacles[i])
    }

    function Snapshot(): World
      reads this
    {
      World(player, camera, state)
    }

    /** The refs as the component first creates them: the player at (50, 300)
        with speed 5, the camera at 0, no obstacles, the start screen. */
    constructor ()
      ensures Valid() && fresh(obstacles)
      ensures player == Player(50.0, 300.0, PLAYER_SIZE, PLAYER_SIZE, 5.0)
      ensures camera == 0.0 && obstacles.Length == 0 && state == Start
    {
      player := Player(50.0, 300.0, PLAYER_SIZE, PLAYER_SIZE, 5.0);
      camera := 0.0;
      obstacles := new Obstacle[0];
      state := Start;
    }

    /** The resets of `startGame`: the player to the spawn point, half-way
        down the canvas, at speed 4; fifteen fresh obstacles built from
        `draws` in order; the camera to 0; and the game playing. */
    method Reset(draws: seq<ObstacleDraw>, viewH: real)
      requires |draws| == OBSTACLE_COUNT
      requires forall i :: 0 <= i < |draws| ==> IsDraw(draws[i])
      modifies this
      ensures Valid() && fresh(obstacles)
      ensures obstacles.Length == OBSTACLE_COUNT
      ensures forall i :: 0 <= i < OBSTACLE_COUNT ==> obstacles[i] == MakeObstacle(draws[i], viewH)
      ensures player == Player(SPAWN_X, viewH / 2.0, PLAYER_SIZE, PLAYER_SIZE, 4.0)
      ensures camera == 0.0 && state == Playing
    {
      player := Player(SPAWN_X, viewH / 2.0, PLAYER_SIZE, PLAYER_SIZE, 4.0);
      var generated := new Obstacle[OBSTACLE_COUNT];
      var i := 0;
      while i < OBSTACLE_COUNT
        invariant 0 <= i <= OBSTACLE_COUNT
        invariant forall j :: 0 <= j < i ==> generated[j] == MakeObstacle(draws[j], viewH)
        modifies generated
      {
        generated[i] := MakeObstacle(draws[i], viewH);
        i := i + 1;
      }
      obstacles := generated;
      camera := 0.0;
      state := Playing;
    }

    /** `startGame`: the resets, then the first run of the game loop. */
    method StartGame(draws: seq<ObstacleDraw>, keys: Keys, viewW: real, viewH: real)
      returns (scheduled: bool)
      requires |draws| == OBSTACLE_COUNT
      requires forall i :: 0 <= i < |draws| ==> IsDraw(draws[i])
      modifies this
      ensures Valid() && fresh(obstacles)
      ensures obstacles.Length == OBSTACLE_COUNT
      ensures forall i :: 0 <= i < OBSTACLE_COUNT ==> obstacles[i] == MakeObstacle(draws[i], viewH)
      ensures Snapshot() == Step(World(Player(SPAWN_X, viewH / 2.0, PLAYER_SIZE, PLAYER_SIZE, 4.0), 0.0, Playing), obstacles[..], keys, viewW, viewH)
      ensures scheduled <==> Snapshot().state != Won
    {
      Reset(draws, viewH);
      scheduled := Tick(keys, viewW, viewH);
    }

    /** The update half of `gameLoop`. The new player, camera and state are
        `Step` of the old ones; the obstacles are untouched. `scheduled` tells
        whether the loop asks for another frame, which it does unless the
        player reached the finish line. */
    method Tick(keys: Keys, viewW: real, viewH: real) returns (scheduled: bool)
      requires Valid()
      modifies this
      ensures Valid() && obstacles == old(obstacles)
      ensures Snapshot() == Step(old(Snapshot()), obstacles[..], keys, viewW, viewH)
      ensures scheduled <==> !Wins(Clamp(Move(old(player), keys), viewH))
      ensures old(state) != Won ==> (scheduled <==> state != Won)
      ensures player.x >= 0.0
      ensures viewH >= 2.0 * PLAYER_SIZE ==> 0.0 <= player.y && player.y + player.height <= viewH
      ensures viewW <= WORLD_WIDTH && 0.0 <= old(camera) <= WORLD_WIDTH - viewW ==>
        0.0 <= camera <= WORLD_WIDTH - viewW
    {
      ghost var before := Snapshot();
      StepKeepsBounds(before, obstacles[..], keys, viewW, viewH);

      MovePlayer(keys);
      ClampPlayer(viewH);
      ghost var moved := Clamp(Move(before.player, keys), viewH);

      if player.x + player.width > FINISH_LINE {
        state := Won;
        return false;
      }

      var target := player.x - viewW / 3.0;
      if target < 0.0 { target := 0.0; }
      if target > WORLD_WIDTH - viewW { target := WORLD_WIDTH - viewW; }
      assert target == CameraTarget(player.x, viewW);
      camera := camera + (target - camera) * CAMERA_EASING;

      ghost var eased := Snapshot();
      assert eased == before.(player := moved, camera := Ease(before.camera, CameraTarget(moved.x, viewW)));
      CheckCollisions(viewH);
      scheduled := true;
    }

    /** Each held arrow key moves the player by its speed along one axis. */
    method MovePlayer(keys: Keys)
      modifies this
      ensures player == Move(old(player), keys)
      ensures camera == old(camera) && obstacles == old(obstacles) && state == old(state)
    {
      if keys.up { player := player.(y := player.y - player.speed); }
      if keys.down { player := player.(y := player.y + player.speed); }
      if keys.left { player := player.(x := player.x - player.speed); }
      if keys.right { player := player.(x := player.x + player.speed); }
    }

    /** The boundary checks of `gameLoop`. */
    method ClampPlayer(viewH: real)
      modifies this
      ensures player == Clamp(old(player), viewH)
      ensures camera == old(camera) && obstacles == old(obstacles) && state == old(state)
    {
      if player.x < 0.0 { player := player.(x := 0.0); }
      if player.y < 0.0 { player := player.(y := 0.0); }
      if player.y + player.height > viewH { player := player.(y := viewH - player.height); }
    }

    /** The collision loop of `gameLoop`: each obstacle in turn is tested
        against the player as the earlier ones left it, and an overlap sends
        the player back to the spawn point and the camera to 0. */
    method CheckCollisions(viewH: real)
      requires Valid()
      modifies this
      ensures Valid() && obstacles == old(obstacles)
      ensures Snapshot() == CollideAll(old(Snapshot()), obstacles[..], viewH)
    {
      var i := 0;
      while i < obstacles.Length
        invariant 0 <= i <= obstacles.Length
        invariant obstacles == old(obstacles) && Valid()
        invariant CollideAll(Snapshot(), obstacles[i..], viewH) == CollideAll(old(Snapshot()), obstacles[..], viewH)
      {
        var obs := obstacles[i];
        if player.x < obs.x + obs.width && player.x + player.width > obs.x
          && player.y < obs.y + obs.height && player.y + player.height > obs.y
        {
          player := player.(x := SPAWN_X, y := viewH / 2.0);
          camera := 0.0;
        }
        assert obstacles[i..][1..] == obstacles[i + 1..];
        i := i + 1;
      }
      assert obstacles[i..] == [];
    }
  }
}
