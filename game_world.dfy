/** The entities of the side-scrolling game (app/game/game-canvas.tsx) and
    one animation tick stated as a function: move by the held arrow keys,
    clamp, check the finish line, ease the camera, then test every obstacle
    and send the player back to the spawn point on an overlap. Coordinates
    are world coordinates, as reals. */
module GameWorld {

  const PLAYER_SIZE: real := 60.0
  const OBSTACLE_COUNT: nat := 15
  const WORLD_WIDTH: real := 3000.0
  /** The player wins once its right edge passes this line. */
  const FINISH_LINE: real := WORLD_WIDTH - 100.0
  const OBSTACLE_SIZE: real := 60.0
  /** Obstacles are placed with x in [OBSTACLE_MIN_X, WORLD_WIDTH - OBSTACLE_MIN_X). */
  const OBSTACLE_MIN_X: real := 400.0
  const SPAWN_X: real := 50.0
  /** The fraction of the way to its target the camera moves each tick. */
  const CAMERA_EASING: real := 0.1

  /** The sprite kinds, in the order of `OBSTACLE_TYPES` (app/game/obstacle-assets.ts). */
  datatype ObstacleType = Banana | Rock | Puddle | Cone | Log | Cactus

  const OBSTACLE_TYPES: seq<ObstacleType> := [Banana, Rock, Puddle, Cone, Log, Cactus]

  datatype Player = Player(x: real, y: real, width: real, height: real, speed: real)

  datatype Obstacle = Obstacle(x: real, y: real, width: real, height: real, kind: ObstacleType)

  /** Which arrow keys are held during this tick. */
  datatype Keys = Keys(up: bool, down: bool, left: bool, right: bool)

  datatype GameState = Start | Playing | Won

  /** What one tick reads and writes besides the obstacles. */
  datatype World = World(player: Player, camera: real, state: GameState)

  /** The three `Math.random()` values one obstacle consumes, in call order. */
  datatype ObstacleDraw = ObstacleDraw(kind: real, x: real, y: real)

  predicate IsRandom(r: real)
  {
    0.0 <= r < 1.0
  }

  predicate IsDraw(d: ObstacleDraw)
  {
    IsRandom(d.kind) && IsRandom(d.x) && IsRandom(d.y)
  }

  // ---------------------------------------------------------------------
  // Starting a game

  /** The index `floor(r * 6)` into the sprite kinds. */
  function KindIndex(r: real): (i: nat)
    requires IsRandom(r)
    ensures i < |OBSTACLE_TYPES|
    ensures i as real <= r * 6.0 < i as real + 1.0
  {
    (r * 6.0).Floor
  }

  /** Every kind can be drawn: the draw k/6 picks the k-th kind. */
  lemma EveryKindCanBeDrawn(k: nat)
    requires k < |OBSTACLE_TYPES|
    ensures IsRandom(k as real / 6.0) && KindIndex(k as real / 6.0) == k
  {
    assert k as real / 6.0 * 6.0 == k as real;
  }

  /** One generated obstacle: 60 by 60, x in [400, 2600), y in
      [0, viewH - 100) when the canvas is taller than 100. */
  function MakeObstacle(d: ObstacleDraw, viewH: real): (o: Obstacle)
    requires IsDraw(d)
    ensures o.width == OBSTACLE_SIZE && o.height == OBSTACLE_SIZE
    ensures OBSTACLE_MIN_X <= o.x < WORLD_WIDTH - OBSTACLE_MIN_X
    ensures viewH > 100.0 ==> 0.0 <= o.y < viewH - 100.0
    ensures viewH <= 100.0 ==> viewH - 100.0 <= o.y <= 0.0
    ensures o.kind == OBSTACLE_TYPES[KindIndex(d.kind)]
    ensures o.x == OBSTACLE_MIN_X + d.x * (WORLD_WIDTH - 2.0 * OBSTACLE_MIN_X)
    ensures o.y == d.y * (viewH - 100.0)
  {
    var kind := OBSTACLE_TYPES[KindIndex(d.kind)];
    var span := WORLD_WIDTH - 2.0 * OBSTACLE_MIN_X;
    assert span == 2200.0;
    var band := viewH - 100.0;
    ScaledDraw(d.x, span);
    ScaledDraw(d.y, band);
    var x, y := OBSTACLE_MIN_X + d.x * span, d.y * band;
    assert band > 0.0 ==> 0.0 <= y < band;
    assert band <= 0.0 ==> band <= y <= 0.0;
    Obstacle(x, y, OBSTACLE_SIZE, OBSTACLE_SIZE, kind)
  }

  /** Every placement in the bands can be drawn: on a canvas taller than
      100, any x in [400, 2600) and y in [0, viewH - 100) is where some draw
      puts an obstacle. */
  lemma EveryPlacementCanBeDrawn(x: real, y: real, viewH: real)
    requires OBSTACLE_MIN_X <= x < WORLD_WIDTH - OBSTACLE_MIN_X
    requires viewH > 100.0 && 0.0 <= y < viewH - 100.0
    ensures var d := ObstacleDraw(0.0, (x - OBSTACLE_MIN_X) / 2200.0, y / (viewH - 100.0));
      IsDraw(d) && MakeObstacle(d, viewH).x == x && MakeObstacle(d, viewH).y == y
  {
    var dx, dy := (x - OBSTACLE_MIN_X) / 2200.0, y / (viewH - 100.0);
    assert dx * 2200.0 == x - OBSTACLE_MIN_X;
    var band := viewH - 100.0;
    assert dy * band == y;
    if dy >= 1.0 {
      assert false;
    }
  }

  /** `Math.random() * c` lies in [0, c) for positive c, in (c, 0] otherwise. */
  lemma ScaledDraw(r: real, c: real)
    requires IsRandom(r)
    ensures c > 0.0 ==> 0.0 <= r * c < c
    ensures c <= 0.0 ==> c <= r * c <= 0.0
  {
    assert c - r * c == (1.0 - r) * c;
    if c > 0.0 {
      assert (1.0 - r) * c > 0.0;
    } else {
      assert (1.0 - r) * c <= 0.0;
    }
  }

  /** Where generated obstacles lie: the size and x band `MakeObstacle` gives. */
  predicate Placed(o: Obstacle)
  {
    o.width == OBSTACLE_SIZE && o.height == OBSTACLE_SIZE
    && OBSTACLE_MIN_X <= o.x < WORLD_WIDTH - OBSTACLE_MIN_X
  }

  // ---------------------------------------------------------------------
  // One tick

  /** Applies the held keys in the order up, down, left, right. */
  function Move(p: Player, k: Keys): (q: Player)
    ensures q.width == p.width && q.height == p.height && q.speed == p.speed
    ensures k.up == k.down ==> q.y == p.y
    ensures k.up && !k.down ==> q.y == p.y - p.speed
    ensures k.down && !k.up ==> q.y == p.y + p.speed
    ensures k.left == k.right ==> q.x == p.x
    ensures k.left && !k.right ==> q.x == p.x - p.speed
    ensures k.right && !k.left ==> q.x == p.x + p.speed
  {
    var p1 := if k.up then p.(y := p.y - p.speed) else p;
    var p2 := if k.down then p1.(y := p1.y + p1.speed) else p1;
    var p3 := if k.left then p2.(x := p2.x - p2.speed) else p2;
    if k.right then p3.(x := p3.x + p3.speed) else p3
  }

  /** The boundary step: x is kept non-negative (there is no right-hand
      clamp), then y is pushed down to 0 and up to `viewH - height`, the
      latter taking precedence on a canvas shorter than the player. */
  function Clamp(p: Player, viewH: real): (q: Player)
    ensures q == p.(x := q.x, y := q.y)
    ensures q.x >= 0.0 && (p.x >= 0.0 ==> q.x == p.x) && (p.x < 0.0 ==> q.x == 0.0)
    ensures p.height <= viewH && p.y < 0.0 ==> q.y == 0.0
    ensures p.y + p.height > viewH ==> q.y == viewH - p.height
    ensures p.height <= viewH ==> 0.0 <= q.y && q.y + q.height <= viewH
    ensures p.height > viewH ==> q.y == viewH - p.height
    ensures 0.0 <= p.y && p.y + p.height <= viewH ==> q.y == p.y
  {
    var p1 := if p.x < 0.0 then p.(x := 0.0) else p;
    var p2 := if p1.y < 0.0 then p1.(y := 0.0) else p1;
    if p2.y + p2.height > viewH then p2.(y := viewH - p2.height) else p2
  }

  predicate Wins(p: Player)
  {
    p.x + p.width > FINISH_LINE
  }

  /** Where the camera heads: a third of the canvas behind the player, kept
      within [0, WORLD_WIDTH - viewW], the upper bound taking precedence. */
  function CameraTarget(px: real, viewW: real): (t: real)
    ensures viewW <= WORLD_WIDTH ==> 0.0 <= t <= WORLD_WIDTH - viewW
    ensures viewW > WORLD_WIDTH ==> t == WORLD_WIDTH - viewW && t < 0.0
    ensures 0.0 <= px - viewW / 3.0 <= WORLD_WIDTH - viewW ==> t == px - viewW / 3.0
    ensures viewW <= WORLD_WIDTH && px - viewW / 3.0 < 0.0 ==> t == 0.0
    ensures px - viewW / 3.0 > WORLD_WIDTH - viewW ==> t == WORLD_WIDTH - viewW
  {
    var t0 := px - viewW / 3.0;
    var t1 := if t0 < 0.0 then 0.0 else t0;
    if t1 > WORLD_WIDTH - viewW then WORLD_WIDTH - viewW else t1
  }

  /** The camera moves a tenth of the way to its target: the remaining gap
      shrinks by a factor 0.9 and the camera stays between where it was and
      the target. */
  function Ease(camera: real, target: real): (c: real)
    ensures c - target == 0.9 * (camera - target)
    ensures camera <= target ==> camera <= c <= target
    ensures target <= camera ==> target <= c <= camera
  {
    camera + (target - camera) * CAMERA_EASING
  }

  /** The axis-aligned overlap test, with strict inequalities. */
  predicate Overlaps(p: Player, o: Obstacle)
  {
    p.x < o.x + o.width && p.x + p.width > o.x && p.y < o.y + o.height && p.y + p.height > o.y
  }

  /** Rectangles that only share an edge do not collide. */
  lemma TouchingIsNotOverlapping(p: Player, o: Obstacle)
    requires p.x + p.width == o.x || o.x + o.width == p.x || p.y + p.height == o.y || o.y + o.height == p.y
    ensures !Overlaps(p, o)
  {
  }

  /** The collision reset: the player back at the spawn point, the camera at 0. */
  function Respawn(w: World, viewH: real): World
  {
    w.(player := w.player.(x := SPAWN_X, y := viewH / 2.0), camera := 0.0)
  }

  /** The collision loop: the obstacles in order, each tested against the
      player as the earlier ones left it. Its result is either the world it
      started from or that world respawned. */
  function CollideAll(w: World, obs: seq<Obstacle>, viewH: real): (r: World)
    ensures r == w || r == Respawn(w, viewH)
    decreases |obs|
  {
    if obs == [] then w
    else CollideAll(if Overlaps(w.player, obs[0]) then Respawn(w, viewH) else w, obs[1..], viewH)
  }

  /** Which obstacle first overlaps the player does not matter: the loop
      respawns exactly when some obstacle overlaps the player it started
      with, since respawning an already respawned world changes nothing. */
  lemma {:induction false} CollideAllOutcome(w: World, obs: seq<Obstacle>, viewH: real)
    ensures CollideAll(w, obs, viewH)
         == if exists i :: 0 <= i < |obs| && Overlaps(w.player, obs[i]) then Respawn(w, viewH) else w
    decreases |obs|
  {
    if obs != [] {
      var rest := obs[1..];
      if Overlaps(w.player, obs[0]) {
        var r := Respawn(w, viewH);
        assert Respawn(r, viewH) == r;
        CollideAllOutcome(r, rest, viewH);
      } else {
        CollideAllOutcome(w, rest, viewH);
        assert (exists i :: 0 <= i < |obs| && Overlaps(w.player, obs[i]))
           <==> (exists i :: 0 <= i < |rest| && Overlaps(w.player, rest[i])) by {
          if i :| 0 <= i < |obs| && Overlaps(w.player, obs[i]) {
            assert i != 0 && rest[i - 1] == obs[i];
          }
          if i :| 0 <= i < |rest| && Overlaps(w.player, rest[i]) {
            assert obs[i + 1] == rest[i];
          }
        }
      }
    }
  }

  /** The spawn box spans x from 50 to 110, left of every placed obstacle. */
  lemma SpawnClearsPlacedObstacles(w: World, obs: seq<Obstacle>, viewH: real)
    requires w.player.width == PLAYER_SIZE
    requires forall o :: o in obs ==> Placed(o)
    ensures forall o :: o in obs ==> !Overlaps(Respawn(w, viewH).player, o)
  {
  }

  /** One tick of the update half of the game loop. */
  function Step(w: World, obs: seq<Obstacle>, keys: Keys, viewW: real, viewH: real): World
  {
    var moved := Clamp(Move(w.player, keys), viewH);
    if Wins(moved) then w.(player := moved, state := Won)
    else CollideAll(w.(player := moved, camera := Ease(w.camera, CameraTarget(moved.x, viewW))), obs, viewH)
  }

  /** What one tick does. On reaching the finish line the moved player is
      kept, the state becomes `Won` and the camera stays put. Otherwise the
      state is unchanged, and the player is respawned with the camera at 0
      exactly when it overlaps some obstacle; if not, it keeps its clamped
      position and the camera closes a tenth of the gap to its target. */
  lemma StepOutcome(w: World, obs: seq<Obstacle>, keys: Keys, viewW: real, viewH: real)
    ensures var moved := Clamp(Move(w.player, keys), viewH);
            var r := Step(w, obs, keys, viewW, viewH);
      && (Wins(moved) ==> r == World(moved, w.camera, Won))
      && (!Wins(moved) && (exists i :: 0 <= i < |obs| && Overlaps(moved, obs[i])) ==>
            r == World(moved.(x := SPAWN_X, y := viewH / 2.0), 0.0, w.state))
      && (!Wins(moved) && !(exists i :: 0 <= i < |obs| && Overlaps(moved, obs[i])) ==>
            r == World(moved, Ease(w.camera, CameraTarget(moved.x, viewW)), w.state))
  {
    var moved := Clamp(Move(w.player, keys), viewH);
    if !Wins(moved) {
      var eased := w.(player := moved, camera := Ease(w.camera, CameraTarget(moved.x, viewW)));
      CollideAllOutcome(eased, obs, viewH);
    }
  }

  /** After any tick the player is never left of the world's edge; when the
      canvas is at least two players tall it is also inside the canvas
      vertically (a respawn puts it at half the canvas height); and a camera
      inside [0, WORLD_WIDTH - viewW] stays there. */
  lemma StepKeepsBounds(w: World, obs: seq<Obstacle>, keys: Keys, viewW: real, viewH: real)
    requires w.player.width == PLAYER_SIZE && w.player.height == PLAYER_SIZE
    ensures var r := Step(w, obs, keys, viewW, viewH);
      && r.player.x >= 0.0
      && r.player.width == PLAYER_SIZE && r.player.height == PLAYER_SIZE
      && (viewH >= 2.0 * PLAYER_SIZE ==> 0.0 <= r.player.y && r.player.y + r.player.height <= viewH)
      && (viewW <= WORLD_WIDTH && 0.0 <= w.camera <= WORLD_WIDTH - viewW ==>
            0.0 <= r.camera <= WORLD_WIDTH - viewW)
  {
    var moved := Clamp(Move(w.player, keys), viewH);
    if !Wins(moved) {
      var eased := w.(player := moved, camera := Ease(w.camera, CameraTarget(moved.x, viewW)));
      var r := CollideAll(eased, obs, viewH);
      assert r == eased || r == Respawn(eased, viewH);
    }
  }

  /** A tick that does not win leaves the state as it was. */
  lemma StepWinsOnlyAtFinish(w: World, obs: seq<Obstacle>, keys: Keys, viewW: real, viewH: real)
    requires w.state != Won
    ensures Step(w, obs, keys, viewW, viewH).state == Won <==> Wins(Clamp(Move(w.player, keys), viewH))
  {
    var moved := Clamp(Move(w.player, keys), viewH);
    if !Wins(moved) {
      var eased := w.(player := moved, camera := Ease(w.camera, CameraTarget(moved.x, viewW)));
      assert CollideAll(eased, obs, viewH).state == w.state;
    }
  }
}
