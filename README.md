# Kids navigator game: a verified model

A Dafny model of the core of a small browser game for children. A player
avatar crosses a 3000-unit-wide side-scrolling world from a start zone to a
finish zone and avoids randomly placed obstacles; overlapping one sends the
player back to the spawn point. Next to the game sit two small managers that
persist JSON values in the browser's key/value store: the leaderboard (the
ten best scores) and the saved player profiles with the current player.

Modules:

- `Storage` (`storage.dfy`): the key/value store as a map from key to the
  decoded value written under it, the `HighScore` and `PlayerProfile` records,
  the two forms of current-player record and the three storage keys.
- `Profiles` (`profiles.dfy`): `getProfiles`, `addProfile`, `deleteProfile`,
  `setCurrentPlayer` and `getCurrentPlayer` as functions over the store, and
  the profile form's own write of the current player (`SaveFormPlayer`). The
  writers return the new store; the readers return the stored value.
- `Leaderboard` (`leaderboard.dfy`): `getScores` and `addScore`. The sort in
  `addScore` is a comparison sort on the score, highest first, and
  ECMAScript's `Array.prototype.sort` is stable, so equal scores keep their
  order. The model defines that sort as insertion from the back
  (`SortByScore`). It proves that the result is sorted, is a permutation of
  the input and keeps the order of equal scores. It then proves what the
  kept ten are.
- `GameWorld` (`game_world.dfy`): the game entities and one tick of the
  game loop as a pure function `Step`. A tick moves the player by the held
  arrow keys, clamps it, checks the finish line, eases the camera and tests
  every obstacle.
- `GameLoop` (`game_canvas.dfy`): the component's mutable refs as the class
  `GameCanvas`. Its fields are the player, the camera, the obstacle array
  and the game state. `StartGame` and `Tick` update them in place and are
  proved equal to the pure `Step`.

Values are passed in where the source reads the environment. The canvas size
and the held keys are parameters of `Tick`. Each obstacle's three
`Math.random()` results form an `ObstacleDraw`. The fresh UUID from
`crypto.randomUUID()` and the time from `Date.now()` are parameters of
`AddProfile` and `AddScore`. Coordinates are reals.

This version of the component always places 15 obstacles, 60 by 60, that
never move. It has no difficulty levels, no score, no hit-recovery timer and
no pause, and a collision sends the player straight back to the spawn point.

## Model

| member | source | states |
|---|---|---|
| Profiles.GetProfiles | utils/profile-manager.ts:14-18 | the stored profile list, or the empty list when the key is absent |
| Profiles.AddProfile | utils/profile-manager.ts:20-30 | the returned profile carries the given name, avatar, id and time; the stored list becomes the old list with that profile appended; no other key changes |
| Profiles.DeleteProfile | utils/profile-manager.ts:32-36 | a profile is in the new list exactly when it was in the old one and its id differs from the deleted id; the survivors keep their order; no other key changes |
| Profiles.WithoutId | utils/profile-manager.ts:34 | the `filter` itself; its own contract says only that it never lengthens the list, and its meaning is stated by WithoutIdMembers, WithoutIdAppend, WithoutAbsentId and WithoutIdIdempotent |
| Profiles.WithoutIdMembers | utils/profile-manager.ts:34 | the filter keeps exactly the profiles whose id differs from the given one |
| Profiles.WithoutIdAppend | utils/profile-manager.ts:34 | filtering a concatenation is concatenating the filtered parts, so order is preserved |
| Profiles.WithoutAbsentId | utils/profile-manager.ts:34 | filtering by an id no profile carries changes nothing |
| Profiles.WithoutIdIdempotent | utils/profile-manager.ts:34 | filtering twice by the same id is filtering once |
| Profiles.DeleteAbsentIdKeepsProfiles | utils/profile-manager.ts:32-36 | deleting an unknown id leaves the profile list unchanged |
| Profiles.DeleteTwiceIsDeleteOnce | utils/profile-manager.ts:32-36 | deleting is idempotent on the whole store |
| Profiles.DeleteUndoesAdd | utils/profile-manager.ts:20-36 | deleting the profile just added under a fresh id restores the previous list |
| Profiles.SetCurrentPlayer | utils/profile-manager.ts:38-40 | reading the current player afterwards gives the saved profile just set; no other key changes |
| Profiles.SaveFormPlayer | app/create-profile/profile-form.tsx:69-75 | the profile form's direct write: reading the current player afterwards gives a name-and-avatar record with the given name and the uploaded avatar, or the default avatar when none was uploaded; no other key changes |
| Profiles.GetCurrentPlayer | utils/profile-manager.ts:42-46 | the stored record unchanged, whether a saved profile or the form's name-and-avatar record, and `None` (the source's `null`) exactly when the key is absent |
| Profiles.KeysAreIndependent | utils/profile-manager.ts:10-11 | profile-list updates never change the current player, and setting the current player never changes the list |
| Leaderboard.GetScores | utils/leaderboard-manager.ts:15-19 | the stored score list, or the empty list when the key is absent |
| Leaderboard.InsertAfterTies | utils/leaderboard-manager.ts:30 | one insertion step of the stable sort; its own contract says the list grows by one, and InsertIsPermutation, InsertKeepsSorted, InsertStable and InsertPosition state what it does |
| Leaderboard.SortByScore | utils/leaderboard-manager.ts:30 | the stable `.sort` by score, highest first; its own contract says the length is kept, and SortIsPermutation, SortIsSorted and SortIsStable state that it is a stable sort |
| Leaderboard.TopTen | utils/leaderboard-manager.ts:29-31 | `.sort(...).slice(0, 10)`; no contract of its own, its behaviour is stated by TopTenIsTopK and NewEntryKeptIff |
| Leaderboard.InsertIsPermutation | utils/leaderboard-manager.ts:30 | one insertion step adds exactly the inserted entry to the multiset of entries |
| Leaderboard.SortIsPermutation | utils/leaderboard-manager.ts:30 | the sorted list holds exactly the input's entries, with multiplicity |
| Leaderboard.InsertKeepsSorted | utils/leaderboard-manager.ts:30 | inserting into a list sorted highest first keeps it sorted |
| Leaderboard.SortIsSorted | utils/leaderboard-manager.ts:30 | the sorted list is in non-increasing score order |
| Leaderboard.InsertStable | utils/leaderboard-manager.ts:30 | an inserted entry lands after every entry with the same score |
| Leaderboard.SortIsStable | utils/leaderboard-manager.ts:30 | for every score, the entries with that score keep their input order |
| Leaderboard.InsertPosition | utils/leaderboard-manager.ts:30 | in a sorted list, an entry goes right after the entries scoring at least as much |
| Leaderboard.CountAtLeastSort | utils/leaderboard-manager.ts:30 | sorting does not change how many entries score at least a given value |
| Leaderboard.NewEntryRank | utils/leaderboard-manager.ts:29-30 | the new entry's position in the sorted list is the number of old entries scoring at least as much; the old entries keep their sorted order around it |
| Leaderboard.TopTenIsTopK | utils/leaderboard-manager.ts:29-31 | the kept list has min(n, 10) entries, is sorted and is drawn from the input; no dropped entry outscores a kept one |
| Leaderboard.AddScore | utils/leaderboard-manager.ts:21-35 | the returned entry carries the submitted fields, the given id and date; the stored list becomes a best-ten selection of the old list plus that entry; no other key changes |
| Leaderboard.AddScoreKeepsNewEntryIff | utils/leaderboard-manager.ts:21-34 | with a fresh id, the new entry is stored exactly when fewer than ten stored entries score at least as much |
| Leaderboard.AddScoreToShortBoard | utils/leaderboard-manager.ts:21-34 | while fewer than ten entries are stored, a new entry is always kept and the list grows by one |
| Leaderboard.NewEntryKeptIff | utils/leaderboard-manager.ts:29-31 | on sequences: a fresh entry is among the top ten exactly when fewer than ten others score at least as much |
| Leaderboard.TieForTenthIsDropped | utils/leaderboard-manager.ts:29-31 | a new score equal to the tenth best stored score is not kept, because the stable sort puts it after the existing tie |
| GameWorld.KindIndex | app/game/game-canvas.tsx:116 | `floor(r * 6)` is a valid index into the six obstacle kinds and is the integer part of `r * 6` |
| GameWorld.EveryKindCanBeDrawn | app/game/obstacle-assets.ts:5 | each of the six kinds is the one picked by some random draw |
| GameWorld.MakeObstacle | app/game/game-canvas.tsx:116-123 | a generated obstacle is 60 by 60 with x in [400, 2600) and y in [0, height - 100) on a canvas taller than 100 (in [height - 100, 0] otherwise), its kind is the one the first draw indexes, x is 400 plus the second draw times 2200 and y is the third draw times (height - 100) |
| GameWorld.EveryPlacementCanBeDrawn | app/game/game-canvas.tsx:118-119 | on a canvas taller than 100, every x in [400, 2600) and y in [0, height - 100) is where some valid draw places an obstacle |
| GameWorld.Move | app/game/game-canvas.tsx:145-148 | each held arrow key moves the player by its speed along its axis; opposite keys cancel; size and speed are unchanged |
| GameWorld.Clamp | app/game/game-canvas.tsx:151-153 | a negative x becomes 0 and any other x is kept; on a canvas at least as tall as the player a negative y becomes 0, a y overflowing the bottom becomes height - player height, and the player then fits vertically; the bottom clamp wins on a shorter canvas; an in-bounds player is untouched; only x and y change |
| GameWorld.CameraTarget | app/game/game-canvas.tsx:164-166 | the target is x - width/3 when that is in range, 0 when it is below 0 (on a canvas not wider than the world), and 3000 - width when it is past that; so it lies in [0, 3000 - width] when the canvas is not wider than the world, and is 3000 - width, negative, otherwise |
| GameWorld.Ease | app/game/game-canvas.tsx:169 | the camera closes a tenth of the gap: the new gap is 0.9 times the old one, and the camera stays between its old position and the target |
| GameWorld.Overlaps | app/game/game-canvas.tsx:173-177 | the strict overlap test; no contract of its own, TouchingIsNotOverlapping states that shared edges do not count |
| GameWorld.Respawn | app/game/game-canvas.tsx:180-182 | the collision reset; no contract of its own, StepOutcome states the respawned world (player at (50, height/2), camera 0) |
| GameWorld.Wins | app/game/game-canvas.tsx:156 | the finish-line test; no contract of its own, StepWinsOnlyAtFinish and StepOutcome state its effect |
| GameWorld.TouchingIsNotOverlapping | app/game/game-canvas.tsx:173-177 | rectangles that only share an edge do not collide (the tests are strict) |
| GameWorld.CollideAll | app/game/game-canvas.tsx:172-184 | the collision loop leaves the world as it was or respawned, nothing else |
| GameWorld.CollideAllOutcome | app/game/game-canvas.tsx:172-184 | the loop respawns exactly when some obstacle overlaps the player it started with, whichever obstacle that is |
| GameWorld.SpawnClearsPlacedObstacles | app/game/game-canvas.tsx:111-118 | the spawn box (x from 50 to 110) overlaps no generated obstacle (x at least 400) |
| GameWorld.Step | app/game/game-canvas.tsx:141-184 | one tick; no contract of its own, its behaviour is stated by StepOutcome, StepKeepsBounds and StepWinsOnlyAtFinish, and GameCanvas.Tick is proved equal to it |
| GameWorld.StepOutcome | app/game/game-canvas.tsx:141-184 | one tick: past the finish line the state becomes won and the camera stays; otherwise the player respawns with the camera at 0 exactly when it overlaps an obstacle, and keeps its clamped position with the camera eased otherwise |
| GameWorld.StepKeepsBounds | app/game/game-canvas.tsx:141-184 | after a tick x is non-negative, the size is kept, the player is inside a canvas at least 120 tall, and a camera inside [0, 3000 - width] stays there |
| GameWorld.StepWinsOnlyAtFinish | app/game/game-canvas.tsx:155-159 | a tick ends in the won state exactly when the clamped player's right edge passes 2900 |
| GameLoop.GameCanvas.constructor | app/game/game-canvas.tsx:24-27 | the initial refs: player at (50, 300), 60 by 60, speed 5; camera 0; no obstacles; start state |
| GameLoop.GameCanvas.Reset | app/game/game-canvas.tsx:110-130 | the player at (50, height/2) with speed 4; a fresh array of 15 obstacles, the i-th built from the i-th draw; camera 0; playing |
| GameLoop.GameCanvas.StartGame | app/game/game-canvas.tsx:106-132 | the reset followed by the first tick: the state is one `Step` from the reset world over the new obstacles |
| GameLoop.GameCanvas.Tick | app/game/game-canvas.tsx:141-184 | the new player, camera and state are `Step` of the old ones; the obstacles are untouched; another frame is requested exactly when the player did not reach the finish; afterwards x is non-negative, the player is inside a canvas at least 120 tall, and a camera inside [0, 3000 - width] stays there |
| GameLoop.GameCanvas.MovePlayer | app/game/game-canvas.tsx:145-148 | the in-place key moves equal `Move`; camera, obstacles and state unchanged |
| GameLoop.GameCanvas.ClampPlayer | app/game/game-canvas.tsx:151-153 | the in-place boundary checks equal `Clamp`; camera, obstacles and state unchanged |
| GameLoop.GameCanvas.CheckCollisions | app/game/game-canvas.tsx:172-184 | the in-place loop over the obstacle array equals `CollideAll` over its contents |

## Left out

- Rendering (`app/game/game-canvas.tsx`:186-251), the React component tree, image loading and the SVG assets: none of these changes game state.
- The start and win screens (`app/game/game-canvas.tsx`:267-300): their "Start!" and "Play Again" buttons only set the state to playing, and the effect at lines 256-265 then sizes the canvas to the window and calls `startGame`, which is `StartGame`; the window-sized canvas is its `viewW`/`viewH` parameters.
- The keyboard listeners and the Escape key's navigation: the held keys are a `Keys` parameter of `Tick`.
- `requestAnimationFrame`: `Tick` returns whether the loop asks for another frame instead of scheduling one.
- The early returns when the canvas or its 2D context is missing: the model always has a canvas, given by its width and height.
- The server-rendering branch (`typeof window === 'undefined'`) of the managers: the model always runs with a store.
- `JSON.stringify`/`JSON.parse`: the store holds decoded values. Malformed JSON, and a key holding a value the program never writes there (a score list under the profiles key, say), are excluded by the `ProfilesShaped`, `CurrentShaped` and `ScoresShaped` preconditions. Both records the program writes under the current-player key are modelled. An empty stored string is falsy in the source and reads as the default; the model has no such value, so it reads the same as an absent key.
- `crypto.randomUUID()`, `Date.now()` and `Math.random()`: their results are parameters. Random draws are assumed to lie in [0, 1).
- IEEE 754 doubles: coordinates and scores are exact reals, so rounding, NaN and infinities are not modelled. With doubles, `b.score - a.score` as a comparator can misbehave on NaN, and the model has none.
- The `lost` game state: the source declares it but never enters it.
- The settings page, the profile and leaderboard pages, and the rest of the profile form (the Supabase upload and the FileReader fallback that produce its avatar URL): the pages reach the stored profiles and scores only through the modelled manager operations, and the form's one write to the store is `SaveFormPlayer`. The settings page's own key, `kids-game-settings`, is not part of this model.
- Profiles.SaveFormPlayer: the default avatar is a parameter, because its value is a base64 data URL computed by `btoa` (app/game/player-assets.ts:25).
- GameWorld.StepKeepsBounds: the vertical bound is proved only for canvases at least 120 tall. After a respawn the player's y is half the canvas height with no clamp, so on a shorter canvas its bottom edge lies below the canvas.
