# Falling-block game engine — a Dafny model

This project models the game logic of a small browser falling-block puzzle
written in TypeScript and React. It covers these parts:

- **Types** (`types.dfy`, module `TetrisTypes`). Cell positions, grid sizes,
  the colour, orientation and piece-name unions, pieces, and the optional
  active piece (`None` is "no active piece").
- **Catalog** (`catalog.dfy`). The seven spawnable pieces. Both game
  containers list the same seven pieces, so the list is defined once. The
  random draw is a parameter `pick < 7`.
- **Engine** (`engine.dfy`). The board size (10 × 20), the gravity step,
  the collision layer flattened from the landed pieces, and the two
  variants of `isCollided`. The clean container compares each cell's
  diagonal neighbour `(x+1, y+1)` with the layer. The mounted container
  compares cells exactly, but its layer is always empty. Both quirks are
  kept as written. On an empty board (and always in the mounted container)
  a piece is detected as landed only by the bottom bound, once one of its
  cells reaches row 20, one row below the visible board.
- **Clean container** (`clean_session.dfy`, class `CleanGame.CleanSession`).
  Its state is the active piece, the landed pieces and a running flag. It
  has the spawn step, the gravity tick and the merge effect.
- **Mounted container** (`mounted_session.dfy`, class
  `MountedGame.MountedSession`). The same state plus an elapsed-time
  counter, and the start, stop and reset handlers. The shapeless `{}` piece
  the source uses is `None`.
- **Next-piece preview** (`preview.dfy`). Which cells of the 4 × 6 preview
  grid are painted, and with which colour.
- **Time formatter** (`time_format.dfy`). `formatTime`, shared by the
  settings panel and the scores table. It is modelled with JavaScript's
  floor division, truncating `%`, `toString` and `padStart`.
- **Scores table** (`scores_table.dfy`, class `Scores.ScoresTable`). The
  trophy for ranks 1–3, the 2000 ms fetch throttle, the in-flight guard and
  the refresh trigger. One consequence is visible in `OnRefreshTrigger`: the
  trigger value is recorded even when the throttle drops the fetch, so that
  refresh is lost.

Timers, React effects and `Date.now()` become explicit calls and
parameters. `RunEffect` is the effect that starts the game. `Tick` is one
firing of the interval. `MergeIfCollided` is the merge effect. The request
to the score service is split into `BeginFetch` and `CompleteFetch`. Its
outcome (`FetchOutcome`) is a parameter.

Both session classes keep two ghost fields: the catalog entry the active
piece came from, and the number of gravity steps since it spawned. The
invariant `Valid()` ties the active piece to them. From this the model
proves that on an empty board a piece merges on exactly the 21st gravity
step. In the mounted container this holds whatever has landed before.

The code has no rotation, line clearing, scoring or game-over logic. In
the mounted container, and in the clean one on an empty board, a piece
merges when one of its cells reaches row 20, on the 21st gravity step after
it spawns. In the clean container, a piece can merge earlier once other
pieces have landed, through the diagonal test.

## Model

| member | source | states |
|---|---|---|
| TetrisTypes.OrientationValues | src/types/tetris.ts:21 | Orientation has exactly the four values N, E, S, W, and their literals are distinct |
| TetrisTypes.NameAndColorValues | src/types/tetris.ts:12-23 | BlockName and TetrisColor each have exactly seven values with pairwise distinct literals |
| Catalog.EntitiesAreSpawnPieces | src/components/GameContainer-clean.tsx:21-102 | the catalog has 7 entries (I O T S Z J L with their fixed colours, in order); each has 4 cells, orientation N, no pivot flag, x in {4,5}, y in [-4,-1], and a lowest cell at y = -1 |
| Catalog.GenerateNewBlock | src/components/GameContainer-clean.tsx:121-125 | the draw with index `pick` is catalog entry `pick`, and it is a spawn piece |
| Engine.FallCells | src/components/GameContainer-clean.tsx:138-141 | the cell map keeps the count and order of the cells; each new cell is (x, y+1) with no pivot flag |
| Engine.FallBlock | src/components/GameContainer-clean.tsx:136-142 | one gravity step adds 1 to every y and keeps every x, the name, colour, orientation and cell count |
| Engine.GravityStep | src/components/GameContainer-clean.tsx:133-143 | the tick's updater is the identity with no active piece and a gravity step otherwise |
| Engine.FallNCells | src/components/GameContainer.tsx:176-184 | after n >= 1 steps every cell is (x, y+n); name, colour, orientation and cell count are unchanged |
| Engine.FallNKeepsShapeSize | src/components/GameContainer.tsx:176-184 | any number of gravity steps keeps the cell count and the orientation |
| Engine.CollisionLayerAppend | src/components/GameContainer-clean.tsx:104-106 | appending a landed piece appends its cells to the layer, after the earlier cells |
| Engine.CollisionLayer | src/components/GameContainer-clean.tsx:104-106 | a position is in the layer iff it is a cell of some landed piece |
| Engine.CollisionLayerLength | src/components/GameContainer-clean.tsx:104-106 | with four-cell pieces the layer has 4 × (number of landed pieces) cells |
| Engine.IsCollided | src/components/GameContainer-clean.tsx:108-119 | the clean test holds iff there is a piece and some cell has y >= 20 or some cell (x, y) has (x+1, y+1) in the layer; false without a piece or with an empty shape |
| Engine.MountedCollisionLayer | src/components/GameContainer.tsx:131-133 | the mounted container's layer is empty |
| Engine.MountedIsCollided | src/components/GameContainer.tsx:135-145 | the mounted test holds iff there is a piece and some cell has y >= 20 or lies exactly on a landed cell |
| Engine.MountedIsCollidedIff | src/components/GameContainer.tsx:135-145 | with the empty layer the mounted test holds iff there is a piece and some cell has y >= 20; false without a shape |
| Engine.SpawnLandsOnStep21 | src/components/GameContainer.tsx:142 | a spawn piece on an empty board is not collided after n <= 20 steps and is collided after n >= 21, by both tests; after 21 steps its lowest cell is on row 20 |
| CleanGame.CleanSession.constructor | src/components/GameContainer-clean.tsx:16-18 | the game starts running, with no active piece and nothing landed |
| CleanGame.CleanSession.GenerateNewBlock | src/components/GameContainer-clean.tsx:121-125 | the active piece becomes catalog entry `pick`, with no gravity steps taken yet; the landed pieces are unchanged |
| CleanGame.CleanSession.InitGame | src/components/GameContainer-clean.tsx:127-145 | with no active piece it spawns one, with no gravity steps taken yet, and moves nothing; otherwise it starts the timer and changes nothing, not even the step count |
| CleanGame.CleanSession.RunEffect | src/components/GameContainer-clean.tsx:147-157 | `initGame` runs only while the game is running |
| CleanGame.CleanSession.Tick | src/components/GameContainer-clean.tsx:132-144 | the active piece takes one gravity step (each y + 1, each x kept), and the count of its gravity steps grows by 1; with none nothing changes; the landed pieces are unchanged |
| CleanGame.CleanSession.MergeIfCollided | src/components/GameContainer-clean.tsx:159-165 | it merges iff the clean test holds; on a merge the landed list grows by exactly the active piece, the layer grows by its cells, and the active piece becomes catalog entry `pick` (with its step count at 0); otherwise nothing changes, not even the step count |
| CleanGame.CleanSession.LayerHoldsFourCellsPerPiece | src/components/GameContainer-clean.tsx:104-106 | in every valid state the layer has four cells per landed piece |
| CleanGame.CleanSession.CollidesAfter21Drops | src/components/GameContainer-clean.tsx:115 | on an empty board the active piece collides iff it has taken at least 21 gravity steps since spawning |
| MountedGame.MountedSession.constructor | src/components/GameContainer.tsx:10-13 | running, no shape, nothing landed, elapsed time 0 |
| MountedGame.MountedSession.HandleStart | src/components/GameContainer.tsx:153-155 | only sets `isRunning` |
| MountedGame.MountedSession.HandleStop | src/components/GameContainer.tsx:157-159 | only clears `isRunning` |
| MountedGame.MountedSession.HandleReset | src/components/GameContainer.tsx:161-164 | clears `isRunning` and zeroes `elapsedTime`; the active piece and the landed pieces are untouched |
| MountedGame.MountedSession.GenerateNewBlock | src/components/GameContainer.tsx:147-151 | the active piece becomes catalog entry `pick`, with no gravity steps taken yet; nothing else changes |
| MountedGame.MountedSession.InitGame | src/components/GameContainer.tsx:166-187 | without a shape it spawns a piece, with no gravity steps taken yet, and moves nothing; otherwise it starts the timer and changes nothing, not even the step count |
| MountedGame.MountedSession.RunEffect | src/components/GameContainer.tsx:189-199 | `initGame` runs only while the game is running |
| MountedGame.MountedSession.Tick | src/components/GameContainer.tsx:171-186 | `elapsedTime` grows by exactly 1; every cell's y grows by 1 with x kept, and the count of gravity steps grows by 1; without a shape the piece is unchanged |
| MountedGame.MountedSession.MergeIfCollided | src/components/GameContainer.tsx:201-207 | it merges iff some cell has y >= 20; the landed list then grows by exactly the active piece and a catalog piece replaces it (with its step count at 0); otherwise nothing changes, not even the step count |
| MountedGame.MountedSession.LandedHoldFourCellsEach | src/components/GameContainer.tsx:201-207 | in every valid state the landed pieces flatten to four cells per landed piece |
| MountedGame.MountedSession.CollidesAfter21Drops | src/components/GameContainer.tsx:135-145 | the active piece collides iff it has taken at least 21 gravity steps since spawning, whatever has landed |
| Preview.IsBlockAtPosition | src/components/NextBlock.tsx:11-19 | a preview cell (x, y) is occupied iff a piece is shown and one of its cells p has p.x - 2 == x and p.y + 5 == y |
| Preview.BlockColorAtPosition | src/components/NextBlock.tsx:21-24 | with no piece every cell is "transparent"; an occupied cell gets the piece's colour; a cell is "transparent" iff it is not occupied |
| Preview.PaintedCellsBound | src/components/NextBlock.tsx:9-19 | no cell is painted without a piece; otherwise at most as many grid cells are painted as the shape has cells |
| Preview.CatalogFitsPreview | src/components/NextBlock.tsx:9-18 | every catalog cell maps into columns 2..3 and rows 1..4, inside the 4 × 6 grid, and paints its preview cell |
| TimeFormat.JsRemainder | src/components/GameSettings.tsx:34 | JavaScript `%` takes the sign of the dividend: for a >= 0 it is the mathematical remainder, and for a < 0 it is a − b·trunc(a/b), in (-b, 0] |
| TimeFormat.ParseNatToString | src/components/GameSettings.tsx:35-37 | reading `toString` of a non-negative integer back gives the integer |
| TimeFormat.PadStartShape | src/components/GameSettings.tsx:35-37 | `padStart` only prepends zeros and never truncates: the length is max(length, width) |
| TimeFormat.ClockRoundTrip | src/components/GameSettings.tsx:35-37 | the zero-padded minutes, ':' and the zero-padded seconds (below 60) read back as minutes · 60 + seconds |
| TimeFormat.FormatTime | src/components/GameSettings.tsx:32-38 | for s >= 0 the output is minutes ":" seconds, and reading it back as minutes · 60 + seconds gives s |
| TimeFormat.FormatTimeSecondsField | src/components/ScoresTable.tsx:32-38 | for s >= 0 the seconds field is always two digits, ':' before them, valued s mod 60 (00..59) |
| TimeFormat.FormatTimeLength | src/components/GameSettings.tsx:35-37 | the output has exactly 5 characters iff 0 <= s < 6000; beyond that the minutes field grows |
| TimeFormat.FormatTimeZero | src/components/GameSettings.tsx:32-38 | `formatTime(0)` is "00:00" |
| TimeFormat.FormatTimeMinusOne | src/components/ScoresTable.tsx:33-37 | a negative input shows the truncating remainder: -1 is shown as "-1:-1" |
| Scores.TrophyEmoji | src/components/ScoresTable.tsx:40-51 | rank 1 gets the trophy U+1F3C6, rank 2 the second-place medal U+1F948, rank 3 the third-place medal U+1F949 (one code point each), and every other rank gets "" |
| Scores.TrophyEmojiInjective | src/components/ScoresTable.tsx:40-51 | the three medals (trophy, silver, bronze) are pairwise different |
| Scores.FetchAllowed | src/components/ScoresTable.tsx:56-62 | a fetch goes ahead iff at least 2000 ms have passed since the last accepted fetch and no request is in flight |
| Scores.ThrottleWindow | src/components/ScoresTable.tsx:56-67 | after a fetch accepted at `now`, every fetch before `now + 2000` is refused, even once the request is over, and one from `now + 2000` on is allowed |
| Scores.ShouldRefresh | src/components/ScoresTable.tsx:92-97 | the refresh fires iff the trigger is present, positive and different from the last one recorded; the truthiness test adds nothing to `> 0` |
| Scores.RefreshFiresOnce | src/components/ScoresTable.tsx:92-100 | a trigger that fires is positive, and once recorded the same value no longer fires |
| Scores.ScoresTable.constructor | src/components/ScoresTable.tsx:22-28 | no scores, loading, no error, last trigger 0, no request in flight, last fetch at 0 |
| Scores.ScoresTable.BeginFetch | src/components/ScoresTable.tsx:53-67 | within 2000 ms of the last fetch, or with a request in flight, nothing changes; otherwise a request is marked in flight, loading is set, the error is cleared and `lastFetchTime := now` |
| Scores.ScoresTable.CompleteFetch | src/components/ScoresTable.tsx:69-84 | data replaces the scores; a failure or exception keeps the scores and sets "Failed to load scores"; loading and the in-flight flag always end false |
| Scores.ScoresTable.FetchScores | src/components/ScoresTable.tsx:53-85 | a throttled or overlapping fetch changes nothing; an accepted one ends with `lastFetchTime == now`, loading and the in-flight flag false, and the scores or the error set by the outcome |
| Scores.ScoresTable.OnRefreshTrigger | src/components/ScoresTable.tsx:92-102 | it fetches only for a positive trigger that differs from the last one, and records that trigger even when the throttle or the in-flight guard drops the fetch; a dropped fetch changes nothing else; a fetch that runs sets `lastFetchTime`, ends with loading and the in-flight flag false, and sets the scores or the error by the outcome; afterwards the same value no longer fires |

## Left out

- Rendering: the JSX trees, CSS classes, `Cell.tsx` and `App.tsx` are not modelled. They only display state.
- Timers and scheduling are not modelled: `setInterval`/`clearInterval`, the 200 ms and 1000 ms periods, and React's effect and dependency scheduling. That includes the interval being re-created whenever the active piece changes. Each timer firing or effect run is an explicit method call, and any order of calls is allowed.
- `Math.random` in `generateNewBlock` is the parameter `pick` in [0, 7). Fairness of the draw is not modelled.
- `Date.now()`, `async`/`await` and the stale closure values that `fetchScores` reads are not modelled. The clock value is a parameter, and the request is split into a start and a completion.
- `src/hooks/useSupabase.ts` is not part of this model. `getHighScores` is reduced to its outcome (`FetchOutcome`), and `saveScore` is not used by the modelled code.
- The `bad-words` filter applied to player names is not modelled. It is a foreign library that only affects display.
- The settings panel's volume, mute, grid toggle and delay slider are not modelled. They are UI properties with no logic behind them in the code.
- Preview.AdjustedX: `Math.round(x - 2.5)` is modelled as the integer shift `x - 2`. This holds for integer x under JavaScript's round-half-up. Floating-point rounding in general is not modelled.
- TimeFormat.FormatTime is modelled on unbounded integers only. A fractional number of seconds is not modelled. A JavaScript number loses integer precision above 2^53, and `toString` switches to exponent notation from 1e21, so the round trip and the growth of the minutes field (`FormatTimeLength`) hold in JavaScript only below those bounds.
- Rotation, line clearing, scoring, pause and game-over phases, and use of the pivot flag are not modelled. The code does not implement them.
