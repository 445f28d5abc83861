// The game container the application mounts (GameContainer.tsx). Besides the
// active piece and the landed pieces it keeps a running flag and an elapsed
// time counter, and it has start, stop and reset handlers. Its collision layer
// is always empty. An active piece without a shape (the `{}` object the source
// uses) is `None` here. The 1000 ms timer and React's effect scheduling are
// replaced by explicit calls to `RunEffect`, `Tick` and `MergeIfCollided`.
module MountedGame {
  import opened TetrisTypes
  import opened Catalog
  import opened Engine

  class MountedSession {
    var isRunning: bool
    var currentBlock: CurrentBlock
    var dormantBlocks: seq<TetrisBlock>
    var elapsedTime: nat
    /** Which catalog entry the active piece was drawn from, and how many
        gravity steps it has taken since. */
    ghost var kind: nat
    ghost var drops: nat

    /** The active piece is always a catalog piece moved down `drops` rows,
        and every landed piece is a four-cell piece facing "N". */
    ghost predicate Valid()
      reads this
    {
      && (currentBlock.Some? ==>
            kind < |Entities| && currentBlock.value == FallN(Entities[kind], drops))
      && forall k :: 0 <= k < |dormantBlocks| ==>
            |dormantBlocks[k].shape| == 4 && dormantBlocks[k].orientation == N
    }

    /** The memoised `isCollided`, against the always-empty layer. */
    function Collided(): bool
      reads this
    {
      MountedIsCollided(currentBlock, MountedCollisionLayer())
    }

    /** Initial state: running, no shape, nothing landed, no time elapsed. */
    constructor ()
      ensures Valid()
      ensures isRunning && currentBlock == None && dormantBlocks == [] && elapsedTime == 0
    {
      isRunning := true;
      currentBlock := None;
      dormantBlocks := [];
      elapsedTime := 0;
      kind, drops := 0, 0;
    }

    /** `handleStart`: only sets the running flag. */
    method HandleStart()
      modifies this
      ensures isRunning
      ensures currentBlock == old(currentBlock) && dormantBlocks == old(dormantBlocks)
      ensures elapsedTime == old(elapsedTime) && kind == old(kind) && drops == old(drops)
    {
      isRunning := true;
    }

    /** `handleStop`: only clears the running flag. */
    method HandleStop()
      modifies this
      ensures !isRunning
      ensures currentBlock == old(currentBlock) && dormantBlocks == old(dormantBlocks)
      ensures elapsedTime == old(elapsedTime) && kind == old(kind) && drops == old(drops)
    {
      isRunning := false;
    }

    /** `handleReset`: stops and zeroes the clock, but leaves the active piece
        and the landed pieces where they are. */
    method HandleReset()
      modifies this
      ensures !isRunning && elapsedTime == 0
      ensures currentBlock == old(currentBlock) && dormantBlocks == old(dormantBlocks)
      ensures kind == old(kind) && drops == old(drops)
    {
      isRunning := false;
      elapsedTime := 0;
    }

    /** `generateNewBlock`: the active piece becomes catalog entry `pick`. */
    method GenerateNewBlock(pick: nat)
      requires Valid() && pick < |Entities|
      modifies this
      ensures Valid()
      ensures currentBlock == Some(Entities[pick]) && kind == pick && drops == 0
      ensures dormantBlocks == old(dormantBlocks) && isRunning == old(isRunning)
      ensures elapsedTime == old(elapsedTime)
    {
      currentBlock := Some(Catalog.GenerateNewBlock(pick));
      kind, drops := pick, 0;
    }

    /** `initGame`: with no shape it spawns a piece and returns without
        starting the timer; otherwise it starts the timer (`started`) and
        changes nothing. */
    method InitGame(pick: nat) returns (started: bool)
      requires Valid() && pick < |Entities|
      modifies this
      ensures Valid()
      ensures started == old(currentBlock).Some?
      ensures old(currentBlock).None? ==> currentBlock == Some(Entities[pick]) && kind == pick && drops == 0
      ensures old(currentBlock).Some? ==>
                currentBlock == old(currentBlock) && kind == old(kind) && drops == old(drops)
      ensures dormantBlocks == old(dormantBlocks) && isRunning == old(isRunning)
      ensures elapsedTime == old(elapsedTime)
    {
      if currentBlock.None? {
        GenerateNewBlock(pick);
        return false;
      }
      started := true;
    }

    /** The effect on `isRunning`: runs `initGame` only while running. */
    method RunEffect(pick: nat) returns (started: bool)
      requires Valid() && pick < |Entities|
      modifies this
      ensures Valid()
      ensures started == (isRunning && old(currentBlock).Some?)
      ensures isRunning && old(currentBlock).None? ==>
                currentBlock == Some(Entities[pick]) && kind == pick && drops == 0
      ensures !isRunning || old(currentBlock).Some? ==>
                currentBlock == old(currentBlock) && kind == old(kind) && drops == old(drops)
      ensures dormantBlocks == old(dormantBlocks) && isRunning == old(isRunning)
      ensures elapsedTime == old(elapsedTime)
    {
      started := false;
      if isRunning {
        started := InitGame(pick);
      }
    }

    /** One firing of the timer: the clock advances by one second and every
        cell of the active piece moves down one row; without a shape the piece
        is left as it is but the clock still advances. */
    method Tick()
      requires Valid()
      modifies this
      ensures Valid()
      ensures elapsedTime == old(elapsedTime) + 1
      ensures currentBlock == GravityStep(old(currentBlock))
      ensures kind == old(kind) && drops == old(drops) + 1
      ensures currentBlock.Some? ==>
                && |currentBlock.value.shape| == |old(currentBlock).value.shape|
                && forall i :: 0 <= i < |currentBlock.value.shape| ==>
                     currentBlock.value.shape[i].x == old(currentBlock).value.shape[i].x
                     && currentBlock.value.shape[i].y == old(currentBlock).value.shape[i].y + 1
      ensures dormantBlocks == old(dormantBlocks) && isRunning == old(isRunning)
    {
      elapsedTime := elapsedTime + 1;
      currentBlock := GravityStep(currentBlock);
      drops := drops + 1;
    }

    /** The merge effect: on collision the active piece is appended to the
        landed list and replaced by catalog entry `pick`; otherwise nothing
        changes. Only reaching row 20 can trigger it. */
    method MergeIfCollided(pick: nat) returns (merged: bool)
      requires Valid() && pick < |Entities|
      modifies this
      ensures Valid()
      ensures merged <==>
                (old(currentBlock).Some? &&
                 exists i :: 0 <= i < |old(currentBlock).value.shape| && old(currentBlock).value.shape[i].y >= Grid.y)
      ensures merged ==> dormantBlocks == old(dormantBlocks) + [old(currentBlock).value]
      ensures merged ==> currentBlock == Some(Entities[pick]) && kind == pick && drops == 0
      ensures !merged ==>
                && currentBlock == old(currentBlock) && dormantBlocks == old(dormantBlocks)
                && kind == old(kind) && drops == old(drops)
      ensures isRunning == old(isRunning) && elapsedTime == old(elapsedTime)
    {
      MountedIsCollidedIff(currentBlock);
      merged := Collided();
      if merged {
        var landed := currentBlock.value;
        FallNKeepsShapeSize(Entities[kind], drops);
        EntitiesAreSpawnPieces();
        dormantBlocks := dormantBlocks + [landed];
        currentBlock := None;
        GenerateNewBlock(pick);
      }
    }

    /** The landed pieces hold four cells each, so flattening them gives four
        cells per landed piece (the mounted container never builds this layer,
        but its landed list has the same shape as the clean one's). */
    lemma LandedHoldFourCellsEach()
      requires Valid()
      ensures |CollisionLayer(dormantBlocks)| == 4 * |dormantBlocks|
    {
      CollisionLayerLength(dormantBlocks);
    }

    /** The active piece collides exactly once it has taken 21 gravity steps
        since it spawned, whatever has landed before. */
    lemma CollidesAfter21Drops()
      requires Valid() && currentBlock.Some?
      ensures Collided() <==> drops >= 21
    {
      EntitiesAreSpawnPieces();
      SpawnLandsOnStep21(Entities[kind], drops);
    }
  }
}
