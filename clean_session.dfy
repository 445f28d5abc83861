// The clean game container (GameContainer-clean.tsx) as a state machine: an
// optional active piece, the list of landed ("dormant") pieces and a running
// flag, changed by the spawn step, the 200 ms gravity tick and the merge
// effect. The timer and React's effect scheduling are replaced by explicit
// calls to `RunEffect`, `Tick` and `MergeIfCollided`.
module CleanGame {
  import opened TetrisTypes
  import opened Catalog
  import opened Engine

  class CleanSession {
    var isRunning: bool
    var currentBlock: CurrentBlock
    var dormantBlocks: seq<TetrisBlock>
    /** Which catalog entry the active piece was drawn from, and how many
        gravity steps it has taken since. */
    ghost var kind: nat
    ghost var drops: nat

    /** The active piece is always a catalog piece moved down `drops` rows,
        and every landed piece is a four-cell piece facing "N". */
    ghost predicate Valid()
      reads this
    {
      && (currentBlock.Some? ==>
            kind < |Entities| && currentBlock.value == FallN(Entities[kind], drops))
      && forall k :: 0 <= k < |dormantBlocks| ==>
            |dormantBlocks[k].shape| == 4 && dormantBlocks[k].orientation == N
    }

    /** The memoised `collisionLayer`. */
    function Layer(): seq<Position>
      reads this
    {
      CollisionLayer(dormantBlocks)
    }

    /** The memoised `isCollided`. */
    function Collided(): bool
      reads this
    {
      IsCollided(currentBlock, Layer())
    }

    /** Initial state: running, no active piece, nothing landed. */
    constructor ()
      ensures Valid()
      ensures isRunning && currentBlock == None && dormantBlocks == []
    {
      isRunning := true;
      currentBlock := None;
      dormantBlocks := [];
      kind, drops := 0, 0;
    }

    /** `generateNewBlock`: the active piece becomes catalog entry `pick`. */
    method GenerateNewBlock(pick: nat)
      requires Valid() && pick < |Entities|
      modifies this
      ensures Valid()
      ensures currentBlock == Some(Entities[pick]) && kind == pick && drops == 0
      ensures dormantBlocks == old(dormantBlocks) && isRunning == old(isRunning)
    {
      currentBlock := Some(Catalog.GenerateNewBlock(pick));
      kind, drops := pick, 0;
    }

    /** `initGame`: with no active piece it spawns one and returns without
        starting the timer; otherwise it starts the gravity timer (`started`)
        and changes nothing. */
    method InitGame(pick: nat) returns (started: bool)
      requires Valid() && pick < |Entities|
      modifies this
      ensures Valid()
      ensures started == old(currentBlock).Some?
      ensures old(currentBlock).None? ==> currentBlock == Some(Entities[pick]) && kind == pick && drops == 0
      ensures old(currentBlock).Some? ==>
                currentBlock == old(currentBlock) && kind == old(kind) && drops == old(drops)
      ensures dormantBlocks == old(dormantBlocks) && isRunning == old(isRunning)
    {
      if currentBlock.None? {
        GenerateNewBlock(pick);
        return false;
      }
      started := true;
    }

    /** The effect on `isRunning`: runs `initGame` only while running. */
    method RunEffect(pick: nat) returns (started: bool)
      requires Valid() && pick < |Entities|
      modifies this
      ensures Valid()
      ensures started == (isRunning && old(currentBlock).Some?)
      ensures isRunning && old(currentBlock).None? ==>
                currentBlock == Some(Entities[pick]) && kind == pick && drops == 0
      ensures !isRunning || old(currentBlock).Some? ==>
                currentBlock == old(currentBlock) && kind == old(kind) && drops == old(drops)
      ensures dormantBlocks == old(dormantBlocks) && isRunning == old(isRunning)
    {
      started := false;
      if isRunning {
        started := InitGame(pick);
      }
    }

    /** One firing of the gravity timer: every cell of the active piece moves
        down one row; with no active piece nothing changes. */
    method Tick()
      requires Valid()
      modifies this
      ensures Valid()
      ensures currentBlock == GravityStep(old(currentBlock))
      ensures kind == old(kind) && drops == old(drops) + 1
      ensures currentBlock.Some? ==>
                && |currentBlock.value.shape| == |old(currentBlock).value.shape|
                && forall i :: 0 <= i < |currentBlock.value.shape| ==>
                     currentBlock.value.shape[i].x == old(currentBlock).value.shape[i].x
                     && currentBlock.value.shape[i].y == old(currentBlock).value.shape[i].y + 1
      ensures dormantBlocks == old(dormantBlocks) && isRunning == old(isRunning)
    {
      currentBlock := GravityStep(currentBlock);
      drops := drops + 1;
    }

    /** The merge effect: on collision the active piece is appended to the
        landed list (earlier entries untouched) and replaced by catalog entry
        `pick`; otherwise nothing changes. */
    method MergeIfCollided(pick: nat) returns (merged: bool)
      requires Valid() && pick < |Entities|
      modifies this
      ensures Valid()
      ensures merged == old(Collided())
      ensures merged ==> old(currentBlock).Some?
      ensures merged ==> dormantBlocks == old(dormantBlocks) + [old(currentBlock).value]
      ensures merged ==> currentBlock == Some(Entities[pick]) && kind == pick && drops == 0
      ensures merged ==> Layer() == old(Layer()) + old(currentBlock).value.shape
      ensures !merged ==>
                && currentBlock == old(currentBlock) && dormantBlocks == old(dormantBlocks)
                && kind == old(kind) && drops == old(drops)
      ensures isRunning == old(isRunning)
    {
      merged := Collided();
      if merged && currentBlock.Some? {
        var landed := currentBlock.value;
        FallNKeepsShapeSize(Entities[kind], drops);
        EntitiesAreSpawnPieces();
        CollisionLayerAppend(dormantBlocks, landed);
        dormantBlocks := dormantBlocks + [landed];
        currentBlock := None;
        GenerateNewBlock(pick);
      }
    }

    /** The landed cells number exactly four per landed piece. */
    lemma LayerHoldsFourCellsPerPiece()
      requires Valid()
      ensures |Layer()| == 4 * |dormantBlocks|
    {
      CollisionLayerLength(dormantBlocks);
    }

    /** On an empty board the active piece collides exactly once it has taken
        21 gravity steps since it spawned. */
    lemma CollidesAfter21Drops()
      requires Valid() && dormantBlocks == [] && currentBlock.Some?
      ensures Collided() <==> drops >= 21
    {
      EntitiesAreSpawnPieces();
      SpawnLandsOnStep21(Entities[kind], drops);
    }
  }
}
