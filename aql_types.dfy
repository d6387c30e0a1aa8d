/** Values shared by every part of the AQL block/row execution framework:
    the three-valued execution state, rows, item blocks and the block pool. */
module AqlTypes {

  datatype Option<+T> = None | Some(value: T)

  /** The signal every pull operation returns. WAITING asks the caller to
      repeat the identical call later; DONE means no more data will come. */
  datatype ExecutionState = WAITING | HASMORE | DONE

  type RegisterId = nat

  /** A row maps each register that holds a value to that value; a register
      that was never written is absent. Cell contents are plain integers. */
  type Row = map<RegisterId, int>

  type BlockId = nat

  /** An `AqlItemBlock`: `size` rows of `nrRegs` registers. `rows` are the
      rows that hold data; a block fresh from the manager has none yet. */
  datatype Block = Block(id: BlockId, size: nat, nrRegs: nat, rows: seq<Row>)

  /** An upstream block is handed over filled and never empty. */
  ghost predicate IsFilled(b: Block)
  {
    |b.rows| == b.size && b.size > 0
  }

  /** The number of rows an upstream execution block is asked for by the
      fetchers (`ExecutionBlock::DefaultBatchSize()`). */
  const DefaultBatchSize: nat := 1000

  /** The item block manager reduced to its accounting: the ids of the
      blocks that are handed out and not yet returned, and the next id. */
  datatype Pool = Pool(live: set<BlockId>, next: BlockId)

  ghost predicate PoolValid(p: Pool)
  {
    forall id :: id in p.live ==> id < p.next
  }

  /** `requestBlock(nrItems, nrRegs)`: an empty block of the requested
      shape, under an id that was not live before. */
  function RequestBlock(p: Pool, nrItems: nat, nrRegs: nat): (r: (Block, Pool))
    requires PoolValid(p)
    ensures PoolValid(r.1)
    ensures r.0.id !in p.live && r.1.live == p.live + {r.0.id}
    ensures r.0.size == nrItems && r.0.nrRegs == nrRegs && r.0.rows == []
  {
    (Block(p.next, nrItems, nrRegs, []), Pool(p.live + {p.next}, p.next + 1))
  }

  /** `returnBlock(block)`: the block is no longer live. */
  function ReturnBlock(p: Pool, b: Block): (r: Pool)
    requires PoolValid(p)
    ensures PoolValid(r)
    ensures b.id !in r.live && r.live + {b.id} == p.live + {b.id}
  {
    Pool(p.live - {b.id}, p.next)
  }
}
