/** `ExecutionBlockImpl<Executor>` as an object: its fields are updated in
    place by `getSome`, `skipSome`, `initializeCursor` and the destructor,
    and each method is proved to do what the value-level driver in module
    `ExecutionBlock` does. */
module ExecutionBlockImplementation {
  import opened AqlTypes
  import opened BlockFetcher
  import opened ExecutionBlock

  /** `row` restricted to the registers in `keep`. */
  function Restrict(row: Row, keep: set<RegisterId>): (r: Row)
    ensures r.Keys == row.Keys * keep
    ensures forall reg :: reg in r ==> r[reg] == row[reg]
  {
    map reg | reg in row.Keys && reg in keep :: row[reg]
  }

  /** The block the `IdExecutor` specialisation of `initializeCursor`
      injects: row `pos` of `items` with only the registers to keep (the
      `slice`), or, without `items`, a one-row block with no value set,
      freshly requested with the executor's output register count. Either
      way it is a new block, lent out by the manager. */
  function IdInputBlock(cfg: Config, pool: Pool, items: Option<Block>, pos: nat): (r: (Block, Pool))
    requires PoolValid(pool)
    requires items.Some? ==> pos < |items.value.rows|
    ensures PoolValid(r.1)
    ensures r.0.id !in pool.live && r.1.live == pool.live + {r.0.id}
    ensures r.0.size == 1 && |r.0.rows| == 1
    ensures items.Some? ==> r.0.nrRegs == items.value.nrRegs
                            && r.0.rows[0].Keys == items.value.rows[pos].Keys * cfg.registersToKeep
                            && forall reg :: reg in r.0.rows[0] ==> r.0.rows[0][reg] == items.value.rows[pos][reg]
    ensures items.None? ==> r.0.nrRegs == cfg.nrOutputRegisters && r.0.rows == [map[]]
  {
    if items.Some? then
      var (b, p) := RequestBlock(pool, 1, items.value.nrRegs);
      (b.(rows := [Restrict(items.value.rows[pos], cfg.registersToKeep)]), p)
    else
      var (b, p) := RequestBlock(pool, 1, cfg.nrOutputRegisters);
      (b.(rows := [map[]]), p)
  }

  class ExecutionBlockImpl {
    const cfg: Config
    var pool: Pool
    var outputItemRow: Option<OutputRow>
    var passThroughBlocks: seq<Block>
    var upstream: Upstream
    var exec: seq<ExecStep>
    var stats: int
    var injected: Option<InputShell>

    function State(): Driver
      reads this
    {
      Driver(pool, outputItemRow, passThroughBlocks, upstream, exec, stats, injected)
    }

    ghost predicate Valid()
      reads this
    {
      DriverOk(cfg, State())
    }

    /** A new block: no open batch, an empty pass-through queue, no
        statistics yet. */
    constructor (cfg: Config, pool: Pool, upstream: Upstream, exec: seq<ExecStep>)
      requires DriverOk(cfg, Driver(pool, None, [], upstream, exec, 0, None))
      ensures Valid() && this.cfg == cfg
      ensures State() == Driver(pool, None, [], upstream, exec, 0, None)
    {
      this.cfg := cfg;
      this.pool := pool;
      this.upstream := upstream;
      this.exec := exec;
      outputItemRow := None;
      passThroughBlocks := [];
      stats := 0;
      injected := None;
    }

    /** `pushPassThroughBlock`, the target of the pass-through callback. */
    method PushPassThroughBlock(b: Block)
      modifies this
      ensures passThroughBlocks == old(passThroughBlocks) + [b]
      ensures State() == old(State()).(passThrough := passThroughBlocks)
    {
      passThroughBlocks := passThroughBlocks + [b];
    }

    /** The block fetcher's `prefetchBlock`, calling back into this block. */
    method PrefetchBlock() returns (state: ExecutionState)
      requires Valid() && passThroughBlocks == []
      modifies this
      ensures Valid()
      ensures Prefetched(state, State()) == Prefetch(cfg, old(State()))
    {
      var (reply, rest) := BlockFetcher.GetSome(upstream, DefaultBatchSize);
      upstream := rest;
      if reply.block.Some? && CreatePassThroughCallback(cfg).Some? {
        PushPassThroughBlock(reply.block.value);
      }
      state := reply.state;
    }

    /** `requestWrappedBlock`, requesting a block from the manager only when
        it becomes the batch, and using a block that came with DONE. */
    method RequestWrappedBlock(nrItems: nat, nrRegs: nat) returns (state: ExecutionState, block: Option<Block>)
      requires Valid()
      modifies this
      ensures Valid()
      ensures Wrapped(state, block, State()) == RequestWrapped(cfg, old(State()), nrItems, nrRegs)
    {
      if cfg.allowsBlockPassthrough {
        if passThroughBlocks == [] {
          state := PrefetchBlock();
          if state == WAITING || (state == DONE && passThroughBlocks == []) {
            return state, None;
          }
        }
        block := Some(passThroughBlocks[0]);
        passThroughBlocks := passThroughBlocks[1..];
        state := HASMORE;
      } else {
        var (b, p) := RequestBlock(pool, nrItems, nrRegs);
        pool := p;
        state, block := HASMORE, Some(b);
      }
    }

    /** The executor's `produceRow`: its next scripted answer. */
    method ProduceRow() returns (step: ExecStep)
      modifies this
      ensures step == NextStep(old(exec)) && exec == RestSteps(old(exec))
      ensures State() == old(State()).(exec := exec)
    {
      step := NextStep(exec);
      exec := RestSteps(exec);
    }

    /** `getSomeWithoutTrace`. */
    method GetSome(atMost: nat) returns (state: ExecutionState, block: Option<Block>)
      requires Valid() && atMost > 0
      modifies this
      ensures Valid()
      ensures GetSomeResult(state, block, State()) == GetSomeSpec(cfg, old(State()), atMost)
    {
      if outputItemRow.None? {
        RequestWrappedContract(cfg, State(), atMost, cfg.nrOutputRegisters);
        state, block := RequestWrappedBlock(atMost, cfg.nrOutputRegisters);
        if state != HASMORE {
          return state, None;
        }
        outputItemRow := Some(OutputRow(block.value, []));
      }
      state, block := FillBatch();
    }

    /** The loop of `getSomeWithoutTrace`: `produceRow` until the open
        batch is full or the executor answers WAITING or DONE. */
    method FillLoop() returns (state: ExecutionState)
      requires outputItemRow.Some?
      modifies this
      ensures var f := Fill(old(outputItemRow).value, old(exec), old(stats));
        state == f.state && outputItemRow == Some(f.out) && exec == f.exec && stats == f.stats
      ensures State() == old(State()).(output := outputItemRow, exec := exec, stats := stats)
    {
      ghost var f := Fill(outputItemRow.value, exec, stats);
      while !IsFull(outputItemRow.value)
        invariant outputItemRow.Some?
        invariant State() == old(State()).(output := outputItemRow, exec := exec, stats := stats)
        invariant Fill(outputItemRow.value, exec, stats) == f
        decreases |exec|
      {
        ghost var before := Fill(outputItemRow.value, exec, stats);
        var step := ProduceRow();
        assert before == if step.state == HASMORE then Fill(Commit(outputItemRow.value, step), exec, stats + step.stats)
                         else Filled(step.state, Commit(outputItemRow.value, step), exec, stats + step.stats);
        stats := stats + step.stats;
        outputItemRow := Some(Commit(outputItemRow.value, step));
        if step.state != HASMORE {
          return step.state;
        }
      }
      return HASMORE;
    }

    /** `getSomeWithoutTrace` once a batch is open: the loop, then the batch
        is kept on WAITING and handed on otherwise; on DONE with no row
        written it goes back to the manager instead. */
    method FillBatch() returns (state: ExecutionState, block: Option<Block>)
      requires Valid() && outputItemRow.Some?
      modifies this
      ensures Valid()
      ensures GetSomeResult(state, block, State()) == Continue(cfg, old(State()))
    {
      FillContract(outputItemRow.value, exec, stats);
      state := FillLoop();
      if state == WAITING {
        return WAITING, None;
      }
      var o := outputItemRow.value;
      outputItemRow := None;
      if state == DONE && o.rows == [] {
        pool := ReturnBlock(pool, o.block);
        return DONE, None;
      }
      return state, Some(StealBlock(o));
    }

    /** `skipSome`. */
    method SkipSome(atMost: nat) returns (state: ExecutionState, skipped: nat)
      requires Valid() && atMost > 0
      modifies this
      ensures Valid()
      ensures Skipped(state, skipped, State()) == SkipSomeSpec(cfg, old(State()), atMost)
    {
      var block: Option<Block>;
      state, block := GetSome(atMost);
      skipped := 0;
      if block.Some? {
        skipped := block.value.size;
        pool := ReturnBlock(pool, block.value);
      }
    }

    /** The destructor: an open batch is given back to the manager; nothing
        else changes. */
    method Destroy()
      requires Valid()
      modifies this
      ensures Valid() && outputItemRow.None?
      ensures old(outputItemRow).Some? ==> pool == ReturnBlock(old(pool), old(outputItemRow).value.block)
      ensures old(outputItemRow).None? ==> pool == old(pool)
      ensures State() == old(State()).(pool := pool, output := None)
    {
      if outputItemRow.Some? {
        var b := StealBlock(outputItemRow.value);
        outputItemRow := None;
        pool := ReturnBlock(pool, b);
      }
    }

    /** Re-creating the row fetcher drops the block injected into the old
        one, which goes back to the manager. */
    method ResetRowFetcher()
      requires Valid()
      modifies this
      ensures Valid() && injected.None?
      ensures old(injected).Some? ==> pool == ReturnBlock(old(pool), old(injected).value.block)
      ensures old(injected).None? ==> pool == old(pool)
      ensures State() == old(State()).(pool := pool, injected := None)
    {
      if injected.Some? {
        pool := ReturnBlock(pool, injected.value.block);
        injected := None;
      }
    }

    /** `initializeCursor`: fresh block fetcher, row fetcher and executor
        (the new executor answers `freshExec`); the answer is that of the
        upstream re-initialisation, `dependencyState`. The open batch and
        the pass-through queue are kept as they are. */
    method InitializeCursor(items: Option<Block>, pos: nat, freshExec: seq<ExecStep>,
                            dependencyState: ExecutionState) returns (state: ExecutionState)
      requires Valid()
      modifies this
      ensures Valid() && state == dependencyState
      ensures exec == freshExec && injected.None?
      ensures old(injected).Some? ==> pool == ReturnBlock(old(pool), old(injected).value.block)
      ensures old(injected).None? ==> pool == old(pool)
      ensures State() == old(State()).(pool := pool, exec := freshExec, injected := None)
    {
      ResetRowFetcher();
      exec := freshExec;
      state := dependencyState;
    }

    /** `initializeCursor` for the `IdExecutor`: as above, and the new row
        fetcher is given `IdInputBlock`, wrapped with the input registers,
        to read its one row from. */
    method InitializeCursorId(items: Option<Block>, pos: nat, freshExec: seq<ExecStep>,
                              dependencyState: ExecutionState) returns (state: ExecutionState)
      requires Valid()
      requires items.Some? ==> pos < |items.value.rows|
      modifies this
      ensures Valid() && state == dependencyState && exec == freshExec
      ensures var p := if old(injected).Some? then ReturnBlock(old(pool), old(injected).value.block) else old(pool);
              var (b, p') := IdInputBlock(cfg, p, items, pos);
              injected == Some(InputShell(b, cfg.inputRegisters)) && pool == p'
      ensures State() == old(State()).(pool := pool, exec := freshExec, injected := injected)
    {
      ResetRowFetcher();
      var (b, p) := IdInputBlock(cfg, pool, items, pos);
      pool := p;
      injected := Some(InputShell(b, cfg.inputRegisters));
      exec := freshExec;
      state := dependencyState;
    }
  }
}
