/** The execution-block driver (`ExecutionBlockImpl<Executor>`) on values:
    how `getSome` opens an output batch, lets the executor fill it row by
    row, and hands it on; how `requestWrappedBlock` obtains the batch; and
    what `skipSome` makes of it. The executor is scripted: each
    `produceRow` answers with the next `ExecStep`. The class
    `ExecutionBlockImpl` in execution_block_impl.dfy runs these steps in
    place. */
module ExecutionBlock {
  import opened AqlTypes
  import opened BlockFetcher

  /** One `produceRow` answer: the state, the row written to the output
      row if any (an executor writes at most one per call), and the
      executor statistics it reports. */
  datatype ExecStep = ExecStep(state: ExecutionState, row: Option<Row>, stats: int)

  /** The answer of the executor's next `produceRow`; an executor whose
      script is used up keeps answering DONE without a row. */
  function NextStep(exec: seq<ExecStep>): (s: ExecStep)
    ensures exec == [] ==> s.state == DONE
  {
    if exec == [] then ExecStep(DONE, None, 0) else exec[0]
  }

  function RestSteps(exec: seq<ExecStep>): (rest: seq<ExecStep>)
    ensures |rest| <= |exec| && exec == exec[..|exec| - |rest|] + rest
    ensures exec != [] ==> |rest| == |exec| - 1
  {
    if exec == [] then [] else exec[1..]
  }

  /** The row one `produceRow` answer wrote, if any. */
  function Written(step: ExecStep): (rows: seq<Row>)
    ensures |rows| <= 1
  {
    if step.row.Some? then [step.row.value] else []
  }

  /** The rows a run of `produceRow` calls writes, in order. */
  function Produced(steps: seq<ExecStep>): (rows: seq<Row>)
    ensures |rows| <= |steps|
  {
    if steps == [] then [] else Written(steps[0]) + Produced(steps[1..])
  }

  /** The executor statistics a run of `produceRow` calls adds up. */
  function StepStats(steps: seq<ExecStep>): int
  {
    if steps == [] then 0 else steps[0].stats + StepStats(steps[1..])
  }

  lemma {:induction false} ProducedAppend(a: seq<ExecStep>, b: seq<ExecStep>)
    ensures Produced(a + b) == Produced(a) + Produced(b)
    ensures StepStats(a + b) == StepStats(a) + StepStats(b)
  {
    if a != [] {
      assert (a + b)[1..] == a[1..] + b;
      ProducedAppend(a[1..], b);
    } else {
      assert a + b == b;
    }
  }

  /** What the driver knows of its executor: whether input blocks are
      reused as output blocks, and the register layout of its infos. */
  datatype Config = Config(allowsBlockPassthrough: bool, nrOutputRegisters: nat,
                           inputRegisters: set<RegisterId>, registersToKeep: set<RegisterId>)

  /** The callback handed to the block fetcher, which queues every fetched
      input block for reuse as an output block. */
  datatype PassThroughCallback = PushPassThroughBlock

  /** `createPassThroughCallback`: a callback exactly when the executor
      allows block pass-through. */
  function CreatePassThroughCallback(cfg: Config): (cb: Option<PassThroughCallback>)
    ensures cb.Some? <==> cfg.allowsBlockPassthrough
  {
    if cfg.allowsBlockPassthrough then Some(PushPassThroughBlock) else None
  }

  /** An `OutputAqlItemRow`: the output batch and the rows written to it so
      far. The batch is full when as many rows are written as it has room for. */
  datatype OutputRow = OutputRow(block: Block, rows: seq<Row>)

  predicate IsFull(o: OutputRow)
  {
    |o.rows| >= o.block.size
  }

  /** `stealBlock`: the batch, holding the rows written to it. */
  function StealBlock(o: OutputRow): (b: Block)
    ensures b.id == o.block.id && b.rows == o.rows && b.size == |o.rows| && b.nrRegs == o.block.nrRegs
  {
    Block(o.block.id, |o.rows|, o.block.nrRegs, o.rows)
  }

  /** The state of one execution block: the item block manager's
      accounting, the open output row (`_outputItemRow`), the pass-through
      queue (`_passThroughBlocks`), the upstream the block fetcher prefetches
      from, the executor's remaining answers, the engine statistics, and the
      block injected into the row fetcher by `initializeCursor`. */
  datatype Driver = Driver(pool: Pool, output: Option<OutputRow>, passThrough: seq<Block>,
                           prefetch: Upstream, exec: seq<ExecStep>, stats: int,
                           injected: Option<InputShell>)

  /** What a prefetch from upstream gives: the reply contract of any
      upstream (WAITING without a block, HASMORE with a filled one, DONE with
      or without its last block), and, when the executor passes input blocks
      through, a block has the executor's output register count (the
      register planning guarantees it; otherwise an input block may have
      fewer registers than the executor writes). */
  ghost predicate PrefetchOk(cfg: Config, r: Reply)
  {
    && ReplyOk(r)
    && (cfg.allowsBlockPassthrough && r.block.Some? ==> r.block.value.nrRegs == cfg.nrOutputRegisters)
  }

  ghost predicate DriverOk(cfg: Config, d: Driver)
  {
    && PoolValid(d.pool)
    && (forall i :: 0 <= i < |d.prefetch.replies| ==> PrefetchOk(cfg, d.prefetch.replies[i]))
    && |d.passThrough| <= 1
    && (!cfg.allowsBlockPassthrough ==> d.passThrough == [])
    && (forall i :: 0 <= i < |d.passThrough| ==>
          IsFilled(d.passThrough[i]) && d.passThrough[i].nrRegs == cfg.nrOutputRegisters)
    && (d.output.Some? ==> 0 < d.output.value.block.size && |d.output.value.rows| <= d.output.value.block.size)
  }

  /** The ids of the blocks the driver holds: the open output batch. */
  function HeldIds(d: Driver): set<BlockId>
  {
    if d.output.Some? then {d.output.value.block.id} else {}
  }

  function DeliveredIds(b: Option<Block>): set<BlockId>
  {
    if b.Some? then {b.value.id} else {}
  }

  datatype Prefetched = Prefetched(state: ExecutionState, driver: Driver)

  /** The block fetcher's `prefetchBlock`: one pull from upstream; a block
      that comes back is handed to the pass-through callback, if there is
      one. */
  function Prefetch(cfg: Config, d: Driver): (r: Prefetched)
    requires DriverOk(cfg, d) && d.passThrough == []
    ensures DriverOk(cfg, r.driver)
    ensures r.state == NextReply(d.prefetch).state
    ensures r.driver.prefetch == GetSome(d.prefetch, DefaultBatchSize).1
    ensures r.driver == d.(prefetch := r.driver.prefetch, passThrough := r.driver.passThrough)
    ensures r.state == WAITING ==> r.driver.passThrough == []
    ensures r.state == HASMORE && cfg.allowsBlockPassthrough ==> r.driver.passThrough != []
    ensures r.driver.passThrough == if cfg.allowsBlockPassthrough && NextReply(d.prefetch).block.Some?
                                    then [NextReply(d.prefetch).block.value] else []
  {
    var (reply, rest) := GetSome(d.prefetch, DefaultBatchSize);
    assert |d.prefetch.replies| > 0 ==> PrefetchOk(cfg, d.prefetch.replies[0]);
    var queue := if reply.block.Some? && CreatePassThroughCallback(cfg).Some? then [reply.block.value] else [];
    var d' := d.(prefetch := rest, passThrough := queue);
    assert forall i :: 0 <= i < |rest.replies| ==> rest.replies[i] == d.prefetch.replies[i + 1];
    Prefetched(reply.state, d')
  }

  datatype Wrapped = Wrapped(state: ExecutionState, block: Option<Block>, driver: Driver)

  /** `requestWrappedBlock`, corrected in two places: the block is
      requested from the manager only where it is used, and a block that
      upstream sent together with DONE is used rather than left queued.
      With pass-through, the output batch is the queued input block,
      prefetched first if the queue is empty; the call gives up only when
      nothing was queued (WAITING, or DONE without a block). Otherwise the
      batch is a fresh block of the requested shape. */
  function RequestWrapped(cfg: Config, d: Driver, nrItems: nat, nrRegs: nat): (r: Wrapped)
    requires DriverOk(cfg, d)
    ensures DriverOk(cfg, r.driver)
  {
    if cfg.allowsBlockPassthrough then
      var p := if d.passThrough == [] then Prefetch(cfg, d) else Prefetched(HASMORE, d);
      if p.state == WAITING || (p.state == DONE && p.driver.passThrough == []) then Wrapped(p.state, None, p.driver)
      else Wrapped(HASMORE, Some(p.driver.passThrough[0]), p.driver.(passThrough := []))
    else
      var (b, pool) := RequestBlock(d.pool, nrItems, nrRegs);
      Wrapped(HASMORE, Some(b), d.(pool := pool))
  }

  /** What `requestWrappedBlock` promises: a batch exactly on HASMORE. With
      pass-through, the queue is left empty, the batch is the block that was
      queued, or else the one a single prefetch brought (also when it came
      with DONE), and it has the requested register count; without a block
      the prefetch's WAITING or DONE is answered; nothing is taken from the
      manager. Without,
      the batch is a fresh block of the requested shape, and the manager
      lends out that block and no other. */
  lemma RequestWrappedContract(cfg: Config, d: Driver, nrItems: nat, nrRegs: nat)
    requires DriverOk(cfg, d)
    ensures var r := RequestWrapped(cfg, d, nrItems, nrRegs);
      && (r.block.Some? <==> r.state == HASMORE)
      && r.driver.output == d.output && r.driver.exec == d.exec && r.driver.stats == d.stats
      && (cfg.allowsBlockPassthrough ==>
            && r.driver.passThrough == [] && r.driver.pool == d.pool
            && (d.passThrough != [] ==> r.state == HASMORE && r.block.value == d.passThrough[0]
                                        && r.driver.prefetch == d.prefetch)
            && (d.passThrough == [] ==> r.block == NextReply(d.prefetch).block
                                        && r.state == (if r.block.Some? then HASMORE else NextReply(d.prefetch).state)
                                        && r.driver.prefetch == GetSome(d.prefetch, DefaultBatchSize).1)
            && (nrRegs == cfg.nrOutputRegisters && r.block.Some? ==>
                  r.block.value.nrRegs == nrRegs && IsFilled(r.block.value)))
      && (!cfg.allowsBlockPassthrough ==>
            && r.state == HASMORE && r.driver.prefetch == d.prefetch && r.driver.passThrough == []
            && r.block.value.id !in d.pool.live && r.driver.pool.live == d.pool.live + {r.block.value.id}
            && r.block.value.size == nrItems && r.block.value.nrRegs == nrRegs && r.block.value.rows == [])
  {
    if cfg.allowsBlockPassthrough && d.passThrough == [] {
      assert |d.prefetch.replies| > 0 ==> PrefetchOk(cfg, d.prefetch.replies[0]);
    }
  }

  /** `requestWrappedBlock` as written: `requestBlock` is called before the
      branch, so in pass-through mode the requested block is never used; and
      any DONE from the prefetch is answered without a batch, even when a
      block came with it and was queued. */
  function RequestWrappedAsWritten(cfg: Config, d: Driver, nrItems: nat, nrRegs: nat): (r: Wrapped)
    requires DriverOk(cfg, d)
    ensures DriverOk(cfg, r.driver)
  {
    var (b, pool) := RequestBlock(d.pool, nrItems, nrRegs);
    if cfg.allowsBlockPassthrough then
      var p := if d.passThrough == [] then Prefetch(cfg, d) else Prefetched(HASMORE, d);
      if p.state == WAITING || p.state == DONE then Wrapped(p.state, None, p.driver.(pool := pool))
      else Wrapped(HASMORE, Some(p.driver.passThrough[0]), p.driver.(passThrough := [], pool := pool))
    else Wrapped(HASMORE, Some(b), d.(pool := pool))
  }

  /** The prefetch of a pass-through call brings a block together with DONE. */
  ghost predicate LastBlockWithDone(cfg: Config, d: Driver)
  {
    cfg.allowsBlockPassthrough && d.passThrough == []
    && NextReply(d.prefetch).state == DONE && NextReply(d.prefetch).block.Some?
  }

  /** In pass-through mode the code as written leaves one more block lent
      out by the manager on every call, and that block is neither the
      batch handed back nor held anywhere: it is leaked. Apart from that,
      and from a block sent with DONE, it agrees with the corrected
      `RequestWrapped`. */
  lemma RequestWrappedAsWrittenLeaks(cfg: Config, d: Driver, nrItems: nat, nrRegs: nat)
    requires DriverOk(cfg, d)
    ensures var r := RequestWrappedAsWritten(cfg, d, nrItems, nrRegs);
            var w := RequestWrapped(cfg, d, nrItems, nrRegs);
      && (cfg.allowsBlockPassthrough ==>
            && d.pool.next !in d.pool.live && r.driver.pool.live == d.pool.live + {d.pool.next}
            && (!LastBlockWithDone(cfg, d) ==>
                  r.state == w.state && r.block == w.block && r.driver == w.driver.(pool := r.driver.pool)))
      && (!cfg.allowsBlockPassthrough ==> r == w)
  {
  }

  /** A block upstream sends together with DONE is stranded by the code as
      written: the call answers DONE with no batch while the block stays in
      the queue, so a caller that stops at DONE never sees its rows. The
      corrected `RequestWrapped` makes that block the batch. */
  lemma RequestWrappedAsWrittenStrands(cfg: Config, d: Driver, nrItems: nat, nrRegs: nat)
    requires DriverOk(cfg, d) && LastBlockWithDone(cfg, d)
    ensures var r := RequestWrappedAsWritten(cfg, d, nrItems, nrRegs);
            var w := RequestWrapped(cfg, d, nrItems, nrRegs);
      && r.state == DONE && r.block.None? && r.driver.passThrough == [NextReply(d.prefetch).block.value]
      && w.state == HASMORE && w.block == NextReply(d.prefetch).block && w.driver.passThrough == []
  {
  }

  /** A concrete pass-through call: the queued block becomes the batch and
      block 7, requested from the manager, stays lent out with no owner. */
  lemma RequestWrappedAsWrittenLeakExample()
    ensures var cfg := Config(true, 1, {0}, {0});
            var queued := Block(3, 1, 1, [map[0 := 5]]);
            var d := Driver(Pool({3}, 7), None, [queued], Upstream([], []), [], 0, None);
            var r := RequestWrappedAsWritten(cfg, d, 10, 1);
            && r.state == HASMORE && r.block == Some(queued) && r.driver.output.None?
            && r.driver.pool.live == {3, 7}
            && 7 !in d.pool.live && 7 !in HeldIds(r.driver) + DeliveredIds(r.block)
  {
    var cfg := Config(true, 1, {0}, {0});
    var queued := Block(3, 1, 1, [map[0 := 5]]);
    var d := Driver(Pool({3}, 7), None, [queued], Upstream([], []), [], 0, None);
    assert DriverOk(cfg, d);
    RequestWrappedAsWrittenLeaks(cfg, d, 10, 1);
    RequestWrappedContract(cfg, d, 10, 1);
  }

  datatype Filled = Filled(state: ExecutionState, out: OutputRow, exec: seq<ExecStep>, stats: int)

  /** The batch after the row an answer wrote, if any, is committed. */
  function Commit(o: OutputRow, step: ExecStep): (o': OutputRow)
  {
    o.(rows := o.rows + Written(step))
  }

  /** The loop of `getSome`: while the batch is not full, one `produceRow`;
      its statistics are added up, a row it wrote is committed, and the loop
      stops on WAITING or DONE. A batch filled without either is HASMORE. An
      executor whose script is used up answers DONE without a row. */
  function Fill(o: OutputRow, exec: seq<ExecStep>, stats: int): (f: Filled)
    ensures f.out.block == o.block
    ensures f.state == HASMORE ==> IsFull(f.out)
    decreases |exec|
  {
    if IsFull(o) then Filled(HASMORE, o, exec, stats)
    else if exec == [] then Filled(DONE, o, [], stats)
    else if exec[0].state == HASMORE then Fill(Commit(o, exec[0]), exec[1..], stats + exec[0].stats)
    else Filled(exec[0].state, Commit(o, exec[0]), exec[1..], stats + exec[0].stats)
  }

  /** The loop commits exactly the rows the executor wrote, in order, after
      those already in the batch, never more than the batch has room for;
      it adds up exactly the statistics of the answers it consumed; and it
      ends HASMORE only with a full batch. */
  lemma FillContract(o: OutputRow, exec: seq<ExecStep>, stats: int)
    requires |o.rows| <= o.block.size
    ensures var f := Fill(o, exec, stats);
            var k := |exec| - |f.exec|;
      && |f.exec| <= |exec| && f.exec == exec[k..] && exec == exec[..k] + f.exec
      && f.out.block == o.block
      && f.out.rows == o.rows + Produced(exec[..k])
      && |f.out.rows| <= o.block.size
      && f.stats == stats + StepStats(exec[..k])
      && (f.state == HASMORE ==> IsFull(f.out))
  {
    FillShape(o, exec, stats);
    FillRows(o, exec, stats);
    var k := |exec| - |Fill(o, exec, stats).exec|;
    assert exec == exec[..k] + exec[k..];
  }

  lemma {:induction false} FillShape(o: OutputRow, exec: seq<ExecStep>, stats: int)
    requires |o.rows| <= o.block.size
    ensures var f := Fill(o, exec, stats);
      && |f.exec| <= |exec| && f.exec == exec[|exec| - |f.exec|..]
      && f.out.block == o.block && |f.out.rows| <= o.block.size
      && (f.state == HASMORE ==> IsFull(f.out))
    decreases |exec|
  {
    if !IsFull(o) && exec != [] && exec[0].state == HASMORE {
      FillShape(Commit(o, exec[0]), exec[1..], stats + exec[0].stats);
    }
  }

  lemma {:induction false} FillRows(o: OutputRow, exec: seq<ExecStep>, stats: int)
    requires |o.rows| <= o.block.size
    ensures var f := Fill(o, exec, stats);
            var k := |exec| - |f.exec|;
      && |f.exec| <= |exec|
      && f.out.rows == o.rows + Produced(exec[..k])
      && f.stats == stats + StepStats(exec[..k])
    decreases |exec|
  {
    if IsFull(o) || exec == [] {
      assert Fill(o, exec, stats).exec == exec;
      assert exec[..0] == [];
    } else if exec[0].state == HASMORE {
      var o' := Commit(o, exec[0]);
      var stats' := stats + exec[0].stats;
      FillRows(o', exec[1..], stats');
      var f := Fill(o', exec[1..], stats');
      assert Fill(o, exec, stats) == f;
      PrefixStep(exec, |exec| - |f.exec|);
    } else {
      assert Fill(o, exec, stats).exec == exec[1..];
      PrefixStep(exec, 1);
      assert exec[1..][..0] == [];
    }
  }

  /** The first `j` answers are the first one and `j - 1` after it. */
  lemma PrefixStep(exec: seq<ExecStep>, j: nat)
    requires 0 < j <= |exec|
    ensures Produced(exec[..j]) == Written(exec[0]) + Produced(exec[1..][..j - 1])
    ensures StepStats(exec[..j]) == exec[0].stats + StepStats(exec[1..][..j - 1])
  {
    var pre := exec[..j];
    assert pre[0] == exec[0] && pre[1..] == exec[1..][..j - 1];
  }

  /** A `produceRow` answer with WAITING turned into HASMORE: the executor
      as it would have answered had it not had to wait. */
  function Wake(step: ExecStep): ExecStep
  {
    if step.state == WAITING then step.(state := HASMORE) else step
  }

  function Awake(exec: seq<ExecStep>): (a: seq<ExecStep>)
    ensures |a| == |exec|
    ensures forall i :: 0 <= i < |a| ==>
              && a[i].state != WAITING && a[i].row == exec[i].row && a[i].stats == exec[i].stats
              && (exec[i].state != WAITING ==> a[i] == exec[i])
  {
    if exec == [] then [] else [Wake(exec[0])] + Awake(exec[1..])
  }

  /** The loop as a caller sees it that repeats `getSome` after every
      WAITING: the open batch is filled further, from where the last call
      stopped. */
  function FillResumed(o: OutputRow, exec: seq<ExecStep>, stats: int): (f: Filled)
    requires |o.rows| <= o.block.size
    decreases |exec|
  {
    FillShape(o, exec, stats);
    FillWaitConsumes(o, exec, stats);
    var f := Fill(o, exec, stats);
    if f.state == WAITING then FillResumed(f.out, f.exec, f.stats) else f
  }

  /** WAITING is transparent: repeating the call after each WAITING ends
      with the same state, the same batch and the same statistics as an
      executor that never waited, and leaves the same answers unused. */
  lemma {:induction false} WaitingIsTransparent(o: OutputRow, exec: seq<ExecStep>, stats: int)
    requires |o.rows| <= o.block.size
    ensures var r := FillResumed(o, exec, stats);
            var g := Fill(o, Awake(exec), stats);
      r.state == g.state && r.out == g.out && r.stats == g.stats && Awake(r.exec) == g.exec
    decreases |exec|
  {
    if IsFull(o) || exec == [] {
      assert FillResumed(o, exec, stats) == Fill(o, exec, stats);
    } else if exec[0].state == DONE {
      AwakeStep(o, exec, stats);
      assert FillResumed(o, exec, stats) == Fill(o, exec, stats);
    } else {
      AwakeStep(o, exec, stats);
      ResumedStep(o, exec, stats);
      WaitingIsTransparent(Commit(o, exec[0]), exec[1..], stats + exec[0].stats);
    }
  }

  /** One answer of the executor that never waited. */
  lemma AwakeStep(o: OutputRow, exec: seq<ExecStep>, stats: int)
    requires !IsFull(o) && exec != []
    ensures Fill(o, Awake(exec), stats) ==
      if exec[0].state == DONE then Filled(DONE, Commit(o, exec[0]), Awake(exec[1..]), stats + exec[0].stats)
      else Fill(Commit(o, exec[0]), Awake(exec[1..]), stats + exec[0].stats)
  {
    assert Awake(exec)[0] == Wake(exec[0]) && Awake(exec)[1..] == Awake(exec[1..]);
    assert Commit(o, Wake(exec[0])) == Commit(o, exec[0]);
  }

  /** One answer other than DONE, as the repeating caller sees it. */
  lemma ResumedStep(o: OutputRow, exec: seq<ExecStep>, stats: int)
    requires |o.rows| <= o.block.size && !IsFull(o) && exec != [] && exec[0].state != DONE
    ensures |Commit(o, exec[0]).rows| <= o.block.size
    ensures FillResumed(o, exec, stats) == FillResumed(Commit(o, exec[0]), exec[1..], stats + exec[0].stats)
  {
    var o' := Commit(o, exec[0]);
    var s' := stats + exec[0].stats;
    if exec[0].state == HASMORE {
      assert Fill(o, exec, stats) == Fill(o', exec[1..], s');
    } else {
      assert Fill(o, exec, stats) == Filled(WAITING, o', exec[1..], s');
    }
  }

  /** A WAITING is always the executor's own answer, so it consumes one. */
  lemma {:induction false} FillWaitConsumes(o: OutputRow, exec: seq<ExecStep>, stats: int)
    ensures var f := Fill(o, exec, stats);
      f.state == WAITING ==> |f.exec| < |exec|
    decreases |exec|
  {
    if !IsFull(o) && exec != [] && exec[0].state == HASMORE {
      FillWaitConsumes(Commit(o, exec[0]), exec[1..], stats + exec[0].stats);
    }
  }

  datatype GetSomeResult = GetSomeResult(state: ExecutionState, block: Option<Block>, driver: Driver)

  /** `getSome` after a batch is open: fill it, keep it on WAITING, hand it
      on otherwise. A DONE with nothing written hands back no block and
      returns the batch to the manager, since empty blocks are not allowed. */
  function Continue(cfg: Config, d: Driver): (r: GetSomeResult)
    requires DriverOk(cfg, d) && d.output.Some?
    ensures DriverOk(cfg, r.driver)
  {
    var o := d.output.value;
    FillContract(o, d.exec, d.stats);
    var f := Fill(o, d.exec, d.stats);
    var d' := d.(exec := f.exec, stats := f.stats);
    if f.state == WAITING then GetSomeResult(WAITING, None, d'.(output := Some(f.out)))
    else if f.state == DONE && f.out.rows == [] then
      GetSomeResult(DONE, None, d'.(output := None, pool := ReturnBlock(d.pool, f.out.block)))
    else GetSomeResult(f.state, Some(StealBlock(f.out)), d'.(output := None))
  }

  /** `getSomeWithoutTrace(atMost)`: open a batch for `atMost` rows unless
      one is open from a call that was answered WAITING, then continue. */
  function GetSomeSpec(cfg: Config, d: Driver, atMost: nat): (r: GetSomeResult)
    requires DriverOk(cfg, d) && atMost > 0
    ensures DriverOk(cfg, r.driver)
  {
    if d.output.None? then
      RequestWrappedContract(cfg, d, atMost, cfg.nrOutputRegisters);
      var w := RequestWrapped(cfg, d, atMost, cfg.nrOutputRegisters);
      if w.state != HASMORE then GetSomeResult(w.state, None, w.driver)
      else Continue(cfg, w.driver.(output := Some(OutputRow(w.block.value, []))))
    else Continue(cfg, d)
  }

  /** The rows in the open batch, if any. */
  function OpenRows(d: Driver): seq<Row>
  {
    if d.output.Some? then d.output.value.rows else []
  }

  /** The answers of the executor a call consumed. */
  function Consumed(d: Driver, d': Driver): seq<ExecStep>
    requires |d'.exec| <= |d.exec|
  {
    d.exec[..|d.exec| - |d'.exec|]
  }

  /** The states and blocks of `getSome` pair up: WAITING hands back no
      block and keeps the batch open, unless it is the WAITING of the
      request for a batch; a batch stays open only on WAITING; HASMORE hands
      back a full batch; DONE closes the batch and never hands back an
      empty block. When no batch can be obtained the
      call answers that state with no block and opens none. */
  lemma GetSomePairing(cfg: Config, d: Driver, atMost: nat)
    requires DriverOk(cfg, d) && atMost > 0
    ensures var r := GetSomeSpec(cfg, d, atMost);
      && (r.state == WAITING ==> r.block.None?)
      && (r.driver.output.Some? ==> r.state == WAITING)
      && (r.state == WAITING && r.driver.output.None? ==>
            d.output.None? && RequestWrapped(cfg, d, atMost, cfg.nrOutputRegisters).state == WAITING)
      && (r.state == HASMORE ==> r.block.Some? && r.block.value.size > 0)
      && (r.state == DONE ==> r.driver.output.None?)
      && (r.block.Some? ==> 0 < |r.block.value.rows| == r.block.value.size)
      && (d.output.None? && RequestWrapped(cfg, d, atMost, cfg.nrOutputRegisters).state != HASMORE ==>
            r.state == RequestWrapped(cfg, d, atMost, cfg.nrOutputRegisters).state
            && r.block.None? && r.driver.output.None?)
  {
    if d.output.None? {
      RequestWrappedContract(cfg, d, atMost, cfg.nrOutputRegisters);
      var w := RequestWrapped(cfg, d, atMost, cfg.nrOutputRegisters);
      if w.state == HASMORE {
        var d1 := w.driver.(output := Some(OutputRow(w.block.value, [])));
        FillContract(d1.output.value, d1.exec, d1.stats);
      }
    } else {
      FillContract(d.output.value, d.exec, d.stats);
    }
  }

  /** Rows are neither lost nor invented: the batch, kept or handed on,
      holds the rows it held before followed by the rows the executor
      wrote during the call, in order; the engine statistics grow by
      exactly what the executor reported. */
  lemma GetSomeConservesRows(cfg: Config, d: Driver, atMost: nat)
    requires DriverOk(cfg, d) && atMost > 0
    ensures var r := GetSomeSpec(cfg, d, atMost);
      && |r.driver.exec| <= |d.exec| && d.exec == Consumed(d, r.driver) + r.driver.exec
      && (r.driver.output.Some? ==> r.driver.output.value.rows == OpenRows(d) + Produced(Consumed(d, r.driver)))
      && (r.block.Some? ==> r.block.value.rows == OpenRows(d) + Produced(Consumed(d, r.driver)))
      && (r.state == DONE && r.block.None? ==> OpenRows(d) + Produced(Consumed(d, r.driver)) == [])
      && r.driver.stats == d.stats + StepStats(Consumed(d, r.driver))
  {
    if d.output.None? {
      RequestWrappedContract(cfg, d, atMost, cfg.nrOutputRegisters);
      var w := RequestWrapped(cfg, d, atMost, cfg.nrOutputRegisters);
      if w.state == HASMORE {
        var d1 := w.driver.(output := Some(OutputRow(w.block.value, [])));
        FillContract(d1.output.value, d1.exec, d1.stats);
      } else {
        assert d.exec[..|d.exec|] == d.exec;
        assert Produced([]) == [] && StepStats([]) == 0;
      }
    } else {
      FillContract(d.output.value, d.exec, d.stats);
    }
  }

  /** A call opens a batch of `atMost` rows unless it reuses an input
      block: without pass-through, or on a retry with the same `atMost` as
      the call that opened the batch, a block handed back has at most
      `atMost` rows and exactly `atMost` on HASMORE, and a batch kept open
      on WAITING has room for `atMost`. With pass-through a fresh batch is
      the input block itself: the bound is then that block's size, not
      `atMost`. */
  lemma GetSomeRespectsAtMost(cfg: Config, d: Driver, atMost: nat)
    requires DriverOk(cfg, d) && atMost > 0
    ensures var r := GetSomeSpec(cfg, d, atMost);
      && ((d.output.None? && !cfg.allowsBlockPassthrough) || (d.output.Some? && d.output.value.block.size == atMost) ==>
            && (r.block.Some? ==> |r.block.value.rows| <= atMost)
            && (r.state == HASMORE ==> |r.block.value.rows| == atMost)
            && (r.state == WAITING ==> |r.driver.output.value.rows| <= atMost == r.driver.output.value.block.size))
      && (d.output.None? && cfg.allowsBlockPassthrough && r.block.Some? ==>
            var w := RequestWrapped(cfg, d, atMost, cfg.nrOutputRegisters);
            && w.block.Some? && |r.block.value.rows| <= w.block.value.size
            && (r.state == HASMORE ==> |r.block.value.rows| == w.block.value.size))
  {
    if d.output.None? {
      RequestWrappedContract(cfg, d, atMost, cfg.nrOutputRegisters);
      var w := RequestWrapped(cfg, d, atMost, cfg.nrOutputRegisters);
      if w.state == HASMORE {
        var d1 := w.driver.(output := Some(OutputRow(w.block.value, [])));
        FillContract(d1.output.value, d1.exec, d1.stats);
      }
    } else {
      FillContract(d.output.value, d.exec, d.stats);
    }
  }

  /** No block is leaked: every block the manager lends out during a call
      is either the batch the driver keeps open or the block it hands
      back. */
  lemma GetSomeNoLeak(cfg: Config, d: Driver, atMost: nat)
    requires DriverOk(cfg, d) && atMost > 0
    ensures var r := GetSomeSpec(cfg, d, atMost);
      r.driver.pool.live <= d.pool.live + HeldIds(r.driver) + DeliveredIds(r.block)
  {
    if d.output.None? {
      RequestWrappedContract(cfg, d, atMost, cfg.nrOutputRegisters);
      var w := RequestWrapped(cfg, d, atMost, cfg.nrOutputRegisters);
      if w.state == HASMORE {
        var d1 := w.driver.(output := Some(OutputRow(w.block.value, [])));
        FillContract(d1.output.value, d1.exec, d1.stats);
      }
    }
  }

  /** `getSomeWithoutTrace` as written: on DONE the batch is stolen and
      handed back even when no row was written to it. */
  function GetSomeAsWritten(cfg: Config, d: Driver, atMost: nat): (r: GetSomeResult)
    requires DriverOk(cfg, d) && atMost > 0
    ensures r.state == WAITING ==> r.block.None?
    ensures d.output.Some? ==> (r.block.Some? <==> r.state != WAITING)
  {
    if d.output.None? then
      RequestWrappedContract(cfg, d, atMost, cfg.nrOutputRegisters);
      var w := RequestWrapped(cfg, d, atMost, cfg.nrOutputRegisters);
      if w.state != HASMORE then GetSomeResult(w.state, None, w.driver)
      else ContinueAsWritten(w.driver.(output := Some(OutputRow(w.block.value, []))))
    else ContinueAsWritten(d)
  }

  /** After the loop, as written: every answer but WAITING hands back the
      batch, however many rows it holds. */
  function ContinueAsWritten(d: Driver): (r: GetSomeResult)
    requires d.output.Some?
    ensures r.state == WAITING ==> r.block.None? && r.driver.output.Some?
    ensures r.state != WAITING ==> r.block.Some? && r.driver.output.None?
    ensures r.block.Some? ==> r.block.value.id == d.output.value.block.id
  {
    var f := Fill(d.output.value, d.exec, d.stats);
    var d' := d.(exec := f.exec, stats := f.stats);
    if f.state == WAITING then GetSomeResult(WAITING, None, d'.(output := Some(f.out)))
    else GetSomeResult(f.state, Some(StealBlock(f.out)), d'.(output := None))
  }

  /** An executor that is DONE at once (for instance one over an empty
      input): as written, `getSome` hands back an empty block; the corrected
      driver hands back none and returns the batch to the manager. */
  lemma GetSomeAsWrittenEmptyBlock()
    ensures var cfg := Config(false, 1, {0}, {0});
            var d := Driver(Pool({}, 0), None, [], Upstream([], []), [ExecStep(DONE, None, 0)], 0, None);
            var a := GetSomeAsWritten(cfg, d, 10);
            var r := GetSomeSpec(cfg, d, 10);
            && a.state == DONE && a.block.Some? && a.block.value.size == 0 && a.block.value.rows == []
            && r.state == DONE && r.block.None? && r.driver.pool.live == {}
  {
    var cfg := Config(false, 1, {0}, {0});
    var d := Driver(Pool({}, 0), None, [], Upstream([], []), [ExecStep(DONE, None, 0)], 0, None);
    assert DriverOk(cfg, d);
    var o := OutputRow(Block(0, 10, 1, []), []);
    assert Fill(o, d.exec, 0) == Filled(DONE, o, [], 0);
  }

  /** Wherever the executor writes at least one row before DONE, or the
      answer is not DONE, the corrected driver and the code as written
      agree. */
  lemma GetSomeAsWrittenAgrees(cfg: Config, d: Driver, atMost: nat)
    requires DriverOk(cfg, d) && atMost > 0
    ensures var a := GetSomeAsWritten(cfg, d, atMost);
            var r := GetSomeSpec(cfg, d, atMost);
      && a.state == r.state
      && (a.block.None? || |a.block.value.rows| > 0 ==> a == r)
      && (a.block.Some? && |a.block.value.rows| == 0 ==>
            a.state == DONE && r.block.None? && r.driver.pool.live == a.driver.pool.live - {a.block.value.id})
  {
    if d.output.None? {
      RequestWrappedContract(cfg, d, atMost, cfg.nrOutputRegisters);
      var w := RequestWrapped(cfg, d, atMost, cfg.nrOutputRegisters);
      if w.state == HASMORE {
        var d1 := w.driver.(output := Some(OutputRow(w.block.value, [])));
        FillContract(d1.output.value, d1.exec, d1.stats);
      }
    } else {
      FillContract(d.output.value, d.exec, d.stats);
    }
  }

  datatype Skipped = Skipped(state: ExecutionState, skipped: nat, driver: Driver)

  /** `skipSome(atMost)`: a `getSome` whose block is counted and given back
      to the manager at once. */
  function SkipSomeSpec(cfg: Config, d: Driver, atMost: nat): (r: Skipped)
    requires DriverOk(cfg, d) && atMost > 0
    ensures DriverOk(cfg, r.driver)
  {
    var g := GetSomeSpec(cfg, d, atMost);
    if g.block.Some? then Skipped(g.state, g.block.value.size, g.driver.(pool := ReturnBlock(g.driver.pool, g.block.value)))
    else Skipped(g.state, 0, g.driver)
  }

  /** `skipSome` answers the state of the `getSome` beneath it; it skips
      exactly the rows that `getSome` would have handed back, at most
      `atMost` under the conditions of `GetSomeRespectsAtMost`; and it keeps
      no block but the open batch. */
  lemma SkipSomeContract(cfg: Config, d: Driver, atMost: nat)
    requires DriverOk(cfg, d) && atMost > 0
    ensures var r := SkipSomeSpec(cfg, d, atMost);
            var g := GetSomeSpec(cfg, d, atMost);
      && r.state == g.state
      && r.skipped == (if g.block.Some? then |g.block.value.rows| else 0)
      && (r.state == WAITING ==> r.skipped == 0)
      && (r.state == HASMORE ==> r.skipped > 0)
      && r.driver.output == g.driver.output && r.driver.exec == g.driver.exec
      && r.driver.pool.live <= d.pool.live + HeldIds(r.driver)
      && (((d.output.None? && !cfg.allowsBlockPassthrough) || (d.output.Some? && d.output.value.block.size == atMost))
            ==> r.skipped <= atMost)
  {
    GetSomePairing(cfg, d, atMost);
    GetSomeConservesRows(cfg, d, atMost);
    GetSomeNoLeak(cfg, d, atMost);
    GetSomeRespectsAtMost(cfg, d, atMost);
  }
}
