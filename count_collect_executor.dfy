/** The count executor (`CountCollectExecutor`), the reference executor of
    the framework: it pulls every input row through a non-pass-through
    single-row fetcher, counts them in a field, and when upstream is DONE
    writes exactly one output row holding the count. */
module CountCollect {
  import opened AqlTypes
  import opened BlockFetcher
  import opened RowFetcher
  import ExecutionBlock

  /** `CountCollectExecutorInfos`: the register the count is written to,
      and the register layout the executor was built for. */
  datatype CountCollectExecutorInfos = CountCollectExecutorInfos(
    collectRegister: RegisterId,
    nrInputRegisters: RegisterId,
    nrOutputRegisters: RegisterId,
    registersToClear: set<RegisterId>)
  {
    /** The register the count is written to: the one the infos were
        built with. */
    function GetOutputRegisterId(): (reg: RegisterId)
      ensures reg == collectRegister
    {
      collectRegister
    }
  }

  /** `CountCollectExecutor::Properties::allowsBlockPassthrough`: input
      blocks are never reused as output blocks, so the fetcher is the plain
      `SingleRowFetcher`. */
  const AllowsBlockPassthrough: bool := false

  /** The driver's view of the count executor: no pass-through, so the
      block fetcher gets no callback and every output batch is requested
      from the manager; the output register count is the executor's. */
  function DriverConfig(infos: CountCollectExecutorInfos, inputRegisters: set<RegisterId>,
                        registersToKeep: set<RegisterId>): (cfg: ExecutionBlock.Config)
    ensures !cfg.allowsBlockPassthrough && ExecutionBlock.CreatePassThroughCallback(cfg).None?
    ensures cfg.nrOutputRegisters == infos.nrOutputRegisters
    ensures cfg.inputRegisters == inputRegisters && cfg.registersToKeep == registersToKeep
  {
    ExecutionBlock.Config(AllowsBlockPassthrough, infos.nrOutputRegisters, inputRegisters, registersToKeep)
  }

  /** Since the count executor reuses no input block, a fresh block over
      it may be built on any well-behaved upstream, whatever register count
      the upstream's blocks carry. */
  lemma DriverConfigAcceptsAnyUpstream(infos: CountCollectExecutorInfos, inputRegisters: set<RegisterId>,
                                       registersToKeep: set<RegisterId>, pool: Pool, u: Upstream,
                                       exec: seq<ExecutionBlock.ExecStep>)
    requires PoolValid(pool)
    requires forall i :: 0 <= i < |u.replies| ==> ReplyOk(u.replies[i])
    ensures ExecutionBlock.DriverOk(DriverConfig(infos, inputRegisters, registersToKeep),
                                    ExecutionBlock.Driver(pool, None, [], u, exec, 0, None))
  {
  }

  /** The single output row: the count, in the output register. */
  function CountRow(infos: CountCollectExecutorInfos, count: nat): (r: Row)
    ensures r.Keys == {infos.GetOutputRegisterId()} && r[infos.GetOutputRegisterId()] == count
  {
    map[infos.GetOutputRegisterId() := count]
  }

  class CountCollectExecutor {
    const infos: CountCollectExecutorInfos
    const fetcher: SingleRowFetcher
    var count: nat

    ghost predicate Valid()
      reads this, fetcher
    {
      fetcher.Valid()
    }

    /** The rows the executor will still count. */
    ghost function Remaining(): seq<Row>
      reads this, fetcher
    {
      Pending(fetcher.Cursor(), fetcher.upstream)
    }

    constructor (fetcher: SingleRowFetcher, infos: CountCollectExecutorInfos)
      requires fetcher.Valid()
      ensures Valid() && this.fetcher == fetcher && this.infos == infos && count == 0
    {
      this.fetcher := fetcher;
      this.infos := infos;
      count := 0;
    }

    /** `incrCount`. */
    method IncrCount()
      modifies this
      ensures count == old(count) + 1
    {
      count := count + 1;
    }

    /** `getCount`: reads the counter and changes nothing. */
    method GetCount() returns (c: nat)
      ensures c == count
    {
      c := count;
    }

    /** `produceRow`. Rows are pulled and counted until upstream is DONE;
        then exactly one row is written, holding the number of rows counted
        over all calls. On WAITING nothing is written and the count plus the
        rows still to come is what it was, so a later call resumes where
        this one stopped. The executor never answers HASMORE. */
    method ProduceRow() returns (state: ExecutionState, row: Option<Row>)
      requires Valid()
      modifies this, fetcher
      ensures Valid()
      ensures state != HASMORE
      ensures NeverWaits(old(fetcher.upstream)) ==> state == DONE
      ensures row.Some? <==> state == DONE
      ensures state == WAITING ==> count + |Remaining()| == old(count + |Remaining()|)
      ensures state == DONE ==> row.value == CountRow(infos, old(count + |Remaining()|)) && Remaining() == []
      ensures state == DONE ==> count == old(count + |Remaining()|)
    {
      ghost var total := count + |Remaining()|;
      while true
        invariant Valid()
        invariant count + |Remaining()| == total
        invariant NeverWaits(old(fetcher.upstream)) ==> NeverWaits(fetcher.upstream)
        decreases |Remaining()|
      {
        ghost var before := Remaining();
        FetchRowStepDelivers(fetcher.Cursor(), fetcher.upstream, fetcher.inputRegisters);
        FetchRowStepPairing(fetcher.Cursor(), fetcher.upstream, fetcher.inputRegisters);
        FetchRowStepWaitsOnlyForUpstream(fetcher.Cursor(), fetcher.upstream, fetcher.inputRegisters);
        var fetched: Option<Row>;
        state, fetched := fetcher.FetchRow();
        if state == WAITING {
          return WAITING, None;
        }
        if fetched.None? {
          var c := GetCount();
          return state, Some(CountRow(infos, c));
        }
        IncrCount();
        assert |Remaining()| == |before| - 1;
        if state == DONE {
          var c := GetCount();
          return state, Some(CountRow(infos, c));
        }
      }
    }
  }

  /** With no rows upstream the executor still answers with one row, the
      count 0. */
  method CountOfNoRows(infos: CountCollectExecutorInfos) returns (state: ExecutionState, row: Option<Row>)
    ensures state == DONE && row == Some(map[infos.collectRegister := 0])
  {
    var fetcher := new SingleRowFetcher(Upstream([Reply(DONE, None)], []), {});
    var executor := new CountCollectExecutor(fetcher, infos);
    assert executor.Remaining() == [];
    state, row := executor.ProduceRow();
  }
}
