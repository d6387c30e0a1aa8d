/** The fan-in row fetcher (`MultiDependencySingleRowFetcher`): the row
    fetcher contract per dependency index, with one independent cursor per
    dependency kept in the `_upstream` vector. */
module MultiDependencyFetcher {
  import opened AqlTypes
  import opened BlockFetcher
  import opened RowFetcher

  /** The fan-in fetcher's state as a value: one cursor per dependency and
      the dependencies themselves. */
  datatype FanIn = FanIn(cursors: seq<RowCursor>, dependencies: seq<Upstream>)

  ghost predicate FanInOk(s: FanIn)
  {
    && |s.cursors| == |s.dependencies|
    && forall i :: 0 <= i < |s.cursors| ==> CursorOk(s.cursors[i], s.dependencies[i])
  }

  /** `fetchRowForDependency(depIndex)` on values: the row fetcher step of
      that dependency's cursor; nothing else moves. */
  function FetchForDependency(s: FanIn, inputRegisters: set<RegisterId>, depIndex: nat): (r: (Fetch, FanIn))
    requires FanInOk(s) && depIndex < |s.cursors|
    ensures FanInOk(r.1) && |r.1.cursors| == |s.cursors|
    ensures forall j :: 0 <= j < |s.cursors| && j != depIndex ==>
              r.1.cursors[j] == s.cursors[j] && r.1.dependencies[j] == s.dependencies[j]
  {
    var step := FetchRowStep(s.cursors[depIndex], s.dependencies[depIndex], inputRegisters);
    FetchRowStepPairing(s.cursors[depIndex], s.dependencies[depIndex], inputRegisters);
    (Fetch(step.state, step.row),
     FanIn(s.cursors[depIndex := step.cursor], s.dependencies[depIndex := step.upstream]))
  }

  /** The results of the calls `calls[0]`, `calls[1]`, ... on the fan-in
      fetcher, each tagged with the dependency index it was made for. */
  function RunFanIn(s: FanIn, inputRegisters: set<RegisterId>, calls: seq<nat>): (results: seq<(nat, Fetch)>)
    requires FanInOk(s) && forall k :: 0 <= k < |calls| ==> calls[k] < |s.cursors|
    ensures |results| == |calls|
    ensures forall k :: 0 <= k < |calls| ==> results[k].0 == calls[k]
    decreases |calls|
  {
    if calls == [] then []
    else
      var (fetch, s') := FetchForDependency(s, inputRegisters, calls[0]);
      var rest := RunFanIn(s', inputRegisters, calls[1..]);
      assert forall k :: 1 <= k < |calls| ==> ([(calls[0], fetch)] + rest)[k] == rest[k - 1];
      [(calls[0], fetch)] + rest
  }

  /** The results that belong to dependency `a`. */
  function Project(results: seq<(nat, Fetch)>, a: nat): seq<Fetch>
  {
    if results == [] then []
    else (if results[0].0 == a then [results[0].1] else []) + Project(results[1..], a)
  }

  function Occurrences(calls: seq<nat>, a: nat): nat
  {
    if calls == [] then 0 else (if calls[0] == a then 1 else 0) + Occurrences(calls[1..], a)
  }

  /** Fan-in independence: however the calls for different dependencies
      are interleaved, dependency `a` sees exactly the results it would have
      seen if it were fetched alone, as often as it was asked. */
  lemma {:induction false} FanInIndependence(s: FanIn, inputRegisters: set<RegisterId>, calls: seq<nat>, a: nat)
    requires FanInOk(s) && forall k :: 0 <= k < |calls| ==> calls[k] < |s.cursors|
    requires a < |s.cursors|
    ensures Project(RunFanIn(s, inputRegisters, calls), a)
            == Run(s.cursors[a], s.dependencies[a], inputRegisters, Occurrences(calls, a)).trace
    decreases |calls|
  {
    if calls != [] {
      var (fetch, s') := FetchForDependency(s, inputRegisters, calls[0]);
      var rest := RunFanIn(s', inputRegisters, calls[1..]);
      var results := [(calls[0], fetch)] + rest;
      assert RunFanIn(s, inputRegisters, calls) == results;
      assert results[0] == (calls[0], fetch) && results[1..] == rest;
      FanInIndependence(s', inputRegisters, calls[1..], a);
      if calls[0] == a {
        assert Project(results, a) == [fetch] + Project(rest, a);
        FetchForDependencyRuns(s, inputRegisters, a, Occurrences(calls[1..], a));
      } else {
        assert Project(results, a) == Project(rest, a);
        assert s'.cursors[a] == s.cursors[a] && s'.dependencies[a] == s.dependencies[a];
      }
    }
  }

  /** `n` calls, all for dependency 0. */
  function Zeros(n: nat): (calls: seq<nat>)
    ensures |calls| == n && forall k :: 0 <= k < n ==> calls[k] == 0
  {
    seq(n, _ => 0)
  }

  lemma {:induction false} ZerosOccurrences(n: nat)
    ensures Occurrences(Zeros(n), 0) == n
  {
    if n > 0 {
      assert Zeros(n)[1..] == Zeros(n - 1);
      ZerosOccurrences(n - 1);
    }
  }

  /** With a single dependency, calling `fetchRowForDependency(0)` `n`
      times, as the tests do, gives exactly the trace of `n` row fetcher
      steps over that dependency, which the scenarios below are stated
      over. */
  lemma SingleDependencyRun(c: RowCursor, u: Upstream, inputRegisters: set<RegisterId>, n: nat)
    requires CursorOk(c, u)
    ensures var s := FanIn([c], [u]);
      FanInOk(s) && Project(RunFanIn(s, inputRegisters, Zeros(n)), 0) == Run(c, u, inputRegisters, n).trace
  {
    var s := FanIn([c], [u]);
    FanInIndependence(s, inputRegisters, Zeros(n), 0);
    ZerosOccurrences(n);
  }

  /** A fetch for dependency `a` is the first of that dependency's row
      fetcher steps. */
  lemma FetchForDependencyRuns(s: FanIn, inputRegisters: set<RegisterId>, a: nat, k: nat)
    requires FanInOk(s) && a < |s.cursors|
    ensures var (fetch, s') := FetchForDependency(s, inputRegisters, a);
      Run(s.cursors[a], s.dependencies[a], inputRegisters, k + 1).trace
        == [fetch] + Run(s'.cursors[a], s'.dependencies[a], inputRegisters, k).trace
  {
  }

  class MultiDependencySingleRowFetcher {
    const inputRegisters: set<RegisterId>
    /** The low-level fetcher's dependencies, one upstream block each. */
    var dependencies: seq<Upstream>
    /** `_upstream`: the cursor of each dependency's `SingleRowFetcher`. */
    var upstream: seq<RowCursor>

    function State(): FanIn
      reads this
    {
      FanIn(upstream, dependencies)
    }

    ghost predicate Valid()
      reads this
    {
      FanInOk(State())
    }

    constructor (dependencies: seq<Upstream>, inputRegisters: set<RegisterId>)
      requires forall i :: 0 <= i < |dependencies| ==> WellFormed(dependencies[i])
      ensures Valid() && this.dependencies == dependencies && this.inputRegisters == inputRegisters
      ensures upstream == seq(|dependencies|, _ => InitialCursor)
    {
      this.inputRegisters := inputRegisters;
      this.dependencies := dependencies;
      upstream := seq(|dependencies|, _ => InitialCursor);
    }

    /** `fetchRowForDependency(depIndex)`: advances the cursor at
        `depIndex` through `fetchBlockOfDependency`. */
    method FetchRowForDependency(depIndex: nat) returns (state: ExecutionState, row: Option<Row>)
      requires Valid() && depIndex < |upstream|
      modifies this
      ensures Valid()
      ensures (Fetch(state, row), State()) == FetchForDependency(old(State()), inputRegisters, depIndex)
    {
      var c := upstream[depIndex];
      ghost var step := FetchRowStep(c, dependencies[depIndex], inputRegisters);
      FetchRowStepPairing(c, dependencies[depIndex], inputRegisters);
      if !IndexIsValid(c) {
        FetchBlockOfDependencyIsFetchBlock(dependencies, inputRegisters, depIndex);
        FetchBlockKeepsContract(dependencies[depIndex], inputRegisters);
        var f := FetchBlockOfDependency(dependencies, inputRegisters, depIndex);
        dependencies := f.dependencies;
        if f.state == WAITING {
          assert upstream == upstream[depIndex := c];
          return WAITING, None;
        }
        c := RowCursor(f.shell, 0, f.state);
      }
      assert step == EmitRow(c, dependencies[depIndex]);
      if c.block.None? {
        upstream := upstream[depIndex := c];
        return DONE, None;
      }
      var rows := c.block.value.block.rows;
      row := Some(rows[c.rowIndex]);
      state := if c.rowIndex == |rows| - 1 && c.upstreamState == DONE then DONE else HASMORE;
      upstream := upstream[depIndex := c.(rowIndex := c.rowIndex + 1)];
      assert dependencies == dependencies[depIndex := dependencies[depIndex]];
    }
  }

  /** A one-register row holding `v`, as the tests build them. */
  function R(v: int): Row
  {
    map[0 := v]
  }

  /** A filled one-register block with the given rows. */
  function B(id: BlockId, rows: seq<Row>): Block
  {
    Block(id, |rows|, 1, rows)
  }

  /** The rows the tests script for one dependency. */
  const Block1: Block := B(1, [R(1), R(2), R(3)])
  const Block2: Block := B(2, [R(4), R(5)])
  const Block3: Block := B(3, [R(6)])

  /** No blocks upstream and no waiting: DONE with a null row, one fetch. */
  lemma ScenarioNoBlocks(regs: set<RegisterId>)
    ensures var o := Run(InitialCursor, Upstream([Reply(DONE, None)], []), regs, 1);
            o.trace == [Fetch(DONE, None)] && |o.upstream.requests| == 1 && o.upstream.replies == []
  {
    DoneDelivery(InitialCursor, Upstream([Reply(DONE, None)], []), regs);
  }

  /** No blocks upstream, upstream waits once: one WAITING and one extra fetch. */
  lemma ScenarioNoBlocksWaiting(regs: set<RegisterId>)
    ensures var o := Run(InitialCursor, Upstream([Reply(WAITING, None), Reply(DONE, None)], []), regs, 2);
            o.trace == [Fetch(WAITING, None), Fetch(DONE, None)] && |o.upstream.requests| == 2
            && o.upstream.replies == []
  {
    var u := Upstream([Reply(WAITING, None), Reply(DONE, None)], []);
    RunAppend(InitialCursor, u, regs, 1, 1);
    WaitDelivery(InitialCursor, u, regs);
    DoneDelivery(InitialCursor, GetSome(u, DefaultBatchSize).1, regs);
  }

  /** How the fetcher reports the rows of the three test blocks. */
  lemma TestRows(last: ExecutionState)
    ensures Delivered(Block1.rows, HASMORE) + (Delivered(Block2.rows, HASMORE) + Delivered(Block3.rows, last))
         == [Fetch(HASMORE, Some(R(1))), Fetch(HASMORE, Some(R(2))), Fetch(HASMORE, Some(R(3))),
             Fetch(HASMORE, Some(R(4))), Fetch(HASMORE, Some(R(5))), Fetch(last, Some(R(6)))]
    ensures Delivered(Block1.rows, HASMORE) == [Fetch(HASMORE, Some(R(1))), Fetch(HASMORE, Some(R(2))), Fetch(HASMORE, Some(R(3)))]
    ensures Delivered(Block2.rows, HASMORE) == [Fetch(HASMORE, Some(R(4))), Fetch(HASMORE, Some(R(5)))]
    ensures Delivered(Block3.rows, last) == [Fetch(last, Some(R(6)))]
    ensures [Fetch(WAITING, None)] + Delivered(Block1.rows, HASMORE)
            + ([Fetch(WAITING, None)] + Delivered(Block2.rows, HASMORE)
               + ([Fetch(WAITING, None)] + Delivered(Block3.rows, last) + []))
         == [Fetch(WAITING, None), Fetch(HASMORE, Some(R(1))), Fetch(HASMORE, Some(R(2))),
             Fetch(HASMORE, Some(R(3))), Fetch(WAITING, None), Fetch(HASMORE, Some(R(4))),
             Fetch(HASMORE, Some(R(5))), Fetch(WAITING, None), Fetch(last, Some(R(6)))]
  {
    assert Block1.rows[1..][1..] == [R(3)];
    assert Block2.rows[1..] == [R(5)];
  }

  /** Blocks [1,2,3], [4,5], [6], the last one sent with DONE, no waiting:
      rows 1..5 with HASMORE, row 6 with DONE, three fetches. */
  lemma ScenarioMultipleBlocks(regs: set<RegisterId>)
    ensures var o := Run(InitialCursor, Upstream([Reply(HASMORE, Some(Block1)), Reply(HASMORE, Some(Block2)),
                                                 Reply(DONE, Some(Block3))], []), regs, 6);
            && o.trace == [Fetch(HASMORE, Some(R(1))), Fetch(HASMORE, Some(R(2))), Fetch(HASMORE, Some(R(3))),
                           Fetch(HASMORE, Some(R(4))), Fetch(HASMORE, Some(R(5))), Fetch(DONE, Some(R(6)))]
            && |o.upstream.requests| == 3
            && o.upstream.replies == []
  {
    var u0 := Upstream([Reply(HASMORE, Some(Block1)), Reply(HASMORE, Some(Block2)), Reply(DONE, Some(Block3))], []);
    var u1 := Upstream([Reply(HASMORE, Some(Block2)), Reply(DONE, Some(Block3))], [DefaultBatchSize]);
    var u2 := Upstream([Reply(DONE, Some(Block3))], [DefaultBatchSize, DefaultBatchSize]);
    var c1 := RowCursor(Some(InputShell(Block1, regs)), 3, HASMORE);
    var c2 := RowCursor(Some(InputShell(Block2, regs)), 2, HASMORE);
    TestRows(DONE);
    BlockDelivery(InitialCursor, u0, regs, Block1, HASMORE);
    BlockDelivery(c1, u1, regs, Block2, HASMORE);
    BlockDelivery(c2, u2, regs, Block3, DONE);
    RunAppend(c1, u1, regs, 2, 1);
    RunAppend(InitialCursor, u0, regs, 3, 3);
  }

  /** The three test blocks, the last one sent with `last`. */
  function TestBlocks(last: ExecutionState): seq<Reply>
  {
    [Reply(HASMORE, Some(Block1)), Reply(HASMORE, Some(Block2)), Reply(last, Some(Block3))]
  }

  /** The test blocks, each announced by a WAITING, are the replies the
      tests script: a WAITING before each block. */
  lemma TestBlocksWaited(last: ExecutionState)
    requires last != WAITING
    ensures forall i :: 0 <= i < 3 ==> BlockReply(TestBlocks(last)[i])
    ensures Waited(TestBlocks(last))
         == [Reply(WAITING, None), Reply(HASMORE, Some(Block1)), Reply(WAITING, None),
             Reply(HASMORE, Some(Block2)), Reply(WAITING, None), Reply(last, Some(Block3))]
    ensures WaitedCalls(TestBlocks(last)) == 9
  {
    var rs := TestBlocks(last);
    assert BlockReply(rs[0]) && BlockReply(rs[1]) && BlockReply(rs[2]);
    assert Waited(rs[2..]) == [Reply(WAITING, None), Reply(last, Some(Block3))] + Waited(rs[3..]);
    assert Waited(rs[1..]) == [Reply(WAITING, None), Reply(HASMORE, Some(Block2))] + Waited(rs[2..]);
    assert WaitedCalls(rs[3..]) == 0;
    assert WaitedCalls(rs[2..]) == 2;
    assert WaitedCalls(rs[1..]) == 5;
  }

  /** ... and are reported with a WAITING before rows 1, 4 and 6. */
  lemma TestBlocksTrace(last: ExecutionState)
    requires last != WAITING
    ensures forall i :: 0 <= i < 3 ==> BlockReply(TestBlocks(last)[i])
    ensures WaitedTrace(TestBlocks(last))
         == [Fetch(WAITING, None), Fetch(HASMORE, Some(R(1))), Fetch(HASMORE, Some(R(2))),
             Fetch(HASMORE, Some(R(3))), Fetch(WAITING, None), Fetch(HASMORE, Some(R(4))),
             Fetch(HASMORE, Some(R(5))), Fetch(WAITING, None), Fetch(last, Some(R(6)))]
  {
    var rs := TestBlocks(last);
    assert BlockReply(rs[0]) && BlockReply(rs[1]) && BlockReply(rs[2]);
    var w := [Fetch(WAITING, None)];
    var d1, d2, d3 := Delivered(Block1.rows, HASMORE), Delivered(Block2.rows, HASMORE), Delivered(Block3.rows, last);
    TestRows(last);
    assert WaitedTrace(rs[3..]) == [];
    assert WaitedTrace(rs[2..]) == w + d3 + [];
    assert WaitedTrace(rs[1..]) == w + d2 + WaitedTrace(rs[2..]);
    assert WaitedTrace(rs) == w + d1 + WaitedTrace(rs[1..]);
  }

  /** The same blocks with a WAITING before each: exactly one WAITING
      before rows 1, 4 and 6, and six fetches. */
  lemma ScenarioMultipleBlocksWaiting(regs: set<RegisterId>)
    ensures var o := Run(InitialCursor, Upstream([Reply(WAITING, None), Reply(HASMORE, Some(Block1)),
                                                 Reply(WAITING, None), Reply(HASMORE, Some(Block2)),
                                                 Reply(WAITING, None), Reply(DONE, Some(Block3))], []), regs, 9);
            && o.trace == [Fetch(WAITING, None), Fetch(HASMORE, Some(R(1))), Fetch(HASMORE, Some(R(2))),
                           Fetch(HASMORE, Some(R(3))), Fetch(WAITING, None), Fetch(HASMORE, Some(R(4))),
                           Fetch(HASMORE, Some(R(5))), Fetch(WAITING, None), Fetch(DONE, Some(R(6)))]
            && |o.upstream.requests| == 6
            && o.upstream.replies == []
  {
    TestBlocksWaited(DONE);
    TestBlocksTrace(DONE);
    var rs := TestBlocks(DONE);
    var u0 := Upstream(Waited(rs), []);
    assert u0.replies == Waited(rs) + [];
    WaitedDelivery(InitialCursor, u0, regs, rs, []);
  }

  /** Upstream waits before each block and sends DONE only afterwards,
      without a block: all six rows with HASMORE, then DONE with a null
      row, seven fetches. */
  lemma ScenarioDoneAfterLastBlock(regs: set<RegisterId>)
    ensures var o := Run(InitialCursor, Upstream([Reply(WAITING, None), Reply(HASMORE, Some(Block1)),
                                                 Reply(WAITING, None), Reply(HASMORE, Some(Block2)),
                                                 Reply(WAITING, None), Reply(HASMORE, Some(Block3)),
                                                 Reply(DONE, None)], []), regs, 10);
            && o.trace == [Fetch(WAITING, None), Fetch(HASMORE, Some(R(1))), Fetch(HASMORE, Some(R(2))),
                           Fetch(HASMORE, Some(R(3))), Fetch(WAITING, None), Fetch(HASMORE, Some(R(4))),
                           Fetch(HASMORE, Some(R(5))), Fetch(WAITING, None), Fetch(HASMORE, Some(R(6))),
                           Fetch(DONE, None)]
            && |o.upstream.requests| == 7
            && o.upstream.replies == []
  {
    TestBlocksWaited(HASMORE);
    TestBlocksTrace(HASMORE);
    var rs := TestBlocks(HASMORE);
    var u0 := Upstream(Waited(rs) + [Reply(DONE, None)], []);
    WaitedDelivery(InitialCursor, u0, regs, rs, [Reply(DONE, None)]);
    var o := Run(InitialCursor, u0, regs, 9);
    assert NextReply(o.upstream) == Reply(DONE, None);
    DoneDelivery(o.cursor, o.upstream, regs);
    var o' := Run(o.cursor, o.upstream, regs, 1);
    assert |o'.upstream.requests| == |o.upstream.requests| + 1;
    RunAppend(InitialCursor, u0, regs, 9, 1);
    assert Run(InitialCursor, u0, regs, 10).trace == o.trace + [Fetch(DONE, None)];
    assert |Run(InitialCursor, u0, regs, 10).upstream.requests| == 7;
    assert u0 == Upstream([Reply(WAITING, None), Reply(HASMORE, Some(Block1)), Reply(WAITING, None),
                           Reply(HASMORE, Some(Block2)), Reply(WAITING, None), Reply(HASMORE, Some(Block3)),
                           Reply(DONE, None)], []);
  }
}
