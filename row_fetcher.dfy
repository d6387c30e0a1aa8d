/** The row fetcher of one dependency (`SingleRowFetcher`): it hides block
    boundaries from an executor by handing out one row per `fetchRow`,
    pulling the next block through the low-level fetcher when the current
    one is used up. `FetchRowStep` is that step on values; the class
    `SingleRowFetcher` runs it in place and `MultiDependencySingleRowFetcher`
    keeps one `RowCursor` per dependency. */
module RowFetcher {
  import opened AqlTypes
  import opened BlockFetcher

  /** The position of one row fetcher: the block it reads, the index of the
      next row in it, and the state upstream gave with that block. */
  datatype RowCursor = RowCursor(block: Option<InputShell>, rowIndex: nat, upstreamState: ExecutionState)

  const InitialCursor: RowCursor := RowCursor(None, 0, HASMORE)

  predicate IndexIsValid(c: RowCursor)
  {
    c.block.Some? && c.rowIndex < |c.block.value.block.rows|
  }

  /** What a cursor over `u` relies on: upstream keeps its contract, the
      current block is a filled one, and after DONE upstream has nothing left. */
  ghost predicate CursorOk(c: RowCursor, u: Upstream)
  {
    && WellFormed(u)
    && c.upstreamState != WAITING
    && (c.block.Some? ==> IsFilled(c.block.value.block))
    && (c.upstreamState == DONE ==> u.replies == [])
  }

  /** The rows this cursor will still deliver, in order. */
  function Pending(c: RowCursor, u: Upstream): seq<Row>
  {
    (if IndexIsValid(c) then c.block.value.block.rows[c.rowIndex..] else []) + AllRows(u.replies)
  }

  datatype RowStep = RowStep(state: ExecutionState, row: Option<Row>, cursor: RowCursor, upstream: Upstream)

  /** One `fetchRow`. A new block is fetched only when the current one is
      used up; on WAITING the cursor is left exactly as it was. The last row
      of a block is reported with DONE when upstream sent DONE with that
      block; a cursor with no block left reports DONE without a row. */
  function FetchRowStep(c: RowCursor, u: Upstream, inputRegisters: set<RegisterId>): (r: RowStep)
    requires CursorOk(c, u)
    ensures r.state == WAITING ==> r.row.None? && r.cursor == c
    ensures r.state == HASMORE ==> r.row.Some?
    ensures IndexIsValid(c) ==> r.upstream == u
  {
    if IndexIsValid(c) then EmitRow(c, u)
    else
      var f := FetchBlock(u, inputRegisters);
      FetchBlockKeepsContract(u, inputRegisters);
      if f.state == WAITING then RowStep(WAITING, None, c, f.upstream)
      else EmitRow(RowCursor(f.shell, 0, f.state), f.upstream)
  }

  /** `fetchRow` once a block with a next row, or no block at all, is at
      hand: it never waits and never pulls from upstream. */
  function EmitRow(c: RowCursor, u: Upstream): (r: RowStep)
    requires c.block.None? || IndexIsValid(c)
    ensures r.state != WAITING && r.upstream == u
    ensures r.row.Some? <==> c.block.Some?
  {
    if c.block.None? then RowStep(DONE, None, c, u)
    else
      var rows := c.block.value.block.rows;
      var state := if c.rowIndex == |rows| - 1 && c.upstreamState == DONE then DONE else HASMORE;
      RowStep(state, Some(rows[c.rowIndex]), c.(rowIndex := c.rowIndex + 1), u)
  }

  /** The pairing the fetcher interface documents: WAITING never carries a
      row, HASMORE always does; and the cursor stays usable. */
  lemma FetchRowStepPairing(c: RowCursor, u: Upstream, inputRegisters: set<RegisterId>)
    requires CursorOk(c, u)
    ensures var r := FetchRowStep(c, u, inputRegisters);
      && (r.state == WAITING ==> r.row.None?)
      && (r.state == HASMORE ==> r.row.Some?)
      && CursorOk(r.cursor, r.upstream)
  {
    FetchBlockKeepsContract(u, inputRegisters);
  }

  /** Rows come out in order, none lost and none repeated: a row is the
      first pending one and is consumed; WAITING consumes nothing and leaves
      the cursor unchanged; a DONE without a row means nothing was pending;
      after DONE nothing is pending. A delivered row is the one just passed
      in the block the cursor still holds, which keeps it valid until the
      next call. */
  lemma {:induction false} FetchRowStepDelivers(c: RowCursor, u: Upstream, inputRegisters: set<RegisterId>)
    requires CursorOk(c, u)
    ensures var r := FetchRowStep(c, u, inputRegisters);
      && (r.state == WAITING ==> r.cursor == c && Pending(r.cursor, r.upstream) == Pending(c, u))
      && (r.row.Some? ==> Pending(c, u) != [] && r.row.value == Pending(c, u)[0]
                          && Pending(r.cursor, r.upstream) == Pending(c, u)[1..])
      && (r.row.Some? ==> r.cursor.block.Some? && 0 < r.cursor.rowIndex <= |r.cursor.block.value.block.rows|
                          && r.row.value == r.cursor.block.value.block.rows[r.cursor.rowIndex - 1])
      && (r.state != WAITING && r.row.None? ==> r.state == DONE && Pending(c, u) == [])
      && (r.state == DONE ==> Pending(r.cursor, r.upstream) == [])
  {
    if IndexIsValid(c) {
      EmitRowDelivers(c, u);
    } else {
      FetchedRowDelivers(c, u, inputRegisters);
    }
  }

  /** `FetchRowStepDelivers` when the current block is used up: the row, if
      any, is the first of the block just fetched. */
  lemma FetchedRowDelivers(c: RowCursor, u: Upstream, inputRegisters: set<RegisterId>)
    requires CursorOk(c, u) && !IndexIsValid(c)
    ensures var r := FetchRowStep(c, u, inputRegisters);
      && (r.state == WAITING ==> r.cursor == c && Pending(r.cursor, r.upstream) == Pending(c, u))
      && (r.row.Some? ==> Pending(c, u) != [] && r.row.value == Pending(c, u)[0]
                          && Pending(r.cursor, r.upstream) == Pending(c, u)[1..])
      && (r.row.Some? ==> r.cursor.block.Some? && 0 < r.cursor.rowIndex <= |r.cursor.block.value.block.rows|
                          && r.row.value == r.cursor.block.value.block.rows[r.cursor.rowIndex - 1])
      && (r.state != WAITING && r.row.None? ==> r.state == DONE && Pending(c, u) == [])
      && (r.state == DONE ==> Pending(r.cursor, r.upstream) == [])
  {
    FetchBlockKeepsContract(u, inputRegisters);
    var f := FetchBlock(u, inputRegisters);
    FetchBlockConservesRows(u, inputRegisters);
    if f.state != WAITING {
      var c' := RowCursor(f.shell, 0, f.state);
      if f.shell.None? {
        assert |u.replies| > 0 ==> ReplyOk(u.replies[0]);
      } else {
        var rows := f.shell.value.block.rows;
        assert rows == rows[0..];
      }
      EmitRowDelivers(c', f.upstream);
    }
  }

  lemma EmitRowDelivers(c: RowCursor, u: Upstream)
    requires CursorOk(c, u) && (c.block.None? || IndexIsValid(c))
    ensures var r := EmitRow(c, u);
      && r.state != WAITING
      && (r.row.Some? ==> Pending(c, u) != [] && r.row.value == Pending(c, u)[0]
                          && Pending(r.cursor, r.upstream) == Pending(c, u)[1..])
      && (r.row.Some? ==> r.cursor.block.Some? && 0 < r.cursor.rowIndex <= |r.cursor.block.value.block.rows|
                          && r.row.value == r.cursor.block.value.block.rows[r.cursor.rowIndex - 1])
      && (r.row.None? ==> r.state == DONE && Pending(c, u) == AllRows(u.replies))
      && (r.state == DONE && r.row.Some? ==> Pending(r.cursor, r.upstream) == [])
      && (c.block.None? ==> r.state == DONE && r.row.None?)
      && (c.block.Some? ==> r.row.Some?)
      && (c.block.Some? ==>
            (r.state == DONE <==> c.rowIndex == |c.block.value.block.rows| - 1 && c.upstreamState == DONE))
  {
    if c.block.Some? {
      var rows := c.block.value.block.rows;
      assert rows[c.rowIndex..] == [rows[c.rowIndex]] + rows[c.rowIndex + 1..];
    }
  }

  /** Each `fetchRow` makes exactly one upstream fetch when the current
      block is used up and none otherwise. */
  lemma FetchRowStepFetchCount(c: RowCursor, u: Upstream, inputRegisters: set<RegisterId>)
    requires CursorOk(c, u)
    ensures var r := FetchRowStep(c, u, inputRegisters);
      |r.upstream.requests| == |u.requests| + (if IndexIsValid(c) then 0 else 1)
  {
  }

  /** Upstream replies with no WAITING among them. */
  ghost predicate NeverWaits(u: Upstream)
  {
    forall i :: 0 <= i < |u.replies| ==> u.replies[i].state != WAITING
  }

  /** A WAITING from `fetchRow` is always upstream's own WAITING, passed on:
      an upstream that never waits is never waited for, before or after
      the call. */
  lemma FetchRowStepWaitsOnlyForUpstream(c: RowCursor, u: Upstream, inputRegisters: set<RegisterId>)
    requires CursorOk(c, u)
    ensures var r := FetchRowStep(c, u, inputRegisters);
      && (r.state == WAITING ==> |u.replies| > 0 && u.replies[0].state == WAITING)
      && (NeverWaits(u) ==> NeverWaits(r.upstream))
  {
    var r := FetchRowStep(c, u, inputRegisters);
    if NeverWaits(u) && !IndexIsValid(c) && |u.replies| > 0 {
      forall i | 0 <= i < |r.upstream.replies|
        ensures r.upstream.replies[i].state != WAITING
      {
        assert r.upstream.replies[i] == u.replies[i + 1];
      }
    }
  }

  datatype Fetch = Fetch(state: ExecutionState, row: Option<Row>)

  /** The results of `n` successive `fetchRow` calls, and where the cursor
      and its upstream stand afterwards. */
  datatype Outcome = Outcome(trace: seq<Fetch>, cursor: RowCursor, upstream: Upstream)

  function Run(c: RowCursor, u: Upstream, inputRegisters: set<RegisterId>, n: nat): (o: Outcome)
    requires CursorOk(c, u)
    ensures CursorOk(o.cursor, o.upstream)
    decreases n
  {
    if n == 0 then Outcome([], c, u)
    else
      FetchRowStepPairing(c, u, inputRegisters);
      var step := FetchRowStep(c, u, inputRegisters);
      var o := Run(step.cursor, step.upstream, inputRegisters, n - 1);
      Outcome([Fetch(step.state, step.row)] + o.trace, o.cursor, o.upstream)
  }

  /** Running `n + m` fetches is running `n` and then `m` more. */
  lemma {:induction false} RunAppend(c: RowCursor, u: Upstream, inputRegisters: set<RegisterId>, n: nat, m: nat)
    requires CursorOk(c, u)
    ensures var o1 := Run(c, u, inputRegisters, n);
            var o2 := Run(o1.cursor, o1.upstream, inputRegisters, m);
            Run(c, u, inputRegisters, n + m) == Outcome(o1.trace + o2.trace, o2.cursor, o2.upstream)
    decreases n
  {
    if n == 0 {
      var o2 := Run(c, u, inputRegisters, m);
      assert [] + o2.trace == o2.trace;
    } else {
      FetchRowStepPairing(c, u, inputRegisters);
      var step := FetchRowStep(c, u, inputRegisters);
      RunAppend(step.cursor, step.upstream, inputRegisters, n - 1, m);
      var o1 := Run(step.cursor, step.upstream, inputRegisters, n - 1);
      var o2 := Run(o1.cursor, o1.upstream, inputRegisters, m);
      assert [Fetch(step.state, step.row)] + (o1.trace + o2.trace)
          == ([Fetch(step.state, step.row)] + o1.trace) + o2.trace;
    }
  }

  /** How the rows of one block are reported: each with HASMORE, except the
      last, which carries the state upstream sent with the block. */
  function Delivered(rows: seq<Row>, last: ExecutionState): (t: seq<Fetch>)
    requires |rows| > 0
    ensures |t| == |rows|
  {
    if |rows| == 1 then [Fetch(last, Some(rows[0]))]
    else [Fetch(HASMORE, Some(rows[0]))] + Delivered(rows[1..], last)
  }

  /** The rest of the current block comes out row by row, in order, with no
      upstream fetch. */
  lemma {:induction false} DrainBlock(c: RowCursor, u: Upstream, inputRegisters: set<RegisterId>)
    requires CursorOk(c, u) && IndexIsValid(c)
    ensures var rows := c.block.value.block.rows;
      Run(c, u, inputRegisters, |rows| - c.rowIndex)
        == Outcome(Delivered(rows[c.rowIndex..], c.upstreamState), c.(rowIndex := |rows|), u)
    decreases |c.block.value.block.rows| - c.rowIndex
  {
    var rows := c.block.value.block.rows;
    var c' := c.(rowIndex := c.rowIndex + 1);
    assert FetchRowStep(c, u, inputRegisters).cursor == c';
    assert rows[c.rowIndex..][1..] == rows[c'.rowIndex..];
    if IndexIsValid(c') {
      DrainBlock(c', u, inputRegisters);
    }
  }

  /** A block upstream sends is fetched with exactly one upstream call and
      then delivered completely. */
  lemma BlockDelivery(c: RowCursor, u: Upstream, inputRegisters: set<RegisterId>, b: Block, st: ExecutionState)
    requires CursorOk(c, u) && !IndexIsValid(c)
    requires NextReply(u) == Reply(st, Some(b)) && st != WAITING
    ensures Run(c, u, inputRegisters, |b.rows|)
         == Outcome(Delivered(b.rows, st), RowCursor(Some(InputShell(b, inputRegisters)), |b.rows|, st),
                    GetSome(u, DefaultBatchSize).1)
  {
    FetchBlockKeepsContract(u, inputRegisters);
    var f := FetchBlock(u, inputRegisters);
    var c' := RowCursor(f.shell, 0, f.state);
    var o := Run(c', f.upstream, inputRegisters, |b.rows|);
    DrainBlock(c', f.upstream, inputRegisters);
    RunAppend(c, u, inputRegisters, 1, |b.rows| - 1);
    RunAppend(c', f.upstream, inputRegisters, 1, |b.rows| - 1);
    assert b.rows[0..] == b.rows;
  }

  /** A WAITING from upstream is reported as it is and moves nothing but
      the upstream's script. */
  lemma WaitDelivery(c: RowCursor, u: Upstream, inputRegisters: set<RegisterId>)
    requires CursorOk(c, u) && !IndexIsValid(c) && NextReply(u).state == WAITING
    ensures Run(c, u, inputRegisters, 1) == Outcome([Fetch(WAITING, None)], c, GetSome(u, DefaultBatchSize).1)
  {
  }

  /** A WAITING ahead of a block adds exactly one WAITING result and one
      upstream fetch before the block's rows. */
  lemma WaitThenBlock(c: RowCursor, u: Upstream, inputRegisters: set<RegisterId>, b: Block, st: ExecutionState,
                      rest: seq<Reply>)
    requires CursorOk(c, u) && !IndexIsValid(c)
    requires u.replies == [Reply(WAITING, None), Reply(st, Some(b))] + rest && st != WAITING && IsFilled(b)
    ensures Run(c, u, inputRegisters, 1 + |b.rows|)
         == Outcome([Fetch(WAITING, None)] + Delivered(b.rows, st),
                    RowCursor(Some(InputShell(b, inputRegisters)), |b.rows|, st),
                    Upstream(rest, u.requests + [DefaultBatchSize, DefaultBatchSize]))
  {
    RunAppend(c, u, inputRegisters, 1, |b.rows|);
    WaitDelivery(c, u, inputRegisters);
    var u1 := GetSome(u, DefaultBatchSize).1;
    assert u1.replies == [Reply(st, Some(b))] + rest;
    BlockDelivery(c, u1, inputRegisters, b, st);
    assert GetSome(u1, DefaultBatchSize).1 == Upstream(rest, u.requests + [DefaultBatchSize, DefaultBatchSize]);
  }

  /** A reply that hands over a block. */
  ghost predicate BlockReply(r: Reply)
  {
    r.state != WAITING && r.block.Some? && IsFilled(r.block.value)
  }

  /** The replies `rs`, each announced by a WAITING. */
  function Waited(rs: seq<Reply>): (w: seq<Reply>)
    ensures |w| == 2 * |rs|
  {
    if rs == [] then [] else [Reply(WAITING, None), rs[0]] + Waited(rs[1..])
  }

  /** How the fetcher reports `Waited(rs)`: the WAITING, then the rows of
      the block. */
  function WaitedTrace(rs: seq<Reply>): (t: seq<Fetch>)
    requires forall i :: 0 <= i < |rs| ==> BlockReply(rs[i])
  {
    if rs == [] then []
    else
      assert BlockReply(rs[0]);
      [Fetch(WAITING, None)] + Delivered(rs[0].block.value.rows, rs[0].state) + WaitedTrace(rs[1..])
  }

  /** The number of `fetchRow` calls that report `Waited(rs)`. */
  function WaitedCalls(rs: seq<Reply>): nat
    requires forall i :: 0 <= i < |rs| ==> BlockReply(rs[i])
  {
    if rs == [] then 0
    else
      assert BlockReply(rs[0]);
      1 + |rs[0].block.value.rows| + WaitedCalls(rs[1..])
  }

  /** Blocks each announced by a WAITING come out in upstream order, each
      WAITING reported once, with two upstream fetches per block, and the
      cursor ends at the end of the last block. */
  lemma {:induction false} WaitedDelivery(c: RowCursor, u: Upstream, inputRegisters: set<RegisterId>,
                                          rs: seq<Reply>, rest: seq<Reply>)
    requires CursorOk(c, u) && !IndexIsValid(c)
    requires forall i :: 0 <= i < |rs| ==> BlockReply(rs[i])
    requires u.replies == Waited(rs) + rest
    ensures var o := Run(c, u, inputRegisters, WaitedCalls(rs));
      && o.trace == WaitedTrace(rs)
      && o.upstream.replies == rest && |o.upstream.requests| == |u.requests| + 2 * |rs|
      && !IndexIsValid(o.cursor)
      && (rs != [] ==> o.cursor.upstreamState == rs[|rs| - 1].state)
    decreases |rs|
  {
    if rs == [] {
      assert u.replies == rest;
    } else {
      assert BlockReply(rs[0]);
      var b, st := rs[0].block.value, rs[0].state;
      var tail := Waited(rs[1..]) + rest;
      assert u.replies == [Reply(WAITING, None), Reply(st, Some(b))] + tail;
      WaitThenBlock(c, u, inputRegisters, b, st, tail);
      var n1 := 1 + |b.rows|;
      var o1 := Run(c, u, inputRegisters, n1);
      WaitedDelivery(o1.cursor, o1.upstream, inputRegisters, rs[1..], rest);
      RunAppend(c, u, inputRegisters, n1, WaitedCalls(rs[1..]));
      if rs[1..] != [] {
        assert rs[1..][|rs[1..]| - 1] == rs[|rs| - 1];
      }
    }
  }

  /** DONE without a block ends the stream with a null row. */
  lemma DoneDelivery(c: RowCursor, u: Upstream, inputRegisters: set<RegisterId>)
    requires CursorOk(c, u) && !IndexIsValid(c) && NextReply(u) == Reply(DONE, None)
    ensures Run(c, u, inputRegisters, 1)
         == Outcome([Fetch(DONE, None)], RowCursor(None, 0, DONE), GetSome(u, DefaultBatchSize).1)
  {
  }

  /** `SingleRowFetcher` over one upstream dependency. */
  class SingleRowFetcher {
    const inputRegisters: set<RegisterId>
    var currentBlock: Option<InputShell>
    var rowIndex: nat
    var upstreamState: ExecutionState
    var upstream: Upstream

    function Cursor(): RowCursor
      reads this
    {
      RowCursor(currentBlock, rowIndex, upstreamState)
    }

    ghost predicate Valid()
      reads this
    {
      CursorOk(Cursor(), upstream)
    }

    constructor (upstream: Upstream, inputRegisters: set<RegisterId>)
      requires WellFormed(upstream)
      ensures Valid() && Cursor() == InitialCursor
      ensures this.upstream == upstream && this.inputRegisters == inputRegisters
    {
      this.inputRegisters := inputRegisters;
      this.upstream := upstream;
      currentBlock := None;
      rowIndex := 0;
      upstreamState := HASMORE;
    }

    /** `fetchRow`. */
    method FetchRow() returns (state: ExecutionState, row: Option<Row>)
      requires Valid()
      modifies this
      ensures Valid()
      ensures RowStep(state, row, Cursor(), upstream) == FetchRowStep(old(Cursor()), old(upstream), inputRegisters)
    {
      FetchRowStepPairing(Cursor(), upstream, inputRegisters);
      if !IndexIsValid(Cursor()) {
        var f := FetchBlock(upstream, inputRegisters);
        FetchBlockKeepsContract(upstream, inputRegisters);
        upstream := f.upstream;
        if f.state == WAITING {
          return WAITING, None;
        }
        currentBlock := f.shell;
        rowIndex := 0;
        upstreamState := f.state;
      }
      if currentBlock.None? {
        return DONE, None;
      }
      var rows := currentBlock.value.block.rows;
      row := Some(rows[rowIndex]);
      state := if rowIndex == |rows| - 1 && upstreamState == DONE then DONE else HASMORE;
      rowIndex := rowIndex + 1;
    }
  }
}
