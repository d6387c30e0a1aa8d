/** The low-level fetcher (`BlockFetcher`): one `getSome` on an upstream
    execution block, the answer wrapped together with the fetcher's input
    registers. Upstream blocks are scripted, the way the test mock scripts
    them, so every function here takes the upstream as a value and returns
    the upstream as it is after the call. */
module BlockFetcher {
  import opened AqlTypes

  /** What one upstream `getSome` call returns. */
  datatype Reply = Reply(state: ExecutionState, block: Option<Block>)

  /** An upstream execution block: the replies its `getSome` still has to
      give, in order, and the row counts it has been asked for so far
      (`requests`, one entry per call). */
  datatype Upstream = Upstream(replies: seq<Reply>, requests: seq<nat>)

  /** The answer of the next `getSome`; an upstream that has given all its
      replies keeps answering DONE without a block. */
  function NextReply(u: Upstream): Reply
  {
    if |u.replies| == 0 then Reply(DONE, None) else u.replies[0]
  }

  function GetSome(u: Upstream, atMost: nat): (r: (Reply, Upstream))
    ensures r.0 == NextReply(u) && r.1.requests == u.requests + [atMost]
    ensures |u.replies| > 0 ==> r.1.replies == u.replies[1..]
    ensures |u.replies| == 0 ==> r.1.replies == []
  {
    if |u.replies| == 0 then (Reply(DONE, None), Upstream([], u.requests + [atMost]))
    else (u.replies[0], Upstream(u.replies[1..], u.requests + [atMost]))
  }

  /** The contract every upstream `getSome` keeps: WAITING carries no block,
      HASMORE carries one, blocks are never empty, and DONE is final. */
  ghost predicate ReplyOk(r: Reply)
  {
    && (r.state == WAITING ==> r.block.None?)
    && (r.state == HASMORE ==> r.block.Some?)
    && (r.block.Some? ==> IsFilled(r.block.value))
  }

  ghost predicate WellFormed(u: Upstream)
  {
    forall i :: 0 <= i < |u.replies| ==>
      ReplyOk(u.replies[i]) && (u.replies[i].state == DONE ==> i == |u.replies| - 1)
  }

  /** Every row the replies still carry, in delivery order. */
  function AllRows(replies: seq<Reply>): (rows: seq<Row>)
    ensures replies == [] ==> rows == []
  {
    if replies == [] then []
    else (if replies[0].block.Some? then replies[0].block.value.rows else []) + AllRows(replies[1..])
  }

  /** An `InputAqlItemBlockShell`: a fetched block and the registers the
      rows read from it are addressed through. */
  datatype InputShell = InputShell(block: Block, inputRegisters: set<RegisterId>)

  function ShellRows(s: Option<InputShell>): seq<Row>
  {
    if s.Some? then s.value.block.rows else []
  }

  datatype Fetched = Fetched(state: ExecutionState, shell: Option<InputShell>, upstream: Upstream)

  /** `fetchBlock`: one `getSome(DefaultBatchSize)` on the upstream; the
      state is passed on unchanged and a block, if any, is wrapped. */
  function FetchBlock(u: Upstream, inputRegisters: set<RegisterId>): (f: Fetched)
    ensures f.state == NextReply(u).state
    ensures f.shell.Some? <==> NextReply(u).block.Some?
    ensures f.shell.Some? ==> f.shell.value == InputShell(NextReply(u).block.value, inputRegisters)
    ensures f.upstream.requests == u.requests + [DefaultBatchSize]
  {
    var (reply, rest) := GetSome(u, DefaultBatchSize);
    if reply.block.Some? then Fetched(reply.state, Some(InputShell(reply.block.value, inputRegisters)), rest)
    else Fetched(reply.state, None, rest)
  }

  /** A fetch loses no row and invents none: the rows the upstream still had
      are the rows of the fetched block followed by those it still has. */
  lemma FetchBlockConservesRows(u: Upstream, inputRegisters: set<RegisterId>)
    ensures AllRows(u.replies) == ShellRows(FetchBlock(u, inputRegisters).shell)
                                  + AllRows(FetchBlock(u, inputRegisters).upstream.replies)
  {
  }

  /** Upstream's contract carries over to the fetched result and to the
      upstream that remains. */
  lemma FetchBlockKeepsContract(u: Upstream, inputRegisters: set<RegisterId>)
    requires WellFormed(u)
    ensures var f := FetchBlock(u, inputRegisters);
      && (f.state == WAITING ==> f.shell.None?)
      && (f.state == HASMORE ==> f.shell.Some?)
      && (f.shell.Some? ==> IsFilled(f.shell.value.block))
      && (f.state == DONE ==> f.upstream.replies == [])
      && WellFormed(f.upstream)
  {
    var f := FetchBlock(u, inputRegisters);
    if |u.replies| > 0 {
      assert ReplyOk(u.replies[0]);
      forall i | 0 <= i < |f.upstream.replies|
        ensures ReplyOk(f.upstream.replies[i])
        ensures f.upstream.replies[i].state == DONE ==> i == |f.upstream.replies| - 1
      {
        assert f.upstream.replies[i] == u.replies[i + 1];
      }
    }
  }

  datatype DependencyFetched = DependencyFetched(state: ExecutionState, shell: Option<InputShell>,
                                                 dependencies: seq<Upstream>)

  /** `fetchBlockOfDependency`: the same pull, from the dependency at
      `dependencyIndex` only; every other dependency is left as it was. */
  function FetchBlockOfDependency(dependencies: seq<Upstream>, inputRegisters: set<RegisterId>,
                                  dependencyIndex: nat): (f: DependencyFetched)
    requires dependencyIndex < |dependencies|
    ensures |f.dependencies| == |dependencies|
    ensures forall j :: 0 <= j < |dependencies| && j != dependencyIndex ==> f.dependencies[j] == dependencies[j]
    ensures f.state == NextReply(dependencies[dependencyIndex]).state
    ensures f.shell.Some? <==> NextReply(dependencies[dependencyIndex]).block.Some?
    ensures f.shell.Some? ==>
              f.shell.value == InputShell(NextReply(dependencies[dependencyIndex]).block.value, inputRegisters)
    ensures f.dependencies[dependencyIndex].requests == dependencies[dependencyIndex].requests + [DefaultBatchSize]
  {
    var (reply, rest) := GetSome(dependencies[dependencyIndex], DefaultBatchSize);
    var deps := dependencies[dependencyIndex := rest];
    if reply.block.Some? then DependencyFetched(reply.state, Some(InputShell(reply.block.value, inputRegisters)), deps)
    else DependencyFetched(reply.state, None, deps)
  }

  /** Pulling from one dependency is the single-upstream fetch applied to
      that dependency. */
  lemma FetchBlockOfDependencyIsFetchBlock(dependencies: seq<Upstream>, inputRegisters: set<RegisterId>,
                                           dependencyIndex: nat)
    requires dependencyIndex < |dependencies|
    ensures var f := FetchBlockOfDependency(dependencies, inputRegisters, dependencyIndex);
            var g := FetchBlock(dependencies[dependencyIndex], inputRegisters);
            f.state == g.state && f.shell == g.shell && f.dependencies == dependencies[dependencyIndex := g.upstream]
  {
  }
}
