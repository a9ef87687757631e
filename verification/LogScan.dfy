// The admin activity scan (apps/web/src/lib/admin-protocol.ts) and its paging
// (apps/web/src/components/admin-workspace.tsx). Decoding and display order of the logs are not modelled.
module LogScan {
  import opened Options

  datatype Log = Log(block: nat, index: nat, payload: nat)

  // What the node does with one eth_getLogs request: it serves the range in full, rejects its size, or fails.
  datatype Answer = Served | TooLarge | Failed

  // The node's logs, block by block, and its answer to each range.
  datatype Node = Node(logs: nat -> seq<Log>, answer: (nat, nat) -> Answer)

  datatype ScanError = RangeLimit(from: nat, to: nat) | Broken(from: nat, to: nat)

  const MAX_DEPTH := 20
  const OUTER_RANGE := 9_500
  const PAGE := 200_000

  // The logs of blocks from..to in chain order; none when to < from.
  function Between(logs: nat -> seq<Log>, from: nat, to: int): seq<Log>
    decreases (to - from + 1)
  {
    if to < from then [] else Between(logs, from, to - 1) + logs(to)
  }

  lemma {:induction false} BetweenJoins(logs: nat -> seq<Log>, from: nat, mid: int, to: int)
    requires from - 1 <= mid <= to
    ensures Between(logs, from, to) == Between(logs, from, mid) + Between(logs, mid + 1, to)
    decreases (to - mid)
  {
    if mid < to { BetweenJoins(logs, from, mid, to - 1); }
  }

  // ---- bisection ----

  function ReadLogsRange(node: Node, from: nat, to: nat, depth: nat): Result<seq<Log>, ScanError>
    decreases (to - from)
  {
    match node.answer(from, to)
    case Served => Ok(Between(node.logs, from, to))
    case Failed => Err(Broken(from, to))
    case TooLarge =>
      if from >= to || depth >= MAX_DEPTH then Err(RangeLimit(from, to))
      else
        var midpoint := from + (to - from) / 2;
        match ReadLogsRange(node, from, midpoint, depth + 1)
        case Err(e) => Err(e)
        case Ok(left) =>
          match ReadLogsRange(node, midpoint + 1, to, depth + 1)
          case Err(e) => Err(e)
          case Ok(right) => Ok(left + right)
  }

  // A failure names a range inside the one that was read, and what the node answered to it.
  lemma {:induction false} FailureIsInside(node: Node, from: nat, to: nat, depth: nat)
    requires from <= to
    ensures var r := ReadLogsRange(node, from, to, depth);
            r.Err? ==>
              && from <= r.error.from <= r.error.to <= to
              && node.answer(r.error.from, r.error.to) == if r.error.Broken? then Failed else TooLarge
    decreases (to - from)
  {
    if node.answer(from, to).TooLarge? && from < to && depth < MAX_DEPTH {
      var midpoint := from + (to - from) / 2;
      FailureIsInside(node, from, midpoint, depth + 1);
      FailureIsInside(node, midpoint + 1, to, depth + 1);
    }
  }

  // At depth 20, and there first, a range is not halved again.
  lemma DepthLimits(node: Node, from: nat, to: nat, depth: nat)
    requires node.answer(from, to).TooLarge? && from < to
    ensures 20 <= depth ==> ReadLogsRange(node, from, to, depth) == Err(RangeLimit(from, to))
    ensures depth < 20 && (forall a, b | from <= a <= b <= to && b - a < to - from :: node.answer(a, b).Served?) ==>
              ReadLogsRange(node, from, to, depth).Ok?
  {
    var midpoint := from + (to - from) / 2;
    assert from <= midpoint < to;
  }

  // However the range was bisected, nothing is missing, repeated or out of order.
  lemma {:induction false} ReadIsExact(node: Node, from: nat, to: nat, depth: nat)
    ensures var r := ReadLogsRange(node, from, to, depth); r.Ok? ==> r.value == Between(node.logs, from, to)
    decreases (to - from)
  {
    if node.answer(from, to).TooLarge? && from < to && depth < MAX_DEPTH {
      var midpoint := from + (to - from) / 2;
      ReadIsExact(node, from, midpoint, depth + 1);
      ReadIsExact(node, midpoint + 1, to, depth + 1);
      BetweenJoins(node.logs, from, midpoint, to);
    }
  }

  function Pow2(n: nat): nat {
    if n == 0 then 1 else 2 * Pow2(n - 1)
  }

  // A single block the node will not serve, or a range it failed on.
  ghost predicate IsCause(node: Node, from: nat, to: nat, e: ScanError) {
    && from <= e.from <= e.to <= to
    && match e
       case Broken(a, b) => node.answer(a, b).Failed?
       case RangeLimit(a, b) => a == b && node.answer(a, b).TooLarge?
  }

  // While the range fits the depth that is left, the depth limit is never the reason of a failure.
  lemma {:induction false} DepthSuffices(node: Node, from: nat, to: nat, depth: nat)
    requires from <= to && depth <= 20 && to - from + 1 <= Pow2(20 - depth)
    ensures var r := ReadLogsRange(node, from, to, depth); r.Err? ==> IsCause(node, from, to, r.error)
    decreases (to - from)
  {
    if node.answer(from, to).TooLarge? && from < to {
      var midpoint := from + (to - from) / 2;
      assert Pow2(20 - depth) == 2 * Pow2(20 - depth - 1);
      DepthSuffices(node, from, midpoint, depth + 1);
      DepthSuffices(node, midpoint + 1, to, depth + 1);
    }
  }

  // Ranges of at most 9,500 blocks are far inside the depth limit of 20.
  lemma OuterRead(node: Node, from: nat, to: nat)
    requires from <= to && to - from + 1 <= 9_500
    ensures var r := ReadLogsRange(node, from, to, 0);
            if r.Ok? then r.value == Between(node.logs, from, to) else IsCause(node, from, to, r.error)
  {
    assert Pow2(4) == 16;
    assert Pow2(8) == 256;
    assert Pow2(12) == 4096;
    assert Pow2(16) == 65536;
    assert Pow2(20) == 1048576;
    DepthSuffices(node, from, to, 0);
    ReadIsExact(node, from, to, 0);
  }

  // ---- one page ----

  datatype Span = Span(from: nat, to: nat, hasOlder: bool)

  // A requested block of zero counts as not requested.
  function ToBlock(latest: nat, requested: Option<nat>): nat {
    if requested.Some? && requested.value != 0 && requested.value < latest then requested.value else latest
  }

  function SpanOf(deployment: nat, latest: nat, requested: Option<nat>): Span {
    var to := ToBlock(latest, requested);
    if to < deployment then Span(deployment, deployment, false)
    else
      var start := if to - deployment + 1 > PAGE then to - PAGE + 1 else deployment;
      Span(start, to, start > deployment)
  }

  datatype Page = Page(span: Span, logs: seq<Log>)

  // The page holds exactly the logs of its span, or the scan stopped at a block that cannot be read.
  method LoadAdminActivity(node: Node, deployment: nat, latest: nat, requested: Option<nat>)
    returns (page: Result<Page, ScanError>)
    ensures page.Ok? ==> page.value.span == SpanOf(deployment, latest, requested)
    ensures page.Ok? ==> page.value.logs == if ToBlock(latest, requested) < deployment then []
                                            else Between(node.logs, page.value.span.from, page.value.span.to)
    ensures page.Err? ==> IsCause(node, SpanOf(deployment, latest, requested).from, ToBlock(latest, requested),
                                  page.error)
  {
    var toBlock := latest;
    if requested.Some? && requested.value != 0 && requested.value < latest { toBlock := requested.value; }
    if toBlock < deployment { return Ok(Page(Span(deployment, deployment, false), [])); }
    var windowStart := if toBlock - deployment + 1 > PAGE then toBlock - PAGE + 1 else deployment;
    var rawLogs := [];
    var from := windowStart;
    while from <= toBlock
      invariant windowStart <= from
      invariant rawLogs == Between(node.logs, windowStart, if from <= toBlock then from - 1 else toBlock)
    {
      var to := if from + OUTER_RANGE - 1 > toBlock then toBlock else from + OUTER_RANGE - 1;
      var part := ReadLogsRange(node, from, to, 0);
      OuterRead(node, from, to);
      if part.Err? { return Err(part.error); }
      BetweenJoins(node.logs, windowStart, from - 1, to);
      rawLogs := rawLogs + part.value;
      from := from + OUTER_RANGE;
    }
    return Ok(Page(Span(windowStart, toBlock, windowStart > deployment), rawLogs));
  }

  // ---- paging: each older page ends just below the page before ----

  // latest(k) is the chain's last block when page k is read.
  function NthPage(deployment: nat, latest: nat -> nat, k: nat): Option<Span> {
    if k == 0 then Some(SpanOf(deployment, latest(0), None))
    else
      match NthPage(deployment, latest, k - 1)
      case None => None
      case Some(newer) =>
        if newer.hasOlder then Some(SpanOf(deployment, latest(k), Some(newer.from - 1))) else None
  }

  ghost predicate OnPage(deployment: nat, latest: nat -> nat, k: nat, block: nat) {
    && NthPage(deployment, latest, k).Some?
    && NthPage(deployment, latest, k).value.from <= block <= NthPage(deployment, latest, k).value.to
  }

  ghost predicate Grows(latest: nat -> nat) {
    forall k: nat :: latest(k) >= latest(0)
  }

  // The caller can ask for block zero, which the scan takes as no request.
  predicate AsksForZero(deployment: nat, latest: nat) {
    deployment == 0 && latest > 0 && latest % 200_000 == 0
  }

  function ClosedForm(deployment: nat, last: nat, k: nat): Option<Span> {
    var to := last - 200_000 * k;
    if to < deployment then None
    else
      var start := if to - deployment + 1 > 200_000 then to - 200_000 + 1 else deployment;
      Some(Span(start, to, start > deployment))
  }

  // Pages go down in steps of 200,000 as long as block zero is not asked for.
  lemma {:induction false} PagesDescend(deployment: nat, latest: nat -> nat, k: nat)
    requires Grows(latest) && deployment <= latest(0)
    requires AsksForZero(deployment, latest(0)) ==> 200_000 * k < latest(0)
    ensures NthPage(deployment, latest, k) == ClosedForm(deployment, latest(0), k)
  {
    if k > 0 {
      PagesDescend(deployment, latest, k - 1);
      var newer := ClosedForm(deployment, latest(0), k - 1);
      if newer.Some? && newer.value.hasOlder {
        assert newer.value.from - 1 == latest(0) - 200_000 * k;
        assert latest(k) >= latest(0);
        assert (200_000 * k) % 200_000 == 0;
      }
    }
  }

  ghost predicate OnOnePage(deployment: nat, latest: nat -> nat, block: nat) {
    && (exists k: nat :: OnPage(deployment, latest, k, block))
    && (forall j: nat, k: nat | OnPage(deployment, latest, j, block) && OnPage(deployment, latest, k, block) :: j == k)
  }

  ghost predicate EachBlockOnce(deployment: nat, latest: nat -> nat) {
    forall block: nat | deployment <= block <= latest(0) :: OnOnePage(deployment, latest, block)
  }

  lemma PageOfBlock(deployment: nat, latest: nat -> nat, block: nat, k: nat)
    requires Grows(latest) && deployment <= block <= latest(0) && !AsksForZero(deployment, latest(0))
    ensures OnPage(deployment, latest, k, block) <==> k == (latest(0) - block) / 200_000
  {
    PagesDescend(deployment, latest, k);
  }

  lemma BlockIsOnOnePage(deployment: nat, latest: nat -> nat, block: nat)
    requires Grows(latest) && deployment <= block <= latest(0) && !AsksForZero(deployment, latest(0))
    ensures OnOnePage(deployment, latest, block)
  {
    PageOfBlock(deployment, latest, block, (latest(0) - block) / 200_000);
    forall j: nat, k: nat | OnPage(deployment, latest, j, block) && OnPage(deployment, latest, k, block)
      ensures j == k
    {
      PageOfBlock(deployment, latest, block, j);
      PageOfBlock(deployment, latest, block, k);
    }
  }

  // Following hasOlder scans every block from deployment to the first latest block exactly once, unless
  // block zero is asked for. A configured deployment block is positive.
  lemma PagingIsExact(deployment: nat, latest: nat -> nat)
    requires Grows(latest)
    ensures EachBlockOnce(deployment, latest) <==> !AsksForZero(deployment, latest(0))
  {
    if AsksForZero(deployment, latest(0)) {
      BlockZeroSpoils(deployment, latest);
    } else {
      forall block: nat | deployment <= block <= latest(0) ensures OnOnePage(deployment, latest, block) {
        BlockIsOnOnePage(deployment, latest, block);
      }
    }
  }

  lemma ZeroPageHasOne(deployment: nat, latest: nat -> nat, k: nat)
    requires Grows(latest) && latest(0) > 0 && OnPage(deployment, latest, k, 0)
    ensures OnPage(deployment, latest, k, 1)
  {
    assert latest(k) >= latest(0);
  }

  lemma BlockZeroSpoils(deployment: nat, latest: nat -> nat)
    requires Grows(latest) && AsksForZero(deployment, latest(0))
    ensures !EachBlockOnce(deployment, latest)
  {
    var m := latest(0) / 200_000;
    PagesDescend(deployment, latest, m - 1);
    assert OnPage(deployment, latest, m - 1, 1) && !OnPage(deployment, latest, m - 1, 0);
    if EachBlockOnce(deployment, latest) {
      assert OnOnePage(deployment, latest, 0) && OnOnePage(deployment, latest, 1);
      var k: nat :| OnPage(deployment, latest, k, 0);
      ZeroPageHasOne(deployment, latest, k);
    }
  }

  // Paging stops: there is no page after the one that reaches the deployment block.
  lemma PagingStops(deployment: nat, latest: nat -> nat, k: nat)
    requires Grows(latest) && deployment <= latest(0) && !AsksForZero(deployment, latest(0))
    ensures NthPage(deployment, latest, k).Some? <==> k <= (latest(0) - deployment) / 200_000
  {
    PagesDescend(deployment, latest, k);
  }

  // The logs of pages n - 1, ..., 0, oldest first.
  function Collected(logs: nat -> seq<Log>, deployment: nat, latest: nat -> nat, n: nat): seq<Log> {
    if n == 0 then []
    else
      match NthPage(deployment, latest, n - 1)
      case None => Collected(logs, deployment, latest, n - 1)
      case Some(s) => Between(logs, s.from, s.to) + Collected(logs, deployment, latest, n - 1)
  }

  lemma {:induction false} PagesJoin(logs: nat -> seq<Log>, deployment: nat, latest: nat -> nat, n: nat)
    requires Grows(latest) && deployment <= latest(0) && !AsksForZero(deployment, latest(0))
    requires 0 < n <= (latest(0) - deployment) / 200_000 + 1
    ensures Collected(logs, deployment, latest, n)
            == Between(logs, ClosedForm(deployment, latest(0), n - 1).value.from, latest(0))
  {
    PagesDescend(deployment, latest, n - 1);
    var s := ClosedForm(deployment, latest(0), n - 1).value;
    if n > 1 {
      PagesJoin(logs, deployment, latest, n - 1);
      BetweenJoins(logs, s.from, s.to, latest(0));
    }
  }

  // All pages together are the logs from the deployment block to the first latest block, once and in order.
  lemma AllPagesAreTheHistory(logs: nat -> seq<Log>, deployment: nat, latest: nat -> nat)
    requires Grows(latest) && deployment <= latest(0) && !AsksForZero(deployment, latest(0))
    ensures Collected(logs, deployment, latest, (latest(0) - deployment) / 200_000 + 1) ==
            Between(logs, deployment, latest(0))
  {
    PagesJoin(logs, deployment, latest, (latest(0) - deployment) / 200_000 + 1);
  }
}
