/**
 * Reading back, comparing and updating the memory configuration (internal/controller/host/memory.go;
 * api/v1/constructors.go, PageSize and parseMemoryInfo).
 */
module Memory {
  import opened Prelude
  import opened Records
  import opened ProfileTypes

  const FUNCTION_PLATFORM := "platform"
  const FUNCTION_VSWITCH := "vswitch"
  const FUNCTION_VM := "vm"

  const PAGE_4K := "4KB"
  const PAGE_2M := "2MB"
  const PAGE_1G := "1GB"

  const KIBIBYTE := 1024
  const MEBIBYTE := 1024 * 1024
  const GIBIBYTE := 1024 * 1024 * 1024

  /** The memory of one node as the system reports it; platform memory in MiB, the rest in pages. */
  datatype MemoryNode = MemoryNode(
    processor: int, platform: int, vswitchSize: int, vswitchCount: int, vswitchRequired: Option<int>,
    vm2mCount: int, vm2mPending: Option<int>, vm1gCount: int, vm1gPending: Option<int>)

  /** Integer division of the source language, which truncates toward zero. */
  function Quotient(a: int, b: int): int
    requires b > 0
  {
    if a >= 0 then a / b else -((-a) / b)
  }

  function Bytes(size: string): int {
    if size == PAGE_1G then GIBIBYTE
    else if size == PAGE_2M then 2 * MEBIBYTE
    else if size == PAGE_4K then 4 * KIBIBYTE
    else 0
  }

  /** The page size in MiB; 0 for the sizes that are no huge pages. */
  function Megabytes(size: string): int {
    if size == PAGE_1G then 1024
    else if size == PAGE_2M then 2
    else 0
  }

  // ---- Counting pages --------------------------------------------------------------------------------------

  function PendingOr(pending: Option<int>, count: int): int {
    if pending.Some? then pending.value else count
  }

  function VSwitchPages(m: MemoryNode, size: string): int {
    if Megabytes(size) == m.vswitchSize then PendingOr(m.vswitchRequired, m.vswitchCount) else 0
  }

  function VMPages(m: MemoryNode, size: string): int {
    if size == PAGE_2M then PendingOr(m.vm2mPending, m.vm2mCount)
    else if size == PAGE_1G then PendingOr(m.vm1gPending, m.vm1gCount)
    else 0
  }

  function PlatformPages(m: MemoryNode, size: string): int {
    if size == PAGE_4K then Quotient(m.platform * MEBIBYTE, 4096) else 0
  }

  /** The pages one node has for a function. */
  function Pages(m: MemoryNode, func: string, size: string): Option<int> {
    if func == FUNCTION_VSWITCH then Some(VSwitchPages(m, size))
    else if func == FUNCTION_VM then Some(VMPages(m, size))
    else if func == FUNCTION_PLATFORM then Some(PlatformPages(m, size))
    else None
  }

  /** The sum over the reported nodes with this number. */
  function Total(memories: seq<MemoryNode>, node: int, pages: MemoryNode -> int): int {
    if memories == [] then 0
    else
      var n := |memories| - 1;
      Total(memories[..n], node, pages) + if memories[n].processor == node then pages(memories[n]) else 0
  }

  method CountBy(memories: seq<MemoryNode>, node: int, pages: MemoryNode -> int) returns (count: int)
    ensures count == Total(memories, node, pages)
  {
    count := 0;
    for k := 0 to |memories|
      invariant count == Total(memories[..k], node, pages)
    {
      assert memories[..k + 1][..k] == memories[..k];
      if memories[k].processor != node {
        continue;
      }
      count := count + pages(memories[k]);
    }
    assert memories[..|memories|] == memories;
  }

  function MemoryKeyOf(m: MemoryNode): int { m.processor }

  /** With one report per node the sum is the count of that node. */
  lemma {:induction false} TotalOfNode(memories: seq<MemoryNode>, m: MemoryNode, pages: MemoryNode -> int)
    requires UniqueBy(memories, MemoryKeyOf) && m in memories
    ensures Total(memories, m.processor, pages) == pages(m)
  {
    var n := |memories| - 1;
    assert memories == memories[..n] + [memories[n]];
    if m == memories[n] {
      forall i | 0 <= i < n ensures memories[i].processor != m.processor {
        assert MemoryKeyOf(memories[i]) != MemoryKeyOf(memories[n]);
      }
      TotalOfNone(memories[..n], m.processor, pages);
    } else {
      assert m in memories[..n];
      var i :| 0 <= i < n && memories[i] == m;
      assert MemoryKeyOf(memories[i]) != MemoryKeyOf(memories[n]);
      TotalOfNode(memories[..n], m, pages);
    }
  }

  lemma {:induction false} TotalOfNone(memories: seq<MemoryNode>, node: int, pages: MemoryNode -> int)
    requires forall m | m in memories :: m.processor != node
    ensures Total(memories, node, pages) == 0
  {
    if memories != [] {
      TotalOfNone(memories[..|memories| - 1], node, pages);
    }
  }

  // ---- Updating ----------------------------------------------------------------------------------------------

  datatype Opts = Opts(platform: Option<int>, vswitch: Option<int>, vswitchSize: Option<int>, vm2m: Option<int>,
                       vm1g: Option<int>)

  const NoOpts := Opts(None, None, None, None, None)

  /** What the update request for a function carries. */
  function OptsFor(f: MemoryFunctionInfo): Opts {
    if f.func == FUNCTION_VM then
      if f.pageSize == PAGE_1G then NoOpts.(vm1g := Some(f.pageCount))
      else if f.pageSize == PAGE_2M then NoOpts.(vm2m := Some(f.pageCount))
      else NoOpts
    else if f.func == FUNCTION_VSWITCH then
      if f.pageSize == PAGE_1G then NoOpts.(vswitch := Some(f.pageCount), vswitchSize := Some(1024))
      else if f.pageSize == PAGE_2M then NoOpts.(vswitch := Some(f.pageCount), vswitchSize := Some(2))
      else NoOpts
    else if f.func == FUNCTION_PLATFORM then
      NoOpts.(platform := Some(Quotient(f.pageCount * Bytes(f.pageSize), MEBIBYTE)))
    else NoOpts
  }

  /** The system takes huge page requests as pending and platform memory as it is. */
  function Applied(m: MemoryNode, o: Opts): MemoryNode {
    m.(platform := PendingOr(o.platform, m.platform),
       vswitchRequired := if o.vswitch.Some? then o.vswitch else m.vswitchRequired,
       vswitchSize := PendingOr(o.vswitchSize, m.vswitchSize),
       vm2mPending := if o.vm2m.Some? then o.vm2m else m.vm2mPending,
       vm1gPending := if o.vm1g.Some? then o.vm1g else m.vm1gPending)
  }

  predicate Known(func: string) {
    func == FUNCTION_PLATFORM || func == FUNCTION_VSWITCH || func == FUNCTION_VM
  }

  predicate Settled(m: MemoryNode, f: MemoryFunctionInfo) {
    Pages(m, f.func, f.pageSize) == Some(f.pageCount)
  }

  /** One reconciliation of one function: an update when the count differs. */
  function Updated(m: MemoryNode, f: MemoryFunctionInfo): MemoryNode {
    if Settled(m, f) then m else Applied(m, OptsFor(f))
  }

  // ---- Platform memory -----------------------------------------------------------------------------------------

  /** MiB to 4K pages and back is exact for every size. */
  lemma MebibytesExact(m: int)
    ensures Quotient(m * MEBIBYTE, 4096) == 256 * m
    ensures Quotient(Quotient(m * MEBIBYTE, 4096) * Bytes(PAGE_4K), MEBIBYTE) == m
  {
  }

  /** Writing p pages and recounting rounds toward zero to whole MiB, losing less than 256 pages. */
  lemma PlatformRounds(m: MemoryNode, p: int)
    ensures var recount :=
              PlatformPages(Applied(m, OptsFor(MemoryFunctionInfo(FUNCTION_PLATFORM, PAGE_4K, p))), PAGE_4K);
            && recount == 256 * Quotient(p, 256)
            && (recount == p <==> p % 256 == 0)
            && (p >= 0 ==> 0 <= p - recount < 256)
            && (p < 0 ==> 0 <= recount - p < 256)
  {
    var written := Quotient(p * Bytes(PAGE_4K), MEBIBYTE);
    MebibytesExact(written);
    DivideByProduct(p);
  }

  /** The request carries the configured pages in MiB, whatever their size. */
  lemma PlatformRequest(size: string, p: int)
    ensures var o := OptsFor(MemoryFunctionInfo(FUNCTION_PLATFORM, size, p));
            && o == NoOpts.(platform := o.platform)
            && (size == "4KB" ==> o.platform == Some(if p >= 0 then p / 256 else -(-p / 256)))
            && (size == "2MB" ==> o.platform == Some(2 * p))
            && (size == "1GB" ==> o.platform == Some(1024 * p))
  {
    DivideByProduct(p);
  }

  lemma DivideByProduct(p: int)
    ensures Quotient(p * 4096, MEBIBYTE) == Quotient(p, 256)
  {
  }

  // ---- When an update settles its function ------------------------------------------------------------------------

  /** The updates that reach their target: whole MiB of platform memory, and huge pages of the two sizes. */
  predicate Reachable(f: MemoryFunctionInfo) {
    || (f.func == FUNCTION_PLATFORM && f.pageSize == PAGE_4K && f.pageCount % 256 == 0)
    || ((f.func == FUNCTION_VSWITCH || f.func == FUNCTION_VM) && (f.pageSize == PAGE_2M || f.pageSize == PAGE_1G))
  }

  lemma NamesDiffer()
    ensures FUNCTION_PLATFORM != FUNCTION_VSWITCH && FUNCTION_PLATFORM != FUNCTION_VM && FUNCTION_VSWITCH != FUNCTION_VM
    ensures PAGE_4K != PAGE_2M && PAGE_4K != PAGE_1G && PAGE_2M != PAGE_1G
  {
  }

  /** After one reconciliation a function is settled exactly when it was before or its target is reachable. */
  lemma SettledAfterUpdateIff(m: MemoryNode, f: MemoryFunctionInfo)
    requires Known(f.func) && f.pageSize in {PAGE_4K, PAGE_2M, PAGE_1G}
    ensures Settled(Updated(m, f), f) <==> Settled(m, f) || Reachable(f)
  {
    NamesDiffer();
    if f.func == FUNCTION_PLATFORM {
      PlatformSettledIff(m, f);
    } else {
      HugeSettled(m, f);
    }
  }

  lemma PlatformSettledIff(m: MemoryNode, f: MemoryFunctionInfo)
    requires f.func == FUNCTION_PLATFORM
    ensures f.pageSize == PAGE_4K ==> (Settled(Applied(m, OptsFor(f)), f) <==> f.pageCount % 256 == 0)
    ensures f.pageSize != PAGE_4K ==> (Settled(Applied(m, OptsFor(f)), f) <==> Settled(m, f))
  {
    NamesDiffer();
    if f.pageSize == PAGE_4K {
      PlatformRounds(m, f.pageCount);
    }
  }

  lemma HugeSettled(m: MemoryNode, f: MemoryFunctionInfo)
    requires f.func == FUNCTION_VSWITCH || f.func == FUNCTION_VM
    ensures f.pageSize == PAGE_2M || f.pageSize == PAGE_1G ==> Settled(Applied(m, OptsFor(f)), f)
    ensures f.pageSize == PAGE_4K ==> (Settled(Applied(m, OptsFor(f)), f) <==> Settled(m, f))
  {
    NamesDiffer();
  }

  /** Two functions that are kept in different places; the system has one vswitch setting per node. */
  predicate Independent(f: MemoryFunctionInfo, g: MemoryFunctionInfo) {
    MemoryFunctionKey(f) != MemoryFunctionKey(g) && !(f.func == FUNCTION_VSWITCH && g.func == FUNCTION_VSWITCH)
  }

  lemma UpdateLeavesOthers(m: MemoryNode, f: MemoryFunctionInfo, g: MemoryFunctionInfo)
    requires Reachable(f) && Reachable(g) && Independent(f, g)
    ensures Pages(Applied(m, OptsFor(f)), g.func, g.pageSize) == Pages(m, g.func, g.pageSize)
  {
  }

  // ---- A whole node ---------------------------------------------------------------------------------------------

  /** The updates of one pass: every function is compared with the node as it was listed before the pass. */
  function NodePass(listed: MemoryNode, m: MemoryNode, functions: seq<MemoryFunctionInfo>): MemoryNode {
    if functions == [] then m
    else
      var n := |functions| - 1;
      var before := NodePass(listed, m, functions[..n]);
      if Settled(listed, functions[n]) then before else Applied(before, OptsFor(functions[n]))
  }

  ghost predicate Compatible(functions: seq<MemoryFunctionInfo>) {
    && (forall f | f in functions :: Reachable(f))
    && forall i, j | 0 <= i < j < |functions| ::
         Independent(functions[i], functions[j]) && Independent(functions[j], functions[i])
  }

  lemma {:induction false} PassLeavesOthers(listed: MemoryNode, functions: seq<MemoryFunctionInfo>,
                                            g: MemoryFunctionInfo)
    requires Reachable(g) && forall f | f in functions :: Reachable(f) && Independent(f, g)
    ensures Pages(NodePass(listed, listed, functions), g.func, g.pageSize) == Pages(listed, g.func, g.pageSize)
  {
    if functions != [] {
      var n := |functions| - 1;
      PassLeavesOthers(listed, functions[..n], g);
      UpdateLeavesOthers(NodePass(listed, listed, functions[..n]), functions[n], g);
    }
  }

  /** One pass settles every function of a node whose targets are reachable and do not collide. */
  lemma {:induction false} NodeSettledAfterPass(listed: MemoryNode, functions: seq<MemoryFunctionInfo>, k: nat)
    requires Compatible(functions) && k < |functions|
    ensures Settled(NodePass(listed, listed, functions), functions[k])
  {
    var n := |functions| - 1;
    var front, last := functions[..n], functions[n];
    assert functions == front + [last];
    assert forall i | 0 <= i < n :: front[i] == functions[i];
    var before := NodePass(listed, listed, front);
    if k == n {
      PassLeavesOthers(listed, front, last);
      SettledAfterUpdateIff(before, last);
      NamesDiffer();
    } else {
      assert functions[k] in functions;
      NodeSettledAfterPass(listed, front, k);
      UpdateLeavesOthers(before, last, functions[k]);
    }
  }

  /** Two vswitch settings on one node fight for the same place: no node satisfies both. */
  lemma TwoVSwitchSizesNeverSettle(m: MemoryNode, p: int, q: int)
    requires p != 0 && q != 0
    ensures !(Settled(m, MemoryFunctionInfo(FUNCTION_VSWITCH, PAGE_2M, p))
              && Settled(m, MemoryFunctionInfo(FUNCTION_VSWITCH, PAGE_1G, q)))
  {
  }

  // ---- The update requests of a pass, as the code collects them -------------------------------------------------

  datatype Request = Request(processor: int, opts: Opts)

  datatype Collected = Collected(requests: seq<Request>) | MissingNode(node: int) | UnknownFunction(func: string)

  function RequestsFor(memories: seq<MemoryNode>, node: int, functions: seq<MemoryFunctionInfo>, worker: bool)
    : Collected
  {
    if functions == [] then Collected([])
    else
      var n := |functions| - 1;
      var f := functions[n];
      match RequestsFor(memories, node, functions[..n], worker)
      case Collected(rs) =>
        if !worker && f.func != FUNCTION_PLATFORM then Collected(rs)
        else if !Known(f.func) then UnknownFunction(f.func)
        else if Total(memories, node, PagesOf(f)) == f.pageCount then Collected(rs)
        else Collected(rs + [Request(node, OptsFor(f))])
      case error => error
  }

  function PagesOf(f: MemoryFunctionInfo): MemoryNode -> int {
    m => if Known(f.func) then Pages(m, f.func, f.pageSize).value else 0
  }

  predicate HasNode(memories: seq<MemoryNode>, node: int) {
    exists m | m in memories :: m.processor == node
  }

  /** The requests for one node; functions other than platform are for workers only. */
  method GetNodeOpts(profile: HostProfileSpec, memories: seq<MemoryNode>, info: MemoryNodeInfo) returns (r: Collected)
    ensures HasNode(memories, info.node) ==>
              r == RequestsFor(memories, info.node, info.functions.Items(), HasWorkerSubFunction(profile))
    ensures !HasNode(memories, info.node) ==> r == MissingNode(info.node)
  {
    if !HasNode(memories, info.node) {
      return MissingNode(info.node);
    }
    var worker := HasWorkerSubFunction(profile);
    var requests := [];
    var functions := info.functions.Items();
    var k := 0;
    while k < |functions|
      invariant 0 <= k <= |functions|
      invariant RequestsFor(memories, info.node, functions[..k], worker) == Collected(requests)
    {
      var f := functions[k];
      assert functions[..k + 1][..k] == functions[..k];
      if !worker && f.func != FUNCTION_PLATFORM {
        k := k + 1;
        continue;
      }
      if !Known(f.func) {
        ErrorStays(memories, info.node, functions, worker, k + 1);
        return UnknownFunction(f.func);
      }
      var count := CountBy(memories, info.node, PagesOf(f));
      if count != f.pageCount {
        requests := requests + [Request(info.node, OptsFor(f))];
      }
      k := k + 1;
    }
    assert functions[..|functions|] == functions;
    r := Collected(requests);
  }

  lemma {:induction false} ErrorStays(memories: seq<MemoryNode>, node: int, functions: seq<MemoryFunctionInfo>,
                                      worker: bool, k: nat)
    requires k <= |functions| && !RequestsFor(memories, node, functions[..k], worker).Collected?
    ensures RequestsFor(memories, node, functions, worker) == RequestsFor(memories, node, functions[..k], worker)
    decreases |functions|
  {
    if k == |functions| {
      assert functions[..k] == functions;
    } else {
      var front := functions[..|functions| - 1];
      assert front[..k] == functions[..k];
      ErrorStays(memories, node, front, worker, k);
    }
  }

  /** Applying the collected requests is the pass over the node. */
  function ApplyAll(m: MemoryNode, requests: seq<Request>): MemoryNode {
    if requests == [] then m
    else
      var n := |requests| - 1;
      Applied(ApplyAll(m, requests[..n]), requests[n].opts)
  }

  lemma {:induction false} RequestsAreNodePass(memories: seq<MemoryNode>, m: MemoryNode,
                                               functions: seq<MemoryFunctionInfo>)
    requires UniqueBy(memories, MemoryKeyOf) && m in memories
    requires forall f | f in functions :: Known(f.func)
    ensures var r := RequestsFor(memories, m.processor, functions, true);
            r.Collected? && ApplyAll(m, r.requests) == NodePass(m, m, functions)
  {
    if functions != [] {
      var n := |functions| - 1;
      var f := functions[n];
      RequestsAreNodePass(memories, m, functions[..n]);
      TotalOfNode(memories, m, PagesOf(f));
      assert f in functions;
      var rs := RequestsFor(memories, m.processor, functions[..n], true).requests;
      var more := rs + [Request(m.processor, OptsFor(f))];
      assert more[..|rs|] == rs;
    }
  }

  predicate IsPlatform(f: MemoryFunctionInfo) {
    f.func == "platform"
  }

  /** For platform memory it makes no difference whether the host is a worker. */
  lemma OneMoreRequest(memories: seq<MemoryNode>, node: int, functions: seq<MemoryFunctionInfo>, f: MemoryFunctionInfo)
    requires IsPlatform(f)
    ensures RequestsFor(memories, node, functions + [f], true)
            == match RequestsFor(memories, node, functions, true)
               case Collected(rs) =>
                 Collected(rs + if Total(memories, node, PagesOf(f)) == f.pageCount then []
                                else [Request(node, OptsFor(f))])
               case error => error
  {
    assert (functions + [f])[..|functions|] == functions;
  }

  /** A host without worker subfunction is asked for just what a worker is asked for its platform memory. */
  lemma {:induction false} WithoutWorker(memories: seq<MemoryNode>, node: int, functions: seq<MemoryFunctionInfo>)
    ensures RequestsFor(memories, node, functions, false)
            == RequestsFor(memories, node, Keep(functions, IsPlatform), true)
  {
    if functions != [] {
      var n := |functions| - 1;
      var kept := Keep(functions[..n], IsPlatform);
      WithoutWorker(memories, node, functions[..n]);
      assert Keep(functions, IsPlatform) == kept + if IsPlatform(functions[n]) then [functions[n]] else [];
      if IsPlatform(functions[n]) {
        OneMoreRequest(memories, node, kept, functions[n]);
      } else {
        assert Keep(functions, IsPlatform) == kept;
      }
    }
  }

  // ---- Reading back ---------------------------------------------------------------------------------------------

  function ParsedVSwitch(m: MemoryNode): MemoryFunctionInfo {
    MemoryFunctionInfo(FUNCTION_VSWITCH,
                       if m.vswitchSize == 2 then PAGE_2M else if m.vswitchSize == 1024 then PAGE_1G else PAGE_4K,
                       m.vswitchCount)
  }

  /** Pages of 2M used by the vswitch are lumped in with those for VMs and taken out again. */
  function ParsedVM2M(m: MemoryNode): MemoryFunctionInfo {
    var count := PendingOr(m.vm2mPending, m.vm2mCount);
    MemoryFunctionInfo(FUNCTION_VM, PAGE_2M,
                       if m.vswitchSize == 2 && count >= m.vswitchCount then count - m.vswitchCount else count)
  }

  function Parsed(m: MemoryNode, worker: bool): MemoryNodeInfo {
    var platform := MemoryFunctionInfo(FUNCTION_PLATFORM, PAGE_4K, Quotient(m.platform * MEBIBYTE, Bytes(PAGE_4K)));
    MemoryNodeInfo(m.processor, Elems([platform] +
      if worker then [ParsedVSwitch(m), ParsedVM2M(m),
                      MemoryFunctionInfo(FUNCTION_VM, PAGE_1G, PendingOr(m.vm1gPending, m.vm1gCount))]
      else []))
  }

  ghost predicate NeedsNoUpdate(m: MemoryNode, info: MemoryNodeInfo) {
    forall f | f in info.functions.Items() :: Settled(m, f)
  }

  /** The vswitch count is read from one field and compared with another. */
  predicate VSwitchReadsBack(m: MemoryNode) {
    if m.vswitchSize in {0, 2, 1024} then m.vswitchRequired.None? || m.vswitchRequired.value == m.vswitchCount
    else m.vswitchCount == 0
  }

  /** The vswitch pages are taken out of the VM pages when reading, but not when comparing. */
  predicate VMReadsBack(m: MemoryNode) {
    m.vswitchSize != 2 || m.vswitchCount == 0 || PendingOr(m.vm2mPending, m.vm2mCount) < m.vswitchCount
  }

  /** Reading back is not always a fixed point. The exact condition: */
  lemma ReadBackIff(m: MemoryNode, worker: bool)
    ensures NeedsNoUpdate(m, Parsed(m, worker)) <==> (worker ==> VSwitchReadsBack(m) && VMReadsBack(m))
  {
    NamesDiffer();
    var functions := Parsed(m, worker).functions.items;
    assert Settled(m, functions[0]);
    if worker {
      assert functions[1] == ParsedVSwitch(m) && functions[2] == ParsedVM2M(m);
      assert Settled(m, functions[1]) <==> VSwitchReadsBack(m);
      assert Settled(m, functions[2]) <==> VMReadsBack(m);
      assert Settled(m, functions[3]);
      assert functions == [functions[0], functions[1], functions[2], functions[3]];
    } else {
      assert functions == [functions[0]];
    }
  }

  /** A worker whose vswitch uses 2M pages: the configuration just read from the system asks for an update. */
  lemma ReadBackCounterexample()
    ensures var m := MemoryNode(0, 1000, 2, 8, None, 100, None, 0, None);
            !NeedsNoUpdate(m, Parsed(m, true))
  {
    ReadBackIff(MemoryNode(0, 1000, 2, 8, None, 100, None, 0, None), true);
  }
}
