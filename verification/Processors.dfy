/**
 * Reading back the processor configuration and comparing it (api/v1/constructors.go, parseProcessorInfo;
 * internal/controller/host/processors.go, GetCPUUpdateOpts; platform/info.go, CountCPUByFunction).
 */
module Processors {
  import opened Prelude
  import opened Records
  import opened ProfileTypes

  /** Names of the system API's client library. */
  const CPU_APPLICATION := "application"
  const CPU_VSWITCH := "vswitch"

  /** A logical processor; thread 0 stands for the physical core. */
  datatype Cpu = Cpu(processor: int, thread: int, func: string)

  // ---- Counting -------------------------------------------------------------------------------------------

  predicate Counts(c: Cpu, node: int, func: string) {
    c.thread == 0 && EqualFold(c.func, func) && c.processor == node
  }

  function Count(cpus: seq<Cpu>, node: int, func: string): nat {
    if cpus == [] then 0
    else
      var n := |cpus| - 1;
      Count(cpus[..n], node, func) + if Counts(cpus[n], node, func) then 1 else 0
  }

  method CountCPUByFunction(cpus: seq<Cpu>, node: int, func: string) returns (count: nat)
    ensures count == Count(cpus, node, func)
  {
    count := 0;
    for k := 0 to |cpus|
      invariant count == Count(cpus[..k], node, func)
    {
      assert cpus[..k + 1][..k] == cpus[..k];
      if cpus[k].thread != 0 {
        continue;
      }
      if EqualFold(cpus[k].func, func) && cpus[k].processor == node {
        count := count + 1;
      }
    }
    assert cpus[..|cpus|] == cpus;
  }

  /** The thread-0 cores of a node whose function is one of the given ones. */
  function CoresWith(cpus: seq<Cpu>, node: int, funcs: set<string>): nat {
    if cpus == [] then 0
    else
      var n := |cpus| - 1;
      var c := cpus[n];
      CoresWith(cpus[..n], node, funcs) + if c.thread == 0 && c.processor == node && Fold(c.func) in funcs then 1 else 0
  }

  function Cores(cpus: seq<Cpu>, node: int): nat {
    if cpus == [] then 0
    else
      var n := |cpus| - 1;
      Cores(cpus[..n], node) + if cpus[n].thread == 0 && cpus[n].processor == node then 1 else 0
  }

  lemma {:induction false} OneMoreFunction(cpus: seq<Cpu>, node: int, funcs: set<string>, f: string)
    requires f !in funcs && Fold(f) == f
    ensures CoresWith(cpus, node, funcs + {f}) == CoresWith(cpus, node, funcs) + Count(cpus, node, f)
  {
    if cpus != [] {
      OneMoreFunction(cpus[..|cpus| - 1], node, funcs, f);
    }
  }

  lemma {:induction false} NoFunctions(cpus: seq<Cpu>, node: int)
    ensures CoresWith(cpus, node, {}) == 0
  {
    if cpus != [] {
      NoFunctions(cpus[..|cpus| - 1], node);
    }
  }

  // ---- The table of the first loop ------------------------------------------------------------------------------

  type Table = map<int, map<string, int>>

  /** A core is configurable unless it is a second thread or an application core. */
  predicate Configurable(c: Cpu) {
    c.thread == 0 && Fold(c.func) != CPU_APPLICATION
  }

  /** The row a node starts with; node 0 of a worker always shows its vswitch count. */
  function FirstRow(node: int, func: string, worker: bool): map<string, int> {
    if worker && func != CPU_VSWITCH && node == 0 then map[func := 1, CPU_VSWITCH := 0] else map[func := 1]
  }

  predicate Listed(t: Table, node: int, func: string) {
    node in t && func in t[node]
  }

  /** What the table says after some cores: exact counts, and a zero for the vswitch of node 0 only. */
  ghost predicate Tallies(t: Table, cpus: seq<Cpu>, worker: bool) {
    && (forall n, f | Listed(t, n, f) :: Fold(f) == f && f != CPU_APPLICATION && t[n][f] == Count(cpus, n, f))
    && (forall n, f | Listed(t, n, f) && Count(cpus, n, f) == 0 :: worker && n == 0 && f == CPU_VSWITCH)
    && (forall c | c in cpus && Configurable(c) :: Listed(t, c.processor, Fold(c.func)))
    && (worker && 0 in t ==> CPU_VSWITCH in t[0])
  }

  function CountedTable(t: Table, c: Cpu, worker: bool): Table {
    var f := Fold(c.func);
    if !Configurable(c) then t
    else if c.processor !in t then t[c.processor := FirstRow(c.processor, f, worker)]
    else
      var row := t[c.processor];
      t[c.processor := row[f := (if f in row then row[f] else 0) + 1]]
  }

  /** The table of the first loop. */
  function TableOf(cpus: seq<Cpu>, worker: bool): Table {
    if cpus == [] then map[]
    else
      var n := |cpus| - 1;
      CountedTable(TableOf(cpus[..n], worker), cpus[n], worker)
  }

  lemma {:induction false} CountedAbsent(cpus: seq<Cpu>, node: int, func: string)
    ensures Count(cpus, node, func) > 0 <==> exists c | c in cpus :: Counts(c, node, func)
  {
    if cpus != [] {
      var n := |cpus| - 1;
      CountedAbsent(cpus[..n], node, func);
      assert cpus == cpus[..n] + [cpus[n]];
    }
  }

  lemma TallyOne(t: Table, cpus: seq<Cpu>, c: Cpu, worker: bool)
    requires Tallies(t, cpus, worker)
    ensures Tallies(CountedTable(t, c, worker), cpus + [c], worker)
  {
    var more, u, f := cpus + [c], CountedTable(t, c, worker), Fold(c.func);
    assert more[..|cpus|] == cpus;
    FoldIdempotent(c.func);
    forall n, g | Listed(u, n, g)
      ensures Fold(g) == g && g != CPU_APPLICATION && u[n][g] == Count(more, n, g)
      ensures Count(more, n, g) == 0 ==> worker && n == 0 && g == CPU_VSWITCH
    {
      VSwitchFolded();
      if !Listed(t, n, g) {
        CountedAbsent(cpus, n, g);
        FoldIdempotent(g);
        AbsentUncounted(t, cpus, worker, n, g);
      }
    }
    forall d | d in more && Configurable(d) ensures Listed(u, d.processor, Fold(d.func)) {
    }
  }

  lemma {:induction false} TableTallies(cpus: seq<Cpu>, worker: bool)
    ensures Tallies(TableOf(cpus, worker), cpus, worker)
  {
    if cpus != [] {
      var n := |cpus| - 1;
      TableTallies(cpus[..n], worker);
      TallyOne(TableOf(cpus[..n], worker), cpus[..n], cpus[n], worker);
      assert cpus == cpus[..n] + [cpus[n]];
    }
  }

  lemma VSwitchFolded()
    ensures Fold(CPU_VSWITCH) == CPU_VSWITCH && CPU_VSWITCH != CPU_APPLICATION
  {
  }

  lemma AbsentUncounted(t: Table, cpus: seq<Cpu>, worker: bool, node: int, f: string)
    requires Tallies(t, cpus, worker) && !Listed(t, node, f) && Fold(f) == f && f != CPU_APPLICATION
    ensures Count(cpus, node, f) == 0
  {
    CountedAbsent(cpus, node, f);
  }

  // ---- Functions in the order of their names -----------------------------------------------------------

  /** Text comparison, character by character. */
  predicate Less(a: string, b: string) {
    b != [] && (a == [] || a[0] < b[0] || (a[0] == b[0] && Less(a[1..], b[1..])))
  }

  lemma {:induction false} LessTotal(a: string, b: string)
    ensures a == b || Less(a, b) || Less(b, a)
    ensures !Less(a, a)
  {
    if a != [] {
      LessTotal(a[1..], a[1..]);
    }
    if a != [] && b != [] && a[0] == b[0] {
      LessTotal(a[1..], b[1..]);
      assert a == [a[0]] + a[1..] && b == [b[0]] + b[1..];
    }
  }

  lemma {:induction false} LessTransitive(a: string, b: string, c: string)
    requires Less(a, b) && Less(b, c)
    ensures Less(a, c)
  {
    if a != [] && a[0] == b[0] == c[0] {
      LessTransitive(a[1..], b[1..], c[1..]);
    }
  }

  ghost predicate Ordered(functions: seq<ProcessorFunctionInfo>) {
    forall i, j | 0 <= i < j < |functions| :: Less(functions[i].func, functions[j].func)
  }

  function Inserted(functions: seq<ProcessorFunctionInfo>, x: ProcessorFunctionInfo): seq<ProcessorFunctionInfo> {
    if functions == [] then [x]
    else if Less(x.func, functions[0].func) then [x] + functions
    else [functions[0]] + Inserted(functions[1..], x)
  }

  /** The list sorted by function name. */
  function Sorted(functions: seq<ProcessorFunctionInfo>): seq<ProcessorFunctionInfo> {
    if functions == [] then [] else Inserted(Sorted(functions[1..]), functions[0])
  }

  lemma {:induction false} InsertedMembers(functions: seq<ProcessorFunctionInfo>, x: ProcessorFunctionInfo,
                                           y: ProcessorFunctionInfo)
    ensures y in Inserted(functions, x) <==> y == x || y in functions
  {
    if functions != [] && !Less(x.func, functions[0].func) {
      InsertedMembers(functions[1..], x, y);
      assert functions == [functions[0]] + functions[1..];
    }
  }

  lemma {:induction false} InsertedOrdered(functions: seq<ProcessorFunctionInfo>, x: ProcessorFunctionInfo)
    requires Ordered(functions) && forall f | f in functions :: f.func != x.func
    ensures Ordered(Inserted(functions, x))
  {
    if functions != [] {
      var first, rest := functions[0], functions[1..];
      LessTotal(x.func, first.func);
      assert first in functions;
      forall j | 0 <= j < |rest| ensures Less(first.func, rest[j].func) && rest[j].func != x.func {
        assert rest[j] == functions[j + 1];
      }
      if Less(x.func, first.func) {
        forall j | 0 <= j < |rest| ensures Less(x.func, rest[j].func) {
          LessTransitive(x.func, first.func, rest[j].func);
        }
      } else {
        InsertedOrdered(rest, x);
        var tail := Inserted(rest, x);
        forall j | 0 <= j < |tail| ensures Less(first.func, tail[j].func) {
          InsertedMembers(rest, x, tail[j]);
        }
      }
    }
  }

  lemma {:induction false} SortedMembers(functions: seq<ProcessorFunctionInfo>, y: ProcessorFunctionInfo)
    ensures y in Sorted(functions) <==> y in functions
  {
    if functions != [] {
      SortedMembers(functions[1..], y);
      InsertedMembers(Sorted(functions[1..]), functions[0], y);
      assert functions == [functions[0]] + functions[1..];
    }
  }

  lemma {:induction false} SortedOrdered(functions: seq<ProcessorFunctionInfo>)
    requires UniqueBy(functions, ProcessorFunctionKey)
    ensures Ordered(Sorted(functions))
  {
    if functions != [] {
      var rest := functions[1..];
      forall i, j | 0 <= i < j < |rest| ensures ProcessorFunctionKey(rest[i]) != ProcessorFunctionKey(rest[j]) {
        assert rest[i] == functions[i + 1] && rest[j] == functions[j + 1];
      }
      SortedOrdered(rest);
      forall f | f in Sorted(rest) ensures f.func != functions[0].func {
        SortedMembers(rest, f);
        var j :| 0 <= j < |rest| && rest[j] == f;
        assert ProcessorFunctionKey(functions[0]) != ProcessorFunctionKey(functions[j + 1]);
      }
      InsertedOrdered(Sorted(rest), functions[0]);
    }
  }

  lemma OrderedUnique(functions: seq<ProcessorFunctionInfo>)
    requires Ordered(functions)
    ensures UniqueBy(functions, ProcessorFunctionKey)
  {
    forall i, j | 0 <= i < j < |functions| ensures functions[i].func != functions[j].func {
      LessTotal(functions[i].func, functions[j].func);
    }
  }

  // ---- The profile made of it ------------------------------------------------------------------------------------

  /** Every listed function has the count of the running system. */
  ghost predicate InSync(processors: seq<ProcessorInfo>, cpus: seq<Cpu>) {
    forall p, f | p in processors && f in p.functions.Items() :: f.count == Count(cpus, p.node, f.func)
  }

  ghost predicate FromRow(p: ProcessorInfo, row: map<string, int>) {
    && UniqueBy(p.functions.Items(), ProcessorFunctionKey)
    && Ordered(p.functions.Items())
    && (forall f | f in p.functions.Items() :: f.func in row && row[f.func] == f.count)
    && (forall k | k in row :: ProcessorFunctionInfo(k, row[k]) in p.functions.Items())
  }

  ghost predicate FromTable(processors: seq<ProcessorInfo>, t: Table) {
    && UniqueBy(processors, ProcessorKey)
    && (forall p | p in processors :: p.node in t && FromRow(p, t[p.node]))
    && (forall n | n in t :: exists p | p in processors :: p.node == n)
  }

  /** The functions of a row, collected in any order and then sorted by name. */
  method RowFunctions(row: map<string, int>) returns (functions: seq<ProcessorFunctionInfo>)
    requires forall f | f in row :: Fold(f) == f
    ensures FromRow(ProcessorInfo(0, Elems(functions)), row)
  {
    var collected: seq<ProcessorFunctionInfo> := [];
    var todo := row.Keys;
    while todo != {}
      invariant todo <= row.Keys
      invariant UniqueBy(collected, ProcessorFunctionKey)
      invariant forall f | f in collected :: f.func in row && f.func !in todo && row[f.func] == f.count
      invariant forall k | k in row && k !in todo :: ProcessorFunctionInfo(k, row[k]) in collected
      decreases todo
    {
      var func :| func in todo;
      ghost var before := collected;
      collected := collected + [ProcessorFunctionInfo(Fold(func), row[func])];
      assert forall f | f in before :: f in collected;
      todo := todo - {func};
    }
    functions := Sorted(collected);
    SortedOrdered(collected);
    OrderedUnique(functions);
    forall f ensures f in functions <==> f in collected {
      SortedMembers(collected, f);
    }
  }

  /** The table row by row, in any order. */
  method Convert(t: Table) returns (processors: seq<ProcessorInfo>)
    requires forall n, f | Listed(t, n, f) :: Fold(f) == f
    ensures FromTable(processors, t)
  {
    processors := [];
    var todo := t.Keys;
    while todo != {}
      invariant todo <= t.Keys
      invariant UniqueBy(processors, ProcessorKey)
      invariant forall p | p in processors :: p.node in t && p.node !in todo && FromRow(p, t[p.node])
      invariant forall n | n in t && n !in todo :: exists p | p in processors :: p.node == n
      decreases todo
    {
      ghost var _ := Element(todo);
      var node :| node in todo;
      assert forall f | f in t[node] :: Listed(t, node, f);
      var functions := RowFunctions(t[node]);
      var info := ProcessorInfo(node, Elems(functions));
      assert FromRow(info, t[node]);
      ghost var before := processors;
      processors := processors + [info];
      assert info in processors;
      forall n | n in t && n !in todo - {node} ensures exists p | p in processors :: p.node == n {
        if n != node {
          var p :| p in before && p.node == n;
          assert p in processors;
        }
      }
      todo := todo - {node};
    }
  }

  /** Reads the processor section from the running system. */
  method ParseProcessorInfo(profile: HostProfileSpec, cpus: seq<Cpu>) returns (processors: seq<ProcessorInfo>)
    ensures FromTable(processors, TableOf(cpus, HasWorkerSubFunction(profile)))
  {
    var worker := HasWorkerSubFunction(profile);
    var nodes: Table := map[];
    for k := 0 to |cpus|
      invariant nodes == TableOf(cpus[..k], worker)
    {
      assert cpus[..k + 1][..k] == cpus[..k];
      var c := cpus[k];
      if c.thread != 0 {
        continue;
      }
      var func := Fold(c.func);
      if func == CPU_APPLICATION {
        continue;
      }
      if c.processor !in nodes {
        var row := map[func := 1];
        if worker && func != CPU_VSWITCH && c.processor == 0 {
          row := row[CPU_VSWITCH := 0];
        }
        nodes := nodes[c.processor := row];
      } else {
        var row := nodes[c.processor];
        nodes := nodes[c.processor := row[func := (if func in row then row[func] else 0) + 1]];
      }
    }
    assert cpus[..|cpus|] == cpus;
    TableTallies(cpus, worker);
    processors := Convert(nodes);
  }

  // ---- What the parsed section says ---------------------------------------------------------------------------------

  /** What was read back agrees with the system it was read from. */
  lemma ParsedInSync(processors: seq<ProcessorInfo>, cpus: seq<Cpu>, worker: bool)
    requires FromTable(processors, TableOf(cpus, worker))
    ensures InSync(processors, cpus)
  {
    var t := TableOf(cpus, worker);
    TableTallies(cpus, worker);
    forall p, f | p in processors && f in p.functions.Items() ensures f.count == Count(cpus, p.node, f.func)
    {
      assert Listed(t, p.node, f.func);
    }
  }

  /** Which functions are listed: those with cores, and the vswitch of a worker's node 0. */
  lemma ListedIff(processors: seq<ProcessorInfo>, cpus: seq<Cpu>, worker: bool, p: ProcessorInfo, func: string)
    requires FromTable(processors, TableOf(cpus, worker)) && p in processors
    requires Fold(func) == func && func != CPU_APPLICATION
    ensures (exists f | f in p.functions.Items() :: f.func == func) <==>
            Count(cpus, p.node, func) > 0 || (worker && p.node == 0 && func == CPU_VSWITCH)
  {
    var t := TableOf(cpus, worker);
    TableTallies(cpus, worker);
    var row := t[p.node];
    CountedAbsent(cpus, p.node, func);
    if func in row {
      assert Listed(t, p.node, func);
      assert ProcessorFunctionInfo(func, row[func]) in p.functions.Items();
    } else {
      AbsentUncounted(t, cpus, worker, p.node, func);
    }
  }

  function Sum(functions: seq<ProcessorFunctionInfo>): int {
    if functions == [] then 0
    else
      var n := |functions| - 1;
      Sum(functions[..n]) + functions[n].count
  }

  function Funcs(functions: seq<ProcessorFunctionInfo>): set<string> {
    set f | f in functions :: f.func
  }

  lemma {:induction false} SumIsCores(functions: seq<ProcessorFunctionInfo>, cpus: seq<Cpu>, node: int)
    requires UniqueBy(functions, ProcessorFunctionKey)
    requires forall f | f in functions :: Fold(f.func) == f.func && f.count == Count(cpus, node, f.func)
    ensures Sum(functions) == CoresWith(cpus, node, Funcs(functions))
  {
    if functions == [] {
      assert Funcs(functions) == {};
      NoFunctions(cpus, node);
    } else {
      var n := |functions| - 1;
      var front := functions[..n];
      assert functions == front + [functions[n]];
      SumIsCores(front, cpus, node);
      forall f | f in front ensures f.func != functions[n].func {
        var i :| 0 <= i < n && front[i] == f;
        assert ProcessorFunctionKey(functions[i]) != ProcessorFunctionKey(functions[n]);
      }
      assert Funcs(functions) == Funcs(front) + {functions[n].func};
      OneMoreFunction(cpus, node, Funcs(front), functions[n].func);
    }
  }

  /** Every thread-0 core is listed by its function, unless it is an application core. */
  lemma {:induction false} CoresSplit(cpus: seq<Cpu>, node: int, funcs: set<string>)
    requires CPU_APPLICATION !in funcs
    requires forall c | c in cpus && Configurable(c) && c.processor == node :: Fold(c.func) in funcs
    ensures CoresWith(cpus, node, funcs) + Count(cpus, node, CPU_APPLICATION) == Cores(cpus, node)
  {
    assert Fold(CPU_APPLICATION) == CPU_APPLICATION;
    if cpus != [] {
      var n := |cpus| - 1;
      assert cpus == cpus[..n] + [cpus[n]];
      CoresSplit(cpus[..n], node, funcs);
    }
  }

  /** Per node the function counts and the application cores add up to the thread-0 cores. */
  lemma NodeCountsAddUp(processors: seq<ProcessorInfo>, cpus: seq<Cpu>, worker: bool, p: ProcessorInfo)
    requires FromTable(processors, TableOf(cpus, worker)) && p in processors
    ensures Sum(p.functions.Items()) + Count(cpus, p.node, CPU_APPLICATION) == Cores(cpus, p.node)
  {
    var t := TableOf(cpus, worker);
    TableTallies(cpus, worker);
    var functions := p.functions.Items();
    forall f | f in functions
      ensures Fold(f.func) == f.func && f.func != CPU_APPLICATION && f.count == Count(cpus, p.node, f.func)
    {
      assert Listed(t, p.node, f.func);
    }
    SumIsCores(functions, cpus, p.node);
    forall c | c in cpus && Configurable(c) && c.processor == p.node ensures Fold(c.func) in Funcs(functions) {
      assert Listed(t, c.processor, Fold(c.func));
      assert ProcessorFunctionInfo(Fold(c.func), t[p.node][Fold(c.func)]) in functions;
    }
    CoresSplit(cpus, p.node, Funcs(functions));
  }

  // ---- The update -----------------------------------------------------------------------------------------------

  datatype Entry = Entry(node: int, func: string, count: int)

  function NodeEntries(node: int, functions: seq<ProcessorFunctionInfo>): seq<Entry> {
    seq(|functions|, k requires 0 <= k < |functions| => Entry(node, functions[k].func, functions[k].count))
  }

  function Entries(processors: seq<ProcessorInfo>): seq<Entry> {
    if processors == [] then []
    else
      var n := |processors| - 1;
      Entries(processors[..n]) + NodeEntries(processors[n].node, processors[n].functions.Items())
  }

  datatype Socket = Socket(node: int, count: int)

  /** The sockets to be changed for one function, in profile order. */
  function Sockets(entries: seq<Entry>, cpus: seq<Cpu>, func: string): seq<Socket> {
    if entries == [] then []
    else
      var n := |entries| - 1;
      var e := entries[n];
      Sockets(entries[..n], cpus, func)
      + if e.func == func && Count(cpus, e.node, e.func) != e.count then [Socket(e.node, e.count)] else []
  }

  /** A socket is sent for exactly the entries of a function whose count is not the configured one. */
  lemma {:induction false} SocketIff(entries: seq<Entry>, cpus: seq<Cpu>, func: string, s: Socket)
    ensures s in Sockets(entries, cpus, func) <==>
            exists e | e in entries ::
              e.func == func && e.node == s.node && e.count == s.count && Count(cpus, s.node, func) != s.count
  {
    if entries != [] {
      var n := |entries| - 1;
      SocketIff(entries[..n], cpus, func, s);
      assert forall e :: e in entries <==> e in entries[..n] || e == entries[n];
    }
  }

  /** What a function has on a node once the system has set these sockets. */
  function CountAfter(sockets: seq<Socket>, node: int, current: int): int {
    if sockets == [] then current
    else
      var n := |sockets| - 1;
      if sockets[n].node == node then sockets[n].count else CountAfter(sockets[..n], node, current)
  }

  ghost predicate EntriesApart(entries: seq<Entry>) {
    forall i, j | 0 <= i < j < |entries| :: entries[i].node != entries[j].node || entries[i].func != entries[j].func
  }

  /** When each function is listed once for a node, the update brings every count to the configured one. */
  lemma {:induction false} UpdateMeets(entries: seq<Entry>, cpus: seq<Cpu>, k: nat)
    requires EntriesApart(entries) && k < |entries|
    ensures var e := entries[k];
            CountAfter(Sockets(entries, cpus, e.func), e.node, Count(cpus, e.node, e.func)) == e.count
  {
    var n := |entries| - 1;
    var e := entries[k];
    var front := Sockets(entries[..n], cpus, e.func);
    var all := Sockets(entries, cpus, e.func);
    if k < n {
      UpdateMeets(entries[..n], cpus, k);
      assert all != front ==> all[..|front|] == front && all[|front|].node != e.node;
    } else if all == front {
      Untouched(entries[..n], cpus, e);
    }
  }

  lemma {:induction false} Untouched(entries: seq<Entry>, cpus: seq<Cpu>, e: Entry)
    requires forall x | x in entries :: x.node != e.node || x.func != e.func
    ensures forall current :: CountAfter(Sockets(entries, cpus, e.func), e.node, current) == current
  {
    if entries != [] {
      var n := |entries| - 1;
      Untouched(entries[..n], cpus, e);
      var front, all := Sockets(entries[..n], cpus, e.func), Sockets(entries, cpus, e.func);
      assert all != front ==> all[..|front|] == front && all[|front|].node != e.node;
    }
  }

  predicate AllMatch(entries: seq<Entry>, cpus: seq<Cpu>) {
    forall e | e in entries :: Count(cpus, e.node, e.func) == e.count
  }

  ghost predicate Collected(opts: map<string, seq<Socket>>, entries: seq<Entry>, cpus: seq<Cpu>) {
    forall f :: (f in opts <==> Sockets(entries, cpus, f) != []) && (f in opts ==> opts[f] == Sockets(entries, cpus, f))
  }

  /** The state of the loops after these entries. */
  ghost predicate Progress(opts: map<string, seq<Socket>>, required: bool, entries: seq<Entry>, cpus: seq<Cpu>) {
    Collected(opts, entries, cpus) && (required <==> !AllMatch(entries, cpus))
  }

  function WithSocket(opts: map<string, seq<Socket>>, func: string, socket: Socket): map<string, seq<Socket>> {
    opts[func := (if func in opts then opts[func] else []) + [socket]]
  }

  lemma SocketsAppend(entries: seq<Entry>, cpus: seq<Cpu>, e: Entry, func: string)
    ensures Sockets(entries + [e], cpus, func) ==
            Sockets(entries, cpus, func)
            + if e.func == func && Count(cpus, e.node, e.func) != e.count then [Socket(e.node, e.count)] else []
  {
    var more := entries + [e];
    assert more[..|entries|] == entries && more[|entries|] == e;
  }

  lemma MatchAppend(entries: seq<Entry>, cpus: seq<Cpu>, e: Entry)
    ensures AllMatch(entries + [e], cpus) <==> AllMatch(entries, cpus) && Count(cpus, e.node, e.func) == e.count
  {
    assert e in entries + [e] && forall x | x in entries :: x in entries + [e];
  }

  lemma ProgressOne(opts: map<string, seq<Socket>>, required: bool, entries: seq<Entry>, cpus: seq<Cpu>, e: Entry)
    requires Progress(opts, required, entries, cpus)
    ensures if Count(cpus, e.node, e.func) == e.count then Progress(opts, required, entries + [e], cpus)
            else Progress(WithSocket(opts, e.func, Socket(e.node, e.count)), true, entries + [e], cpus)
  {
    MatchAppend(entries, cpus, e);
    var matches := Count(cpus, e.node, e.func) == e.count;
    var after := if matches then opts else WithSocket(opts, e.func, Socket(e.node, e.count));
    forall f
      ensures f in after <==> Sockets(entries + [e], cpus, f) != []
      ensures f in after ==> after[f] == Sockets(entries + [e], cpus, f)
    {
      SocketsAppend(entries, cpus, e, f);
    }
  }

  lemma NodeEntriesNext(node: int, functions: seq<ProcessorFunctionInfo>, done: seq<Entry>, j: nat)
    requires j < |functions|
    ensures done + NodeEntries(node, functions[..j + 1])
            == done + NodeEntries(node, functions[..j]) + [Entry(node, functions[j].func, functions[j].count)]
  {
  }

  /** One function of one node: its count is compared, and asked for when it differs. */
  method AddFunctionOpts(e: Entry, cpus: seq<Cpu>, before: map<string, seq<Socket>>, needed: bool,
                         ghost done: seq<Entry>)
    returns (opts: map<string, seq<Socket>>, required: bool)
    requires Progress(before, needed, done, cpus)
    ensures Progress(opts, required, done + [e], cpus)
  {
    ProgressOne(before, needed, done, cpus, e);
    opts, required := before, needed;
    var count := CountCPUByFunction(cpus, e.node, e.func);
    if count != e.count {
      opts, required := WithSocket(before, e.func, Socket(e.node, e.count)), true;
    }
  }

  /** The loop over the functions of one node. */
  method AddNodeOpts(info: ProcessorInfo, cpus: seq<Cpu>, before: map<string, seq<Socket>>, needed: bool,
                     ghost done: seq<Entry>)
    returns (opts: map<string, seq<Socket>>, required: bool)
    requires Progress(before, needed, done, cpus)
    ensures Progress(opts, required, done + NodeEntries(info.node, info.functions.Items()), cpus)
  {
    opts, required := before, needed;
    var node, functions := info.node, info.functions.Items();
    assert done + NodeEntries(node, functions[..0]) == done;
    var j := 0;
    while j < |functions|
      invariant 0 <= j <= |functions|
      invariant Progress(opts, required, done + NodeEntries(node, functions[..j]), cpus)
    {
      NodeEntriesNext(node, functions, done, j);
      opts, required := AddFunctionOpts(Entry(node, functions[j].func, functions[j].count), cpus, opts, required,
                                        done + NodeEntries(node, functions[..j]));
      j := j + 1;
    }
    assert functions[..|functions|] == functions;
  }

  /** The wanted counts of all functions whose count differs, grouped by function. */
  method GetCPUUpdateOpts(processors: seq<ProcessorInfo>, cpus: seq<Cpu>)
    returns (opts: map<string, seq<Socket>>, required: bool)
    ensures required <==> !AllMatch(Entries(processors), cpus)
    ensures Collected(opts, Entries(processors), cpus)
  {
    opts, required := map[], false;
    var i := 0;
    while i < |processors|
      invariant 0 <= i <= |processors|
      invariant Progress(opts, required, Entries(processors[..i]), cpus)
    {
      opts, required := AddNodeOpts(processors[i], cpus, opts, required, Entries(processors[..i]));
      assert processors[..i + 1][..i] == processors[..i];
      i := i + 1;
    }
    assert processors[..|processors|] == processors;
  }

  lemma {:induction false} EntriesMatchIff(processors: seq<ProcessorInfo>, cpus: seq<Cpu>)
    ensures AllMatch(Entries(processors), cpus) <==> InSync(processors, cpus)
  {
    if processors != [] {
      var n := |processors| - 1;
      var p := processors[n];
      EntriesMatchIff(processors[..n], cpus);
      assert processors == processors[..n] + [p];
      var own := NodeEntries(p.node, p.functions.Items());
      forall f | f in p.functions.Items() ensures Entry(p.node, f.func, f.count) in own {
        var k :| 0 <= k < |p.functions.Items()| && p.functions.Items()[k] == f;
        assert own[k] == Entry(p.node, f.func, f.count);
      }
      assert forall k | 0 <= k < |own| :: own[k] in own;
      if InSync(processors, cpus) {
        forall e | e in own ensures Count(cpus, e.node, e.func) == e.count {
          var k :| 0 <= k < |own| && own[k] == e;
          assert p.functions.Items()[k] in p.functions.Items();
        }
      }
    }
  }

  /** Reading back is a fixed point: what was read needs no update. */
  method ReadBackNeedsNoUpdate(profile: HostProfileSpec, cpus: seq<Cpu>) returns (required: bool)
    ensures !required
  {
    var processors := ParseProcessorInfo(profile, cpus);
    ParsedInSync(processors, cpus, HasWorkerSubFunction(profile));
    EntriesMatchIff(processors, cpus);
    var opts;
    opts, required := GetCPUUpdateOpts(processors, cpus);
  }
}
