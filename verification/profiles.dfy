/** The profile document the builder scripts write, the CSV rows they read, and the
    steps they share: command parsing, the status filter, and merging entries into the
    name-to-entry map under a first-writer-wins or last-writer-wins rule. */
module Profiles {
  import opened Wrappers
  import opened Text
  import opened Sorting

  /** The exceptions a builder raises on bad input. */
  datatype Fault =
    | MissingColumn(column: string)  // KeyError from `row[column]`
    | EmptyCommand                   // IndexError from `parts[0]` on a blank command

  /** A CSV row as the dictionary `csv.DictReader` yields; `None` is a column the row lacks. */
  datatype Row = Row(
    mcpName: Option<string>,
    command: Option<string>,
    status: Option<string>,
    description: Option<string>,
    category: Option<string>,
    downloads: Option<string>,
    repositoryUrl: Option<string>)

  /** `row[column]`: the value, or a KeyError. */
  function Column(value: Option<string>, column: string): Result<string, Fault> {
    match value
    case Some(v) => Success(v)
    case None => Failure(MissingColumn(column))
  }

  /** The nested `metadata` object of an entry. */
  datatype ServerMeta = ServerMeta(
    kind: string,  // "type"
    source: string,
    verified: bool,
    originalName: Option<string>,
    testedDate: Option<string>)

  /** One value of `mcpServers`; an optional key the entry lacks is `None`. */
  datatype Server = Server(
    command: string,
    args: seq<string>,
    description: Option<string>,
    category: Option<string>,
    downloads: Option<string>,
    repositoryUrl: Option<string>,
    packageName: Option<string>,
    version: Option<string>,
    meta: Option<ServerMeta>)

  /** An entry holding only `command` and `args`. */
  function Bare(command: string, args: seq<string>): Server {
    Server(command, args, None, None, None, None, None, None, None)
  }

  /** The top-level `metadata` object; a count the builder does not write is `None`. */
  datatype Metadata = Metadata(
    created: string,
    modified: string,
    totalServers: Option<nat>,
    productionReady: Option<nat>,
    curatedReal: Option<nat>,
    testedPackages: Option<nat>,
    workingPackages: Option<nat>,
    categories: Option<seq<string>>)

  function EmptyMetadata(created: string, modified: string): Metadata {
    Metadata(created, modified, None, None, None, None, None, None)
  }

  datatype ProfileDoc = ProfileDoc(
    name: string,
    description: string,
    servers: map<string, Server>,
    metadata: Metadata)

  /** `parts = command.split()`, then `parts[0]` as the executable and `parts[1:]` as the
      arguments. A command with no token raises IndexError. */
  function ParseCommand(command: string): (r: Result<(string, seq<string>), Fault>)
    ensures r.Failure? <==> AllSpace(command)
    ensures r.Failure? ==> r.error == EmptyCommand
    ensures r.Success? ==> Words(command) == [r.value.0] + r.value.1
  {
    WordsEmptyIffAllSpace(command);
    var parts := Words(command);
    if parts == [] then Failure(EmptyCommand)
    else
      assert [parts[0]] + parts[1..] == parts;
      Success((parts[0], parts[1..]))
  }

  /** `command.startswith('docker') or command.startswith('wrangler')`: a test on the
      characters, not on the first token, so `dockerized-tool` is caught too. */
  predicate IsContainerCommand(command: string) {
    "docker" <= command || "wrangler" <= command
  }

  /** What a builder reads from an eligible row: its name and its split command. */
  datatype Launch = Launch(name: string, executable: string, args: seq<string>)

  /** `mcp_name = row['mcp_name']`, `command = row['command']`, then, for the builders that
      skip them, no entry for a container command, then the split of the command. */
  function ReadLaunch(row: Row, skipContainers: bool): Result<Option<Launch>, Fault> {
    match Column(row.mcpName, "mcp_name")
    case Failure(f) => Failure(f)
    case Success(name) =>
      match Column(row.command, "command")
      case Failure(f) => Failure(f)
      case Success(command) =>
        if skipContainers && IsContainerCommand(command) then Success(None)
        else
          match ParseCommand(command)
          case Failure(f) => Failure(f)
          case Success(parsed) => Success(Some(Launch(name, parsed.0, parsed.1)))
  }

  /** The row is one a builder turns into an entry named `k`: it has both columns, and a
      command with at least one token that, when `skipContainers`, is no container command. */
  predicate Launches(row: Row, k: string, skipContainers: bool) {
    && row.mcpName == Some(k)
    && row.command.Some?
    && !(skipContainers && IsContainerCommand(row.command.value))
    && !AllSpace(row.command.value)
  }

  /** An entry whose `command` and `args` are the tokens of `command`, in order. */
  predicate SplitFrom(s: Server, command: string) {
    Words(command) == [s.command] + s.args
  }

  /** When reading a row raises, when it yields no entry, and what it yields otherwise. */
  lemma ReadLaunchCases(row: Row, skipContainers: bool)
    ensures ReadLaunch(row, skipContainers).Failure? <==>
              row.mcpName.None? || row.command.None? ||
              (!(skipContainers && IsContainerCommand(row.command.value)) && AllSpace(row.command.value))
    ensures ReadLaunch(row, skipContainers) == Success(None) <==>
              row.mcpName.Some? && row.command.Some? && skipContainers && IsContainerCommand(row.command.value)
    ensures forall k :: (ReadLaunch(row, skipContainers).Success? && ReadLaunch(row, skipContainers).value.Some? &&
                         ReadLaunch(row, skipContainers).value.value.name == k) <==> Launches(row, k, skipContainers)
    ensures ReadLaunch(row, skipContainers).Success? && ReadLaunch(row, skipContainers).value.Some? ==>
              var l := ReadLaunch(row, skipContainers).value.value;
              Words(row.command.value) == [l.executable] + l.args
  {
    if row.mcpName.Some? && row.command.Some? {
      var _ := ParseCommand(row.command.value);
    }
  }

  /** `[row for row in rows if row['status'] == wanted]`; a row without `status` raises. */
  function Eligible(rows: seq<Row>, wanted: string): (r: Result<seq<Row>, Fault>)
    ensures r.Failure? <==> exists i :: 0 <= i < |rows| && rows[i].status.None?
    ensures r.Failure? ==> r.error == MissingColumn("status")
    ensures r.Success? ==> |r.value| <= |rows|
    ensures r.Success? ==> forall row :: row in r.value <==> row in rows && row.status == Some(wanted)
  {
    if rows == [] then Success([])
    else if rows[0].status.None? then Failure(MissingColumn("status"))
    else
      match Eligible(rows[1..], wanted)
      case Failure(f) =>
        assert forall i :: 0 <= i < |rows| - 1 ==> rows[1..][i] == rows[i + 1];
        Failure(f)
      case Success(rest) =>
        assert forall i :: 0 < i < |rows| ==> rows[i] == rows[1..][i - 1];
        assert forall row :: row in rows <==> row == rows[0] || row in rows[1..];
        Success(if rows[0].status.value == wanted then [rows[0]] + rest else rest)
  }

  /** The filter keeps the rows in their order, duplicates included: filtering `a + b` is
      filtering `a` followed by filtering `b`, and it raises exactly when one of them does. */
  lemma {:induction false} EligibleAppend(a: seq<Row>, b: seq<Row>, wanted: string)
    ensures Eligible(a + b, wanted).Success? <==> Eligible(a, wanted).Success? && Eligible(b, wanted).Success?
    ensures Eligible(a + b, wanted).Success? ==>
              Eligible(a + b, wanted).value == Eligible(a, wanted).value + Eligible(b, wanted).value
  {
    if a == [] {
      assert a + b == b;
    } else {
      assert (a + b)[0] == a[0];
      assert (a + b)[1..] == a[1..] + b;
      EligibleAppend(a[1..], b, wanted);
    }
  }

  /** A single row is kept exactly when its status is the wanted one. */
  lemma EligibleOne(row: Row, wanted: string)
    ensures Eligible([row], wanted) ==
      if row.status.None? then Failure(MissingColumn("status"))
      else if row.status == Some(wanted) then Success([row]) else Success([])
  {
    assert [row][1..] == [];
    assert Eligible([row][1..], wanted) == Success([]);
    assert [row] + [] == [row];
  }

  /** What one input row does to the profile: nothing, an insertion under a name, or an
      exception that ends the loop. */
  datatype Decision = Skip | Take(key: string, server: Server) | Raise(fault: Fault)

  /** One pass of the loop of `build-top-profile.py` (`skipContainers`) or of
      `build-profile.py`: the row's bare split under its name, no entry for a skipped
      container command, or the exception reading the row raises. */
  function Decide(row: Row, skipContainers: bool): Decision {
    match ReadLaunch(row, skipContainers)
    case Failure(f) => Raise(f)
    case Success(None) => Skip
    case Success(Some(l)) => Take(l.name, Bare(l.executable, l.args))
  }

  function Decisions(rows: seq<Row>, skipContainers: bool): (ds: seq<Decision>)
    ensures |ds| == |rows|
  {
    seq(|rows|, i requires 0 <= i < |rows| => Decide(rows[i], skipContainers))
  }

  /** A filtered row that makes those loops raise. */
  predicate BadRow(row: Row, skipContainers: bool) {
    || row.mcpName.None? || row.command.None?
    || (!(skipContainers && IsContainerCommand(row.command.value)) && AllSpace(row.command.value))
  }

  /** How a builder treats a name already in the profile. */
  datatype Policy =
    | FirstWriterWins  // `if name in profile['mcpServers']: continue`
    | LastWriterWins   // plain `profile['mcpServers'][name] = entry`

  function Put(policy: Policy, m: map<string, Server>, key: string, server: Server): map<string, Server> {
    if policy == FirstWriterWins && key in m then m else m[key := server]
  }

  /** The number of decisions the loop gets through: the index of the first `Raise`, or
      all of them. */
  function Done(ds: seq<Decision>): (n: nat)
    ensures n <= |ds|
    ensures forall i :: 0 <= i < n ==> !ds[i].Raise?
    ensures n < |ds| ==> ds[n].Raise?
  {
    if ds == [] || ds[0].Raise? then 0 else 1 + Done(ds[1..])
  }

  /** The loop raises at `i` when no earlier decision raises. */
  lemma FaultAt(ds: seq<Decision>, i: nat)
    requires i < |ds| && ds[i].Raise?
    requires forall j :: 0 <= j < i ==> !ds[j].Raise?
    ensures Done(ds) == i && FirstFault(ds) == Some(ds[i].fault)
  {
  }

  /** The exception that ends the loop, if any. */
  function FirstFault(ds: seq<Decision>): Option<Fault> {
    if Done(ds) < |ds| then Some(ds[Done(ds)].fault) else None
  }

  /** The map the insertion loop leaves when it starts from `m` and meets the decisions
      `ds` in order; on a `Raise` it stops and keeps what it has. */
  function Merge(policy: Policy, m: map<string, Server>, ds: seq<Decision>): map<string, Server>
    decreases |ds|
  {
    if ds == [] then m
    else
      match ds[0]
      case Skip => Merge(policy, m, ds[1..])
      case Raise(_) => m
      case Take(k, v) => Merge(policy, Put(policy, m, k, v), ds[1..])
  }

  /** The map after one decision that is not a `Raise`. */
  function Apply(policy: Policy, m: map<string, Server>, d: Decision): map<string, Server> {
    if d.Take? then Put(policy, m, d.key, d.server) else m
  }

  /** One pass of the loop: merging from position `i` is applying decision `i`, then
      merging from `i + 1`; a `Raise` at `i` ends the merge there. */
  lemma MergeStep(policy: Policy, m: map<string, Server>, ds: seq<Decision>, i: nat)
    requires i < |ds|
    ensures ds[i].Raise? ==> Merge(policy, m, ds[i..]) == m && Writes(policy, m, ds[i..]) == 0
    ensures !ds[i].Raise? ==> Merge(policy, m, ds[i..]) == Merge(policy, Apply(policy, m, ds[i]), ds[i + 1..])
    ensures !ds[i].Raise? ==>
              Writes(policy, m, ds[i..]) ==
              (if ds[i].Take? && (policy == LastWriterWins || ds[i].key !in m) then 1 else 0)
              + Writes(policy, Apply(policy, m, ds[i]), ds[i + 1..])
  {
    assert ds[i..][0] == ds[i];
    assert ds[i..][1..] == ds[i + 1..];
  }

  /** How many insertions that loop performs: the counter it increments after each one. */
  function Writes(policy: Policy, m: map<string, Server>, ds: seq<Decision>): nat
    decreases |ds|
  {
    if ds == [] then 0
    else
      match ds[0]
      case Skip => Writes(policy, m, ds[1..])
      case Raise(_) => 0
      case Take(k, v) =>
        (if policy == FirstWriterWins && k in m then 0 else 1) + Writes(policy, Put(policy, m, k, v), ds[1..])
  }

  /** Some decision the loop gets to inserts under `k`. */
  predicate Touches(ds: seq<Decision>, k: string) {
    exists i :: 0 <= i < Done(ds) && ds[i].Take? && ds[i].key == k
  }

  lemma TouchesTail(ds: seq<Decision>, k: string)
    requires ds != [] && !ds[0].Raise?
    ensures Done(ds) == 1 + Done(ds[1..])
    ensures Touches(ds, k) <==> (ds[0].Take? && ds[0].key == k) || Touches(ds[1..], k)
  {
    if Touches(ds[1..], k) {
      var i :| 0 <= i < Done(ds[1..]) && ds[1..][i].Take? && ds[1..][i].key == k;
      assert ds[i + 1] == ds[1..][i];
    }
    if Touches(ds, k) && !(ds[0].Take? && ds[0].key == k) {
      var i :| 0 <= i < Done(ds) && ds[i].Take? && ds[i].key == k;
      assert ds[1..][i - 1] == ds[i];
    }
  }

  /** The names in the merged map are the starting names and the names the loop inserts. */
  lemma {:induction false} MergeKeys(policy: Policy, m: map<string, Server>, ds: seq<Decision>, k: string)
    ensures k in Merge(policy, m, ds) <==> k in m || Touches(ds, k)
    decreases |ds|
  {
    if ds != [] && !ds[0].Raise? {
      TouchesTail(ds, k);
      match ds[0]
      case Skip => MergeKeys(policy, m, ds[1..], k);
      case Take(key, v) => MergeKeys(policy, Put(policy, m, key, v), ds[1..], k);
    }
  }

  /** A name the loop does not insert under keeps its value, or stays absent. */
  lemma {:induction false} MergeUntouched(policy: Policy, m: map<string, Server>, ds: seq<Decision>, k: string)
    requires !Touches(ds, k)
    ensures k in Merge(policy, m, ds) <==> k in m
    ensures k in m ==> Merge(policy, m, ds)[k] == m[k]
    decreases |ds|
  {
    if ds != [] && !ds[0].Raise? {
      TouchesTail(ds, k);
      match ds[0]
      case Skip => MergeUntouched(policy, m, ds[1..], k);
      case Take(key, v) => MergeUntouched(policy, Put(policy, m, key, v), ds[1..], k);
    }
  }

  /** First writer wins never changes a name that is already present. */
  lemma {:induction false} MergeKeepsExisting(m: map<string, Server>, ds: seq<Decision>, k: string)
    requires k in m
    ensures k in Merge(FirstWriterWins, m, ds) && Merge(FirstWriterWins, m, ds)[k] == m[k]
    decreases |ds|
  {
    if ds != [] && !ds[0].Raise? {
      match ds[0]
      case Skip => MergeKeepsExisting(m, ds[1..], k);
      case Take(key, v) => MergeKeepsExisting(Put(FirstWriterWins, m, key, v), ds[1..], k);
    }
  }

  /** Under first writer wins a new name holds the entry of the first decision that
      inserts under it. */
  lemma {:induction false} MergeFirst(m: map<string, Server>, ds: seq<Decision>, j: nat)
    requires j < Done(ds) && ds[j].Take? && ds[j].key !in m
    requires forall i :: 0 <= i < j && ds[i].Take? ==> ds[i].key != ds[j].key
    ensures ds[j].key in Merge(FirstWriterWins, m, ds)
    ensures Merge(FirstWriterWins, m, ds)[ds[j].key] == ds[j].server
    decreases |ds|
  {
    var k := ds[j].key;
    if j == 0 {
      MergeKeepsExisting(m[k := ds[0].server], ds[1..], k);
    } else {
      assert ds[1..][j - 1] == ds[j];
      match ds[0]
      case Skip => MergeFirst(m, ds[1..], j - 1);
      case Take(key, v) => MergeFirst(Put(FirstWriterWins, m, key, v), ds[1..], j - 1);
    }
  }

  /** Under last writer wins a name holds the entry of the last decision the loop gets
      to that inserts under it. */
  lemma {:induction false} MergeLast(m: map<string, Server>, ds: seq<Decision>, j: nat)
    requires j < Done(ds) && ds[j].Take?
    requires forall i :: j < i < Done(ds) && ds[i].Take? ==> ds[i].key != ds[j].key
    ensures ds[j].key in Merge(LastWriterWins, m, ds)
    ensures Merge(LastWriterWins, m, ds)[ds[j].key] == ds[j].server
    decreases |ds|
  {
    var k := ds[j].key;
    TouchesTail(ds, k);
    if j == 0 {
      forall i | 0 <= i < Done(ds[1..]) && ds[1..][i].Take?
        ensures ds[1..][i].key != k
      {
        assert ds[1..][i] == ds[i + 1];
      }
      MergeUntouched(LastWriterWins, m[k := ds[0].server], ds[1..], k);
    } else {
      assert ds[1..][j - 1] == ds[j];
      forall i | j - 1 < i < Done(ds[1..]) && ds[1..][i].Take?
        ensures ds[1..][i].key != k
      {
        assert ds[1..][i] == ds[i + 1];
      }
      match ds[0]
      case Skip => MergeLast(m, ds[1..], j - 1);
      case Take(key, v) => MergeLast(Put(LastWriterWins, m, key, v), ds[1..], j - 1);
    }
  }

  /** First writer wins only adds names: it counts exactly the names that were new. */
  lemma {:induction false} WritesFirstWins(m: map<string, Server>, ds: seq<Decision>)
    ensures m.Keys <= Merge(FirstWriterWins, m, ds).Keys
    ensures Writes(FirstWriterWins, m, ds) == |Merge(FirstWriterWins, m, ds)| - |m|
    decreases |ds|
  {
    if ds != [] && !ds[0].Raise? {
      match ds[0]
      case Skip => WritesFirstWins(m, ds[1..]);
      case Take(k, v) =>
        var m' := Put(FirstWriterWins, m, k, v);
        WritesFirstWins(m', ds[1..]);
        if k !in m {
          assert m'.Keys == m.Keys + {k};
        }
    }
  }

  /** Last writer wins adds at most one name per insertion, and inserts at most once per
      decision it gets to. */
  /** The number of insertions among `ds`. */
  function TakeCount(ds: seq<Decision>): nat {
    if ds == [] then 0 else (if ds[0].Take? then 1 else 0) + TakeCount(ds[1..])
  }

  /** Under last writer wins the counter is exactly the number of insertions the loop
      reaches, overwrites included. */
  lemma {:induction false} WritesLastWinsExact(m: map<string, Server>, ds: seq<Decision>)
    ensures Writes(LastWriterWins, m, ds) == TakeCount(ds[..Done(ds)])
    decreases |ds|
  {
    if ds != [] && !ds[0].Raise? {
      var n := Done(ds[1..]);
      assert ds[..Done(ds)] == [ds[0]] + ds[1..][..n];
      assert ([ds[0]] + ds[1..][..n])[1..] == ds[1..][..n];
      match ds[0]
      case Skip => WritesLastWinsExact(m, ds[1..]);
      case Take(k, v) => WritesLastWinsExact(m[k := v], ds[1..]);
    }
  }

  lemma {:induction false} WritesLastWins(m: map<string, Server>, ds: seq<Decision>)
    ensures Writes(LastWriterWins, m, ds) <= Done(ds)
    ensures |Merge(LastWriterWins, m, ds)| <= |m| + Writes(LastWriterWins, m, ds)
    decreases |ds|
  {
    if ds != [] && !ds[0].Raise? {
      match ds[0]
      case Skip => WritesLastWins(m, ds[1..]);
      case Take(k, v) =>
        var m' := m[k := v];
        WritesLastWins(m', ds[1..]);
        if k in m {
          assert m'.Keys == m.Keys;
        } else {
          assert m'.Keys == m.Keys + {k};
        }
    }
  }

  /** Merging the same decisions a second time under first writer wins changes nothing. */
  lemma MergeIdempotent(m: map<string, Server>, ds: seq<Decision>)
    ensures Merge(FirstWriterWins, Merge(FirstWriterWins, m, ds), ds) == Merge(FirstWriterWins, m, ds)
  {
    var once := Merge(FirstWriterWins, m, ds);
    forall i | 0 <= i < Done(ds) && ds[i].Take?
      ensures ds[i].key in once
    {
      MergeKeys(FirstWriterWins, m, ds, ds[i].key);
    }
    MergeNoop(once, ds);
  }

  lemma {:induction false} MergeNoop(m: map<string, Server>, ds: seq<Decision>)
    requires forall i :: 0 <= i < Done(ds) && ds[i].Take? ==> ds[i].key in m
    ensures Merge(FirstWriterWins, m, ds) == m
    decreases |ds|
  {
    if ds != [] && !ds[0].Raise? {
      forall i | 0 <= i < Done(ds[1..]) && ds[1..][i].Take?
        ensures ds[1..][i].key in m
      {
        assert ds[1..][i] == ds[i + 1];
      }
      MergeNoop(m, ds[1..]);
    }
  }

  /** When every insertion under `k` carries the same entry, that entry is what `k` holds
      afterwards, whichever insertion wins. */
  lemma {:induction false} MergeUniform(policy: Policy, m: map<string, Server>, ds: seq<Decision>, k: string, v: Server)
    requires forall i :: 0 <= i < |ds| && ds[i].Take? && ds[i].key == k ==> ds[i].server == v
    requires k in m ==> m[k] == v
    ensures k in Merge(policy, m, ds) ==> Merge(policy, m, ds)[k] == v
    decreases |ds|
  {
    if ds != [] && !ds[0].Raise? {
      forall i | 0 <= i < |ds[1..]| && ds[1..][i].Take? && ds[1..][i].key == k
        ensures ds[1..][i].server == v
      {
        assert ds[1..][i] == ds[i + 1];
      }
      MergeUniform(policy, Apply(policy, m, ds[0]), ds[1..], k, v);
    }
  }

  /** Insertions under distinct new names add one name each. */
  lemma {:induction false} MergeDistinct(m: map<string, Server>, ds: seq<Decision>)
    requires forall i :: 0 <= i < |ds| ==> ds[i].Take? && ds[i].key !in m
    requires forall i, j :: 0 <= i < j < |ds| ==> ds[i].key != ds[j].key
    ensures |Merge(LastWriterWins, m, ds)| == |m| + |ds|
    decreases |ds|
  {
    if ds != [] {
      var m' := Apply(LastWriterWins, m, ds[0]);
      forall i | 0 <= i < |ds[1..]|
        ensures ds[1..][i].Take? && ds[1..][i].key !in m'
      {
        assert ds[1..][i] == ds[i + 1];
      }
      forall i, j | 0 <= i < j < |ds[1..]|
        ensures ds[1..][i].key != ds[1..][j].key
      {
        assert ds[1..][i] == ds[i + 1] && ds[1..][j] == ds[j + 1];
      }
      MergeDistinct(m', ds[1..]);
    }
  }

  /** Decisions after an exception have no effect: the loop is over. */
  lemma {:induction false} MergeStopsAtFault(policy: Policy, m: map<string, Server>, before: seq<Decision>, f: Fault, after: seq<Decision>)
    ensures Merge(policy, m, before + [Raise(f)] + after) == Merge(policy, m, before)
    ensures Writes(policy, m, before + [Raise(f)] + after) == Writes(policy, m, before)
    decreases |before|
  {
    var ds := before + [Raise(f)] + after;
    if before != [] {
      assert ds[0] == before[0];
      assert ds[1..] == before[1..] + [Raise(f)] + after;
      match before[0]
      case Skip => MergeStopsAtFault(policy, m, before[1..], f, after);
      case Raise(_) =>
      case Take(k, v) => MergeStopsAtFault(policy, Put(policy, m, k, v), before[1..], f, after);
    }
  }

  /** The `category` values of the entries that have one. */
  function CategorySet(servers: map<string, Server>): set<string> {
    set k | k in servers && servers[k].category.Some? :: servers[k].category.value
  }

  /** `categories = set()`, a loop over `mcpServers.values()` adding each entry's
      `category` where it has one, then `sorted(list(categories))`. */
  method SortedCategories(servers: map<string, Server>) returns (categories: seq<string>)
    ensures SortedListOf(categories, CategorySet(servers))
    ensures forall c :: c in categories <==> exists k :: k in servers && servers[k].category == Some(c)
  {
    var found: set<string> := {};
    var todo := servers.Keys;
    while todo != {}
      invariant todo <= servers.Keys
      invariant forall c :: c in found <==> exists k :: k in servers && k !in todo && servers[k].category == Some(c)
      decreases todo
    {
      var k :| k in todo;
      if servers[k].category.Some? {
        found := found + {servers[k].category.value};
      }
      todo := todo - {k};
    }
    categories := SortSet(found);
  }
}
