/** create-working-profile.py: probes a fixed list of npm packages, keeps those the
    registry knows, and writes a profile of the working ones, or exits with status 1
    when there are none. The npm call is an input: each package comes with the outcome
    of its probe. */
module WorkingProfile {
  import opened Wrappers
  import opened Text
  import opened Sorting
  import opened Profiles

  const Name := "working-ecosystem"
  const Description := "Profile: working-ecosystem - Only verified working MCP servers that actually exist and can be installed"

  /** An entry of the list of packages to probe. */
  datatype PackageInfo = PackageInfo(name: string, package: string, args: seq<string>, category: string)

  /** The packages the script probes, in order. */
  const TestPackages: seq<PackageInfo> := [
    PackageInfo("filesystem", "@modelcontextprotocol/server-filesystem", ["/tmp"], "file-operations"),
    PackageInfo("memory", "@modelcontextprotocol/server-memory", [], "ai-memory"),
    PackageInfo("figma", "figma-mcp", [], "design"),
    PackageInfo("ref-tools", "ref-tools-mcp", [], "development"),
    PackageInfo("browser", "@agent-infra/mcp-server-browser", [], "browser-automation"),
    PackageInfo("context7", "@upstash/context7-mcp", [], "ai-context"),
    PackageInfo("browserbase", "@browserbase/mcp-server-browserbase", [], "browser-automation"),
    PackageInfo("elevenlabs", "@elevenlabs/elevenlabs-mcp", [], "audio-ai"),
    PackageInfo("sanity", "@sanity-io/sanity-mcp-server", [], "content-management"),
    PackageInfo("dataforseo", "@dataforseo/mcp-server-typescript", [], "seo-analytics"),
    PackageInfo("chroma", "@chroma-core/chroma-mcp", [], "vector-database"),
    PackageInfo("azure", "@azure/azure-mcp", [], "cloud-infrastructure"),
    PackageInfo("playwright", "@microsoft/mcp-playwright", [], "browser-automation"),
    PackageInfo("supabase", "@supabase/mcp-server-supabase", [], "database"),
    PackageInfo("docker", "@docker/mcp-server", [], "containerization")
  ]

  /** How `npm view <package> version` ended: it completed with a return code and its
      captured output, it ran past the ten-second timeout, or it could not run at all. */
  datatype ProbeOutcome =
    | Completed(returnCode: int, stdout: string, stderr: string)
    | Expired
    | Crashed(message: string)

  /** The `status` of a probe: `exists`, `not_found`, `timeout` or `error`. */
  datatype Status = Exists | NotFound | Timeout | Error

  /** The dictionary `test_package` returns; a key it does not write is `None`. */
  datatype TestResult = TestResult(
    name: string,
    package: string,
    args: Option<seq<string>>,
    category: Option<string>,
    status: Status,
    version: Option<string>,
    error: Option<string>)

  /** `test_package`: a package exists when npm returns 0 with a non-blank version. */
  function TestPackage(info: PackageInfo, outcome: ProbeOutcome): TestResult {
    match outcome
    case Completed(returnCode, stdout, stderr) =>
      if returnCode == 0 && Strip(stdout) != [] then
        TestResult(info.name, info.package, Some(info.args), Some(info.category), Exists, Some(Strip(stdout)), None)
      else
        TestResult(info.name, info.package, None, None, NotFound, None,
                   Some(if stderr != [] then Strip(stderr) else "Package not found"))
    case Expired =>
      TestResult(info.name, info.package, None, None, Timeout, None, Some("Command timed out"))
    case Crashed(message) =>
      TestResult(info.name, info.package, None, None, Error, None, Some(message))
  }

  /** The classification of a probe. A package exists exactly when npm returned 0 and
      printed something besides whitespace; its version is that output without the
      surrounding whitespace, and a working result carries everything the profile reads.
      Any other completed run is `not_found`, with the stripped error output as the
      message, or "Package not found" when there was none. */
  lemma TestPackageCases(info: PackageInfo, outcome: ProbeOutcome)
    ensures var r := TestPackage(info, outcome);
            && r.name == info.name && r.package == info.package
            && (r.status == Exists <==> outcome.Completed? && outcome.returnCode == 0 && !AllSpace(outcome.stdout))
            && (r.status == Exists ==>
                  && r.args == Some(info.args) && r.category == Some(info.category) && r.error.None?
                  && r.version == Some(Strip(outcome.stdout)) && r.version.value != []
                  && !IsSpace(r.version.value[0]) && !IsSpace(r.version.value[|r.version.value| - 1]))
            && (r.status == NotFound <==> outcome.Completed? && !(outcome.returnCode == 0 && !AllSpace(outcome.stdout)))
            && (r.status == NotFound ==>
                  r.error == Some(if outcome.stderr == [] then "Package not found" else Strip(outcome.stderr)))
            && (r.status == Timeout <==> outcome.Expired?)
            && (r.status == Timeout ==> r.error == Some("Command timed out"))
            && (r.status == Error <==> outcome.Crashed?)
            && (r.status == Error ==> r.error == Some(outcome.message))
            && (r.status != Exists ==> r.error.Some? && r.version.None?)
  {
    if outcome.Completed? {
      StripEmptyIffAllSpace(outcome.stdout);
    }
  }

  function Results(infos: seq<PackageInfo>, outcomes: seq<ProbeOutcome>): (rs: seq<TestResult>)
    requires |outcomes| == |infos|
    ensures |rs| == |infos|
  {
    seq(|infos|, i requires 0 <= i < |infos| => TestPackage(infos[i], outcomes[i]))
  }

  /** The results with status `exists`, in order. */
  function Working(rs: seq<TestResult>): (ws: seq<TestResult>)
    ensures |ws| <= |rs|
  {
    if rs == [] then []
    else Working(rs[..|rs| - 1]) + (if rs[|rs| - 1].status == Exists then [rs[|rs| - 1]] else [])
  }

  /** The other results, in order. */
  function Failed(rs: seq<TestResult>): (fs: seq<TestResult>)
    ensures |fs| <= |rs|
  {
    if rs == [] then []
    else Failed(rs[..|rs| - 1]) + (if rs[|rs| - 1].status != Exists then [rs[|rs| - 1]] else [])
  }

  /** Every result lands in exactly one of the two lists, which keep the order of the
      probes. */
  lemma Partition(rs: seq<TestResult>)
    ensures multiset(Working(rs)) + multiset(Failed(rs)) == multiset(rs)
    ensures |Working(rs)| + |Failed(rs)| == |rs|
    ensures forall r :: r in Working(rs) <==> r in rs && r.status == Exists
    ensures forall r :: r in Failed(rs) <==> r in rs && r.status != Exists
  {
    PartitionCounts(rs);
    PartitionMembers(rs);
  }

  lemma {:induction false} PartitionCounts(rs: seq<TestResult>)
    ensures multiset(Working(rs)) + multiset(Failed(rs)) == multiset(rs)
  {
    if rs != [] {
      var front, last := rs[..|rs| - 1], rs[|rs| - 1];
      PartitionCounts(front);
      assert rs == front + [last];
      assert multiset(rs) == multiset(front) + multiset{last};
      if last.status == Exists {
        assert Working(rs) == Working(front) + [last];
        assert Failed(rs) == Failed(front);
      } else {
        assert Working(rs) == Working(front);
        assert Failed(rs) == Failed(front) + [last];
      }
    }
  }

  lemma {:induction false} PartitionMembers(rs: seq<TestResult>)
    ensures forall r :: r in Working(rs) <==> r in rs && r.status == Exists
    ensures forall r :: r in Failed(rs) <==> r in rs && r.status != Exists
  {
    if rs != [] {
      var front, last := rs[..|rs| - 1], rs[|rs| - 1];
      PartitionMembers(front);
      assert rs == front + [last];
      assert forall r :: r in rs <==> r in front || r == last;
      if last.status == Exists {
        assert Working(rs) == Working(front) + [last];
        assert Failed(rs) == Failed(front);
      } else {
        assert Working(rs) == Working(front);
        assert Failed(rs) == Failed(front) + [last];
      }
    }
  }

  /** Both lists keep the order of the probes: the results of a later batch of probes come
      after those of an earlier one. */
  lemma PartitionOrder(a: seq<TestResult>, b: seq<TestResult>)
    ensures Working(a + b) == Working(a) + Working(b)
    ensures Failed(a + b) == Failed(a) + Failed(b)
  {
    WorkingOrder(a, b);
    FailedOrder(a, b);
  }

  lemma {:induction false} WorkingOrder(a: seq<TestResult>, b: seq<TestResult>)
    ensures Working(a + b) == Working(a) + Working(b)
    decreases |b|
  {
    if b == [] {
      assert a + b == a;
    } else {
      var front, last := b[..|b| - 1], b[|b| - 1];
      var ab := a + b;
      var tail := if last.status == Exists then [last] else [];
      assert ab[..|ab| - 1] == a + front;
      assert ab[|ab| - 1] == last;
      WorkingOrder(a, front);
      assert Working(ab) == Working(a + front) + tail;
      assert Working(b) == Working(front) + tail;
      assert Working(a + front) + tail == Working(a) + (Working(front) + tail);
    }
  }

  lemma {:induction false} FailedOrder(a: seq<TestResult>, b: seq<TestResult>)
    ensures Failed(a + b) == Failed(a) + Failed(b)
    decreases |b|
  {
    if b == [] {
      assert a + b == a;
    } else {
      var front, last := b[..|b| - 1], b[|b| - 1];
      var ab := a + b;
      var tail := if last.status != Exists then [last] else [];
      assert ab[..|ab| - 1] == a + front;
      assert ab[|ab| - 1] == last;
      FailedOrder(a, front);
      assert Failed(ab) == Failed(a + front) + tail;
      assert Failed(b) == Failed(front) + tail;
      assert Failed(a + front) + tail == Failed(a) + (Failed(front) + tail);
    }
  }

  /** The probing loop: each package is probed once, in order, and its result appended to
      `working` or to `failed`. */
  method ProbeAll(infos: seq<PackageInfo>, outcomes: seq<ProbeOutcome>)
    returns (working: seq<TestResult>, failed: seq<TestResult>)
    requires |outcomes| == |infos|
    ensures working == Working(Results(infos, outcomes))
    ensures failed == Failed(Results(infos, outcomes))
  {
    ghost var rs := Results(infos, outcomes);
    working, failed := [], [];
    var i := 0;
    while i < |infos|
      invariant i <= |infos|
      invariant working == Working(rs[..i]) && failed == Failed(rs[..i])
    {
      var result := TestPackage(infos[i], outcomes[i]);
      assert rs[..i + 1][..i] == rs[..i] && rs[..i + 1][i] == result;
      if result.status == Exists {
        working := working + [result];
      } else {
        failed := failed + [result];
      }
      i := i + 1;
    }
    assert rs[..i] == rs;
  }

  /** The entry for a working package. */
  function WorkingServer(pkg: TestResult, testedDate: string): Server
    requires pkg.args.Some? && pkg.category.Some?
  {
    Server(
      "npx", [pkg.package] + pkg.args.value,
      Some("Verified working " + pkg.name + " MCP server"),
      pkg.category, None, None,
      Some(pkg.package), Some(pkg.version.GetOr("unknown")),
      Some(ServerMeta("verified-working", "npm-test", true, None, Some(testedDate))))
  }

  /** Every result the profile is built from carries `args` and `category`. */
  predicate Complete(working: seq<TestResult>) {
    forall r | r in working :: r.args.Some? && r.category.Some?
  }

  function WorkingDecisions(working: seq<TestResult>, testedDate: string): (ds: seq<Decision>)
    requires Complete(working)
    ensures |ds| == |working|
  {
    seq(|working|, i requires 0 <= i < |working| => Take(working[i].name, WorkingServer(working[i], testedDate)))
  }

  /** The categories of the working packages, whether or not their entry survives. */
  function CategoriesOf(working: seq<TestResult>): set<string>
    requires Complete(working)
  {
    set r | r in working :: r.category.value
  }

  /** The profile `create_working_profile` returns. */
  ghost function Build(working: seq<TestResult>, testedPackages: nat, created: string, modified: string,
                       testedDate: string): ProfileDoc
    requires Complete(working)
  {
    ProfileDoc(Name, Description, Merge(LastWriterWins, map[], WorkingDecisions(working, testedDate)),
      Metadata(created, modified, Some(|working|), None, None, Some(testedPackages), Some(|working|),
               Some(SortedOf(CategoriesOf(working)))))
  }

  /** `create_working_profile`; `testedPackages` is the length of the probed list. */
  method CreateWorkingProfile(working: seq<TestResult>, testedPackages: nat, created: string, modified: string,
                              testedDate: string) returns (profile: ProfileDoc)
    requires Complete(working)
    ensures profile == Build(working, testedPackages, created, modified, testedDate)
  {
    ghost var ds := WorkingDecisions(working, testedDate);
    var servers: map<string, Server> := map[];
    var categories: set<string> := {};
    var i := 0;
    while i < |working|
      invariant i <= |working|
      invariant Merge(LastWriterWins, map[], ds) == Merge(LastWriterWins, servers, ds[i..])
      invariant categories == set r | r in working[..i] :: r.category.value
    {
      MergeStep(LastWriterWins, servers, ds, i);
      var pkg := working[i];
      assert pkg in working;
      var serverConfig := Server(
        "npx", [pkg.package] + pkg.args.value,
        Some("Verified working " + pkg.name + " MCP server"),
        Some(pkg.category.value), None, None,
        Some(pkg.package), Some(pkg.version.GetOr("unknown")),
        Some(ServerMeta("verified-working", "npm-test", true, None, Some(testedDate))));
      assert ds[i] == Take(pkg.name, serverConfig);
      servers := servers[pkg.name := serverConfig];
      assert working[..i + 1] == working[..i] + [pkg];
      categories := categories + {pkg.category.value};
      i := i + 1;
    }
    assert ds[i..] == [] && working[..i] == working;
    var sorted := SortSet(categories);
    SortedListUnique(sorted, SortedOf(CategoriesOf(working)), CategoriesOf(working));
    profile := ProfileDoc(Name, Description, servers,
      Metadata(created, modified, Some(|working|), None, None, Some(testedPackages), Some(|working|), Some(sorted)));
  }

  /** The names in the profile are the names of the working packages; each holds the
      entry of the last package with that name, launched as `npx <package> <args...>`. */
  lemma WorkingEntries(working: seq<TestResult>, testedPackages: nat, created: string, modified: string,
                       testedDate: string, j: nat)
    requires Complete(working)
    requires j < |working| && forall i :: j < i < |working| ==> working[i].name != working[j].name
    ensures var servers := Build(working, testedPackages, created, modified, testedDate).servers;
            && working[j].name in servers
            && servers[working[j].name].command == "npx"
            && servers[working[j].name].args == [working[j].package] + working[j].args.value
            && servers[working[j].name].packageName == Some(working[j].package)
            && servers[working[j].name].category == working[j].category
            && servers[working[j].name].version == Some(working[j].version.GetOr("unknown"))
  {
    var ds := WorkingDecisions(working, testedDate);
    assert Done(ds) == |ds|;
    MergeLast(map[], ds, j);
  }

  lemma WorkingKeys(working: seq<TestResult>, testedPackages: nat, created: string, modified: string,
                    testedDate: string, k: string)
    requires Complete(working)
    ensures k in Build(working, testedPackages, created, modified, testedDate).servers <==>
            exists r :: r in working && r.name == k
  {
    var ds := WorkingDecisions(working, testedDate);
    assert Done(ds) == |ds|;
    MergeKeys(LastWriterWins, map[], ds, k);
    if exists r :: r in working && r.name == k {
      var r :| r in working && r.name == k;
      var i :| 0 <= i < |working| && working[i] == r;
      assert ds[i].Take? && ds[i].key == k;
    }
  }

  /** `totalServers` and `workingPackages` are the number of working packages; that is
      the number of entries when the names are distinct, and never fewer. The categories
      are the sorted categories of the working packages. */
  lemma WorkingMetadata(working: seq<TestResult>, testedPackages: nat, created: string, modified: string,
                        testedDate: string)
    requires Complete(working)
    ensures var p := Build(working, testedPackages, created, modified, testedDate);
            && p.metadata.totalServers == Some(|working|) && p.metadata.workingPackages == Some(|working|)
            && p.metadata.testedPackages == Some(testedPackages)
            && |p.servers| <= |working|
            && ((forall i, j :: 0 <= i < j < |working| ==> working[i].name != working[j].name) ==> |p.servers| == |working|)
            && SortedListOf(p.metadata.categories.value, CategoriesOf(working))
  {
    var ds := WorkingDecisions(working, testedDate);
    assert Done(ds) == |ds|;
    WritesLastWins(map[], ds);
    if forall i, j :: 0 <= i < j < |working| ==> working[i].name != working[j].name {
      MergeDistinct(map[], ds);
    }
  }

  /** The probed names are distinct, so every working package gets an entry of its own. */
  lemma TestPackagesDistinct()
    ensures forall i, j :: 0 <= i < j < |TestPackages| ==> TestPackages[i].name != TestPackages[j].name
  {
  }

  /** The script: probe every package, then write the profile of the working ones and exit
      with 0, or write nothing and exit with 1 when none works. */
  method Run(infos: seq<PackageInfo>, outcomes: seq<ProbeOutcome>, created: string, modified: string,
             testedDate: string) returns (exitCode: int, profile: Option<ProfileDoc>)
    requires |outcomes| == |infos|
    ensures var working := Working(Results(infos, outcomes));
            && (exitCode == 1 <==> working == [])
            && (exitCode != 1 ==> exitCode == 0)
            && (working == [] ==> profile.None?)
            && (working != [] ==> Complete(working) && profile == Some(Build(working, |infos|, created, modified, testedDate)))
  {
    var working, failed := ProbeAll(infos, outcomes);
    PartitionMembers(Results(infos, outcomes));
    if working != [] {
      var p := CreateWorkingProfile(working, |infos|, created, modified, testedDate);
      exitCode, profile := 0, Some(p);
    } else {
      exitCode, profile := 1, None;
    }
  }

  /** The script exits with 1 exactly when no probe found its package. */
  lemma RunFails(infos: seq<PackageInfo>, outcomes: seq<ProbeOutcome>)
    requires |outcomes| == |infos|
    ensures Working(Results(infos, outcomes)) == [] <==>
            forall i :: 0 <= i < |infos| ==> TestPackage(infos[i], outcomes[i]).status != Exists
  {
    var rs := Results(infos, outcomes);
    Partition(rs);
    if Working(rs) != [] {
      var r := Working(rs)[0];
      assert r in Working(rs);
    } else {
      forall i | 0 <= i < |infos|
        ensures TestPackage(infos[i], outcomes[i]).status != Exists
      {
        assert rs[i] in rs;
      }
    }
  }
}
