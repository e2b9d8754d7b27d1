/** build-top-profile.py: a fresh profile of every `production` row of the CSV, each entry
    only `command` and `args`, a later row replacing an earlier one of the same name. */
module TopProfile {
  import opened Wrappers
  import opened Text
  import opened Profiles

  const Name := "top-mcp-servers"
  const Description := "Profile: top-mcp-servers - Most popular production-ready MCP servers ranked by downloads and industry adoption"

  /** The profile the script writes, or the exception that ends it. */
  function Build(rows: seq<Row>, created: string, modified: string): Result<ProfileDoc, Fault> {
    match Eligible(rows, "production")
    case Failure(f) => Failure(f)
    case Success(production) =>
      var ds := Decisions(production, true);
      match FirstFault(ds)
      case Some(f) => Failure(f)
      case None => Success(ProfileDoc(Name, Description, Merge(LastWriterWins, map[], ds), EmptyMetadata(created, modified)))
  }

  /** The script: filter the production rows, then insert each one's split command. */
  method BuildTopProfile(rows: seq<Row>, created: string, modified: string) returns (r: Result<ProfileDoc, Fault>)
    ensures r == Build(rows, created, modified)
  {
    var eligible := Eligible(rows, "production");
    if eligible.Failure? {
      return Failure(eligible.error);
    }
    var production := eligible.value;
    ghost var ds := Decisions(production, true);
    var servers: map<string, Server> := map[];
    var i := 0;
    while i < |production|
      invariant i <= |production|
      invariant forall j :: 0 <= j < i ==> !ds[j].Raise?
      invariant Merge(LastWriterWins, map[], ds) == Merge(LastWriterWins, servers, ds[i..])
    {
      MergeStep(LastWriterWins, servers, ds, i);
      var mcp := production[i];
      assert ds[i] == Decide(mcp, true);
      if mcp.mcpName.None? {
        FaultAt(ds, i);
        return Failure(MissingColumn("mcp_name"));
      }
      if mcp.command.None? {
        FaultAt(ds, i);
        return Failure(MissingColumn("command"));
      }
      var name, command := mcp.mcpName.value, mcp.command.value;
      if !IsContainerCommand(command) {
        var parts := Words(command);
        WordsEmptyIffAllSpace(command);
        if parts == [] {
          FaultAt(ds, i);
          return Failure(EmptyCommand);
        }
        assert ds[i] == Take(name, Bare(parts[0], parts[1..]));
        servers := servers[name := Bare(parts[0], parts[1..])];
      } else {
        assert ds[i] == Skip;
      }
      i := i + 1;
    }
    assert ds[i..] == [];
    assert FirstFault(ds) == None;
    return Success(ProfileDoc(Name, Description, servers, EmptyMetadata(created, modified)));
  }

  lemma DecideCases(row: Row)
    ensures Decide(row, true).Raise? <==> BadRow(row, true)
    ensures forall k :: Decide(row, true).Take? && Decide(row, true).key == k <==> Launches(row, k, true)
    ensures Decide(row, true).Take? ==> IsBareSplit(Decide(row, true).server, row.command.value)
  {
    ReadLaunchCases(row, true);
  }

  /** An entry with only `command` and `args`, which are the tokens of `command`. */
  predicate IsBareSplit(s: Server, command: string) {
    s == Bare(s.command, s.args) && SplitFrom(s, command)
  }

  /** The script fails exactly when some row lacks `status`, or some production row lacks
      `mcp_name` or `command` or has a blank command that is not a container command. */
  lemma BuildFails(rows: seq<Row>, created: string, modified: string)
    ensures Build(rows, created, modified).Failure? <==>
      (exists i :: 0 <= i < |rows| && rows[i].status.None?) ||
      (exists row :: row in rows && row.status == Some("production") && BadRow(row, true))
  {
    var e := Eligible(rows, "production");
    if e.Success? {
      var ds := Decisions(e.value, true);
      if FirstFault(ds).Some? {
        var n := Done(ds);
        DecideCases(e.value[n]);
        assert e.value[n] in e.value;
      } else {
        forall row | row in rows && row.status == Some("production")
          ensures !BadRow(row, true)
        {
          var i :| 0 <= i < |e.value| && e.value[i] == row;
          DecideCases(row);
          assert ds[i] == Decide(row, true) && !ds[i].Raise?;
        }
      }
    }
  }

  /** The names in the profile are exactly the names of the production rows whose command
      is a non-blank, non-container command. */
  lemma TopKeys(rows: seq<Row>, created: string, modified: string, k: string)
    requires Build(rows, created, modified).Success?
    ensures k in Build(rows, created, modified).value.servers <==>
      exists row :: row in rows && row.status == Some("production") && Launches(row, k, true)
  {
    var production := Eligible(rows, "production").value;
    var ds := Decisions(production, true);
    MergeKeys(LastWriterWins, map[], ds, k);
    assert Touches(ds, k) ==> exists row :: row in rows && row.status == Some("production") && Launches(row, k, true) by {
      if Touches(ds, k) {
        var i :| 0 <= i < Done(ds) && ds[i].Take? && ds[i].key == k;
        DecideCases(production[i]);
        assert production[i] in production;
      }
    }
    assert (exists row :: row in rows && row.status == Some("production") && Launches(row, k, true)) ==> Touches(ds, k) by {
      if exists row :: row in rows && row.status == Some("production") && Launches(row, k, true) {
        var row :| row in rows && row.status == Some("production") && Launches(row, k, true);
        var i :| 0 <= i < |production| && production[i] == row;
        DecideCases(row);
        assert ds[i].Take? && ds[i].key == k;
      }
    }
  }

  /** Last writer wins: a name holds the entry of the last production row that launches
      it, whose command and arguments are that row's tokens and nothing else. */
  lemma TopLastRowWins(rows: seq<Row>, created: string, modified: string, j: nat, k: string)
    requires Build(rows, created, modified).Success?
    requires j < |Eligible(rows, "production").value|
    requires Launches(Eligible(rows, "production").value[j], k, true)
    requires forall i :: j < i < |Eligible(rows, "production").value| ==> !Launches(Eligible(rows, "production").value[i], k, true)
    ensures k in Build(rows, created, modified).value.servers
    ensures IsBareSplit(Build(rows, created, modified).value.servers[k], Eligible(rows, "production").value[j].command.value)
  {
    var production := Eligible(rows, "production").value;
    var ds := Decisions(production, true);
    DecideCases(production[j]);
    forall i | j < i < Done(ds) && ds[i].Take?
      ensures ds[i].key != ds[j].key
    {
      DecideCases(production[i]);
    }
    MergeLast(map[], ds, j);
  }

  /** At most one entry per production row; no count fields in the metadata. */
  lemma TopSize(rows: seq<Row>, created: string, modified: string)
    requires Build(rows, created, modified).Success?
    ensures |Build(rows, created, modified).value.servers| <= |Eligible(rows, "production").value|
    ensures Build(rows, created, modified).value.metadata == EmptyMetadata(created, modified)
  {
    var production := Eligible(rows, "production").value;
    WritesLastWins(map[], Decisions(production, true));
  }
}
