/** build-profile.py: loads an existing profile and adds every `active` row of the CSV
    whose name it does not hold yet, then stamps `metadata.modified`. */
module ProfileUpdate {
  import opened Wrappers
  import opened Text
  import opened Profiles

  /** The profile the script writes back, or the exception that ends it (the file is then
      left as it was). */
  function Update(loaded: ProfileDoc, rows: seq<Row>, modified: string): Result<ProfileDoc, Fault> {
    match Eligible(rows, "active")
    case Failure(f) => Failure(f)
    case Success(active) =>
      var ds := Decisions(active, false);
      match FirstFault(ds)
      case Some(f) => Failure(f)
      case None =>
        Success(loaded.(servers := Merge(FirstWriterWins, loaded.servers, ds),
                        metadata := loaded.metadata.(modified := modified)))
  }

  /** The script, from the loaded profile on. */
  method UpdateProfile(loaded: ProfileDoc, rows: seq<Row>, modified: string) returns (r: Result<ProfileDoc, Fault>)
    ensures r == Update(loaded, rows, modified)
  {
    var eligible := Eligible(rows, "active");
    if eligible.Failure? {
      return Failure(eligible.error);
    }
    var active := eligible.value;
    ghost var ds := Decisions(active, false);
    var servers := loaded.servers;
    var i := 0;
    while i < |active|
      invariant i <= |active|
      invariant forall j :: 0 <= j < i ==> !ds[j].Raise?
      invariant Merge(FirstWriterWins, loaded.servers, ds) == Merge(FirstWriterWins, servers, ds[i..])
    {
      MergeStep(FirstWriterWins, servers, ds, i);
      var mcp := active[i];
      assert ds[i] == Decide(mcp, false);
      if mcp.mcpName.None? {
        FaultAt(ds, i);
        return Failure(MissingColumn("mcp_name"));
      }
      if mcp.command.None? {
        FaultAt(ds, i);
        return Failure(MissingColumn("command"));
      }
      var name, command := mcp.mcpName.value, mcp.command.value;
      var parts := Words(command);
      WordsEmptyIffAllSpace(command);
      if parts == [] {
        FaultAt(ds, i);
        return Failure(EmptyCommand);
      }
      assert ds[i] == Take(name, Bare(parts[0], parts[1..]));
      if name !in servers {
        servers := servers[name := Bare(parts[0], parts[1..])];
      }
      i := i + 1;
    }
    assert ds[i..] == [];
    assert FirstFault(ds) == None;
    var metadata := loaded.metadata.(modified := modified);
    return Success(loaded.(servers := servers, metadata := metadata));
  }

  lemma DecideCases(row: Row)
    ensures Decide(row, false).Raise? <==> BadRow(row, false)
    ensures !BadRow(row, false) ==> Decide(row, false).Take? && Decide(row, false).key == row.mcpName.value
    ensures !BadRow(row, false) ==> Decide(row, false).server == Bare(Decide(row, false).server.command, Decide(row, false).server.args)
    ensures !BadRow(row, false) ==> SplitFrom(Decide(row, false).server, row.command.value)
  {
    ReadLaunchCases(row, false);
  }

  /** The script fails exactly when some row lacks `status`, or some active row lacks
      `mcp_name` or `command` or has a blank command. */
  lemma UpdateFails(loaded: ProfileDoc, rows: seq<Row>, modified: string)
    ensures Update(loaded, rows, modified).Failure? <==>
      (exists i :: 0 <= i < |rows| && rows[i].status.None?) ||
      (exists row :: row in rows && row.status == Some("active") && BadRow(row, false))
  {
    var e := Eligible(rows, "active");
    if e.Success? {
      var ds := Decisions(e.value, false);
      if FirstFault(ds).Some? {
        var n := Done(ds);
        DecideCases(e.value[n]);
        assert e.value[n] in e.value;
      } else {
        forall row | row in rows && row.status == Some("active")
          ensures !BadRow(row, false)
        {
          var i :| 0 <= i < |e.value| && e.value[i] == row;
          DecideCases(row);
          assert ds[i] == Decide(row, false) && !ds[i].Raise?;
        }
      }
    }
  }

  /** Nothing is removed: the names afterwards are the loaded names and the names of the
      active rows. Only `metadata.modified` changes outside `mcpServers`. */
  lemma UpdateKeys(loaded: ProfileDoc, rows: seq<Row>, modified: string, k: string)
    requires Update(loaded, rows, modified).Success?
    ensures k in Update(loaded, rows, modified).value.servers <==>
      k in loaded.servers || exists row :: row in rows && row.status == Some("active") && row.mcpName == Some(k)
    ensures Update(loaded, rows, modified).value.name == loaded.name
    ensures Update(loaded, rows, modified).value.description == loaded.description
    ensures Update(loaded, rows, modified).value.metadata == loaded.metadata.(modified := modified)
  {
    var active := Eligible(rows, "active").value;
    var ds := Decisions(active, false);
    assert Update(loaded, rows, modified).value.servers == Merge(FirstWriterWins, loaded.servers, ds);
    MergeKeys(FirstWriterWins, loaded.servers, ds, k);
    assert Touches(ds, k) ==> exists row :: row in rows && row.status == Some("active") && row.mcpName == Some(k) by {
      if Touches(ds, k) {
        var i :| 0 <= i < Done(ds) && ds[i].Take? && ds[i].key == k;
        DecideCases(active[i]);
        assert active[i] in active;
      }
    }
    assert (exists row :: row in rows && row.status == Some("active") && row.mcpName == Some(k)) ==> Touches(ds, k) by {
      if exists row :: row in rows && row.status == Some("active") && row.mcpName == Some(k) {
        var row :| row in rows && row.status == Some("active") && row.mcpName == Some(k);
        var i :| 0 <= i < |active| && active[i] == row;
        assert ds[i] == Decide(row, false) && !ds[i].Raise?;
        DecideCases(row);
      }
    }
  }

  /** Entries of the loaded profile are left exactly as they were. */
  lemma UpdateKeepsLoaded(loaded: ProfileDoc, rows: seq<Row>, modified: string, k: string)
    requires Update(loaded, rows, modified).Success?
    requires k in loaded.servers
    ensures k in Update(loaded, rows, modified).value.servers
    ensures Update(loaded, rows, modified).value.servers[k] == loaded.servers[k]
  {
    MergeKeepsExisting(loaded.servers, Decisions(Eligible(rows, "active").value, false), k);
  }

  /** A new name holds the entry of the first active row with that name: `command` and
      `args` are that row's tokens, and nothing else is set. */
  lemma UpdateFirstRowWins(loaded: ProfileDoc, rows: seq<Row>, modified: string, j: nat, k: string)
    requires Update(loaded, rows, modified).Success?
    requires k !in loaded.servers
    requires j < |Eligible(rows, "active").value|
    requires Eligible(rows, "active").value[j].mcpName == Some(k)
    requires Eligible(rows, "active").value[j].command.Some?
    requires forall i :: 0 <= i < j ==> Eligible(rows, "active").value[i].mcpName != Some(k)
    ensures k in Update(loaded, rows, modified).value.servers
    ensures var s := Update(loaded, rows, modified).value.servers[k];
      s == Bare(s.command, s.args) && SplitFrom(s, Eligible(rows, "active").value[j].command.value)
  {
    var active := Eligible(rows, "active").value;
    var ds := Decisions(active, false);
    assert ds[j] == Decide(active[j], false) && !ds[j].Raise?;
    DecideCases(active[j]);
    forall i | 0 <= i < j && ds[i].Take?
      ensures ds[i].key != ds[j].key
    {
      assert ds[i] == Decide(active[i], false) && !ds[i].Raise?;
      DecideCases(active[i]);
    }
    MergeFirst(loaded.servers, ds, j);
  }

  /** Running the script a second time with the same CSV adds nothing. */
  lemma UpdateIdempotent(loaded: ProfileDoc, rows: seq<Row>, modified: string, later: string)
    requires Update(loaded, rows, modified).Success?
    ensures var once := Update(loaded, rows, modified).value;
      Update(once, rows, later) == Success(once.(metadata := once.metadata.(modified := later)))
  {
    MergeIdempotent(loaded.servers, Decisions(Eligible(rows, "active").value, false));
  }
}
