/** build-live-ecosystem.py: a fresh profile filled in two phases. First the `production`
    rows of a CSV (last writer wins), then curated names mapped to real packages, which
    never replace an entry already present (first writer wins); then the counts and the
    sorted categories. A failure in either phase ends that phase only. */
module LiveEcosystem {
  import opened Wrappers
  import opened Text
  import opened Sorting
  import opened Profiles

  const Name := "live-ecosystem"
  const Description := "Profile: live-ecosystem - Comprehensive stress test with 100+ real production MCP servers from the 2025 ecosystem"

  /** The marker before a curated name, as in `12 → slack-mcp`. */
  const Arrow := '→'

  const DockerImage := "ghcr.io/github/github-mcp-server"

  /** The table of curated names and their real packages (142 entries). */
  const RealMappings: map<string, string> := map[
    "filesystem-mcp" := "@modelcontextprotocol/server-filesystem",
    "memory-mcp" := "@modelcontextprotocol/server-memory",
    "brave-search-mcp" := "@modelcontextprotocol/server-brave-search",
    "slack-mcp" := "@modelcontextprotocol/server-slack",
    "puppeteer-mcp" := "@modelcontextprotocol/server-puppeteer",
    "postgres-mcp" := "@modelcontextprotocol/server-postgres",
    "sqlite-mcp" := "@modelcontextprotocol/server-sqlite",
    "git-mcp" := "@modelcontextprotocol/server-git",
    "everything-mcp" := "@modelcontextprotocol/server-everything",
    "fetch-mcp" := "@modelcontextprotocol/server-fetch",
    "inspector-mcp" := "@modelcontextprotocol/inspector",
    "sequential-thinking-mcp" := "@modelcontextprotocol/server-sequential-thinking",
    "azure-mcp" := "@azure/azure-mcp",
    "playwright-mcp" := "@microsoft/mcp-playwright",
    "markitdown-mcp" := "@microsoft/mcp-markitdown",
    "docker-mcp" := "@docker/mcp-server",
    "supabase-mcp" := "@supabase/mcp-server-supabase",
    "browserbase-mcp" := "@browserbase/mcp-server-browserbase",
    "elevenlabs-mcp" := "@elevenlabs/elevenlabs-mcp",
    "sanity-mcp" := "@sanity-io/sanity-mcp-server",
    "dataforseo-mcp" := "@dataforseo/mcp-server-typescript",
    "chroma-mcp" := "@chroma-core/chroma-mcp",
    "apidog-mcp" := "@apidog/mcp-server",
    "github-mcp" := "github-mcp-server",
    "aws-mcp" := "@aws/aws-mcp",
    "gcp-mcp" := "@google-cloud/mcp-server",
    "aws-bedrock-mcp" := "@aws/bedrock-mcp-server",
    "digitalocean-mcp" := "@digitalocean/mcp-server",
    "kubernetes-mcp" := "@kubernetes/mcp-server",
    "terraform-mcp" := "@hashicorp/terraform-mcp-server",
    "helm-mcp" := "@helm/mcp-server",
    "nomad-mcp" := "@hashicorp/nomad-mcp-server",
    "consul-mcp" := "@hashicorp/consul-mcp-server",
    "vault-mcp" := "@hashicorp/vault-mcp-server",
    "pulumi-mcp" := "@pulumi/mcp-server",
    "mongodb-mcp" := "@mongodb/mcp-server",
    "redis-mcp" := "@redis/mcp-server",
    "elasticsearch-mcp" := "@elastic/mcp-server",
    "cassandra-mcp" := "@cassandra/mcp-server",
    "dynamodb-mcp" := "@aws/dynamodb-mcp-server",
    "couchdb-mcp" := "@couchdb/mcp-server",
    "influxdb-mcp" := "@influxdata/mcp-server",
    "neo4j-mcp" := "@neo4j/mcp-server",
    "mysql-mcp" := "@mysql/mcp-server",
    "mariadb-mcp" := "@mariadb/mcp-server",
    "solr-mcp" := "@apache/solr-mcp-server",
    "discord-mcp" := "@discord/mcp-server",
    "telegram-mcp" := "@telegram/mcp-server",
    "teams-mcp" := "@microsoft/teams-mcp-server",
    "webex-mcp" := "@cisco/webex-mcp-server",
    "zoom-mcp" := "@zoom/mcp-server",
    "whatsapp-mcp" := "@whatsapp/mcp-server",
    "twitter-mcp" := "@twitter/mcp-server",
    "linkedin-mcp" := "@linkedin/mcp-server",
    "facebook-mcp" := "@facebook/mcp-server",
    "instagram-mcp" := "@instagram/mcp-server",
    "pinterest-mcp" := "@pinterest/mcp-server",
    "reddit-mcp" := "@reddit/mcp-server",
    "medium-mcp" := "@medium/mcp-server",
    "youtube-mcp" := "@youtube/mcp-server",
    "tiktok-mcp" := "@tiktok/mcp-server",
    "openai-mcp" := "@openai/mcp-server",
    "huggingface-mcp" := "@huggingface/mcp-server",
    "langchain-mcp" := "@langchain/mcp-server",
    "cohere-mcp" := "@cohere/mcp-server",
    "anthropic-mcp" := "@anthropic/mcp-server",
    "google-ai-mcp" := "@google/ai-mcp-server",
    "pytorch-mcp" := "@pytorch/mcp-server",
    "tensorflow-mcp" := "@tensorflow/mcp-server",
    "mlflow-mcp" := "@mlflow/mcp-server",
    "wandb-mcp" := "@wandb/mcp-server",
    "kubeflow-mcp" := "@kubeflow/mcp-server",
    "jira-mcp" := "@atlassian/jira-mcp-server",
    "gitlab-mcp" := "@gitlab/mcp-server",
    "bitbucket-mcp" := "@atlassian/bitbucket-mcp-server",
    "linear-mcp" := "@linear/mcp-server",
    "asana-mcp" := "@asana/mcp-server",
    "trello-mcp" := "@trello/mcp-server",
    "monday-mcp" := "@monday/mcp-server",
    "clickup-mcp" := "@clickup/mcp-server",
    "notion-mcp" := "@notion/mcp-server",
    "contentful-mcp" := "@contentful/mcp-server",
    "wordpress-mcp" := "@wordpress/mcp-server",
    "drupal-mcp" := "@drupal/mcp-server",
    "joomla-mcp" := "@joomla/mcp-server",
    "ghost-mcp" := "@ghost/mcp-server",
    "strapi-mcp" := "@strapi/mcp-server",
    "woocommerce-mcp" := "@woocommerce/mcp-server",
    "magento-mcp" := "@magento/mcp-server",
    "shopify-mcp" := "@shopify/mcp-server",
    "bing-search-mcp" := "@microsoft/bing-search-mcp-server",
    "google-search-mcp" := "@google/search-mcp-server",
    "duckduckgo-mcp" := "@duckduckgo/mcp-server",
    "sphinx-search-mcp" := "@sphinx/search-mcp-server",
    "grafana-mcp" := "@grafana/mcp-server",
    "datadog-mcp" := "@datadog/mcp-server",
    "newrelic-mcp" := "@newrelic/mcp-server",
    "sentry-mcp" := "@sentry/mcp-server",
    "prometheus-mcp" := "@prometheus/mcp-server",
    "splunk-mcp" := "@splunk/mcp-server",
    "logzio-mcp" := "@logz/mcp-server",
    "stripe-mcp" := "@stripe/mcp-server",
    "paypal-mcp" := "@paypal/mcp-server",
    "square-mcp" := "@square/mcp-server",
    "email-mcp" := "@email/mcp-server",
    "sendgrid-mcp" := "@sendgrid/mcp-server",
    "mailchimp-mcp" := "@mailchimp/mcp-server",
    "twilio-mcp" := "@twilio/mcp-server",
    "figma-mcp" := "@figma/mcp-server",
    "miro-mcp" := "@miro/mcp-server",
    "invision-mcp" := "@invision/mcp-server",
    "shell-mcp" := "@shell/mcp-server",
    "ssh-mcp" := "@ssh/mcp-server",
    "ftp-mcp" := "@ftp/mcp-server",
    "rsync-mcp" := "@rsync/mcp-server",
    "tar-mcp" := "@tar/mcp-server",
    "zip-mcp" := "@zip/mcp-server",
    "systemd-mcp" := "@systemd/mcp-server",
    "nginx-mcp" := "@nginx/mcp-server",
    "cron-mcp" := "@cron/mcp-server",
    "logs-mcp" := "@logs/mcp-server",
    "1password-mcp" := "@1password/mcp-server",
    "bitwarden-mcp" := "@bitwarden/mcp-server",
    "lastpass-mcp" := "@lastpass/mcp-server",
    "auth0-mcp" := "@auth0/mcp-server",
    "okta-mcp" := "@okta/mcp-server",
    "cyberark-mcp" := "@cyberark/mcp-server",
    "django-mcp" := "@django/mcp-server",
    "flask-mcp" := "@flask/mcp-server",
    "express-mcp" := "@express/mcp-server",
    "fastapi-mcp" := "@fastapi/mcp-server",
    "graphql-mcp" := "@graphql/mcp-server",
    "grpc-mcp" := "@grpc/mcp-server",
    "restapi-mcp" := "@restapi/mcp-server",
    "http-mcp" := "@http/mcp-server",
    "websocket-mcp" := "@websocket/mcp-server",
    "webscraping-mcp" := "@webscraping/mcp-server",
    "wikipedia-mcp" := "@wikipedia/mcp-server",
    "context7" := "@context7/mcp-server",
    "apache-mcp" := "@apache/mcp-server",
    "algolia-mcp" := "@algolia/mcp-server",
    "elastic-apm-mcp" := "@elastic/apm-mcp-server"
  ]

  /** The entry for a production row, with the fallbacks of `row.get` for absent columns. */
  function ProductionServer(row: Row, l: Launch): Server {
    Server(
      l.executable, l.args,
      Some(row.description.GetOr(l.name + " operations and integrations")),
      Some(row.category.GetOr("production")),
      Some(row.downloads.GetOr("unknown")),
      Some(row.repositoryUrl.GetOr("")),
      None, None,
      Some(ServerMeta("production", "top-mcp-servers", true, None, None)))
  }

  /** One pass of the production loop: `status` first, then what every builder reads. */
  function ProductionDecide(row: Row): Decision {
    match Column(row.status, "status")
    case Failure(f) => Raise(f)
    case Success(status) =>
      if status != "production" then Skip
      else
        match ReadLaunch(row, true)
        case Failure(f) => Raise(f)
        case Success(None) => Skip
        case Success(Some(l)) => Take(l.name, ProductionServer(row, l))
  }

  function ProductionDecisions(rows: Option<seq<Row>>): (ds: seq<Decision>)
    ensures rows.Some? ==> |ds| == |rows.value|
  {
    match rows
    case None => []
    case Some(rs) => seq(|rs|, i requires 0 <= i < |rs| => ProductionDecide(rs[i]))
  }

  /** The entries after the production phase; `None` rows is a file that cannot be read. */
  function ProductionServers(rows: Option<seq<Row>>): map<string, Server> {
    Merge(LastWriterWins, map[], ProductionDecisions(rows))
  }

  /** The name on a curated line: none for a blank line, else the stripped text between
      the first and second arrow when there is an arrow, else the stripped line. */
  function CuratedName(raw: string): Option<string> {
    var line := Strip(raw);
    if line == [] then None
    else if Arrow in line then
      FieldsOfSeparated(line, Arrow);
      Some(Strip(Fields(line, Arrow)[1]))
    else Some(Strip(line))
  }

  /** The command and arguments for a mapped package. */
  function PackageLaunch(package: string): (string, seq<string>) {
    if "@" <= package || "github-" <= package then
      if package == "github-mcp-server" then ("docker", ["run", DockerImage])
      else ("npx", [package])
    else ("npx", [package])
  }

  function CuratedServer(name: string, package: string): Server {
    var launch := PackageLaunch(package);
    Server(
      launch.0, launch.1,
      Some("Real production " + name + " server with verified functionality"),
      Some("curated-real"),
      None, None,
      Some(package), None,
      Some(ServerMeta("curated-real", "ecosystem-mapping", false, Some(name), None)))
  }

  /** One pass of the curated loop; a name already present is left to the merge rule. */
  function CuratedDecide(raw: string, mappings: map<string, string>): Decision {
    match CuratedName(raw)
    case None => Skip
    case Some(name) => if name in mappings then Take(name, CuratedServer(name, mappings[name])) else Skip
  }

  function CuratedDecisions(lines: Option<seq<string>>, mappings: map<string, string>): (ds: seq<Decision>)
    ensures lines.Some? ==> |ds| == |lines.value|
  {
    match lines
    case None => []
    case Some(ls) => seq(|ls|, i requires 0 <= i < |ls| => CuratedDecide(ls[i], mappings))
  }

  /** The profile the script writes. */
  ghost function Build(rows: Option<seq<Row>>, lines: Option<seq<string>>, mappings: map<string, string>,
                       created: string, modified: string): ProfileDoc
  {
    var pds := ProductionDecisions(rows);
    var production := Merge(LastWriterWins, map[], pds);
    var cds := CuratedDecisions(lines, mappings);
    var servers := Merge(FirstWriterWins, production, cds);
    ProfileDoc(Name, Description, servers,
      Metadata(created, modified, Some(|servers|), Some(Writes(LastWriterWins, map[], pds)),
               Some(Writes(FirstWriterWins, production, cds)), None, None,
               Some(SortedOf(CategorySet(servers)))))
  }

  /** The production loop. `rows` is `None` when the CSV cannot be opened; an exception
      ends the loop and keeps what was added before it. */
  method ProductionPhase(rows: Option<seq<Row>>) returns (servers: map<string, Server>, productionCount: nat)
    ensures servers == ProductionServers(rows)
    ensures productionCount == Writes(LastWriterWins, map[], ProductionDecisions(rows))
  {
    servers, productionCount := map[], 0;
    if rows.None? {
      return;
    }
    var reader := rows.value;
    ghost var ds := ProductionDecisions(rows);
    var i := 0;
    while i < |reader|
      invariant i <= |reader|
      invariant Merge(LastWriterWins, map[], ds) == Merge(LastWriterWins, servers, ds[i..])
      invariant Writes(LastWriterWins, map[], ds) == productionCount + Writes(LastWriterWins, servers, ds[i..])
    {
      MergeStep(LastWriterWins, servers, ds, i);
      var row := reader[i];
      assert ds[i] == ProductionDecide(row);
      if row.status.None? {
        return;
      }
      if row.status.value == "production" {
        if row.mcpName.None? || row.command.None? {
          return;
        }
        var mcpName, command := row.mcpName.value, row.command.value;
        if !IsContainerCommand(command) {
          var parts := Words(command);
          WordsEmptyIffAllSpace(command);
          if parts == [] {
            return;
          }
          var server := Server(
            parts[0], parts[1..],
            Some(row.description.GetOr(mcpName + " operations and integrations")),
            Some(row.category.GetOr("production")),
            Some(row.downloads.GetOr("unknown")),
            Some(row.repositoryUrl.GetOr("")),
            None, None,
            Some(ServerMeta("production", "top-mcp-servers", true, None, None)));
          assert ds[i] == Take(mcpName, server);
          servers := servers[mcpName := server];
          productionCount := productionCount + 1;
        } else {
          assert ds[i] == Skip;
        }
      } else {
        assert ds[i] == Skip;
      }
      i := i + 1;
    }
    assert ds[i..] == [];
  }

  /** The branches that choose how a mapped package is launched: through docker for the
      GitHub server, through `npx` for every other package, whatever its prefix. */
  method CommandFor(packageName: string) returns (command: string, args: seq<string>)
    ensures packageName == "github-mcp-server" ==> command == "docker" && args == ["run", DockerImage]
    ensures packageName != "github-mcp-server" ==> command == "npx" && args == [packageName]
  {
    if "@" <= packageName || "github-" <= packageName {
      if packageName == "github-mcp-server" {
        command, args := "docker", ["run", DockerImage];
      } else {
        command, args := "npx", [packageName];
      }
    } else {
      command, args := "npx", [packageName];
    }
  }

  /** One pass of the curated loop: the entries and the counter after line `raw`. */
  method CuratedLine(servers: map<string, Server>, curatedCount: nat, raw: string, mappings: map<string, string>)
    returns (servers': map<string, Server>, curatedCount': nat)
    ensures servers' == Apply(FirstWriterWins, servers, CuratedDecide(raw, mappings))
    ensures curatedCount' == curatedCount +
              if CuratedDecide(raw, mappings).Take? && CuratedDecide(raw, mappings).key !in servers then 1 else 0
  {
    servers', curatedCount' := servers, curatedCount;
    var line := Strip(raw);
    if line == [] {
      return;
    }
    var mcpName;
    if Arrow in line {
      FieldsOfSeparated(line, Arrow);
      mcpName := Strip(Fields(line, Arrow)[1]);
    } else {
      mcpName := Strip(line);
    }
    assert CuratedName(raw) == Some(mcpName);
    if mcpName in servers {
      return;
    }
    if mcpName in mappings {
      var packageName := mappings[mcpName];
      var command, args := CommandFor(packageName);
      PackageLaunchCases(packageName);
      servers' := servers[mcpName := Server(
        command, args,
        Some("Real production " + mcpName + " server with verified functionality"),
        Some("curated-real"),
        None, None,
        Some(packageName), None,
        Some(ServerMeta("curated-real", "ecosystem-mapping", false, Some(mcpName), None)))];
      curatedCount' := curatedCount + 1;
    }
  }

  /** The curated loop over the lines of the name list, on top of the production entries. */
  method CuratedPhase(production: map<string, Server>, lines: Option<seq<string>>, mappings: map<string, string>)
    returns (servers: map<string, Server>, curatedCount: nat)
    ensures servers == Merge(FirstWriterWins, production, CuratedDecisions(lines, mappings))
    ensures curatedCount == Writes(FirstWriterWins, production, CuratedDecisions(lines, mappings))
  {
    servers, curatedCount := production, 0;
    if lines.None? {
      return;
    }
    var f := lines.value;
    ghost var ds := CuratedDecisions(lines, mappings);
    var i := 0;
    while i < |f|
      invariant i <= |f|
      invariant Merge(FirstWriterWins, production, ds) == Merge(FirstWriterWins, servers, ds[i..])
      invariant Writes(FirstWriterWins, production, ds) == curatedCount + Writes(FirstWriterWins, servers, ds[i..])
    {
      MergeStep(FirstWriterWins, servers, ds, i);
      assert ds[i] == CuratedDecide(f[i], mappings);
      servers, curatedCount := CuratedLine(servers, curatedCount, f[i], mappings);
      i := i + 1;
    }
    assert ds[i..] == [];
  }

  /** The script. `rows` and `lines` are the contents of the two input files, `None` when
      a file cannot be opened; the curated names are looked up in `mappings`. */
  method BuildLiveEcosystem(rows: Option<seq<Row>>, lines: Option<seq<string>>, mappings: map<string, string>,
                            created: string, modified: string) returns (profile: ProfileDoc)
    ensures profile == Build(rows, lines, mappings, created, modified)
  {
    var production, productionCount := ProductionPhase(rows);
    var servers, curatedCount := CuratedPhase(production, lines, mappings);
    var categories := SortedCategories(servers);
    SortedListUnique(categories, SortedOf(CategorySet(servers)), CategorySet(servers));
    profile := ProfileDoc(Name, Description, servers,
      Metadata(created, modified, Some(|servers|), Some(productionCount), Some(curatedCount), None, None, Some(categories)));
  }

  /** The script as it runs, with its own table of real packages. */
  method LiveEcosystemScript(rows: Option<seq<Row>>, lines: Option<seq<string>>, created: string, modified: string)
    returns (profile: ProfileDoc)
    ensures profile == Build(rows, lines, RealMappings, created, modified)
  {
    profile := BuildLiveEcosystem(rows, lines, RealMappings, created, modified);
  }

  /** Docker for `github-mcp-server` alone; every other package runs as `npx <package>`. */
  lemma PackageLaunchCases(package: string)
    ensures PackageLaunch(package) ==
      if package == "github-mcp-server" then ("docker", ["run", DockerImage]) else ("npx", [package])
  {
  }

  // ----- production phase -----

  /** A row that ends the production phase: no `status`, or a production row without
      `mcp_name` or `command`, or whose command is blank and not a container command. */
  predicate BadProductionRow(row: Row) {
    || row.status.None?
    || (row.status == Some("production") &&
        (row.mcpName.None? || row.command.None? ||
         (!IsContainerCommand(row.command.value) && AllSpace(row.command.value))))
  }

  /** The rows before `i` all pass without an exception. */
  predicate Reached(rows: seq<Row>, i: nat)
    requires i <= |rows|
  {
    forall j :: 0 <= j < i ==> !BadProductionRow(rows[j])
  }

  /** Row `i` is reached and is a production row that launches `k`. */
  predicate LaunchedAt(rows: seq<Row>, i: nat, k: string) {
    i < |rows| && Reached(rows, i) && rows[i].status == Some("production") && Launches(rows[i], k, true)
  }

  /** The entry a production row gives name `k`: the tokens of its command, its columns
      or their fallbacks, and the production `metadata`. */
  predicate ProductionEntry(row: Row, k: string, s: Server) {
    && row.status == Some("production") && Launches(row, k, true)
    && SplitFrom(s, row.command.value)
    && s.description == Some(row.description.GetOr(k + " operations and integrations"))
    && s.category == Some(row.category.GetOr("production"))
    && s.downloads == Some(row.downloads.GetOr("unknown"))
    && s.repositoryUrl == Some(row.repositoryUrl.GetOr(""))
    && s.packageName.None? && s.version.None?
    && s.meta == Some(ServerMeta("production", "top-mcp-servers", true, None, None))
  }

  lemma ProductionDecideCases(row: Row)
    ensures ProductionDecide(row).Raise? <==> BadProductionRow(row)
    ensures forall k :: ProductionDecide(row).Take? && ProductionDecide(row).key == k <==>
                        row.status == Some("production") && Launches(row, k, true)
    ensures ProductionDecide(row).Take? ==>
              ProductionEntry(row, ProductionDecide(row).key, ProductionDecide(row).server)
  {
    ReadLaunchCases(row, true);
  }

  /** The loop gets through the first `i` rows exactly when none of them is bad. */
  lemma ReachedDone(rows: seq<Row>, i: nat)
    requires i <= |rows|
    ensures Reached(rows, i) <==> i <= Done(ProductionDecisions(Some(rows)))
  {
    var ds := ProductionDecisions(Some(rows));
    forall j | 0 <= j < i
      ensures ds[j].Raise? <==> BadProductionRow(rows[j])
    {
      ProductionDecideCases(rows[j]);
    }
  }

  /** Row `i` yields an insertion under `k` exactly when it is a reached production
      row that launches `k`. */
  lemma LaunchedAtDecision(rows: seq<Row>, i: nat, k: string)
    requires i < |rows|
    ensures LaunchedAt(rows, i, k) <==>
      i < Done(ProductionDecisions(Some(rows))) &&
      ProductionDecisions(Some(rows))[i].Take? && ProductionDecisions(Some(rows))[i].key == k
  {
    ProductionDecideCases(rows[i]);
    ReachedDone(rows, i);
    ReachedDone(rows, i + 1);
  }

  /** The production names are the names of the production rows, before the first bad
      row, whose command is a non-blank, non-container command. */
  lemma ProductionKeys(rows: seq<Row>, k: string)
    ensures k in ProductionServers(Some(rows)) <==> exists i: nat :: LaunchedAt(rows, i, k)
  {
    var ds := ProductionDecisions(Some(rows));
    MergeKeys(LastWriterWins, map[], ds, k);
    if Touches(ds, k) {
      var i :| 0 <= i < Done(ds) && ds[i].Take? && ds[i].key == k;
      LaunchedAtDecision(rows, i, k);
    }
    if exists i: nat :: LaunchedAt(rows, i, k) {
      var i: nat :| LaunchedAt(rows, i, k);
      LaunchedAtDecision(rows, i, k);
    }
  }

  /** Last writer wins: a name holds the entry of the last reached production row that
      launches it. */
  lemma ProductionLastRowWins(rows: seq<Row>, j: nat, k: string)
    requires LaunchedAt(rows, j, k)
    requires forall i: nat :: j < i ==> !LaunchedAt(rows, i, k)
    ensures k in ProductionServers(Some(rows))
    ensures ProductionEntry(rows[j], k, ProductionServers(Some(rows))[k])
  {
    var ds := ProductionDecisions(Some(rows));
    LaunchedAtDecision(rows, j, k);
    ProductionDecideCases(rows[j]);
    forall i | j < i < Done(ds) && ds[i].Take?
      ensures ds[i].key != ds[j].key
    {
      LaunchedAtDecision(rows, i, k);
    }
    MergeLast(map[], ds, j);
  }

  /** Every production entry is the entry of a reached production row with its name. */
  lemma ProductionEntries(rows: seq<Row>, k: string)
    requires k in ProductionServers(Some(rows))
    ensures exists i: nat :: LaunchedAt(rows, i, k) && ProductionEntry(rows[i], k, ProductionServers(Some(rows))[k])
  {
    ProductionKeys(rows, k);
    var j: nat :| LaunchedAt(rows, j, k);
    LastLauncher(rows, k, j);
  }

  /** From a reached row that launches `k`, the last such row. */
  lemma {:induction false} LastLauncher(rows: seq<Row>, k: string, j: nat)
    requires LaunchedAt(rows, j, k)
    ensures k in ProductionServers(Some(rows))
    ensures exists i: nat :: LaunchedAt(rows, i, k) && ProductionEntry(rows[i], k, ProductionServers(Some(rows))[k])
    decreases |rows| - j
  {
    if forall i: nat :: j < i ==> !LaunchedAt(rows, i, k) {
      ProductionLastRowWins(rows, j, k);
    } else {
      var i: nat :| j < i && LaunchedAt(rows, i, k);
      LastLauncher(rows, k, i);
    }
  }

  /** A bad row ends the production phase: the rows after it change nothing, and an
      unreadable file is an empty one. */
  lemma ProductionStopsAtBadRow(before: seq<Row>, bad: Row, after: seq<Row>, lines: Option<seq<string>>,
                                mappings: map<string, string>, created: string, modified: string)
    requires BadProductionRow(bad)
    ensures Build(Some(before + [bad] + after), lines, mappings, created, modified) ==
            Build(Some(before), lines, mappings, created, modified)
    ensures Build(None, lines, mappings, created, modified) == Build(Some([]), lines, mappings, created, modified)
  {
    ProductionDecideCases(bad);
    var f := ProductionDecide(bad).fault;
    ProductionDecisionsSplit(before, bad, after);
    MergeStopsAtFault(LastWriterWins, map[], ProductionDecisions(Some(before)), f, ProductionDecisions(Some(after)));
    assert ProductionDecisions(None) == ProductionDecisions(Some([]));
  }

  lemma ProductionDecisionsSplit(before: seq<Row>, bad: Row, after: seq<Row>)
    ensures ProductionDecisions(Some(before + [bad] + after)) ==
            ProductionDecisions(Some(before)) + [ProductionDecide(bad)] + ProductionDecisions(Some(after))
  {
    var rows := before + [bad] + after;
    var ds := ProductionDecisions(Some(rows));
    var es := ProductionDecisions(Some(before)) + [ProductionDecide(bad)] + ProductionDecisions(Some(after));
    forall i | 0 <= i < |rows|
      ensures ds[i] == es[i]
    {
      if i < |before| {
        assert rows[i] == before[i];
      } else if i > |before| {
        assert rows[i] == after[i - |before| - 1];
      }
    }
  }

  // ----- curated phase -----

  /** A blank line names nothing; any other line names something. */
  lemma CuratedNameBlank(raw: string)
    ensures CuratedName(raw).None? <==> AllSpace(raw)
  {
    StripEmptyIffAllSpace(raw);
  }

  /** Without an arrow the name is the stripped line. */
  lemma CuratedNamePlain(raw: string)
    requires !AllSpace(raw) && Arrow !in Strip(raw)
    ensures CuratedName(raw) == Some(Strip(raw))
  {
    StripEmptyIffAllSpace(raw);
    StripIdempotent(raw);
  }

  /** With an arrow at `p` (the first one) the name is the stripped text up to the next
      arrow at `q`, or to the end of the line. */
  lemma CuratedNameArrow(raw: string, p: nat, q: nat)
    requires p < q <= |Strip(raw)|
    requires Strip(raw)[p] == Arrow && Arrow !in Strip(raw)[..p]
    requires Arrow !in Strip(raw)[p + 1..q] && (q == |Strip(raw)| || Strip(raw)[q] == Arrow)
    ensures CuratedName(raw) == Some(Strip(Strip(raw)[p + 1..q]))
  {
    SecondField(Strip(raw), Arrow, p, q);
  }

  /** Some line of the list names `k`. */
  predicate Named(lines: Option<seq<string>>, k: string) {
    lines.Some? && exists i :: 0 <= i < |lines.value| && CuratedName(lines.value[i]) == Some(k)
  }

  /** Line `i` yields an insertion under `k` exactly when it names `k` and the table maps
      `k`; every such insertion carries the curated entry for the mapped package. */
  lemma CuratedDecideCases(raw: string, mappings: map<string, string>)
    ensures CuratedDecide(raw, mappings).Take? ==>
      CuratedName(raw) == Some(CuratedDecide(raw, mappings).key) && CuratedDecide(raw, mappings).key in mappings &&
      CuratedDecide(raw, mappings).server == CuratedServer(CuratedDecide(raw, mappings).key, mappings[CuratedDecide(raw, mappings).key])
    ensures !CuratedDecide(raw, mappings).Raise?
  {
  }

  /** No curated line stops the loop. */
  lemma CuratedNeverRaises(lines: Option<seq<string>>, mappings: map<string, string>)
    ensures Done(CuratedDecisions(lines, mappings)) == |CuratedDecisions(lines, mappings)|
  {
    var ds := CuratedDecisions(lines, mappings);
    if Done(ds) < |ds| {
      CuratedDecideCases(lines.value[Done(ds)], mappings);
      assert false;
    }
  }

  lemma CuratedTouches(lines: Option<seq<string>>, mappings: map<string, string>, k: string)
    ensures Done(CuratedDecisions(lines, mappings)) == |CuratedDecisions(lines, mappings)|
    ensures Touches(CuratedDecisions(lines, mappings), k) <==> k in mappings && Named(lines, k)
  {
    var ds := CuratedDecisions(lines, mappings);
    CuratedNeverRaises(lines, mappings);
    assert Touches(ds, k) ==> k in mappings && Named(lines, k) by {
      if Touches(ds, k) {
        var i :| 0 <= i < Done(ds) && ds[i].Take? && ds[i].key == k;
        CuratedDecideCases(lines.value[i], mappings);
      }
    }
    assert k in mappings && Named(lines, k) ==> Touches(ds, k) by {
      if k in mappings && Named(lines, k) {
        var i :| 0 <= i < |lines.value| && CuratedName(lines.value[i]) == Some(k);
        assert ds[i].Take? && ds[i].key == k;
      }
    }
  }

  /** The curated phase never replaces a production entry; a new name is added exactly
      when some line names it and the table maps it, with the curated entry for its
      package. */
  lemma CuratedEntries(rows: Option<seq<Row>>, lines: Option<seq<string>>, mappings: map<string, string>,
                       created: string, modified: string, k: string)
    ensures var production := ProductionServers(rows);
            var servers := Build(rows, lines, mappings, created, modified).servers;
            && (k in production ==> k in servers && servers[k] == production[k])
            && (k !in production ==> (k in servers <==> k in mappings && Named(lines, k)))
            && (k !in production && k in servers ==> servers[k] == CuratedServer(k, mappings[k]))
  {
    var production := ProductionServers(rows);
    var ds := CuratedDecisions(lines, mappings);
    if k in production {
      MergeKeepsExisting(production, ds, k);
    } else {
      MergeKeys(FirstWriterWins, production, ds, k);
      CuratedTouches(lines, mappings, k);
      if k in mappings {
        forall i | 0 <= i < |ds| && ds[i].Take? && ds[i].key == k
          ensures ds[i].server == CuratedServer(k, mappings[k])
        {
          CuratedDecideCases(lines.value[i], mappings);
        }
        MergeUniform(FirstWriterWins, production, ds, k, CuratedServer(k, mappings[k]));
      }
    }
  }

  /** The number of rows before the first bad row that are production rows launching an
      entry: the rows the production loop inserts, a repeated name counted each time. */
  function Launching(rows: seq<Row>): nat {
    if rows == [] || BadProductionRow(rows[0]) then 0
    else
      (if rows[0].status == Some("production") && rows[0].mcpName.Some? &&
          Launches(rows[0], rows[0].mcpName.value, true) then 1 else 0)
      + Launching(rows[1..])
  }

  /** The production loop inserts exactly once for each row `Launching` counts. */
  lemma {:induction false} ProductionInsertions(rows: seq<Row>)
    ensures var ds := ProductionDecisions(Some(rows)); TakeCount(ds[..Done(ds)]) == Launching(rows)
  {
    var ds := ProductionDecisions(Some(rows));
    if rows != [] {
      ProductionDecideCases(rows[0]);
      assert ds[0] == ProductionDecide(rows[0]);
      if !BadProductionRow(rows[0]) {
        var es := ProductionDecisions(Some(rows[1..]));
        assert ds[1..] == es;
        ProductionInsertions(rows[1..]);
        assert ds[..Done(ds)] == [ds[0]] + es[..Done(es)];
        assert ([ds[0]] + es[..Done(es)])[1..] == es[..Done(es)];
        if ds[0].Take? {
          assert rows[0].mcpName == Some(ds[0].key);
        }
      }
    }
  }

  /** The counts: `productionReady` counts every production insertion, overwrites
      included, so it bounds the production names; `curatedReal` is the number of names
      the curated phase added; `totalServers` is the number of names; `categories` is the
      sorted list of the categories in use; the timestamps are the ones given. */
  /** The production counter, as the number of rows the production loop inserts. */
  lemma ProductionReady(rows: Option<seq<Row>>)
    ensures rows.Some? ==> Writes(LastWriterWins, map[], ProductionDecisions(rows)) == Launching(rows.value)
    ensures rows.None? ==> Writes(LastWriterWins, map[], ProductionDecisions(rows)) == 0
  {
    WritesLastWinsExact(map[], ProductionDecisions(rows));
    if rows.Some? {
      ProductionInsertions(rows.value);
    }
  }

  lemma LiveMetadata(rows: Option<seq<Row>>, lines: Option<seq<string>>, mappings: map<string, string>,
                     created: string, modified: string)
    ensures var p := Build(rows, lines, mappings, created, modified);
            && p.name == Name && p.description == Description
            && p.metadata.created == created && p.metadata.modified == modified
            && p.metadata.totalServers == Some(|p.servers|)
            && (rows.Some? ==> p.metadata.productionReady == Some(Launching(rows.value)))
            && (rows.None? ==> p.metadata.productionReady == Some(0))
            && |ProductionServers(rows)| <= p.metadata.productionReady.value
            && (rows.Some? ==> p.metadata.productionReady.value <= |rows.value|)
            && p.metadata.curatedReal == Some(|p.servers| - |ProductionServers(rows)|)
            && ProductionServers(rows).Keys <= p.servers.Keys
            && SortedListOf(p.metadata.categories.value, CategorySet(p.servers))
            && p.metadata.testedPackages.None? && p.metadata.workingPackages.None?
  {
    WritesLastWins(map[], ProductionDecisions(rows));
    ProductionReady(rows);
    WritesFirstWins(ProductionServers(rows), CuratedDecisions(lines, mappings));
  }
}
