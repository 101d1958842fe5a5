/** The three enumerators of `RdsPriceList`: `get_rds_on_demand_instance_pricing`,
    `get_rds_reserved_instance_pricing2` and `get_rds_reserved_instance_pricing`.
    Each walks the constant tables and calls one feed walker per URL; since the
    walk itself is pure, each is modelled as the ordered sequence of the calls
    it makes, one `Request` per call, with the walker's arguments. */
module RdsRequests {
  import opened RubyStrings
  import opened RdsTables

  /** `RDS_BASE_URL` */
  const RdsBaseUrl: string := "http://aws.amazon.com/rds/pricing/"

  /** The directory that holds the same feed for previous-generation instances. */
  const PreviousGeneration: string := "previous-generation/"

  /** One feed-walker call. `OnDemandFetch` is
      `fetch_on_demand_rds_instance_pricing(url, :ondemand, db_type, is_byol, is_multi_az)`,
      `Reserved2Fetch` is `fetch_reserved_rds_instance_pricing2(url, dbs, is_multi_az, is_byol)`,
      `LegacyFetch` is `fetch_reserved_rds_instance_pricing(url, res_type, db_type, is_byol)`. */
  datatype Request =
    | OnDemandFetch(url: string, dbType: Db, isByol: bool, isMultiAz: bool)
    | Reserved2Fetch(url: string, dbs: seq<Db>, isMultiAz: bool, isByol: bool)
    | LegacyFetch(url: string, resType: ResType, dbType: Db, isByol: bool)

  /** `RDS_BASE_URL + "#{db}/" + file` */
  function FeedUrl(db: Db, file: string): string
  {
    RdsBaseUrl + db.Name() + "/" + file
  }

  /** `true` when the call pair is a current-generation feed followed by the
      same feed under `previous-generation/`, with the same arguments. */
  predicate IsGenerationPair(db: Db, file: string, rs: seq<Request>)
  {
    && |rs| == 2
    && rs[0].url == FeedUrl(db, file)
    && rs[1] == rs[0].(url := FeedUrl(db, PreviousGeneration + file))
  }

  // ---------------------------------------------------------------------------
  // get_rds_on_demand_instance_pricing
  // ---------------------------------------------------------------------------

  /** The SQL Server feed file suffix for a topology. */
  function MazSuffixFor(mz: bool): string
  {
    if mz then "-ondemand-maz.min.js" else "-ondemand.min.js"
  }

  /** The on-demand feed file for a deployment token already stripped of its
      SQL Server `-multiAZ` suffix. */
  function OnDemandFile(db: Db, dpType: string, isMultiAz: bool): string
  {
    if db == SqlServer then
      "sqlserver-" + dpType + MazSuffixFor(isMultiAz)
    else
      "pricing-" + dpType + "-deployments.min.js"
  }

  /** The engines whose on-demand feeds are named `pricing-<token>-deployments.min.js`. */
  predicate PricingFileEngine(db: Db)
  {
    db == MySql || db == PostgreSql || db == Oracle || db == Aurora || db == MariaDb
  }

  /** The engines whose on-demand feeds are fetched again under `previous-generation/`
      for every token. */
  predicate PreviousGenerationEngine(db: Db)
  {
    db == MySql || db == PostgreSql || db == Oracle
  }

  /** The calls made for one deployment token of one db_type of engine `db`. */
  function OnDemandForToken(db: Db, dbType: Db, token: string): seq<Request>
  {
    var isByol := IsByol(token);
    // Aurora's single-AZ prices sit at a URL shaped like a multi-AZ one.
    var isMultiAz := MentionsMultiAz(token) && db != Aurora;
    var dpType := if db == SqlServer then Gsub(token, "-multiAZ", "") else token;
    var file := OnDemandFile(db, dpType, isMultiAz);
    var current :=
      if PricingFileEngine(db) || db == SqlServer then
        [OnDemandFetch(FeedUrl(db, file), dbType, isByol, isMultiAz)]
      else [];
    var previous :=
      if PreviousGenerationEngine(db)
        || (db == SqlServer && !(dpType == "li-ee" || dpType == "li-ee-multiAZ")) then
        [OnDemandFetch(FeedUrl(db, PreviousGeneration + file), dbType, isByol, isMultiAz)]
      else [];
    current + previous
  }

  /** The keys of a deployment table. */
  function RowKeys(rows: DeployTable): set<Db>
  {
    set e | e in rows :: e.0
  }

  /** The calls made for the deployment tokens of one db_type, in order. */
  function OnDemandForTokens(db: Db, dbType: Db, tokens: seq<string>): (rs: seq<Request>)
    ensures forall r | r in rs :: r.OnDemandFetch? && r.dbType == dbType
    ensures db == Aurora ==> forall r | r in rs :: !r.isMultiAz
  {
    if tokens == [] then []
    else OnDemandForToken(db, dbType, tokens[0]) + OnDemandForTokens(db, dbType, tokens[1..])
  }

  /** The calls made for the rows of one engine's deployment table, in order;
      each is recorded under one of the table's db_type keys. */
  function OnDemandForRows(db: Db, rows: DeployTable): (rs: seq<Request>)
    ensures forall r | r in rs :: r.OnDemandFetch? && r.dbType in RowKeys(rows)
    ensures db == Aurora ==> forall r | r in rs :: !r.isMultiAz
  {
    if rows == [] then []
    else OnDemandForTokens(db, rows[0].0, rows[0].1) + OnDemandForRows(db, rows[1..])
  }

  /** The calls made for one engine of `@@DB_TYPE`; Aurora's db_type only
      ever comes from Aurora's own row, so nothing recorded under it is
      multi-AZ. */
  function OnDemandForDb(db: Db): (rs: seq<Request>)
    ensures forall r | r in rs :: r.OnDemandFetch? && (r.dbType == Aurora ==> !r.isMultiAz)
  {
    AuroraRowOnlyInAurora(db);
    OnDemandForRows(db, OdDeployType(db))
  }

  /** Only Aurora's own on-demand table has an Aurora row. */
  lemma AuroraRowOnlyInAurora(db: Db)
    ensures Aurora in RowKeys(OdDeployType(db)) ==> db == Aurora
  {
    if db != Aurora {
      match db
      case MySql =>
      case PostgreSql =>
      case Oracle =>
      case SqlServer =>
      case MariaDb =>
      case _ =>
    }
  }

  /** The calls made for a list of engines, in order. */
  function OnDemandForDbs(dbs: seq<Db>): (rs: seq<Request>)
    ensures forall r | r in rs :: r.OnDemandFetch? && (r.dbType == Aurora ==> !r.isMultiAz)
  {
    if dbs == [] then [] else OnDemandForDb(dbs[0]) + OnDemandForDbs(dbs[1..])
  }

  /** All calls of `get_rds_on_demand_instance_pricing`, in order. */
  function OnDemandRequests(): seq<Request>
  {
    OnDemandForDbs(DbTypes)
  }

  /** The calls for a token list are exactly the calls of its tokens. */
  lemma {:induction false} OnDemandForTokensExactly(db: Db, dbType: Db, tokens: seq<string>)
    ensures forall r :: r in OnDemandForTokens(db, dbType, tokens) <==>
      exists t | t in tokens :: r in OnDemandForToken(db, dbType, t)
  {
    if tokens != [] {
      var rest := tokens[1..];
      OnDemandForTokensExactly(db, dbType, rest);
      assert tokens[0] in tokens;
      forall r | exists t | t in tokens :: r in OnDemandForToken(db, dbType, t)
        ensures r in OnDemandForTokens(db, dbType, tokens)
      {
        var t :| t in tokens && r in OnDemandForToken(db, dbType, t);
        if t != tokens[0] {
          assert t in rest;
        }
      }
      forall r | r in OnDemandForTokens(db, dbType, rest)
        ensures exists t | t in tokens :: r in OnDemandForToken(db, dbType, t)
      {
        var t :| t in rest && r in OnDemandForToken(db, dbType, t);
        assert t in tokens;
      }
    }
  }

  /** The calls for an engine's rows are exactly the calls of every token of
      every row, under that row's db_type. */
  lemma {:induction false} OnDemandForRowsExactly(db: Db, rows: DeployTable)
    ensures forall r :: r in OnDemandForRows(db, rows) <==>
      exists e, t | e in rows && t in e.1 :: r in OnDemandForToken(db, e.0, t)
  {
    if rows != [] {
      var rest := rows[1..];
      var e0 := rows[0];
      OnDemandForRowsExactly(db, rest);
      OnDemandForTokensExactly(db, e0.0, e0.1);
      assert e0 in rows;
      forall r | exists e, t | e in rows && t in e.1 :: r in OnDemandForToken(db, e.0, t)
        ensures r in OnDemandForRows(db, rows)
      {
        var e, t :| e in rows && t in e.1 && r in OnDemandForToken(db, e.0, t);
        if e != e0 {
          assert e in rest;
        }
      }
      forall r | r in OnDemandForRows(db, rest)
        ensures exists e, t | e in rows && t in e.1 :: r in OnDemandForToken(db, e.0, t)
      {
        var e, t :| e in rest && t in e.1 && r in OnDemandForToken(db, e.0, t);
        assert e in rows;
      }
    }
  }

  /** The calls for a list of engines are exactly the calls of every token
      of every row of each engine's on-demand table. */
  lemma {:induction false} OnDemandForDbsExactly(dbs: seq<Db>)
    ensures forall r :: r in OnDemandForDbs(dbs) <==>
      exists db, e, t | db in dbs && e in OdDeployType(db) && t in e.1 :: r in OnDemandForToken(db, e.0, t)
  {
    if dbs != [] {
      var rest := dbs[1..];
      var db0 := dbs[0];
      OnDemandForDbsExactly(rest);
      OnDemandForRowsExactly(db0, OdDeployType(db0));
      assert db0 in dbs;
      forall r | exists db, e, t | db in dbs && e in OdDeployType(db) && t in e.1 :: r in OnDemandForToken(db, e.0, t)
        ensures r in OnDemandForDbs(dbs)
      {
        var db, e, t :| db in dbs && e in OdDeployType(db) && t in e.1 && r in OnDemandForToken(db, e.0, t);
        if db != db0 {
          assert db in rest;
        }
      }
      forall r | r in OnDemandForDbs(rest)
        ensures exists db, e, t | db in dbs && e in OdDeployType(db) && t in e.1 :: r in OnDemandForToken(db, e.0, t)
      {
        var db, e, t :| db in rest && e in OdDeployType(db) && t in e.1 && r in OnDemandForToken(db, e.0, t);
        assert db in dbs;
      }
    }
  }

  /** Every call for a list of engines comes from a token of a row of one
      of them, and carries that row's db_type, the token's BYOL flag, and the
      token's multi-AZ flag unless the engine is Aurora. */
  lemma OnDemandForDbsFlags(dbs: seq<Db>)
    ensures forall r | r in OnDemandForDbs(dbs) ::
      exists db, e, t | db in dbs && e in OdDeployType(db) && t in e.1 ::
        && r.dbType == e.0 && r.isByol == IsByol(t)
        && r.isMultiAz == (MentionsMultiAz(t) && db != Aurora)
  {
    OnDemandForDbsExactly(dbs);
    forall r | r in OnDemandForDbs(dbs)
      ensures exists db, e, t | db in dbs && e in OdDeployType(db) && t in e.1 ::
        && r.dbType == e.0 && r.isByol == IsByol(t)
        && r.isMultiAz == (MentionsMultiAz(t) && db != Aurora)
    {
      var db, e, t :| db in dbs && e in OdDeployType(db) && t in e.1 && r in OnDemandForToken(db, e.0, t);
      OnDemandTokenFlags(db, e.0, t);
    }
  }

  /** `get_rds_on_demand_instance_pricing` makes exactly the calls of every
      deployment token of every row of every engine of `@@DB_TYPE`. */
  lemma OnDemandRequestsExactly()
    ensures forall r :: r in OnDemandRequests() <==>
      exists db, e, t | db in DbTypes && e in OdDeployType(db) && t in e.1 :: r in OnDemandForToken(db, e.0, t)
  {
    OnDemandForDbsExactly(DbTypes);
  }

  /** Every call of `get_rds_on_demand_instance_pricing` carries the
      db_type of its row, the BYOL flag of its token, and the token's
      multi-AZ flag unless the engine is Aurora. */
  lemma OnDemandRequestsFlags()
    ensures forall r | r in OnDemandRequests() ::
      exists db, e, t | db in DbTypes && e in OdDeployType(db) && t in e.1 ::
        && r.dbType == e.0 && r.isByol == IsByol(t)
        && r.isMultiAz == (MentionsMultiAz(t) && db != Aurora)
  {
    OnDemandForDbsFlags(DbTypes);
  }

  /** Every on-demand call carries the token's db_type, `is_byol?` of the token,
      and the multi-AZ flag of the token, except that Aurora is never multi-AZ. */
  lemma OnDemandTokenFlags(db: Db, dbType: Db, token: string)
    ensures forall r :: r in OnDemandForToken(db, dbType, token) ==>
      && r.OnDemandFetch?
      && r.dbType == dbType
      && r.isByol == IsByol(token)
      && r.isMultiAz == (MentionsMultiAz(token) && db != Aurora)
  {
  }

  /** MySQL, PostgreSQL and Oracle: each current-generation feed is followed by
      its previous-generation twin with the same db_type, is_byol and is_multi_az. */
  lemma OnDemandPreviousGeneration(db: Db, dbType: Db, token: string)
    requires PreviousGenerationEngine(db)
    ensures IsGenerationPair(db, "pricing-" + token + "-deployments.min.js", OnDemandForToken(db, dbType, token))
  {
  }

  /** Aurora and MariaDB get one current-generation call per token and no
      previous-generation call. Aurora's call is single-AZ whatever its token
      says, and the token (so "multiAZ") appears verbatim in its URL. */
  lemma OnDemandNoPreviousGeneration(db: Db, dbType: Db, token: string)
    requires db == Aurora || db == MariaDb
    ensures var rs := OnDemandForToken(db, dbType, token);
      && |rs| == 1
      && rs[0].url == FeedUrl(db, "pricing-" + token + "-deployments.min.js")
      && (db == Aurora ==> !rs[0].isMultiAz && Contains(rs[0].url, token))
  {
    assert PricingFileEngine(db) && !PreviousGenerationEngine(db) && db != SqlServer;
    PricingUrlContainsToken(db, token);
  }

  /** A `pricing-<token>-deployments.min.js` URL contains its token. */
  lemma PricingUrlContainsToken(db: Db, token: string)
    ensures Contains(FeedUrl(db, "pricing-" + token + "-deployments.min.js"), token)
  {
    var prefix := RdsBaseUrl + db.Name() + "/" + "pricing-";
    var suffix := "-deployments.min.js";
    assert FeedUrl(db, "pricing-" + token + suffix) == prefix + token + suffix;
    ContainsInMiddle(prefix, token, suffix);
  }

  /** SQL Server: one or two calls. The first fetches the current-generation
      feed named by the token with `-multiAZ` stripped, flagged from the token
      as it was before stripping; the previous-generation twin is skipped
      exactly when the stripped token is `li-ee` or `li-ee-multiAZ`. */
  lemma SqlServerOnDemand(dbType: Db, token: string)
    ensures var rs := OnDemandForToken(SqlServer, dbType, token);
      var dpType := Gsub(token, "-multiAZ", "");
      var file := OnDemandFile(SqlServer, dpType, MentionsMultiAz(token));
      && 1 <= |rs| <= 2
      && (|rs| == 1 <==> dpType == "li-ee" || dpType == "li-ee-multiAZ")
      && rs[0] == OnDemandFetch(FeedUrl(SqlServer, file), dbType, IsByol(token), MentionsMultiAz(token))
  {
  }

  /** SQL Server: when the twin is fetched it is the same call under
      `previous-generation/`. */
  lemma SqlServerOnDemandPrevious(dbType: Db, token: string)
    ensures var rs := OnDemandForToken(SqlServer, dbType, token);
      var dpType := Gsub(token, "-multiAZ", "");
      |rs| == 2 ==> IsGenerationPair(SqlServer, OnDemandFile(SqlServer, dpType, MentionsMultiAz(token)), rs)
  {
  }

  /** The two SQL Server file suffixes tell the topologies apart. */
  lemma MazSuffix(x: string, mz: bool)
    ensures EndsWith(x + MazSuffixFor(mz), "-ondemand-maz.min.js") <==> mz
  {
    var long := "-ondemand-maz.min.js";
    var short := "-ondemand.min.js";
    var s := MazSuffixFor(mz);
    var u := x + s;
    assert u[|u| - |s|..] == s;
    if !mz {
      // eight characters from the end: 'd' of "ondemand" against 'z' of "maz"
      assert u[|u| - 8] == short[|short| - 8] == 'd';
      assert long[|long| - 8] == 'z';
    }
  }

  /** A feed URL whose file ends in a SQL Server suffix tells the topology. */
  lemma FeedUrlMaz(db: Db, file: string, stem: string, mz: bool)
    requires file == stem + MazSuffixFor(mz)
    ensures EndsWith(FeedUrl(db, file), "-ondemand-maz.min.js") <==> mz
  {
    var x := RdsBaseUrl + db.Name() + "/" + stem;
    assert FeedUrl(db, file) == x + MazSuffixFor(mz);
    MazSuffix(x, mz);
  }

  /** SQL Server: a call's URL ends in `-ondemand-maz.min.js` exactly when the
      call is multi-AZ. */
  lemma SqlServerOnDemandMaz(dbType: Db, token: string)
    ensures forall r | r in OnDemandForToken(SqlServer, dbType, token) ::
      EndsWith(r.url, "-ondemand-maz.min.js") <==> r.isMultiAz
  {
    var dpType := Gsub(token, "-multiAZ", "");
    var mz := MentionsMultiAz(token);
    var stem := "sqlserver-" + dpType;
    var file := OnDemandFile(SqlServer, dpType, mz);
    var rs := OnDemandForToken(SqlServer, dbType, token);
    SqlServerOnDemand(dbType, token);
    SqlServerOnDemandPrevious(dbType, token);
    FeedUrlMaz(SqlServer, file, stem, mz);
    FeedUrlMaz(SqlServer, PreviousGeneration + file, PreviousGeneration + stem, mz);
    forall r | r in rs
      ensures EndsWith(r.url, "-ondemand-maz.min.js") <==> r.isMultiAz
    {
      assert r == rs[0] || r == rs[1];
    }
  }

  /** The deployment tokens of the SQL Server rows of `@@OD_DB_DEPLOY_TYPE`. */
  const SqlServerTokens: seq<string> :=
    ["li-ex", "li-web", "li-se", "li-se-multiAZ", "byol", "byol-multiAZ", "li-ee", "li-ee-multiAZ"]

  /** The same tokens without their `-multiAZ` suffix. */
  const SqlServerStems: seq<string> := ["li-ex", "li-web", "li-se", "li-se", "byol", "byol", "li-ee", "li-ee"]

  /** Every token of the SQL Server rows is one of `SqlServerTokens`. */
  lemma SqlServerTableTokens()
    ensures forall e, token | e in OdDeployType(SqlServer) && token in e.1 :: token in SqlServerTokens
    ensures forall token | token in SqlServerTokens :: exists e | e in OdDeployType(SqlServer) :: token in e.1
  {
  }

  /** The skip test on the stripped token matches `li-ee` and `li-ee-multiAZ`
      before stripping, and its second comparison can never match. */
  predicate SkipTestMatchesLiEe(token: string)
  {
    var dpType := Gsub(token, "-multiAZ", "");
    && dpType != "li-ee-multiAZ"
    && (dpType == "li-ee" <==> token == "li-ee" || token == "li-ee-multiAZ")
  }

  /** Stripping a trailing `-multiAZ` from a stem without an `m` gives the stem back. */
  lemma StripStem(x: string, multi: bool)
    requires 'm' !in x
    ensures SkipTestMatchesLiEe(x + (if multi then "-multiAZ" else ""))
  {
    var pat := "-multiAZ";
    var token := x + (if multi then pat else "");
    if multi {
      GsubTrailing(x, pat, "");
    } else {
      assert token == x;
      GsubAbsent(x, pat, "");
    }
    assert "li-ee-multiAZ"[6] == 'm';
    assert "li-ee-multiAZ" == "li-ee" + pat;
    if token == "li-ee-multiAZ" && multi {
      assert x == token[..|x|];
    }
  }

  lemma SqlServerStem(i: nat)
    requires i < |SqlServerTokens|
    ensures 'm' !in SqlServerStems[i]
    ensures SqlServerTokens[i] == SqlServerStems[i] + (if i % 2 == 1 && i > 2 then "-multiAZ" else "")
  {
  }

  /** For every SQL Server token, the previous-generation skip applies exactly
      to Enterprise Edition license-included, in both topologies, and the
      comparison with `li-ee-multiAZ` is dead. */
  lemma SqlServerOnDemandTokens()
    ensures forall i | 0 <= i < |SqlServerTokens| :: SkipTestMatchesLiEe(SqlServerTokens[i])
  {
    forall i | 0 <= i < |SqlServerTokens|
      ensures SkipTestMatchesLiEe(SqlServerTokens[i])
    {
      SqlServerStem(i);
      StripStem(SqlServerStems[i], i % 2 == 1 && i > 2);
    }
  }

  /** An engine whose table has one row with one token makes exactly that
      token's calls. */
  lemma OnDemandSingleToken(db: Db, dbType: Db, token: string)
    requires OdDeployType(db) == [(dbType, [token])]
    ensures OnDemandForDb(db) == OnDemandForToken(db, dbType, token)
  {
    assert OnDemandForDb(db) == OnDemandForRows(db, [(dbType, [token])]);
    OnDemandOneRow(db, dbType, token);
  }

  /** A table of one row with one token makes exactly that token's calls. */
  lemma OnDemandOneRow(db: Db, dbType: Db, token: string)
    ensures OnDemandForRows(db, [(dbType, [token])]) == OnDemandForToken(db, dbType, token)
  {
    assert OnDemandForTokens(db, dbType, [token]) == OnDemandForToken(db, dbType, token) + [];
    assert OnDemandForRows(db, [(dbType, [token])]) == OnDemandForTokens(db, dbType, [token]) + [];
  }

  /** Aurora (`db`) makes one on-demand call: it fetches the multi-AZ-named URL
      and records single-AZ prices without BYOL. */
  lemma AuroraOnDemandRequests(db: Db)
    requires db == Aurora
    ensures var rs := OnDemandForDb(db);
      && |rs| == 1 && rs[0].OnDemandFetch?
      && rs[0].dbType == db && !rs[0].isByol && !rs[0].isMultiAz
      && Contains(rs[0].url, "multiAZ")
  {
    var token := "multiAZ";
    OnDemandSingleToken(db, db, token);
    NotContainsMissingChar(token, "byol", 0);
    OnDemandNoPreviousGeneration(db, db, token);
    OnDemandTokenFlags(db, db, token);
    var rs := OnDemandForToken(db, db, token);
    assert !IsByol(token);
    assert rs[0] in rs;
    assert rs[0] == OnDemandFetch(FeedUrl(db, "pricing-" + token + "-deployments.min.js"), db, false, false);
  }

  /** No engine but Aurora records on-demand calls under the Aurora db_type. */
  lemma AuroraOnlyFromAurora()
    ensures forall db, r | db != Aurora && r in OnDemandForDb(db) :: r.dbType != Aurora
  {
    forall db, r | db != Aurora && r in OnDemandForDb(db)
      ensures r.dbType != Aurora
    {
      AuroraRowOnlyInAurora(db);
    }
  }

  // ---------------------------------------------------------------------------
  // get_rds_reserved_instance_pricing2
  // ---------------------------------------------------------------------------

  /** The feed name of a db_type: the SQL Server editions have fixed names,
      every other symbol has its underscores turned into dashes. */
  function DbStr(db: Db): (s: string)
    ensures '_' !in s
  {
    match db
    case SqlServerSe => "sql-server-se"
    case SqlServerEe => "sql-server-ee"
    case SqlServerWeb => "sql-server-web"
    case SqlServerEx => "sql-server-express"
    case _ => GsubCharRemoves(db.Name(), '_', '-'); Gsub(db.Name(), "_", "-")
  }

  /** `RDS_BASE_URL + "reserved-instances/#{db_str}-#{deploy_type}.min.js"` */
  function Reserved2Url(dbStr: string, token: string): string
  {
    RdsBaseUrl + "reserved-instances/" + dbStr + "-" + token + ".min.js"
  }

  /** A term-based reserved URL contains its `<db_str>-<token>` name, and so
      the token itself. */
  lemma Reserved2UrlContains(dbStr: string, token: string)
    ensures Contains(Reserved2Url(dbStr, token), dbStr + "-" + token)
    ensures Contains(Reserved2Url(dbStr, token), token)
  {
    var prefix := RdsBaseUrl + "reserved-instances/";
    assert Reserved2Url(dbStr, token) == prefix + (dbStr + "-" + token) + ".min.js";
    ContainsInMiddle(prefix, dbStr + "-" + token, ".min.js");
    assert Reserved2Url(dbStr, token) == (prefix + dbStr + "-") + token + ".min.js";
    ContainsInMiddle(prefix + dbStr + "-", token, ".min.js");
  }

  /** The call made for one deployment token of db_type `db`: the feed is
      written to every db_type that shares `db`'s pricing. */
  function Reserved2ForToken(db: Db, token: string): Request
  {
    Reserved2Fetch(
      Reserved2Url(DbStr(db), token),
      ReservedWithSamePricing2(db),
      MentionsMultiAz(token) && db != Aurora,
      IsByol(token))
  }

  /** Every db_type but the SQL Server editions is named in its feeds by its
      symbol with each underscore turned into a dash and nothing else changed. */
  lemma DbStrDashes(db: Db)
    requires db != SqlServerSe && db != SqlServerEe && db != SqlServerWeb && db != SqlServerEx
    ensures |DbStr(db)| == |db.Name()|
    ensures forall i | 0 <= i < |db.Name()| ::
      DbStr(db)[i] == (if db.Name()[i] == '_' then '-' else db.Name()[i])
  {
    GsubChar(db.Name(), '_', '-');
  }

  /** Aurora (`db`) fetches a standard and a multiAZ-named reserved feed, and
      records both, for Aurora alone, as single-AZ. */
  lemma AuroraReserved2Requests(db: Db)
    requires db == Aurora
    ensures var rs := Reserved2ForRows(ReservedDeployType2(db));
      && |rs| == 2
      && (forall r | r in rs :: r.dbs == [Aurora] && !r.isMultiAz)
      && Contains(rs[1].url, "multiAZ")
  {
    var tokens := ["standard", "multiAZ"];
    assert ReservedDeployType2(db) == [(db, tokens)];
    var rs := Reserved2ForTokens(db, tokens);
    assert Reserved2ForRows([(db, tokens)]) == rs + Reserved2ForRows([]);
    assert rs[1] == Reserved2ForToken(db, tokens[1]);
    Reserved2UrlContains(DbStr(db), tokens[1]);
  }

  /** The calls made for the deployment tokens of one db_type, in order. */
  function Reserved2ForTokens(db: Db, tokens: seq<string>): (rs: seq<Request>)
    ensures |rs| == |tokens|
    ensures forall i | 0 <= i < |rs| :: rs[i] == Reserved2ForToken(db, tokens[i])
  {
    if tokens == [] then []
    else [Reserved2ForToken(db, tokens[0])] + Reserved2ForTokens(db, tokens[1..])
  }

  /** The calls made for the rows of one engine's table, in order; each is
      written to the db_types that share one row key's pricing, and a feed
      written to Aurora is never multi-AZ. */
  function Reserved2ForRows(rows: DeployTable): (rs: seq<Request>)
    ensures forall r | r in rs ::
      && r.Reserved2Fetch?
      && r.dbs in (set e | e in rows :: ReservedWithSamePricing2(e.0))
      && (Aurora in r.dbs ==> !r.isMultiAz)
  {
    if rows == [] then []
    else Reserved2ForTokens(rows[0].0, rows[0].1) + Reserved2ForRows(rows[1..])
  }

  /** The calls made for a list of engines of `@@DB_TYPE`, in order; no feed
      written to Aurora is multi-AZ. */
  function Reserved2ForDbs(dbs: seq<Db>): (rs: seq<Request>)
    ensures forall r | r in rs :: r.Reserved2Fetch? && (Aurora in r.dbs ==> !r.isMultiAz)
  {
    if dbs == [] then [] else Reserved2ForRows(ReservedDeployType2(dbs[0])) + Reserved2ForDbs(dbs[1..])
  }

  /** All calls of `get_rds_reserved_instance_pricing2`, in order. */
  function Reserved2Requests(): seq<Request>
  {
    Reserved2ForDbs(DbTypes)
  }

  /** The calls for an engine's rows are exactly one call per token of
      every row, for that row's key. */
  lemma {:induction false} Reserved2ForRowsExactly(rows: DeployTable)
    ensures forall r :: r in Reserved2ForRows(rows) <==>
      exists e, t | e in rows && t in e.1 :: r == Reserved2ForToken(e.0, t)
  {
    if rows != [] {
      var rest := rows[1..];
      var e0 := rows[0];
      var head := Reserved2ForTokens(e0.0, e0.1);
      Reserved2ForRowsExactly(rest);
      assert e0 in rows;
      forall r | exists e, t | e in rows && t in e.1 :: r == Reserved2ForToken(e.0, t)
        ensures r in Reserved2ForRows(rows)
      {
        var e, t :| e in rows && t in e.1 && r == Reserved2ForToken(e.0, t);
        if e != e0 {
          assert e in rest;
        } else {
          var i :| 0 <= i < |e0.1| && e0.1[i] == t;
          assert head[i] == r;
        }
      }
      forall r | r in head
        ensures exists e, t | e in rows && t in e.1 :: r == Reserved2ForToken(e.0, t)
      {
        var i :| 0 <= i < |head| && head[i] == r;
        assert e0.1[i] in e0.1;
      }
      forall r | r in Reserved2ForRows(rest)
        ensures exists e, t | e in rows && t in e.1 :: r == Reserved2ForToken(e.0, t)
      {
        var e, t :| e in rest && t in e.1 && r == Reserved2ForToken(e.0, t);
        assert e in rows;
      }
    }
  }

  /** The calls for a list of engines are exactly one call per token of
      every row of each engine's term-based table. */
  lemma {:induction false} Reserved2ForDbsExactly(dbs: seq<Db>)
    ensures forall r :: r in Reserved2ForDbs(dbs) <==>
      exists db, e, t | db in dbs && e in ReservedDeployType2(db) && t in e.1 :: r == Reserved2ForToken(e.0, t)
  {
    if dbs != [] {
      var rest := dbs[1..];
      var db0 := dbs[0];
      Reserved2ForDbsExactly(rest);
      Reserved2ForRowsExactly(ReservedDeployType2(db0));
      assert db0 in dbs;
      forall r | exists db, e, t | db in dbs && e in ReservedDeployType2(db) && t in e.1 :: r == Reserved2ForToken(e.0, t)
        ensures r in Reserved2ForDbs(dbs)
      {
        var db, e, t :| db in dbs && e in ReservedDeployType2(db) && t in e.1 && r == Reserved2ForToken(e.0, t);
        if db != db0 {
          assert db in rest;
        }
      }
      forall r | r in Reserved2ForDbs(rest)
        ensures exists db, e, t | db in dbs && e in ReservedDeployType2(db) && t in e.1 :: r == Reserved2ForToken(e.0, t)
      {
        var db, e, t :| db in rest && e in ReservedDeployType2(db) && t in e.1 && r == Reserved2ForToken(e.0, t);
        assert db in dbs;
      }
    }
  }

  /** Every call for a list of engines comes from a token of a row of one
      of them; it fetches a URL naming the token, is written to the row key's
      same-pricing list, and carries the token's BYOL flag and its multi-AZ
      flag unless the key is Aurora. */
  lemma Reserved2ForDbsFlags(dbs: seq<Db>)
    ensures forall r | r in Reserved2ForDbs(dbs) ::
      exists db, e, t | db in dbs && e in ReservedDeployType2(db) && t in e.1 ::
        && r.Reserved2Fetch? && Contains(r.url, t)
        && r.dbs == ReservedWithSamePricing2(e.0) && r.isByol == IsByol(t)
        && r.isMultiAz == (MentionsMultiAz(t) && e.0 != Aurora)
  {
    Reserved2ForDbsExactly(dbs);
    forall r | r in Reserved2ForDbs(dbs)
      ensures exists db, e, t | db in dbs && e in ReservedDeployType2(db) && t in e.1 ::
        && r.Reserved2Fetch? && Contains(r.url, t)
        && r.dbs == ReservedWithSamePricing2(e.0) && r.isByol == IsByol(t)
        && r.isMultiAz == (MentionsMultiAz(t) && e.0 != Aurora)
    {
      var db, e, t :| db in dbs && e in ReservedDeployType2(db) && t in e.1 && r == Reserved2ForToken(e.0, t);
      Reserved2UrlContains(DbStr(e.0), t);
    }
  }

  /** `get_rds_reserved_instance_pricing2` makes exactly one call per
      deployment token of every row of every engine of `@@DB_TYPE`. */
  lemma Reserved2RequestsExactly()
    ensures forall r :: r in Reserved2Requests() <==>
      exists db, e, t | db in DbTypes && e in ReservedDeployType2(db) && t in e.1 :: r == Reserved2ForToken(e.0, t)
  {
    Reserved2ForDbsExactly(DbTypes);
  }

  /** Every call of `get_rds_reserved_instance_pricing2` fetches a URL naming
      its token, is written to the row key's same-pricing list, and carries
      the token's BYOL flag and its multi-AZ flag unless the key is Aurora. */
  lemma Reserved2RequestsFlags()
    ensures forall r | r in Reserved2Requests() ::
      exists db, e, t | db in DbTypes && e in ReservedDeployType2(db) && t in e.1 ::
        && r.Reserved2Fetch? && Contains(r.url, t)
        && r.dbs == ReservedWithSamePricing2(e.0) && r.isByol == IsByol(t)
        && r.isMultiAz == (MentionsMultiAz(t) && e.0 != Aurora)
  {
    Reserved2ForDbsFlags(DbTypes);
  }

  /** The pricing-sharing table covers every key of the reserved table, lists
      the key itself first, and adds one alias only: Oracle SE's feed also
      prices Oracle EE, which is not itself a key (so no feed of its own
      overwrites it). */
  lemma SamePricingCoversKeys()
    ensures forall db, e | e in ReservedDeployType2(db) ::
      var dbs := ReservedWithSamePricing2(e.0);
      && |dbs| >= 1 && dbs[0] == e.0
      && (|dbs| > 1 <==> e.0 == OracleSe)
    ensures ReservedWithSamePricing2(OracleSe) == [OracleSe, OracleEe]
    ensures forall db, e | e in ReservedDeployType2(db) :: e.0 != OracleEe
  {
    forall db, e | e in ReservedDeployType2(db)
      ensures var dbs := ReservedWithSamePricing2(e.0);
        && |dbs| >= 1 && dbs[0] == e.0
        && (|dbs| > 1 <==> e.0 == OracleSe)
      ensures e.0 != OracleEe
    {
      Reserved2KeysAreEditions(db);
      SamePricingOfEdition(e.0);
    }
  }

  /** The keys of the term-based reserved table are editions, never the
      Oracle or SQL Server engine symbols, and never Oracle EE. */
  lemma Reserved2KeysAreEditions(db: Db)
    ensures forall e | e in ReservedDeployType2(db) :: e.0 != Oracle && e.0 != SqlServer && e.0 != OracleEe
  {
  }

  /** The same-pricing list of an edition key starts with the key, and only
      Oracle SE's is longer. */
  lemma SamePricingOfEdition(k: Db)
    requires k != Oracle && k != SqlServer && k != OracleEe
    ensures var dbs := ReservedWithSamePricing2(k);
      && |dbs| >= 1 && dbs[0] == k
      && (|dbs| > 1 <==> k == OracleSe)
  {
  }

  // ---------------------------------------------------------------------------
  // get_rds_reserved_instance_pricing
  // ---------------------------------------------------------------------------

  /** A current-generation call and its previous-generation twin. */
  function LegacyPair(db: Db, file: string, resType: ResType, dbType: Db, isByol: bool): (rs: seq<Request>)
    ensures IsGenerationPair(db, file, rs)
  {
    [ LegacyFetch(FeedUrl(db, file), resType, dbType, isByol),
      LegacyFetch(FeedUrl(db, PreviousGeneration + file), resType, dbType, isByol) ]
  }

  /** MySQL and PostgreSQL: one utilization level. MySQL has every level,
      PostgreSQL only heavy; the feed is never BYOL and records the engine. */
  function LegacyForResType(db: Db, resType: ResType): seq<Request>
  {
    var file := "pricing-" + resType.Name() + "-utilization-reserved-instances.min.js";
    if (db == PostgreSql && resType == Heavy) || db == MySql then LegacyPair(db, file, resType, db, false)
    else []
  }

  /** MySQL and PostgreSQL: the levels of `@@RES_TYPES`, in order. */
  function LegacyForResTypes(db: Db, resTypes: seq<ResType>): (rs: seq<Request>)
    ensures forall r | r in rs :: r.LegacyFetch? && r.dbType == db && !r.isByol && r.resType in resTypes
  {
    if resTypes == [] then []
    else LegacyForResType(db, resTypes[0]) + LegacyForResTypes(db, resTypes[1..])
  }

  /** Oracle and SQL Server: one token of one db_type at one level. */
  function LegacyForToken(db: Db, dbType: Db, resType: ResType, token: string): seq<Request>
  {
    var isByol := IsByol(token);
    if db == Oracle then
      LegacyPair(db, "pricing-" + token + "-" + resType.Name() + "-utilization-reserved-instances.min.js",
        resType, dbType, isByol)
    else if db == SqlServer then
      LegacyPair(db, "sqlserver-" + token + "-" + resType.Name() + "-ri.min.js", resType, dbType, isByol)
    else []
  }

  /** The tokens of one db_type at one level, in order. */
  function LegacyForTokens(db: Db, dbType: Db, resType: ResType, tokens: seq<string>): (rs: seq<Request>)
    ensures forall r | r in rs :: r.LegacyFetch? && r.dbType == dbType && r.resType == resType
  {
    if tokens == [] then []
    else LegacyForToken(db, dbType, resType, tokens[0]) + LegacyForTokens(db, dbType, resType, tokens[1..])
  }

  /** One db_type: for each level, all its tokens. */
  function LegacyForLevels(db: Db, dbType: Db, resTypes: seq<ResType>, tokens: seq<string>): (rs: seq<Request>)
    ensures forall r | r in rs :: r.LegacyFetch? && r.dbType == dbType && r.resType in resTypes
  {
    if resTypes == [] then []
    else LegacyForTokens(db, dbType, resTypes[0], tokens) + LegacyForLevels(db, dbType, resTypes[1..], tokens)
  }

  /** The rows of one engine's legacy table, in order. */
  function LegacyForRows(db: Db, rows: DeployTable): (rs: seq<Request>)
    ensures forall r | r in rs :: r.LegacyFetch? && r.dbType in RowKeys(rows)
  {
    if rows == [] then []
    else LegacyForLevels(db, rows[0].0, ResTypes, rows[0].1) + LegacyForRows(db, rows[1..])
  }

  /** The calls made for one engine of `@@DB_TYPE`; none is recorded under
      an engine that has no legacy reserved pricing. */
  function LegacyForDb(db: Db): (rs: seq<Request>)
    ensures forall r | r in rs :: r.LegacyFetch? && r.dbType !in NoLegacyRiPricingAvailable
  {
    if db in NoLegacyRiPricingAvailable then []
    else if db in [MySql, PostgreSql] then LegacyForResTypes(db, ResTypes)
    else LegacyKeysHaveLegacyPricing(db); LegacyForRows(db, ReservedDeployType(db))
  }

  /** No key of the legacy reserved table is an engine without legacy pricing. */
  lemma LegacyKeysHaveLegacyPricing(db: Db)
    ensures RowKeys(ReservedDeployType(db)) !! set d | d in NoLegacyRiPricingAvailable
  {
  }

  /** The calls made for a list of engines, in order. */
  function LegacyForDbs(dbs: seq<Db>): (rs: seq<Request>)
    ensures forall r | r in rs :: r.LegacyFetch? && r.dbType !in NoLegacyRiPricingAvailable
  {
    if dbs == [] then [] else LegacyForDb(dbs[0]) + LegacyForDbs(dbs[1..])
  }

  /** All calls of `get_rds_reserved_instance_pricing`, in order. */
  function LegacyRequests(): seq<Request>
  {
    LegacyForDbs(DbTypes)
  }

  /** The calls for a token list at one level are exactly the calls of its tokens. */
  lemma {:induction false} LegacyForTokensExactly(db: Db, dbType: Db, resType: ResType, tokens: seq<string>)
    ensures forall r :: r in LegacyForTokens(db, dbType, resType, tokens) <==>
      exists t | t in tokens :: r in LegacyForToken(db, dbType, resType, t)
  {
    if tokens != [] {
      var rest := tokens[1..];
      LegacyForTokensExactly(db, dbType, resType, rest);
      assert tokens[0] in tokens;
      forall r | exists t | t in tokens :: r in LegacyForToken(db, dbType, resType, t)
        ensures r in LegacyForTokens(db, dbType, resType, tokens)
      {
        var t :| t in tokens && r in LegacyForToken(db, dbType, resType, t);
        if t != tokens[0] {
          assert t in rest;
        }
      }
      forall r | r in LegacyForTokens(db, dbType, resType, rest)
        ensures exists t | t in tokens :: r in LegacyForToken(db, dbType, resType, t)
      {
        var t :| t in rest && r in LegacyForToken(db, dbType, resType, t);
        assert t in tokens;
      }
    }
  }

  /** The calls for one db_type are exactly the calls of every token at
      every level. */
  lemma {:induction false} LegacyForLevelsExactly(db: Db, dbType: Db, resTypes: seq<ResType>, tokens: seq<string>)
    ensures forall r :: r in LegacyForLevels(db, dbType, resTypes, tokens) <==>
      exists rt, t | rt in resTypes && t in tokens :: r in LegacyForToken(db, dbType, rt, t)
  {
    if resTypes != [] {
      var rest := resTypes[1..];
      var rt0 := resTypes[0];
      LegacyForLevelsExactly(db, dbType, rest, tokens);
      LegacyForTokensExactly(db, dbType, rt0, tokens);
      assert rt0 in resTypes;
      forall r | exists rt, t | rt in resTypes && t in tokens :: r in LegacyForToken(db, dbType, rt, t)
        ensures r in LegacyForLevels(db, dbType, resTypes, tokens)
      {
        var rt, t :| rt in resTypes && t in tokens && r in LegacyForToken(db, dbType, rt, t);
        if rt != rt0 {
          assert rt in rest;
        }
      }
      forall r | r in LegacyForLevels(db, dbType, rest, tokens)
        ensures exists rt, t | rt in resTypes && t in tokens :: r in LegacyForToken(db, dbType, rt, t)
      {
        var rt, t :| rt in rest && t in tokens && r in LegacyForToken(db, dbType, rt, t);
        assert rt in resTypes;
      }
    }
  }

  /** The calls for an engine's legacy rows are exactly the calls of every
      token of every row at every level of `@@RES_TYPES`. */
  lemma {:induction false} LegacyForRowsExactly(db: Db, rows: DeployTable)
    ensures forall r :: r in LegacyForRows(db, rows) <==>
      exists e, rt, t | e in rows && rt in ResTypes && t in e.1 :: r in LegacyForToken(db, e.0, rt, t)
  {
    if rows != [] {
      var rest := rows[1..];
      var e0 := rows[0];
      LegacyForRowsExactly(db, rest);
      LegacyForLevelsExactly(db, e0.0, ResTypes, e0.1);
      assert e0 in rows;
      forall r | exists e, rt, t | e in rows && rt in ResTypes && t in e.1 :: r in LegacyForToken(db, e.0, rt, t)
        ensures r in LegacyForRows(db, rows)
      {
        var e, rt, t :| e in rows && rt in ResTypes && t in e.1 && r in LegacyForToken(db, e.0, rt, t);
        if e != e0 {
          assert e in rest;
        }
      }
      forall r | r in LegacyForRows(db, rest)
        ensures exists e, rt, t | e in rows && rt in ResTypes && t in e.1 :: r in LegacyForToken(db, e.0, rt, t)
      {
        var e, rt, t :| e in rest && rt in ResTypes && t in e.1 && r in LegacyForToken(db, e.0, rt, t);
        assert e in rows;
      }
    }
  }

  /** MySQL and PostgreSQL: the calls for a list of levels are exactly the
      calls of each level. */
  lemma {:induction false} LegacyForResTypesExactly(db: Db, resTypes: seq<ResType>)
    ensures forall r :: r in LegacyForResTypes(db, resTypes) <==>
      exists rt | rt in resTypes :: r in LegacyForResType(db, rt)
  {
    if resTypes != [] {
      var rest := resTypes[1..];
      LegacyForResTypesExactly(db, rest);
      assert resTypes[0] in resTypes;
      forall r | exists rt | rt in resTypes :: r in LegacyForResType(db, rt)
        ensures r in LegacyForResTypes(db, resTypes)
      {
        var rt :| rt in resTypes && r in LegacyForResType(db, rt);
        if rt != resTypes[0] {
          assert rt in rest;
        }
      }
      forall r | r in LegacyForResTypes(db, rest)
        ensures exists rt | rt in resTypes :: r in LegacyForResType(db, rt)
      {
        var rt :| rt in rest && r in LegacyForResType(db, rt);
        assert rt in resTypes;
      }
    }
  }

  /** `r` is a call made for engine `db`: MySQL and PostgreSQL make the calls
      of each level of `@@RES_TYPES`; every other engine makes the calls of
      every token of every row of its legacy table at every level. */
  ghost predicate LegacyCallOf(db: Db, r: Request)
  {
    || ((db == MySql || db == PostgreSql) && exists rt | rt in ResTypes :: r in LegacyForResType(db, rt))
    || exists e, rt, t | e in ReservedDeployType(db) && rt in ResTypes && t in e.1 :: r in LegacyForToken(db, e.0, rt, t)
  }

  /** The legacy calls of one engine are exactly its `LegacyCallOf` calls. */
  lemma LegacyForDbExactly(db: Db)
    ensures forall r :: r in LegacyForDb(db) <==> LegacyCallOf(db, r)
  {
    if db == MySql || db == PostgreSql {
      LegacyLevelEnginesExactly(db);
    } else {
      LegacyTableEnginesExactly(db);
    }
  }

  /** MySQL and PostgreSQL make exactly the calls of each level of `@@RES_TYPES`. */
  lemma LegacyLevelEnginesExactly(db: Db)
    requires db == MySql || db == PostgreSql
    ensures forall r :: r in LegacyForDb(db) <==> exists rt | rt in ResTypes :: r in LegacyForResType(db, rt)
  {
    LegacyForResTypesExactly(db, ResTypes);
  }

  /** Every other engine makes exactly the calls of every token of every row
      of its legacy table at every level. */
  lemma LegacyTableEnginesExactly(db: Db)
    requires db != MySql && db != PostgreSql
    ensures forall r :: r in LegacyForDb(db) <==>
      exists e, rt, t | e in ReservedDeployType(db) && rt in ResTypes && t in e.1 :: r in LegacyForToken(db, e.0, rt, t)
  {
    if db in NoLegacyRiPricingAvailable {
      assert ReservedDeployType(db) == [];
    } else {
      LegacyForRowsExactly(db, ReservedDeployType(db));
    }
  }

  /** The calls for a list of engines are exactly the calls of each engine. */
  lemma {:induction false} LegacyForDbsExactly(dbs: seq<Db>)
    ensures forall r :: r in LegacyForDbs(dbs) <==> exists db | db in dbs :: LegacyCallOf(db, r)
  {
    if dbs != [] {
      var rest := dbs[1..];
      LegacyForDbsExactly(rest);
      LegacyForDbExactly(dbs[0]);
      assert dbs[0] in dbs;
      forall r | exists db | db in dbs :: LegacyCallOf(db, r)
        ensures r in LegacyForDbs(dbs)
      {
        var db :| db in dbs && LegacyCallOf(db, r);
        if db != dbs[0] {
          assert db in rest;
        }
      }
      forall r | r in LegacyForDbs(rest)
        ensures exists db | db in dbs :: LegacyCallOf(db, r)
      {
        var db :| db in rest && LegacyCallOf(db, r);
        assert db in dbs;
      }
    }
  }

  /** `get_rds_reserved_instance_pricing` makes exactly the calls of each
      engine of `@@DB_TYPE`: MySQL's and PostgreSQL's for each level of
      `@@RES_TYPES`, and Oracle's and SQL Server's for every
      (db_type, level, token) of their legacy tables; Aurora and MariaDB
      have no legacy table. */
  lemma LegacyRequestsExactly()
    ensures forall r :: r in LegacyRequests() <==> exists db | db in DbTypes :: LegacyCallOf(db, r)
  {
    LegacyForDbsExactly(DbTypes);
  }


  /** MySQL fetches every utilization level, PostgreSQL only heavy; each as a
      current/previous-generation pair. */
  lemma LegacyLevels(db: Db, resType: ResType)
    requires db in [MySql, PostgreSql]
    ensures var rs := LegacyForResType(db, resType);
      && (rs == [] <==> db == PostgreSql && resType != Heavy)
      && (rs != [] ==> IsGenerationPair(db, "pricing-" + resType.Name() + "-utilization-reserved-instances.min.js", rs))
  {
  }

  /** Oracle and SQL Server: every token at every level is a pair of calls
      carrying the row key and the token's BYOL flag. */
  lemma LegacyTokenPair(db: Db, dbType: Db, resType: ResType, token: string)
    requires db in [Oracle, SqlServer]
    ensures var rs := LegacyForToken(db, dbType, resType, token);
      && |rs| == 2
      && forall r | r in rs :: r.resType == resType && r.dbType == dbType && r.isByol == IsByol(token)
  {
  }

  /** Engines without legacy reserved pricing issue no legacy call. */
  lemma LegacySkipsNewEngines()
    ensures forall db | db in NoLegacyRiPricingAvailable :: LegacyForDb(db) == []
  {
  }

  /** The calls `initialize` makes: on demand, then term-based reserved,
      then legacy reserved. */
  function AllRequests(): seq<Request>
  {
    OnDemandRequests() + Reserved2Requests() + LegacyRequests()
  }
}
