/** Which database backend the daemon uses: the choice made at start-up, the choice
    made again on every reload, and the two connection handles behind it. */
module Backend {
  import opened Text

  /** The settings of a loaded configuration, overrides included. */
  type Config = map<string, string>

  datatype Kind = MySQL | MariaDB | Postgres | SQLite

  datatype Params = Params(
    dbType: string, user: string, pass: string, host: string, port: int, name: string, sslMode: string)

  const DEFAULT_SQLITE_PATH := "/etc/scastd/scastd.db"

  function GetString(c: Config, key: string, def: string): string {
    if key in c then c[key] else def
  }

  function GetInt(c: Config, key: string, def: int): int {
    if key in c && Stoi(c[key]).Some? then Stoi(c[key]).value else def
  }

  function KindOf(dbType: string): Option<Kind> {
    if dbType == "mysql" then Some(MySQL)
    else if dbType == "mariadb" then Some(MariaDB)
    else if dbType == "postgres" then Some(Postgres)
    else if dbType == "sqlite" then Some(SQLite)
    else None
  }

  predicate IsServerType(dbType: string) { KindOf(dbType).Some? && dbType != "sqlite" }

  function SqliteAt(path: string): Params { Params("sqlite", "", "", "", 0, path, "") }

  /** A server backend needs a known type, a user, a host and a database name;
      everything else is sqlite at the given path. */
  function Choose(wanted: Params, sqlitePath: string): Params {
    if IsServerType(wanted.dbType) && wanted.user != "" && wanted.host != "" && wanted.name != ""
    then wanted
    else SqliteAt(sqlitePath)
  }

  /** The settings of `c`, each one falling back to the value in `base`. */
  function Wanted(base: Params, c: Config): Params {
    Params(GetString(c, "DatabaseType", base.dbType), GetString(c, "username", base.user),
           GetString(c, "password", base.pass), GetString(c, "host", base.host),
           GetInt(c, "port", base.port), GetString(c, "dbname", base.name),
           GetString(c, "sslmode", base.sslMode))
  }

  const NOTHING := Params("", "", "", "", 0, "", "")

  function StartParams(c: Config): Params {
    Choose(Wanted(NOTHING, c), GetString(c, "sqlite_path", DEFAULT_SQLITE_PATH))
  }

  function ReloadParams(p: Params, c: Config): Params {
    Choose(Wanted(p, c), GetString(c, "sqlite_path", p.name))
  }

  /** A reload whose file cannot be loaded changes nothing. */
  function TryReload(p: Params, file: Option<Config>): Params {
    match file
    case None => p
    case Some(c) => ReloadParams(p, c)
  }

  /** Do the two sets of parameters name the same database? The credentials and the TLS mode
      do not matter. */
  predicate SameDatabase(p: Params, q: Params) {
    p.dbType == q.dbType && p.host == q.host && p.port == q.port && p.name == q.name
  }

  /** What every selected backend satisfies. */
  predicate Consistent(p: Params) {
    && KindOf(p.dbType).Some?
    && (p.dbType == "sqlite" ==> p == SqliteAt(p.name))
    && (p.dbType != "sqlite" ==> p.user != "" && p.host != "" && p.name != "")
  }

  /** The parameters after a start and any number of reload attempts. */
  function AfterReloads(c: Config, files: seq<Option<Config>>): Params {
    if files == [] then StartParams(c)
    else TryReload(AfterReloads(c, files[..|files| - 1]), files[|files| - 1])
  }

  // ----- Which key feeds which parameter -----

  predicate NamesServer(dbType: string) { dbType == "mysql" || dbType == "mariadb" || dbType == "postgres" }

  /** The four types, by name. */
  lemma FourTypes(dbType: string)
    ensures KindOf("mysql") == Some(MySQL) && KindOf("mariadb") == Some(MariaDB)
    ensures KindOf("postgres") == Some(Postgres) && KindOf("sqlite") == Some(SQLite)
    ensures IsServerType(dbType) <==> NamesServer(dbType)
    ensures KindOf(dbType).None? <==> !NamesServer(dbType) && dbType != "sqlite"
  {
    assert "sqlite"[0] == 's' && "mysql"[0] == 'm' && "mariadb"[0] == 'm' && "postgres"[0] == 'p';
    assert |"mysql"| == 5 && |"mariadb"| == 7;
  }

  /** A setting that does not start with a number counts as absent. */
  lemma NoIntegerIsDefault(c: Config, key: string, def: int, w: string, s: string)
    requires key in c && c[key] == w + s && forall k :: 0 <= k < |w| ==> IsBlankCode(w[k])
    requires s == "" || (!('0' <= s[0] <= '9') && !IsBlankCode(s[0]) && s[0] != '+' && s[0] != '-')
    ensures GetInt(c, key, def) == def
  {
    NoLeadingNumber(w, s);
  }

  /** At start-up with a complete server configuration every parameter is the value under its
      own key; an absent password or TLS mode is empty, and an absent or unreadable port is 0. */
  lemma StartUsesItsKeys(c: Config)
    requires "DatabaseType" in c && NamesServer(c["DatabaseType"])
    requires "username" in c && c["username"] != "" && "host" in c && c["host"] != ""
    requires "dbname" in c && c["dbname"] != ""
    ensures var p := StartParams(c);
            && p.dbType == c["DatabaseType"]
            && p.user == c["username"]
            && p.pass == (if "password" in c then c["password"] else "")
            && p.host == c["host"]
            && p.port == (if "port" in c && Stoi(c["port"]).Some? then Stoi(c["port"]).value else 0)
            && p.name == c["dbname"]
            && p.sslMode == (if "sslmode" in c then c["sslmode"] else "")
  {
    FourTypes(c["DatabaseType"]);
    hide IsServerType, KindOf;
  }

  /** Any other configuration starts on sqlite, at its path or the default one. */
  lemma StartsOnSqlite(c: Config)
    requires || "DatabaseType" !in c || !NamesServer(c["DatabaseType"])
             || "username" !in c || c["username"] == "" || "host" !in c || c["host"] == ""
             || "dbname" !in c || c["dbname"] == ""
    ensures StartParams(c)
            == Params("sqlite", "", "", "", 0,
                      if "sqlite_path" in c then c["sqlite_path"] else "/etc/scastd/scastd.db", "")
  {
    FourTypes(if "DatabaseType" in c then c["DatabaseType"] else "");
    hide IsServerType, KindOf;
  }

  /** A reload that ends on a server: an absent key keeps the parameter as it was. */
  lemma ReloadUsesItsKeys(p: Params, c: Config)
    requires NamesServer(if "DatabaseType" in c then c["DatabaseType"] else p.dbType)
    requires (if "username" in c then c["username"] else p.user) != ""
    requires (if "host" in c then c["host"] else p.host) != ""
    requires (if "dbname" in c then c["dbname"] else p.name) != ""
    ensures var q := ReloadParams(p, c);
            && q.dbType == (if "DatabaseType" in c then c["DatabaseType"] else p.dbType)
            && q.user == (if "username" in c then c["username"] else p.user)
            && q.pass == (if "password" in c then c["password"] else p.pass)
            && q.host == (if "host" in c then c["host"] else p.host)
            && q.port == (if "port" in c && Stoi(c["port"]).Some? then Stoi(c["port"]).value else p.port)
            && q.name == (if "dbname" in c then c["dbname"] else p.name)
            && q.sslMode == (if "sslmode" in c then c["sslmode"] else p.sslMode)
  {
    FourTypes(if "DatabaseType" in c then c["DatabaseType"] else p.dbType);
    hide IsServerType, KindOf;
  }

  /** A reload that ends on sqlite: without a path of its own the name stays. */
  lemma ReloadsOnSqlite(p: Params, c: Config)
    requires || !NamesServer(if "DatabaseType" in c then c["DatabaseType"] else p.dbType)
             || (if "username" in c then c["username"] else p.user) == ""
             || (if "host" in c then c["host"] else p.host) == ""
             || (if "dbname" in c then c["dbname"] else p.name) == ""
    ensures ReloadParams(p, c)
            == Params("sqlite", "", "", "", 0, if "sqlite_path" in c then c["sqlite_path"] else p.name, "")
  {
    FourTypes(if "DatabaseType" in c then c["DatabaseType"] else p.dbType);
    hide IsServerType, KindOf;
  }

  /** Changing one key changes no other parameter, while the backend stays a server. */
  lemma OneKeyOneParameter(p: Params, c: Config, key: string, value: string)
    requires ReloadParams(p, c).dbType != "sqlite" && ReloadParams(p, c[key := value]).dbType != "sqlite"
    ensures var q, r := ReloadParams(p, c), ReloadParams(p, c[key := value]);
            && (key != "DatabaseType" ==> r.dbType == q.dbType)
            && (key != "username" ==> r.user == q.user)
            && (key != "password" ==> r.pass == q.pass)
            && (key != "host" ==> r.host == q.host)
            && (key != "port" ==> r.port == q.port)
            && (key != "dbname" ==> r.name == q.name)
            && (key != "sslmode" ==> r.sslMode == q.sslMode)
  {
    FourTypes(Wanted(p, c).dbType);
    FourTypes(Wanted(p, c[key := value]).dbType);
    hide IsServerType, KindOf;
  }

  predicate NamesSqliteFile(c: Config) { "sqlite_path" in c ==> c["sqlite_path"] != "" }

  lemma {:induction false} EveryReloadConsistent(c: Config, files: seq<Option<Config>>)
    ensures Consistent(AfterReloads(c, files))
    ensures NamesSqliteFile(c) && (forall f <- files :: f.Some? ==> NamesSqliteFile(f.value))
            ==> AfterReloads(c, files).name != ""
  {
    if files != [] {
      EveryReloadConsistent(c, files[..|files| - 1]);
      assert files[|files| - 1] in files;
    }
  }

  /** The one way in which reloading the same configuration twice differs from
      reloading it once: there was no database name, the first reload takes the
      sqlite path as the name, and the second one sees a complete server backend. */
  predicate Flaps(p: Params, c: Config) {
    && p.name == "" && "dbname" !in c
    && GetString(c, "sqlite_path", "") != ""
    && IsServerType(GetString(c, "DatabaseType", ""))
    && GetString(c, "username", "") != "" && GetString(c, "host", "") != ""
  }

  lemma ReloadIdempotent(p: Params, c: Config)
    requires Consistent(p)
    ensures ReloadParams(ReloadParams(p, c), c) == ReloadParams(p, c) <==> !Flaps(p, c)
  {
    var w := Wanted(p, c);
    var q := ReloadParams(p, c);
    if q == w && q.dbType != "sqlite" {
      assert Wanted(q, c) == w;
    } else {
      var path := GetString(c, "sqlite_path", p.name);
      assert q == SqliteAt(path);
      assert GetString(c, "sqlite_path", q.name) == path;
    }
  }

  /** From every state that start-up and reloads with named sqlite files can reach,
      reloading an unchanged configuration again changes nothing. */
  lemma {:induction false} ReachableReloadIdempotent(c0: Config, files: seq<Option<Config>>, c: Config)
    requires NamesSqliteFile(c0) && forall f <- files :: f.Some? ==> NamesSqliteFile(f.value)
    ensures var p := AfterReloads(c0, files);
            ReloadParams(ReloadParams(p, c), c) == ReloadParams(p, c)
  {
    EveryReloadConsistent(c0, files);
    ReloadIdempotent(AfterReloads(c0, files), c);
  }

  /** Without named sqlite files it does fail: an empty `sqlite_path` at start-up leaves
      a state in which a later configuration settles only on its second reload. */
  lemma FlappingIsReachable()
    ensures exists c0, c :: Flaps(AfterReloads(c0, []), c)
  {
    var c0: Config := map["sqlite_path" := ""];
    var c: Config := map["DatabaseType" := "mysql", "username" := "u", "host" := "h", "sqlite_path" := "/p"];
    assert Flaps(AfterReloads(c0, []), c);
  }

  /** Reloading the very configuration the daemon started with keeps the backend, except
      that a server configuration without `dbname`, which starts on sqlite, is taken for
      complete by the first reload because the sqlite path now serves as its name. */
  lemma ReloadAfterStart(c: Config)
    ensures ReloadParams(StartParams(c), c) == StartParams(c)
            <==> !(&& "dbname" !in c
                   && IsServerType(GetString(c, "DatabaseType", ""))
                   && GetString(c, "username", "") != "" && GetString(c, "host", "") != ""
                   && GetString(c, "sqlite_path", DEFAULT_SQLITE_PATH) != "")
  {
    var w := Wanted(NOTHING, c);
    var q := StartParams(c);
    if q == w && q.dbType != "sqlite" {
      assert Wanted(q, c) == w;
    } else {
      assert q == SqliteAt(GetString(c, "sqlite_path", DEFAULT_SQLITE_PATH));
    }
  }

  /** A server configuration without `dbname`: it starts on sqlite and its first reload
      switches to the server, with the sqlite path as the name of the database. */
  lemma ReloadLeavesSqlite()
    ensures var c: Config := map["DatabaseType" := "mysql", "username" := "u", "host" := "h"];
            && StartParams(c) == SqliteAt(DEFAULT_SQLITE_PATH)
            && ReloadParams(StartParams(c), c) == Params("mysql", "u", "", "h", 0, DEFAULT_SQLITE_PATH, "")
  {
    var c: Config := map["DatabaseType" := "mysql", "username" := "u", "host" := "h"];
    assert "dbname" !in c && "sqlite_path" !in c && "password" !in c && "port" !in c && "sslmode" !in c;
  }

  /** One database handle. Using it after it was freed is an error of the caller. */
  class Connection {
    const kind: Kind
    var freed: bool
    var target: Option<Params>

    constructor (kind: Kind)
      ensures this.kind == kind && !freed && target == None
    {
      this.kind := kind;
      freed, target := false, None;
    }

    method Connect(p: Params)
      requires !freed
      modifies this
      ensures !freed && target == Some(p)
    {
      target := Some(p);
    }

    method Disconnect()
      requires !freed
      modifies this
      ensures !freed && target == None
    {
      target := None;
    }

    method Free()
      requires !freed
      modifies this
      ensures freed && target == old(target)
    {
      freed := true;
    }
  }

  /** Two handles of the kind a type name asks for. An unknown name gets sqlite
      handles, and the caller falls back to the sqlite settings. */
  method MakePair(dbType: string) returns (first: Connection, second: Connection, known: bool)
    ensures fresh(first) && fresh(second) && first != second
    ensures !first.freed && !second.freed && first.target == second.target == None
    ensures known == KindOf(dbType).Some?
    ensures first.kind == second.kind == if known then KindOf(dbType).value else SQLite
  {
    known := true;
    if dbType == "mysql" {
      first := new Connection(MySQL);
      second := new Connection(MySQL);
    } else if dbType == "mariadb" {
      first := new Connection(MariaDB);
      second := new Connection(MariaDB);
    } else if dbType == "postgres" {
      first := new Connection(Postgres);
      second := new Connection(Postgres);
    } else if dbType == "sqlite" {
      first := new Connection(SQLite);
      second := new Connection(SQLite);
    } else {
      first := new Connection(SQLite);
      second := new Connection(SQLite);
      known := false;
    }
  }

  /** The settings of a configuration, sqlite's when it does not describe a server. The
      type name is not looked at beyond that, so it may still be unknown. */
  method ReadSettings(base: Params, cfg: Config, defaultPath: string) returns (p: Params, sqlitePath: string)
    ensures sqlitePath == GetString(cfg, "sqlite_path", defaultPath)
    ensures KindOf(p.dbType).Some? ==> p == Choose(Wanted(base, cfg), sqlitePath)
    ensures KindOf(p.dbType).None? ==> Choose(Wanted(base, cfg), sqlitePath) == SqliteAt(sqlitePath)
  {
    var dbType := GetString(cfg, "DatabaseType", base.dbType);
    var user := GetString(cfg, "username", base.user);
    var pass := GetString(cfg, "password", base.pass);
    var host := GetString(cfg, "host", base.host);
    var port := GetInt(cfg, "port", base.port);
    var name := GetString(cfg, "dbname", base.name);
    var sslMode := GetString(cfg, "sslmode", base.sslMode);
    sqlitePath := GetString(cfg, "sqlite_path", defaultPath);
    var useSqlite := dbType == "sqlite" || user == "" || host == "" || name == "";
    if useSqlite {
      dbType, name := "sqlite", sqlitePath;
      user, pass, host, port, sslMode := "", "", "", 0, "";
    }
    p := Params(dbType, user, pass, host, port, name, sslMode);
  }

  /** The connection variables of the control loop and its two handles. */
  class Handles {
    const present: string -> bool    // is there a file of this name
    var dbType: string
    var dbUser: string
    var dbPass: string
    var dbHost: string
    var dbPort: int
    var dbName: string
    var dbSSLMode: string
    var db: Connection
    var db2: Connection
    var initialised: seq<string>     // sqlite files that got a fresh schema
    ghost var made: set<Connection>  // every handle ever allocated

    function Current(): Params
      reads this
    {
      Params(dbType, dbUser, dbPass, dbHost, dbPort, dbName, dbSSLMode)
    }

    /** Exactly `db` and `db2` are alive. */
    ghost predicate TwoAlive()
      reads this, made
    {
      && {db, db2} <= made && db != db2
      && (forall c <- made :: !c.freed <==> c == db || c == db2)
    }

    /** The two live handles are of the kind `dbType` names and connected with the
        current parameters. */
    ghost predicate Valid()
      reads this, made
    {
      && TwoAlive()
      && Consistent(Current())
      && Some(db.kind) == Some(db2.kind) == KindOf(dbType)
      && db.target == db2.target == Some(Current())
    }

    constructor (cfg: Config, present: string -> bool)
      ensures Valid() && fresh(made) && this.present == present
      ensures Current() == StartParams(cfg)
      ensures initialised == if dbType == "sqlite" && !present(dbName) then [dbName] else []
    {
      var p, sqlitePath := ReadSettings(NOTHING, cfg, DEFAULT_SQLITE_PATH);
      var first, second, known := MakePair(p.dbType);
      if !known {
        p := SqliteAt(sqlitePath);
      }
      var needInit := p.dbType == "sqlite" && !present(p.name);
      first.Connect(p);
      second.Connect(p);
      this.present := present;
      dbType, dbUser, dbPass, dbHost := p.dbType, p.user, p.pass, p.host;
      dbPort, dbName, dbSSLMode := p.port, p.name, p.sslMode;
      db, db2, made := first, second, {first, second};
      initialised := if p.dbType == "sqlite" && needInit then [p.name] else [];
    }

    /** Frees both handles and allocates two of the wanted type. */
    method Replace(wanted: string) returns (known: bool)
      requires TwoAlive()
      modifies this`db, this`db2, this`made, db, db2
      ensures TwoAlive() && old(made) <= made && fresh(made - old(made)) && fresh({db, db2})
      ensures old(db).freed && old(db2).freed
      ensures known == KindOf(wanted).Some?
      ensures db.kind == db2.kind == if known then KindOf(wanted).value else SQLite
    {
      db.Disconnect();
      db.Free();
      db2.Disconnect();
      db2.Free();
      db, db2, known := MakePair(wanted);
      made := made + {db, db2};
    }

    /** Stores the new settings and connects both handles with them. */
    method Reconnect(p: Params)
      requires TwoAlive() && dbType == p.dbType
      modifies this`dbUser, this`dbPass, this`dbHost, this`dbPort, this`dbName, this`dbSSLMode, db, db2
      ensures TwoAlive() && Current() == p && db.target == db2.target == Some(p)
    {
      dbUser, dbPass, dbHost, dbPort, dbName, dbSSLMode := p.user, p.pass, p.host, p.port, p.name, p.sslMode;
      db.Connect(p);
      db2.Connect(p);
    }

    /** Gives the asked-for type its handles. The handles stay the same objects exactly when
        the type stays; a type that differs, an unknown one included, gets new ones, and an
        unknown type falls back to sqlite. */
    method SwitchTo(asked: Params, sqlitePath: string) returns (p: Params, needInit: bool)
      requires Valid()
      modifies this`db, this`db2, this`made, this`dbType, db, db2
      ensures TwoAlive() && old(made) <= made && fresh(made - old(made))
      ensures if asked.dbType == old(dbType) then db == old(db) && db2 == old(db2) && made == old(made)
              else fresh({db, db2}) && old(db).freed && old(db2).freed
      ensures p == (if KindOf(asked.dbType).Some? then asked else SqliteAt(sqlitePath)) && dbType == p.dbType
      ensures needInit <==> p.dbType == "sqlite" && !present(p.name)
      ensures Some(db.kind) == Some(db2.kind) == KindOf(dbType)
    {
      p := asked;
      needInit := p.dbType == "sqlite" && !present(p.name);
      if p.dbType != dbType {
        var known := Replace(p.dbType);
        if !known {
          p := SqliteAt(sqlitePath);
          if !present(p.name) {
            needInit := true;
          }
        }
        dbType := p.dbType;
      } else {
        db.Disconnect();
        db2.Disconnect();
      }
    }

    /** The reload branch. `file` is None when the configuration cannot be loaded. */
    method Reload(file: Option<Config>)
      requires Valid()
      modifies this, db, db2
      ensures Valid() && old(made) <= made && fresh(made - old(made))
      ensures Current() == TryReload(old(Current()), file)
      ensures file.None? ==> unchanged(this) && unchanged(db) && unchanged(db2)
      ensures file.Some? && dbType == "sqlite" && !present(dbName) ==> initialised == old(initialised) + [dbName]
      ensures file.None? || dbType != "sqlite" || present(dbName) ==> initialised == old(initialised)
      ensures dbType != old(dbType) ==> old(db).freed && old(db2).freed
    {
      if file.None? {
        return;
      }
      var asked, sqlitePath := ReadSettings(Current(), file.value, dbName);
      var p, needInit := SwitchTo(asked, sqlitePath);
      Reconnect(p);
      if needInit && dbType == "sqlite" {
        initialised := initialised + [dbName];
      }
    }

    /** The end of the control loop: no handle survives. */
    method Shutdown()
      requires Valid()
      modifies db, db2
      ensures forall c <- made :: c.freed
      ensures db.target == None && db2.target == None
    {
      db.Disconnect();
      db.Free();
      db2.Disconnect();
      db2.Free();
    }
  }
}
