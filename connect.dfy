/** `Database.connect`: how the connection-pool configuration is assembled from the plugin's
    database configuration, and how the storage backend is chosen from the JDBC URL.
    The pool itself, the driver subclasses and their schema set-up are not modelled. */
module Connect {
  import opened Wrappers

  datatype Backend = SQLite | MySQL | Unknown

  const SqlitePrefix: string := "jdbc:sqlite:"
  const MysqlPrefix: string := "jdbc:mysql:"
  const PoolName: string := "jecon-hikari"

  predicate StartsWith(s: string, prefix: string) {
    |prefix| <= |s| && s[..|prefix|] == prefix
  }

  /** No URL starts with both prefixes: they differ at their sixth character. */
  lemma PrefixesExclusive(url: string)
    ensures !(StartsWith(url, SqlitePrefix) && StartsWith(url, MysqlPrefix))
  {
    if StartsWith(url, SqlitePrefix) {
      assert url[5] == SqlitePrefix[5] == 's';
    }
    if StartsWith(url, MysqlPrefix) {
      assert url[5] == MysqlPrefix[5] == 'm';
    }
  }

  /** The backend chosen for a JDBC URL; every URL selects exactly one of the three. */
  function ChooseBackend(url: string): (b: Backend)
    ensures b == SQLite <==> StartsWith(url, SqlitePrefix)
    ensures b == MySQL <==> StartsWith(url, MysqlPrefix)
    ensures b == Unknown <==> !StartsWith(url, SqlitePrefix) && !StartsWith(url, MysqlPrefix)
  {
    PrefixesExclusive(url);
    if StartsWith(url, SqlitePrefix) then SQLite
    else if StartsWith(url, MysqlPrefix) then MySQL
    else Unknown
  }

  /** The five pool-tuning knobs; a value that is not positive means "keep the pool's default". */
  datatype PoolSettings = PoolSettings(
    maximumPoolSize: int,
    minimumIdle: int,
    maxLifetime: int,
    connectionTimeout: int,
    idleTimeout: int)

  /** `applied` is what the pool ends up with for one knob. */
  predicate PassedThrough(configured: int, default: int, applied: int) {
    applied == if configured > 0 then configured else default
  }

  /** The pool settings after the five guarded setter calls on a fresh pool configuration. */
  function ApplyPoolSettings(defaults: PoolSettings, configured: PoolSettings): (r: PoolSettings)
    ensures PassedThrough(configured.maximumPoolSize, defaults.maximumPoolSize, r.maximumPoolSize)
    ensures PassedThrough(configured.minimumIdle, defaults.minimumIdle, r.minimumIdle)
    ensures PassedThrough(configured.maxLifetime, defaults.maxLifetime, r.maxLifetime)
    ensures PassedThrough(configured.connectionTimeout, defaults.connectionTimeout, r.connectionTimeout)
    ensures PassedThrough(configured.idleTimeout, defaults.idleTimeout, r.idleTimeout)
  {
    var s := defaults;
    var s := if configured.maximumPoolSize > 0 then s.(maximumPoolSize := configured.maximumPoolSize) else s;
    var s := if configured.minimumIdle > 0 then s.(minimumIdle := configured.minimumIdle) else s;
    var s := if configured.maxLifetime > 0 then s.(maxLifetime := configured.maxLifetime) else s;
    var s := if configured.connectionTimeout > 0 then s.(connectionTimeout := configured.connectionTimeout) else s;
    var s := if configured.idleTimeout > 0 then s.(idleTimeout := configured.idleTimeout) else s;
    s
  }

  /** Two configurations that agree on their positive knobs give the same pool: the value of a
      knob that is not positive (the "-1 = default" sentinel or any other) is never seen. */
  lemma NonPositiveSettingsIgnored(defaults: PoolSettings, c1: PoolSettings, c2: PoolSettings)
    requires c1.maximumPoolSize > 0 || c2.maximumPoolSize > 0 ==> c1.maximumPoolSize == c2.maximumPoolSize
    requires c1.minimumIdle > 0 || c2.minimumIdle > 0 ==> c1.minimumIdle == c2.minimumIdle
    requires c1.maxLifetime > 0 || c2.maxLifetime > 0 ==> c1.maxLifetime == c2.maxLifetime
    requires c1.connectionTimeout > 0 || c2.connectionTimeout > 0 ==> c1.connectionTimeout == c2.connectionTimeout
    requires c1.idleTimeout > 0 || c2.idleTimeout > 0 ==> c1.idleTimeout == c2.idleTimeout
    ensures ApplyPoolSettings(defaults, c1) == ApplyPoolSettings(defaults, c2)
  {
  }

  /** Applying a pool configuration on top of its own result changes nothing further. */
  lemma ApplyPoolSettingsIdempotent(defaults: PoolSettings, configured: PoolSettings)
    ensures ApplyPoolSettings(ApplyPoolSettings(defaults, configured), configured)
         == ApplyPoolSettings(defaults, configured)
  {
  }

  /** The database section of the plugin configuration. */
  datatype DatabaseConfig = DatabaseConfig(
    url: string,
    init: string,
    properties: map<string, string>,
    username: string,
    password: string,
    pool: PoolSettings)

  /** The pool configuration handed to the connection pool. Credentials are absent unless set. */
  datatype HikariConfig = HikariConfig(
    jdbcUrl: string,
    poolName: string,
    autoCommit: bool,
    connectionInitSql: string,
    dataSourceProperties: map<string, string>,
    pool: PoolSettings,
    username: Option<string>,
    password: Option<string>)

  datatype ConnectError = UnknownJdbc   // IllegalArgumentException("Unknown jdbc")

  /** A connected ledger: the backend it talks to and how its pool was configured. */
  datatype Connection = Connection(backend: Backend, hikari: HikariConfig)

  /** `connect` up to the point where the pool is opened. `defaults` are the pool library's own
      defaults, which the model does not fix. */
  function Connect(config: DatabaseConfig, defaults: PoolSettings): (r: Result<Connection, ConnectError>)
    ensures r.Err? <==> ChooseBackend(config.url) == Unknown
    ensures r.Ok? ==> r.value.backend == ChooseBackend(config.url) && r.value.backend != Unknown
    ensures r.Ok? ==> r.value.hikari.jdbcUrl == config.url && r.value.hikari.poolName == PoolName
    ensures r.Ok? ==> r.value.hikari.autoCommit
    ensures r.Ok? ==> r.value.hikari.connectionInitSql == config.init
    ensures r.Ok? ==> r.value.hikari.dataSourceProperties == config.properties
    ensures r.Ok? ==> r.value.hikari.pool == ApplyPoolSettings(defaults, config.pool)
    ensures r.Ok? ==> (r.value.hikari.username.Some? <==> r.value.backend == MySQL)
    ensures r.Ok? && r.value.backend == MySQL ==>
              r.value.hikari.username == Some(config.username) && r.value.hikari.password == Some(config.password)
    ensures r.Ok? && r.value.backend == SQLite ==>
              r.value.hikari.username == None && r.value.hikari.password == None
  {
    var hikari := HikariConfig(config.url, PoolName, true, config.init, config.properties,
                               ApplyPoolSettings(defaults, config.pool), None, None);
    match ChooseBackend(config.url)
    case SQLite => Ok(Connection(SQLite, hikari))
    case MySQL => Ok(Connection(MySQL, hikari.(username := Some(config.username), password := Some(config.password))))
    case Unknown => Err(UnknownJdbc)
  }
}
