/**
 * What the constructor makes of the configuration array: the defaults it
 * fills in, the port it reads out of the host, the PDO data source name it
 * builds for each driver, and the statements it sends right after connecting.
 */
module Dsn {
  import opened Wrappers
  import opened SqlText
  import opened Connection

  /**
   * The entries of the `mysql_database_config` array the constructor reads;
   * None is an entry that is absent (or null). `driverKey` is the entry
   * named `driver`, which is the one the Oracle branch consults.
   */
  datatype Config = Config(
    driver: Option<string>,
    host: Option<string>,
    port: Option<string>,
    name: Option<string>,
    driverKey: Option<string>,
    prefix: Option<string>,
    charset: Option<string>,
    collation: Option<string>)

  /** PHP's `??`: the entry when it is set, the default otherwise. */
  function Default(v: Option<string>, d: string): string
  {
    match v
    case Some(x) => x
    case None => d
  }

  function DriverOf(c: Config): string { Default(c.driver, "mysql") }
  function HostOf(c: Config): string { Default(c.host, "localhost") }
  function CharsetOf(c: Config): string { Default(c.charset, "utf8mb4") }
  function CollationOf(c: Config): string { Default(c.collation, "utf8mb4_general_ci") }
  function PrefixOf(c: Config): string { Default(c.prefix, "") }

  /**
   * db_port when it is set; otherwise, when the host holds a ':', the text
   * between the first ':' and the next one; otherwise empty.
   */
  function PortOf(c: Config): (p: string)
    ensures c.port.Some? ==> p == c.port.value
    ensures c.port.None? && ':' !in HostOf(c) ==> p == ""
    ensures c.port.None? ==> ':' !in p
    ensures c.port.None? && ':' in HostOf(c) ==>
              var host := HostOf(c);
              var k := IndexOf(host, ':');
              StartsWith(host[k + 1..], p) && (k + 1 + |p| == |host| || host[k + 1 + |p|] == ':')
  {
    match c.port
    case Some(p) => p
    case None =>
      var host := HostOf(c);
      if ':' in host then
        var k := IndexOf(host, ':');
        assert Split(host, ':')[1] == Split(host[k + 1..], ':')[0];
        SplitFirst(host[k + 1..], ':');
        Split(host, ':')[1]
      else ""
  }

  /** The drivers that get a host/port/dbname data source name. */
  const HostDrivers: seq<string> := ["", "mysql", "pgsql"]

  /**
   * The data source name handed to PDO: host-based for MySQL and
   * PostgreSQL (with any ":port" removed from the host), file-based for
   * SQLite, "oci:" for Oracle when the `driver` entry says so, and empty
   * for anything else.
   */
  function DsnText(c: Config): string
  {
    var driver := DriverOf(c);
    var host := HostOf(c);
    var port := PortOf(c);
    var name := OrEmpty(c.name);
    if driver in HostDrivers then
      driver + ":host=" + RemoveAll(host, ":" + port) + ";"
      + (if port != "" then "port=" + port + ";" else "")
      + "dbname=" + name
    else if driver == "sqlite" then "sqlite:" + name
    else if c.driverKey == Some("oracle") then "oci:dbname=" + host + "/" + name
    else ""
  }

  /** What the constructor asks of the connection: connect, then set the character set twice. */
  function ConnectActions(c: Config): (r: seq<Action>)
    ensures |r| == 3 && r[0] == Connect(DsnText(c))
    ensures r[1] == Exec("SET NAMES '" + CharsetOf(c) + "' COLLATE '" + CollationOf(c) + "'")
    ensures r[2] == Exec("SET CHARACTER SET '" + CharsetOf(c) + "'")
  {
    var names := "SET NAMES '" + CharsetOf(c) + "'";
    var charset := "SET CHARACTER SET '" + CharsetOf(c) + "'";
    var collate := " COLLATE '" + CollationOf(c) + "'";
    assert "'" + " COLLATE '" == "' COLLATE '";
    assert names + collate == "SET NAMES '" + CharsetOf(c) + ("'" + " COLLATE '") + CollationOf(c) + "'";
    [Connect(DsnText(c)), Exec(names + collate), Exec(charset)]
  }

  /** A host-based driver with no port: the host is kept whole. */
  lemma NoPortDsn(c: Config)
    requires DriverOf(c) in HostDrivers && PortOf(c) == "" && ':' !in HostOf(c)
    ensures DsnText(c) == DriverOf(c) + ":host=" + HostOf(c) + ";dbname=" + OrEmpty(c.name)
  {
    var host := HostOf(c);
    var colon := ":" + PortOf(c);
    assert colon == [':'];
    RemoveAbsent(host, colon);
  }

  /** A host-based driver with a port: the ":port" text is removed from the host and a port entry added. */
  lemma PortDsn(c: Config)
    requires DriverOf(c) in HostDrivers && PortOf(c) != ""
    ensures DsnText(c) == DriverOf(c) + ":host=" + RemoveAll(HostOf(c), ":" + PortOf(c))
                          + ";port=" + PortOf(c) + ";dbname=" + OrEmpty(c.name)
  {
  }

  /** With nothing configured but the database name: MySQL on localhost, no port. */
  lemma DefaultDsn(c: Config)
    requires c.driver.None? && c.host.None? && c.port.None?
    ensures DsnText(c) == "mysql" + ":host=" + "localhost" + ";dbname=" + OrEmpty(c.name)
  {
    var host := HostOf(c);
    assert host == ['l', 'o', 'c', 'a', 'l', 'h', 'o', 's', 't'];
    assert ':' !in host;
    NoPortDsn(c);
  }

  /** A "host:port" host with no db_port: the port is read out of the host and removed from it. */
  lemma HostPortSplit(c: Config, h: string, p: string)
    requires c.driver == Some("mysql") && c.port.None? && c.host == Some(h + ":" + p)
    requires ':' !in h && ':' !in p
    ensures PortOf(c) == p
    ensures p != "" ==> DsnText(c) == "mysql:host=" + h + ";port=" + p + ";dbname=" + OrEmpty(c.name)
  {
    PortFromHost(c, h, p);
    if p != "" {
      var colon := ":" + p;
      assert colon[0] == ':';
      assert HostOf(c) == h + colon;
      RemoveTrailing(h, colon);
      assert "mysql" in HostDrivers;
      PortDsn(c);
    }
  }

  /** The port read out of a "host:port" host is the text after the colon. */
  lemma PortFromHost(c: Config, h: string, p: string)
    requires c.port.None? && c.host == Some(h + ":" + p)
    requires ':' !in h && ':' !in p
    ensures PortOf(c) == p
  {
    var host := h + ":" + p;
    assert host == h + [':'] + p;
    SplitAround(h, p, ':');
    assert host[|h|] == ':';
  }

  /** SQLite needs only the database file name. */
  lemma SqliteDsn(c: Config)
    requires c.driver == Some("sqlite")
    ensures DsnText(c) == "sqlite:" + OrEmpty(c.name)
  {
    assert "sqlite" !in HostDrivers;
  }

  /**
   * Oracle is chosen by the `driver` entry, not by db_driver: db_driver
   * "oracle" alone yields an empty data source name.
   */
  lemma OracleNeedsDriverKey(c: Config)
    requires c.driver == Some("oracle")
    ensures c.driverKey == Some("oracle") ==> DsnText(c) == "oci:dbname=" + HostOf(c) + "/" + OrEmpty(c.name)
    ensures c.driverKey != Some("oracle") ==> DsnText(c) == ""
  {
    assert "oracle" !in HostDrivers;
  }
}
