/** The connection specifications and defaults of db/types.go. */
module DbTypes {
  import opened Common

  const DefaultMysqlPoolSize: int := 500
  const DefaultRedisPoolSize: int := 500

  datatype MysqlSpec = MysqlSpec(
    addr: string,
    user: string,
    passwd: string,
    dbName: string,
    pool: int,
    debug: bool)

  /** A MySQL group: the master is mandatory, the slave optional (nil pointers become `None`). */
  datatype MysqlGroup = MysqlGroup(master: Option<MysqlSpec>, slave: Option<MysqlSpec>)

  datatype RedisSpec = RedisSpec(addr: string, pool: int, db: int)
}
