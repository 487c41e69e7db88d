/** The routing tables: which commands a replica may serve, which are mirrored, and which pin the session. */
module Router {
  import opened Commands

  /** The table a replica serves from. */
  predicate ReadOnly(cmd: string) {
    || cmd in { "PING", "ECHO", "SELECT", "AUTH", "HELLO", "QUIT" }
    || cmd in { "EXISTS", "TYPE", "TTL", "PTTL", "EXPIRETIME", "PEXPIRETIME", "KEYS", "SCAN", "RANDOMKEY",
       "DUMP", "TOUCH", "OBJECT", "MEMORY" }
    || cmd in { "GET", "MGET", "GETRANGE", "SUBSTR", "STRLEN", "LCS" }
    || cmd in { "GETBIT", "BITCOUNT", "BITPOS", "BITFIELD_RO" }
    || cmd in { "HGET", "HMGET", "HGETALL", "HKEYS", "HVALS", "HLEN", "HEXISTS", "HSTRLEN", "HSCAN",
       "HRANDFIELD", "HTTL", "HPTTL", "HEXPIRETIME", "HPEXPIRETIME" }
    || cmd in { "LRANGE", "LLEN", "LINDEX", "LPOS" }
    || cmd in { "SMEMBERS", "SISMEMBER", "SMISMEMBER", "SCARD", "SRANDMEMBER", "SSCAN", "SINTER", "SUNION",
       "SDIFF", "SINTERCARD" }
    || cmd in { "ZRANGE", "ZRANGEBYSCORE", "ZRANGEBYLEX", "ZREVRANGE", "ZREVRANGEBYSCORE", "ZREVRANGEBYLEX",
       "ZCARD", "ZCOUNT", "ZLEXCOUNT", "ZSCORE", "ZMSCORE", "ZRANK", "ZREVRANK", "ZSCAN", "ZRANDMEMBER",
       "ZDIFF", "ZINTER", "ZUNION", "ZINTERCARD" }
    || cmd in { "PFCOUNT" }
    || cmd in { "GEOPOS", "GEODIST", "GEOHASH", "GEOSEARCH", "GEORADIUS_RO", "GEORADIUSBYMEMBER_RO" }
    || cmd in { "XRANGE", "XREVRANGE", "XLEN", "XREAD", "XINFO", "XPENDING" }
    || cmd in { "SORT_RO" }
    || cmd in { "EVAL_RO", "EVALSHA_RO", "FCALL_RO" }
    || cmd in { "SUBSCRIBE", "UNSUBSCRIBE", "PSUBSCRIBE", "PUNSUBSCRIBE", "SSUBSCRIBE", "SUNSUBSCRIBE", "PUBSUB"
       }
    || cmd in { "INFO", "TIME", "DBSIZE", "COMMAND", "LASTSAVE", "LOLWUT" }
    || cmd in { "JSON.GET", "JSON.MGET", "JSON.TYPE", "JSON.STRLEN", "JSON.ARRLEN", "JSON.ARRINDEX",
       "JSON.OBJKEYS", "JSON.OBJLEN", "JSON.DEBUG", "JSON.RESP" }
    || cmd in { "FT.SEARCH", "FT.AGGREGATE", "FT.EXPLAIN", "FT.EXPLAINCLI", "FT.INFO", "FT.PROFILE",
       "FT.TAGVALS", "FT.SPELLCHECK", "FT.SUGGET", "FT.SUGLEN", "FT.DICTDUMP", "FT.SYNDUMP", "FT._LIST" }
    || cmd in { "BF.EXISTS", "BF.MEXISTS", "BF.INFO", "BF.CARD", "BF.SCANDUMP" }
    || cmd in { "CF.EXISTS", "CF.MEXISTS", "CF.COUNT", "CF.INFO", "CF.SCANDUMP" }
    || cmd in { "CMS.QUERY", "CMS.INFO" }
    || cmd in { "TOPK.QUERY", "TOPK.COUNT", "TOPK.LIST", "TOPK.INFO" }
    || cmd in { "TDIGEST.QUANTILE", "TDIGEST.CDF", "TDIGEST.MIN", "TDIGEST.MAX", "TDIGEST.RANK",
       "TDIGEST.REVRANK", "TDIGEST.BYRANK", "TDIGEST.BYREVRANK", "TDIGEST.TRIMMED_MEAN", "TDIGEST.INFO" }
    || cmd in { "TS.GET", "TS.MGET", "TS.RANGE", "TS.REVRANGE", "TS.MRANGE", "TS.MREVRANGE", "TS.INFO",
       "TS.QUERYINDEX" }
    || cmd in { "GRAPH.RO_QUERY", "GRAPH.EXPLAIN", "GRAPH.LIST", "GRAPH.SLOWLOG" }
  }

  datatype Direction = Read | Write

  function GetDirection(fold: Fold, cmd: string): Direction {
    if ReadOnly(Upper(fold, cmd)) then Read else Write
  }

  /** Mirrored: their effect is on the connection, and the session has two of them. */
  predicate IsState(name: string) { name in {"AUTH", "HELLO", "SELECT", "RESET", "CLIENT"} }

  predicate IsSubscription(name: string) {
    name in {"SUBSCRIBE", "PSUBSCRIBE", "SSUBSCRIBE", "UNSUBSCRIBE", "PUNSUBSCRIBE", "SUNSUBSCRIBE"}
  }

  /** From such a command on the session belongs to the master: replies no longer pair up with commands. */
  predicate IsPin(name: string) { IsSubscription(name) || name in {"MULTI", "WATCH", "MONITOR"} }

  datatype Route = Drop | Pin | Mirror | ToMaster | ToReplica

  /** The order of the tests in the session loop; it is what keeps listed subscriptions off the replica. */
  function RouteOf(fold: Fold, name: string, hasReplica: bool): Route {
    if name == "" then Drop
    else if IsPin(name) then Pin
    else if IsState(name) then if hasReplica then Mirror else ToMaster
    else if hasReplica && GetDirection(fold, name) == Read then ToReplica
    else ToMaster
  }

  /** The tables overlap, so the order of the tests matters: every subscription is listed as read-only too. */
  lemma SubscriptionsAreListed(fold: Fold, name: string, hasReplica: bool)
    requires IsSubscription(name)
    ensures ReadOnly(name) && GetDirection(fold, name) == Read && RouteOf(fold, name, hasReplica) == Pin
  {
    hide ReadOnly;
    ListsSubscriptions(name);
    UpperKeeps(fold, name);
  }

  lemma UpperKeeps(fold: Fold, name: string)
    requires forall c :: c in name ==> 'A' <= c <= 'Z'
    ensures Upper(fold, name) == name
  {
    assert forall i :: 0 <= i < |name| ==> name[i] in name;
  }

  lemma ListsSubscriptions(name: string)
    requires IsSubscription(name)
    ensures ReadOnly(name) && forall c :: c in name ==> 'A' <= c <= 'Z'
  {
  }

  /** Lookup ignores ASCII case: a name and its upper-cased form always go the same way. */
  lemma DirectionIgnoresCase(fold: Fold, name: string)
    requires IsAscii(name)
    ensures GetDirection(fold, Upper(fold, name)) == GetDirection(fold, name)
  {
    hide ReadOnly;
    var up := Upper(fold, name);
    forall c | c in up ensures c < 128 as char && UpperAscii(c) == c {
      var i :| 0 <= i < |up| && up[i] == c;
      assert name[i] in name;
    }
    assert forall i :: 0 <= i < |up| ==> up[i] in up;
    assert Upper(fold, up) == up;
  }
}
