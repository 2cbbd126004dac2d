/** Redis values, stores and commands, as far as the primary/backup client depends on them. */
module RedisStore {

  datatype Value =
    | Absent
    | Text(text: string)
    | Hash(fields: map<string, string>)
    | List(items: seq<string>)
    | Set(members: set<string>)
    | Other(kind: string)

  type Store = map<string, Value>

  /** A command works on one key. */
  datatype Command = Command(name: string, key: string, args: seq<string>)

  datatype Effect = Effect(value: Value, reply: string)

  /** The method names the client repeats on the backup. */
  const MUTATING: set<string> := {
    "append", "decr", "decrby", "del", "eval", "expire", "expireat", "flushall", "flushdb", "getdel",
    "hdel", "hincrby", "hincrbyfloat", "hset", "incr", "incrby", "incrbyfloat", "lpop", "lpush",
    "lrem", "lset", "ltrim", "mset", "persist", "pexpire", "pexpireat", "rename", "renamenx", "rpop",
    "rpush", "sadd", "set", "setbit", "setex", "setnx", "srem", "unlink", "zadd", "zincrby", "zrem"
  }

  predicate Mutates(c: Command) {
    c.name in MUTATING
  }

  function At(s: Store, key: string): Value {
    if key in s then s[key] else Absent
  }

  /** Commands that are not repeated on the backup change nothing. */
  ghost predicate ListIsComplete(exec: (Command, Value) -> Effect) {
    forall c, v :: !Mutates(c) ==> exec(c, v).value == v
  }

  function Applied(exec: (Command, Value) -> Effect, s: Store, c: Command): Store {
    s[c.key := exec(c, At(s, c.key)).value]
  }

  function Reply(exec: (Command, Value) -> Effect, s: Store, c: Command): string {
    exec(c, At(s, c.key)).reply
  }

  ghost predicate SameStore(a: Store, b: Store) {
    forall k :: At(a, k) == At(b, k)
  }

  lemma SameStoreEffect(exec: (Command, Value) -> Effect, a: Store, b: Store, c: Command)
    requires SameStore(a, b)
    ensures Reply(exec, a, c) == Reply(exec, b, c) && SameStore(Applied(exec, a, c), Applied(exec, b, c))
  {
    assert At(a, c.key) == At(b, c.key);
    forall k ensures At(Applied(exec, a, c), k) == At(Applied(exec, b, c), k) {
      assert At(a, k) == At(b, k);
    }
  }

  lemma NoEffect(exec: (Command, Value) -> Effect, s: Store, c: Command)
    requires ListIsComplete(exec) && !Mutates(c)
    ensures SameStore(s, Applied(exec, s, c))
  {
    hide Mutates;
    forall k ensures At(s, k) == At(Applied(exec, s, c), k) {
      assert exec(c, At(s, c.key)).value == At(s, c.key);
    }
  }

  lemma SameStoreTransitive(a: Store, b: Store, c: Store)
    requires SameStore(a, b) && SameStore(b, c)
    ensures SameStore(a, c)
  {
    forall k ensures At(a, k) == At(c, k) {
      assert At(a, k) == At(b, k);
    }
  }

  lemma SameStoreReflexive(a: Store)
    ensures SameStore(a, a)
  {
  }

  lemma SameStoreSymmetric(a: Store, b: Store)
    requires SameStore(a, b)
    ensures SameStore(b, a)
  {
    forall k ensures At(b, k) == At(a, k) {
      assert At(a, k) == At(b, k);
    }
  }

  // ---- Choosing a side ----

  /** `shouldUseRedisBackup`. */
  predicate UseBackup(unavailableUntil: int, marker: bool, now: int) {
    unavailableUntil > now || marker
  }

  /** The clock is read twice: by the first reading a raised flag saves fetching the marker, and by the second one the
      side is chosen, without a marker if none was fetched. */
  predicate ChoosesBackup(unavailableUntil: int, marker: bool, now: int, later: int) {
    UseBackup(unavailableUntil, unavailableUntil <= now && marker, later)
  }

  /** The flag is up at the first reading and down at the second. */
  predicate RunsOut(unavailableUntil: int, now: int, later: int) {
    now < unavailableUntil <= later
  }
}
