/**
  The settings store: a cache over a persistent key/value file in which some
  values are encrypted. Seen from outside it is a plain map, also across
  restarts of the application.
*/
module SecureSettings {
  import opened Net

  /** A stored value; byte arrays may be cipher text. */
  datatype Value = Invalid | Bytes(data: string) | Text(text: string) | Flag(flag: bool) | Number(number: int)

  const MAGIC := "EncData"
  const SERVERS := "Servers/serversList"
  const MIGRATED := "Conf/encrypted"
  const UUID := "Conf/installationUuid"

  /** The keys whose values are encrypted. */
  const ENCRYPTED := {SERVERS}

  datatype Crypto = Crypto(
    encrypt: string -> string, decrypt: string -> string, pack: Value -> string, unpack: string -> Value)

  /** The platform: whether it encrypts, whether its key chain yields a key, and the cipher. */
  datatype Platform = Platform(required: bool, hasKey: bool, crypto: Crypto)

  /** Decryption undoes encryption and unpacking undoes packing. */
  ghost predicate Honest(c: Crypto) {
    (forall b :: c.decrypt(c.encrypt(b)) == b) && forall v :: c.unpack(c.pack(v)) == v
  }

  predicate IsMagic(v: Value) {
    v.Bytes? && MAGIC <= v.data
  }

  function Seal(c: Crypto, v: Value): Value {
    Bytes(MAGIC + c.encrypt(c.pack(v)))
  }

  /** What a stored value means. */
  function Decoded(env: Platform, v: Value): Value {
    if !IsMagic(v) then v
    else if env.hasKey then env.crypto.unpack(env.crypto.decrypt(v.data[|MAGIC|..]))
    else Invalid
  }

  lemma SealDecodes(env: Platform, v: Value)
    requires Honest(env.crypto) && env.hasKey
    ensures IsMagic(Seal(env.crypto, v)) && Decoded(env, Seal(env.crypto, v)) == v
  {
  }

  datatype State = State(store: map<string, Value>, cache: map<string, Value>)

  /** The plain map the store stands for. */
  function View(env: Platform, s: State): map<string, Value> {
    map k | k in s.store :: Decoded(env, s.store[k])
  }

  /** The cache holds decoded values of the store. */
  predicate Agrees(env: Platform, s: State) {
    forall k <- s.cache :: k in s.store && s.cache[k] == Decoded(env, s.store[k])
  }

  function Lookup(m: map<string, Value>, k: string, default: Value): Value {
    if k in m then m[k] else default
  }

  // ----- Operations -----

  function Get(env: Platform, s: State, k: string, default: Value): (Value, State) {
    if k in s.cache then (s.cache[k], s)
    else if k !in s.store then (default, s)
    else if IsMagic(s.store[k]) && !env.hasKey then (Invalid, s)
    else
      var v := Decoded(env, s.store[k]);
      (v, s.(cache := s.cache[k := v]))
  }

  predicate Seals(env: Platform, k: string) {
    env.required && k in ENCRYPTED
  }

  predicate Refused(env: Platform, k: string) {
    Seals(env, k) && !env.hasKey
  }

  function Set(env: Platform, s: State, k: string, v: Value): State {
    if Refused(env, k) then s
    else State(s.store[k := if Seals(env, k) then Seal(env.crypto, v) else v], s.cache[k := v])
  }

  /** A key inside the group that another key names. */
  predicate Under(group: string, k: string) {
    group + "/" <= k
  }

  /** The file drops the whole group, the cache only the key. */
  function Remove(s: State, k: string): State {
    State(map x | x in s.store && x != k && !Under(k, x) :: s.store[x], s.cache - {k})
  }

  function IsTrue(v: Value): bool {
    match v
    case Flag(b) => b
    case Text(t) => t != "" && t != "0" && t != "false"
    case Bytes(t) => t != "" && t != "0" && t != "false"
    case Number(n) => n != 0
    case Invalid => false
  }

  predicate MustMigrate(env: Platform, store: map<string, Value>) {
    env.required && !IsTrue(Lookup(store, MIGRATED, Invalid))
  }

  /** Re-writes the encrypted keys and marks the file as migrated. */
  function Migrate(env: Platform, s: State): State {
    var t := if SERVERS in s.store
             then var (v, u) := Get(env, s, SERVERS, Invalid); Set(env, u, SERVERS, v)
             else s;
    t.(store := t.store[MIGRATED := Flag(true)])
  }

  /** A new process over the file that the last one left. */
  function Reopen(env: Platform, s: State): State {
    var t := State(s.store, map[]);
    if MustMigrate(env, t.store) then Migrate(env, t) else t
  }

  // ----- What each operation does to the view -----

  lemma GetReads(env: Platform, s: State, k: string, default: Value)
    requires Agrees(env, s)
    ensures var (v, t) := Get(env, s, k, default);
      v == Lookup(View(env, s), k, default) && t.store == s.store && Agrees(env, t)
  {
  }

  lemma SetWrites(env: Platform, s: State, k: string, v: Value)
    requires Honest(env.crypto) && Agrees(env, s) && (Seals(env, k) || !IsMagic(v))
    ensures var t := Set(env, s, k, v);
      && Agrees(env, t)
      && (if Refused(env, k) then t == s else View(env, t) == View(env, s)[k := v])
  {
    if Seals(env, k) && env.hasKey {
      SealDecodes(env, v);
    }
  }

  /** A plain value that looks encrypted is misread by the next process. */
  lemma MagicPlainValueIsLost(env: Platform, s: State, k: string, v: Value)
    requires !Seals(env, k) && IsMagic(v) && !env.hasKey
    ensures var t := Set(env, s, k, v);
      Get(env, t, k, Invalid).0 == v && !Agrees(env, t) && View(env, t)[k] == Invalid
  {
  }

  /**
    A value written in plain is read back until the next restart, and after it
    as what it decodes to: it reads the same exactly when it decodes to itself.
  */
  lemma PlainValueReadsExactly(env: Platform, s: State, k: string, v: Value, default: Value)
    requires Honest(env.crypto) && Agrees(env, s) && !Seals(env, k)
    ensures var t := Set(env, s, k, v);
      var marks := k == MIGRATED && MustMigrate(env, t.store);
      && (Agrees(env, t) <==> Decoded(env, v) == v)
      && Get(env, t, k, default).0 == v
      && Get(env, Reopen(env, t), k, default).0 == (if marks then Flag(true) else Decoded(env, v))
  {
    var t := Set(env, s, k, v);
    ReopenReads(env, t);
    GetReads(env, Reopen(env, t), k, default);
    if Decoded(env, v) != v {
      assert k in t.cache && t.cache[k] == v && t.store[k] == v;
    }
  }

  /** Removal keeps the cache in step exactly when no member of the group is cached. */
  lemma RemoveDrops(env: Platform, s: State, k: string)
    requires Agrees(env, s)
    ensures View(env, Remove(s, k)) == map x | x in View(env, s) && x != k && !Under(k, x) :: View(env, s)[x]
    ensures Agrees(env, Remove(s, k)) <==> forall x <- s.cache :: x == k || !Under(k, x)
  {
    var t := Remove(s, k);
    if x :| x in s.cache && x != k && Under(k, x) {
      assert x in t.cache && x !in t.store;
    }
  }

  /** A cached member of a removed group is still read as it was, though the file has it no more. */
  lemma RemovedMemberIsRead(env: Platform, s: State, group: string, k: string, default: Value)
    requires k in s.cache && k != group && Under(group, k)
    ensures var t := Remove(s, group);
      Get(env, t, k, default).0 == s.cache[k] && Lookup(View(env, t), k, default) == default
  {
  }

  /** Reopening changes no reading but the migration mark, and leaves the encrypted keys sealed. */
  lemma ReopenReads(env: Platform, s: State)
    requires Honest(env.crypto)
    ensures var t := Reopen(env, s);
      && Agrees(env, t)
      && View(env, t) == (if MustMigrate(env, s.store) then View(env, s)[MIGRATED := Flag(true)] else View(env, s))
      && (MustMigrate(env, s.store) && env.hasKey && SERVERS in s.store ==> IsMagic(t.store[SERVERS]))
  {
    var s0 := State(s.store, map[]);
    assert View(env, s0) == View(env, s);
    if MustMigrate(env, s.store) {
      var s1 := if SERVERS in s.store then Get(env, s0, SERVERS, Invalid).1 else s0;
      if SERVERS in s.store {
        GetReads(env, s0, SERVERS, Invalid);
        var v := Get(env, s0, SERVERS, Invalid).0;
        SetWrites(env, s1, SERVERS, v);
        var s2 := Set(env, s1, SERVERS, v);
        assert View(env, s1) == View(env, s0);
        assert View(env, s2) == View(env, s0);
        if env.hasKey {
          SealDecodes(env, v);
        }
        MarkMigrated(env, s2);
      } else {
        MarkMigrated(env, s0);
      }
    }
  }

  lemma MarkMigrated(env: Platform, s: State)
    requires Agrees(env, s) && MIGRATED !in s.cache
    ensures var t := s.(store := s.store[MIGRATED := Flag(true)]);
      Agrees(env, t) && View(env, t) == View(env, s)[MIGRATED := Flag(true)]
  {
  }

  // ----- Whole runs -----

  datatype Op =
    | GetOp(key: string, default: Value) | SetOp(key: string, value: Value)
    | RemoveOp(key: string) | ClearOp | ReopenOp

  /** The store after an operation, and what a read returns. */
  function Step(env: Platform, s: State, op: Op): (State, seq<Value>) {
    match op
    case GetOp(k, d) => (Get(env, s, k, d).1, [Get(env, s, k, d).0])
    case SetOp(k, v) => (Set(env, s, k, v), [])
    case RemoveOp(k) => (Remove(s, k), [])
    case ClearOp => (State(map[], map[]), [])
    case ReopenOp => (Reopen(env, s), [])
  }

  function Run(env: Platform, s: State, ops: seq<Op>): (State, seq<Value>)
    decreases |ops|
  {
    if ops == [] then (s, [])
    else
      var (t, out) := Step(env, s, ops[0]);
      var (u, rest) := Run(env, t, ops[1..]);
      (u, out + rest)
  }

  lemma RunOne(env: Platform, s: State, op: Op)
    ensures Run(env, s, [op]) == Step(env, s, op)
  {
    assert Run(env, Step(env, s, op).0, [op][1..]) == (Step(env, s, op).0, []);
    assert Step(env, s, op).1 + [] == Step(env, s, op).1;
  }

  /** A value written and removed with its group is read back until the next restart. */
  lemma RemovedGroupIsRead(env: Platform, v: Value)
    requires !env.required
    ensures var ops := [SetOp("Conf/dns", v), RemoveOp("Conf")];
      var s := Run(env, State(map[], map[]), ops).0;
      && Run(env, s, [GetOp("Conf/dns", Invalid)]).1 == [v]
      && Run(env, Reopen(env, s), [GetOp("Conf/dns", Invalid)]).1 == [Invalid]
  {
    var empty := State(map[], map[]);
    var ops := [SetOp("Conf/dns", v), RemoveOp("Conf")];
    var s1 := Set(env, empty, "Conf/dns", v);
    assert ops[1..] == [RemoveOp("Conf")];
    RunOne(env, s1, RemoveOp("Conf"));
    var s := Run(env, empty, ops).0;
    assert s == Remove(s1, "Conf");
    assert Under("Conf", "Conf/dns") by {
      assert "Conf/dns"[..5] == "Conf" + "/";
    }
    RemovedMemberIsRead(env, s1, "Conf", "Conf/dns", Invalid);
    RunOne(env, s, GetOp("Conf/dns", Invalid));
    RunOne(env, Reopen(env, s), GetOp("Conf/dns", Invalid));
  }

  /** The same operations on a plain map. */
  function PlainStep(env: Platform, m: map<string, Value>, marked: bool, op: Op): (map<string, Value>, seq<Value>) {
    match op
    case GetOp(k, d) => (m, [Lookup(m, k, d)])
    case SetOp(k, v) => (if Refused(env, k) then m else m[k := v], [])
    case RemoveOp(k) => (m - {k}, [])
    case ClearOp => (map[], [])
    case ReopenOp => (if marked then m else m[MIGRATED := Flag(true)], [])
  }

  /** Whether the file needs no migration, told from the plain map. */
  predicate Marked(env: Platform, m: map<string, Value>) {
    !env.required || IsTrue(Lookup(m, MIGRATED, Invalid))
  }

  function PlainRun(env: Platform, m: map<string, Value>, ops: seq<Op>): (map<string, Value>, seq<Value>)
    decreases |ops|
  {
    if ops == [] then (m, [])
    else
      var (n, out) := PlainStep(env, m, Marked(env, m), ops[0]);
      var (r, rest) := PlainRun(env, n, ops[1..]);
      (r, out + rest)
  }

  /** No plain value looks encrypted, and only leaf keys are removed. */
  predicate Usual(env: Platform, m: map<string, Value>, op: Op) {
    match op
    case SetOp(k, v) => Seals(env, k) || !IsMagic(v)
    case RemoveOp(k) => forall x <- m :: !Under(k, x)
    case _ => true
  }

  predicate AllUsual(env: Platform, m: map<string, Value>, ops: seq<Op>)
    decreases |ops|
  {
    ops == [] ||
    (Usual(env, m, ops[0]) && AllUsual(env, PlainStep(env, m, Marked(env, m), ops[0]).0, ops[1..]))
  }

  /** The mark itself is never stored encrypted. */
  predicate PlainMark(s: State) {
    MIGRATED in s.store ==> !IsMagic(s.store[MIGRATED])
  }

  lemma StepSimulates(env: Platform, s: State, op: Op)
    requires Honest(env.crypto) && Agrees(env, s) && PlainMark(s) && Usual(env, View(env, s), op)
    ensures var (t, out) := Step(env, s, op);
      && Agrees(env, t) && PlainMark(t)
      && (View(env, t), out) == PlainStep(env, View(env, s), Marked(env, View(env, s)), op)
  {
    match op {
      case GetOp(k, d) => GetReads(env, s, k, d);
      case SetOp(k, v) =>
        assert MIGRATED !in ENCRYPTED;
        SetWrites(env, s, k, v);
      case RemoveOp(k) =>
        RemoveDrops(env, s, k);
        assert forall x <- s.cache :: x in View(env, s);
        assert View(env, Remove(s, k)) == View(env, s) - {k};
      case ClearOp =>
      case ReopenOp =>
        ReopenReads(env, s);
        ReopenMark(env, s);
    }
  }

  lemma ReopenMark(env: Platform, s: State)
    requires PlainMark(s)
    ensures PlainMark(Reopen(env, s)) && (MustMigrate(env, s.store) <==> !Marked(env, View(env, s)))
  {
  }

  /**
    The cached, partly encrypted store is a plain map: over every sequence of
    reads, writes, leaf removals, clearings and restarts, each read returns
    what the plain map returns, and the store still stands for that map.
  */
  lemma {:induction false} StoreIsPlainMap(env: Platform, s: State, ops: seq<Op>)
    requires Honest(env.crypto) && Agrees(env, s) && PlainMark(s) && AllUsual(env, View(env, s), ops)
    ensures var (t, out) := Run(env, s, ops);
      Agrees(env, t) && (View(env, t), out) == PlainRun(env, View(env, s), ops)
    decreases |ops|
  {
    if ops != [] {
      StepSimulates(env, s, ops[0]);
      StoreIsPlainMap(env, Step(env, s, ops[0]).0, ops[1..]);
    }
  }

  // ----- Backup and restore -----

  /** Conversion of values to JSON and back. */
  datatype Codec = Codec(toJson: Value -> string, fromJson: string -> Value)

  predicate InBackup(k: string) {
    k != UUID && ("Conf/" <= k || "Servers/" <= k)
  }

  /** What a backup of a plain map holds. */
  function BackupOf(codec: Codec, m: map<string, Value>): map<string, string> {
    map k | k in m && InBackup(k) :: codec.toJson(m[k])
  }

  /** The entries of a backup that a restore writes. */
  predicate Restorable(env: Platform, k: string) {
    k != UUID && !Refused(env, k)
  }

  /** A plain map after a restore. */
  function Restored(env: Platform, codec: Codec, m: map<string, Value>, cfg: map<string, string>): map<string, Value> {
    m + Written(env, codec, cfg)
  }

  function Written(env: Platform, codec: Codec, cfg: map<string, string>): map<string, Value> {
    map k | k in cfg && Restorable(env, k) :: codec.fromJson(cfg[k])
  }

  /** Conversion from JSON yields no byte arrays; byte arrays travel as text. */
  ghost predicate Textual(codec: Codec) {
    forall j :: !codec.fromJson(j).Bytes?
  }

  /** Values that every reader converts to the same thing. */
  predicate Like(v: Value, w: Value) {
    v == w || (v.Text? && w.Bytes? && v.text == w.data)
  }

  /** Values that survive conversion. */
  predicate Representable(codec: Codec, m: map<string, Value>) {
    forall k <- m :: InBackup(k) ==> Like(codec.fromJson(codec.toJson(m[k])), m[k])
  }

  /**
    Restoring a backup of `m` over `n`: every backed-up key that may be written
    reads as in `m`, the installation identity and every other key stay as in
    `n`, and restoring twice is restoring once.
  */
  lemma BackupThenRestore(env: Platform, codec: Codec, m: map<string, Value>, n: map<string, Value>)
    requires Representable(codec, m)
    ensures var cfg := BackupOf(codec, m);
      var r := Restored(env, codec, n, cfg);
      && (forall k <- m :: InBackup(k) && !Refused(env, k) ==> k in r && Like(r[k], m[k]))
      && (forall k :: k !in cfg || Refused(env, k) ==> (k in r <==> k in n) && (k in n ==> r[k] == n[k]))
      && (UUID in r <==> UUID in n) && (UUID in n ==> r[UUID] == n[UUID])
      && Restored(env, codec, r, cfg) == r
  {
  }

  lemma RestoredGrows(env: Platform, codec: Codec, m: map<string, Value>, cfg: map<string, string>,
                      key: string, json: string)
    requires key !in cfg
    ensures Restored(env, codec, m, cfg[key := json]) ==
            if Restorable(env, key) then Restored(env, codec, m, cfg)[key := codec.fromJson(json)]
            else Restored(env, codec, m, cfg)
  {
    assert Written(env, codec, cfg[key := json]) ==
           if Restorable(env, key) then Written(env, codec, cfg)[key := codec.fromJson(json)]
           else Written(env, codec, cfg);
  }

  /** One more entry of the backup written. */
  lemma RestoreStep(env: Platform, codec: Codec, s: State, m: map<string, Value>, cfg: map<string, string>,
                    todo: set<string>, key: string)
    requires Honest(env.crypto) && Textual(codec) && Agrees(env, s)
    requires key in todo && todo <= cfg.Keys
    requires View(env, s) == Restored(env, codec, m, cfg - todo)
    ensures var t := if key == UUID then s else Set(env, s, key, codec.fromJson(cfg[key]));
      Agrees(env, t) && View(env, t) == Restored(env, codec, m, cfg - (todo - {key}))
  {
    RestoredGrows(env, codec, m, cfg - todo, key, cfg[key]);
    assert cfg - (todo - {key}) == (cfg - todo)[key := cfg[key]];
    SetWrites(env, s, key, codec.fromJson(cfg[key]));
  }

  /** The store as the object that the application uses. */
  class SecureQSettings {
    const env: Platform
    var store: map<string, Value>
    var cache: map<string, Value>

    ghost function Contents(): State
      reads this
    {
      State(store, cache)
    }

    constructor (env: Platform, file: map<string, Value>)
      ensures this.env == env
      ensures Contents() == Reopen(env, State(file, map[]))
    {
      this.env := env;
      store, cache := file, map[];
      new;
      var encrypted := IsTrue(Lookup(store, MIGRATED, Invalid));
      if env.required && !encrypted {
        ghost var start := Contents();
        var todo := store.Keys;
        while todo != {}
          invariant todo <= start.store.Keys
          invariant store.Keys == start.store.Keys
          invariant if SERVERS in todo || SERVERS !in start.store then Contents() == start
                    else var (v, u) := Get(env, start, SERVERS, Invalid);
                         Contents() == Set(env, u, SERVERS, v)
          decreases todo
        {
          var key :| key in todo;
          todo := todo - {key};
          if key in ENCRYPTED {
            var val := Value(key, Invalid);
            SetValue(key, val);
          }
        }
        store := store[MIGRATED := Flag(true)];
      }
    }

    method Value(key: string, default: Value) returns (v: Value)
      modifies this`cache
      ensures (v, Contents()) == Get(env, old(Contents()), key, default)
    {
      if key in cache {
        return cache[key];
      }
      if key !in store {
        return default;
      }
      v := store[key];
      if v.Bytes? && MAGIC <= v.data {
        if !env.hasKey {
          return Invalid;
        }
        v := env.crypto.unpack(env.crypto.decrypt(v.data[|MAGIC|..]));
      }
      cache := cache[key := v];
    }

    method SetValue(key: string, value: Value)
      modifies this
      ensures Contents() == Set(env, old(Contents()), key, value)
    {
      if env.required && key in ENCRYPTED {
        if !env.hasKey {
          return;
        }
        store := store[key := Bytes(MAGIC + env.crypto.encrypt(env.crypto.pack(value)))];
      } else {
        store := store[key := value];
      }
      cache := cache[key := value];
    }

    method RemoveKey(key: string)
      modifies this
      ensures Contents() == Remove(old(Contents()), key)
    {
      store := map x | x in store && x != key && !(key + "/" <= x) :: store[x];
      cache := cache - {key};
    }

    method ClearSettings()
      modifies this
      ensures Contents() == State(map[], map[])
    {
      store := map[];
      cache := map[];
    }

    /** Collects every key to back up, whatever order the file lists them in. */
    method BackupAppConfig(codec: Codec) returns (cfg: map<string, string>)
      requires Agrees(env, Contents())
      modifies this`cache
      ensures cfg == BackupOf(codec, View(env, old(Contents())))
      ensures Agrees(env, Contents())
    {
      cfg := map[];
      var todo := store.Keys;
      while todo != {}
        invariant todo <= store.Keys && Agrees(env, Contents())
        invariant cfg == map k | k in store && k !in todo && InBackup(k) :: codec.toJson(Decoded(env, store[k]))
        decreases todo
      {
        var key :| key in todo;
        todo := todo - {key};
        if !InBackup(key) {
          continue;
        }
        GetReads(env, Contents(), key, Invalid);
        var v := Value(key, Invalid);
        cfg := cfg[key := codec.toJson(v)];
      }
    }

    method RestoreAppConfig(codec: Codec, cfg: map<string, string>) returns (ok: bool)
      requires Honest(env.crypto) && Textual(codec) && Agrees(env, Contents())
      modifies this
      ensures ok <==> cfg != map[]
      ensures !ok ==> Contents() == old(Contents())
      ensures Agrees(env, Contents())
      ensures View(env, Contents()) == Restored(env, codec, View(env, old(Contents())), cfg)
    {
      if cfg == map[] {
        return false;
      }
      ghost var m := View(env, Contents());
      var todo := cfg.Keys;
      while todo != {}
        invariant todo <= cfg.Keys && Agrees(env, Contents())
        invariant View(env, Contents()) == Restored(env, codec, m, cfg - todo)
        decreases todo
      {
        var key :| key in todo;
        RestoreStep(env, codec, Contents(), m, cfg, todo, key);
        todo := todo - {key};
        if key == UUID {
          continue;
        }
        SetValue(key, codec.fromJson(cfg[key]));
      }
      assert cfg - todo == cfg;
      ok := true;
    }
  }
}
