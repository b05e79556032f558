/** A database table behind a cache, as sqlc.CachedConn presents it. The connection's
    own code is not part of this model; its assumed behaviour is: a query answers from
    the cache if it can, else from the table, and then fills the cache, with a marker
    if there is no such row; an exec runs its statement and then drops the given cache
    keys; an exec without cache touches the table only. Each operation is atomic. */
module CachedStore {

  datatype Entry<V> = Row(value: V) | Missing

  datatype Store<V> = Store(table: map<string, V>, cache: map<string, Entry<V>>)

  /** What goes wrong during one call: nothing, the database, or the dropping of the
      cache keys after a successful statement. */
  datatype Fault = Fine | DbDown | DropFails

  datatype Reply<V> = Found(value: V) | NotFound | Ok | Duplicate | Failed

  /** The model's operations; Evict stands for expiry of a cache entry at any time. */
  datatype Op<V> =
    | Insert(key: string, value: V)
    | FindOne(key: string)
    | Update(key: string, value: V)
    | Delete(key: string)
    | Evict(cacheKey: string)

  datatype Call<V> = Call(op: Op<V>, fault: Fault)

  function CacheKey(prefix: string, key: string): string {
    prefix + key
  }

  lemma KeyInjective(prefix: string, a: string, b: string)
    requires CacheKey(prefix, a) == CacheKey(prefix, b)
    ensures a == b
  {
    assert CacheKey(prefix, a)[|prefix|..] == a;
    assert CacheKey(prefix, b)[|prefix|..] == b;
  }

  // ---------------------------------------------------------- the plain table

  function Lookup<V>(table: map<string, V>, key: string): Reply<V> {
    if key in table then Found(table[key]) else NotFound
  }

  /** Statements on the table alone: the key is primary, an update or delete of an
      absent row changes nothing. */
  function Execute<V>(table: map<string, V>, op: Op<V>): (map<string, V>, Reply<V>)
    requires op.Insert? || op.Update? || op.Delete?
  {
    match op
    case Insert(k, v) => if k in table then (table, Duplicate) else (table[k := v], Ok)
    case Update(k, v) => if k in table then (table[k := v], Ok) else (table, Ok)
    case Delete(k) => (table - {k}, Ok)
  }

  // ------------------------------------------------------------ the connection

  function Query<V>(s: Store<V>, cacheKey: string, key: string, fault: Fault): (Store<V>, Reply<V>) {
    if cacheKey in s.cache then
      (s, match s.cache[cacheKey] case Row(v) => Found(v) case Missing => NotFound)
    else if fault.DbDown? then (s, Failed)
    else if key in s.table then (s.(cache := s.cache[cacheKey := Row(s.table[key])]), Found(s.table[key]))
    else (s.(cache := s.cache[cacheKey := Missing]), NotFound)
  }

  function Exec<V>(s: Store<V>, op: Op<V>, cacheKey: string, fault: Fault): (Store<V>, Reply<V>)
    requires op.Insert? || op.Update? || op.Delete?
  {
    var (table, reply) := Execute(s.table, op);
    if fault.DbDown? then (s, Failed)
    else if !reply.Ok? then (s, reply)
    else if fault.DropFails? then (s.(table := table), Failed)
    else (Store(table, s.cache - {cacheKey}), reply)
  }

  function ExecNoCache<V>(s: Store<V>, op: Op<V>, fault: Fault): (Store<V>, Reply<V>)
    requires op.Insert? || op.Update? || op.Delete?
  {
    var (table, reply) := Execute(s.table, op);
    if fault.DbDown? then (s, Failed) else (s.(table := table), reply)
  }

  /** One call on a model; `dropOnInsert` tells whether its Insert names the cache key. */
  function Apply<V>(prefix: string, dropOnInsert: bool, s: Store<V>, c: Call<V>): (Store<V>, Reply<V>) {
    match c.op
    case FindOne(k) => Query(s, CacheKey(prefix, k), k, c.fault)
    case Evict(k) => (s.(cache := s.cache - {k}), Ok)
    case Insert(k, _) =>
      if dropOnInsert then Exec(s, c.op, CacheKey(prefix, k), c.fault) else ExecNoCache(s, c.op, c.fault)
    case Update(k, _) => Exec(s, c.op, CacheKey(prefix, k), c.fault)
    case Delete(k) => Exec(s, c.op, CacheKey(prefix, k), c.fault)
  }

  function After<V>(prefix: string, dropOnInsert: bool, s: Store<V>, calls: seq<Call<V>>): Store<V>
    decreases |calls|
  {
    if calls == [] then s
    else After(prefix, dropOnInsert, Apply(prefix, dropOnInsert, s, calls[0]).0, calls[1..])
  }

  /** The connection as an object that changes in place, over a database and a cache that
      may already hold anything. */
  class CachedConn<V> {
    var table: map<string, V>
    var cache: map<string, Entry<V>>

    function View(): Store<V>
      reads this
    {
      Store(table, cache)
    }

    constructor (table: map<string, V>, cache: map<string, Entry<V>>)
      ensures View() == Store(table, cache)
    {
      this.table, this.cache := table, cache;
    }

    method QueryRow(cacheKey: string, key: string, fault: Fault) returns (r: Reply<V>)
      modifies this`cache
      ensures (View(), r) == Query(old(View()), cacheKey, key, fault)
    {
      var (s, reply) := Query(View(), cacheKey, key, fault);
      cache, r := s.cache, reply;
    }

    method ExecDropping(op: Op<V>, cacheKey: string, fault: Fault) returns (r: Reply<V>)
      requires op.Insert? || op.Update? || op.Delete?
      modifies this
      ensures (View(), r) == Exec(old(View()), op, cacheKey, fault)
    {
      var (s, reply) := Exec(View(), op, cacheKey, fault);
      table, cache, r := s.table, s.cache, reply;
    }

    method ExecBare(op: Op<V>, fault: Fault) returns (r: Reply<V>)
      requires op.Insert? || op.Update? || op.Delete?
      modifies this`table
      ensures (View(), r) == ExecNoCache(old(View()), op, fault)
    {
      var (s, reply) := ExecNoCache(View(), op, fault);
      table, r := s.table, reply;
    }
  }

  // ------------------------------------------------------------------ coherence

  /** The entry says what the table says. */
  predicate Agrees<V(==)>(table: map<string, V>, key: string, e: Entry<V>) {
    match e
    case Row(v) => key in table && table[key] == v
    case Missing => key !in table
  }

  /** What is cached for the key, if anything, is what the table says. */
  predicate CoherentAt<V(==)>(prefix: string, s: Store<V>, key: string) {
    CacheKey(prefix, key) in s.cache ==> Agrees(s.table, key, s.cache[CacheKey(prefix, key)])
  }

  ghost predicate Coherent<V>(prefix: string, s: Store<V>) {
    forall k :: CoherentAt(prefix, s, k)
  }

  /** A row cached for the key is the table's; a not-found marker may be stale. */
  predicate RowsCoherentAt<V(==)>(prefix: string, s: Store<V>, key: string) {
    CacheKey(prefix, key) in s.cache && s.cache[CacheKey(prefix, key)].Row?
    ==> Agrees(s.table, key, s.cache[CacheKey(prefix, key)])
  }

  ghost predicate RowsCoherent<V>(prefix: string, s: Store<V>) {
    forall k :: RowsCoherentAt(prefix, s, k)
  }

  /** A reply as a caller of an uncached table could have got it: a lookup answers for
      the current row, or fails only if the database is down. */
  predicate Answers<V(==)>(table: map<string, V>, c: Call<V>, r: Reply<V>) {
    match c.op
    case FindOne(k) => r == Lookup(table, k) || (c.fault.DbDown? && r.Failed?)
    case Evict(_) => r.Ok?
    case _ => r == if c.fault.DbDown? then Failed else Execute(table, c.op).1
  }

  /** The table as the call leaves it, cache or no cache. */
  function TableAfter<V>(table: map<string, V>, c: Call<V>): map<string, V> {
    if c.op.FindOne? || c.op.Evict? || c.fault.DbDown? then table else Execute(table, c.op).0
  }

  predicate Writes<V>(c: Call<V>, key: string) {
    (c.op.Insert? || c.op.Update? || c.op.Delete?) && c.op.key == key
  }

  predicate About<V>(c: Call<V>, key: string) {
    !c.op.Evict? && c.op.key == key
  }

  /** One call keeps what is cached for any key right, unless it writes that key and fails
      to drop its cache entry; it answers for the table and changes it as its statement
      does. */
  lemma CallKeepsCoherent<V>(prefix: string, s: Store<V>, c: Call<V>, key: string)
    requires CoherentAt(prefix, s, key) && !(Writes(c, key) && c.fault.DropFails?)
    ensures var (t, r) := Apply(prefix, true, s, c);
            && CoherentAt(prefix, t, key) && t.table == TableAfter(s.table, c)
            && (About(c, key) ==> Answers(s.table, c, r))
  {
    if !c.op.Evict? && CacheKey(prefix, c.op.key) == CacheKey(prefix, key) {
      KeyInjective(prefix, c.op.key, key);
    }
  }

  lemma AllKeysKept<V>(prefix: string, s: Store<V>, c: Call<V>)
    requires Coherent(prefix, s) && !c.fault.DropFails?
    ensures Coherent(prefix, Apply(prefix, true, s, c).0)
  {
    forall k ensures CoherentAt(prefix, Apply(prefix, true, s, c).0, k) {
      CallKeepsCoherent(prefix, s, c, k);
    }
  }

  /** A model that names the cache key on every write behaves like its bare table: over
      any sequence of calls, evictions and failures, from any store whose entry for a key
      is right, every call about the key is answered as the table would, if no write of
      that key failed to drop its entry. Calls about other keys may fail in any way. */
  lemma {:induction false} RefinesTable<V>(prefix: string, s: Store<V>, calls: seq<Call<V>>, key: string)
    requires CoherentAt(prefix, s, key)
    requires forall i :: 0 <= i < |calls| ==> !(Writes(calls[i], key) && calls[i].fault.DropFails?)
    ensures var t := After(prefix, true, s, calls);
            CoherentAt(prefix, t, key) && t.table == Tables(s.table, calls)
    ensures forall i :: 0 <= i < |calls| && About(calls[i], key) ==> AnsweredAt(prefix, s, calls, i)
    decreases |calls|
  {
    if calls != [] {
      var t := Apply(prefix, true, s, calls[0]).0;
      CallKeepsCoherent(prefix, s, calls[0], key);
      RefinesTable(prefix, t, calls[1..], key);
      forall i | 0 <= i < |calls| && About(calls[i], key) ensures AnsweredAt(prefix, s, calls, i) {
        if i == 0 {
          assert calls[..0] == [];
        } else {
          assert AnsweredAt(prefix, t, calls[1..], i - 1);
          assert calls[..i][1..] == calls[1..][..i - 1];
        }
      }
    }
  }

  lemma {:induction false} RowStays<V>(table: map<string, V>, calls: seq<Call<V>>, key: string)
    requires forall i :: 0 <= i < |calls| ==> !Writes(calls[i], key)
    ensures Lookup(Tables(table, calls), key) == Lookup(table, key)
    decreases |calls|
  {
    if calls != [] {
      assert !Writes(calls[0], key);
      RowStays(TableAfter(table, calls[0]), calls[1..], key);
    }
  }

  /** Read your writes, through the cache: from any store at all, after a write that went
      well and any calls that do not write the same key, a lookup finds what was inserted
      or updated and nothing that was deleted or never there; it fails only if the
      database is down. */
  lemma WriteThenFind<V>(prefix: string, s: Store<V>, op: Op<V>, calls: seq<Call<V>>, fault: Fault)
    requires (op.Insert? || op.Update? || op.Delete?) && Apply(prefix, true, s, Call(op, Fine)).1.Ok?
    requires forall i :: 0 <= i < |calls| ==> !Writes(calls[i], op.key)
    ensures var t := After(prefix, true, Apply(prefix, true, s, Call(op, Fine)).0, calls);
            var r := Apply(prefix, true, t, Call(FindOne(op.key), fault)).1;
            || r == (if op.Insert? || (op.Update? && op.key in s.table) then Found(op.value) else NotFound)
            || (fault.DbDown? && r.Failed?)
  {
    var written := Apply(prefix, true, s, Call(op, Fine)).0;
    RefinesTable(prefix, written, calls, op.key);
    RowStays(written.table, calls, op.key);
    CallKeepsCoherent(prefix, After(prefix, true, written, calls), Call(FindOne(op.key), fault), op.key);
  }

  /** The statement leaves the table as it was: an update to the same value, or an update
      or delete of a row that is not there. */
  predicate NoOp<V(==)>(table: map<string, V>, op: Op<V>) {
    match op
    case Update(k, v) => k !in table || table[k] == v
    case Delete(k) => k !in table
    case _ => false
  }

  /** If the drop after a successful write fails, what is cached for the row stays right
      exactly when nothing was cached for it or the statement changed nothing; entries of
      other rows are as right or wrong as before. */
  lemma FailedDropExact<V>(prefix: string, s: Store<V>, op: Op<V>, key: string)
    requires (op.Insert? || op.Update? || op.Delete?) && Execute(s.table, op).1.Ok?
    ensures var t := Apply(prefix, true, s, Call(op, DropFails)).0;
            && (key == op.key && CoherentAt(prefix, s, key) ==>
                  (CoherentAt(prefix, t, key) <==> CacheKey(prefix, key) !in s.cache || NoOp(s.table, op)))
            && (key != op.key ==> (CoherentAt(prefix, t, key) <==> CoherentAt(prefix, s, key)))
  {
  }

  /** The run that shows it: look a key up, insert it with a failing drop, look it up. */
  lemma FailedDropHides<V>(prefix: string, key: string, value: V)
    ensures var s := After(prefix, true, Store(map[], map[]),
                           [Call(FindOne(key), Fine), Call(Insert(key, value), DropFails)]);
            && s.table == map[key := value]
            && Apply(prefix, true, s, Call(FindOne(key), Fine)).1 == NotFound
  {
    var find, insert := Call(FindOne(key), Fine), Call(Insert(key, value), DropFails);
    var empty: Store<V> := Store(map[], map[]);
    var looked := Apply(prefix, true, empty, find).0;
    assert [find, insert][1..] == [insert] && [insert][1..] == [];
    assert After(prefix, true, looked, [insert]) == Apply(prefix, true, looked, insert).0;
  }

  function Tables<V>(table: map<string, V>, calls: seq<Call<V>>): map<string, V>
    decreases |calls|
  {
    if calls == [] then table else Tables(TableAfter(table, calls[0]), calls[1..])
  }

  /** Call i of the run is answered as the bare table, changed by the calls before it,
      would have answered. */
  ghost predicate AnsweredAt<V>(prefix: string, s: Store<V>, calls: seq<Call<V>>, i: nat)
    requires i < |calls|
  {
    Answers(Tables(s.table, calls[..i]), calls[i],
            Apply(prefix, true, After(prefix, true, s, calls[..i]), calls[i]).1)
  }

  // ------------------------------------- what a run leaves in the cache, exactly

  /** A run on a model, seen from one key. */
  datatype History<V> = History(prefix: string, dropOnInsert: bool, start: Store<V>, calls: seq<Call<V>>, key: string)

  function Now<V>(h: History<V>): Store<V> {
    After(h.prefix, h.dropOnInsert, h.start, h.calls)
  }

  /** The table before call i. */
  function TableAt<V>(h: History<V>, i: nat): map<string, V>
    requires i <= |h.calls|
  {
    Tables(h.start.table, h.calls[..i])
  }

  /** A lookup that would fill the cache. */
  predicate Fills<V(==)>(c: Call<V>, key: string) {
    c.op == FindOne(key) && !c.fault.DbDown?
  }

  /** Call m removes the key's cache entry: its expiry, or a write that goes well and
      names the cache key. */
  predicate DropsAt<V>(h: History<V>, m: nat)
    requires m < |h.calls|
  {
    var c := h.calls[m];
    || (c.op.Evict? && c.op.cacheKey == CacheKey(h.prefix, h.key))
    || (Writes(c, h.key) && c.fault.Fine? && (c.op.Insert? ==> h.dropOnInsert && h.key !in TableAt(h, m)))
  }

  /** A lookup whose entry was not dropped since. */
  ghost predicate Live<V>(h: History<V>, i: int) {
    && 0 <= i < |h.calls| && Fills(h.calls[i], h.key)
    && forall m :: i < m < |h.calls| ==> !DropsAt(h, m)
  }

  /** The lookup that made the present entry: the first one not dropped since. */
  ghost predicate FilledAt<V>(h: History<V>, i: int) {
    Live(h, i) && forall j :: 0 <= j < i ==> !Live(h, j)
  }

  function EntryFor<V>(table: map<string, V>, key: string): Entry<V> {
    if key in table then Row(table[key]) else Missing
  }

  function Shorter<V>(h: History<V>): History<V>
    requires h.calls != []
  {
    h.(calls := h.calls[..|h.calls| - 1])
  }

  lemma {:induction false} AfterSnoc<V>(prefix: string, dropOnInsert: bool, s: Store<V>, calls: seq<Call<V>>)
    requires calls != []
    ensures var n := |calls| - 1;
            After(prefix, dropOnInsert, s, calls) ==
            Apply(prefix, dropOnInsert, After(prefix, dropOnInsert, s, calls[..n]), calls[n]).0
    decreases |calls|
  {
    var n := |calls| - 1;
    if n > 0 {
      AfterSnoc(prefix, dropOnInsert, Apply(prefix, dropOnInsert, s, calls[0]).0, calls[1..]);
      assert calls[1..][..n - 1] == calls[..n][1..];
    }
  }

  lemma CallChangesTable<V>(prefix: string, dropOnInsert: bool, s: Store<V>, c: Call<V>)
    ensures Apply(prefix, dropOnInsert, s, c).0.table == TableAfter(s.table, c)
  {
  }

  /** The cache never changes what the table becomes. */
  lemma {:induction false} TableOfRun<V>(prefix: string, dropOnInsert: bool, s: Store<V>, calls: seq<Call<V>>)
    ensures After(prefix, dropOnInsert, s, calls).table == Tables(s.table, calls)
    decreases |calls|
  {
    if calls != [] {
      CallChangesTable(prefix, dropOnInsert, s, calls[0]);
      TableOfRun(prefix, dropOnInsert, Apply(prefix, dropOnInsert, s, calls[0]).0, calls[1..]);
    }
  }

  lemma LiveSnoc<V>(h: History<V>, i: int)
    requires 0 <= i < |h.calls| - 1
    ensures Live(h, i) <==> Live(Shorter(h), i) && !DropsAt(h, |h.calls| - 1)
  {
    var g := Shorter(h);
    assert forall m :: 0 <= m < |g.calls| ==> g.calls[m] == h.calls[m] && g.calls[..m] == h.calls[..m];
    assert forall m {:trigger DropsAt(g, m)} {:trigger DropsAt(h, m)} :: 0 <= m < |g.calls| ==> DropsAt(g, m) == DropsAt(h, m);
  }

  /** What one call does to the key's entry. */
  lemma EntryStep<V>(h: History<V>, s: Store<V>)
    requires h.calls != [] && s == Now(Shorter(h)) && s.table == TableAt(h, |h.calls| - 1)
    ensures var n, k := |h.calls| - 1, CacheKey(h.prefix, h.key);
            var t := Now(h);
            && (DropsAt(h, n) ==> k !in t.cache)
            && (!DropsAt(h, n) && k in s.cache ==> k in t.cache && t.cache[k] == s.cache[k])
            && (!DropsAt(h, n) && k !in s.cache && Fills(h.calls[n], h.key) ==>
                  k in t.cache && t.cache[k] == EntryFor(s.table, h.key))
            && (k !in s.cache && !Fills(h.calls[n], h.key) ==> k !in t.cache)
  {
    var c := h.calls[|h.calls| - 1];
    AfterSnoc(h.prefix, h.dropOnInsert, h.start, h.calls);
    if !c.op.Evict? && CacheKey(h.prefix, c.op.key) == CacheKey(h.prefix, h.key) {
      KeyInjective(h.prefix, c.op.key, h.key);
    }
  }

  /** Over any run, with any failures, starting with nothing cached for the key: there is
      an entry exactly if some lookup was not dropped since, and it says what the table
      said at the first such lookup. */
  lemma {:induction false} EntryExact<V>(h: History<V>)
    requires CacheKey(h.prefix, h.key) !in h.start.cache
    ensures CacheKey(h.prefix, h.key) in Now(h).cache <==> exists i :: Live(h, i)
    ensures forall i :: FilledAt(h, i) ==>
              Live(h, i) && CacheKey(h.prefix, h.key) in Now(h).cache
              && Now(h).cache[CacheKey(h.prefix, h.key)] == EntryFor(TableAt(h, i), h.key)
    decreases |h.calls|
  {
    if h.calls != [] {
      var g, n := Shorter(h), |h.calls| - 1;
      EntryExact(g);
      TableOfRun(h.prefix, h.dropOnInsert, h.start, g.calls);
      EntryStep(h, Now(g));
      forall i | 0 <= i < n ensures Live(h, i) <==> Live(g, i) && !DropsAt(h, n) {
        LiveSnoc(h, i);
      }
      assert Live(h, n) <==> Fills(h.calls[n], h.key);
      LiveCases(h);
      forall i | FilledAt(h, i)
        ensures CacheKey(h.prefix, h.key) in Now(h).cache
                && Now(h).cache[CacheKey(h.prefix, h.key)] == EntryFor(TableAt(h, i), h.key)
      {
        if i < n {
          assert g.calls[..i] == h.calls[..i] && FilledAt(g, i);
        }
      }
    }
  }

  lemma LiveCases<V>(h: History<V>)
    requires h.calls != []
    ensures var n := |h.calls| - 1;
            (exists i :: Live(h, i)) <==>
              (!DropsAt(h, n) && exists i :: Live(Shorter(h), i)) || Fills(h.calls[n], h.key)
  {
    var n := |h.calls| - 1;
    if i :| Live(h, i) && i < n {
      LiveSnoc(h, i);
    }
    if i :| Live(Shorter(h), i) {
      LiveSnoc(h, i);
    }
    assert Live(h, n) <==> Fills(h.calls[n], h.key);
  }

  lemma {:induction false} FirstLive<V>(h: History<V>, i: nat) returns (first: nat)
    requires Live(h, i)
    ensures FilledAt(h, first)
    decreases i
  {
    if j :| 0 <= j < i && Live(h, j) {
      first := FirstLive(h, j);
    } else {
      first := i;
    }
  }

  /** Exactly when a run with any failures leaves the cache right about a key: the row is
      now what it was when the present entry, if there is one, was filled. */
  lemma CoherentExact<V>(h: History<V>)
    requires CacheKey(h.prefix, h.key) !in h.start.cache
    ensures CoherentAt(h.prefix, Now(h), h.key) <==>
              forall i :: FilledAt(h, i) ==> Lookup(TableAt(h, i), h.key) == Lookup(Now(h).table, h.key)
  {
    EntryExact(h);
    if CacheKey(h.prefix, h.key) in Now(h).cache {
      var i :| Live(h, i);
      var first := FirstLive(h, i);
    }
  }

  /** The answer to a lookup after any run: the row as it was at the lookup that filled the
      entry; without an entry the present row, or a failure if the database is down. */
  lemma LookupExact<V>(h: History<V>, fault: Fault)
    requires CacheKey(h.prefix, h.key) !in h.start.cache
    ensures var r := Apply(h.prefix, h.dropOnInsert, Now(h), Call(FindOne(h.key), fault)).1;
            && (forall i :: FilledAt(h, i) ==> r == Lookup(TableAt(h, i), h.key))
            && ((forall i :: !FilledAt(h, i)) ==> r == if fault.DbDown? then Failed else Lookup(Now(h).table, h.key))
  {
    EntryExact(h);
    if CacheKey(h.prefix, h.key) in Now(h).cache {
      var i :| Live(h, i);
      var first := FirstLive(h, i);
    }
  }
}

/** The short-URL model and the Shorten and Expand calls on top of it. */
module ShortUrl {
  import opened CachedStore

  const PREFIX := "cache:shorturl:shorten:"
  const KEY_LENGTH := 6

  /** The cache entry a lookup's answer leaves behind. */
  function EntryOf(r: Reply<string>): Entry<string> {
    if r.Found? then Row(r.value) else Missing
  }

  /** The key is bound to the URL, and no stale cache entry can hide that. */
  predicate Bound(s: Store<string>, key: string, url: string) {
    && key in s.table && s.table[key] == url
    && (CacheKey(PREFIX, key) in s.cache ==> s.cache[CacheKey(PREFIX, key)] == Row(url))
  }

  /** What was bound to its URL, other than the row written, still is. */
  ghost predicate BindingsKept(s: Store<string>, t: Store<string>, written: set<string>) {
    forall k, u :: k !in written && Bound(s, k, u) ==> Bound(t, k, u)
  }

  lemma CallKeepsBindings(s: Store<string>, c: Call<string>)
    ensures BindingsKept(s, Apply(PREFIX, true, s, c).0, if c.op.Update? || c.op.Delete? then {c.op.key} else {})
  {
    forall k, u | Bound(s, k, u) && !((c.op.Update? || c.op.Delete?) && k == c.op.key)
      ensures Bound(Apply(PREFIX, true, s, c).0, k, u)
    {
      if !c.op.Evict? && CacheKey(PREFIX, c.op.key) == CacheKey(PREFIX, k) {
        KeyInjective(PREFIX, c.op.key, k);
      }
    }
  }

  /** defaultShorturlModel: every write names the row's cache key. */
  class ShorturlModel {
    const conn: CachedConn<string>

    constructor (conn: CachedConn<string>)
      ensures this.conn == conn
    {
      this.conn := conn;
    }

    /** Answers for the table whenever what is cached for the key is right, and leaves its
        answer in the cache. */
    method FindOne(shorten: string, fault: Fault) returns (r: Reply<string>)
      modifies conn
      ensures conn.table == old(conn.table)
      ensures r.Found? || r.NotFound? || r.Failed?
      ensures !r.Failed? ==> "cache:shorturl:shorten:" + shorten in conn.cache
      ensures r.Failed? <==> fault.DbDown? && CacheKey(PREFIX, shorten) !in old(conn.cache)
      ensures conn.cache == if r.Failed? then old(conn.cache) else old(conn.cache)[CacheKey(PREFIX, shorten) := EntryOf(r)]
      ensures CacheKey(PREFIX, shorten) in old(conn.cache) ==> conn.cache == old(conn.cache)
      ensures old(CoherentAt(PREFIX, conn.View(), shorten)) ==> r == Lookup(conn.table, shorten) || r.Failed?
      ensures old(Coherent(PREFIX, conn.View())) ==> Coherent(PREFIX, conn.View())
      ensures BindingsKept(old(conn.View()), conn.View(), {})
    {
      ghost var call := Call(Op.FindOne(shorten), fault);
      CallKeepsBindings(conn.View(), call);
      if Coherent(PREFIX, conn.View()) {
        AllKeysKept(PREFIX, conn.View(), if fault.DropFails? then call.(fault := Fine) else call);
      }
      r := conn.QueryRow(CacheKey(PREFIX, shorten), shorten, fault);
    }

    /** Succeeds for a free key only, and then binds it, whatever was cached for it. */
    method Insert(shorten: string, url: string, fault: Fault) returns (r: Reply<string>)
      modifies conn
      ensures r.Ok? <==> fault.Fine? && shorten !in old(conn.table)
      ensures r.Ok? ==> Bound(conn.View(), shorten, url)
      ensures conn.table == if fault.DbDown? || shorten in old(conn.table) then old(conn.table) else old(conn.table)[shorten := url]
      ensures conn.cache == if r.Ok? then old(conn.cache) - {CacheKey(PREFIX, shorten)} else old(conn.cache)
      ensures old(Coherent(PREFIX, conn.View())) && !fault.DropFails? ==> Coherent(PREFIX, conn.View())
      ensures BindingsKept(old(conn.View()), conn.View(), {})
    {
      WriteKeeps(Call(Op.Insert(shorten, url), fault));
      r := conn.ExecDropping(Op.Insert(shorten, url), CacheKey(PREFIX, shorten), fault);
    }

    /** Rebinds the key if it is there. */
    method Update(shorten: string, url: string, fault: Fault) returns (r: Reply<string>)
      modifies conn
      ensures r.Ok? <==> fault.Fine?
      ensures r.Ok? && shorten in old(conn.table) ==> Bound(conn.View(), shorten, url)
      ensures conn.table == if fault.DbDown? || shorten !in old(conn.table) then old(conn.table) else old(conn.table)[shorten := url]
      ensures conn.cache == if r.Ok? then old(conn.cache) - {CacheKey(PREFIX, shorten)} else old(conn.cache)
      ensures old(Coherent(PREFIX, conn.View())) && !fault.DropFails? ==> Coherent(PREFIX, conn.View())
      ensures BindingsKept(old(conn.View()), conn.View(), {shorten})
    {
      WriteKeeps(Call(Op.Update(shorten, url), fault));
      r := conn.ExecDropping(Op.Update(shorten, url), CacheKey(PREFIX, shorten), fault);
    }

    /** Afterwards the key is free and nothing is cached for it. */
    method Delete(shorten: string, fault: Fault) returns (r: Reply<string>)
      modifies conn
      ensures r.Ok? <==> fault.Fine?
      ensures conn.table == if fault.DbDown? then old(conn.table) else old(conn.table) - {shorten}
      ensures conn.cache == if r.Ok? then old(conn.cache) - {CacheKey(PREFIX, shorten)} else old(conn.cache)
      ensures old(Coherent(PREFIX, conn.View())) && !fault.DropFails? ==> Coherent(PREFIX, conn.View())
      ensures BindingsKept(old(conn.View()), conn.View(), {shorten})
    {
      WriteKeeps(Call(Op.Delete(shorten), fault));
      r := conn.ExecDropping(Op.Delete(shorten), CacheKey(PREFIX, shorten), fault);
    }

    lemma WriteKeeps(c: Call<string>)
      ensures Coherent(PREFIX, conn.View()) && !c.fault.DropFails? ==>
                Coherent(PREFIX, Apply(PREFIX, true, conn.View(), c).0)
      ensures BindingsKept(conn.View(), Apply(PREFIX, true, conn.View(), c).0,
                           if c.op.Update? || c.op.Delete? then {c.op.key} else {})
    {
      CallKeepsBindings(conn.View(), c);
      if Coherent(PREFIX, conn.View()) && !c.fault.DropFails? {
        AllKeysKept(PREFIX, conn.View(), c);
      }
    }
  }

  /** The Shorten and Expand calls on the model. */
  class Transformer {
    const model: ShorturlModel
    const hash: Hash

    constructor (model: ShorturlModel, hash: Hash)
      ensures this.model == model && this.hash == hash
    {
      this.model, this.hash := model, hash;
    }

    /** Succeeds exactly when nothing fails and the truncated key is free; the key it
        returns is then bound to the URL, and every earlier binding still holds. */
    method Shorten(url: string, fault: Fault) returns (r: Response)
      modifies model.conn
      ensures r.Key? <==> fault.Fine? && ShortKey(hash, url) !in old(model.conn.table)
      ensures r.Key? ==> Bound(model.conn.View(), r.key, url)
      ensures r.Key? && |hash(url)| >= 6 ==> r.key == hash(url)[..6]
      ensures BindingsKept(old(model.conn.View()), model.conn.View(), {})
      ensures (model.conn.View(), r) == Serve(hash, old(model.conn.View()), Request.Shorten(url, fault))
    {
      var key := ShortKey(hash, url);
      var reply := model.Insert(key, url, fault);
      r := if reply.Ok? then Key(key) else Error;
    }

    /** A bound key expands to its URL, with an error only while the database is down. */
    method Expand(key: string, fault: Fault) returns (r: Response)
      modifies model.conn
      ensures forall url :: old(Bound(model.conn.View(), key, url)) ==> r == Url(url) || (fault.DbDown? && r == Error)
      ensures old(CoherentAt(PREFIX, model.conn.View(), key)) && key !in old(model.conn.table) ==> r == Error
      ensures BindingsKept(old(model.conn.View()), model.conn.View(), {})
      ensures (model.conn.View(), r) == Serve(hash, old(model.conn.View()), Request.Expand(key, fault))
    {
      var reply := model.FindOne(key, fault);
      r := if reply.Found? then Url(reply.value) else Error;
    }
  }

  // ------------------------------------------------------------ Shorten and Expand

  /** Any hash; the program's is md5 in hexadecimal, which is longer than the key. */
  type Hash = string -> string

  datatype Request = Shorten(url: string, fault: Fault) | Expand(key: string, fault: Fault) | Expire(cacheKey: string)

  datatype Response = Key(key: string) | Url(url: string) | Error

  function ShortKey(hash: Hash, url: string): string {
    var h := hash(url);
    if |h| < KEY_LENGTH then h else h[..KEY_LENGTH]
  }

  function Serve(hash: Hash, s: Store<string>, q: Request): (Store<string>, Response) {
    match q
    case Shorten(url, fault) =>
      var key := ShortKey(hash, url);
      var (t, r) := Apply(PREFIX, true, s, Call(Insert(key, url), fault));
      (t, if r.Ok? then Key(key) else Error)
    case Expand(key, fault) =>
      var (t, r) := Apply(PREFIX, true, s, Call(FindOne(key), fault));
      (t, if r.Found? then Url(r.value) else Error)
    case Expire(k) => (Apply(PREFIX, true, s, Call(Evict(k), Fine)).0, Error)
  }

  function ServeAll(hash: Hash, s: Store<string>, qs: seq<Request>): Store<string>
    decreases |qs|
  {
    if qs == [] then s else ServeAll(hash, Serve(hash, s, qs[0]).0, qs[1..])
  }

  lemma ServeKeepsBound(hash: Hash, s: Store<string>, q: Request, key: string, url: string)
    requires Bound(s, key, url)
    ensures Bound(Serve(hash, s, q).0, key, url)
    ensures q.Shorten? && Serve(hash, s, q).1.Key? ==> Serve(hash, s, q).1.key != key
  {
    match q
    case Shorten(u, fault) => CallKeepsBindings(s, Call(Insert(ShortKey(hash, u), u), fault));
    case Expand(k, fault) => CallKeepsBindings(s, Call(FindOne(k), fault));
    case Expire(_) =>
  }

  lemma {:induction false} ServeAllKeepsBound(hash: Hash, s: Store<string>, qs: seq<Request>, key: string, url: string)
    requires Bound(s, key, url)
    ensures Bound(ServeAll(hash, s, qs), key, url)
    decreases |qs|
  {
    if qs != [] {
      ServeKeepsBound(hash, s, qs[0], key, url);
      ServeAllKeepsBound(hash, Serve(hash, s, qs[0]).0, qs[1..], key, url);
    }
  }

  /** Shorten succeeds exactly when nothing fails and its six-character key is free. */
  lemma ShortenSucceeds(hash: Hash, s: Store<string>, url: string, fault: Fault)
    ensures Serve(hash, s, Shorten(url, fault)).1.Key? <==> fault.Fine? && ShortKey(hash, url) !in s.table
    ensures fault.Fine? && ShortKey(hash, url) !in s.table ==>
              Bound(Serve(hash, s, Shorten(url, fault)).0, ShortKey(hash, url), url)
  {
  }

  /** Two URLs whose hashes differ in the first six characters, both free: both are
      shortened, to those six characters, and expand to themselves; with the same six
      characters the second is refused. */
  lemma TwoUrls(hash: Hash, s: Store<string>, a: string, b: string)
    requires |hash(a)| >= 6 && |hash(b)| >= 6 && hash(a)[..6] !in s.table && hash(b)[..6] !in s.table
    ensures var (one, first) := Serve(hash, s, Shorten(a, Fine));
            var (two, second) := Serve(hash, one, Shorten(b, Fine));
            && first == Key(hash(a)[..6])
            && second == (if hash(a)[..6] == hash(b)[..6] then Error else Key(hash(b)[..6]))
            && Serve(hash, two, Expand(hash(a)[..6], Fine)).1 == Url(a)
            && (second.Key? ==> Serve(hash, two, Expand(hash(b)[..6], Fine)).1 == Url(b))
  {
    var one := Serve(hash, s, Shorten(a, Fine)).0;
    var two := Serve(hash, one, Shorten(b, Fine)).0;
    assert ShortKey(hash, a) == hash(a)[..6] && ShortKey(hash, b) == hash(b)[..6];
    ShortenSucceeds(hash, s, a, Fine);
    ShortenSucceeds(hash, one, b, Fine);
    ServeKeepsBound(hash, one, Shorten(b, Fine), hash(a)[..6], a);
  }

  /** Whatever the hash, the state of table and cache, and the requests, evictions and
      failures in between: a key returned by a successful Shorten(url) expands to url
      ever after, an error being possible only while the database is down; and no
      later Shorten returns the same key. */
  lemma KeyExpandsForever(hash: Hash, s: Store<string>, url: string, fault: Fault, qs: seq<Request>, later: Request)
    requires Serve(hash, s, Shorten(url, fault)).1.Key?
    ensures var key := Serve(hash, s, Shorten(url, fault)).1.key;
            var now := ServeAll(hash, Serve(hash, s, Shorten(url, fault)).0, qs);
            && (later.Expand? && later.key == key ==>
                  || Serve(hash, now, later).1 == Url(url)
                  || (later.fault.DbDown? && Serve(hash, now, later).1 == Error))
            && (later.Shorten? ==> Serve(hash, now, later).1 != Key(key))
  {
    var key := ShortKey(hash, url);
    var bound := Serve(hash, s, Shorten(url, fault)).0;
    ShortenSucceeds(hash, s, url, fault);
    ServeAllKeepsBound(hash, bound, qs, key, url);
    ServeKeepsBound(hash, ServeAll(hash, bound, qs), later, key, url);
  }
}

/** The bookstore model, whose Insert does not name the cache key. */
module Bookstore {
  import opened CachedStore

  const PREFIX := "cache#Book#book#"

  /** A not-found marker is cached for the book. */
  predicate Marked(s: Store<int>, book: string) {
    CacheKey(PREFIX, book) in s.cache && s.cache[CacheKey(PREFIX, book)].Missing?
  }

  /** A not-found marker is cached for a book that exists. */
  predicate Hidden(s: Store<int>, book: string) {
    Marked(s, book) && book in s.table
  }

  /** A write of the book whose cache entry was not dropped. */
  predicate LosesDrop(c: Call<int>, book: string) {
    (c.op.Update? || c.op.Delete?) && c.op.key == book && c.fault.DropFails?
  }

  /** defaultBookModel: Insert goes past the cache. */
  class BookModel {
    const conn: CachedConn<int>

    constructor (conn: CachedConn<int>)
      ensures this.conn == conn
    {
      this.conn := conn;
    }

    /** Touches no cache entry, so whatever was cached for a new book now hides it. */
    method Insert(book: string, price: int, fault: Fault) returns (r: Reply<int>)
      modifies conn
      ensures r.Ok? <==> !fault.DbDown? && book !in old(conn.table)
      ensures conn.cache == old(conn.cache)
      ensures conn.table == if r.Ok? then old(conn.table)[book := price] else old(conn.table)
      ensures old(RowsCoherent(PREFIX, conn.View())) ==> RowsCoherent(PREFIX, conn.View())
      ensures r.Ok? && old(RowsCoherentAt(PREFIX, conn.View(), book)) ==>
                (Hidden(conn.View(), book) <==> CacheKey(PREFIX, book) in old(conn.cache))
    {
      RowsKept(Call(Op.Insert(book, price), fault));
      r := conn.ExecBare(Op.Insert(book, price), fault);
    }

    /** Answers for the table exactly when the book is not hidden. */
    method FindOne(book: string, fault: Fault) returns (r: Reply<int>)
      modifies conn
      ensures conn.table == old(conn.table)
      ensures r.Failed? <==> fault.DbDown? && CacheKey(PREFIX, book) !in old(conn.cache)
      ensures conn.cache - {CacheKey(PREFIX, book)} == old(conn.cache) - {CacheKey(PREFIX, book)}
      ensures r.NotFound? <==> Marked(conn.View(), book)
      ensures !r.Failed? ==> "cache#Book#book#" + book in conn.cache
      ensures old(RowsCoherent(PREFIX, conn.View())) ==> RowsCoherent(PREFIX, conn.View())
      ensures old(RowsCoherentAt(PREFIX, conn.View(), book)) && !r.Failed? ==>
                (r == Lookup(conn.table, book) <==> !old(Hidden(conn.View(), book)))
    {
      RowsKept(Call(Op.FindOne(book), fault));
      r := conn.QueryRow(CacheKey(PREFIX, book), book, fault);
    }

    /** When it goes well nothing hides the book any more. */
    method Update(book: string, price: int, fault: Fault) returns (r: Reply<int>)
      modifies conn
      ensures r.Ok? <==> fault.Fine?
      ensures r.Ok? ==> !Hidden(conn.View(), book)
      ensures conn.table == if fault.DbDown? || book !in old(conn.table) then old(conn.table) else old(conn.table)[book := price]
      ensures conn.cache == if r.Ok? then old(conn.cache) - {CacheKey(PREFIX, book)} else old(conn.cache)
      ensures old(RowsCoherent(PREFIX, conn.View())) && !fault.DropFails? ==> RowsCoherent(PREFIX, conn.View())
    {
      RowsKept(Call(Op.Update(book, price), fault));
      r := conn.ExecDropping(Op.Update(book, price), CacheKey(PREFIX, book), fault);
    }

    method Delete(book: string, fault: Fault) returns (r: Reply<int>)
      modifies conn
      ensures r.Ok? <==> fault.Fine?
      ensures conn.table == if fault.DbDown? then old(conn.table) else old(conn.table) - {book}
      ensures conn.cache == if r.Ok? then old(conn.cache) - {CacheKey(PREFIX, book)} else old(conn.cache)
      ensures old(RowsCoherent(PREFIX, conn.View())) && !fault.DropFails? ==> RowsCoherent(PREFIX, conn.View())
    {
      RowsKept(Call(Op.Delete(book), fault));
      r := conn.ExecDropping(Op.Delete(book), CacheKey(PREFIX, book), fault);
    }

    lemma RowsKept(c: Call<int>)
      ensures RowsCoherent(PREFIX, conn.View()) && (c.fault.DropFails? ==> !c.op.Update? && !c.op.Delete?) ==>
                RowsCoherent(PREFIX, Apply(PREFIX, false, conn.View(), c).0)
    {
      if RowsCoherent(PREFIX, conn.View()) && (c.fault.DropFails? ==> !c.op.Update? && !c.op.Delete?) {
        forall k ensures RowsCoherentAt(PREFIX, Apply(PREFIX, false, conn.View(), c).0, k) {
          CallKeepsRows(conn.View(), c, k);
        }
      }
    }
  }

  lemma CallKeepsRows(s: Store<int>, c: Call<int>, book: string)
    requires RowsCoherentAt(PREFIX, s, book) && !LosesDrop(c, book)
    ensures var t := Apply(PREFIX, false, s, c).0;
            RowsCoherentAt(PREFIX, t, book) && t.table == TableAfter(s.table, c)
  {
    if !c.op.Evict? && CacheKey(PREFIX, c.op.key) == CacheKey(PREFIX, book) {
      KeyInjective(PREFIX, c.op.key, book);
    }
  }

  /** Over any sequence of calls, evictions and failures, a row cached for a book is the
      table's row, if no update or delete of the book failed to drop its entry. */
  lemma {:induction false} CachedRowsRight(s: Store<int>, calls: seq<Call<int>>, book: string)
    requires RowsCoherentAt(PREFIX, s, book)
    requires forall i :: 0 <= i < |calls| ==> !LosesDrop(calls[i], book)
    ensures RowsCoherentAt(PREFIX, After(PREFIX, false, s, calls), book)
    decreases |calls|
  {
    if calls != [] {
      CallKeepsRows(s, calls[0], book);
      CachedRowsRight(Apply(PREFIX, false, s, calls[0]).0, calls[1..], book);
    }
  }

  /** If the drop after an update or delete fails, a cached row stays right exactly when no
      row was cached for the book or the statement changed nothing. */
  lemma FailedDropRows(s: Store<int>, op: Op<int>)
    requires (op.Update? || op.Delete?) && RowsCoherentAt(PREFIX, s, op.key)
    ensures var t := Apply(PREFIX, false, s, Call(op, DropFails)).0;
            RowsCoherentAt(PREFIX, t, op.key) <==>
              CacheKey(PREFIX, op.key) !in s.cache || Marked(s, op.key) || NoOp(s.table, op)
  {
  }

  /** After any such run FindOne answers for the table exactly when the book is not
      hidden by a marker. */
  lemma FindOneExact(s: Store<int>, calls: seq<Call<int>>, book: string)
    requires RowsCoherentAt(PREFIX, s, book)
    requires forall i :: 0 <= i < |calls| ==> !LosesDrop(calls[i], book)
    ensures var now := After(PREFIX, false, s, calls);
            Apply(PREFIX, false, now, Call(FindOne(book), Fine)).1 == Lookup(now.table, book) <==> !Hidden(now, book)
  {
    CachedRowsRight(s, calls, book);
  }

  /** Right after a successful Insert, FindOne finds the new book exactly when no cache
      entry for it was left over from before. */
  lemma InsertThenFind(s: Store<int>, calls: seq<Call<int>>, book: string, price: int)
    requires RowsCoherentAt(PREFIX, s, book)
    requires forall i :: 0 <= i < |calls| ==> !LosesDrop(calls[i], book)
    requires book !in After(PREFIX, false, s, calls).table
    ensures var now := After(PREFIX, false, s, calls);
            var t := Apply(PREFIX, false, now, Call(Insert(book, price), Fine)).0;
            Apply(PREFIX, false, t, Call(FindOne(book), Fine)).1 == Found(price)
            <==> CacheKey(PREFIX, book) !in now.cache
  {
    CachedRowsRight(s, calls, book);
  }

  /** The run that shows it: look a book up, insert it, look it up again. */
  lemma LookupHidesInsert(book: string, price: int)
    ensures var s := After(PREFIX, false, Store(map[], map[]),
                           [Call(FindOne(book), Fine), Call(Insert(book, price), Fine)]);
            && s.table == map[book := price]
            && Apply(PREFIX, false, s, Call(FindOne(book), Fine)).1 == NotFound
  {
    var empty: Store<int> := Store(map[], map[]);
    var find, insert := Call(FindOne(book), Fine), Call(Insert(book, price), Fine);
    var looked := Apply(PREFIX, false, empty, find).0;
    var inserted := Apply(PREFIX, false, looked, insert).0;
    assert [find, insert][1..] == [insert] && [insert][1..] == [];
    assert After(PREFIX, false, looked, [insert]) == inserted;
  }

  // ---------------------------------------------- which histories hide a book

  predicate Inserts(c: Call<int>, book: string) {
    c.op.Insert? && c.op.key == book && !c.fault.DbDown?
  }

  lemma {:induction false} PresentByInsert(table: map<string, int>, calls: seq<Call<int>>, book: string) returns (j: nat)
    requires book !in table && book in Tables(table, calls)
    ensures j < |calls| && Inserts(calls[j], book)
    decreases |calls|
  {
    if book in TableAfter(table, calls[0]) {
      j := 0;
    } else {
      j := PresentByInsert(TableAfter(table, calls[0]), calls[1..], book);
      j := j + 1;
    }
  }

  lemma {:induction false} TablesConcat(table: map<string, int>, a: seq<Call<int>>, b: seq<Call<int>>)
    ensures Tables(table, a + b) == Tables(Tables(table, a), b)
    decreases |a|
  {
    if a == [] {
      assert a + b == b;
    } else {
      assert (a + b)[1..] == a[1..] + b;
      TablesConcat(TableAfter(table, a[0]), a[1..], b);
    }
  }

  /** The histories that hide a book, with any failures, starting with nothing cached for
      it: those in which the lookup that filled its present cache entry found it absent
      and it is in the table now. Then it was inserted after that lookup. */
  lemma HiddenExact(h: History<int>)
    requires h.prefix == PREFIX && !h.dropOnInsert && CacheKey(PREFIX, h.key) !in h.start.cache
    ensures Hidden(Now(h), h.key) <==>
              exists i :: FilledAt(h, i) && h.key !in TableAt(h, i) && h.key in Now(h).table
    ensures forall i :: FilledAt(h, i) && h.key !in TableAt(h, i) && h.key in Now(h).table ==>
              exists j :: i < j < |h.calls| && Inserts(h.calls[j], h.key)
  {
    EntryExact(h);
    if Marked(Now(h), h.key) {
      var i :| Live(h, i);
      var first := FirstLive(h, i);
    }
    forall i | FilledAt(h, i) && h.key !in TableAt(h, i) && h.key in Now(h).table
      ensures exists j :: i < j < |h.calls| && Inserts(h.calls[j], h.key)
    {
      InsertedSince(h, i);
    }
  }

  lemma InsertedSince(h: History<int>, i: nat)
    requires i < |h.calls| && h.calls[i].op.FindOne? && h.prefix == PREFIX && !h.dropOnInsert
    requires h.key !in TableAt(h, i) && h.key in Now(h).table
    ensures exists j :: i < j < |h.calls| && Inserts(h.calls[j], h.key)
  {
    TableOfRun(PREFIX, false, h.start, h.calls);
    assert h.calls == h.calls[..i] + h.calls[i..];
    TablesConcat(h.start.table, h.calls[..i], h.calls[i..]);
    var j := PresentByInsert(TableAt(h, i), h.calls[i..], h.key);
    assert h.calls[i + j] == h.calls[i..][j];
  }
}
