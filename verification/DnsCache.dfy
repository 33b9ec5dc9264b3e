/** The DNS cache: a map that is rebuilt in the background, batch by batch, while
    answers keep arriving, and that still behaves like one plain map from
    (domain, family) to answer. */
module DnsCache {
  import opened Options

  type Domain = string

  datatype Family = V4 | V6

  datatype Answer = Answer(ips: seq<nat>, rcode: nat, expire: int)

  /** A cache record; it holds at least one family. */
  datatype Record = Record(a: Option<Answer>, aaaa: Option<Answer>)

  type Table = map<Domain, Record>

  const MIN_SIZE_FOR_EMPTY_REBUILD := 512
  const SHRINK_ABSOLUTE_THRESHOLD := 10240
  const MIGRATION_BATCH_SIZE := 4096

  function Get(r: Record, f: Family): Option<Answer> {
    if f == V4 then r.a else r.aaaa
  }

  function Set(r: Record, f: Family, x: Option<Answer>): Record {
    if f == V4 then r.(a := x) else r.(aaaa := x)
  }

  function Other(f: Family): Family {
    if f == V4 then V6 else V4
  }

  function Lookup(t: Table, d: Domain, f: Family): Option<Answer> {
    if d in t then Get(t[d], f) else None
  }

  /** The two maps, the size peak, and the dirty keys not yet flushed. */
  datatype Cache = Cache(ips: Table, dirty: Option<Table>, high: nat, rest: seq<Domain>)

  const Empty := Cache(map[], None, 0, [])

  /** What the cache holds for one domain and family. */
  function View(c: Cache, d: Domain, f: Family): Option<Answer> {
    var x := Lookup(c.ips, d, f);
    if x.None? && c.dirty.Some? then Lookup(c.dirty.value, d, f) else x
  }

  // ----- updateRecord -----

  function NewRecord(c: Cache, d: Domain, f: Family, x: Answer): Record {
    Set(Set(Record(None, None), f, Some(x)), Other(f), Lookup(c.ips, d, Other(f)))
  }

  function Update(c: Cache, d: Domain, f: Family, x: Answer): Cache {
    c.(ips := c.ips[d := NewRecord(c, d, f, x)])
  }

  // ----- cleanup -----

  predicate Expired(x: Option<Answer>, now: int) {
    x.Some? && x.value.expire < now
  }

  function Fresher(x: Option<Answer>, now: int): Option<Answer> {
    if Expired(x, now) then None else x
  }

  /** One key of writeAndShrink. */
  function DropExpired(t: Table, d: Domain, now: int): Table {
    if d !in t then t
    else
      var r := Record(Fresher(t[d].a, now), Fresher(t[d].aaaa, now));
      if r == Record(None, None) then t - {d} else t[d := r]
  }

  function DropAll(t: Table, keys: seq<Domain>, now: int): Table
    decreases |keys|
  {
    if keys == [] then t else DropAll(DropExpired(t, keys[0], now), keys[1..], now)
  }

  predicate ShouldShrink(high: nat, size: nat) {
    size > 0 && high - size > SHRINK_ABSOLUTE_THRESHOLD && 20 * (high - size) > 13 * high
  }

  /** writeAndShrink; "order" is the order in which the migration that may follow
      will visit the keys. */
  function Cleanup(c: Cache, keys: seq<Domain>, now: int, order: seq<Domain>): Cache {
    if c.dirty.Some? then c
    else
      var peak := if |c.ips| > c.high then |c.ips| else c.high;
      var t := DropAll(c.ips, keys, now);
      if |t| == 0 then c.(ips := t, high := if peak >= MIN_SIZE_FOR_EMPTY_REBUILD then 0 else peak)
      else if ShouldShrink(peak, |t|) then Cache(map[], Some(t), |t|, order)
      else c.(ips := t, high := peak)
  }

  /** The cleanup starts a migration. */
  predicate Starts(c: Cache, keys: seq<Domain>, now: int) {
    c.dirty.None? && Cleanup(c, keys, now, []).dirty.Some?
  }

  // ----- migration -----

  function Merge(cur: Record, dirty: Record): Record {
    Record(if cur.a.None? then dirty.a else cur.a, if cur.aaaa.None? then dirty.aaaa else cur.aaaa)
  }

  function FlushOne(ips: Table, d: Domain, dirty: Record): Table {
    ips[d := if d in ips then Merge(ips[d], dirty) else dirty]
  }

  function FlushAll(ips: Table, batch: seq<Domain>, dirty: Table): Table
    requires forall d :: d in batch ==> d in dirty
    decreases |batch|
  {
    if batch == [] then ips else FlushAll(FlushOne(ips, batch[0], dirty[batch[0]]), batch[1..], dirty)
  }

  // ----- what every step keeps -----

  ghost predicate NoBlank(t: Table) {
    forall d :: d in t ==> t[d] != Record(None, None)
  }

  /** A dirty key that has been flushed is covered by the new map. */
  ghost predicate Covered(c: Cache, d: Domain)
    requires c.dirty.Some?
  {
    forall f :: Lookup(c.dirty.value, d, f).Some? ==> Lookup(c.ips, d, f).Some?
  }

  ghost predicate Inv(c: Cache) {
    && NoBlank(c.ips)
    && (c.dirty.None? ==> c.rest == [])
    && (c.dirty.Some? ==>
          && NoBlank(c.dirty.value)
          && (forall d :: d in c.rest ==> d in c.dirty.value)
          && (forall d :: d in c.dirty.value && d !in c.rest ==> Covered(c, d)))
  }

  // ----- events -----

  datatype Event =
    | Updated(d: Domain, f: Family, x: Answer)
    | Cleaned(keys: seq<Domain>, now: int, order: seq<Domain>)
    | Flushed
    | Finished

  function BatchSize(c: Cache): nat {
    if |c.rest| < MIGRATION_BATCH_SIZE then |c.rest| else MIGRATION_BATCH_SIZE
  }

  ghost predicate Enabled(c: Cache, e: Event) {
    match e
    case Updated(_, _, _) => true
    case Cleaned(keys, now, order) => Starts(c, keys, now) ==> forall d :: d in order <==> d in DropAll(c.ips, keys, now)
    case Flushed => c.dirty.Some? && c.rest != [] && forall d :: d in c.rest ==> d in c.dirty.value
    case Finished => c.dirty.Some? && c.rest == []
  }

  function Step(c: Cache, e: Event): Cache
    requires Enabled(c, e)
  {
    match e
    case Updated(d, f, x) => Update(c, d, f, x)
    case Cleaned(keys, now, order) => Cleanup(c, keys, now, order)
    case Flushed =>
      var n := BatchSize(c);
      c.(ips := FlushAll(c.ips, c.rest[..n], c.dirty.value), rest := c.rest[n..])
    case Finished => c.(dirty := None)
  }

  /** What one event does to the plain map. */
  function Effect(c: Cache, e: Event, d: Domain, f: Family): Option<Answer> {
    match e
    case Updated(d', f', x) => if d == d' && f == f' then Some(x) else View(c, d, f)
    case Cleaned(keys, now, _) => if c.dirty.None? && d in keys && Expired(View(c, d, f), now) then None else View(c, d, f)
    case _ => View(c, d, f)
  }

  // ----- one event at a time -----

  lemma {:induction false} DropAllLookup(t: Table, keys: seq<Domain>, now: int, d: Domain, f: Family)
    ensures Lookup(DropAll(t, keys, now), d, f) == if d in keys then Fresher(Lookup(t, d, f), now) else Lookup(t, d, f)
    decreases |keys|
  {
    if keys != [] {
      DropAllLookup(DropExpired(t, keys[0], now), keys[1..], now, d, f);
    }
  }

  lemma {:induction false} DropAllNoBlank(t: Table, keys: seq<Domain>, now: int)
    requires NoBlank(t)
    ensures NoBlank(DropAll(t, keys, now))
    decreases |keys|
  {
    if keys != [] {
      DropAllNoBlank(DropExpired(t, keys[0], now), keys[1..], now);
    }
  }

  /** A flushed batch fills in exactly what the new map lacks. */
  lemma {:induction false} FlushAllLookup(ips: Table, batch: seq<Domain>, dirty: Table, d: Domain, f: Family)
    requires forall k :: k in batch ==> k in dirty
    ensures Lookup(FlushAll(ips, batch, dirty), d, f)
         == if d in batch && Lookup(ips, d, f).None? then Lookup(dirty, d, f) else Lookup(ips, d, f)
    decreases |batch|
  {
    if batch != [] {
      var next := FlushOne(ips, batch[0], dirty[batch[0]]);
      FlushAllLookup(next, batch[1..], dirty, d, f);
      assert Lookup(next, d, f) == if d == batch[0] && Lookup(ips, d, f).None? then Lookup(dirty, d, f) else Lookup(ips, d, f);
    }
  }

  lemma {:induction false} FlushAllNoBlank(ips: Table, batch: seq<Domain>, dirty: Table)
    requires (forall k :: k in batch ==> k in dirty) && NoBlank(ips) && NoBlank(dirty)
    ensures NoBlank(FlushAll(ips, batch, dirty))
    decreases |batch|
  {
    if batch != [] {
      FlushAllNoBlank(FlushOne(ips, batch[0], dirty[batch[0]]), batch[1..], dirty);
    }
  }

  lemma UpdateView(c: Cache, d': Domain, f': Family, x: Answer, d: Domain, f: Family)
    ensures View(Update(c, d', f', x), d, f) == if d == d' && f == f' then Some(x) else View(c, d, f)
  {
  }

  lemma UpdateInv(c: Cache, d': Domain, f': Family, x: Answer)
    requires Inv(c)
    ensures Inv(Update(c, d', f', x))
  {
    var n := Update(c, d', f', x);
    assert forall d, f :: Lookup(c.ips, d, f).Some? ==> Lookup(n.ips, d, f).Some?;
    if c.dirty.Some? {
      forall d | d in c.dirty.value && d !in c.rest
        ensures Covered(n, d)
      {
        assert Covered(c, d);
      }
    }
  }

  lemma CleanupInv(c: Cache, keys: seq<Domain>, now: int, order: seq<Domain>)
    requires Inv(c) && Enabled(c, Cleaned(keys, now, order))
    ensures Inv(Cleanup(c, keys, now, order))
  {
    hide DropAll;
    DropAllNoBlank(c.ips, keys, now);
  }

  lemma CleanupView(c: Cache, keys: seq<Domain>, now: int, order: seq<Domain>, d: Domain, f: Family)
    ensures View(Cleanup(c, keys, now, order), d, f)
         == if c.dirty.None? && d in keys && Expired(View(c, d, f), now) then None else View(c, d, f)
  {
    hide DropAll;
    DropAllLookup(c.ips, keys, now, d, f);
    var t := DropAll(c.ips, keys, now);
    assert |t| == 0 ==> t == map[];
  }

  lemma FlushInv(c: Cache)
    requires Inv(c) && Enabled(c, Flushed)
    ensures Inv(Step(c, Flushed))
  {
    hide FlushAll, NoBlank;
    var n, m := BatchSize(c), Step(c, Flushed);
    var batch := c.rest[..n];
    assert forall d :: d in c.rest <==> d in batch || d in c.rest[n..] by {
      assert c.rest == batch + c.rest[n..];
    }
    FlushAllNoBlank(c.ips, batch, c.dirty.value);
    forall d | d in m.dirty.value && d !in m.rest
      ensures Covered(m, d)
    {
      assert d !in c.rest ==> Covered(c, d);
      FlushAllLookup(c.ips, batch, c.dirty.value, d, V4);
      FlushAllLookup(c.ips, batch, c.dirty.value, d, V6);
    }
  }

  lemma FlushView(c: Cache, d: Domain, f: Family)
    requires Inv(c) && Enabled(c, Flushed)
    ensures View(Step(c, Flushed), d, f) == View(c, d, f)
  {
    hide FlushAll, NoBlank;
    FlushAllLookup(c.ips, c.rest[..BatchSize(c)], c.dirty.value, d, f);
  }

  lemma FinishView(c: Cache, d: Domain, f: Family)
    requires Inv(c) && Enabled(c, Finished)
    ensures View(Step(c, Finished), d, f) == View(c, d, f)
  {
    if d in c.dirty.value {
      assert Covered(c, d);
    }
  }

  lemma StepInv(c: Cache, e: Event)
    requires Inv(c) && Enabled(c, e)
    ensures Inv(Step(c, e))
  {
    hide Cleanup, Update, FlushAll;
    match e
    case Updated(d, f, x) => UpdateInv(c, d, f, x);
    case Cleaned(keys, now, order) => CleanupInv(c, keys, now, order);
    case Flushed => FlushInv(c);
    case Finished =>
  }

  /** Every step does to the plain map exactly what its event says. */
  lemma StepView(c: Cache, e: Event, d: Domain, f: Family)
    requires Inv(c) && Enabled(c, e)
    ensures View(Step(c, e), d, f) == Effect(c, e, d, f)
  {
    hide Cleanup, Update, FlushAll, View, Inv, DropAll;
    match e
    case Updated(d', f', x) => UpdateView(c, d', f', x, d, f);
    case Cleaned(keys, now, order) => CleanupView(c, keys, now, order, d, f);
    case Flushed => FlushView(c, d, f);
    case Finished => FinishView(c, d, f);
  }

  // ----- every run -----

  /** The states of a run from the empty cache, one event after the other. */
  ghost predicate Runs(es: seq<Event>, cs: seq<Cache>) {
    && |cs| == |es| + 1 && cs[0] == Empty
    && forall i :: 0 <= i < |es| ==> Enabled(cs[i], es[i]) && cs[i + 1] == Step(cs[i], es[i])
  }

  lemma {:induction false} RunInv(es: seq<Event>, cs: seq<Cache>, i: nat)
    requires Runs(es, cs) && i <= |es|
    ensures Inv(cs[i])
  {
    hide Step, Enabled, Inv;
    if i > 0 {
      RunInv(es, cs, i - 1);
      StepInv(cs[i - 1], es[i - 1]);
    } else {
      EmptyInv();
    }
  }

  lemma EmptyInv()
    ensures Inv(Empty)
  {
  }

  /** A migration never gets stuck: while it is on it can flush or finish. */
  lemma MigrationGoesOn(c: Cache)
    requires Inv(c) && c.dirty.Some?
    ensures if c.rest == [] then Enabled(c, Finished) else Enabled(c, Flushed) && |Step(c, Flushed).rest| < |c.rest|
  {
  }

  /** The plain map: the last answer received for this domain and family, unless a
      later cleanup that ran outside a migration found it expired. */
  function Expected(es: seq<Event>, idle: seq<bool>, d: Domain, f: Family): Option<Answer>
    requires |idle| == |es|
    decreases |es|
  {
    if es == [] then None
    else
      var n := |es| - 1;
      var was := Expected(es[..n], idle[..n], d, f);
      match es[n]
      case Updated(d', f', x) => if d == d' && f == f' then Some(x) else was
      case Cleaned(keys, now, _) => if idle[n] && d in keys && Expired(was, now) then None else was
      case _ => was
  }

  function Idle(cs: seq<Cache>): seq<bool> {
    seq(|cs|, i requires 0 <= i < |cs| => cs[i].dirty.None?)
  }

  /** In every run, with migrations anywhere in it, the cache is that plain map. */
  lemma {:induction false} CacheIsPlainMap(es: seq<Event>, cs: seq<Cache>, d: Domain, f: Family)
    requires Runs(es, cs)
    ensures View(cs[|es|], d, f) == Expected(es, Idle(cs)[..|es|], d, f)
    decreases |es|
  {
    hide Step, Enabled, Inv;
    var n := |es| - 1;
    if n >= 0 {
      var es', cs' := es[..n], cs[..n + 1];
      assert Runs(es', cs') by {
        forall i | 0 <= i < n
          ensures Enabled(cs'[i], es'[i]) && cs'[i + 1] == Step(cs'[i], es'[i])
        {
          assert es'[i] == es[i] && cs'[i] == cs[i] && cs'[i + 1] == cs[i + 1];
        }
      }
      CacheIsPlainMap(es', cs', d, f);
      assert Idle(cs')[..n] == Idle(cs)[..|es|][..n];
      RunInv(es, cs, n);
      StepView(cs[n], es[n], d, f);
    }
  }

  // ----- readers -----

  /** findRecords. */
  function Find(c: Cache, d: Domain): Option<Record> {
    if d in c.ips then Some(c.ips[d])
    else if c.dirty.Some? && d in c.dirty.value then Some(c.dirty.value[d]) else None
  }

  function FindFamily(c: Cache, d: Domain, f: Family): Option<Answer> {
    match Find(c, d) case Some(r) => Get(r, f) case None => None
  }

  /** The key got one family from an update during a migration, and the other one
      is still only in the old map. */
  predicate HalfMoved(c: Cache, d: Domain, f: Family) {
    d in c.ips && c.dirty.Some? && Get(c.ips[d], f).None? && Lookup(c.dirty.value, d, f).Some?
  }

  /** A reader sees the plain map, exactly unless the key is half moved; then it
      misses that family, and it never sees anything else. */
  lemma FindIsView(c: Cache, d: Domain, f: Family)
    ensures FindFamily(c, d, f) == View(c, d, f) <==> !HalfMoved(c, d, f)
    ensures HalfMoved(c, d, f) ==> FindFamily(c, d, f) == None
  {
  }

  /** Only keys still to be flushed can be half moved, so nothing is missed when
      no migration is on, or once a key has been flushed. */
  lemma HalfMovedOnlyUnflushed(c: Cache, d: Domain, f: Family)
    requires Inv(c) && HalfMoved(c, d, f)
    ensures d in c.rest
  {
    assert !Covered(c, d);
  }

  // ----- a run that gets there -----

  /** Pairwise different domains. */
  function Name(i: nat): Domain {
    seq(i, _ => 'a')
  }

  /** The answer that outlives a cleanup at time 0 for the first domain only. */
  function Sample(i: nat): Answer {
    Answer([1], 0, if i == 0 then 1 else -1)
  }

  function Filled(n: nat): Table {
    if n == 0 then map[] else Filled(n - 1)[Name(n - 1) := Record(None, Some(Sample(n - 1)))]
  }

  function Names(n: nat): seq<Domain> {
    seq(n, i requires 0 <= i < n => Name(i))
  }

  lemma {:induction false} FilledIs(n: nat)
    ensures forall d :: d in Filled(n) <==> |d| < n && d == Name(|d|)
    ensures forall i: nat :: i < n ==> Filled(n)[Name(i)] == Record(None, Some(Sample(i)))
    ensures |Filled(n)| == n && NoBlank(Filled(n))
    decreases n
  {
    if n > 0 {
      FilledIs(n - 1);
    }
  }

  /** One more event at the end of a run. */
  lemma RunsOn(es: seq<Event>, cs: seq<Cache>, e: Event)
    requires Runs(es, cs) && Enabled(cs[|es|], e)
    ensures Runs(es + [e], cs + [Step(cs[|es|], e)])
  {
    hide Step, Enabled;
    var es', cs' := es + [e], cs + [Step(cs[|es|], e)];
    forall i | 0 <= i < |es'|
      ensures Enabled(cs'[i], es'[i]) && cs'[i + 1] == Step(cs'[i], es'[i])
    {
      if i < |es| {
        assert es'[i] == es[i] && cs'[i] == cs[i] && cs'[i + 1] == cs[i + 1];
      }
    }
  }

  lemma {:induction false} Filling(n: nat) returns (es: seq<Event>, cs: seq<Cache>)
    ensures Runs(es, cs) && cs[|es|] == Cache(Filled(n), None, 0, [])
    decreases n
  {
    hide Step, Enabled;
    if n == 0 {
      es, cs := [], [Empty];
    } else {
      es, cs := Filling(n - 1);
      var e := Updated(Name(n - 1), V6, Sample(n - 1));
      FillStep(n);
      RunsOn(es, cs, e);
      es, cs := es + [e], cs + [Step(cs[|es|], e)];
    }
  }

  lemma FillStep(n: nat)
    requires n > 0
    ensures var c, e := Cache(Filled(n - 1), None, 0, []), Updated(Name(n - 1), V6, Sample(n - 1));
      Enabled(c, e) && Step(c, e) == Cache(Filled(n), None, 0, [])
  {
    FilledIs(n - 1);
  }

  /** Of all these only the first answer survives the cleanup. */
  lemma OneSurvives(n: nat)
    requires n > 0
    ensures DropAll(Filled(n), Names(n), 0) == map[Name(0) := Record(None, Some(Sample(0)))]
  {
    hide DropAll;
    FilledIs(n);
    var t := DropAll(Filled(n), Names(n), 0);
    DropAllNoBlank(Filled(n), Names(n), 0);
    forall d
      ensures d in t <==> d == Name(0)
      ensures d in t ==> t[d] == Record(None, Some(Sample(0)))
    {
      DropAllLookup(Filled(n), Names(n), 0, d, V4);
      DropAllLookup(Filled(n), Names(n), 0, d, V6);
      InNames(d, n);
    }
  }

  lemma InNames(d: Domain, n: nat)
    ensures d in Names(n) <==> |d| < n && d == Name(|d|)
  {
    if |d| < n && d == Name(|d|) {
      assert Names(n)[|d|] == d;
    }
  }

  /** A run in which a reader misses an answer: enough answers to make the map
      worth rebuilding, a cleanup that leaves one of them and starts a migration,
      and an update of its other family before it is flushed. */
  lemma UpdateCanHide(n: nat, x: Answer) returns (es: seq<Event>, cs: seq<Cache>)
    requires n > SHRINK_ABSOLUTE_THRESHOLD + 1
    ensures Runs(es, cs)
    ensures var c := cs[|es|];
      View(c, Name(0), V6) == Some(Sample(0)) && FindFamily(c, Name(0), V6) == None && FindFamily(c, Name(0), V4) == Some(x)
  {
    hide DropAll, Filled, Names;
    es, cs := Filling(n);
    FilledIs(n);
    OneSurvives(n);
    var e := Cleaned(Names(n), 0, [Name(0)]);
    RunsOn(es, cs, e);
    es, cs := es + [e], cs + [Step(cs[|es|], e)];
    RunsOn(es, cs, Updated(Name(0), V4, x));
    es, cs := es + [Updated(Name(0), V4, x)], cs + [Step(cs[|es|], Updated(Name(0), V4, x))];
  }

  // ----- what a cleanup takes -----

  /** An answer after a cleanup of its domain at this bound. */
  function Outlives(x: Option<Answer>, bound: int): Option<Answer> {
    if x.Some? && x.value.expire < bound then None else x
  }

  /** t is ips without the answers of the given domains that expired before the
      bound, and without domains that have none left. */
  ghost predicate CleanedTable(ips: Table, t: Table, keys: seq<Domain>, bound: int) {
    && (forall d :: d in t ==> d in ips)
    && (forall d :: d in ips && d !in keys ==> d in t && t[d] == ips[d])
    && (forall d :: d in ips && d in keys ==>
          && (d in t <==> Outlives(ips[d].a, bound).Some? || Outlives(ips[d].aaaa, bound).Some?)
          && (d in t ==> t[d] == Record(Outlives(ips[d].a, bound), Outlives(ips[d].aaaa, bound))))
  }

  lemma {:induction false} DropCleans(t: Table, keys: seq<Domain>, bound: int)
    ensures CleanedTable(t, DropAll(t, keys, bound), keys, bound)
    decreases |keys|
  {
    if keys != [] {
      DropCleans(DropExpired(t, keys[0], bound), keys[1..], bound);
    }
  }

  // ----- the controller -----

  datatype Collected = NothingToDo | Keys(keys: seq<Domain>)

  class CacheController {
    const disableCache: bool
    const serveStale: bool
    /** Zero or negative: how long expired answers are still kept. */
    const serveExpiredTTL: int
    var ips: Table
    var dirtyips: Option<Table>
    var highWatermark: nat
    /** Keys the running migration has not flushed yet. */
    var rest: seq<Domain>

    constructor (disableCache: bool, serveStale: bool, serveExpiredTTL: nat)
      ensures Now() == Empty && this.disableCache == disableCache && this.serveStale == serveStale
      ensures this.serveExpiredTTL == -(serveExpiredTTL as int)
    {
      this.disableCache := disableCache;
      this.serveStale := serveStale;
      this.serveExpiredTTL := 0 - serveExpiredTTL as int;
      ips := map[];
      dirtyips := None;
      highWatermark := 0;
      rest := [];
    }

    function Now(): Cache
      reads this
    {
      Cache(ips, dirtyips, highWatermark, rest)
    }

    function Cutoff(now: int): int {
      if serveStale && serveExpiredTTL != 0 then now + serveExpiredTTL else now
    }

    /** updateRecord: the update, and the answer of the other family that may be
        published along with it, which is what the plain map holds. */
    method UpdateRecord(d: Domain, f: Family, x: Answer) returns (pub: Option<Answer>)
      modifies this
      ensures Now() == if disableCache then old(Now()) else Update(old(Now()), d, f, x)
      ensures pub == if disableCache then None else View(old(Now()), d, Other(f))
    {
      pub := None;
      if disableCache {
        return;
      }
      var rec := Set(Record(None, None), f, Some(x));
      var o := Other(f);
      if d in ips && Get(ips[d], o).Some? {
        rec := Set(rec, o, Get(ips[d], o));
        pub := Get(ips[d], o);
      } else if dirtyips.Some? && d in dirtyips.value && Get(dirtyips.value[d], o).Some? {
        pub := Get(dirtyips.value[d], o);
      }
      ips := ips[d := rec];
    }

    /** findRecords, read under the shared lock. */
    method FindRecords(d: Domain) returns (r: Option<Record>)
      ensures r == Find(Now(), d)
    {
      r := if d in ips then Some(ips[d]) else None;
      if r.None? && dirtyips.Some? {
        r := if d in dirtyips.value then Some(dirtyips.value[d]) else None;
      }
    }

    /** collectExpiredKeys: exactly the domains with an expired family, and none
        while a migration is on. */
    method CollectExpiredKeys(now: int) returns (r: Collected)
      ensures r.NothingToDo? <==> ips == map[]
      ensures r.Keys? ==> forall d :: d in r.keys <==>
        && dirtyips.None? && d in ips
        && ((ips[d].a.Some? && ips[d].a.value.expire < (if serveStale then now + serveExpiredTTL else now))
            || (ips[d].aaaa.Some? && ips[d].aaaa.value.expire < (if serveStale then now + serveExpiredTTL else now)))
    {
      if |ips| == 0 {
        return NothingToDo;
      }
      if dirtyips.Some? {
        return Keys([]);
      }
      var keys, todo := [], ips.Keys;
      while todo != {}
        invariant todo <= ips.Keys
        invariant forall d :: d in keys <==> d in ips && d !in todo && (Expired(ips[d].a, Cutoff(now)) || Expired(ips[d].aaaa, Cutoff(now)))
        decreases |todo|
      {
        var d :| d in todo;
        todo := todo - {d};
        if Expired(ips[d].a, Cutoff(now)) || Expired(ips[d].aaaa, Cutoff(now)) {
          keys := keys + [d];
        }
      }
      r := Keys(keys);
    }

    /** writeAndShrink: checks expiry again, because the keys were collected under
        another lock, then may start a migration over all keys in some order. */
    method WriteAndShrink(keys: seq<Domain>, now: int)
      modifies this
      ensures Now() == Cleanup(old(Now()), keys, Cutoff(now), rest)
      ensures Enabled(old(Now()), Cleaned(keys, Cutoff(now), rest))
      ensures old(dirtyips).None? ==>
        var t := if dirtyips.Some? then dirtyips.value else ips;
        var peak := if |old(ips)| > old(highWatermark) then |old(ips)| else old(highWatermark);
        && CleanedTable(old(ips), t, keys, if serveStale then now + serveExpiredTTL else now)
        && (dirtyips.Some? <==> |t| > 0 && peak - |t| > 10240 && 20 * (peak - |t|) > 13 * peak)
        && (dirtyips.Some? ==> ips == map[] && forall d :: d in rest <==> d in t)
        && highWatermark == (if |t| == 0 then (if peak >= 512 then 0 else peak) else if dirtyips.Some? then |t| else peak)
      ensures old(dirtyips).Some? ==> Now() == old(Now())
    {
      hide DropAll;
      DropCleans(ips, keys, Cutoff(now));
      if dirtyips.Some? {
        return;
      }
      var before := |ips|;
      if before > highWatermark {
        highWatermark := before;
      }
      Drop(keys, Cutoff(now));
      var after := |ips|;
      if after == 0 {
        if highWatermark >= MIN_SIZE_FOR_EMPTY_REBUILD {
          ips, highWatermark := map[], 0;
        }
        return;
      }
      var reduction := highWatermark - after;
      if reduction > SHRINK_ABSOLUTE_THRESHOLD && 20 * reduction > 13 * highWatermark {
        var order := Enumerate(ips.Keys);
        dirtyips, ips, highWatermark, rest := Some(ips), map[], after, order;
      }
    }

    method Drop(keys: seq<Domain>, now: int)
      modifies this`ips
      ensures ips == DropAll(old(ips), keys, now)
    {
      for i := 0 to |keys|
        invariant DropAll(old(ips), keys, now) == DropAll(ips, keys[i..], now)
      {
        var d := keys[i];
        if d in ips {
          var rec := ips[d];
          if Expired(rec.a, now) {
            rec := rec.(a := None);
          }
          if Expired(rec.aaaa, now) {
            rec := rec.(aaaa := None);
          }
          assert rec == Record(Fresher(ips[d].a, now), Fresher(ips[d].aaaa, now));
          ips := if rec == Record(None, None) then ips - {d} else ips[d := rec];
        }
        assert keys[i..][1..] == keys[i + 1..];
      }
    }

    /** One step of migrate: collect the next batch and flush it. */
    method Flush()
      requires Inv(Now()) && Enabled(Now(), Flushed)
      modifies this
      ensures Now() == Step(old(Now()), Flushed)
      ensures rest == old(rest)[if |old(rest)| < 4096 then |old(rest)| else 4096..]
    {
      var n := if |rest| < MIGRATION_BATCH_SIZE then |rest| else MIGRATION_BATCH_SIZE;
      var batch, dirty := rest[..n], dirtyips.value;
      for i := 0 to |batch|
        invariant dirtyips == old(dirtyips) && highWatermark == old(highWatermark) && rest == old(rest)
        invariant FlushAll(old(ips), batch, dirty) == FlushAll(ips, batch[i..], dirty)
      {
        var key := batch[i];
        var value := dirty[key];
        if key in ips {
          var cur := ips[key];
          var merge := Record(None, None);
          merge := merge.(a := if cur.a.None? then value.a else cur.a);
          merge := merge.(aaaa := if cur.aaaa.None? then value.aaaa else cur.aaaa);
          ips := ips[key := merge];
        } else {
          ips := ips[key := value];
        }
        assert batch[i..][1..] == batch[i + 1..];
      }
      rest := rest[n..];
    }

    method FinishMigration()
      requires Inv(Now()) && Enabled(Now(), Finished)
      modifies this
      ensures Now() == Step(old(Now()), Finished)
    {
      dirtyips := None;
    }
  }

  method Enumerate(s: set<Domain>) returns (order: seq<Domain>)
    ensures forall d :: d in order <==> d in s
  {
    order := [];
    var todo := s;
    while todo != {}
      invariant todo <= s
      invariant forall d :: d in order <==> d in s && d !in todo
      decreases |todo|
    {
      var d :| d in todo;
      order, todo := order + [d], todo - {d};
    }
  }
}
