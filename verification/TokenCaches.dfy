/** Viewer-token verification (pkg/appworker/apiclient.go): four TTL caches with different key
    shapes in front of one upstream token store. Cache keys are the tuples that the source
    hashes; the hash is taken to be collision-free. */
module TokenCaches {
  import opened Options
  import opened Clock

  const POSITIVE_TTL: nat := 15 * SECOND
  const NEGATIVE_TTL: nat := 60 * SECOND
  const ACTIVE_TTL: nat := 15 * SECOND

  // ------------------------------------------------------------------ the TTL cache

  datatype Entry<+V> = Entry(value: V, expiresAt: int)

  function Lookup<K, V>(data: map<K, Entry<V>>, key: K, now: int): Option<V> {
    if key in data && now < data[key].expiresAt then Some(data[key].value) else None
  }

  function Store<K, V>(data: map<K, Entry<V>>, key: K, value: V, ttl: nat, now: int): map<K, Entry<V>> {
    data[key := Entry(value, now + ttl)]
  }

  class TtlCache<K(==), V> {
    var data: map<K, Entry<V>>

    constructor ()
      ensures data == map[]
    {
      data := map[];
    }

    method Get(key: K, now: int) returns (v: Option<V>)
      ensures v == Lookup(data, key, now)
    {
      if key !in data || !(now < data[key].expiresAt) {
        return None;
      }
      v := Some(data[key].value);
    }

    method Set(key: K, value: V, ttl: nat, now: int)
      modifies this
      ensures data == Store(old(data), key, value, ttl, now)
    {
      data := data[key := Entry(value, now + ttl)];
    }
  }

  // --------------------------------------------------------------- the verification

  datatype Pair = Pair(app: string, token: string)
  datatype Triple = Triple(pair: Pair, secret: string)

  datatype Caches = Caches(
    positive: map<Triple, Entry<bool>>,
    inactive: map<Pair, Entry<bool>>,
    wrongSecret: map<Triple, Entry<bool>>,
    active: map<Pair, Entry<bool>>)

  // An answer from upstream or to the caller; `Failed` is a transport or API error.
  datatype Answer = Is(b: bool) | Failed

  // `CheckTokenActive`, given what upstream would answer now.
  function Check(c: Caches, p: Pair, now: int, upActive: Answer): (Answer, Caches) {
    var hit := Lookup(c.active, p, now);
    if hit.Some? then (Is(hit.value), c)
    else if upActive.Failed? then (Failed, c)
    else (upActive, c.(active := Store(c.active, p, upActive.b, ACTIVE_TTL, now)))
  }

  // Whether `VerifyToken` gets past its three lookups.
  predicate AsksUpstream(c: Caches, t: Triple, now: int) {
    && Lookup(c.positive, t, now).None?
    && Lookup(c.inactive, t.pair, now).None?
    && Lookup(c.wrongSecret, t, now).None?
  }

  // `VerifyToken`, given what upstream would answer now.
  function Verify(c: Caches, t: Triple, now: int, upVerify: Answer, upActive: Answer): (Answer, Caches) {
    if Lookup(c.positive, t, now).Some? then (Is(Lookup(c.positive, t, now).value), c)
    else if Lookup(c.inactive, t.pair, now).Some? then (Is(false), c)
    else if Lookup(c.wrongSecret, t, now).Some? then (Is(false), c)
    else match upVerify
      case Failed => (Failed, c)
      case Is(true) => (Is(true), c.(positive := Store(c.positive, t, true, POSITIVE_TTL, now)))
      case Is(false) =>
        var (live, c1) := Check(c, t.pair, now, upActive);
        (Is(false),
         match live
         case Failed => c1
         case Is(true) => c1.(wrongSecret := Store(c1.wrongSecret, t, false, NEGATIVE_TTL, now))
         case Is(false) => c1.(inactive := Store(c1.inactive, t.pair, false, NEGATIVE_TTL, now)))
  }

  class Client {
    const positive: TtlCache<Triple, bool>
    const inactive: TtlCache<Pair, bool>
    const wrongSecret: TtlCache<Triple, bool>
    const active: TtlCache<Pair, bool>

    ghost predicate Valid() {
      positive != wrongSecret && inactive != active
    }

    ghost function View(): Caches
      reads positive, inactive, wrongSecret, active
    {
      Caches(positive.data, inactive.data, wrongSecret.data, active.data)
    }

    constructor ()
      ensures Valid() && fresh(positive) && fresh(inactive) && fresh(wrongSecret) && fresh(active)
      ensures View() == Caches(map[], map[], map[], map[])
    {
      positive := new TtlCache();
      inactive := new TtlCache();
      wrongSecret := new TtlCache();
      active := new TtlCache();
    }

    method CheckTokenActive(p: Pair, now: int, upActive: Answer) returns (r: Answer)
      requires Valid()
      modifies active
      ensures (r, View()) == Check(old(View()), p, now, upActive)
    {
      var hit := active.Get(p, now);
      if hit.Some? {
        return Is(hit.value);
      }
      if upActive.Failed? {
        return Failed;
      }
      active.Set(p, upActive.b, ACTIVE_TTL, now);
      r := upActive;
    }

    method VerifyToken(t: Triple, now: int, upVerify: Answer, upActive: Answer) returns (r: Answer)
      requires Valid()
      modifies positive, inactive, wrongSecret, active
      ensures (r, View()) == Verify(old(View()), t, now, upVerify, upActive)
    {
      var hit := positive.Get(t, now);
      if hit.Some? {
        return Is(hit.value);
      }
      hit := inactive.Get(t.pair, now);
      if hit.Some? {
        return Is(false);
      }
      hit := wrongSecret.Get(t, now);
      if hit.Some? {
        return Is(false);
      }
      if upVerify.Failed? {
        return Failed;
      }
      if upVerify.b {
        positive.Set(t, true, POSITIVE_TTL, now);
        return Is(true);
      }
      var live := CheckTokenActive(t.pair, now, upActive);
      match live {
        case Failed =>
        case Is(b) =>
          if b {
            wrongSecret.Set(t, false, NEGATIVE_TTL, now);
          } else {
            inactive.Set(t.pair, false, NEGATIVE_TTL, now);
          }
      }
      r := Is(false);
    }
  }

  // ------------------------------------------- histories of calls against a token store

  // A token row: active since some moment, or revoked at one and for good.
  datatype Row = Active(secret: string, since: int) | Revoked(at: int)

  datatype Asked = AskedVerify(at: int, t: Triple, ok: bool) | AskedActive(at: int, p: Pair, ok: bool)

  datatype World = World(now: int, rows: map<Pair, Row>, caches: Caches, asked: set<Asked>)

  datatype Event =
    | Tick(d: nat)
    | Create(p: Pair, secret: string)
    | Revoke(p: Pair)
    | CallVerify(t: Triple, verifyUp: bool, activeUp: bool)   // flags: is upstream reachable
    | CallCheck(p: Pair, activeUp: bool)

  predicate Genuine(rows: map<Pair, Row>, t: Triple) {
    t.pair in rows && rows[t.pair].Active? && rows[t.pair].secret == t.secret
  }

  predicate Live(rows: map<Pair, Row>, p: Pair) {
    p in rows && rows[p].Active?
  }

  function UpVerify(w: World, t: Triple, up: bool): Answer {
    if up then Is(Genuine(w.rows, t)) else Failed
  }

  function UpActive(w: World, p: Pair, up: bool): Answer {
    if up then Is(Live(w.rows, p)) else Failed
  }

  predicate Enabled(w: World, e: Event) {
    match e
    case Create(p, _) => p !in w.rows
    case Revoke(p) => Live(w.rows, p)
    case _ => true
  }

  // The question `CheckTokenActive` puts to upstream, if it gets an answer.
  function CheckAsks(w: World, p: Pair, up: bool): set<Asked> {
    if Lookup(w.caches.active, p, w.now).None? && up then {AskedActive(w.now, p, Live(w.rows, p))} else {}
  }

  function VerifyAsks(w: World, t: Triple, verifyUp: bool, activeUp: bool): set<Asked> {
    if !AsksUpstream(w.caches, t, w.now) || !verifyUp then {}
    else if Genuine(w.rows, t) then {AskedVerify(w.now, t, true)}
    else {AskedVerify(w.now, t, false)} + CheckAsks(w, t.pair, activeUp)
  }

  function VerifyIn(w: World, t: Triple, verifyUp: bool, activeUp: bool): (Answer, Caches) {
    Verify(w.caches, t, w.now, UpVerify(w, t, verifyUp), UpActive(w, t.pair, activeUp))
  }

  function Next(w: World, e: Event): World
    requires Enabled(w, e)
  {
    match e
    case Tick(d) => w.(now := w.now + d)
    case Create(p, secret) => w.(rows := w.rows[p := Active(secret, w.now)])
    case Revoke(p) => w.(rows := w.rows[p := Revoked(w.now)])
    case CallVerify(t, vu, au) =>
      w.(caches := VerifyIn(w, t, vu, au).1, asked := w.asked + VerifyAsks(w, t, vu, au))
    case CallCheck(p, au) =>
      w.(caches := Check(w.caches, p, w.now, UpActive(w, p, au)).1, asked := w.asked + CheckAsks(w, p, au))
  }

  // A process starting at `start` with empty caches over rows written earlier.
  function Initial(start: int, rows: map<Pair, Row>): World {
    World(start, rows, Caches(map[], map[], map[], map[]), {})
  }

  predicate RowsBefore(start: int, rows: map<Pair, Row>) {
    forall p :: p in rows ==> (if rows[p].Active? then rows[p].since else rows[p].at) < start
  }

  function Exec(start: int, rows: map<Pair, Row>, es: seq<Event>): Option<World> {
    if es == [] then Some(Initial(start, rows))
    else
      var prev := Exec(start, rows, es[..|es| - 1]);
      var e := es[|es| - 1];
      if prev.Some? && Enabled(prev.value, e) then Some(Next(prev.value, e)) else None
  }

  // ------------------------------------------------------------------ the invariant

  // Every cached answer rests on an upstream answer of known age.
  ghost predicate Provenance(w: World) {
    && (forall t :: t in w.caches.positive ==>
          w.caches.positive[t].value &&
          AskedVerify(w.caches.positive[t].expiresAt - POSITIVE_TTL, t, true) in w.asked)
    && (forall t :: t in w.caches.wrongSecret ==>
          AskedVerify(w.caches.wrongSecret[t].expiresAt - NEGATIVE_TTL, t, false) in w.asked)
    && (forall p :: p in w.caches.active ==>
          AskedActive(w.caches.active[p].expiresAt - ACTIVE_TTL, p, w.caches.active[p].value) in w.asked)
    && (forall p :: p in w.caches.inactive ==>
          InactiveWithin(w, p, w.caches.inactive[p].expiresAt - NEGATIVE_TTL, ACTIVE_TTL))
  }

  // Upstream called the token inactive less than `age` before `moment`.
  ghost predicate InactiveWithin(w: World, p: Pair, moment: int, age: nat) {
    exists at :: AskedActive(at, p, false) in w.asked && moment - at < age
  }

  // Upstream answers agree with the row's history.
  ghost predicate Honest(start: int, w: World) {
    && start <= w.now
    && (forall a :: a in w.asked ==> start <= a.at <= w.now)
    && (forall a :: a in w.asked && a.AskedVerify? && a.ok ==>
          a.t.pair in w.rows && (w.rows[a.t.pair].Revoked? ==> a.at <= w.rows[a.t.pair].at))
    && (forall a :: a in w.asked && a.AskedVerify? && !a.ok && Genuine(w.rows, a.t) ==>
          a.at <= w.rows[a.t.pair].since)
    && (forall a :: a in w.asked && a.AskedActive? && !a.ok && Live(w.rows, a.p) ==>
          a.at <= w.rows[a.p].since)
    && (forall p :: p in w.rows ==> (if w.rows[p].Active? then w.rows[p].since else w.rows[p].at) <= w.now)
  }

  lemma InactiveStays(w: World, n: World, p: Pair, moment: int, age: nat)
    requires InactiveWithin(w, p, moment, age) && w.asked <= n.asked
    ensures InactiveWithin(n, p, moment, age)
  {
    var at :| AskedActive(at, p, false) in w.asked && moment - at < age;
    assert AskedActive(at, p, false) in n.asked;
  }

  lemma ProvenanceCheck(w: World, p: Pair, up: bool)
    requires Provenance(w)
    ensures var n := w.(caches := Check(w.caches, p, w.now, UpActive(w, p, up)).1,
                        asked := w.asked + CheckAsks(w, p, up));
      && Provenance(n)
      && n.caches == w.caches.(active := n.caches.active)
      && (Check(w.caches, p, w.now, UpActive(w, p, up)).0 == Is(false) ==>
            InactiveWithin(n, p, w.now, ACTIVE_TTL))
  {
    var n := w.(caches := Check(w.caches, p, w.now, UpActive(w, p, up)).1,
                asked := w.asked + CheckAsks(w, p, up));
    forall q | q in n.caches.inactive
      ensures InactiveWithin(n, q, n.caches.inactive[q].expiresAt - NEGATIVE_TTL, ACTIVE_TTL)
    {
      InactiveStays(w, n, q, w.caches.inactive[q].expiresAt - NEGATIVE_TTL, ACTIVE_TTL);
    }
    if Check(w.caches, p, w.now, UpActive(w, p, up)).0 == Is(false) {
      if Lookup(w.caches.active, p, w.now).Some? {
        assert AskedActive(w.caches.active[p].expiresAt - ACTIVE_TTL, p, false) in n.asked;
      } else {
        assert AskedActive(w.now, p, false) in n.asked;
      }
    }
  }

  lemma ProvenanceGrows(w: World, more: set<Asked>)
    requires Provenance(w)
    ensures Provenance(w.(asked := w.asked + more))
  {
    var n := w.(asked := w.asked + more);
    forall q | q in n.caches.inactive
      ensures InactiveWithin(n, q, n.caches.inactive[q].expiresAt - NEGATIVE_TTL, ACTIVE_TTL)
    {
      InactiveStays(w, n, q, n.caches.inactive[q].expiresAt - NEGATIVE_TTL, ACTIVE_TTL);
    }
  }

  // One more entry, whose own provenance is known.
  lemma ProvenanceStores(w: World, c: Caches, t: Triple)
    requires Provenance(w)
    requires
      || c == w.caches
      || (c == w.caches.(positive := Store(w.caches.positive, t, true, POSITIVE_TTL, w.now)) &&
          AskedVerify(w.now, t, true) in w.asked)
      || (c == w.caches.(wrongSecret := Store(w.caches.wrongSecret, t, false, NEGATIVE_TTL, w.now)) &&
          AskedVerify(w.now, t, false) in w.asked)
      || (c == w.caches.(inactive := Store(w.caches.inactive, t.pair, false, NEGATIVE_TTL, w.now)) &&
          InactiveWithin(w, t.pair, w.now, ACTIVE_TTL))
    ensures Provenance(w.(caches := c))
  {
    var n := w.(caches := c);
    forall q | q in n.caches.inactive
      ensures InactiveWithin(n, q, n.caches.inactive[q].expiresAt - NEGATIVE_TTL, ACTIVE_TTL)
    {
      InactiveStays(w, n, q, n.caches.inactive[q].expiresAt - NEGATIVE_TTL, ACTIVE_TTL);
    }
  }

  lemma ProvenanceVerify(w: World, t: Triple, vu: bool, au: bool)
    requires Provenance(w)
    ensures Provenance(Next(w, CallVerify(t, vu, au)))
  {
    hide Provenance;
    var n := Next(w, CallVerify(t, vu, au));
    if AsksUpstream(w.caches, t, w.now) && vu {
      if Genuine(w.rows, t) {
        ProvenanceGrows(w, {AskedVerify(w.now, t, true)});
        ProvenanceStores(w.(asked := n.asked), n.caches, t);
      } else {
        ProvenanceCheck(w, t.pair, au);
        var m := w.(caches := Check(w.caches, t.pair, w.now, UpActive(w, t.pair, au)).1,
                    asked := w.asked + CheckAsks(w, t.pair, au));
        ProvenanceGrows(m, {AskedVerify(w.now, t, false)});
        assert n.asked == m.asked + {AskedVerify(w.now, t, false)};
        var k := m.(asked := n.asked);
        if Check(w.caches, t.pair, w.now, UpActive(w, t.pair, au)).0 == Is(false) {
          InactiveStays(m, k, t.pair, w.now, ACTIVE_TTL);
        }
        ProvenanceStores(k, n.caches, t);
        assert n == k.(caches := n.caches);
      }
    } else {
      assert n == w.(asked := w.asked + {});
      ProvenanceGrows(w, {});
    }
  }

  lemma HonestStep(start: int, w: World, e: Event)
    requires Honest(start, w) && Enabled(w, e)
    ensures Honest(start, Next(w, e))
  {
    hide Check, Verify, Store;
  }

  lemma {:induction false} InvariantInEveryHistory(start: int, rows: map<Pair, Row>, es: seq<Event>, w: World)
    requires Exec(start, rows, es) == Some(w) && RowsBefore(start, rows)
    ensures Provenance(w) && Honest(start, w)
  {
    if es != [] {
      var prev, e := Exec(start, rows, es[..|es| - 1]).value, es[|es| - 1];
      InvariantInEveryHistory(start, rows, es[..|es| - 1], prev);
      HonestStep(start, prev, e);
      match e {
        case CallVerify(t, vu, au) => ProvenanceVerify(prev, t, vu, au);
        case CallCheck(p, au) => ProvenanceCheck(prev, p, au);
        case _ =>
          forall q | q in w.caches.inactive
            ensures InactiveWithin(w, q, w.caches.inactive[q].expiresAt - NEGATIVE_TTL, ACTIVE_TTL)
          {
            InactiveStays(prev, w, q, w.caches.inactive[q].expiresAt - NEGATIVE_TTL, ACTIVE_TTL);
          }
      }
    }
  }

  // ----------------------------------------------------------------- what callers get

  // A live entry for the key.
  predicate Holds<K, V>(data: map<K, Entry<V>>, key: K, now: int) {
    key in data && now < data[key].expiresAt
  }

  /** Exactly what a verification answers, in every history: true if a live positive entry says so,
      or if no cache applies and upstream, reachable, finds the secret genuine; an error exactly if
      no cache applies and upstream is not reachable; false otherwise. */
  lemma VerifyAnswers(start: int, rows: map<Pair, Row>, es: seq<Event>, w: World, t: Triple, vu: bool, au: bool)
    requires Exec(start, rows, es) == Some(w) && RowsBefore(start, rows)
    ensures var known := Holds(w.caches.positive, t, w.now);
      var refused := Holds(w.caches.inactive, t.pair, w.now) || Holds(w.caches.wrongSecret, t, w.now);
      var answer := VerifyIn(w, t, vu, au).0;
      && (answer == Is(true) <==> known || (!refused && vu && Genuine(w.rows, t)))
      && (answer == Failed <==> !known && !refused && !vu)
      && (answer == Is(false) <==> !known && (refused || (vu && !Genuine(w.rows, t))))
  {
    hide Exec, Honest;
    InvariantInEveryHistory(start, rows, es, w);
  }

  /** Exactly what a check answers: the live entry's value, else upstream's view of the token if it
      is reachable, else an error. */
  lemma CheckAnswers(w: World, p: Pair, up: bool)
    ensures var known := Holds(w.caches.active, p, w.now);
      var answer := Check(w.caches, p, w.now, UpActive(w, p, up)).0;
      && (answer == Is(true) <==> if known then w.caches.active[p].value else up && Live(w.rows, p))
      && (answer == Failed <==> !known && !up)
  {
  }

  // Upstream answers are still cached, for their whole period.
  ghost predicate Remembered(w: World) {
    && (forall a :: a in w.asked && a.AskedVerify? && a.ok ==>
          a.t in w.caches.positive && a.at + POSITIVE_TTL <= w.caches.positive[a.t].expiresAt)
    && (forall a :: a in w.asked && a.AskedActive? ==> a.p in w.caches.active && ActiveKept(a, w.caches.active[a.p]))
    && (forall p :: p in w.caches.active ==> w.caches.active[p].expiresAt <= w.now + ACTIVE_TTL)
    && (forall a :: a in w.asked ==> a.at <= w.now)
  }

  // The entry is the one this answer left, or one made after that had expired.
  predicate ActiveKept(a: Asked, e: Entry<bool>) {
    a.AskedActive? && (e == Entry(a.ok, a.at + ACTIVE_TTL) || a.at + ACTIVE_TTL <= e.expiresAt - ACTIVE_TTL)
  }

  lemma RememberedStep(w: World, e: Event)
    requires Remembered(w) && Enabled(w, e)
    ensures Remembered(Next(w, e))
  {
    match e {
      case CallVerify(t, vu, au) => RememberedVerify(w, t, vu, au);
      case CallCheck(p, au) => RememberedCheck(w, p, au);
      case _ =>
    }
  }

  lemma RememberedVerify(w: World, t: Triple, vu: bool, au: bool)
    requires Remembered(w)
    ensures Remembered(Next(w, CallVerify(t, vu, au)))
  {
    hide Genuine, Live, Check, CheckAsks, ActiveKept;
    var n := Next(w, CallVerify(t, vu, au));
    if AsksUpstream(w.caches, t, w.now) && vu && !Genuine(w.rows, t) {
      RememberedCheck(w, t.pair, au);
      CheckTouchesOnlyActive(w, t.pair, au);
      var m := w.(caches := Check(w.caches, t.pair, w.now, UpActive(w, t.pair, au)).1,
                  asked := w.asked + CheckAsks(w, t.pair, au));
      assert n.asked == m.asked + {AskedVerify(w.now, t, false)};
    }
  }

  lemma CheckTouchesOnlyActive(w: World, p: Pair, up: bool)
    ensures var c := Check(w.caches, p, w.now, UpActive(w, p, up)).1; c == w.caches.(active := c.active)
  {
  }

  lemma RememberedCheck(w: World, p: Pair, up: bool)
    requires Remembered(w)
    ensures Remembered(w.(caches := Check(w.caches, p, w.now, UpActive(w, p, up)).1, asked := w.asked + CheckAsks(w, p, up)))
  {
    hide Live;
  }

  lemma {:induction false} RememberedInEveryHistory(start: int, rows: map<Pair, Row>, es: seq<Event>, w: World)
    requires Exec(start, rows, es) == Some(w)
    ensures Remembered(w)
  {
    if es != [] {
      hide Next, Enabled, Remembered;
      var prev := Exec(start, rows, es[..|es| - 1]).value;
      RememberedInEveryHistory(start, rows, es[..|es| - 1], prev);
      RememberedStep(prev, es[|es| - 1]);
    }
  }

  /** An upstream answer serves every call of its period: for 15 s after an OK the same triple gets
      true, and for 15 s after an activity check the same pair gets the same answer, whether or not
      upstream can be reached. */
  lemma AnswersServeTheirPeriod(start: int, rows: map<Pair, Row>, es: seq<Event>, w: World, a: Asked, vu: bool, au: bool)
    requires Exec(start, rows, es) == Some(w) && RowsBefore(start, rows) && a in w.asked
    ensures a.AskedVerify? && a.ok && w.now - a.at < POSITIVE_TTL ==> VerifyIn(w, a.t, vu, au).0 == Is(true)
    ensures a.AskedActive? && w.now - a.at < ACTIVE_TTL ==>
      Check(w.caches, a.p, w.now, UpActive(w, a.p, au)).0 == Is(a.ok)
  {
    hide Exec;
    InvariantInEveryHistory(start, rows, es, w);
    RememberedInEveryHistory(start, rows, es, w);
  }

  /** What a refusal by upstream leaves behind: if the token turns out live, a refusal of this secret
      alone for 60 s; if it turns out inactive, a refusal of every secret for 60 s; if that cannot
      be found out, nothing. */
  lemma RefusalIsRemembered(w: World, t: Triple, au: bool)
    requires AsksUpstream(w.caches, t, w.now) && !Genuine(w.rows, t)
    ensures var n := Next(w, CallVerify(t, true, au)).caches;
      var known := Holds(w.caches.active, t.pair, w.now);
      var live := if known then w.caches.active[t.pair].value else Live(w.rows, t.pair);
      && n.positive == w.caches.positive
      && n.wrongSecret == (if (known || au) && live
                           then w.caches.wrongSecret[t := Entry(false, w.now + NEGATIVE_TTL)] else w.caches.wrongSecret)
      && n.inactive == (if (known || au) && !live
                        then w.caches.inactive[t.pair := Entry(false, w.now + NEGATIVE_TTL)] else w.caches.inactive)
  {
  }

  /** A `true` rests on an upstream OK for the same triple less than 15 s old; so none is given
      15 s or more after the token's revocation. */
  lemma TrueIsFresh(start: int, rows: map<Pair, Row>, es: seq<Event>, w: World, t: Triple, vu: bool, au: bool)
    requires Exec(start, rows, es) == Some(w) && RowsBefore(start, rows)
    requires VerifyIn(w, t, vu, au).0 == Is(true)
    ensures exists at ::
      AskedVerify(at, t, true) in Next(w, CallVerify(t, vu, au)).asked && 0 <= w.now - at < POSITIVE_TTL
    ensures t.pair in w.rows && (w.rows[t.pair].Revoked? ==> w.now < w.rows[t.pair].at + POSITIVE_TTL)
  {
    InvariantInEveryHistory(start, rows, es, w);
    var n := Next(w, CallVerify(t, vu, au));
    HonestStep(start, w, CallVerify(t, vu, au));
    if Lookup(w.caches.positive, t, w.now).Some? {
      assert AskedVerify(w.caches.positive[t].expiresAt - POSITIVE_TTL, t, true) in n.asked;
    } else {
      assert AskedVerify(w.now, t, true) in n.asked;
    }
  }

  /** A `false` taken from the pair-level cache rests on an upstream "inactive" less than 75 s
      old, one from the wrong-secret cache on an upstream refusal of that triple less than 60 s
      old. */
  lemma CachedFalseIsBounded(start: int, rows: map<Pair, Row>, es: seq<Event>, w: World, t: Triple)
    requires Exec(start, rows, es) == Some(w) && RowsBefore(start, rows)
    ensures Lookup(w.caches.inactive, t.pair, w.now).Some? ==>
      InactiveWithin(w, t.pair, w.now, NEGATIVE_TTL + ACTIVE_TTL - 1)
    ensures Lookup(w.caches.wrongSecret, t, w.now).Some? ==>
      exists at :: AskedVerify(at, t, false) in w.asked && w.now - at < NEGATIVE_TTL
  {
    InvariantInEveryHistory(start, rows, es, w);
    if Lookup(w.caches.inactive, t.pair, w.now).Some? {
      var at :| AskedActive(at, t.pair, false) in w.asked &&
        w.caches.inactive[t.pair].expiresAt - NEGATIVE_TTL - at < ACTIVE_TTL;
    }
    if Lookup(w.caches.wrongSecret, t, w.now).Some? {
      assert AskedVerify(w.caches.wrongSecret[t].expiresAt - NEGATIVE_TTL, t, false) in w.asked;
    }
  }

  // The longest a token can have been active and still be refused to its holder: the instant
  // of its creation is remembered as inactive for one period and then passed on for the other,
  // each ending just before its expiry.
  const LOCKOUT: nat := NEGATIVE_TTL + ACTIVE_TTL - 2

  /** The right secret is never locked out: over any history, with any calls by anyone, it gets
      no `false` once the token has been active for longer than that, and none at all when the
      token was active before the process started. */
  lemma RightSecretNeverLockedOut(start: int, rows: map<Pair, Row>, es: seq<Event>, w: World,
                                  t: Triple, vu: bool, au: bool)
    requires Exec(start, rows, es) == Some(w) && RowsBefore(start, rows)
    requires Genuine(w.rows, t)
    requires w.rows[t.pair].since < start || w.now - w.rows[t.pair].since > LOCKOUT
    ensures VerifyIn(w, t, vu, au).0 != Is(false)
  {
    InvariantInEveryHistory(start, rows, es, w);
    CachedFalseIsBounded(start, rows, es, w, t);
  }

  lemma ExecSnoc(start: int, rows: map<Pair, Row>, es: seq<Event>, e: Event)
    requires Exec(start, rows, es).Some? && Enabled(Exec(start, rows, es).value, e)
    ensures Exec(start, rows, es + [e]) == Some(Next(Exec(start, rows, es).value, e))
  {
    assert (es + [e])[..|es|] == es;
  }

  // A history of a fresh process at the end of which the holder of a token that has been active
  // for `age` is refused.
  ghost predicate Refused(start: int, rows: map<Pair, Row>, es: seq<Event>, w: World, t: Triple, age: int) {
    && Exec(start, rows, es) == Some(w) && RowsBefore(start, rows)
    && Genuine(w.rows, t) && w.now - w.rows[t.pair].since == age
    && exists vu, au :: VerifyIn(w, t, vu, au).0 == Is(false)
  }

  // Every VerifyToken call in the history is somebody else's wrong guess.
  predicate OnlyWrongGuesses(es: seq<Event>, t: Triple) {
    forall i :: 0 <= i < |es| && es[i].CallVerify? ==> es[i].t.secret != t.secret
  }

  // Asked about before it exists, a token is remembered as inactive; a wrong guess made before
  // that memory fades renews it, for every secret.
  lemma WrongGuessLocksOut(t: Triple, age: nat) returns (es: seq<Event>, w: World)
    requires age <= LOCKOUT
    ensures Refused(1, map[], es, w, t, age) && OnlyWrongGuesses(es, t)
  {
    hide Exec;
    var guess := Triple(t.pair, t.secret + "?");
    var early := if age < ACTIVE_TTL then age else ACTIVE_TTL - 1;
    var e1, e2, e3, e4, e5 := CallCheck(t.pair, true), Create(t.pair, t.secret), Tick(early),
      CallVerify(guess, true, true), Tick(age - early);
    Empty(1, map[]);
    ExecSnoc(1, map[], [], e1);
    ExecSnoc(1, map[], [] + [e1], e2);
    ExecSnoc(1, map[], [] + [e1] + [e2], e3);
    var before := Exec(1, map[], [] + [e1] + [e2] + [e3]).value;
    assert before.caches == Caches(map[], map[], map[], map[t.pair := Entry(false, 1 + ACTIVE_TTL)]);
    assert before.rows == map[t.pair := Active(t.secret, 1)] && before.now == 1 + early;
    ExecSnoc(1, map[], [] + [e1] + [e2] + [e3], e4);
    var after := Exec(1, map[], [] + [e1] + [e2] + [e3] + [e4]).value;
    GuessPoisons(before, guess, after);
    ExecSnoc(1, map[], [] + [e1] + [e2] + [e3] + [e4], e5);
    es := [] + [e1] + [e2] + [e3] + [e4] + [e5];
    assert es == [e1, e2, e3, e4, e5];
    w := Exec(1, map[], es).value;
    assert VerifyIn(w, t, true, true).0 == Is(false);
  }

  lemma Empty(start: int, rows: map<Pair, Row>)
    ensures Exec(start, rows, []) == Some(Initial(start, rows))
  {
  }

  // A wrong guess at a token remembered as inactive.
  lemma GuessPoisons(w: World, guess: Triple, n: World)
    requires w.caches.positive == map[] && w.caches.inactive == map[] && w.caches.wrongSecret == map[]
    requires Lookup(w.caches.active, guess.pair, w.now) == Some(false) && !Genuine(w.rows, guess)
    requires n == Next(w, CallVerify(guess, true, true))
    ensures n.caches == w.caches.(inactive := map[guess.pair := Entry(false, w.now + NEGATIVE_TTL)])
    ensures n.now == w.now && n.rows == w.rows
  {
  }

  /** Exactly how long: some history refuses the right secret of a token active for `age` if and
      only if `age` is at most two ticks short of 75 s. Other callers' wrong guesses suffice. */
  lemma LockedOutIffYoung(t: Triple, age: int)
    ensures (exists start, rows, es, w :: Refused(start, rows, es, w, t, age)) <==> 0 <= age <= LOCKOUT
    ensures (exists start, rows, es, w :: Refused(start, rows, es, w, t, age) && OnlyWrongGuesses(es, t)) <==>
      0 <= age <= LOCKOUT
  {
    if 0 <= age <= LOCKOUT {
      var es, w := WrongGuessLocksOut(t, age);
      var none: map<Pair, Row> := map[];
      assert Refused(1, none, es, w, t, age);
    }
    forall start, rows, es, w | Refused(start, rows, es, w, t, age)
      ensures 0 <= age <= LOCKOUT
    {
      InvariantInEveryHistory(start, rows, es, w);
      var vu, au :| VerifyIn(w, t, vu, au).0 == Is(false);
      if age > LOCKOUT {
        RightSecretNeverLockedOut(start, rows, es, w, t, vu, au);
      }
    }
  }
}
