/** The vended-credential cache (pkg/catalogwriter/vended_creds.go): the renewal rule, the
    stamping of fetched credentials, and every interleaving of `Get` and `Invalidate` over the
    hand-written single-flight. All times are on one clock; 0 is Go's zero time. */
module VendedCreds {
  import opened Options
  import opened Clock

  const MIN_RENEWAL_INTERVAL: int := 60 * SECOND

  datatype Creds = Creds(secret: string, issued: int, expires: int)

  // ------------------------------------------------------------- the renewal rule

  function Fraction(configured: real): real {
    if configured <= 0.0 || configured >= 1.0 then 0.5 else configured
  }

  // A share outside the open interval from 0 to 1 counts as one half.
  lemma TargetIsShare(configured: real, ttl: nat)
    ensures var share := if 0.0 < configured && configured < 1.0 then configured else 0.5;
      var target := RenewalTarget(configured, ttl);
      0 <= target <= ttl && target as real <= ttl as real * share < target as real + 1.0
  {
    var share := Fraction(configured);
    var x := ttl as real * share;
    assert 0.0 <= x <= ttl as real;
    assert x.Floor as real <= x < x.Floor as real + 1.0;
  }

  // The configured share of a lifetime, cut to whole nanoseconds.
  function RenewalTarget(fraction: real, ttl: int): int {
    (ttl as real * Fraction(fraction)).Floor
  }

  predicate ShouldRenew(fraction: real, c: Option<Creds>, now: int) {
    if c.None? then true
    else
      var exp, issued := c.value.expires, c.value.issued;
      if exp != 0 && now >= exp then true
      else if issued == 0 || exp == 0 then true
      else
        var ttl := exp - issued;
        if ttl <= 0 then true
        else if now - issued < MIN_RENEWAL_INTERVAL then false
        else now - issued >= RenewalTarget(fraction, ttl)
  }

  function Max(a: int, b: int): int { if a < b then b else a }

  predicate Stamped(c: Creds) { c.issued != 0 && c.expires != 0 }

  /** What the rule decides for a credential the cache can hold: renew once it has expired, or
      once both the floor and the configured share of its lifetime have passed. */
  lemma RenewalDecision(fraction: real, c: Creds, now: int)
    requires Stamped(c) && c.issued <= now
    ensures ShouldRenew(fraction, Some(c), now) <==>
      || now >= c.expires
      || now - c.issued >= Max(MIN_RENEWAL_INTERVAL, RenewalTarget(fraction, c.expires - c.issued))
  {
  }

  /** The floor is not absolute, whatever the comment on it says: inside it the cache renews
      exactly when the credential has expired. */
  lemma FloorYieldsToExpiry(fraction: real, c: Creds, now: int)
    requires Stamped(c) && c.issued <= now < c.issued + MIN_RENEWAL_INTERVAL
    ensures ShouldRenew(fraction, Some(c), now) <==> now >= c.expires
  {
    RenewalDecision(fraction, c, now);
  }

  // ------------------------------------------------------------ stamping in `fetch`

  datatype Kind = S3 | GCS

  // A parsed response: an absolute expiry claim (0 when absent) and, for S3, a relative
  // lifetime if one parsed.
  datatype Response = Response(kind: Kind, secret: string, claimed: int, ttl: Option<int>)

  function Stamp(r: Response, now: int): Creds {
    var relative :=
      if r.kind.S3? && r.claimed == 0 && r.ttl.Some? && 0 < r.ttl.value < 24 * 3600 * SECOND
      then now + r.ttl.value else r.claimed;
    Creds(r.secret, now, if relative == 0 then now + 15 * 60 * SECOND else relative)
  }

  /** A fetched credential keeps its secret, is issued now, and expires as the response claims;
      without a claim, after the relative lifetime of an S3 response if that is positive and below
      a day, and otherwise after fifteen minutes. */
  lemma StampIsComplete(r: Response, now: int)
    requires now > 0
    ensures var c := Stamp(r, now);
      && Stamped(c) && c.secret == r.secret && c.issued == now
      && (r.claimed != 0 ==> c.expires == r.claimed)
      && (r.claimed == 0 && r.kind == S3 && r.ttl.Some? && 0 < r.ttl.value < 24 * 3600 * SECOND ==>
            c.expires - c.issued == r.ttl.value)
      && (r.claimed == 0 && !(r.kind == S3 && r.ttl.Some? && 0 < r.ttl.value < 24 * 3600 * SECOND) ==>
            c.expires - c.issued == 900 * SECOND)
  {
  }

  // ----------------------------------------------------------- the shared fields

  datatype Fields = Fields(
    cached: Option<Creds>, lastErr: bool, fetching: bool, fetchDone: Option<nat>)

  // What the first critical section of `Get` decides.
  datatype Action = ReturnCached(c: Creds) | ParkOn(done: nat) | Pause | StartFetch(done: nat)

  // `t1` is the clock read by shouldRenew, `t2` the later read of the unexpired check.
  function Enter(fraction: real, f: Fields, t1: int, t2: int, chan: nat): (Action, Fields) {
    if f.cached.Some? && !ShouldRenew(fraction, f.cached, t1) then (ReturnCached(f.cached.value), f)
    else if f.fetching then
      if f.cached.Some? && t2 <= f.cached.value.expires then (ReturnCached(f.cached.value), f)
      else if f.fetchDone.None? then (Pause, f)
      else (ParkOn(f.fetchDone.value), f)
    else (StartFetch(chan), f.(fetching := true, fetchDone := Some(chan)))
  }

  // An answer to a `Get` call; `at` is the last clock reading it rests on.
  datatype Answer = Credential(c: Creds, at: int) | FetchError | ContextError

  function Finish(f: Fields, cur: Option<Creds>, fetched: Option<Creds>, t: int): (Answer, Fields) {
    if fetched.Some? then (Credential(fetched.value, t), Fields(fetched, false, false, None))
    else
      (if cur.Some? && t < cur.value.expires then Credential(cur.value, t) else FetchError,
       Fields(f.cached, true, false, None))
  }

  /** The cache object; each method is one critical section. */
  class Cache {
    const fraction: real
    var cached: Option<Creds>
    var lastErr: bool
    var fetching: bool
    var fetchDone: Option<nat>
    var nextChan: nat        // channels made so far

    ghost function View(): Fields
      reads this
    {
      Fields(cached, lastErr, fetching, fetchDone)
    }

    constructor (fraction: real)
      ensures View() == Fields(None, false, false, None) && nextChan == 0
      ensures this.fraction == fraction
    {
      this.fraction := fraction;
      cached, lastErr, fetching, fetchDone, nextChan := None, false, false, None, 0;
    }

    method EnterSection(t1: int, t2: int) returns (a: Action, cur: Option<Creds>)
      modifies this
      ensures (a, View()) == Enter(fraction, old(View()), t1, t2, old(nextChan))
      ensures cur == old(cached)
      ensures nextChan == old(nextChan) + (if a.StartFetch? then 1 else 0)
    {
      cur := cached;
      var due := ShouldRenew(fraction, cur, t1);
      if !due && cur.Some? {
        return ReturnCached(cur.value), cur;
      }
      if fetching {
        if cur.Some? && t2 <= cur.value.expires {
          return ReturnCached(cur.value), cur;
        }
        if fetchDone.None? {
          return Pause, cur;
        }
        return ParkOn(fetchDone.value), cur;
      }
      fetching := true;
      fetchDone := Some(nextChan);
      a := StartFetch(nextChan);
      nextChan := nextChan + 1;
    }

    method FinishSection(cur: Option<Creds>, fetched: Option<Creds>, t: int) returns (r: Answer)
      modifies this`cached, this`lastErr, this`fetching, this`fetchDone
      ensures (r, View()) == Finish(old(View()), cur, fetched, t)
    {
      fetching := false;
      fetchDone := None;
      if fetched.None? {
        lastErr := true;
        if cur.Some? && t < cur.value.expires {
          return Credential(cur.value, t);
        }
        return FetchError;
      }
      cached := fetched;
      lastErr := false;
      r := Credential(fetched.value, t);
    }

    method Invalidate()
      modifies this`cached
      ensures View() == old(View()).(cached := None)
    {
      cached := None;
    }
  }

  // ------------------------------------------------------------------- the machine

  // Where one `Get` call has got to.
  datatype PC =
    | AtTop
    | Parked(done: nat)
    | Pausing
    | Fetching(done: nat, cur: Option<Creds>, since: int)
    | Closing(done: nat, answer: Answer)       // lock released, channel still to be closed
    | Returned(answer: Answer)

  // A fetch start: the clock and the credential cached at that moment.
  datatype Start = Start(at: int, cached: Option<Creds>)

  datatype State = State(
    f: Fields, nextChan: nat, closed: set<nat>, clock: int,
    pcs: map<nat, PC>,
    found: map<nat, set<Creds>>,     // what each call has found in the cache
    fetched: map<nat, set<Creds>>,   // what each call's own fetches have brought
    starts: seq<Start>)

  datatype Event =
    | Call(g: nat)
    | EnterGet(g: nat, t1: int, t2: int)
    | Wake(g: nat)                 // the parked channel is closed
    | Resume(g: nat)               // the defensive pause is over
    | GiveUp(g: nat)               // the caller's context ends
    | FetchReturns(g: nat, r: Option<Response>, stampedAt: int, t: int)
    | CloseDone(g: nat)
    | InvalidateCache

  function Initial(start: int): State {
    State(Fields(None, false, false, None), 0, {}, start, map[], map[], map[], [])
  }

  predicate Known(s: State, g: nat) {
    g in s.pcs && g in s.found && g in s.fetched
  }

  predicate Enabled(s: State, e: Event) {
    match e
    case Call(g) => g !in s.pcs
    case EnterGet(g, t1, t2) => Known(s, g) && s.pcs[g].AtTop? && s.clock <= t1 <= t2
    case Wake(g) => Known(s, g) && s.pcs[g].Parked? && s.pcs[g].done in s.closed
    case Resume(g) => Known(s, g) && s.pcs[g].Pausing?
    case GiveUp(g) => Known(s, g) && (s.pcs[g].Parked? || s.pcs[g].Pausing?)
    case FetchReturns(g, _, stampedAt, t) =>
      Known(s, g) && s.pcs[g].Fetching? && s.clock <= t && s.pcs[g].since <= stampedAt <= t
    case CloseDone(g) => Known(s, g) && s.pcs[g].Closing?
    case InvalidateCache => true
  }

  function Move(s: State, g: nat, pc: PC): State { s.(pcs := s.pcs[g := pc]) }

  function EnterNext(fraction: real, s: State, g: nat, t1: int, t2: int): State
    requires Known(s, g)
  {
    var (a, f) := Enter(fraction, s.f, t1, t2, s.nextChan);
    var seen := if s.f.cached.Some? then s.found[g] + {s.f.cached.value} else s.found[g];
    var n := s.(f := f, clock := t2, found := s.found[g := seen]);
    match a
    case ReturnCached(c) => Move(n, g, Returned(Credential(c, if ShouldRenew(fraction, s.f.cached, t1) then t2 else t1)))
    case ParkOn(done) => Move(n, g, Parked(done))
    case Pause => Move(n, g, Pausing)
    case StartFetch(done) =>
      Move(n, g, Fetching(done, s.f.cached, t1)).(
        nextChan := s.nextChan + 1, starts := s.starts + [Start(t1, s.f.cached)])
  }

  function FetchNext(s: State, g: nat, fetched: Option<Creds>, t: int): State
    requires Known(s, g) && s.pcs[g].Fetching?
  {
    var (answer, f) := Finish(s.f, s.pcs[g].cur, fetched, t);
    var own := if fetched.Some? then s.fetched[g] + {fetched.value} else s.fetched[g];
    Move(s.(f := f, clock := t, fetched := s.fetched[g := own]), g, Closing(s.pcs[g].done, answer))
  }

  function StampOption(r: Option<Response>, at: int): Option<Creds> {
    if r.Some? then Some(Stamp(r.value, at)) else None
  }

  function Next(fraction: real, s: State, e: Event): State
    requires Enabled(s, e)
  {
    match e
    case Call(g) => Move(s.(found := s.found[g := {}], fetched := s.fetched[g := {}]), g, AtTop)
    case EnterGet(g, t1, t2) => EnterNext(fraction, s, g, t1, t2)
    case Wake(g) => Move(s, g, AtTop)
    case Resume(g) => Move(s, g, AtTop)
    case GiveUp(g) => Move(s, g, Returned(ContextError))
    case FetchReturns(g, r, stampedAt, t) => FetchNext(s, g, StampOption(r, stampedAt), t)
    case CloseDone(g) =>
      Move(s, g, Returned(s.pcs[g].answer)).(closed := s.closed + {s.pcs[g].done})
    case InvalidateCache => s.(f := s.f.(cached := None))
  }

  // The state after a sequence of events, if each was enabled; the clock starts above zero.
  function Exec(fraction: real, start: int, es: seq<Event>): Option<State> {
    if es == [] then Some(Initial(start))
    else
      var prev := Exec(fraction, start, es[..|es| - 1]);
      var e := es[|es| - 1];
      if prev.Some? && Enabled(prev.value, e) then Some(Next(fraction, prev.value, e)) else None
  }

  // ---------------------------------------------------------------- single flight

  // `g` owns channel `done`: it is fetching on it or about to close it.
  predicate Owns(s: State, g: nat, done: nat) {
    g in s.pcs && (s.pcs[g].Fetching? || s.pcs[g].Closing?) && s.pcs[g].done == done
  }

  // What holds of one call.
  ghost predicate CallOk(s: State, g: nat)
    requires g in s.pcs
  {
    match s.pcs[g]
    case Fetching(done, cur, since) =>
      && s.f.fetching && s.f.fetchDone == Some(done)
      && since <= s.clock
      && g in s.found && (cur.Some? ==> cur.value in s.found[g])
    case Parked(done) => done in s.closed || exists h :: Owns(s, h, done)
    case Pausing => false
    case Closing(done, answer) => AnswerOk(s, g, answer)
    case Returned(answer) => AnswerOk(s, g, answer)
    case AtTop => true
  }

  // A credential is this call's own fetch result, or one it found in the cache and checked
  // as not past its expiry.
  predicate AnswerOk(s: State, g: nat, answer: Answer) {
    answer.Credential? ==>
      && Known(s, g)
      && (answer.c in s.fetched[g] || (answer.c in s.found[g] && answer.at <= answer.c.expires))
  }

  ghost predicate FlightOk(s: State) {
    && s.pcs.Keys <= s.found.Keys && s.pcs.Keys <= s.fetched.Keys
    && (s.f.fetching <==> s.f.fetchDone.Some?)
    && (s.f.fetching ==> exists g :: Owns(s, g, s.f.fetchDone.value) && s.pcs[g].Fetching?)
    && (forall g, h :: g in s.pcs && h in s.pcs && s.pcs[g].Fetching? && s.pcs[h].Fetching? ==> g == h)
    && (forall g: nat, h: nat, done: nat :: Owns(s, g, done) && Owns(s, h, done) ==> g == h)
    && (forall g: nat, done: nat :: Owns(s, g, done) ==> done < s.nextChan && done !in s.closed)
    && (forall done :: done in s.closed ==> done < s.nextChan)
    && (forall g :: g in s.pcs ==> CallOk(s, g))
  }

  lemma FlightInitial(start: int)
    ensures FlightOk(Initial(start))
  {
  }

  // A step that moves one call without touching channel ownership.
  lemma FlightMoved(s: State, n: State, g: nat)
    requires FlightOk(s) && Known(n, g)
    requires n.pcs == s.pcs[g := n.pcs[g]]
    requires g in s.pcs ==> !s.pcs[g].Fetching? && !s.pcs[g].Closing?
    requires !n.pcs[g].Fetching? && !n.pcs[g].Closing?
    requires n.f.fetching == s.f.fetching && n.f.fetchDone == s.f.fetchDone
    requires n.nextChan == s.nextChan && n.closed == s.closed && s.clock <= n.clock
    requires n.found == s.found[g := n.found[g]] && n.fetched == s.fetched[g := n.fetched[g]]
    requires g in s.found && g in s.pcs ==> s.found[g] <= n.found[g]
    requires CallOk(n, g)
    ensures FlightOk(n)
  {
    assert forall h, done :: Owns(s, h, done) <==> Owns(n, h, done);
    forall h | h in n.pcs
      ensures CallOk(n, h)
    {
      assert h != g ==> CallOk(s, h);
    }
  }

  lemma FlightStarts(fraction: real, s: State, g: nat, t1: int, t2: int)
    requires FlightOk(s) && Enabled(s, EnterGet(g, t1, t2))
    requires Enter(fraction, s.f, t1, t2, s.nextChan).0.StartFetch?
    ensures FlightOk(EnterNext(fraction, s, g, t1, t2))
  {
    var n := EnterNext(fraction, s, g, t1, t2);
    assert Owns(n, g, s.nextChan);
    assert forall h, done :: h != g ==> (Owns(s, h, done) <==> Owns(n, h, done));
    forall h | h in n.pcs
      ensures CallOk(n, h)
    {
      assert h in s.pcs && CallOk(s, h);
      if h != g && s.pcs[h].Parked? && s.pcs[h].done !in s.closed {
        var o :| Owns(s, o, s.pcs[h].done);
        assert Owns(n, o, s.pcs[h].done);
      }
    }
  }

  lemma FlightEnters(fraction: real, s: State, g: nat, t1: int, t2: int)
    requires FlightOk(s) && Enabled(s, EnterGet(g, t1, t2))
    ensures FlightOk(EnterNext(fraction, s, g, t1, t2))
  {
    var (a, _) := Enter(fraction, s.f, t1, t2, s.nextChan);
    if a.StartFetch? {
      FlightStarts(fraction, s, g, t1, t2);
    } else {
      var n := EnterNext(fraction, s, g, t1, t2);
      if a.ParkOn? {
        var o :| Owns(s, o, s.f.fetchDone.value) && s.pcs[o].Fetching?;
        assert Owns(n, o, a.done);
      }
      FlightMoved(s, n, g);
    }
  }

  lemma FlightFetched(s: State, g: nat, fetched: Option<Creds>, t: int)
    requires FlightOk(s) && Known(s, g) && s.pcs[g].Fetching? && s.clock <= t
    ensures FlightOk(FetchNext(s, g, fetched, t))
  {
    var n := FetchNext(s, g, fetched, t);
    assert CallOk(s, g);
    assert forall h, done :: Owns(s, h, done) <==> Owns(n, h, done);
    forall h | h in n.pcs
      ensures CallOk(n, h)
    {
      assert CallOk(s, h);
    }
  }

  lemma FlightClosed(fraction: real, s: State, g: nat)
    requires FlightOk(s) && Enabled(s, CloseDone(g))
    ensures FlightOk(Next(fraction, s, CloseDone(g)))
  {
    var n := Next(fraction, s, CloseDone(g));
    assert CallOk(s, g);
    assert Owns(s, g, s.pcs[g].done);
    assert forall h, done :: h != g ==> (Owns(s, h, done) <==> Owns(n, h, done));
    if s.f.fetching {
      var o :| Owns(s, o, s.f.fetchDone.value) && s.pcs[o].Fetching?;
      assert Owns(n, o, s.f.fetchDone.value);
    }
    forall h | h in n.pcs
      ensures CallOk(n, h)
    {
      assert CallOk(s, h);
      if h != g && s.pcs[h].Parked? && s.pcs[h].done !in n.closed {
        var o :| Owns(s, o, s.pcs[h].done);
        assert Owns(n, o, s.pcs[h].done);
      }
    }
  }

  lemma FlightInvalidated(s: State)
    requires FlightOk(s)
    ensures FlightOk(s.(f := s.f.(cached := None)))
  {
    var n := s.(f := s.f.(cached := None));
    assert forall h, done :: Owns(s, h, done) <==> Owns(n, h, done);
    forall h | h in n.pcs
      ensures CallOk(n, h)
    {
      assert CallOk(s, h);
    }
  }

  lemma FlightStep(fraction: real, s: State, e: Event)
    requires FlightOk(s) && Enabled(s, e)
    ensures FlightOk(Next(fraction, s, e))
  {
    match e {
      case EnterGet(g, t1, t2) => FlightEnters(fraction, s, g, t1, t2);
      case FetchReturns(g, r, at, t) => FlightFetched(s, g, StampOption(r, at), t);
      case CloseDone(g) => FlightClosed(fraction, s, g);
      case InvalidateCache => FlightInvalidated(s);
      case Call(g) => FlightMoved(s, Next(fraction, s, e), g);
      case Wake(g) => FlightMoved(s, Next(fraction, s, e), g);
      case GiveUp(g) => FlightMoved(s, Next(fraction, s, e), g);
      case Resume(g) => assert false;
    }
  }

  /** For every interleaving of Get and Invalidate: at most one fetch is in flight; `fetching`
      holds exactly when `fetchDone` is set, and no call ever takes the defensive pause; every
      parked call's channel is closed or owned by a call that will still close it, and no
      channel is closed twice; every credential returned is the call's own fetch result or one
      it found in the cache and checked. */
  lemma {:induction false} FlightInEveryRun(fraction: real, start: int, es: seq<Event>, s: State)
    requires Exec(fraction, start, es) == Some(s)
    ensures FlightOk(s)
  {
    if es == [] {
      FlightInitial(start);
    } else {
      var prev := Exec(fraction, start, es[..|es| - 1]).value;
      FlightInEveryRun(fraction, start, es[..|es| - 1], prev);
      FlightStep(fraction, prev, es[|es| - 1]);
    }
  }

  // The same, read off for one call and one channel.
  lemma EveryCall(fraction: real, start: int, es: seq<Event>, s: State, g: nat)
    requires Exec(fraction, start, es) == Some(s) && g in s.pcs
    ensures !s.pcs[g].Pausing?
    ensures s.pcs[g].Parked? ==>
      s.pcs[g].done in s.closed || exists h :: Owns(s, h, s.pcs[g].done)
    ensures s.pcs[g].Closing? ==> s.pcs[g].done !in s.closed
    ensures s.pcs[g].Returned? ==> AnswerOk(s, g, s.pcs[g].answer)
    ensures s.f.fetching <==> s.f.fetchDone.Some?
    ensures forall h :: h in s.pcs && s.pcs[h].Fetching? && s.pcs[g].Fetching? ==> h == g
  {
    FlightInEveryRun(fraction, start, es, s);
    assert CallOk(s, g);
    if s.pcs[g].Closing? {
      assert Owns(s, g, s.pcs[g].done);
    }
  }

  // ------------------------------------------------------------- how often it fetches

  // Nothing the cache holds is unstamped or from the future.
  ghost predicate CacheStamped(s: State) {
    && s.clock > 0
    && (s.f.cached.Some? ==> Stamped(s.f.cached.value) && s.f.cached.value.issued <= s.clock)
    && (forall g :: g in s.pcs && s.pcs[g].Fetching? ==> 0 < s.pcs[g].since)
  }

  // Why a fetch may start.
  predicate StartJustified(fraction: real, st: Start) {
    || st.cached.None?
    || st.at >= st.cached.value.expires
    || st.at - st.cached.value.issued
         >= Max(MIN_RENEWAL_INTERVAL, RenewalTarget(fraction, st.cached.value.expires - st.cached.value.issued))
  }

  lemma StartStep(fraction: real, s: State, e: Event)
    requires CacheStamped(s) && Enabled(s, e)
    ensures var n := Next(fraction, s, e);
      && CacheStamped(n)
      && (n.starts == s.starts ||
            exists st :: n.starts == s.starts + [st] && StartJustified(fraction, st))
  {
    var n := Next(fraction, s, e);
    if e.EnterGet? && s.f.cached.Some? {
      RenewalDecision(fraction, s.f.cached.value, e.t1);
    }
    if e.EnterGet? && n.starts != s.starts {
      assert n.starts == s.starts + [Start(e.t1, s.f.cached)];
    }
    if e.FetchReturns? && e.r.Some? {
      StampIsComplete(e.r.value, e.stampedAt);
    }
  }

  /** Every fetch starts with an empty cache, an expired credential, or at least
      max(60 s, fraction x lifetime) after the cached credential was issued. */
  lemma {:induction false} StartsAreJustified(fraction: real, start: int, es: seq<Event>, s: State)
    requires Exec(fraction, start, es) == Some(s) && start > 0
    ensures CacheStamped(s)
    ensures forall i :: 0 <= i < |s.starts| ==> StartJustified(fraction, s.starts[i])
  {
    if es != [] {
      hide Next, StartJustified;
      var prev, e := Exec(fraction, start, es[..|es| - 1]).value, es[|es| - 1];
      StartsAreJustified(fraction, start, es[..|es| - 1], prev);
      StartStep(fraction, prev, e);
    }
  }

  function Lifetime(c: Creds): int { c.expires - c.issued }

  // No Invalidate, and every fetch brings a credential good for at least the floor.
  predicate Steady(e: Event) {
    && !e.InvalidateCache?
    && (e.FetchReturns? ==> e.r.Some? && Lifetime(Stamp(e.r.value, e.stampedAt)) >= MIN_RENEWAL_INTERVAL)
  }

  predicate AllSteady(es: seq<Event>) {
    forall i :: 0 <= i < |es| ==> Steady(es[i])
  }

  // The last fetch started no later than the cached credential was issued, and each start
  // comes at least the floor after the one before.
  ghost predicate Paced(s: State) {
    && (forall i :: 0 < i < |s.starts| ==> s.starts[i].at >= s.starts[i - 1].at + MIN_RENEWAL_INTERVAL)
    && (s.starts == [] ==> !s.f.fetching && s.f.cached.None?)
    && (s.starts != [] ==>
          var last := s.starts[|s.starts| - 1].at;
          && (forall g :: g in s.pcs && s.pcs[g].Fetching? ==> s.pcs[g].since == last)
          && (!s.f.fetching ==>
                && s.f.cached.Some? && last <= s.f.cached.value.issued
                && Lifetime(s.f.cached.value) >= MIN_RENEWAL_INTERVAL))
  }

  ghost predicate SomeFetching(s: State) {
    exists g :: g in s.pcs && s.pcs[g].Fetching?
  }

  lemma FlagTracksFetch(s: State)
    requires FlightOk(s)
    ensures s.f.fetching <==> SomeFetching(s)
  {
    forall g | g in s.pcs && s.pcs[g].Fetching?
      ensures s.f.fetching
    {
      assert CallOk(s, g);
    }
  }

  lemma PacedStep(fraction: real, s: State, e: Event)
    requires s.f.fetching <==> SomeFetching(s)
    requires CacheStamped(s) && Paced(s) && Enabled(s, e) && Steady(e)
    ensures Paced(Next(fraction, s, e))
  {
    hide ShouldRenew, RenewalTarget;
    if e.EnterGet? && s.f.cached.Some? {
      RenewalDecision(fraction, s.f.cached.value, e.t1);
    }
    if e.FetchReturns? {
      assert SomeFetching(s);
    }
  }

  lemma {:induction false} PacedInSteadyRuns(fraction: real, start: int, es: seq<Event>, s: State)
    requires Exec(fraction, start, es) == Some(s) && start > 0 && AllSteady(es)
    ensures Paced(s)
  {
    if es != [] {
      var prefix := es[..|es| - 1];
      var prev := Exec(fraction, start, prefix).value;
      PacedInSteadyRuns(fraction, start, prefix, prev);
      FlightInEveryRun(fraction, start, prefix, prev);
      StartsAreJustified(fraction, start, prefix, prev);
      FlagTracksFetch(prev);
      PacedStep(fraction, prev, es[|es| - 1]);
    }
  }

  lemma {:induction false} StartsSpread(starts: seq<Start>, i: nat, j: nat)
    requires forall k :: 0 < k < |starts| ==> starts[k].at >= starts[k - 1].at + MIN_RENEWAL_INTERVAL
    requires i <= j < |starts|
    ensures starts[j].at - starts[i].at >= (j - i) * MIN_RENEWAL_INTERVAL
    decreases j
  {
    if i < j {
      StartsSpread(starts, i, j - 1);
    }
  }

  /** With no Invalidate, every fetch succeeding and every lifetime at least 60 s, the starts
      `i..j` that fall into any window of `w` seconds number at most 1 + w/60. */
  lemma FetchRate(fraction: real, start: int, es: seq<Event>, s: State, i: nat, j: nat, w: nat)
    requires Exec(fraction, start, es) == Some(s) && start > 0 && AllSteady(es)
    requires i <= j < |s.starts| && s.starts[j].at - s.starts[i].at <= w * SECOND
    ensures j - i + 1 <= 1 + w / 60
  {
    PacedInSteadyRuns(fraction, start, es, s);
    StartsSpread(s.starts, i, j);
  }

  // ----------------------------------------------------- why two starts come close together

  // Event `p` of the run starts fetch number `i`.
  predicate StartsFetch(fraction: real, start: int, es: seq<Event>, p: nat, i: nat) {
    && p < |es|
    && Exec(fraction, start, es[..p]).Some? && Exec(fraction, start, es[..p + 1]).Some?
    && |Exec(fraction, start, es[..p]).value.starts| == i
    && |Exec(fraction, start, es[..p + 1]).value.starts| == i + 1
  }

  // An Invalidate, or a fetch that fails.
  predicate Disturbs(e: Event) {
    e.InvalidateCache? || (e.FetchReturns? && e.r.None?)
  }

  predicate StartsExpired(st: Start) {
    st.cached.Some? && st.at >= st.cached.value.expires
  }

  // Since the last start the cache is waiting for that fetch, or holds what it brought.
  ghost predicate Covered(s: State) {
    && s.starts != []
    && var last := s.starts[|s.starts| - 1].at;
      && (forall g :: g in s.pcs && s.pcs[g].Fetching? ==> s.pcs[g].since == last)
      && (!s.f.fetching ==> s.f.cached.Some? && last <= s.f.cached.value.issued)
  }

  lemma StartCovers(fraction: real, s: State, e: Event)
    requires FlightOk(s) && Enabled(s, e) && Next(fraction, s, e).starts != s.starts
    ensures Covered(Next(fraction, s, e))
    ensures e.EnterGet? && Next(fraction, s, e).starts == s.starts + [Start(e.t1, s.f.cached)] && !s.f.fetching
  {
    FlagTracksFetch(s);
    var n := Next(fraction, s, e);
    assert n.starts == s.starts + [Start(e.t1, s.f.cached)];
    forall g | g in n.pcs && n.pcs[g].Fetching?
      ensures n.pcs[g].since == e.t1
    {
      assert g != e.g ==> SomeFetching(s);
    }
  }

  lemma CoveredStep(fraction: real, s: State, e: Event)
    requires FlightOk(s) && Covered(s) && Enabled(s, e) && !Disturbs(e)
    requires Next(fraction, s, e).starts == s.starts
    ensures Covered(Next(fraction, s, e))
  {
    hide ShouldRenew, RenewalTarget, FlightOk, CallOk;
    FlagTracksFetch(s);
    if e.FetchReturns? {
      assert SomeFetching(s);
    }
  }

  lemma {:induction false} ExecPrefix(fraction: real, start: int, es: seq<Event>, k: nat)
    requires Exec(fraction, start, es).Some? && k <= |es|
    ensures Exec(fraction, start, es[..k]).Some?
    ensures Exec(fraction, start, es[..k]).value.starts <= Exec(fraction, start, es).value.starts
    decreases |es|
  {
    hide Next, Enabled;
    if k == |es| {
      assert es[..k] == es;
    } else {
      var front := es[..|es| - 1];
      ExecPrefix(fraction, start, front, k);
      assert front[..k] == es[..k];
      StartsGrow(fraction, Exec(fraction, start, front).value, es[|es| - 1]);
    }
  }

  lemma StartsGrow(fraction: real, s: State, e: Event)
    requires Enabled(s, e)
    ensures s.starts <= Next(fraction, s, e).starts
  {
  }

  lemma ExecAt(fraction: real, start: int, es: seq<Event>, k: nat)
    requires k < |es| && Exec(fraction, start, es[..k + 1]).Some?
    ensures Exec(fraction, start, es[..k]).Some? && Enabled(Exec(fraction, start, es[..k]).value, es[k])
    ensures Exec(fraction, start, es[..k + 1]).value == Next(fraction, Exec(fraction, start, es[..k]).value, es[k])
  {
    assert es[..k + 1][..k] == es[..k];
  }

  // From one start up to the next, if nothing disturbs.
  lemma {:induction false} CoveredUpTo(fraction: real, start: int, es: seq<Event>, p: nat, i: nat, k: nat)
    requires Exec(fraction, start, es).Some? && StartsFetch(fraction, start, es, p, i) && p < k <= |es|
    requires forall m :: p < m < k ==> !Disturbs(es[m])
    requires Exec(fraction, start, es[..k]).Some? && |Exec(fraction, start, es[..k]).value.starts| == i + 1
    ensures Covered(Exec(fraction, start, es[..k]).value)
    ensures Exec(fraction, start, es[..k]).value.starts == Exec(fraction, start, es[..p + 1]).value.starts
    decreases k
  {
    hide Exec, Next, Enabled, FlightOk, Covered, Disturbs;
    ExecAt(fraction, start, es, k - 1);
    var s := Exec(fraction, start, es[..k - 1]).value;
    FlightInEveryRun(fraction, start, es[..k - 1], s);
    if k == p + 1 {
      StartCovers(fraction, s, es[p]);
    } else {
      StartsGrow(fraction, s, es[k - 1]);
      ExecPrefix(fraction, start, es[..k - 1], p + 1);
      assert es[..k - 1][..p + 1] == es[..p + 1];
      CoveredUpTo(fraction, start, es, p, i, k - 1);
      CoveredStep(fraction, s, es[k - 1]);
    }
  }

  /** In every run: if one fetch starts less than the floor after the one before, then that one
      failed, or an Invalidate fell in between, or the credential it brought had expired. */
  lemma EarlyStartIsExplained(fraction: real, start: int, es: seq<Event>, s: State, p: nat, q: nat, i: nat)
    requires Exec(fraction, start, es) == Some(s) && start > 0
    requires p < q && StartsFetch(fraction, start, es, p, i) && StartsFetch(fraction, start, es, q, i + 1)
    ensures i + 1 < |s.starts|
    ensures s.starts[i + 1].at < s.starts[i].at + MIN_RENEWAL_INTERVAL ==>
      (exists m :: p < m < q && Disturbs(es[m])) || StartsExpired(s.starts[i + 1])
  {
    hide Exec, Next, Enabled, FlightOk, Disturbs, CacheStamped;
    ExecPrefix(fraction, start, es, p + 1);
    ExecPrefix(fraction, start, es, q + 1);
    ExecAt(fraction, start, es, q);
    var before, after := Exec(fraction, start, es[..q]).value, Exec(fraction, start, es[..q + 1]).value;
    FlightInEveryRun(fraction, start, es[..q], before);
    StartCovers(fraction, before, es[q]);
    StartsAreJustified(fraction, start, es[..q + 1], after);
    if forall m :: p < m < q ==> !Disturbs(es[m]) {
      CoveredUpTo(fraction, start, es, p, i, q);
    }
  }

  // What the fields say about the last start: it was justified; while its fetch is in flight the
  // cache holds what it held then, or nothing; and afterwards the same if the fetch failed, or
  // something issued since.
  ghost predicate Recent(fraction: real, s: State) {
    if s.starts == [] then !s.f.fetching && s.f.cached.None?
    else
      var last := s.starts[|s.starts| - 1];
      && StartJustified(fraction, last) && last.at <= s.clock
      && (forall g :: g in s.pcs && s.pcs[g].Fetching? ==> s.pcs[g].since == last.at && s.pcs[g].cur == last.cached)
      && (s.f.cached.Some? ==>
            if s.f.fetching || s.f.lastErr then s.f.cached == last.cached
            else last.at <= s.f.cached.value.issued)
  }

  lemma RecentStep(fraction: real, s: State, e: Event)
    requires FlightOk(s) && CacheStamped(s) && Recent(fraction, s) && Enabled(s, e)
    ensures Recent(fraction, Next(fraction, s, e))
  {
    hide StartJustified, ShouldRenew, FlightOk, CallOk;
    FlagTracksFetch(s);
    var n := Next(fraction, s, e);
    if n.starts != s.starts {
      StartCovers(fraction, s, e);
      StartStep(fraction, s, e);
      assert n.starts[|s.starts|] == Start(e.t1, s.f.cached);
    } else if e.FetchReturns? {
      assert SomeFetching(s);
    }
  }

  lemma {:induction false} RecentInEveryRun(fraction: real, start: int, es: seq<Event>, s: State)
    requires Exec(fraction, start, es) == Some(s) && start > 0
    ensures Recent(fraction, s)
  {
    if es != [] {
      hide Next, Enabled, Recent, FlightOk, CacheStamped;
      var prefix := es[..|es| - 1];
      var prev := Exec(fraction, start, prefix).value;
      RecentInEveryRun(fraction, start, prefix, prev);
      FlightInEveryRun(fraction, start, prefix, prev);
      StartsAreJustified(fraction, start, prefix, prev);
      RecentStep(fraction, prev, es[|es| - 1]);
    }
  }

  /** Exactly when the floor is broken. In every run, a call that comes less than the floor after
      the last fetch started begins another one if and only if none is in flight and the cache is
      empty, its credential has expired, or the last fetch failed. */
  lemma EarlyStartIff(fraction: real, start: int, es: seq<Event>, s: State, g: nat, t1: int, t2: int)
    requires Exec(fraction, start, es) == Some(s) && start > 0 && Enabled(s, EnterGet(g, t1, t2))
    requires s.starts != [] && t1 < s.starts[|s.starts| - 1].at + MIN_RENEWAL_INTERVAL
    ensures Next(fraction, s, EnterGet(g, t1, t2)).starts != s.starts <==>
      !s.f.fetching && (s.f.cached.None? || t1 >= s.f.cached.value.expires || s.f.lastErr)
  {
    hide ShouldRenew, RenewalTarget;
    RecentInEveryRun(fraction, start, es, s);
    StartsAreJustified(fraction, start, es, s);
    var n := Next(fraction, s, EnterGet(g, t1, t2));
    assert n.starts == s.starts || |n.starts| == |s.starts| + 1;
    if s.f.cached.Some? {
      RenewalDecision(fraction, s.f.cached.value, t1);
    } else {
      NothingToRenew(fraction, t1);
    }
  }

  lemma NothingToRenew(fraction: real, now: int)
    ensures ShouldRenew(fraction, None, now)
  {
  }

  // ------------------------------------------------------------------ what each call gets

  // A credential that needs no renewal yet.
  predicate StillGood(fraction: real, c: Creds, now: int) {
    && now < c.expires
    && now - c.issued < Max(MIN_RENEWAL_INTERVAL, RenewalTarget(fraction, c.expires - c.issued))
  }

  /** What entering `Get` leads to, in every run: the cached credential is returned exactly if it
      needs no renewal, or a fetch is in flight and it has not passed its expiry; otherwise the call
      parks on the fetch in flight, or starts one. */
  lemma EnterOutcome(fraction: real, start: int, es: seq<Event>, s: State, g: nat, t1: int, t2: int)
    requires Exec(fraction, start, es) == Some(s) && start > 0 && Enabled(s, EnterGet(g, t1, t2))
    ensures var n := Next(fraction, s, EnterGet(g, t1, t2));
      var usable := s.f.cached.Some? &&
        (StillGood(fraction, s.f.cached.value, t1) || (s.f.fetching && t2 <= s.f.cached.value.expires));
      && (n.pcs[g].Returned? <==> usable)
      && (usable ==> n.pcs[g].answer.Credential? && s.f.cached == Some(n.pcs[g].answer.c) && n.f == s.f)
      && (!usable && s.f.fetching ==> s.f.fetchDone.Some? && n.pcs[g] == Parked(s.f.fetchDone.value) && n.f == s.f)
      && (!usable && !s.f.fetching ==>
            n.pcs[g].Fetching? && n.pcs[g].cur == s.f.cached && n.starts == s.starts + [Start(t1, s.f.cached)])
  {
    hide Exec, ShouldRenew, RenewalTarget;
    StartsAreJustified(fraction, start, es, s);
    FlightInEveryRun(fraction, start, es, s);
    if s.f.cached.Some? {
      RenewalDecision(fraction, s.f.cached.value, t1);
    } else {
      NothingToRenew(fraction, t1);
    }
  }

  // Event `k` settles call `g` with this answer: its context ended, it found the credential in the
  // cache, or its fetch returned. What a failed fetch falls back to is the credential recorded when
  // it started.
  ghost predicate SettledAt(fraction: real, start: int, es: seq<Event>, k: nat, g: nat, a: Answer) {
    && k < |es| && Exec(fraction, start, es[..k]).Some?
    && var s := Exec(fraction, start, es[..k]).value;
      match es[k]
      case GiveUp(h) => h == g && a == ContextError
      case EnterGet(h, _, t2) => h == g && a.Credential? && s.f.cached == Some(a.c) && a.at <= t2
      case FetchReturns(h, r, stampedAt, t) =>
        && h == g && s.starts != []
        && var stale := s.starts[|s.starts| - 1].cached;
          if r.Some? then a == Credential(Stamp(r.value, stampedAt), t)
          else if stale.Some? && t < stale.value.expires then a == Credential(stale.value, t)
          else a == FetchError
      case _ => false
  }

  ghost predicate HasSettled(fraction: real, start: int, es: seq<Event>, g: nat, a: Answer) {
    exists k :: SettledAt(fraction, start, es, k, g, a)
  }

  function AnswerOf(pc: PC): Option<Answer> {
    match pc
    case Closing(_, a) => Some(a)
    case Returned(a) => Some(a)
    case _ => None
  }

  ghost predicate AllSettled(fraction: real, start: int, es: seq<Event>, s: State) {
    forall g :: g in s.pcs && AnswerOf(s.pcs[g]).Some? ==>
      HasSettled(fraction, start, es, g, AnswerOf(s.pcs[g]).value)
  }

  lemma SettledStays(fraction: real, start: int, es: seq<Event>, e: Event, g: nat, a: Answer)
    requires HasSettled(fraction, start, es, g, a)
    ensures HasSettled(fraction, start, es + [e], g, a)
  {
    hide Exec;
    var k: nat :| SettledAt(fraction, start, es, k, g, a);
    var all := es + [e];
    assert all[..k] == es[..k] && all[k] == es[k];
    assert SettledAt(fraction, start, all, k, g, a);
  }

  // The step that gives a call its answer.
  lemma NewlySettled(fraction: real, start: int, es: seq<Event>, s: State, e: Event, g: nat)
    requires Exec(fraction, start, es) == Some(s) && Enabled(s, e) && Recent(fraction, s)
    requires s.f.fetching <==> SomeFetching(s)
    requires g in s.pcs && AnswerOf(s.pcs[g]).None?
    requires AnswerOf(Next(fraction, s, e).pcs[g]).Some?
    ensures HasSettled(fraction, start, es + [e], g, AnswerOf(Next(fraction, s, e).pcs[g]).value)
  {
    hide Exec, ShouldRenew, StartJustified;
    var a := AnswerOf(Next(fraction, s, e).pcs[g]).value;
    var all := es + [e];
    assert all[..|es|] == es && all[|es|] == e;
    if e.FetchReturns? {
      assert SomeFetching(s);
    }
    assert SettledAt(fraction, start, all, |es|, g, a);
  }

  lemma AllSettledStep(fraction: real, start: int, es: seq<Event>, s: State, e: Event)
    requires Exec(fraction, start, es) == Some(s) && Enabled(s, e) && Recent(fraction, s)
    requires s.f.fetching <==> SomeFetching(s)
    requires AllSettled(fraction, start, es, s)
    ensures AllSettled(fraction, start, es + [e], Next(fraction, s, e))
  {
    hide Exec, HasSettled, Recent, SomeFetching, ShouldRenew;
    var n := Next(fraction, s, e);
    forall g | g in n.pcs && AnswerOf(n.pcs[g]).Some?
      ensures HasSettled(fraction, start, es + [e], g, AnswerOf(n.pcs[g]).value)
    {
      AnswersStay(fraction, s, e, g);
      if AnswerOf(s.pcs[g]).Some? {
        SettledStays(fraction, start, es, e, g, AnswerOf(s.pcs[g]).value);
      } else {
        NewlySettled(fraction, start, es, s, e, g);
      }
    }
  }

  // A call that has its answer keeps it, and a new call has none.
  lemma AnswersStay(fraction: real, s: State, e: Event, g: nat)
    requires Enabled(s, e) && g in Next(fraction, s, e).pcs && AnswerOf(Next(fraction, s, e).pcs[g]).Some?
    ensures g in s.pcs
    ensures AnswerOf(s.pcs[g]).Some? ==> AnswerOf(Next(fraction, s, e).pcs[g]) == AnswerOf(s.pcs[g])
  {
    hide ShouldRenew;
  }

  /** In every run, which answer a call gets: its own fetch's credential if that succeeded; if it
      failed, the credential recorded when it started, exactly if there is one that has not expired
      by then, and an error otherwise; without a fetch, the credential in the cache; and an error
      of its context only if that ended. */
  lemma {:induction false} AnswersAreSettled(fraction: real, start: int, es: seq<Event>, s: State)
    requires Exec(fraction, start, es) == Some(s) && start > 0
    ensures AllSettled(fraction, start, es, s)
  {
    if es != [] {
      hide Next, Enabled, Recent, FlightOk, CacheStamped, AllSettled, SomeFetching;
      var prefix, e := es[..|es| - 1], es[|es| - 1];
      var prev := Exec(fraction, start, prefix).value;
      AnswersAreSettled(fraction, start, prefix, prev);
      RecentInEveryRun(fraction, start, prefix, prev);
      FlightInEveryRun(fraction, start, prefix, prev);
      FlagTracksFetch(prev);
      AllSettledStep(fraction, start, prefix, prev, e);
      assert prefix + [e] == es;
    }
  }

  // -------------------------------------------------------------- one run for each cause

  lemma ExecSnoc(fraction: real, start: int, es: seq<Event>, e: Event)
    requires Exec(fraction, start, es).Some? && Enabled(Exec(fraction, start, es).value, e)
    ensures Exec(fraction, start, es + [e]) == Some(Next(fraction, Exec(fraction, start, es).value, e))
  {
    assert (es + [e])[..|es|] == es;
  }

  // A first fetch at the start of the run, with the given answer.
  lemma FirstFetch(fraction: real, r: Option<Response>) returns (es: seq<Event>, s: State)
    ensures es == [Call(0), EnterGet(0, 1, 1), FetchReturns(0, r, 1, 1)] && Exec(fraction, 1, es) == Some(s)
    ensures s.starts == [Start(1, None)] && s.clock == 1 && s.pcs.Keys == {0}
    ensures s.f == Fields(StampOption(r, 1), r.None?, false, None)
  {
    hide Stamp, RenewalTarget;
    es := [Call(0), EnterGet(0, 1, 1), FetchReturns(0, r, 1, 1)];
    assert es[..2] == [Call(0), EnterGet(0, 1, 1)] && es[..2][..1] == [Call(0)] && [Call(0)][..0] == [];
    ExecSnoc(fraction, 1, [], Call(0));
    assert [] + [Call(0)] == [Call(0)];
    ExecSnoc(fraction, 1, [Call(0)], EnterGet(0, 1, 1));
    assert [Call(0)] + [EnterGet(0, 1, 1)] == es[..2];
    ExecSnoc(fraction, 1, es[..2], FetchReturns(0, r, 1, 1));
    assert es[..2] + [FetchReturns(0, r, 1, 1)] == es;
    s := Exec(fraction, 1, es).value;
  }

  // A second call at `t`, which finds a credential it must renew or none.
  lemma SecondStart(fraction: real, es: seq<Event>, s: State, t: int) returns (all: seq<Event>, n: State)
    requires Exec(fraction, 1, es) == Some(s) && s.clock <= t && 1 !in s.pcs
    requires !s.f.fetching && ShouldRenew(fraction, s.f.cached, t)
    ensures all == es + [Call(1), EnterGet(1, t, t)] && Exec(fraction, 1, all) == Some(n)
    ensures n.starts == s.starts + [Start(t, s.f.cached)]
  {
    hide Exec, ShouldRenew;
    ExecSnoc(fraction, 1, es, Call(1));
    ExecSnoc(fraction, 1, es + [Call(1)], EnterGet(1, t, t));
    all := es + [Call(1), EnterGet(1, t, t)];
    assert es + [Call(1)] + [EnterGet(1, t, t)] == all;
    n := Exec(fraction, 1, all).value;
  }

  // Two fetches within the floor.
  predicate StartsTwiceEarly(s: State) {
    |s.starts| == 2 && s.starts[0].at <= s.starts[1].at < s.starts[0].at + MIN_RENEWAL_INTERVAL
  }

  // A thirty-second credential is renewed when it expires; nothing else happens in the run.
  lemma ExpiredIsRefetchedEarly(fraction: real)
    ensures exists es: seq<Event>, s: State ::
      && Exec(fraction, 1, es) == Some(s) && StartsTwiceEarly(s)
      && (forall m :: 0 <= m < |es| ==> !Disturbs(es[m]))
  {
    hide Exec, Next, Enabled;
    var es, s := FirstFetch(fraction, Some(Response(S3, "", 0, Some(30 * SECOND))));
    var all, n := SecondStart(fraction, es, s, 1 + 30 * SECOND);
    assert StartsTwiceEarly(n);
  }

  // After an Invalidate the next call fetches at once, though the credential was good for
  // fifteen minutes.
  lemma InvalidatedIsRefetchedEarly(fraction: real)
    ensures exists es: seq<Event>, s: State ::
      && Exec(fraction, 1, es) == Some(s) && StartsTwiceEarly(s)
      && (forall m :: 0 <= m < |es| && es[m].FetchReturns? ==> es[m].r.Some?)
      && !StartsExpired(s.starts[1])
  {
    hide Exec, EnterNext, FetchNext;
    var es, s := FirstFetch(fraction, Some(Response(GCS, "", 0, None)));
    ExecSnoc(fraction, 1, es, InvalidateCache);
    var t := Exec(fraction, 1, es + [InvalidateCache]).value;
    var all, n := SecondStart(fraction, es + [InvalidateCache], t, 1);
    assert StartsTwiceEarly(n) && !StartsExpired(n.starts[1]);
  }

  // After a failed fetch the next call fetches at once.
  lemma FailedIsRefetchedEarly(fraction: real)
    ensures exists es: seq<Event>, s: State ::
      && Exec(fraction, 1, es) == Some(s) && StartsTwiceEarly(s)
      && (forall m :: 0 <= m < |es| ==> !es[m].InvalidateCache?)
      && !StartsExpired(s.starts[1])
  {
    hide Exec, Next, Enabled;
    var es, s := FirstFetch(fraction, None);
    var all, n := SecondStart(fraction, es, s, 1);
    assert StartsTwiceEarly(n) && !StartsExpired(n.starts[1]);
  }
}
