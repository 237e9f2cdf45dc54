/** `VerifyToken` and `CheckTokenActive` (pkg/appworker/apiclient.go) as interleaved calls: every
    cache access, upstream answer and singleflight hand-over is a step of its own, and time,
    revocations and other callers may come in between. */
module TokenFlights {
  import opened Options
  import opened Clock
  import opened TokenCaches

  // ------------------------------------------------------------------- one call's place

  datatype CheckPC =
    | LookActive
    | JoinCheck
    | LeadCheck(f: nat)
    | GotActive(f: nat, b: bool)       // upstream answered; not cached yet
    | FinishCheck(f: nat, a: Answer)   // leaving the flight
    | FollowCheck(f: nat)
    | Checked(a: Answer)

  datatype VerifyPC =
    | LookPositive
    | LookInactive
    | LookWrong
    | Join
    | Lead(f: nat)
    | GotTrue(f: nat)
    | Checking(f: nat, c: CheckPC)     // upstream said false; classifying
    | Finish(f: nat, a: Answer)
    | Follow(f: nat)
    | Verified(a: Answer)

  datatype Call = VerifyCall(t: Triple, v: VerifyPC) | CheckCall(p: Pair, c: CheckPC)

  // A singleflight group: flights in the air by key, landed flights by key and number.
  datatype Group<!K> = Group(open: map<K, nat>, landed: map<(K, nat), Answer>, next: nat)

  datatype State = State(
    now: int, rows: map<Pair, Row>, caches: Caches,
    verifySF: Group<Triple>, activeSF: Group<Pair>, calls: map<nat, Call>)

  function Takeoff<K>(g: Group<K>, k: K): Group<K> {
    g.(open := g.open[k := g.next], next := g.next + 1)
  }

  function Land<K>(g: Group<K>, k: K, f: nat, a: Answer): Group<K> {
    g.(open := g.open - {k}, landed := g.landed[(k, f) := a])
  }

  // ---------------------------------------------------------------------- one call's step

  // Whether a call can move on by itself; a follower waits for its flight to land.
  predicate CheckReady(s: State, p: Pair, c: CheckPC) {
    match c
    case FollowCheck(f) => (p, f) in s.activeSF.landed
    case Checked(_) => false
    case _ => true
  }

  predicate VerifyReady(s: State, t: Triple, v: VerifyPC) {
    match v
    case Follow(f) => (t, f) in s.verifySF.landed
    case Checking(_, c) => c.Checked? || CheckReady(s, t.pair, c)
    case Verified(_) => false
    case _ => true
  }

  // `up` says whether upstream is reachable, where it is asked.
  function CheckStep(s: State, p: Pair, c: CheckPC, up: bool): (CheckPC, State)
    requires CheckReady(s, p, c)
  {
    match c
    case LookActive =>
      var hit := Lookup(s.caches.active, p, s.now);
      (if hit.Some? then Checked(Is(hit.value)) else JoinCheck, s)
    case JoinCheck =>
      if p in s.activeSF.open then (FollowCheck(s.activeSF.open[p]), s)
      else (LeadCheck(s.activeSF.next), s.(activeSF := Takeoff(s.activeSF, p)))
    case LeadCheck(f) =>
      (if up then GotActive(f, Live(s.rows, p)) else FinishCheck(f, Failed), s)
    case GotActive(f, b) =>
      (FinishCheck(f, Is(b)),
       s.(caches := s.caches.(active := Store(s.caches.active, p, b, ACTIVE_TTL, s.now))))
    case FinishCheck(f, a) => (Checked(a), s.(activeSF := Land(s.activeSF, p, f, a)))
    case FollowCheck(f) => (Checked(s.activeSF.landed[(p, f)]), s)
  }

  // What a classified refusal leaves in the caches.
  function Remember(s: State, t: Triple, live: Answer): Caches {
    match live
    case Failed => s.caches
    case Is(true) =>
      s.caches.(wrongSecret := Store(s.caches.wrongSecret, t, false, NEGATIVE_TTL, s.now))
    case Is(false) =>
      s.caches.(inactive := Store(s.caches.inactive, t.pair, false, NEGATIVE_TTL, s.now))
  }

  function VerifyStep(s: State, t: Triple, v: VerifyPC, up: bool): (VerifyPC, State)
    requires VerifyReady(s, t, v)
  {
    match v
    case LookPositive =>
      var hit := Lookup(s.caches.positive, t, s.now);
      (if hit.Some? then Verified(Is(hit.value)) else LookInactive, s)
    case LookInactive =>
      (if Lookup(s.caches.inactive, t.pair, s.now).Some? then Verified(Is(false)) else LookWrong, s)
    case LookWrong =>
      (if Lookup(s.caches.wrongSecret, t, s.now).Some? then Verified(Is(false)) else Join, s)
    case Join =>
      if t in s.verifySF.open then (Follow(s.verifySF.open[t]), s)
      else (Lead(s.verifySF.next), s.(verifySF := Takeoff(s.verifySF, t)))
    case Lead(f) =>
      (if !up then Finish(f, Failed) else if Genuine(s.rows, t) then GotTrue(f) else Checking(f, LookActive), s)
    case GotTrue(f) =>
      (Finish(f, Is(true)),
       s.(caches := s.caches.(positive := Store(s.caches.positive, t, true, POSITIVE_TTL, s.now))))
    case Checking(f, c) =>
      if c.Checked? then (Finish(f, Is(false)), s.(caches := Remember(s, t, c.a)))
      else
        var (c', s') := CheckStep(s, t.pair, c, up);
        (Checking(f, c'), s')
    case Finish(f, a) => (Verified(a), s.(verifySF := Land(s.verifySF, t, f, a)))
    case Follow(f) => (Verified(s.verifySF.landed[(t, f)]), s)
  }

  datatype Event =
    | Tick(d: nat)
    | Create(p: Pair, secret: string)
    | Revoke(p: Pair)
    | Begin(g: nat, call: Call)
    | Step(g: nat, up: bool)

  predicate Enabled(s: State, e: Event) {
    match e
    case Tick(_) => true
    case Create(p, _) => p !in s.rows
    case Revoke(p) => Live(s.rows, p)
    case Begin(g, call) => g !in s.calls && (if call.VerifyCall? then call.v.LookPositive? else call.c.LookActive?)
    case Step(g, _) =>
      g in s.calls &&
      match s.calls[g]
      case VerifyCall(t, v) => VerifyReady(s, t, v)
      case CheckCall(p, c) => CheckReady(s, p, c)
  }

  function Next(s: State, e: Event): State
    requires Enabled(s, e)
  {
    match e
    case Tick(d) => s.(now := s.now + d)
    case Create(p, secret) => s.(rows := s.rows[p := Active(secret, s.now)])
    case Revoke(p) => s.(rows := s.rows[p := Revoked(s.now)])
    case Begin(g, call) => s.(calls := s.calls[g := call])
    case Step(g, up) =>
      match s.calls[g]
      case VerifyCall(t, v) =>
        var (v', n) := VerifyStep(s, t, v, up);
        n.(calls := s.calls[g := VerifyCall(t, v')])
      case CheckCall(p, c) =>
        var (c', n) := CheckStep(s, p, c, up);
        n.(calls := s.calls[g := CheckCall(p, c')])
  }

  function Initial(start: int, rows: map<Pair, Row>): State {
    State(start, rows, Caches(map[], map[], map[], map[]),
          Group(map[], map[], 0), Group(map[], map[], 0), map[])
  }

  function Exec(start: int, rows: map<Pair, Row>, es: seq<Event>): Option<State> {
    if es == [] then Some(Initial(start, rows))
    else
      var prev := Exec(start, rows, es[..|es| - 1]);
      var e := es[|es| - 1];
      if prev.Some? && Enabled(prev.value, e) then Some(Next(prev.value, e)) else None
  }

  // ------------------------------------------------------------------------- no lock-out

  // Nothing in a check of this pair says "inactive".
  predicate CheckClean(c: CheckPC) {
    match c
    case GotActive(_, b) => b
    case FinishCheck(_, a) => a != Is(false)
    case Checked(a) => a != Is(false)
    case _ => true
  }

  // Nothing in a verification of the right secret says "no".
  predicate VerifyClean(v: VerifyPC) {
    match v
    case Checking(_, _) => false
    case Finish(_, a) => a != Is(false)
    case Verified(a) => a != Is(false)
    case _ => true
  }

  predicate CallClean(t: Triple, call: Call) {
    match call
    case VerifyCall(u, v) =>
      && (u == t ==> VerifyClean(v))
      && (u.pair == t.pair && v.Checking? ==> CheckClean(v.c))
    case CheckCall(p, c) => p == t.pair ==> CheckClean(c)
  }

  // No cache entry, landed flight or call holds a refusal the right secret could meet.
  ghost predicate Clean(s: State, t: Triple) {
    && t.pair !in s.caches.inactive
    && t !in s.caches.wrongSecret
    && (t in s.caches.positive ==> s.caches.positive[t].value)
    && (t.pair in s.caches.active ==> s.caches.active[t.pair].value)
    && (forall f :: (t, f) in s.verifySF.landed ==> s.verifySF.landed[(t, f)] != Is(false))
    && (forall f :: (t.pair, f) in s.activeSF.landed ==> s.activeSF.landed[(t.pair, f)] != Is(false))
    && (forall g :: g in s.calls ==> CallClean(t, s.calls[g]))
  }

  lemma CheckStepClean(s: State, t: Triple, p: Pair, c: CheckPC, up: bool)
    requires Clean(s, t) && Genuine(s.rows, t) && CheckReady(s, p, c)
    requires p == t.pair ==> CheckClean(c)
    ensures var (c', n) := CheckStep(s, p, c, up);
      Clean(n, t) && (p == t.pair ==> CheckClean(c'))
  {
  }

  lemma VerifyStepClean(s: State, t: Triple, u: Triple, v: VerifyPC, up: bool)
    requires Clean(s, t) && Genuine(s.rows, t) && VerifyReady(s, u, v)
    requires CallClean(t, VerifyCall(u, v))
    ensures var (v', n) := VerifyStep(s, u, v, up);
      Clean(n, t) && CallClean(t, VerifyCall(u, v'))
  {
    if v.Checking? && !v.c.Checked? {
      CheckStepClean(s, t, u.pair, v.c, up);
    }
  }

  lemma CleanStep(s: State, t: Triple, e: Event)
    requires Clean(s, t) && Genuine(s.rows, t) && Enabled(s, e)
    ensures Clean(Next(s, e), t)
  {
    if e.Step? {
      match s.calls[e.g] {
        case VerifyCall(u, v) => VerifyStepClean(s, t, u, v, e.up);
        case CheckCall(p, c) => CheckStepClean(s, t, p, c, e.up);
      }
    }
  }

  /** In every interleaving of calls, ticks, token creations and revocations, a call presenting
      the correct secret of a token that is active throughout never comes out with `false`. */
  lemma {:induction false} RightSecretNeverRefused(start: int, rows: map<Pair, Row>, es: seq<Event>, s: State, t: Triple)
    requires Exec(start, rows, es) == Some(s)
    requires Genuine(rows, t) && forall i :: 0 <= i < |es| ==> es[i] != Event.Revoke(t.pair)
    ensures Clean(s, t) && Genuine(s.rows, t)
    ensures forall g :: g in s.calls && s.calls[g].VerifyCall? && s.calls[g].t == t ==>
      s.calls[g].v != Verified(Is(false))
  {
    if es != [] {
      var prefix := es[..|es| - 1];
      var prev := Exec(start, rows, prefix).value;
      RightSecretNeverRefused(start, rows, prefix, prev, t);
      CleanStep(prev, t, es[|es| - 1]);
    }
    forall g | g in s.calls && s.calls[g].VerifyCall? && s.calls[g].t == t
      ensures s.calls[g].v != Verified(Is(false))
    {
      assert CallClean(t, s.calls[g]);
    }
  }

  // ---------------------------------------------------------------- one question per key

  // The flight a call leads, if any.
  function LeadsVerify(call: Call): Option<(Triple, nat)> {
    if call.VerifyCall? && (call.v.Lead? || call.v.GotTrue? || call.v.Checking? || call.v.Finish?)
    then Some((call.t, call.v.f)) else None
  }

  ghost predicate OneLeader(s: State) {
    && (forall g :: g in s.calls && LeadsVerify(s.calls[g]).Some? ==>
          var (t, f) := LeadsVerify(s.calls[g]).value;
          t in s.verifySF.open && s.verifySF.open[t] == f)
    && (forall t :: t in s.verifySF.open ==> s.verifySF.open[t] < s.verifySF.next)
    && (forall g, h ::
          (g in s.calls && h in s.calls && LeadsVerify(s.calls[g]).Some? &&
           LeadsVerify(s.calls[g]) == LeadsVerify(s.calls[h])) ==> g == h)
  }

  function LeadOf(s: State, g: nat): Option<(Triple, nat)> {
    if g in s.calls then LeadsVerify(s.calls[g]) else None
  }

  // A call keeps its flight or has none,
  lemma LeaderKept(s: State, n: State, g: nat)
    requires OneLeader(s) && g in n.calls && n.calls == s.calls[g := n.calls[g]]
    requires n.verifySF == s.verifySF && (LeadOf(n, g).None? || LeadOf(n, g) == LeadOf(s, g))
    ensures OneLeader(n)
  {
  }

  // takes off,
  lemma LeaderTakesOff(s: State, n: State, g: nat, t: Triple)
    requires OneLeader(s) && g in n.calls && n.calls == s.calls[g := n.calls[g]]
    requires t !in s.verifySF.open && n.verifySF == Takeoff(s.verifySF, t)
    requires LeadOf(s, g).None? && LeadOf(n, g) == Some((t, s.verifySF.next))
    ensures OneLeader(n)
  {
  }

  // or lands.
  lemma LeaderLands(s: State, n: State, g: nat, t: Triple, f: nat, a: Answer)
    requires OneLeader(s) && g in n.calls && n.calls == s.calls[g := n.calls[g]]
    requires LeadOf(s, g) == Some((t, f)) && LeadOf(n, g).None?
    requires n.verifySF == Land(s.verifySF, t, f, a)
    ensures OneLeader(n)
  {
    forall h | h in n.calls && LeadsVerify(n.calls[h]).Some?
      ensures LeadsVerify(n.calls[h]).value.0 != t
    {
      assert LeadsVerify(s.calls[h]) == LeadsVerify(n.calls[h]);
    }
  }

  lemma OneLeaderStep(s: State, e: Event)
    requires OneLeader(s) && Enabled(s, e)
    ensures OneLeader(Next(s, e))
  {
    hide OneLeader;
    var n := Next(s, e);
    match e {
      case Begin(g, _) => LeaderKept(s, n, g);
      case Step(g, up) =>
        var call := s.calls[g];
        if call.VerifyCall? && call.v.Join? && call.t !in s.verifySF.open {
          LeaderTakesOff(s, n, g, call.t);
        } else if call.VerifyCall? && call.v.Finish? {
          LeaderLands(s, n, g, call.t, call.v.f, call.v.a);
        } else {
          LeaderKept(s, n, g);
        }
      case _ => OneLeaderElsewhere(s, n);
    }
  }

  lemma OneLeaderElsewhere(s: State, n: State)
    requires OneLeader(s) && n.calls == s.calls && n.verifySF == s.verifySF
    ensures OneLeader(n)
  {
  }

  /** Concurrent verifications of the same triple share one upstream question: at no moment do
      two calls lead a flight for it. */
  lemma {:induction false} OneLeaderPerTriple(start: int, rows: map<Pair, Row>, es: seq<Event>, s: State)
    requires Exec(start, rows, es) == Some(s)
    ensures OneLeader(s)
    ensures forall g, h ::
      (g in s.calls && h in s.calls && LeadsVerify(s.calls[g]).Some? &&
       LeadsVerify(s.calls[h]).Some? && s.calls[g].t == s.calls[h].t) ==> g == h
  {
    if es != [] {
      var prev := Exec(start, rows, es[..|es| - 1]).value;
      OneLeaderPerTriple(start, rows, es[..|es| - 1], prev);
      OneLeaderStep(prev, es[|es| - 1]);
    }
  }

  // ------------------------------------------------------------- what each call is answered

  // The check a call is in the middle of, if any.
  function CheckOf(call: Call): Option<(Pair, CheckPC)> {
    match call
    case CheckCall(p, c) => Some((p, c))
    case VerifyCall(t, v) => if v.Checking? then Some((t.pair, v.c)) else None
  }

  // At event `k` call `h` takes a step.
  predicate StepsAt(start: int, rows: map<Pair, Row>, es: seq<Event>, k: nat, h: nat, up: bool) {
    && k < |es| && es[k] == Step(h, up)
    && Exec(start, rows, es[..k]).Some? && h in Exec(start, rows, es[..k]).value.calls
  }

  // Upstream's answer, at event `k`, to the call leading verification flight `f`.
  predicate ToldVerifyAt(start: int, rows: map<Pair, Row>, es: seq<Event>, k: nat, t: Triple, f: nat, a: Answer) {
    && k < |es| && es[k].Step? && StepsAt(start, rows, es, k, es[k].g, es[k].up)
    && var s := Exec(start, rows, es[..k]).value;
      && s.calls[es[k].g] == VerifyCall(t, Lead(f))
      && a == if es[k].up then Is(Genuine(s.rows, t)) else Failed
  }

  predicate ToldActiveAt(start: int, rows: map<Pair, Row>, es: seq<Event>, k: nat, p: Pair, f: nat, a: Answer) {
    && k < |es| && es[k].Step? && StepsAt(start, rows, es, k, es[k].g, es[k].up)
    && var s := Exec(start, rows, es[..k]).value;
      && CheckOf(s.calls[es[k].g]) == Some((p, LeadCheck(f)))
      && a == if es[k].up then Is(Live(s.rows, p)) else Failed
  }

  // At event `k` call `g` finds a live entry that settles its verification.
  predicate LookedAt(start: int, rows: map<Pair, Row>, es: seq<Event>, k: nat, g: nat, t: Triple, a: Answer) {
    && k < |es| && es[k].Step? && es[k].g == g && StepsAt(start, rows, es, k, g, es[k].up)
    && var s := Exec(start, rows, es[..k]).value;
      || (s.calls[g] == VerifyCall(t, LookPositive) && Holds(s.caches.positive, t, s.now) && a == Is(true))
      || (s.calls[g] == VerifyCall(t, LookInactive) && Holds(s.caches.inactive, t.pair, s.now) && a == Is(false))
      || (s.calls[g] == VerifyCall(t, LookWrong) && Holds(s.caches.wrongSecret, t, s.now) && a == Is(false))
  }

  predicate LookedActiveAt(start: int, rows: map<Pair, Row>, es: seq<Event>, k: nat, g: nat, p: Pair, a: Answer) {
    && k < |es| && es[k].Step? && es[k].g == g && StepsAt(start, rows, es, k, g, es[k].up)
    && var s := Exec(start, rows, es[..k]).value;
      && CheckOf(s.calls[g]) == Some((p, LookActive))
      && Holds(s.caches.active, p, s.now) && a == Is(s.caches.active[p].value)
  }

  ghost predicate ToldVerify(start: int, rows: map<Pair, Row>, es: seq<Event>, t: Triple, f: nat, a: Answer) {
    exists k :: ToldVerifyAt(start, rows, es, k, t, f, a)
  }

  ghost predicate ToldActive(start: int, rows: map<Pair, Row>, es: seq<Event>, p: Pair, f: nat, a: Answer) {
    exists k :: ToldActiveAt(start, rows, es, k, p, f, a)
  }

  // Where a verification's answer comes from.
  ghost predicate VerifySettled(start: int, rows: map<Pair, Row>, es: seq<Event>, g: nat, t: Triple, a: Answer) {
    (exists k :: LookedAt(start, rows, es, k, g, t, a)) || (exists f :: ToldVerify(start, rows, es, t, f, a))
  }

  ghost predicate CheckSettled(start: int, rows: map<Pair, Row>, es: seq<Event>, g: nat, p: Pair, a: Answer) {
    (exists k :: LookedActiveAt(start, rows, es, k, g, p, a)) || (exists f :: ToldActive(start, rows, es, p, f, a))
  }

  ghost predicate CheckAccounted(start: int, rows: map<Pair, Row>, es: seq<Event>, g: nat, p: Pair, c: CheckPC) {
    match c
    case GotActive(f, b) => ToldActive(start, rows, es, p, f, Is(b))
    case FinishCheck(f, a) => ToldActive(start, rows, es, p, f, a)
    case Checked(a) => CheckSettled(start, rows, es, g, p, a)
    case _ => true
  }

  ghost predicate CallAccounted(start: int, rows: map<Pair, Row>, es: seq<Event>, g: nat, call: Call) {
    match call
    case CheckCall(p, c) => CheckAccounted(start, rows, es, g, p, c)
    case VerifyCall(t, v) =>
      match v
      case GotTrue(f) => ToldVerify(start, rows, es, t, f, Is(true))
      case Checking(f, c) =>
        ToldVerify(start, rows, es, t, f, Is(false)) && CheckAccounted(start, rows, es, g, t.pair, c)
      case Finish(f, a) => ToldVerify(start, rows, es, t, f, a)
      case Verified(a) => VerifySettled(start, rows, es, g, t, a)
      case _ => true
  }

  ghost predicate LandingsAccounted(start: int, rows: map<Pair, Row>, es: seq<Event>, s: State) {
    && (forall t: Triple, f: nat :: (t, f) in s.verifySF.landed ==>
          ToldVerify(start, rows, es, t, f, s.verifySF.landed[(t, f)]))
    && (forall p: Pair, f: nat :: (p, f) in s.activeSF.landed ==>
          ToldActive(start, rows, es, p, f, s.activeSF.landed[(p, f)]))
    && (forall t :: t in s.caches.positive ==> s.caches.positive[t].value)
  }

  ghost predicate Accounted(start: int, rows: map<Pair, Row>, es: seq<Event>, s: State) {
    && LandingsAccounted(start, rows, es, s)
    && (forall g :: g in s.calls ==> CallAccounted(start, rows, es, g, s.calls[g]))
  }

  // What has been told or found stays so as the run goes on.
  lemma ToldStays(start: int, rows: map<Pair, Row>, es: seq<Event>, e: Event)
    ensures forall t: Triple, f: nat, a: Answer :: ToldVerify(start, rows, es, t, f, a) ==> ToldVerify(start, rows, es + [e], t, f, a)
    ensures forall p: Pair, f: nat, a: Answer :: ToldActive(start, rows, es, p, f, a) ==> ToldActive(start, rows, es + [e], p, f, a)
  {
    hide Exec;
    var all := es + [e];
    forall t: Triple, f: nat, a: Answer | ToldVerify(start, rows, es, t, f, a)
      ensures ToldVerify(start, rows, all, t, f, a)
    {
      var k: nat :| ToldVerifyAt(start, rows, es, k, t, f, a);
      assert all[..k] == es[..k] && all[k] == es[k];
      assert ToldVerifyAt(start, rows, all, k, t, f, a);
    }
    forall p: Pair, f: nat, a: Answer | ToldActive(start, rows, es, p, f, a)
      ensures ToldActive(start, rows, all, p, f, a)
    {
      var k: nat :| ToldActiveAt(start, rows, es, k, p, f, a);
      assert all[..k] == es[..k] && all[k] == es[k];
      assert ToldActiveAt(start, rows, all, k, p, f, a);
    }
  }

  lemma SettledStays(start: int, rows: map<Pair, Row>, es: seq<Event>, e: Event)
    ensures forall g: nat, t: Triple, a: Answer ::
      VerifySettled(start, rows, es, g, t, a) ==> VerifySettled(start, rows, es + [e], g, t, a)
    ensures forall g: nat, p: Pair, a: Answer ::
      CheckSettled(start, rows, es, g, p, a) ==> CheckSettled(start, rows, es + [e], g, p, a)
  {
    hide Exec, ToldVerify, ToldActive;
    ToldStays(start, rows, es, e);
    var all := es + [e];
    forall g: nat, t: Triple, a: Answer | VerifySettled(start, rows, es, g, t, a)
      ensures VerifySettled(start, rows, all, g, t, a)
    {
      if k: nat :| LookedAt(start, rows, es, k, g, t, a) {
        assert all[..k] == es[..k] && all[k] == es[k];
        assert LookedAt(start, rows, all, k, g, t, a);
      }
    }
    forall g: nat, p: Pair, a: Answer | CheckSettled(start, rows, es, g, p, a)
      ensures CheckSettled(start, rows, all, g, p, a)
    {
      if k: nat :| LookedActiveAt(start, rows, es, k, g, p, a) {
        assert all[..k] == es[..k] && all[k] == es[k];
        assert LookedActiveAt(start, rows, all, k, g, p, a);
      }
    }
  }

  lemma CallStays(start: int, rows: map<Pair, Row>, es: seq<Event>, e: Event, g: nat, call: Call)
    requires CallAccounted(start, rows, es, g, call)
    ensures CallAccounted(start, rows, es + [e], g, call)
  {
    hide ToldVerify, ToldActive, VerifySettled, CheckSettled;
    ToldStays(start, rows, es, e);
    SettledStays(start, rows, es, e);
  }

  lemma LandingsStay(start: int, rows: map<Pair, Row>, es: seq<Event>, e: Event, s: State)
    requires LandingsAccounted(start, rows, es, s)
    ensures LandingsAccounted(start, rows, es + [e], s)
  {
    hide ToldVerify, ToldActive;
    ToldStays(start, rows, es, e);
  }

  // One step of a check, made at the end of the run `es`.
  lemma CheckStepAccounted(start: int, rows: map<Pair, Row>, es: seq<Event>, s: State, g: nat, up: bool, p: Pair, c: CheckPC)
    requires Exec(start, rows, es) == Some(s) && g in s.calls && CheckOf(s.calls[g]) == Some((p, c))
    requires LandingsAccounted(start, rows, es, s) && CheckAccounted(start, rows, es, g, p, c) && CheckReady(s, p, c)
    ensures var (c', n) := CheckStep(s, p, c, up);
      CheckAccounted(start, rows, es + [Step(g, up)], g, p, c') && LandingsAccounted(start, rows, es + [Step(g, up)], n)
  {
    hide Exec, ToldVerify;
    var all := es + [Step(g, up)];
    assert all[|es|] == Step(g, up) && all[..|es|] == es;
    ToldStays(start, rows, es, Step(g, up));
    SettledStays(start, rows, es, Step(g, up));
    LandingsStay(start, rows, es, Step(g, up), s);
    match c {
      case LookActive =>
        if Holds(s.caches.active, p, s.now) {
          assert LookedActiveAt(start, rows, all, |es|, g, p, Is(s.caches.active[p].value));
        }
      case LeadCheck(f) =>
        assert ToldActiveAt(start, rows, all, |es|, p, f, if up then Is(Live(s.rows, p)) else Failed);
      case _ =>
    }
  }

  // One step of a verification.
  lemma VerifyStepAccounted(start: int, rows: map<Pair, Row>, es: seq<Event>, s: State, g: nat, up: bool, t: Triple, v: VerifyPC)
    requires Exec(start, rows, es) == Some(s) && g in s.calls && s.calls[g] == VerifyCall(t, v)
    requires LandingsAccounted(start, rows, es, s) && CallAccounted(start, rows, es, g, s.calls[g]) && VerifyReady(s, t, v)
    ensures var (v', n) := VerifyStep(s, t, v, up);
      && CallAccounted(start, rows, es + [Step(g, up)], g, VerifyCall(t, v'))
      && LandingsAccounted(start, rows, es + [Step(g, up)], n)
  {
    hide Exec, CheckStep, CheckSettled, ToldActive, ToldVerify, VerifySettled;
    ToldStays(start, rows, es, Step(g, up));
    LandingsStay(start, rows, es, Step(g, up), s);
    match v {
      case LookPositive => LookSettles(start, rows, es, s, g, up, t, v);
      case LookInactive => LookSettles(start, rows, es, s, g, up, t, v);
      case LookWrong => LookSettles(start, rows, es, s, g, up, t, v);
      case Lead(f) => LeaderIsTold(start, rows, es, s, g, up, t, f);
      case Checking(f, c) =>
        if !c.Checked? {
          CheckStepAccounted(start, rows, es, s, g, up, t.pair, c);
        }
      case Finish(f, a) => ToldSettles(start, rows, es + [Step(g, up)], g, t, f, a);
      case Follow(f) => ToldSettles(start, rows, es + [Step(g, up)], g, t, f, s.verifySF.landed[(t, f)]);
      case _ =>
    }
  }

  lemma ToldSettles(start: int, rows: map<Pair, Row>, es: seq<Event>, g: nat, t: Triple, f: nat, a: Answer)
    requires ToldVerify(start, rows, es, t, f, a)
    ensures VerifySettled(start, rows, es, g, t, a)
  {
  }

  lemma LeaderIsTold(start: int, rows: map<Pair, Row>, es: seq<Event>, s: State, g: nat, up: bool, t: Triple, f: nat)
    requires Exec(start, rows, es) == Some(s) && g in s.calls && s.calls[g] == VerifyCall(t, Lead(f))
    ensures ToldVerify(start, rows, es + [Step(g, up)], t, f, if up then Is(Genuine(s.rows, t)) else Failed)
  {
    hide Exec;
    var all := es + [Step(g, up)];
    assert all[|es|] == Step(g, up) && all[..|es|] == es;
    assert ToldVerifyAt(start, rows, all, |es|, t, f, if up then Is(Genuine(s.rows, t)) else Failed);
  }

  lemma LookSettles(start: int, rows: map<Pair, Row>, es: seq<Event>, s: State, g: nat, up: bool, t: Triple, v: VerifyPC)
    requires Exec(start, rows, es) == Some(s) && g in s.calls && s.calls[g] == VerifyCall(t, v)
    requires v.LookPositive? || v.LookInactive? || v.LookWrong?
    requires forall u :: u in s.caches.positive ==> s.caches.positive[u].value
    ensures var w := VerifyStep(s, t, v, up).0;
      if w.Verified? then VerifySettled(start, rows, es + [Step(g, up)], g, t, w.a)
      else w.LookInactive? || w.LookWrong? || w.Join?
  {
    hide Exec, ToldVerify;
    var all := es + [Step(g, up)];
    assert all[|es|] == Step(g, up) && all[..|es|] == es;
    var w := VerifyStep(s, t, v, up).0;
    if w.Verified? {
      assert LookedAt(start, rows, all, |es|, g, t, w.a);
    }
  }

  lemma AccountedStep(start: int, rows: map<Pair, Row>, es: seq<Event>, s: State, e: Event)
    requires Exec(start, rows, es) == Some(s) && Accounted(start, rows, es, s) && Enabled(s, e)
    ensures Accounted(start, rows, es + [e], Next(s, e))
  {
    hide Exec, CallAccounted, LandingsAccounted, VerifyStep, CheckStep;
    var n := Next(s, e);
    LandingsStay(start, rows, es, e, s);
    forall g | g in s.calls
      ensures CallAccounted(start, rows, es + [e], g, s.calls[g])
    {
      CallStays(start, rows, es, e, g, s.calls[g]);
    }
    match e {
      case Step(g, up) =>
        match s.calls[g] {
          case VerifyCall(t, v) =>
            VerifyStepAccounted(start, rows, es, s, g, up, t, v);
            SameLandings(start, rows, es + [e], VerifyStep(s, t, v, up).1, n);
          case CheckCall(p, c) =>
            CheckOnly(start, rows, es, g, p, c);
            CheckStepAccounted(start, rows, es, s, g, up, p, c);
            CheckOnly(start, rows, es + [e], g, p, CheckStep(s, p, c, up).0);
            SameLandings(start, rows, es + [e], CheckStep(s, p, c, up).1, n);
        }
      case Begin(g, call) =>
        FreshCall(start, rows, es + [e], g, call);
        SameLandings(start, rows, es + [e], s, n);
      case _ => SameLandings(start, rows, es + [e], s, n);
    }
  }

  lemma SameLandings(start: int, rows: map<Pair, Row>, es: seq<Event>, s: State, n: State)
    requires LandingsAccounted(start, rows, es, s)
    requires n.verifySF == s.verifySF && n.activeSF == s.activeSF && n.caches == s.caches
    ensures LandingsAccounted(start, rows, es, n)
  {
  }

  lemma CheckOnly(start: int, rows: map<Pair, Row>, es: seq<Event>, g: nat, p: Pair, c: CheckPC)
    ensures CallAccounted(start, rows, es, g, CheckCall(p, c)) <==> CheckAccounted(start, rows, es, g, p, c)
  {
  }

  lemma FreshCall(start: int, rows: map<Pair, Row>, es: seq<Event>, g: nat, call: Call)
    requires if call.VerifyCall? then call.v.LookPositive? else call.c.LookActive?
    ensures CallAccounted(start, rows, es, g, call)
  {
  }

  lemma {:induction false} AccountedInEveryRun(start: int, rows: map<Pair, Row>, es: seq<Event>, s: State)
    requires Exec(start, rows, es) == Some(s)
    ensures Accounted(start, rows, es, s)
  {
    if es != [] {
      hide Accounted, Next, Enabled;
      var prefix, e := es[..|es| - 1], es[|es| - 1];
      var prev := Exec(start, rows, prefix).value;
      AccountedInEveryRun(start, rows, prefix, prev);
      AccountedStep(start, rows, prefix, prev, e);
      assert prefix + [e] == es;
    }
  }

  /** In every interleaving, where an answer comes from. A finished verification got true from a
      live positive entry it looked up itself, false from a live negative one, or what upstream told
      the leader of a flight for the same triple: an error if it was not reachable, otherwise
      whether the secret was genuine at that moment. A finished check likewise got a live entry's
      value, or what upstream told the leader of a flight for the same pair. */
  lemma AnswersAreAccountedFor(start: int, rows: map<Pair, Row>, es: seq<Event>, s: State, g: nat)
    requires Exec(start, rows, es) == Some(s) && g in s.calls
    ensures s.calls[g].VerifyCall? && s.calls[g].v.Verified? ==>
      VerifySettled(start, rows, es, g, s.calls[g].t, s.calls[g].v.a)
    ensures s.calls[g].CheckCall? && s.calls[g].c.Checked? ==>
      CheckSettled(start, rows, es, g, s.calls[g].p, s.calls[g].c.a)
  {
    hide Exec, VerifySettled, CheckSettled;
    AccountedInEveryRun(start, rows, es, s);
    assert CallAccounted(start, rows, es, g, s.calls[g]);
  }

  /** What upstream told a leader is in the caches by the time its flight lands: an OK under the
      triple, a refusal under the triple if the token is live and under the pair if it is not, and
      whether it is live under the pair. */
  lemma LearnedIsCached(s: State, g: nat, up: bool)
    requires Enabled(s, Step(g, up))
    ensures var n := Next(s, Step(g, up));
      match s.calls[g]
      case VerifyCall(t, GotTrue(f)) =>
        n.calls[g].v.Finish? && n.caches.positive == s.caches.positive[t := Entry(true, s.now + 15 * SECOND)]
      case VerifyCall(t, Checking(f, Checked(Is(true)))) =>
        n.calls[g].v.Finish? && n.caches.wrongSecret == s.caches.wrongSecret[t := Entry(false, s.now + 60 * SECOND)]
      case VerifyCall(t, Checking(f, Checked(Is(false)))) =>
        n.calls[g].v.Finish? && n.caches.inactive == s.caches.inactive[t.pair := Entry(false, s.now + 60 * SECOND)]
      case CheckCall(p, GotActive(f, b)) =>
        n.calls[g].c.FinishCheck? && n.caches.active == s.caches.active[p := Entry(b, s.now + 15 * SECOND)]
      case VerifyCall(t, Checking(f, GotActive(h, b))) =>
        n.caches.active == s.caches.active[t.pair := Entry(b, s.now + 15 * SECOND)]
      case _ => n.caches == s.caches
  {
  }

  /** And when a lookup settles a call: exactly when it finds a live entry. */
  lemma LookupsSettleIffLive(s: State, g: nat, up: bool)
    requires Enabled(s, Step(g, up))
    ensures var c, n := s.calls[g], Next(s, Step(g, up)).calls[g];
      && (c.VerifyCall? && c.v.LookPositive? ==> (n.v.Verified? <==> Holds(s.caches.positive, c.t, s.now)))
      && (c.VerifyCall? && c.v.LookInactive? ==> (n.v.Verified? <==> Holds(s.caches.inactive, c.t.pair, s.now)))
      && (c.VerifyCall? && c.v.LookWrong? ==> (n.v.Verified? <==> Holds(s.caches.wrongSecret, c.t, s.now)))
      && (c.VerifyCall? && n.v.Verified? ==>
            c.v.LookPositive? || c.v.LookInactive? || c.v.LookWrong? || c.v.Finish? || c.v.Follow?)
      && (CheckOf(c).Some? && CheckOf(c).value.1.LookActive? ==>
            && CheckOf(n).Some? && CheckOf(n).value.0 == CheckOf(c).value.0
            && (CheckOf(n).value.1.Checked? <==> Holds(s.caches.active, CheckOf(c).value.0, s.now)))
  {
  }
}
