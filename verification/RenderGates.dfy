/** The two admission gates of a render (pkg/appworker/render.go): the in-flight count of its
    app, and the pod-wide pool of slots. */
module RenderGates {
  import opened Options

  const DEFAULT_PER_APP_INFLIGHT: int := 2

  // ------------------------------------------------------------------- the counting map

  // A missing key counts as zero.
  function Count(inflight: map<string, int>, key: string): int {
    if key in inflight then inflight[key] else 0
  }

  function Acquired(inflight: map<string, int>, key: string, max: int): Option<map<string, int>> {
    if Count(inflight, key) >= max then None else Some(inflight[key := Count(inflight, key) + 1])
  }

  function Released(inflight: map<string, int>, key: string): map<string, int> {
    var n := Count(inflight, key) - 1;
    if n > 0 then inflight[key := n] else inflight - {key}
  }

  class InflightGate {
    const max: int
    var inflight: map<string, int>

    constructor (max: int)
      ensures this.max == (if max <= 0 then 2 else max)
      ensures this.max > 0 && inflight == map[]
    {
      this.max := if max <= 0 then DEFAULT_PER_APP_INFLIGHT else max;
      inflight := map[];
    }

    method TryAcquire(key: string) returns (ok: bool)
      modifies this`inflight
      ensures ok <==> Acquired(old(inflight), key, max).Some?
      ensures inflight == if ok then Acquired(old(inflight), key, max).value else old(inflight)
    {
      var n := if key in inflight then inflight[key] else 0;
      if n >= max {
        return false;
      }
      inflight := inflight[key := n + 1];
      return true;
    }

    method Release(key: string)
      modifies this`inflight
      ensures inflight == Released(old(inflight), key)
    {
      var n := (if key in inflight then inflight[key] else 0) - 1;
      if n > 0 {
        inflight := inflight[key := n];
      } else {
        inflight := inflight - {key};
      }
    }
  }

  /** Giving a slot back undoes taking it, down to the keys of the map. */
  lemma ReleaseUndoesAcquire(inflight: map<string, int>, key: string, max: int)
    requires forall k :: k in inflight ==> inflight[k] > 0
    requires Acquired(inflight, key, max).Some?
    ensures Released(Acquired(inflight, key, max).value, key) == inflight
  {
    var more := Acquired(inflight, key, max).value;
    assert Count(more, key) == Count(inflight, key) + 1;
  }

  // ------------------------------------------------------------------ concurrent renders

  // Admitted by its app and waiting for the pool; running; or on its way out.
  datatype Phase = Waiting | Running | Leaving
  datatype Render = Render(app: string, phase: Phase)

  datatype State = State(inflight: map<string, int>, poolUsed: nat, renders: map<nat, Render>)

  // The critical sections of concurrent renders. Granted and GaveUp are the two ends of the
  // bounded wait for the pool; Finished gives the pool slot back, Left the app's.
  datatype Event =
    | Arrive(id: nat, app: string)
    | Granted(id: nat)
    | GaveUp(id: nat)
    | Finished(id: nat)
    | Left(id: nat)

  datatype Limits = Limits(perApp: int, pool: nat)

  predicate In(s: State, id: nat, phase: Phase) {
    id in s.renders && s.renders[id].phase == phase
  }

  predicate Enabled(s: State, e: Event, lim: Limits) {
    match e
    case Arrive(id, _) => id !in s.renders
    case Granted(id) => In(s, id, Waiting) && s.poolUsed < lim.pool
    case GaveUp(id) => In(s, id, Waiting)
    case Finished(id) => In(s, id, Running) && s.poolUsed > 0
    case Left(id) => In(s, id, Leaving)
  }

  function InPhase(s: State, id: nat, phase: Phase): map<nat, Render>
    requires id in s.renders
  {
    s.renders[id := s.renders[id].(phase := phase)]
  }

  function Next(s: State, e: Event, lim: Limits): State
    requires Enabled(s, e, lim)
  {
    match e
    case Arrive(id, app) =>
      var slot := Acquired(s.inflight, app, lim.perApp);
      if slot.None? then s
      else s.(inflight := slot.value, renders := s.renders[id := Render(app, Waiting)])
    case Granted(id) => s.(poolUsed := s.poolUsed + 1, renders := InPhase(s, id, Running))
    case GaveUp(id) => s.(renders := InPhase(s, id, Leaving))
    case Finished(id) => s.(poolUsed := s.poolUsed - 1, renders := InPhase(s, id, Leaving))
    case Left(id) => s.(inflight := Released(s.inflight, s.renders[id].app), renders := s.renders - {id})
  }

  const IDLE := State(map[], 0, map[])

  // The state after a run, if every event was possible when it happened.
  function Exec(es: seq<Event>, lim: Limits): Option<State> {
    if es == [] then Some(IDLE)
    else
      var before := Exec(es[..|es| - 1], lim);
      var e := es[|es| - 1];
      if before.None? || !Enabled(before.value, e, lim) then None else Some(Next(before.value, e, lim))
  }

  // The renders of an app that were admitted and have not left.
  function Of(renders: map<nat, Render>, app: string): set<nat> {
    set id | id in renders && renders[id].app == app
  }

  function RunningNow(renders: map<nat, Render>): set<nat> {
    set id | id in renders && renders[id].phase == Running
  }

  ghost predicate CountsAreRenders(s: State, lim: Limits) {
    && (forall app :: Count(s.inflight, app) == |Of(s.renders, app)| <= lim.perApp)
    && (forall app :: app in s.inflight ==> s.inflight[app] > 0)
  }

  predicate PoolIsRunning(s: State, lim: Limits) {
    s.poolUsed == |RunningNow(s.renders)| && s.poolUsed <= lim.pool
  }

  lemma OfAdded(renders: map<nat, Render>, id: nat, app: string, other: string)
    requires id !in renders
    ensures |Of(renders[id := Render(app, Waiting)], other)| == |Of(renders, other)| + (if app == other then 1 else 0)
  {
    var after := renders[id := Render(app, Waiting)];
    if app == other {
      assert Of(after, other) == Of(renders, other) + {id};
    } else {
      assert Of(after, other) == Of(renders, other);
    }
  }

  lemma OfRemoved(renders: map<nat, Render>, id: nat, other: string)
    requires id in renders
    ensures |Of(renders - {id}, other)| == |Of(renders, other)| - (if renders[id].app == other then 1 else 0)
  {
    if renders[id].app == other {
      assert Of(renders - {id}, other) == Of(renders, other) - {id};
    } else {
      assert Of(renders - {id}, other) == Of(renders, other);
    }
  }

  lemma OfUnchanged(s: State, id: nat, phase: Phase, other: string)
    requires id in s.renders
    ensures Of(InPhase(s, id, phase), other) == Of(s.renders, other)
  {
  }

  lemma RunningChanged(s: State, id: nat, phase: Phase)
    requires id in s.renders
    ensures RunningNow(InPhase(s, id, phase)) ==
      if phase == Running then RunningNow(s.renders) + {id} else RunningNow(s.renders) - {id}
  {
  }

  lemma ArriveKeeps(s: State, id: nat, app: string, lim: Limits)
    requires CountsAreRenders(s, lim) && PoolIsRunning(s, lim) && Enabled(s, Arrive(id, app), lim)
    ensures CountsAreRenders(Next(s, Arrive(id, app), lim), lim) && PoolIsRunning(Next(s, Arrive(id, app), lim), lim)
  {
    hide Of, RunningNow;
    var t := Next(s, Arrive(id, app), lim);
    if t != s {
      forall other
        ensures Count(t.inflight, other) == |Of(t.renders, other)| <= lim.perApp
      {
        OfAdded(s.renders, id, app, other);
      }
      RunningWithWaiting(s.renders, id, app);
    }
  }

  lemma RunningWithWaiting(renders: map<nat, Render>, id: nat, app: string)
    requires id !in renders
    ensures RunningNow(renders[id := Render(app, Waiting)]) == RunningNow(renders)
  {
  }

  lemma RunningWithout(renders: map<nat, Render>, id: nat)
    requires id in renders && renders[id].phase != Running
    ensures RunningNow(renders - {id}) == RunningNow(renders)
  {
  }

  lemma PhaseKeeps(s: State, e: Event, lim: Limits)
    requires CountsAreRenders(s, lim) && PoolIsRunning(s, lim) && Enabled(s, e, lim)
    requires e.Granted? || e.GaveUp? || e.Finished?
    ensures CountsAreRenders(Next(s, e, lim), lim) && PoolIsRunning(Next(s, e, lim), lim)
  {
    hide Of;
    var phase := if e.Granted? then Running else Leaving;
    forall other
      ensures Of(InPhase(s, e.id, phase), other) == Of(s.renders, other)
    {
      OfUnchanged(s, e.id, phase, other);
    }
    RunningChanged(s, e.id, phase);
  }

  lemma LeftKeeps(s: State, id: nat, lim: Limits)
    requires CountsAreRenders(s, lim) && PoolIsRunning(s, lim) && Enabled(s, Left(id), lim)
    ensures CountsAreRenders(Next(s, Left(id), lim), lim) && PoolIsRunning(Next(s, Left(id), lim), lim)
  {
    hide Of, RunningNow;
    var t := Next(s, Left(id), lim);
    forall other
      ensures Count(t.inflight, other) == |Of(t.renders, other)| <= lim.perApp
    {
      OfRemoved(s.renders, id, other);
    }
    RunningWithout(s.renders, id);
  }

  /** In every run each app's count is the number of its admitted renders that have not left,
      never above the limit, with no zero entries; and the pool holds exactly the running ones. */
  lemma {:induction false} CountsInEveryRun(es: seq<Event>, lim: Limits)
    requires lim.perApp > 0 && Exec(es, lim).Some?
    ensures CountsAreRenders(Exec(es, lim).value, lim) && PoolIsRunning(Exec(es, lim).value, lim)
  {
    hide CountsAreRenders, PoolIsRunning, Next;
    if es == [] {
      IdleCounts(lim);
    } else {
      var before, e := es[..|es| - 1], es[|es| - 1];
      CountsInEveryRun(before, lim);
      var s := Exec(before, lim).value;
      match e {
        case Arrive(id, app) => ArriveKeeps(s, id, app, lim);
        case Left(id) => LeftKeeps(s, id, lim);
        case _ => PhaseKeeps(s, e, lim);
      }
    }
  }

  lemma IdleCounts(lim: Limits)
    requires lim.perApp > 0
    ensures CountsAreRenders(IDLE, lim) && PoolIsRunning(IDLE, lim)
  {
    assert RunningNow(IDLE.renders) == {};
    forall app
      ensures Of(IDLE.renders, app) == {}
    {
    }
  }

  /** A render is turned away exactly when its app already has its full allowance in flight, and
      then nothing changes. */
  lemma RefusedIffFull(es: seq<Event>, id: nat, app: string, lim: Limits)
    requires lim.perApp > 0 && Exec(es, lim).Some? && id !in Exec(es, lim).value.renders
    ensures var s := Exec(es, lim).value; var t := Next(s, Arrive(id, app), lim);
      && (id !in t.renders <==> |Of(s.renders, app)| == lim.perApp)
      && (id !in t.renders ==> t == s)
  {
    hide Of;
    CountsInEveryRun(es, lim);
    assert Count(Exec(es, lim).value.inflight, app) == |Of(Exec(es, lim).value.renders, app)|;
  }

  /** When every render has left, nothing is held and the map is empty. */
  lemma NothingIsLeaked(es: seq<Event>, lim: Limits)
    requires lim.perApp > 0 && Exec(es, lim).Some? && Exec(es, lim).value.renders == map[]
    ensures Exec(es, lim).value == IDLE
  {
    CountsInEveryRun(es, lim);
    var s := Exec(es, lim).value;
    assert RunningNow(s.renders) == {};
    forall app
      ensures app !in s.inflight
    {
      assert Of(s.renders, app) == {};
      assert Count(s.inflight, app) == 0;
    }
    assert s.inflight == map[];
  }

  /** A render can always finish what it started: the events it still owes are possible. */
  lemma OwedEventsAreEnabled(es: seq<Event>, id: nat, lim: Limits)
    requires lim.perApp > 0 && Exec(es, lim).Some? && id in Exec(es, lim).value.renders
    ensures var s := Exec(es, lim).value;
      match s.renders[id].phase
      case Waiting => Enabled(s, GaveUp(id), lim)
      case Running => Enabled(s, Finished(id), lim)
      case Leaving => Enabled(s, Left(id), lim)
  {
    CountsInEveryRun(es, lim);
    var s := Exec(es, lim).value;
    if s.renders[id].phase == Running {
      assert id in RunningNow(s.renders);
    }
  }
}
