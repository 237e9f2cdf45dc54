/** The inline commit worker pool (pkg/datagateway/commit_pool.go): the fields a pool shares
    between goroutines, its critical sections as methods, and every interleaving of them as a
    run of a state machine. */
module CommitPool {
  import opened Options

  // ------------------------------------------------------------ jobs and results

  datatype Job = Job(writerID: string, namespace: string, table: string, key: string)

  datatype Committed = Committed(before: string, after: string, filesAdded: nat, idempotencyHit: bool)

  datatype CommitResult = CommitResult(
    writerID: string, namespace: string, table: string,
    err: Option<string>, committed: Option<Committed>, idempotencyKey: string)

  // What the catalog factory and the commit call answered.
  datatype Reply = CatalogFailed(msg: string) | CommitFailed(msg: string) | Answered(res: Option<Committed>)

  // `run`: the result a job records after it has held a semaphore slot.
  function RunResult(j: Job, reply: Reply): CommitResult {
    match reply
    case CatalogFailed(m) => CommitResult(j.writerID, j.namespace, j.table, Some(m), None, j.key)
    case CommitFailed(m) => CommitResult(j.writerID, j.namespace, j.table, Some(m), None, j.key)
    case Answered(res) => CommitResult(j.writerID, j.namespace, j.table, None, res, j.key)
  }

  // The result of a job that saw the cancellation before it got a slot.
  function CancelledResult(j: Job): CommitResult {
    CommitResult(j.writerID, j.namespace, j.table, Some("context canceled"), None, "")
  }

  ghost predicate ResultFor(j: Job, r: CommitResult) {
    r == CancelledResult(j) || exists reply :: r == RunResult(j, reply)
  }

  // A recorded result and the dispatch call it belongs to.
  datatype Entry = Entry(id: nat, result: CommitResult)

  // ------------------------------------------------------------- the shared fields

  datatype Fields = Fields(
    inflight: int, closed: bool, cancelled: bool,
    slots: nat,            // occupied places of the semaphore channel
    wg: nat,               // the wait group's counter
    results: seq<Entry>, sessionID: nat)

  datatype Config = Config(workers: nat, maxQueueSize: nat)

  // `NewCommitPool` replaces non-positive limits by 4 and 256.
  function Normalize(workers: int, maxQueueSize: int): (c: Config)
    ensures c.workers > 0 && c.maxQueueSize > 0
    ensures workers > 0 ==> c.workers == workers
    ensures workers <= 0 ==> c.workers == 4
    ensures maxQueueSize > 0 ==> c.maxQueueSize == maxQueueSize
    ensures maxQueueSize <= 0 ==> c.maxQueueSize == 256
  {
    Config(if workers <= 0 then 4 else workers, if maxQueueSize <= 0 then 256 else maxQueueSize)
  }

  datatype Admission = Admitted | Closed | QueueFull

  function Admit(c: Config, f: Fields): (Admission, Fields) {
    if f.closed then (Closed, f)
    else if f.inflight >= c.maxQueueSize then (QueueFull, f)
    else (Admitted, f.(inflight := f.inflight + 1, wg := f.wg + 1))
  }

  function Record(f: Fields, sid: nat, e: Entry): Fields {
    if f.sessionID == sid then f.(results := f.results + [e]) else f
  }

  function TakeResults(f: Fields): Fields {
    f.(results := [], sessionID := f.sessionID + 1)
  }

  /** The pool object. Each method is one critical section of the source. */
  class Pool {
    const workers: nat
    const maxQueueSize: nat
    var inflight: int
    var closed: bool
    var cancelled: bool
    var slots: nat
    var wg: nat
    var results: seq<Entry>
    var sessionID: nat

    ghost function View(): Fields
      reads this
    {
      Fields(inflight, closed, cancelled, slots, wg, results, sessionID)
    }

    ghost function Limits(): Config
    {
      Config(workers, maxQueueSize)
    }

    constructor (workers: int, maxQueueSize: int)
      ensures Limits() == Normalize(workers, maxQueueSize)
      ensures View() == Fields(0, false, false, 0, 0, [], 0)
    {
      this.workers := if workers <= 0 then 4 else workers;
      this.maxQueueSize := if maxQueueSize <= 0 then 256 else maxQueueSize;
      inflight, closed, cancelled, slots, wg, results, sessionID := 0, false, false, 0, 0, [], 0;
    }

    // The first critical section of `Dispatch`.
    method TryAdmit() returns (a: Admission)
      modifies this
      ensures (a, View()) == Admit(Limits(), old(View()))
    {
      if closed {
        return Closed;
      }
      if inflight >= maxQueueSize {
        return QueueFull;
      }
      inflight := inflight + 1;
      wg := wg + 1;
      a := Admitted;
    }

    method AppendResult(sid: nat, e: Entry)
      modifies this`results
      ensures View() == Record(old(View()), sid, e)
    {
      if sessionID == sid {
        results := results + [e];
      }
    }

    // The counter half of a goroutine's deferred cleanup.
    method Uncount()
      modifies this`inflight
      ensures View() == old(View()).(inflight := old(inflight) - 1)
    {
      inflight := inflight - 1;
    }

    // The two halves of `Cancel`.
    method MarkClosed()
      modifies this`closed
      ensures View() == old(View()).(closed := true)
    {
      closed := true;
    }

    method CancelContext()
      modifies this`cancelled
      ensures View() == old(View()).(cancelled := true)
    {
      cancelled := true;
    }

    // The critical section that ends `Wait`.
    method Swap() returns (out: seq<Entry>)
      modifies this`results, this`sessionID
      ensures out == old(results) && View() == TakeResults(old(View()))
    {
      out := results;
      results := [];
      sessionID := sessionID + 1;
    }
  }

  // ------------------------------------------------------------------- the machine

  // Where one accepted dispatch has got to.
  datatype Phase =
    | Entering                 // admitted; its session is not read yet
    | Queued(sid: nat)         // goroutine waiting for a slot or the cancellation
    | Running(sid: nat)        // holds a slot
    | Recorded(slot: bool)     // result recorded; `slot` says whether a slot is still held
    | Uncounted                // inflight given back, wait group not yet
    | Gone

  predicate HoldsSlot(p: Phase) { p.Running? || (p.Recorded? && p.slot) }
  predicate CountsInflight(p: Phase) { !p.Uncounted? && !p.Gone? }
  predicate CountsWaitGroup(p: Phase) { !p.Gone? }
  predicate HasRecorded(p: Phase) { p.Recorded? || p.Uncounted? || p.Gone? }

  datatype Waiting = Blocked | Completed | TimedOut

  datatype State = State(
    f: Fields,
    jobs: map<nat, Job>, phases: map<nat, Phase>,   // accepted dispatches by call number
    waits: map<nat, Waiting>,                       // active Wait calls
    outputs: seq<seq<Entry>>)                       // what the Wait calls returned so far

  datatype Event =
    | Accept(id: nat, job: Job)        // Dispatch passes its first critical section
    | Refuse                           // Dispatch returns an error
    | ReadSession(id: nat)
    | Acquire(id: nat)                 // the goroutine takes a slot
    | Run(id: nat, reply: Reply)       // run, up to and including its record
    | SeeCancel(id: nat)               // the goroutine takes the cancelled branch and records
    | ReleaseSlot(id: nat)
    | Uncount(id: nat)
    | DoneWaitGroup(id: nat)
    | BeginWait(w: nat)
    | WaitDone(w: nat)                 // the wait group was seen at zero
    | WaitTimeout(w: nat)
    | SwapResults(w: nat)
    | MarkClosed                       // the two halves of Cancel
    | CancelContext

  function Initial(): State {
    State(Fields(0, false, false, 0, 0, [], 0), map[], map[], map[], [])
  }

  predicate Accepted(s: State, id: nat) {
    id in s.phases && id in s.jobs
  }

  predicate Enabled(c: Config, s: State, e: Event) {
    match e
    case Accept(id, _) => id !in s.phases && id !in s.jobs && Admit(c, s.f).0.Admitted?
    case Refuse => !Admit(c, s.f).0.Admitted?
    case ReadSession(id) => Accepted(s, id) && s.phases[id].Entering?
    case Acquire(id) => Accepted(s, id) && s.phases[id].Queued? && s.f.slots < c.workers
    case Run(id, _) => Accepted(s, id) && s.phases[id].Running?
    case SeeCancel(id) => Accepted(s, id) && s.phases[id].Queued? && s.f.cancelled
    case ReleaseSlot(id) => Accepted(s, id) && s.phases[id].Recorded? && s.phases[id].slot && s.f.slots > 0
    case Uncount(id) => Accepted(s, id) && s.phases[id].Recorded? && !s.phases[id].slot
    case DoneWaitGroup(id) => Accepted(s, id) && s.phases[id].Uncounted? && s.f.wg > 0
    case BeginWait(w) => w !in s.waits
    case WaitDone(w) => w in s.waits && s.waits[w].Blocked? && s.f.wg == 0
    case WaitTimeout(w) => w in s.waits && s.waits[w].Blocked?
    case SwapResults(w) => w in s.waits && !s.waits[w].Blocked?
    case MarkClosed => true
    case CancelContext => s.f.closed
  }

  function Move(s: State, id: nat, p: Phase): State {
    s.(phases := s.phases[id := p])
  }

  function Next(c: Config, s: State, e: Event): State
    requires Enabled(c, s, e)
  {
    match e
    case Accept(id, job) => Move(s, id, Entering).(f := Admit(c, s.f).1, jobs := s.jobs[id := job])
    case Refuse => s
    case ReadSession(id) => Move(s, id, Queued(s.f.sessionID))
    case Acquire(id) => Move(s, id, Running(s.phases[id].sid)).(f := s.f.(slots := s.f.slots + 1))
    case Run(id, reply) =>
      Move(s, id, Recorded(true)).(
        f := Record(s.f, s.phases[id].sid, Entry(id, RunResult(s.jobs[id], reply))))
    case SeeCancel(id) =>
      Move(s, id, Recorded(false)).(
        f := Record(s.f, s.phases[id].sid, Entry(id, CancelledResult(s.jobs[id]))))
    case ReleaseSlot(id) => Move(s, id, Recorded(false)).(f := s.f.(slots := s.f.slots - 1))
    case Uncount(id) => Move(s, id, Uncounted).(f := s.f.(inflight := s.f.inflight - 1))
    case DoneWaitGroup(id) => Move(s, id, Gone).(f := s.f.(wg := s.f.wg - 1))
    case BeginWait(w) => s.(waits := s.waits[w := Blocked])
    case WaitDone(w) => s.(waits := s.waits[w := Completed])
    case WaitTimeout(w) => s.(waits := s.waits[w := TimedOut])
    case SwapResults(w) => s.(f := TakeResults(s.f), waits := s.waits - {w}, outputs := s.outputs + [s.f.results])
    case MarkClosed => s.(f := s.f.(closed := true))
    case CancelContext => s.(f := s.f.(cancelled := true))
  }

  // The state a sequence of events leads to, if each was enabled when it happened.
  function Exec(c: Config, es: seq<Event>): Option<State> {
    if es == [] then Some(Initial())
    else
      var prev := Exec(c, es[..|es| - 1]);
      var e := es[|es| - 1];
      if prev.Some? && Enabled(c, prev.value, e) then Some(Next(c, prev.value, e)) else None
  }

  // ---------------------------------------------------------------- counting phases

  function Those(phases: map<nat, Phase>, p: Phase -> bool): set<nat> {
    set id | id in phases && p(phases[id])
  }

  function One(b: bool): nat { if b then 1 else 0 }

  lemma CardMoved(a: set<nat>, b: set<nat>, id: nat)
    requires forall x :: x != id ==> (x in a <==> x in b)
    ensures |b| == |a| - One(id in a) + One(id in b)
  {
    assert a - {id} == b - {id};
    assert a == if id in a then (a - {id}) + {id} else a - {id};
    assert b == if id in b then (b - {id}) + {id} else b - {id};
  }

  lemma CountMoved(phases: map<nat, Phase>, id: nat, to: Phase, p: Phase -> bool)
    ensures |Those(phases[id := to], p)|
         == |Those(phases, p)| - One(id in phases && p(phases[id])) + One(p(to))
  {
    CardMoved(Those(phases, p), Those(phases[id := to], p), id);
  }

  predicate Counted(c: Config, s: State) {
    && s.phases.Keys == s.jobs.Keys
    && s.f.inflight == |Those(s.phases, CountsInflight)| <= c.maxQueueSize
    && s.f.slots == |Those(s.phases, HoldsSlot)| <= c.workers
    && s.f.wg == |Those(s.phases, CountsWaitGroup)|
  }

  lemma CountedStep(c: Config, s: State, e: Event)
    requires Counted(c, s) && Enabled(c, s, e)
    ensures Counted(c, Next(c, s, e))
  {
    hide Those, RunResult, CancelledResult;
    if e.Accept? || e.ReadSession? || e.Acquire? || e.Run? || e.SeeCancel? || e.ReleaseSlot? ||
       e.Uncount? || e.DoneWaitGroup? {
      var to := Next(c, s, e).phases[e.id];
      CountMoved(s.phases, e.id, to, CountsInflight);
      CountMoved(s.phases, e.id, to, HoldsSlot);
      CountMoved(s.phases, e.id, to, CountsWaitGroup);
    }
  }

  /** In every interleaving `inflight` is the number of unfinished jobs and stays within the
      queue limit, and no more than `workers` jobs hold a slot. */
  lemma {:induction false} CountsInEveryRun(c: Config, es: seq<Event>, s: State)
    requires Exec(c, es) == Some(s)
    ensures Counted(c, s)
  {
    if es == [] {
      assert Those(s.phases, CountsInflight) == {};
      assert Those(s.phases, HoldsSlot) == {};
      assert Those(s.phases, CountsWaitGroup) == {};
    } else {
      var prev := Exec(c, es[..|es| - 1]).value;
      CountsInEveryRun(c, es[..|es| - 1], prev);
      CountedStep(c, prev, es[|es| - 1]);
    }
  }

  // Giving a slot or the wait group back never has to wait.
  lemma ReleasesAreEnabled(c: Config, es: seq<Event>, s: State, id: nat)
    requires Exec(c, es) == Some(s) && Accepted(s, id)
    ensures HoldsSlot(s.phases[id]) ==> s.f.slots > 0
    ensures s.phases[id].Uncounted? ==> Enabled(c, s, DoneWaitGroup(id))
  {
    CountsInEveryRun(c, es, s);
    if HoldsSlot(s.phases[id]) {
      assert id in Those(s.phases, HoldsSlot);
    }
    if s.phases[id].Uncounted? {
      assert id in Those(s.phases, CountsWaitGroup);
    }
  }

  // -------------------------------------------------- no job is reported twice

  function Flatten(outs: seq<seq<Entry>>): seq<Entry> {
    if outs == [] then [] else Flatten(outs[..|outs| - 1]) + outs[|outs| - 1]
  }

  // Everything handed out, then everything still waiting to be.
  function Reported(s: State): seq<Entry> {
    Flatten(s.outputs) + s.f.results
  }

  predicate DistinctIds(es: seq<Entry>) {
    forall i, j :: 0 <= i < j < |es| ==> es[i].id != es[j].id
  }

  // Each entry belongs to a job that has recorded, and carries a result made for that job.
  ghost predicate EntriesGenuine(s: State, es: seq<Entry>) {
    forall i :: 0 <= i < |es| ==>
      && es[i].id in s.phases && es[i].id in s.jobs
      && HasRecorded(s.phases[es[i].id])
      && ResultFor(s.jobs[es[i].id], es[i].result)
  }

  ghost predicate ReportedOnce(s: State) {
    DistinctIds(Reported(s)) && EntriesGenuine(s, Reported(s))
  }

  lemma ReportedOnceStep(c: Config, s: State, e: Event)
    requires ReportedOnce(s) && s.phases.Keys == s.jobs.Keys && Enabled(c, s, e)
    ensures ReportedOnce(Next(c, s, e))
  {
    hide ReportedOnce, Reported, ResultFor, RunResult, CancelledResult, KeepsJobs;
    var n := Next(c, s, e);
    NothingForgotten(c, s, e);
    match e {
      case Run(id, reply) =>
        RunIsGenuine(s.jobs[id], reply);
        RecordOnce(s, n, s.phases[id].sid, Entry(id, RunResult(s.jobs[id], reply)));
      case SeeCancel(id) =>
        CancelIsGenuine(s.jobs[id]);
        RecordOnce(s, n, s.phases[id].sid, Entry(id, CancelledResult(s.jobs[id])));
      case SwapResults(w) =>
        HandedOut(s, n);
        QuietOnce(s, n);
      case _ =>
        SameReport(s, n);
        QuietOnce(s, n);
    }
  }

  // No step forgets a job or takes a record back.
  lemma NothingForgotten(c: Config, s: State, e: Event)
    requires s.phases.Keys == s.jobs.Keys && Enabled(c, s, e)
    ensures var n := Next(c, s, e); KeepsJobs(s, n)
  {
    hide RunResult, CancelledResult, Record, Admit, TakeResults;
  }

  ghost predicate KeepsJobs(s: State, n: State) {
    && (forall id :: id in s.jobs ==> id in n.jobs && n.jobs[id] == s.jobs[id])
    && (forall id :: id in s.phases && HasRecorded(s.phases[id]) ==> id in n.phases && HasRecorded(n.phases[id]))
  }

  lemma RunIsGenuine(j: Job, reply: Reply)
    ensures ResultFor(j, RunResult(j, reply))
  {
  }

  lemma CancelIsGenuine(j: Job)
    ensures ResultFor(j, CancelledResult(j))
  {
  }

  // Handing results out changes where they are, not which they are.
  lemma HandedOut(s: State, n: State)
    requires n.outputs == s.outputs + [s.f.results] && n.f.results == []
    ensures Reported(n) == Reported(s)
  {
    assert n.outputs[..|n.outputs| - 1] == s.outputs;
  }

  lemma SameReport(s: State, n: State)
    requires n.outputs == s.outputs && n.f.results == s.f.results
    ensures Reported(n) == Reported(s)
  {
  }

  // A step that reports nothing new and forgets no job.
  lemma QuietOnce(s: State, n: State)
    requires ReportedOnce(s) && Reported(n) == Reported(s) && KeepsJobs(s, n)
    ensures ReportedOnce(n)
  {
    hide ResultFor, Reported, HasRecorded;
  }

  lemma RecordOnce(s: State, n: State, sid: nat, e: Entry)
    requires ReportedOnce(s)
    requires e.id in s.phases && !HasRecorded(s.phases[e.id]) && e.id in s.jobs
    requires ResultFor(s.jobs[e.id], e.result)
    requires e.id in n.phases && HasRecorded(n.phases[e.id])
    requires n == Move(s, e.id, n.phases[e.id]).(f := Record(s.f, sid, e))
    ensures ReportedOnce(n)
  {
    hide ResultFor, Flatten;
    assert Reported(n) == if s.f.sessionID == sid then Reported(s) + [e] else Reported(s);
  }

  /** In every interleaving, with timed-out Waits and Cancel, each job appears at most once
      over all Wait outputs, always with a result made for that job. */
  lemma {:induction false} ReportedOnceInEveryRun(c: Config, es: seq<Event>, s: State)
    requires Exec(c, es) == Some(s)
    ensures ReportedOnce(s)
    ensures DistinctIds(Flatten(s.outputs)) && EntriesGenuine(s, Flatten(s.outputs))
  {
    if es != [] {
      var prefix := es[..|es| - 1];
      var prev := Exec(c, prefix).value;
      ReportedOnceInEveryRun(c, prefix, prev);
      CountsInEveryRun(c, prefix, prev);
      ReportedOnceStep(c, prev, es[|es| - 1]);
    }
    assert forall i :: 0 <= i < |Flatten(s.outputs)| ==> Reported(s)[i] == Flatten(s.outputs)[i];
  }

  // -------------------------------------------- a completed Wait reports its session

  // The dispatches accepted since the last Wait took its results, read off the run.
  function DispatchedSince(es: seq<Event>): set<nat> {
    if es == [] then {}
    else
      var e := es[|es| - 1];
      if e.Accept? then DispatchedSince(es[..|es| - 1]) + {e.id}
      else if e.SwapResults? then {}
      else DispatchedSince(es[..|es| - 1])
  }

  // CONTRACT: no Dispatch runs concurrently with a Wait.
  predicate KeepsContract(s: State, e: Event) {
    && (e.Accept? || e.ReadSession? ==> s.waits == map[])
    && (e.BeginWait? ==> forall id :: id in s.phases ==> !s.phases[id].Entering?)
  }

  predicate ContractRun(c: Config, es: seq<Event>) {
    if es == [] then true
    else
      var prev := Exec(c, es[..|es| - 1]);
      ContractRun(c, es[..|es| - 1]) && (prev.Some? ==> KeepsContract(prev.value, es[|es| - 1]))
  }

  function Ids(es: seq<Entry>): set<nat> {
    set i | 0 <= i < |es| :: es[i].id
  }

  // A job is of the current session when it will still record into it, or already has.
  predicate JobPlaced(s: State, since: set<nat>, id: nat)
    requires id in s.phases
  {
    var p := s.phases[id];
    if HasRecorded(p) then (id in since <==> id in Ids(s.f.results))
    else if p.Entering? then id in since && s.waits == map[]
    else p.sid <= s.f.sessionID && (id in since <==> p.sid == s.f.sessionID)
  }

  predicate SessionExact(s: State, since: set<nat>) {
    && since <= s.phases.Keys
    && (forall id :: id in s.phases ==> JobPlaced(s, since, id))
    && (forall id :: id in Ids(s.f.results) ==> id in s.phases && HasRecorded(s.phases[id]))
    && (forall w :: w in s.waits && s.waits[w].Completed? ==> s.f.wg == 0)
  }

  lemma SessionRecord(s: State, n: State, since: set<nat>, sid: nat, e: Entry)
    requires SessionExact(s, since)
    requires e.id in s.phases && (s.phases[e.id].Queued? || s.phases[e.id].Running?)
    requires s.phases[e.id].sid == sid
    requires e.id in n.phases && HasRecorded(n.phases[e.id])
    requires n == Move(s, e.id, n.phases[e.id]).(f := Record(s.f, sid, e))
    ensures SessionExact(n, since)
  {
    assert JobPlaced(s, since, e.id);
    if s.f.sessionID == sid {
      assert n.f.results[|s.f.results|] == e;
      assert forall i :: 0 <= i < |s.f.results| ==> n.f.results[i] == s.f.results[i];
      assert Ids(n.f.results) == Ids(s.f.results) + {e.id};
    }
    forall id | id in n.phases
      ensures JobPlaced(n, since, id)
    {
      assert JobPlaced(s, since, id);
    }
  }

  lemma SessionSwap(s: State, n: State, w: nat, since: set<nat>)
    requires SessionExact(s, since) && w in s.waits
    requires n.f == TakeResults(s.f) && n.phases == s.phases && n.waits == s.waits - {w}
    ensures SessionExact(n, {})
  {
    forall id | id in n.phases
      ensures JobPlaced(n, {}, id)
    {
      assert JobPlaced(s, since, id);
    }
  }

  // Every other step leaves the results and the session alone.
  lemma SessionQuiet(c: Config, s: State, e: Event, since: set<nat>)
    requires SessionExact(s, since) && Enabled(c, s, e) && KeepsContract(s, e)
    requires !e.Run? && !e.SeeCancel? && !e.SwapResults?
    ensures SessionExact(Next(c, s, e), if e.Accept? then since + {e.id} else since)
  {
    hide Ids;
    var n := Next(c, s, e);
    forall id | id in n.phases
      ensures JobPlaced(n, if e.Accept? then since + {e.id} else since, id)
    {
      assert id in s.phases ==> JobPlaced(s, since, id);
    }
  }

  lemma {:induction false} SessionInContractRuns(c: Config, es: seq<Event>, s: State)
    requires Exec(c, es) == Some(s) && ContractRun(c, es)
    ensures SessionExact(s, DispatchedSince(es))
  {
    if es != [] {
      var prefix, e := es[..|es| - 1], es[|es| - 1];
      var prev, since := Exec(c, prefix).value, DispatchedSince(prefix);
      SessionInContractRuns(c, prefix, prev);
      match e {
        case Run(id, reply) =>
          SessionRecord(prev, s, since, prev.phases[id].sid, Entry(id, RunResult(prev.jobs[id], reply)));
        case SeeCancel(id) =>
          SessionRecord(prev, s, since, prev.phases[id].sid, Entry(id, CancelledResult(prev.jobs[id])));
        case SwapResults(w) =>
          SessionSwap(prev, s, w, since);
        case _ =>
          SessionQuiet(c, prev, e, since);
      }
    }
  }

  /** Under the Dispatch/Wait contract, a Wait that ends by completion returns exactly one
      result for every job dispatched since the previous Wait, and nothing else. */
  lemma CompletedWaitReportsItsSession(c: Config, es: seq<Event>, s: State, w: nat)
    requires Exec(c, es) == Some(s) && ContractRun(c, es)
    requires w in s.waits && s.waits[w].Completed?
    ensures Enabled(c, s, SwapResults(w))
    ensures var out := Next(c, s, SwapResults(w)).outputs;
      && out == s.outputs + [out[|s.outputs|]]
      && DistinctIds(out[|s.outputs|])
      && Ids(out[|s.outputs|]) == DispatchedSince(es)
      && |out[|s.outputs|]| == |DispatchedSince(es)|
  {
    SessionInContractRuns(c, es, s);
    CountsInEveryRun(c, es, s);
    ReportedOnceInEveryRun(c, es, s);
    ResultsDistinct(s);
    assert Those(s.phases, CountsWaitGroup) == {};
    forall id | id in s.phases
      ensures HasRecorded(s.phases[id]) && JobPlaced(s, DispatchedSince(es), id)
    {
      assert id !in Those(s.phases, CountsWaitGroup);
    }
    assert Ids(s.f.results) == DispatchedSince(es);
    DistinctCardinality(s.f.results);
  }

  // ------------------------------------------------ which results are reported at all

  predicate Records(e: Event, id: nat) {
    (e.Run? || e.SeeCancel?) && e.id == id
  }

  ghost predicate HasRead(es: seq<Event>, id: nat) {
    exists r :: 0 <= r < |es| && es[r] == ReadSession(id)
  }

  // A Wait took the results after the job had read its session.
  ghost predicate SwapAfterRead(es: seq<Event>, id: nat) {
    exists m :: 0 <= m < |es| && es[m].SwapResults? && HasRead(es[..m], id)
  }

  // A Wait, completed or timed out, took the results between the moment the job read its
  // session and the moment it recorded.
  ghost predicate SwapBetween(es: seq<Event>, id: nat) {
    exists k :: 0 <= k < |es| && Records(es[k], id) && SwapAfterRead(es[..k], id)
  }

  lemma HasReadSnoc(es: seq<Event>, e: Event, id: nat)
    ensures HasRead(es + [e], id) <==> HasRead(es, id) || e == ReadSession(id)
  {
    var all := es + [e];
    assert all[|es|] == e;
    assert forall i :: 0 <= i < |es| ==> all[i] == es[i];
  }

  lemma AfterReadSnoc(es: seq<Event>, e: Event, id: nat)
    ensures SwapAfterRead(es + [e], id) <==> SwapAfterRead(es, id) || (e.SwapResults? && HasRead(es, id))
  {
    hide HasRead;
    var all := es + [e];
    assert all[|es|] == e && all[..|es|] == es;
    assert forall i :: 0 <= i < |es| ==> all[i] == es[i] && all[..i] == es[..i];
  }

  lemma BetweenSnoc(es: seq<Event>, e: Event, id: nat)
    ensures SwapBetween(es + [e], id) <==> SwapBetween(es, id) || (Records(e, id) && SwapAfterRead(es, id))
  {
    hide SwapAfterRead, Records;
    var all := es + [e];
    assert all[|es|] == e && all[..|es|] == es;
    assert forall i :: 0 <= i < |es| ==> all[i] == es[i] && all[..i] == es[..i];
  }

  // What the run so far says about one job.
  ghost predicate JobTracked(es: seq<Event>, s: State, id: nat) {
    if id !in s.phases then !HasRead(es, id) && !SwapBetween(es, id) && id !in Ids(Reported(s))
    else
      var p := s.phases[id];
      if HasRecorded(p) then id in Ids(Reported(s)) <==> !SwapBetween(es, id)
      else
        && !SwapBetween(es, id) && id !in Ids(Reported(s))
        && (HasRead(es, id) <==> !p.Entering?)
        && (!p.Entering? ==> p.sid <= s.f.sessionID && (p.sid < s.f.sessionID <==> SwapAfterRead(es, id)))
  }

  lemma NoSwapBeforeRead(es: seq<Event>, id: nat)
    requires !HasRead(es, id)
    ensures !SwapAfterRead(es, id)
  {
  }

  // Only a job's own record, into its own session, adds to what is reported.
  lemma ReportedStep(c: Config, s: State, e: Event, id: nat)
    requires Enabled(c, s, e)
    ensures id in Ids(Reported(Next(c, s, e))) <==>
      id in Ids(Reported(s)) || (Records(e, id) && s.phases[id].sid == s.f.sessionID)
  {
    var n := Next(c, s, e);
    if e.SwapResults? {
      HandedOut(s, n);
    } else if (e.Run? || e.SeeCancel?) && s.phases[e.id].sid == s.f.sessionID {
      var x := n.f.results[|s.f.results|];
      assert Reported(n) == Reported(s) + [x];
      IdsSnoc(Reported(s), x);
    } else {
      assert Reported(n) == Reported(s);
    }
  }

  lemma IdsSnoc(es: seq<Entry>, x: Entry)
    ensures Ids(es + [x]) == Ids(es) + {x.id}
  {
    assert (es + [x])[|es|] == x;
    assert forall i :: 0 <= i < |es| ==> (es + [x])[i] == es[i];
  }

  lemma TrackedStep(c: Config, es: seq<Event>, s: State, e: Event, id: nat)
    requires JobTracked(es, s, id) && s.phases.Keys == s.jobs.Keys && Enabled(c, s, e)
    ensures JobTracked(es + [e], Next(c, s, e), id)
  {
    hide HasRead, SwapAfterRead, SwapBetween, Reported, Ids;
    HasReadSnoc(es, e, id);
    AfterReadSnoc(es, e, id);
    BetweenSnoc(es, e, id);
    ReportedStep(c, s, e, id);
    if !HasRead(es, id) {
      NoSwapBeforeRead(es, id);
    }
  }

  lemma {:induction false} TrackedInEveryRun(c: Config, es: seq<Event>, s: State, id: nat)
    requires Exec(c, es) == Some(s)
    ensures JobTracked(es, s, id)
  {
    if es != [] {
      hide JobTracked, Next, Enabled;
      var prefix, e := es[..|es| - 1], es[|es| - 1];
      var prev := Exec(c, prefix).value;
      TrackedInEveryRun(c, prefix, prev, id);
      CountsInEveryRun(c, prefix, prev);
      TrackedStep(c, prefix, prev, e, id);
      assert prefix + [e] == es;
    }
  }

  /** In every run, with or without the contract, with timed-out Waits and Cancel: the result of
      a job that has recorded is handed out, or still waiting to be, exactly when no Wait took
      the results between the moment the job read its session and the moment it recorded. */
  lemma ReportedIffNoSwapBetween(c: Config, es: seq<Event>, s: State, id: nat)
    requires Exec(c, es) == Some(s) && id in s.phases && HasRecorded(s.phases[id])
    ensures id in Ids(Reported(s)) <==> !SwapBetween(es, id)
  {
    TrackedInEveryRun(c, es, s, id);
  }

  lemma LostForGood(c: Config, es: seq<Event>, s: State, more: seq<Event>, t: State, id: nat)
    requires Exec(c, es) == Some(s) && id in s.phases && HasRecorded(s.phases[id])
    requires id !in Ids(Reported(s)) && Exec(c, es + more) == Some(t)
    ensures id !in Ids(Reported(t))
  {
    hide Reported, Ids, SwapAfterRead;
    TrackedInEveryRun(c, es, s, id);
    var k :| 0 <= k < |es| && Records(es[k], id) && SwapAfterRead(es[..k], id);
    var all := es + more;
    assert all[k] == es[k] && all[..k] == es[..k];
    TrackedInEveryRun(c, all, t, id);
  }

  // ------------------------------------------------------- what a reported result says

  // What a result must say, given the job that was dispatched and the event that recorded it.
  ghost predicate CarriesAnswer(job: Job, e: Event, r: CommitResult) {
    && r.writerID == job.writerID && r.namespace == job.namespace && r.table == job.table
    && match e
       case Run(_, reply) =>
         && (forall m :: r.err == Some(m) <==> reply == CatalogFailed(m) || reply == CommitFailed(m))
         && r.committed == (if reply.Answered? then reply.res else None)
         && r.idempotencyKey == job.key
       case SeeCancel(_) => r.err == Some("context canceled") && r.committed == None && r.idempotencyKey == ""
       case _ => false
  }

  // The job as its dispatch was accepted; no record of it unless it has recorded.
  ghost predicate Traced(es: seq<Event>, s: State, id: nat) {
    && (id in s.jobs ==> Accept(id, s.jobs[id]) in es)
    && (forall job :: Accept(id, job) in es ==> id in s.jobs && s.jobs[id] == job)
    && (forall e :: e in es && Records(e, id) ==> id in s.phases && HasRecorded(s.phases[id]))
  }

  // An entry says what the one event that recorded it says.
  ghost predicate EntrySays(es: seq<Event>, s: State, x: Entry) {
    && x.id in s.jobs
    && (exists e :: e in es && Records(e, x.id))
    && (forall e :: e in es && Records(e, x.id) ==> CarriesAnswer(s.jobs[x.id], e, x.result))
  }

  lemma InSnoc(es: seq<Event>, e: Event)
    ensures forall x :: x in es + [e] <==> x in es || x == e
  {
  }

  lemma TracedStep(c: Config, es: seq<Event>, s: State, e: Event, id: nat)
    requires Traced(es, s, id) && s.phases.Keys == s.jobs.Keys && Enabled(c, s, e)
    ensures Traced(es + [e], Next(c, s, e), id)
  {
    hide RunResult, CancelledResult;
    InSnoc(es, e);
  }

  // The entry a recording step adds.
  lemma RecordSays(c: Config, s: State, e: Event)
    requires Enabled(c, s, e) && (e.Run? || e.SeeCancel?) && s.phases[e.id].sid == s.f.sessionID
    ensures var n := Next(c, s, e);
      && n.f.results == s.f.results + [n.f.results[|s.f.results|]] && n.outputs == s.outputs && n.jobs == s.jobs
      && n.f.results[|s.f.results|].id == e.id
      && CarriesAnswer(s.jobs[e.id], e, n.f.results[|s.f.results|].result)
  {
  }

  lemma OldEntrySays(c: Config, es: seq<Event>, s: State, e: Event, x: Entry)
    requires EntrySays(es, s, x) && Enabled(c, s, e)
    requires x.id in s.phases && HasRecorded(s.phases[x.id])
    ensures EntrySays(es + [e], Next(c, s, e), x)
  {
    hide CarriesAnswer, RunResult, CancelledResult;
    InSnoc(es, e);
    var r :| r in es && Records(r, x.id);
    assert r in es + [e];
  }

  lemma NewEntrySays(es: seq<Event>, s: State, n: State, e: Event, x: Entry)
    requires Traced(es, s, x.id) && !(x.id in s.phases && HasRecorded(s.phases[x.id]))
    requires Records(e, x.id) && x.id in s.jobs && n.jobs == s.jobs && CarriesAnswer(s.jobs[x.id], e, x.result)
    ensures EntrySays(es + [e], n, x)
  {
    hide CarriesAnswer;
    InSnoc(es, e);
    assert e in es + [e];
  }

  ghost predicate AllSay(es: seq<Event>, s: State) {
    forall i :: 0 <= i < |Reported(s)| ==> EntrySays(es, s, Reported(s)[i])
  }

  lemma AllSayStep(c: Config, es: seq<Event>, s: State, e: Event)
    requires AllSay(es, s) && ReportedOnce(s) && Enabled(c, s, e)
    requires (e.Run? || e.SeeCancel?) ==> Traced(es, s, e.id)
    ensures AllSay(es + [e], Next(c, s, e))
  {
    hide EntrySays, Traced, Reported, ResultFor, RunResult, CancelledResult, CarriesAnswer;
    var n := Next(c, s, e);
    forall i | 0 <= i < |Reported(s)|
      ensures EntrySays(es + [e], n, Reported(s)[i])
    {
      OldEntrySays(c, es, s, e, Reported(s)[i]);
    }
    if (e.Run? || e.SeeCancel?) && s.phases[e.id].sid == s.f.sessionID {
      RecordSays(c, s, e);
      var x := n.f.results[|s.f.results|];
      NewEntrySays(es, s, n, e, x);
      ReportGrows(s, n, x);
    } else if e.SwapResults? {
      HandedOut(s, n);
    } else {
      SameReport(s, n);
    }
  }

  lemma ReportGrows(s: State, n: State, x: Entry)
    requires n.outputs == s.outputs && n.f.results == s.f.results + [x]
    ensures Reported(n) == Reported(s) + [x]
  {
  }

  lemma {:induction false} TracedInEveryRun(c: Config, es: seq<Event>, s: State, id: nat)
    requires Exec(c, es) == Some(s)
    ensures Traced(es, s, id)
  {
    if es != [] {
      hide Traced, Next, Enabled;
      var prefix, e := es[..|es| - 1], es[|es| - 1];
      var prev := Exec(c, prefix).value;
      TracedInEveryRun(c, prefix, prev, id);
      CountsInEveryRun(c, prefix, prev);
      TracedStep(c, prefix, prev, e, id);
      assert prefix + [e] == es;
    }
  }

  lemma {:induction false} AllSayInEveryRun(c: Config, es: seq<Event>, s: State)
    requires Exec(c, es) == Some(s)
    ensures AllSay(es, s)
  {
    if es != [] {
      hide AllSay, Traced, Next, Enabled, ReportedOnce;
      var prefix, e := es[..|es| - 1], es[|es| - 1];
      var prev := Exec(c, prefix).value;
      AllSayInEveryRun(c, prefix, prev);
      ReportedOnceInEveryRun(c, prefix, prev);
      if e.Run? || e.SeeCancel? {
        TracedInEveryRun(c, prefix, prev, e.id);
      }
      AllSayStep(c, prefix, prev, e);
      assert prefix + [e] == es;
    }
  }

  /** What a result handed out, or waiting to be, says in every run: its job was dispatched and
      recorded once; writer, namespace and table are the dispatched job's; after a run it carries
      an error exactly if the catalog or the commit failed, with that message, and otherwise what
      the commit answered, under the job's key; after a cancellation, the cancellation. */
  lemma ReportsCarryTheAnswer(c: Config, es: seq<Event>, s: State, i: nat)
    requires Exec(c, es) == Some(s) && i < |Reported(s)|
    ensures var x := Reported(s)[i];
      && (exists job :: Accept(x.id, job) in es)
      && (exists e :: e in es && Records(e, x.id))
      && (forall job, e :: Accept(x.id, job) in es && e in es && Records(e, x.id) ==> CarriesAnswer(job, e, x.result))
  {
    hide CarriesAnswer, Exec;
    AllSayInEveryRun(c, es, s);
    var x := Reported(s)[i];
    TracedInEveryRun(c, es, s, x.id);
    assert EntrySays(es, s, x);
    assert Accept(x.id, s.jobs[x.id]) in es;
  }

  // Both halves of a Cancel have happened.
  predicate CancelIn(es: seq<Event>) {
    CancelContext in es && MarkClosed in es
  }

  lemma CancelInSnoc(es: seq<Event>, e: Event)
    ensures CancelIn(es) ==> CancelIn(es + [e])
    ensures e == CancelContext && MarkClosed in es ==> CancelIn(es + [e])
  {
  }

  /** A cancellation is reported only after a Cancel. */
  lemma {:induction false} CancelledOnlyAfterCancel(c: Config, es: seq<Event>, s: State, id: nat)
    requires Exec(c, es) == Some(s)
    ensures s.f.cancelled ==> CancelIn(es)
    ensures SeeCancel(id) in es ==> CancelIn(es)
  {
    if es != [] {
      hide Next, Enabled, CancelIn;
      var prefix, e := es[..|es| - 1], es[|es| - 1];
      var prev := Exec(c, prefix).value;
      CancelledOnlyAfterCancel(c, prefix, prev, id);
      ClosedIff(c, prefix, prev);
      CancelStep(c, prev, e);
      assert es == prefix + [e];
      CancelInSnoc(prefix, e);
      InOneMore(prefix, e, SeeCancel(id));
    }
  }

  lemma InOneMore(es: seq<Event>, e: Event, x: Event)
    ensures x in es + [e] <==> x in es || x == e
  {
  }

  lemma CancelStep(c: Config, s: State, e: Event)
    requires Enabled(c, s, e)
    ensures Next(c, s, e).f.cancelled ==> s.f.cancelled || (e == CancelContext && s.f.closed)
    ensures e.SeeCancel? ==> s.f.cancelled
  {
    hide RunResult, CancelledResult;
  }

  /** When Dispatch refuses, in every run: as closed exactly after a Cancel, otherwise as full
      exactly when as many jobs are unfinished as the queue holds. */
  lemma RefusedIff(c: Config, es: seq<Event>, s: State)
    requires Exec(c, es) == Some(s)
    ensures Admit(c, s.f).0 == Closed <==> MarkClosed in es
    ensures Admit(c, s.f).0 == QueueFull <==> MarkClosed !in es && |Those(s.phases, CountsInflight)| == c.maxQueueSize
    ensures Admit(c, s.f).0 == Admitted <==> MarkClosed !in es && |Those(s.phases, CountsInflight)| < c.maxQueueSize
  {
    hide Exec, Those;
    CountsInEveryRun(c, es, s);
    ClosedIff(c, es, s);
  }

  lemma {:induction false} ClosedIff(c: Config, es: seq<Event>, s: State)
    requires Exec(c, es) == Some(s)
    ensures s.f.closed <==> MarkClosed in es
  {
    if es != [] {
      hide Next, Enabled;
      var prefix, e := es[..|es| - 1], es[|es| - 1];
      var prev := Exec(c, prefix).value;
      ClosedIff(c, prefix, prev);
      ClosedStep(c, prev, e);
      assert es == prefix + [e];
      InOneMore(prefix, e, MarkClosed);
    }
  }

  lemma ClosedStep(c: Config, s: State, e: Event)
    requires Enabled(c, s, e)
    ensures Next(c, s, e).f.closed <==> s.f.closed || e == MarkClosed
  {
    hide RunResult, CancelledResult;
  }

  // No continuation of the run reports the job.
  ghost predicate NeverReported(c: Config, es: seq<Event>, id: nat) {
    forall more: seq<Event>, t: State :: Exec(c, es + more) == Some(t) ==> id !in Ids(Reported(t))
  }

  /** A result that was dropped stays dropped: no continuation of the run reports it. */
  lemma DroppedForGood(c: Config, es: seq<Event>, s: State, id: nat)
    requires Exec(c, es) == Some(s) && id in s.phases && HasRecorded(s.phases[id])
    requires id !in Ids(Reported(s))
    ensures NeverReported(c, es, id)
  {
    hide Exec, Reported, Ids;
    forall more: seq<Event>, t: State | Exec(c, es + more) == Some(t)
      ensures id !in Ids(Reported(t))
    {
      LostForGood(c, es, s, more, t, id);
    }
  }

  lemma ExecSnoc(c: Config, es: seq<Event>, e: Event)
    requires Exec(c, es).Some? && Enabled(c, Exec(c, es).value, e)
    ensures Exec(c, es + [e]) == Some(Next(c, Exec(c, es).value, e))
    ensures DispatchedSince(es + [e]) ==
      if e.Accept? then DispatchedSince(es) + {e.id}
      else if e.SwapResults? then {} else DispatchedSince(es)
  {
    assert (es + [e])[..|es|] == es;
  }

  // A job dispatched between a Wait's completion and the taking of its results.
  lemma LateDispatch(j: Job) returns (es: seq<Event>, s: State)
    ensures Exec(Config(1, 1), es) == Some(s) && DispatchedSince(es) == {7}
    ensures s == State(Fields(1, false, false, 0, 1, [], 0),
                       map[7 := j], map[7 := Queued(0)], map[0 := Completed], [])
  {
    var c := Config(1, 1);
    var e1 := [BeginWait(0)];
    assert [] + e1 == e1;
    ExecSnoc(c, [], BeginWait(0));
    ExecSnoc(c, e1, WaitDone(0));
    var e2 := e1 + [WaitDone(0)];
    ExecSnoc(c, e2, Accept(7, j));
    var e3 := e2 + [Accept(7, j)];
    ExecSnoc(c, e3, ReadSession(7));
    es := e3 + [ReadSession(7)];
    s := Exec(c, es).value;
    assert s.phases == map[7 := Queued(0)];
  }

  /** The contract is needed: a dispatch that slips in before a completed Wait takes its
      results is missing from that Wait's output, and however the run goes on, no Wait ever
      reports it. */
  lemma LateDispatchIsLost(j: Job, reply: Reply)
    ensures exists es: seq<Event>, s: State, w: nat ::
      && Exec(Config(1, 1), es) == Some(s) && w in s.waits && s.waits[w].Completed?
      && s.f.results == [] && DispatchedSince(es) == {7}
    ensures exists es: seq<Event>, s: State ::
      && Exec(Config(1, 1), es) == Some(s)
      && 7 in s.phases && HasRecorded(s.phases[7])
      && NeverReported(Config(1, 1), es, 7)
  {
    hide *;
    var es, s := LateDispatch(j);
    assert s.waits[0].Completed?;
    var run, last := LateResult(j, reply);
    NothingReported(last, 7);
    DroppedForGood(Config(1, 1), run, last, 7);
  }

  lemma NothingReported(s: State, id: nat)
    requires Reported(s) == []
    ensures id !in Ids(Reported(s))
  {
  }

  lemma LateResult(j: Job, reply: Reply) returns (run: seq<Event>, last: State)
    ensures Exec(Config(1, 1), run) == Some(last)
    ensures 7 in last.phases && HasRecorded(last.phases[7]) && Reported(last) == []
  {
    hide Exec, DispatchedSince;
    var c := Config(1, 1);
    var es, s := LateDispatch(j);
    ExecSnoc(c, es, SwapResults(0));
    var e5 := es + [SwapResults(0)];
    ExecSnoc(c, e5, Acquire(7));
    var e6 := e5 + [Acquire(7)];
    ExecSnoc(c, e6, Run(7, reply));
    run := e6 + [Run(7, reply)];
    last := Exec(c, run).value;
    assert last.f.results == [];
    assert last.outputs == [[]] && last.outputs[..0] == [];
    assert Flatten(last.outputs) == Flatten(last.outputs[..0]) + last.outputs[0];
  }

  lemma ResultsDistinct(s: State)
    requires DistinctIds(Reported(s))
    ensures DistinctIds(s.f.results)
  {
    var k := |Flatten(s.outputs)|;
    assert forall i :: 0 <= i < |s.f.results| ==> Reported(s)[k + i] == s.f.results[i];
  }

  lemma {:induction false} DistinctCardinality(es: seq<Entry>)
    requires DistinctIds(es)
    ensures |Ids(es)| == |es|
  {
    if es != [] {
      var last := |es| - 1;
      DistinctCardinality(es[..last]);
      assert Ids(es) == Ids(es[..last]) + {es[last].id};
      assert es[last].id !in Ids(es[..last]);
    }
  }
}
