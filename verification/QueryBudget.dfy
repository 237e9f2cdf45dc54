/** The queries of one render: the engine's budget (pkg/appengine/engine.go) around the host's
    own budget, deadline arithmetic and lazily minted token (pkg/appworker/render.go). */
module QueryBudget {
  import opened Options
  import opened Clock

  datatype Request = Malformed | BlankSql | Query(timeoutS: Option<int>, encodable: bool)

  // What the rest of the world does during one call: the clock at the deadline check, how much
  // later the query goes out, the minting service and the query service.
  datatype Call = Call(
    inBounds: bool, request: Request, now: int, delay: nat, mint: Option<string>, reply: Reply)

  // No response, a body that breaks off, or a body of some size; `renderOver` says whether the
  // render's context had ended.
  datatype Reply = Unreachable(renderOver: bool) | Broken(renderOver: bool) | Body(status: int, size: nat, tag: int)

  const QUERY_RESPONSE_MAX_BYTES: nat := 12 * 1024 * 1024

  datatype Answer =
    | EngineLimit
    | OutOfBounds
    | BadRequest
    | InnerLimit
    | DeadlineExhausted
    | NoCredential
    | Canceled
    | ServiceUnreachable
    | ResponseTruncated
    | ResponseTooLarge
    | ServiceError(status: int, tag: int)
    | Answered(tag: int)

  // A query sent to the service.
  datatype Sent = Sent(jwt: string, timeoutS: int, decidedAt: int, sentAt: int)

  // ------------------------------------------------------------------ as values

  // The render's counters, the token if one was minted, how many mints succeeded, and the
  // queries sent.
  datatype Core = Core(queriesLeft: int, count: int, jwt: Option<string>, mints: nat, sent: seq<Sent>)

  // `contextEnds` is when the engine's context ends: it is started later than the render's clock
  // is read, and the caller's own context may end it earlier.
  datatype Limits = Limits(deadline: int, contextEnds: int, maxQueries: int)

  function RemainingSeconds(lim: Limits, now: int): int {
    (lim.deadline - now) / SECOND
  }

  function TimeoutFor(lim: Limits, c: Call): int
    requires c.request.Query?
  {
    var remaining := RemainingSeconds(lim, c.now);
    match c.request.timeoutS
    case Some(t) => if 0 < t < remaining then t else remaining
    case None => remaining
  }

  function Outcome(r: Reply): Answer {
    match r
    case Unreachable(over) => if over then Canceled else ServiceUnreachable
    case Broken(over) => if over then Canceled else ResponseTruncated
    case Body(status, size, tag) =>
      if size > QUERY_RESPONSE_MAX_BYTES then ResponseTooLarge
      else if status < 200 || status >= 300 then ServiceError(status, tag)
      else Answered(tag)
  }

  // `queryRunner.execute`.
  function Executed(s: Core, c: Call, lim: Limits): (Core, Answer) {
    match c.request
    case Malformed => (s, BadRequest)
    case BlankSql => (s, BadRequest)
    case Query(_, encodable) =>
      if 0 < lim.maxQueries <= s.count then (s, InnerLimit)
      else
        var t := s.(count := s.count + 1);
        if RemainingSeconds(lim, c.now) < 1 then (t, DeadlineExhausted)
        else if !encodable then (t, BadRequest)
        else if t.jwt.None? && c.mint.None? then (t, NoCredential)
        else
          var jwt := if t.jwt.Some? then t.jwt.value else c.mint.value;
          var minted := if t.jwt.Some? then t else t.(jwt := Some(jwt), mints := t.mints + 1);
          if c.now + c.delay >= lim.contextEnds then (minted, Canceled)
          else (minted.(sent := minted.sent + [Sent(jwt, TimeoutFor(lim, c), c.now, c.now + c.delay)]), Outcome(c.reply))
  }

  // `renderState.runQuery`.
  function Queried(s: Core, c: Call, lim: Limits): (Core, Answer) {
    if s.queriesLeft <= 0 then (s, EngineLimit)
    else
      var t := s.(queriesLeft := s.queriesLeft - 1);
      if !c.inBounds then (t, OutOfBounds) else Executed(t, c, lim)
  }

  function Fresh(lim: Limits): Core {
    Core(lim.maxQueries, 0, None, 0, [])
  }

  // A render's queries, one after the other.
  function Run(calls: seq<Call>, lim: Limits): Core {
    if calls == [] then Fresh(lim)
    else Queried(Run(calls[..|calls| - 1], lim), calls[|calls| - 1], lim).0
  }

  // ------------------------------------------------------------------ as objects

  class QueryRunner {
    const deadline: int
    const maxQueries: int
    var count: int
    var jwt: string
    var minted: bool
    ghost var mints: nat
    ghost var sent: seq<Sent>

    ghost function Limit(contextEnds: int): Limits {
      Limits(deadline, contextEnds, maxQueries)
    }

    // The runner's part of the render, beside an engine budget of `left`.
    ghost function View(left: int): Core
      reads this
    {
      Core(left, count, if minted then Some(jwt) else None, mints, sent)
    }

    constructor (deadline: int, maxQueries: int)
      ensures View(maxQueries) == Core(maxQueries, 0, None, 0, []) && this.deadline == deadline && this.maxQueries == maxQueries
    {
      this.deadline, this.maxQueries := deadline, maxQueries;
      count, jwt, minted := 0, "", false;
      mints, sent := 0, [];
    }

    method Take() returns (ok: bool)
      modifies this`count
      ensures ok <==> !(0 < maxQueries <= old(count))
      ensures count == if ok then old(count) + 1 else old(count)
    {
      if maxQueries > 0 && count >= maxQueries {
        return false;
      }
      count := count + 1;
      return true;
    }

    // The render's token, minted on first use; a failed mint is not remembered.
    method Token(mint: Option<string>) returns (r: Option<string>)
      modifies this`jwt, this`minted, this`mints
      ensures r == (if old(minted) then Some(old(jwt)) else mint)
      ensures minted == (old(minted) || mint.Some?) && (minted ==> r == Some(jwt))
      ensures mints == old(mints) + (if !old(minted) && mint.Some? then 1 else 0)
    {
      if minted {
        return Some(jwt);
      }
      if mint.None? {
        return None;
      }
      jwt, minted := mint.value, true;
      mints := mints + 1;
      return mint;
    }

    method Execute(c: Call, contextEnds: int, ghost left: int) returns (a: Answer)
      modifies this
      ensures (View(left), a) == Executed(old(View(left)), c, Limit(contextEnds))
    {
      if c.request.Malformed? || c.request.BlankSql? {
        return BadRequest;
      }
      var ok := Take();
      if !ok {
        return InnerLimit;
      }
      var remaining := (deadline - c.now) / SECOND;
      if remaining < 1 {
        return DeadlineExhausted;
      }
      var timeoutS := remaining;
      if c.request.timeoutS.Some? && c.request.timeoutS.value > 0 && c.request.timeoutS.value < timeoutS {
        timeoutS := c.request.timeoutS.value;
      }
      if !c.request.encodable {
        return BadRequest;
      }
      var token := Token(c.mint);
      if token.None? {
        return NoCredential;
      }
      // A request under a context that is over is not sent.
      if c.now + c.delay >= contextEnds {
        return Canceled;
      }
      sent := sent + [Sent(token.value, timeoutS, c.now, c.now + c.delay)];
      match c.reply {
        case Unreachable(over) => return if over then Canceled else ServiceUnreachable;
        case Broken(over) => return if over then Canceled else ResponseTruncated;
        case Body(status, size, tag) =>
          // One byte more than the cap is read.
          var read := if size > QUERY_RESPONSE_MAX_BYTES then QUERY_RESPONSE_MAX_BYTES + 1 else size;
          if read > QUERY_RESPONSE_MAX_BYTES {
            return ResponseTooLarge;
          }
          if status < 200 || status >= 300 {
            return ServiceError(status, tag);
          }
          return Answered(tag);
      }
    }
  }

  class RenderState {
    var queriesLeft: int
    const runner: QueryRunner
    const contextEnds: int

    ghost function View(): Core
      reads this, runner
    {
      runner.View(queriesLeft)
    }

    // The same limit in both layers, as the render path sets it.
    constructor (runner: QueryRunner, contextEnds: int)
      requires runner.View(runner.maxQueries) == Fresh(runner.Limit(contextEnds))
      ensures this.runner == runner && this.contextEnds == contextEnds && View() == Fresh(runner.Limit(contextEnds))
    {
      this.runner, this.contextEnds := runner, contextEnds;
      queriesLeft := runner.maxQueries;
    }

    method RunQuery(c: Call) returns (a: Answer)
      modifies this`queriesLeft, runner
      ensures (View(), a) == Queried(old(View()), c, runner.Limit(contextEnds))
    {
      if queriesLeft <= 0 {
        return EngineLimit;
      }
      queriesLeft := queriesLeft - 1;
      if !c.inBounds {
        return OutOfBounds;
      }
      a := runner.Execute(c, contextEnds, queriesLeft);
    }
  }

  // -------------------------------------------------------------------- main results

  // What a query sent promises: at least a second, and over by the deadline when measured from
  // the clock it was decided on, and sent under a context that is not over.
  predicate InTime(q: Sent, lim: Limits) {
    q.timeoutS >= 1 && q.decidedAt + q.timeoutS * SECOND <= lim.deadline && q.sentAt < lim.contextEnds
  }

  // The inner budget has at least as much left as the engine's; one mint, and its token on
  // every query.
  predicate Held(s: Core, lim: Limits) {
    && 0 <= s.count <= lim.maxQueries - s.queriesLeft && 0 <= s.queriesLeft
    && |s.sent| <= s.count
    && s.mints == (if s.jwt.Some? then 1 else 0)
    && (forall i :: 0 <= i < |s.sent| ==> s.jwt == Some(s.sent[i].jwt) && InTime(s.sent[i], lim))
  }

  lemma TimeoutInTime(lim: Limits, c: Call)
    requires c.request.Query? && RemainingSeconds(lim, c.now) >= 1
    ensures 1 <= TimeoutFor(lim, c) <= RemainingSeconds(lim, c.now)
    ensures c.now + TimeoutFor(lim, c) * SECOND <= lim.deadline
  {
    var remaining := RemainingSeconds(lim, c.now);
    assert remaining * SECOND <= lim.deadline - c.now;
  }

  lemma StepHeld(s: Core, c: Call, lim: Limits)
    requires Held(s, lim) && lim.maxQueries > 0
    ensures Held(Queried(s, c, lim).0, lim)
    ensures Queried(s, c, lim).1 != InnerLimit
  {
    hide InTime, TimeoutFor;
    if s.queriesLeft > 0 && c.inBounds && c.request.Query? && RemainingSeconds(lim, c.now) >= 1
       && c.now + c.delay < lim.contextEnds {
      TimeoutInTime(lim, c);
      var q := Sent(if s.jwt.Some? then s.jwt.value else if c.mint.Some? then c.mint.value else "",
                    TimeoutFor(lim, c), c.now, c.now + c.delay);
      SentInTime(q, lim);
    }
  }

  lemma SentInTime(q: Sent, lim: Limits)
    requires q.timeoutS >= 1 && q.decidedAt + q.timeoutS * SECOND <= lim.deadline && q.sentAt < lim.contextEnds
    ensures InTime(q, lim)
  {
  }

  /** Through a whole render: at most one mint succeeds and every query carries its token; every
      query sent has a timeout of at least a second that ends by the deadline; and no more than
      the budget are sent. */
  lemma {:induction false} HeldThroughout(calls: seq<Call>, lim: Limits)
    requires lim.maxQueries > 0
    ensures Held(Run(calls, lim), lim)
    ensures Run(calls, lim).mints <= 1 && |Run(calls, lim).sent| <= lim.maxQueries
  {
    hide Queried, InTime;
    if calls != [] {
      HeldThroughout(calls[..|calls| - 1], lim);
      StepHeld(Run(calls[..|calls| - 1], lim), calls[|calls| - 1], lim);
    }
  }

  /** The host's own budget never answers: the engine's is always exhausted first, after exactly
      that many calls. */
  lemma {:induction false} EngineAnswersFirst(calls: seq<Call>, c: Call, lim: Limits)
    requires lim.maxQueries > 0
    ensures Queried(Run(calls, lim), c, lim).1 != InnerLimit
    ensures Queried(Run(calls, lim), c, lim).1 == EngineLimit <==> |calls| >= lim.maxQueries
  {
    HeldThroughout(calls, lim);
    StepHeld(Run(calls, lim), c, lim);
    LeftAfter(calls, lim);
  }

  lemma {:induction false} LeftAfter(calls: seq<Call>, lim: Limits)
    requires lim.maxQueries > 0
    ensures Run(calls, lim).queriesLeft == if |calls| >= lim.maxQueries then 0 else lim.maxQueries - |calls|
  {
    if calls != [] {
      LeftAfter(calls[..|calls| - 1], lim);
    }
  }

  // What the guest is told about a reply.
  predicate ReplySays(r: Reply, a: Answer) {
    var fits := r.Body? && r.size <= 12_582_912;
    && (a.Answered? <==> fits && 200 <= r.status <= 299)
    && (a.Answered? ==> a.tag == r.tag)
    && (a.ServiceError? <==> fits && !(200 <= r.status <= 299))
    && (a.ServiceError? ==> a.status == r.status && a.tag == r.tag)
    && (a.ResponseTooLarge? <==> r.Body? && !fits)
    && (a.Canceled? <==> !r.Body? && r.renderOver)
    && (a.ServiceUnreachable? <==> r.Unreachable? && !r.renderOver)
    && (a.ResponseTruncated? <==> r.Broken? && !r.renderOver)
  }

  /** What each call of a render is answered, read off the calls alone. */
  lemma AnswerReadOffCalls(calls: seq<Call>, c: Call, lim: Limits)
    requires lim.maxQueries > 0
    ensures var a := Queried(Run(calls, lim), c, lim).1;
      var all, k := calls + [c], |calls|;
      && (a == EngineLimit <==> k >= lim.maxQueries)
      && (k < lim.maxQueries ==>
            && (a == OutOfBounds <==> !c.inBounds)
            && (c.inBounds ==>
                  && (a == DeadlineExhausted <==> c.request.Query? && (lim.deadline - c.now) / SECOND < 1)
                  && (a == NoCredential <==> Eligible(lim, c) && !TokenBy(all, k + 1, lim))
                  && (a == BadRequest <==> !Eligible(lim, c) && a != DeadlineExhausted)
                  && (Eligible(lim, c) && TokenBy(all, k + 1, lim) ==>
                        if c.now + c.delay >= lim.contextEnds then a == Canceled else ReplySays(c.reply, a))))
  {
    hide TokenBy, TimeoutFor;
    HeldThroughout(calls, lim);
    LeftAfter(calls, lim);
    SentByCalls(calls, lim);
    TokenBySnoc(calls, c, lim);
  }

  // The time between a query's timeout and the deadline: what a shorter timeout of its own
  // leaves, or the fraction of a second that was rounded away.
  function Slack(lim: Limits, c: Call): int
    requires c.request.Query?
  {
    var left := lim.deadline - c.now;
    match c.request.timeoutS
    case Some(t) => if 0 < t < left / SECOND then left - t * SECOND else left % SECOND
    case None => left % SECOND
  }

  // A call that gets as far as asking for the token.
  predicate Eligible(lim: Limits, c: Call) {
    c.inBounds && c.request.Query? && c.request.encodable && RemainingSeconds(lim, c.now) >= 1
  }

  // One of the first `n` calls within the budget was answered with a token.
  predicate TokenBy(calls: seq<Call>, n: nat, lim: Limits) {
    exists j :: 0 <= j < n && j < |calls| && j < lim.maxQueries && Eligible(lim, calls[j]) && calls[j].mint.Some?
  }

  // Call `k` sends a query.
  predicate Sends(calls: seq<Call>, k: nat, lim: Limits) {
    && k < |calls| && k < lim.maxQueries && Eligible(lim, calls[k]) && TokenBy(calls, k + 1, lim)
    && calls[k].now + calls[k].delay < lim.contextEnds
  }

  lemma TokenBySnoc(front: seq<Call>, c: Call, lim: Limits)
    ensures TokenBy(front + [c], |front| + 1, lim) <==>
      TokenBy(front, |front|, lim) || (|front| < lim.maxQueries && Eligible(lim, c) && c.mint.Some?)
  {
    hide Eligible;
    var all := front + [c];
    assert all[|front|] == c;
    assert forall j :: 0 <= j < |front| ==> all[j] == front[j];
  }

  // Whether a call sends does not depend on later calls.
  lemma SendsPrefix(front: seq<Call>, c: Call, k: nat, lim: Limits)
    requires k < |front|
    ensures Sends(front + [c], k, lim) <==> Sends(front, k, lim)
  {
    hide Eligible;
    assert forall j :: 0 <= j < |front| ==> (front + [c])[j] == front[j];
  }

  /** Which calls send a query, read off the calls alone, and what each sends. */
  lemma {:induction false} SentByCalls(calls: seq<Call>, lim: Limits)
    requires lim.maxQueries > 0
    ensures Run(calls, lim).jwt.Some? <==> TokenBy(calls, |calls|, lim)
    ensures calls != [] ==>
      var front, c := calls[..|calls| - 1], calls[|calls| - 1];
      var before, after := Run(front, lim).sent, Run(calls, lim).sent;
      if Sends(calls, |front|, lim)
      then |after| == |before| + 1 && after[..|before|] == before
        && after[|before|] == Sent(after[|before|].jwt, TimeoutFor(lim, c), c.now, c.now + c.delay)
      else after == before
  {
    if calls != [] {
      hide TokenBy, TimeoutFor;
      var front, c := calls[..|calls| - 1], calls[|calls| - 1];
      SentByCalls(front, lim);
      assert calls == front + [c];
      TokenBySnoc(front, c, lim);
      LeftAfter(front, lim);
      HeldThroughout(front, lim);
    }
  }

  // When a query is over at the latest: at the end of its own timeout, or when the engine's
  // context ends.
  function Ends(q: Sent, lim: Limits): int {
    var own := q.sentAt + q.timeoutS * SECOND;
    if own < lim.contextEnds then own else lim.contextEnds
  }

  ghost predicate AllEndByDeadline(sent: seq<Sent>, lim: Limits) {
    forall i :: 0 <= i < |sent| ==> Ends(sent[i], lim) <= lim.deadline
  }

  ghost predicate AllWithinSlack(calls: seq<Call>, lim: Limits) {
    forall k :: 0 <= k < |calls| && Sends(calls, k, lim) ==> calls[k].delay <= Slack(lim, calls[k])
  }

  lemma SlackIs(lim: Limits, c: Call)
    requires Eligible(lim, c)
    ensures Slack(lim, c) == lim.deadline - c.now - TimeoutFor(lim, c) * SECOND
  {
    var left := lim.deadline - c.now;
    assert left == left / SECOND * SECOND + left % SECOND;
  }

  lemma EndsWithinSlack(q: Sent, c: Call, lim: Limits)
    requires Eligible(lim, c) && lim.contextEnds > lim.deadline
    requires q == Sent(q.jwt, TimeoutFor(lim, c), c.now, c.now + c.delay)
    ensures Ends(q, lim) <= lim.deadline <==> c.delay <= Slack(lim, c)
  {
    hide Slack, TimeoutFor, Eligible;
    SlackIs(lim, c);
  }

  lemma {:induction false} EndsWithoutContext(calls: seq<Call>, lim: Limits)
    requires lim.maxQueries > 0 && lim.contextEnds > lim.deadline
    ensures AllEndByDeadline(Run(calls, lim).sent, lim) <==> AllWithinSlack(calls, lim)
  {
    if calls != [] {
      hide Sends, Run, Slack, TimeoutFor, Eligible, AllEndByDeadline, AllWithinSlack, Ends;
      var front, c := calls[..|calls| - 1], calls[|calls| - 1];
      EndsWithoutContext(front, lim);
      SentByCalls(calls, lim);
      assert calls == front + [c];
      if Sends(calls, |front|, lim) {
        SenderIsEligible(calls, |front|, lim);
        EndsWithinSlack(Run(calls, lim).sent[|Run(front, lim).sent|], c, lim);
      }
      LastCounts(front, c, lim);
      SentCounts(Run(front, lim).sent, Run(calls, lim).sent, lim);
    }
  }

  lemma SenderIsEligible(calls: seq<Call>, k: nat, lim: Limits)
    requires Sends(calls, k, lim)
    ensures k < |calls| && Eligible(lim, calls[k])
  {
  }

  lemma LastCounts(front: seq<Call>, c: Call, lim: Limits)
    ensures AllWithinSlack(front + [c], lim) <==>
      AllWithinSlack(front, lim) && (Sends(front + [c], |front|, lim) ==> c.delay <= Slack(lim, c))
  {
    hide Sends, Slack;
    var all := front + [c];
    assert all[|front|] == c;
    forall k | 0 <= k < |front|
      ensures all[k] == front[k] && (Sends(all, k, lim) <==> Sends(front, k, lim))
    {
      SendsPrefix(front, c, k, lim);
    }
  }

  lemma SentCounts(before: seq<Sent>, after: seq<Sent>, lim: Limits)
    requires after == before || (|after| == |before| + 1 && after[..|before|] == before)
    ensures AllEndByDeadline(after, lim) <==>
      AllEndByDeadline(before, lim) && (after != before ==> Ends(after[|before|], lim) <= lim.deadline)
  {
    assert forall i :: 0 <= i < |before| ==> before[i] == after[i];
  }

  /** Every query of a render is over by its deadline exactly when the engine's context is, or every
      call that sends one does so within the slack its timeout leaves. */
  lemma AllEndByDeadlineIff(calls: seq<Call>, lim: Limits)
    requires lim.maxQueries > 0
    ensures AllEndByDeadline(Run(calls, lim).sent, lim) <==> lim.contextEnds <= lim.deadline || AllWithinSlack(calls, lim)
  {
    if lim.contextEnds > lim.deadline {
      EndsWithoutContext(calls, lim);
    }
  }

  // A mint that takes a second, in a render whose bundle took a second to load, lets a query run
  // a second past the deadline.
  lemma SlowMintOverruns()
    ensures var lim := Limits(10 * SECOND, 11 * SECOND, 10);
      var c := Call(true, Query(None, true), 0, SECOND, Some("t"), Body(200, 0, 0));
      var s := Run([c], lim);
      |s.sent| == 1 && Ends(s.sent[0], lim) == lim.deadline + SECOND
  {
    var lim := Limits(10 * SECOND, 11 * SECOND, 10);
    var c := Call(true, Query(None, true), 0, SECOND, Some("t"), Body(200, 0, 0));
    assert Run([c][..0], lim) == Fresh(lim);
    assert RemainingSeconds(lim, 0) == 10;
  }
}
