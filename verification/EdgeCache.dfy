/**
 * The artifact edge's own cache: what it answers from a held copy, what it lets
 * a browser do with the answer, how old a body can be when it is last used, and
 * who may be given a body fetched behind a gate. Times are in milliseconds.
 */
module EdgeCache {
  import opened Wrappers

  const FRESH := 60
  const STALE := 300
  const BOUND_MS := 1000 * (FRESH + STALE)

  /** Who may keep an answer: any cache, only the browser that asked, or nobody. */
  datatype Scope = Public | Private | NoStore

  /** What a browser may do with an answer: use it for maxAge seconds, then swr more while it revalidates. */
  datatype Policy = Policy(scope: Scope, maxAge: nat, swr: nat)

  const UNCACHED := Policy(NoStore, 0, 0)

  /** Whole seconds of an age, as Math.floor takes them. */
  function Seconds(ageMs: int): int { ageMs / 1000 }

  function BrowserPolicy(ageMs: int, scope: Scope, pinned: bool): Policy {
    var left := Max(0, FRESH + STALE - Seconds(ageMs));
    if pinned then Policy(scope, left, 0)
    else var usable := Min(FRESH, left); Policy(scope, usable, left - usable)
  }

  /**
   * However it is split, what a policy allows is exactly what is left of the
   * bound, in whole seconds; unless the address is pinned, no more than FRESH of
   * it without revalidating, and as much of FRESH as there is.
   */
  lemma {:induction false} PolicyIsWhatIsLeft(ageMs: int, scope: Scope, pinned: bool)
    requires ageMs < BOUND_MS
    ensures var p := BrowserPolicy(ageMs, scope, pinned);
            1000 * (p.maxAge + p.swr) + ageMs == BOUND_MS + ageMs % 1000 && p.maxAge + p.swr > 0 &&
            (if pinned then p.swr == 0 else p.maxAge <= FRESH && (p.maxAge == FRESH || p.swr == 0)) && p.scope == scope
  {
    assert ageMs == 1000 * (ageMs / 1000) + ageMs % 1000;
  }

  /** A GET anyone may see, a GET that carries a gate token, and what is live or no GET and is never kept. */
  datatype Kind = Open | Gated | Live

  /** A body as the origin gave it: for what kind of request, with a status worth keeping or not, and when. */
  datatype Body = Body(kind: Kind, storable: bool, at: int)

  datatype How = Hit | StaleHit | Miss | Passed

  /** What a viewer got: the request it answers, the body and its stamp, when it was answered, and under what policy. */
  datatype Answer = Answer(request: nat, body: nat, stamp: int, servedAt: int, policy: Policy, how: How)

  datatype Held = Held(body: nat, stamp: int)

  /** A fetch from the origin under way, for a waiting request or behind one; then the storing of its body. */
  datatype Job =
    | Fetching(request: Option<nat>, kind: Kind)
    | Storing(request: Option<nat>, body: nat, stamp: int)

  /** One address at one point of presence: the copy held, the jobs under way, and the history of what was asked, fetched and answered. */
  datatype Edge = Edge(pinned: bool, now: int, held: Option<Held>, jobs: map<nat, Job>, nextJob: nat,
                       requests: seq<Kind>, bodies: seq<Body>, answers: seq<Answer>, failed: set<nat>)

  function Start(pinned: bool, now: int): Edge { Edge(pinned, now, None, map[], 0, [], [], [], {}) }

  datatype Event =
    | Tick(ms: nat)
    | Request(kind: Kind)
    | Fetched(job: nat, storable: bool)
    | Failed(job: nat)
    | Stored(job: nat, kept: bool)
    | Evicted

  predicate Enabled(e: Edge, ev: Event) {
    match ev
    case Fetched(job, _) => job in e.jobs && e.jobs[job].Fetching?
    case Failed(job) => job in e.jobs && e.jobs[job].Fetching?
    case Stored(job, _) => job in e.jobs && e.jobs[job].Storing?
    case _ => true
  }

  function StartJob(e: Edge, job: Job): Edge { e.(jobs := e.jobs[e.nextJob := job], nextJob := e.nextJob + 1) }

  function Respond(e: Edge, a: Answer): Edge { e.(answers := e.answers + [a]) }

  /**
   * A request: one anyone may see is answered from the held copy while that is
   * fresh, from a stale one too while a new one is fetched, and else waits for
   * the origin; every other request goes to the origin.
   */
  function OnRequest(before: Edge, kind: Kind): Edge {
    var r, e := |before.requests|, before.(requests := before.requests + [kind]);
    if kind != Open || e.held.None? then StartJob(e, Fetching(Some(r), kind))
    else
      var h, age := e.held.value, e.now - e.held.value.stamp;
      if age < (if e.pinned then BOUND_MS else 1000 * FRESH) then
        Respond(e, Answer(r, h.body, h.stamp, e.now, BrowserPolicy(age, Public, e.pinned), Hit))
      else if age < BOUND_MS then
        StartJob(Respond(e, Answer(r, h.body, h.stamp, e.now, BrowserPolicy(age, Public, false), StaleHit)), Fetching(None, Open))
      else StartJob(e, Fetching(Some(r), Open))
  }

  /** The origin answered: gated and live bodies go straight out, others are stored first when their status is worth keeping. */
  function OnFetched(before: Edge, job: nat, storable: bool): Edge
    requires job in before.jobs && before.jobs[job].Fetching?
  {
    var j, b := before.jobs[job], |before.bodies|;
    var e := before.(jobs := before.jobs - {job}, bodies := before.bodies + [Body(j.kind, storable, before.now)]);
    if j.kind == Open && storable then e.(jobs := e.jobs[job := Storing(j.request, b, e.now)])
    else if j.request.None? then e
    else
      var policy := if j.kind == Gated && storable then BrowserPolicy(0, Private, e.pinned) else UNCACHED;
      Respond(e, Answer(j.request.value, b, e.now, e.now, policy, if j.kind == Open then Miss else Passed))
  }

  /** The origin could not be reached: whoever waited gets an error. */
  function OnFailed(e: Edge, job: nat): Edge
    requires job in e.jobs && e.jobs[job].Fetching?
  {
    var j := e.jobs[job];
    e.(jobs := e.jobs - {job}, failed := if j.request.Some? then e.failed + {j.request.value} else e.failed)
  }

  /** The store settled, kept or not: a waiting viewer is answered only now, as if the copy had no age. */
  function OnStored(before: Edge, job: nat, kept: bool): Edge
    requires job in before.jobs && before.jobs[job].Storing?
  {
    var j := before.jobs[job];
    var e := before.(jobs := before.jobs - {job}, held := if kept then Some(Held(j.body, j.stamp)) else before.held);
    if j.request.None? then e
    else Respond(e, Answer(j.request.value, j.body, j.stamp, e.now, BrowserPolicy(0, Public, e.pinned), Miss))
  }

  function Step(e: Edge, ev: Event): Edge
    requires Enabled(e, ev)
  {
    match ev
    case Tick(ms) => e.(now := e.now + ms)
    case Request(kind) => OnRequest(e, kind)
    case Fetched(job, storable) => OnFetched(e, job, storable)
    case Failed(job) => OnFailed(e, job)
    case Stored(job, kept) => OnStored(e, job, kept)
    case Evicted => e.(held := None)
  }

  predicate Possible(e: Edge, events: seq<Event>)
    decreases |events|
  {
    events == [] || (Enabled(e, events[0]) && Possible(Step(e, events[0]), events[1..]))
  }

  function Run(e: Edge, events: seq<Event>): Edge
    requires Possible(e, events)
    decreases |events|
  {
    if events == [] then e else Run(Step(e, events[0]), events[1..])
  }

  /** The first moment a browser may no longer use the answer. */
  function UsableUntil(a: Answer): int { a.servedAt + 1000 * (a.policy.maxAge + a.policy.swr) }

  /** How far past the bound an answer's last use can lie: the dropped fraction of its age, or the time its storing took. */
  function Overrun(a: Answer): int {
    if a.how == Miss then a.servedAt - a.stamp else (a.servedAt - a.stamp) % 1000
  }

  /** Whether the answer waited for the origin or came from a copy of this age. */
  predicate AnsweredAs(a: Answer, kind: Kind, pinned: bool) {
    var age := a.servedAt - a.stamp;
    match a.how
    case Hit => kind == Open && age < (if pinned then BOUND_MS else 1000 * FRESH)
    case StaleHit => kind == Open && !pinned && 1000 * FRESH <= age < BOUND_MS
    case Miss => kind == Open
    case Passed => kind != Open && age == 0
  }

  /** The split of what may be used: all of it at once when pinned, else FRESH of it, or all there is. */
  predicate SplitFits(p: Policy, pinned: bool) {
    if pinned then p.swr == 0 else p.maxAge <= FRESH && (p.maxAge == FRESH || p.swr == 0)
  }

  /** The answer and the body it holds belong to the same kind of request, and its policy is the one that kind and body allow. */
  ghost predicate AnswerFits(e: Edge, a: Answer) {
    a.request < |e.requests| && a.body < |e.bodies| &&
    var kind, body := e.requests[a.request], e.bodies[a.body];
    body.kind == kind && body.at == a.stamp <= a.servedAt <= e.now && AnsweredAs(a, kind, e.pinned) &&
    (a.policy.scope == Private <==> kind == Gated && body.storable) &&
    (a.policy.scope == Public <==> kind == Open && body.storable) &&
    (if a.policy.scope == NoStore then a.policy == UNCACHED
     else UsableUntil(a) == a.stamp + BOUND_MS + Overrun(a) && SplitFits(a.policy, e.pinned))
  }

  /** Body and stamp of a copy held or about to be: fetched for a request anyone may make, with a status worth keeping. */
  ghost predicate CopyFits(e: Edge, body: nat, stamp: int) {
    body < |e.bodies| && e.bodies[body] == Body(Open, true, stamp) && stamp <= e.now
  }

  ghost predicate JobFits(e: Edge, j: Job) {
    (j.request.Some? ==> j.request.value < |e.requests|) &&
    match j
    case Fetching(request, kind) => if request.Some? then e.requests[request.value] == kind else kind == Open
    case Storing(request, body, stamp) => CopyFits(e, body, stamp) && (request.Some? ==> e.requests[request.value] == Open)
  }

  ghost predicate Inv(e: Edge) {
    (e.held.Some? ==> CopyFits(e, e.held.value.body, e.held.value.stamp)) &&
    (forall j | j in e.jobs :: j < e.nextJob && JobFits(e, e.jobs[j])) &&
    (forall i | 0 <= i < |e.answers| :: AnswerFits(e, e.answers[i]))
  }

  lemma {:induction false} RespondInv(e: Edge, a: Answer)
    requires Inv(e) && AnswerFits(e, a)
    ensures Inv(Respond(e, a))
  {
    var next := Respond(e, a);
    forall i | 0 <= i < |next.answers|
      ensures AnswerFits(next, next.answers[i])
    {
      assert i < |e.answers| ==> next.answers[i] == e.answers[i] && AnswerFits(e, e.answers[i]);
    }
    assert forall j | j in e.jobs :: JobFits(e, e.jobs[j]);
  }

  lemma {:induction false} StartJobInv(e: Edge, job: Job)
    requires Inv(e) && JobFits(e, job)
    ensures Inv(StartJob(e, job))
  {
    var next := StartJob(e, job);
    forall j | j in next.jobs
      ensures j < next.nextJob && JobFits(next, next.jobs[j])
    {
      if j != e.nextJob {
        assert JobFits(e, e.jobs[j]);
      }
    }
    forall i | 0 <= i < |next.answers|
      ensures AnswerFits(next, next.answers[i])
    {
      assert AnswerFits(e, e.answers[i]);
    }
  }

  /** Time, more requests and more bodies leave every fact as it was. */
  lemma {:induction false} LaterInv(e: Edge, ms: nat, requests: seq<Kind>, bodies: seq<Body>)
    requires Inv(e)
    ensures Inv(e.(now := e.now + ms, requests := e.requests + requests, bodies := e.bodies + bodies))
  {
    var next := e.(now := e.now + ms, requests := e.requests + requests, bodies := e.bodies + bodies);
    forall j | j in next.jobs
      ensures j < next.nextJob && JobFits(next, next.jobs[j])
    {
      assert JobFits(e, e.jobs[j]);
    }
    forall i | 0 <= i < |next.answers|
      ensures AnswerFits(next, next.answers[i])
    {
      assert AnswerFits(e, e.answers[i]);
    }
  }

  /** So do the end of a job and a copy of the right kind in place of the one held. */
  lemma {:induction false} SettledInv(e: Edge, job: nat, held: Option<Held>, failed: set<nat>)
    requires Inv(e) && (held.Some? ==> CopyFits(e, held.value.body, held.value.stamp))
    ensures Inv(e.(jobs := e.jobs - {job}, held := held, failed := failed))
  {
    var next := e.(jobs := e.jobs - {job}, held := held, failed := failed);
    forall j | j in next.jobs
      ensures j < next.nextJob && JobFits(next, next.jobs[j])
    {
      assert JobFits(e, e.jobs[j]);
    }
    forall i | 0 <= i < |next.answers|
      ensures AnswerFits(next, next.answers[i])
    {
      assert AnswerFits(e, e.answers[i]);
    }
  }

  /** The answer that a copy within the bound gives. */
  function HeldAnswer(e: Edge, r: nat): Answer
    requires e.held.Some?
  {
    var h, age := e.held.value, e.now - e.held.value.stamp;
    var hit := age < (if e.pinned then BOUND_MS else 1000 * FRESH);
    Answer(r, h.body, h.stamp, e.now, BrowserPolicy(age, Public, hit && e.pinned), if hit then Hit else StaleHit)
  }

  lemma {:induction false} HeldAnswerFits(e: Edge, r: nat)
    requires Inv(e) && e.held.Some? && e.now - e.held.value.stamp < BOUND_MS && r < |e.requests| && e.requests[r] == Open
    ensures AnswerFits(e, HeldAnswer(e, r))
  {
    PolicyIsWhatIsLeft(e.now - e.held.value.stamp, Public, e.pinned);
    PolicyIsWhatIsLeft(e.now - e.held.value.stamp, Public, false);
  }

  /** Answering from the copy, and fetching a new one behind a stale answer. */
  function FromHeld(e: Edge, r: nat): Edge
    requires e.held.Some?
  {
    var a := HeldAnswer(e, r);
    if a.how == StaleHit then StartJob(Respond(e, a), Fetching(None, Open)) else Respond(e, a)
  }

  lemma {:induction false} HeldAnswerInv(e: Edge, r: nat)
    requires Inv(e) && e.held.Some? && e.now - e.held.value.stamp < BOUND_MS && r < |e.requests| && e.requests[r] == Open
    ensures Inv(FromHeld(e, r))
  {
    HeldAnswerFits(e, r);
    var a := HeldAnswer(e, r);
    RespondInv(e, a);
    if a.how == StaleHit {
      StartJobInv(Respond(e, a), Fetching(None, Open));
    }
  }

  lemma {:induction false} RequestInv(before: Edge, kind: Kind)
    requires Inv(before)
    ensures Inv(OnRequest(before, kind))
  {
    var r, e := |before.requests|, before.(requests := before.requests + [kind]);
    LaterInv(before, 0, [kind], []);
    assert e == before.(now := before.now + 0, requests := before.requests + [kind], bodies := before.bodies + []);
    if kind != Open || e.held.None? || e.now - e.held.value.stamp >= BOUND_MS {
      StartJobInv(e, Fetching(Some(r), kind));
    } else {
      HeldAnswerInv(e, r);
      assert OnRequest(before, kind) == FromHeld(e, r);
    }
  }

  /** The edge once a fetch ended with a body, before anything is done with that body. */
  function WithBody(e: Edge, job: nat, storable: bool): Edge
    requires job in e.jobs && e.jobs[job].Fetching?
  {
    e.(jobs := e.jobs - {job}, bodies := e.bodies + [Body(e.jobs[job].kind, storable, e.now)])
  }

  lemma {:induction false} WithBodyInv(e: Edge, job: nat, storable: bool)
    requires Inv(e) && job in e.jobs && e.jobs[job].Fetching?
    ensures Inv(WithBody(e, job, storable)) && JobFits(WithBody(e, job, storable), e.jobs[job])
  {
    var body := Body(e.jobs[job].kind, storable, e.now);
    LaterInv(e, 0, [], [body]);
    var more := e.(now := e.now + 0, requests := e.requests + [], bodies := e.bodies + [body]);
    SettledInv(more, job, more.held, more.failed);
    assert WithBody(e, job, storable) == more.(jobs := more.jobs - {job}, held := more.held, failed := more.failed);
    assert JobFits(e, e.jobs[job]);
  }

  lemma {:induction false} FetchedInv(before: Edge, job: nat, storable: bool)
    requires Inv(before) && job in before.jobs && before.jobs[job].Fetching?
    ensures Inv(OnFetched(before, job, storable))
  {
    var j, b, e := before.jobs[job], |before.bodies|, WithBody(before, job, storable);
    WithBodyInv(before, job, storable);
    if j.kind == Open && storable {
      var next := OnFetched(before, job, storable);
      forall k | k in next.jobs
        ensures k < next.nextJob && JobFits(next, next.jobs[k])
      {
        if k != job {
          assert JobFits(e, e.jobs[k]);
        }
      }
      forall i | 0 <= i < |next.answers|
        ensures AnswerFits(next, next.answers[i])
      {
        assert AnswerFits(e, e.answers[i]);
      }
    } else if j.request.Some? {
      PolicyIsWhatIsLeft(0, Private, e.pinned);
      var policy := if j.kind == Gated && storable then BrowserPolicy(0, Private, e.pinned) else UNCACHED;
      RespondInv(e, Answer(j.request.value, b, e.now, e.now, policy, if j.kind == Open then Miss else Passed));
    }
  }

  lemma {:induction false} StoredInv(before: Edge, job: nat, kept: bool)
    requires Inv(before) && job in before.jobs && before.jobs[job].Storing?
    ensures Inv(OnStored(before, job, kept))
  {
    var j := before.jobs[job];
    assert JobFits(before, j);
    var held := if kept then Some(Held(j.body, j.stamp)) else before.held;
    SettledInv(before, job, held, before.failed);
    var e := before.(jobs := before.jobs - {job}, held := held, failed := before.failed);
    if j.request.Some? {
      PolicyIsWhatIsLeft(0, Public, e.pinned);
      RespondInv(e, Answer(j.request.value, j.body, j.stamp, e.now, BrowserPolicy(0, Public, e.pinned), Miss));
    }
  }

  lemma {:induction false} StepInv(e: Edge, ev: Event)
    requires Inv(e) && Enabled(e, ev)
    ensures Inv(Step(e, ev))
  {
    match ev {
      case Request(kind) => RequestInv(e, kind);
      case Fetched(job, storable) => FetchedInv(e, job, storable);
      case Failed(job) => SettledInv(e, job, e.held, OnFailed(e, job).failed);
      case Stored(job, kept) => StoredInv(e, job, kept);
      case Tick(ms) =>
        LaterInv(e, ms, [], []);
        assert Step(e, ev) == e.(now := e.now + ms, requests := e.requests + [], bodies := e.bodies + []);
      case Evicted =>
        SettledInv(e, e.nextJob, None, e.failed);
        assert e.jobs - {e.nextJob} == e.jobs;
    }
  }

  lemma {:induction false} RunInv(e: Edge, events: seq<Event>)
    requires Inv(e) && Possible(e, events)
    ensures Inv(Run(e, events))
    decreases |events|
  {
    if events != [] {
      StepInv(e, events[0]);
      RunInv(Step(e, events[0]), events[1..]);
    }
  }

  /** What a run left answered fits its history. */
  lemma {:induction false} AnswerOfRun(pinned: bool, start: int, events: seq<Event>, a: Answer)
    requires Possible(Start(pinned, start), events) && a in Run(Start(pinned, start), events).answers
    ensures AnswerFits(Run(Start(pinned, start), events), a)
  {
    RunInv(Start(pinned, start), events);
    var answers := Run(Start(pinned, start), events).answers;
    var i :| 0 <= i < |answers| && answers[i] == a;
    assert AnswerFits(Run(Start(pinned, start), events), answers[i]);
  }

  /**
   * In every run an answer may be kept by shared caches if and only if anyone
   * may make the request it answers and the status is worth keeping, and by the
   * asking browser alone if and only if the request carried a gate token.
   */
  lemma {:induction false} ScopeIsTheRequests(pinned: bool, start: int, events: seq<Event>, a: Answer)
    requires Possible(Start(pinned, start), events) && a in Run(Start(pinned, start), events).answers
    ensures var e := Run(Start(pinned, start), events);
            a.request < |e.requests| && a.body < |e.bodies| &&
            (a.policy.scope == Private <==> e.requests[a.request] == Gated && e.bodies[a.body].storable) &&
            (a.policy.scope == Public <==> e.requests[a.request] == Open && e.bodies[a.body].storable) &&
            (a.policy.scope == NoStore <==> e.requests[a.request] == Live || !e.bodies[a.body].storable)
  {
    AnswerOfRun(pinned, start, events, a);
  }

  /** In every run a body fetched for a gated or live request is given only to requests of that kind, and is never held or being stored. */
  lemma {:induction false} GatedBodiesStayBehindTheGate(pinned: bool, start: int, events: seq<Event>, b: nat)
    requires Possible(Start(pinned, start), events) && b < |Run(Start(pinned, start), events).bodies|
    requires Run(Start(pinned, start), events).bodies[b].kind != Open
    ensures var e := Run(Start(pinned, start), events);
            (e.held.Some? ==> e.held.value.body != b) &&
            (forall j | j in e.jobs && e.jobs[j].Storing? :: e.jobs[j].body != b) &&
            (forall a | a in e.answers && a.body == b :: a.request < |e.requests| && e.requests[a.request] == e.bodies[b].kind)
  {
    var e := Run(Start(pinned, start), events);
    RunInv(Start(pinned, start), events);
    forall j | j in e.jobs && e.jobs[j].Storing?
      ensures e.jobs[j].body != b
    {
      assert JobFits(e, e.jobs[j]);
    }
    forall a | a in e.answers && a.body == b
      ensures a.request < |e.requests| && e.requests[a.request] == e.bodies[b].kind
    {
      AnswerOfRun(pinned, start, events, a);
    }
  }

  /**
   * In every run a body answered from the cache may be used less than one
   * second past the bound after it was fetched, and no time past it when it was
   * answered at a whole number of seconds; one a viewer waited for, as long past
   * it as storing it took. It came from the cache only while it was fresh, or
   * stale and within the bound at an address that is not pinned.
   */
  lemma {:induction false} EveryCopyIsExact(pinned: bool, start: int, events: seq<Event>, a: Answer)
    requires Possible(Start(pinned, start), events) && a in Run(Start(pinned, start), events).answers
    requires a.policy.scope != NoStore
    ensures var e := Run(Start(pinned, start), events);
            a.request < |e.requests| && a.body < |e.bodies| && a.stamp == e.bodies[a.body].at &&
            UsableUntil(a) == e.bodies[a.body].at + BOUND_MS + Overrun(a) && (a.how != Miss ==> 0 <= Overrun(a) < 1000) &&
            SplitFits(a.policy, pinned) && AnsweredAs(a, e.requests[a.request], pinned)
  {
    AnswerOfRun(pinned, start, events, a);
    PinnedStays(Start(pinned, start), events);
  }

  lemma {:induction false} PinnedStays(e: Edge, events: seq<Event>)
    requires Possible(e, events)
    ensures Run(e, events).pinned == e.pinned
    decreases |events|
  {
    if events != [] {
      PinnedStays(Step(e, events[0]), events[1..]);
    }
  }

  /** A browser may still use the answer at this moment. */
  predicate Usable(a: Answer, t: int) { a.servedAt <= t < UsableUntil(a) }

  /**
   * The bound of FRESH + STALE + 1 seconds holds for an answer at every moment
   * it may be used, if and only if it was in the cache, went straight out, or
   * took no more than one second to be stored.
   */
  lemma {:induction false} BoundHoldsExactly(pinned: bool, start: int, events: seq<Event>, a: Answer)
    requires Possible(Start(pinned, start), events) && a in Run(Start(pinned, start), events).answers
    requires a.policy.scope != NoStore
    ensures (forall t | Usable(a, t) :: t - a.stamp < BOUND_MS + 1000) <==> (a.how != Miss || a.servedAt - a.stamp <= 1000)
  {
    EveryCopyIsExact(pinned, start, events, a);
    AnswerOfRun(pinned, start, events, a);
    if a.how == Miss && a.servedAt - a.stamp > 1000 {
      assert Usable(a, UsableUntil(a) - 1);
    }
  }

  /** A store that takes two seconds: the viewer who waited may use the body past the bound. */
  lemma {:induction false} SlowStoreOverruns()
    ensures var events := [Request(Open), Fetched(0, true), Tick(2000), Stored(0, true)];
            Possible(Start(false, 0), events) &&
            exists a | a in Run(Start(false, 0), events).answers :: Usable(a, BOUND_MS + 1500) && a.stamp == 0
  {
    var a := Start(false, 0);
    var b := Step(a, Request(Open));
    assert b.jobs == map[0 := Fetching(Some(0), Open)];
    var c := Step(b, Fetched(0, true));
    assert c.jobs == map[0 := Storing(Some(0), 0, 0)];
    var d := Step(c, Tick(2000));
    var e := Step(d, Stored(0, true));
    var copy := Answer(0, 0, 0, 2000, BrowserPolicy(0, Public, false), Miss);
    assert e.answers == [copy];
    assert copy in e.answers && Usable(copy, BOUND_MS + 1500);
    assert Run(d, [Stored(0, true)]) == e by { assert [Stored(0, true)][1..] == []; }
    assert [Tick(2000), Stored(0, true)][1..] == [Stored(0, true)];
    assert [Fetched(0, true), Tick(2000), Stored(0, true)][1..] == [Tick(2000), Stored(0, true)];
    assert [Request(Open), Fetched(0, true), Tick(2000), Stored(0, true)][1..] ==
           [Fetched(0, true), Tick(2000), Stored(0, true)];
  }

  /** In every run: while a copy is within the bound no viewer waits for the origin, and behind a stale answer a refresh is begun. */
  lemma {:induction false} NobodyWaitsWithinTheBound(pinned: bool, start: int, events: seq<Event>)
    requires Possible(Start(pinned, start), events)
    ensures var e := Run(Start(pinned, start), events); var next := OnRequest(e, Open);
            e.held.Some? && e.now - e.held.value.stamp < BOUND_MS ==>
              |next.answers| == |e.answers| + 1 && Usable(Last(next.answers), e.now) &&
              Last(next.answers).request == |e.requests| && Last(next.answers).body == e.held.value.body &&
              next.jobs == (if e.pinned || e.now - e.held.value.stamp < 1000 * FRESH then e.jobs
                            else e.jobs[e.nextJob := Fetching(None, Open)])
  {
    var e := Run(Start(pinned, start), events);
    RunInv(Start(pinned, start), events);
    if e.held.Some? && e.now - e.held.value.stamp < BOUND_MS {
      PolicyIsWhatIsLeft(e.now - e.held.value.stamp, Public, e.pinned);
      PolicyIsWhatIsLeft(e.now - e.held.value.stamp, Public, false);
    }
  }

  /** The event settles this job. */
  predicate Settles(ev: Event, job: nat) {
    match ev
    case Fetched(j, _) => j == job
    case Failed(j) => j == job
    case Stored(j, _) => j == job
    case _ => false
  }

  /** A job is left as it is by every event that does not settle it. */
  lemma {:induction false} JobStays(e: Edge, events: seq<Event>, job: nat)
    requires Inv(e) && Possible(e, events) && job in e.jobs && forall ev | ev in events :: !Settles(ev, job)
    ensures job in Run(e, events).jobs && Run(e, events).jobs[job] == e.jobs[job]
    decreases |events|
  {
    if events != [] {
      StepInv(e, events[0]);
      assert job < e.nextJob && !Settles(events[0], job);
      JobStays(Step(e, events[0]), events[1..], job);
    }
  }

  /** The event puts another copy in the place of the held one, or none. */
  predicate Replaces(ev: Event) { ev.Evicted? || (ev.Stored? && ev.kept) }

  lemma {:induction false} HeldStays(e: Edge, events: seq<Event>)
    requires Possible(e, events) && forall ev | ev in events :: !Replaces(ev)
    ensures Run(e, events).held == e.held && Run(e, events).now >= e.now
    decreases |events|
  {
    if events != [] {
      assert !Replaces(events[0]);
      HeldStays(Step(e, events[0]), events[1..]);
    }
  }

  lemma {:induction false} HeldIsServed(e: Edge)
    ensures var next := Step(e, Request(Open));
            e.held.Some? && e.now - e.held.value.stamp < BOUND_MS ==>
              |next.answers| == |e.answers| + 1 && Last(next.answers).request == |e.requests| &&
              Last(next.answers).body == e.held.value.body && Last(next.answers).stamp == e.held.value.stamp
  {
  }

  /**
   * A body worth keeping that came for a request anyone may make: whatever
   * happens meanwhile it is stored, and once the store kept it every such
   * request is answered from that body, with its true age, until the bound has
   * passed, the copy is lost or a newer one is kept.
   */
  lemma {:induction false} FetchedBodyIsServed(e: Edge, job: nat, mid: seq<Event>, after: seq<Event>)
    requires Inv(e) && job in e.jobs && e.jobs[job].Fetching? && e.jobs[job].kind == Open
    requires Possible(Step(e, Fetched(job, true)), mid) && forall ev | ev in mid :: !Settles(ev, job)
    ensures var f := Run(Step(e, Fetched(job, true)), mid);
            Enabled(f, Stored(job, true)) &&
            (Possible(Step(f, Stored(job, true)), after) && (forall ev | ev in after :: !Replaces(ev)) ==>
             var g := Run(Step(f, Stored(job, true)), after);
             g.now - e.now < BOUND_MS ==>
             var next := Step(g, Request(Open));
             |next.answers| == |g.answers| + 1 && Last(next.answers).request == |g.requests| &&
             Last(next.answers).body == |e.bodies| && Last(next.answers).stamp == e.now)
  {
    StepInv(e, Fetched(job, true));
    JobStays(Step(e, Fetched(job, true)), mid, job);
    var f := Run(Step(e, Fetched(job, true)), mid);
    if Possible(Step(f, Stored(job, true)), after) && (forall ev | ev in after :: !Replaces(ev)) {
      var g := Run(Step(f, Stored(job, true)), after);
      HeldStays(Step(f, Stored(job, true)), after);
      assert g.held == Some(Held(|e.bodies|, e.now));
      HeldIsServed(g);
    }
  }

  ghost predicate Waiting(e: Edge, r: nat) {
    r !in e.failed && forall i | 0 <= i < |e.answers| :: e.answers[i].request != r
  }

  ghost predicate Answered(e: Edge, r: nat) { exists i | 0 <= i < |e.answers| :: e.answers[i].request == r }

  ghost predicate HasJob(e: Edge, r: nat) { exists j | j in e.jobs :: e.jobs[j].request == Some(r) }

  /** Nobody is forgotten: the request failed, was answered, or has a job waiting for it. */
  ghost predicate Accounted(e: Edge, r: nat) { r in e.failed || Answered(e, r) || HasJob(e, r) }

  /** Each request but r is answered at most once, never after its fetch failed, and while a job waits for it, not yet. */
  ghost predicate OnceExcept(e: Edge, r: nat) {
    (forall i, k | 0 <= i < k < |e.answers| :: e.answers[i].request != e.answers[k].request) &&
    (forall i | 0 <= i < |e.answers| :: e.answers[i].request !in e.failed && e.answers[i].request < |e.requests|) &&
    (forall q | q in e.failed :: q < |e.requests|) &&
    (forall j | j in e.jobs :: j < e.nextJob && (e.jobs[j].request.Some? ==>
       e.jobs[j].request.value < |e.requests| && Waiting(e, e.jobs[j].request.value))) &&
    (forall j, k | j in e.jobs && k in e.jobs && j != k && e.jobs[j].request.Some? :: e.jobs[j].request != e.jobs[k].request) &&
    (forall q | 0 <= q < |e.requests| && q != r :: Accounted(e, q))
  }

  ghost predicate OnceInv(e: Edge) { OnceExcept(e, |e.requests|) }

  /** All requests but one are accounted for, and that one is still to be answered or given a job. */
  ghost predicate Owed(e: Edge, r: nat) { OnceExcept(e, r) && r < |e.requests| && Waiting(e, r) && !HasJob(e, r) }

  lemma {:induction false} OwedIsAnswered(e: Edge, a: Answer)
    requires Owed(e, a.request)
    ensures OnceInv(Respond(e, a))
  {
    var next := Respond(e, a);
    assert next.answers[|e.answers|] == a;
    forall q | 0 <= q < |next.requests|
      ensures Accounted(next, q)
    {
      if q == a.request {
        assert Answered(next, q);
      } else {
        assert Accounted(e, q);
        if Answered(e, q) {
          var i :| 0 <= i < |e.answers| && e.answers[i].request == q;
          assert next.answers[i].request == q;
        } else if HasJob(e, q) {
          var j :| j in e.jobs && e.jobs[j].request == Some(q);
          assert next.jobs[j].request == Some(q);
        }
      }
    }
    forall j | j in next.jobs && next.jobs[j].request.Some?
      ensures Waiting(next, next.jobs[j].request.value)
    {
      assert HasJob(e, e.jobs[j].request.value);
    }
  }

  /** A job under an unused number, for the request owed an answer or for none. */
  lemma {:induction false} JobsStayAccounted(e: Edge, next: Edge, r: nat)
    requires forall q | 0 <= q < |e.requests| && q != r :: Accounted(e, q)
    requires next.requests == e.requests && next.answers == e.answers && e.failed <= next.failed
    requires forall j | j in e.jobs :: j in next.jobs && next.jobs[j].request == e.jobs[j].request
    ensures forall q | 0 <= q < |e.requests| && q != r :: Accounted(next, q)
  {
    forall q | 0 <= q < |e.requests| && q != r
      ensures Accounted(next, q)
    {
      assert Accounted(e, q);
      if Answered(e, q) {
        assert Answered(next, q);
      } else if HasJob(e, q) {
        var j :| j in e.jobs && e.jobs[j].request == Some(q);
        assert next.jobs[j].request == Some(q);
      }
    }
  }

  lemma {:induction false} OwedGetsAJob(e: Edge, job: nat, j: Job, nextJob: nat)
    requires j.request.Some? && Owed(e, j.request.value) && job !in e.jobs && job < nextJob && e.nextJob <= nextJob
    ensures OnceInv(e.(jobs := e.jobs[job := j], nextJob := nextJob))
  {
    var next := e.(jobs := e.jobs[job := j], nextJob := nextJob);
    var r := j.request.value;
    JobsStayAccounted(e, next, r);
    assert next.jobs[job].request == Some(r);
    assert HasJob(next, r);
    forall k | k in next.jobs && k != job
      ensures next.jobs[k].request != Some(r)
    {
      assert k in e.jobs;
    }
    forall k | k in next.jobs
      ensures k < next.nextJob && (next.jobs[k].request.Some? ==>
              next.jobs[k].request.value < |next.requests| && Waiting(next, next.jobs[k].request.value))
    {
      if k != job {
        assert e.jobs[k] == next.jobs[k];
        assert next.jobs[k].request.Some? ==> Waiting(e, e.jobs[k].request.value);
      } else {
        assert Waiting(e, r);
      }
    }
  }

  lemma {:induction false} OwedHasFailed(e: Edge, r: nat)
    requires Owed(e, r)
    ensures OnceInv(e.(failed := e.failed + {r}))
  {
    var next := e.(failed := e.failed + {r});
    JobsStayAccounted(e, next, r);
    forall j | j in next.jobs && next.jobs[j].request.Some?
      ensures Waiting(next, next.jobs[j].request.value)
    {
      assert HasJob(e, e.jobs[j].request.value);
    }
  }

  /** A request just made is owed an answer. */
  lemma {:induction false} NewRequestIsOwed(e: Edge, kind: Kind)
    requires OnceInv(e)
    ensures Owed(e.(requests := e.requests + [kind]), |e.requests|)
  {
    var next := e.(requests := e.requests + [kind]);
    forall q | 0 <= q < |next.requests| && q != |e.requests|
      ensures Accounted(next, q)
    {
      assert Accounted(e, q);
      if Answered(e, q) {
        assert Answered(next, q);
      } else if HasJob(e, q) {
        assert HasJob(next, q);
      }
    }
  }

  /** So is the one a job waited for, once that job is taken off; a job nobody waits for leaves nothing owed. */
  lemma {:induction false} SettledIsOwed(e: Edge, job: nat)
    requires OnceInv(e) && job in e.jobs
    ensures var next := e.(jobs := e.jobs - {job});
            if e.jobs[job].request.Some? then Owed(next, e.jobs[job].request.value) else OnceInv(next)
  {
    var next, request := e.(jobs := e.jobs - {job}), e.jobs[job].request;
    forall q | 0 <= q < |next.requests| && request != Some(q)
      ensures Accounted(next, q)
    {
      assert Accounted(e, q);
      if Answered(e, q) {
        assert Answered(next, q);
      } else if HasJob(e, q) {
        var j :| j in e.jobs && e.jobs[j].request == Some(q);
        assert next.jobs[j].request == Some(q);
      }
    }
    forall j | j in next.jobs && next.jobs[j].request.Some?
      ensures Waiting(next, next.jobs[j].request.value)
    {
      assert Waiting(e, e.jobs[j].request.value);
    }
    if request.Some? {
      assert Waiting(e, request.value);
      assert !HasJob(next, request.value);
    }
  }

  /** The stores and the bodies are no part of who was answered, and neither is a job nobody waits for. */
  lemma {:induction false} OthersKeepOnce(e: Edge, next: Edge)
    requires OnceInv(e)
    requires next.requests == e.requests && next.answers == e.answers && next.failed == e.failed && e.nextJob <= next.nextJob
    requires forall j | j in e.jobs :: j in next.jobs && next.jobs[j].request == e.jobs[j].request
    requires forall j | j in next.jobs && j !in e.jobs :: j < next.nextJob && next.jobs[j].request.None?
    ensures OnceInv(next)
  {
    JobsStayAccounted(e, next, |e.requests|);
    forall j | j in next.jobs && next.jobs[j].request.Some?
      ensures Waiting(next, next.jobs[j].request.value)
    {
      assert Waiting(e, e.jobs[j].request.value);
    }
  }

  lemma {:induction false} HeldAnswerOnce(e: Edge, r: nat)
    requires Owed(e, r) && e.held.Some?
    ensures OnceInv(FromHeld(e, r))
  {
    OwedIsAnswered(e, HeldAnswer(e, r));
    OthersKeepOnce(Respond(e, HeldAnswer(e, r)), FromHeld(e, r));
  }

  lemma {:induction false} RequestOnce(before: Edge, kind: Kind)
    requires OnceInv(before)
    ensures OnceInv(OnRequest(before, kind))
  {
    var r, e := |before.requests|, before.(requests := before.requests + [kind]);
    NewRequestIsOwed(before, kind);
    if kind != Open || e.held.None? || e.now - e.held.value.stamp >= BOUND_MS {
      OwedGetsAJob(e, e.nextJob, Fetching(Some(r), kind), e.nextJob + 1);
    } else {
      HeldAnswerOnce(e, r);
      assert OnRequest(before, kind) == FromHeld(e, r);
    }
  }

  /** A body is put with the others. */
  lemma {:induction false} BodiesAreNotOwed(e: Edge, r: nat, bodies: seq<Body>, held: Option<Held>)
    requires Owed(e, r)
    ensures Owed(e.(bodies := bodies, held := held), r)
  {
    var next := e.(bodies := bodies, held := held);
    JobsStayAccounted(e, next, r);
    forall j | j in next.jobs && next.jobs[j].request.Some?
      ensures Waiting(next, next.jobs[j].request.value)
    {
      assert Waiting(e, e.jobs[j].request.value);
    }
  }

  lemma {:induction false} FetchedOnce(before: Edge, job: nat, storable: bool)
    requires OnceInv(before) && job in before.jobs && before.jobs[job].Fetching?
    ensures OnceInv(OnFetched(before, job, storable))
  {
    var j, e := before.jobs[job], WithBody(before, job, storable);
    var without := before.(jobs := before.jobs - {job});
    SettledIsOwed(before, job);
    var next := OnFetched(before, job, storable);
    if j.request.None? {
      OthersKeepOnce(without, next);
    } else {
      BodiesAreNotOwed(without, j.request.value, e.bodies, e.held);
      assert without.(bodies := e.bodies, held := e.held) == e;
      if j.kind == Open && storable {
        OwedGetsAJob(e, job, Storing(j.request, |before.bodies|, e.now), e.nextJob);
      } else {
        OwedIsAnswered(e, Last(next.answers));
      }
    }
  }

  lemma {:induction false} StoredOnce(before: Edge, job: nat, kept: bool)
    requires OnceInv(before) && job in before.jobs && before.jobs[job].Storing?
    ensures OnceInv(OnStored(before, job, kept))
  {
    var j, next := before.jobs[job], OnStored(before, job, kept);
    var without := before.(jobs := before.jobs - {job});
    SettledIsOwed(before, job);
    if j.request.None? {
      OthersKeepOnce(without, next);
    } else {
      BodiesAreNotOwed(without, j.request.value, before.bodies, next.held);
      OwedIsAnswered(without.(bodies := before.bodies, held := next.held), Last(next.answers));
    }
  }

  lemma {:induction false} StepOnce(e: Edge, ev: Event)
    requires OnceInv(e) && Enabled(e, ev)
    ensures OnceInv(Step(e, ev))
  {
    match ev {
      case Request(kind) => RequestOnce(e, kind);
      case Fetched(job, storable) => FetchedOnce(e, job, storable);
      case Failed(job) =>
        SettledIsOwed(e, job);
        if e.jobs[job].request.Some? {
          OwedHasFailed(e.(jobs := e.jobs - {job}), e.jobs[job].request.value);
        }
      case Stored(job, kept) => StoredOnce(e, job, kept);
      case Tick(_) => OthersKeepOnce(e, Step(e, ev));
      case Evicted => OthersKeepOnce(e, Step(e, ev));
    }
  }

  lemma {:induction false} RunOnce(e: Edge, events: seq<Event>)
    requires OnceInv(e) && Possible(e, events)
    ensures OnceInv(Run(e, events))
    decreases |events|
  {
    if events != [] {
      StepOnce(e, events[0]);
      RunOnce(Step(e, events[0]), events[1..]);
    }
  }

  /** In every run each request gets one answer, or an error because its fetch failed, or has a job that waits for it; never two of these. */
  lemma {:induction false} EveryRequestIsAnsweredOnce(pinned: bool, start: int, events: seq<Event>, r: nat)
    requires Possible(Start(pinned, start), events) && r < |Run(Start(pinned, start), events).requests|
    ensures var e := Run(Start(pinned, start), events);
            (forall i, k | 0 <= i < k < |e.answers| :: e.answers[i].request != e.answers[k].request) &&
            (r in e.failed || Answered(e, r) || HasJob(e, r)) &&
            !(r in e.failed && Answered(e, r)) && !(r in e.failed && HasJob(e, r)) && !(Answered(e, r) && HasJob(e, r))
  {
    var e := Run(Start(pinned, start), events);
    RunOnce(Start(pinned, start), events);
    assert Accounted(e, r);
    if HasJob(e, r) {
      var j :| j in e.jobs && e.jobs[j].request == Some(r);
      assert Waiting(e, e.jobs[j].request.value);
    }
  }
}
