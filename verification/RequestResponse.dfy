/** RPC over the message broker: the table of pending requests of one gateway process, and any number
    of such processes receiving each other's responses.

    Every response is delivered to every process, late, early, twice or never; timers fire when they
    like; request ids are fresh UUIDs. */
module RequestResponse {
  type Id = nat

  datatype Cause = Answered(success: bool) | TimedOut | PublishFailed

  datatype Settlement = Settlement(id: Id, cause: Cause)

  datatype Subscription = NotStarted | Starting | Ready | Failed

  datatype Process = Process(
    pending: set<Id>,
    timers: set<Id>,
    settled: seq<Settlement>,
    subscription: Subscription,
    subscribeCalls: nat)

  const IDLE: Process := Process({}, {}, [], NotStarted, 0)

  datatype Event =
    | Enter
    | Subscribed(ok: bool)
    | Ask(id: Id, published: bool)
    | Response(id: Id, success: bool)
    | Timer(id: Id)

  /** What one event does to one process. */
  function React(p: Process, e: Event): Process {
    match e
    case Enter =>
      if p.subscription == NotStarted then p.(subscription := Starting, subscribeCalls := p.subscribeCalls + 1) else p
    case Subscribed(ok) =>
      if p.subscription == Starting then p.(subscription := if ok then Ready else Failed) else p
    case Ask(id, published) =>
      if p.subscription != Ready then p
      else if published then p.(pending := p.pending + {id}, timers := p.timers + {id})
      else p.(settled := p.settled + [Settlement(id, PublishFailed)])
    case Response(id, success) =>
      if id in p.pending then
        p.(pending := p.pending - {id}, timers := p.timers - {id},
           settled := p.settled + [Settlement(id, Answered(success))])
      else p
    case Timer(id) =>
      if id in p.timers then
        p.(pending := p.pending - {id}, timers := p.timers - {id},
           settled := if id in p.pending then p.settled + [Settlement(id, TimedOut)] else p.settled)
      else p
  }

  /** The service object: callbacks stored under the request id, cleared by whichever comes first. */
  class RequestResponseService {
    var pendingRequests: set<Id>
    var timers: set<Id>
    var responseQueueSubscribed: bool
    var subscriptionPromise: Subscription
    ghost var settled: seq<Settlement>
    ghost var subscribeCalls: nat

    ghost function State(): Process
      reads this
    {
      Process(pendingRequests, timers, settled, subscriptionPromise, subscribeCalls)
    }

    ghost predicate Valid()
      reads this
    {
      && timers == pendingRequests
      && (responseQueueSubscribed ==> subscriptionPromise == Ready)
    }

    constructor ()
      ensures Valid() && State() == IDLE
    {
      pendingRequests, timers := {}, {};
      responseQueueSubscribed, subscriptionPromise := false, NotStarted;
      settled, subscribeCalls := [], 0;
    }

    /** A caller arrives: the first one starts the one subscription, later ones wait for the same promise. */
    method EnterRequest()
      requires Valid()
      modifies this
      ensures Valid() && State() == React(old(State()), Enter)
    {
      if !responseQueueSubscribed {
        if subscriptionPromise == NotStarted {
          subscriptionPromise := Starting;
          subscribeCalls := subscribeCalls + 1;
        }
      }
    }

    method SubscriptionDone(ok: bool)
      requires Valid()
      modifies this
      ensures Valid() && State() == React(old(State()), Subscribed(ok))
    {
      if subscriptionPromise == Starting {
        subscriptionPromise := if ok then Ready else Failed;
      }
    }

    /** The rest of request(), once the promise has resolved; a rejected promise rejects the caller. */
    method Request(id: Id, published: bool)
      requires Valid() && id !in pendingRequests
      modifies this
      ensures Valid() && State() == React(old(State()), Ask(id, published))
      ensures responseQueueSubscribed == (old(responseQueueSubscribed) || subscriptionPromise == Ready)
    {
      if subscriptionPromise != Ready { return; }
      responseQueueSubscribed := true;
      timers := timers + {id};
      pendingRequests := pendingRequests + {id};
      if !published {
        pendingRequests := pendingRequests - {id};
        timers := timers - {id};
        settled := settled + [Settlement(id, PublishFailed)];
      }
    }

    /** The consumer: resolve deletes the entry, and the consumer deletes it again. */
    method OnResponse(id: Id, success: bool)
      requires Valid()
      modifies this
      ensures Valid() && State() == React(old(State()), Response(id, success))
    {
      if id in pendingRequests {
        timers := timers - {id};
        pendingRequests := pendingRequests - {id};
        settled := settled + [Settlement(id, Answered(success))];
        pendingRequests := pendingRequests - {id};
      }
    }

    method OnTimer(id: Id)
      requires Valid()
      modifies this
      ensures Valid() && State() == React(old(State()), Timer(id))
    {
      if id in timers {
        timers := timers - {id};
        if id in pendingRequests {
          pendingRequests := pendingRequests - {id};
          settled := settled + [Settlement(id, TimedOut)];
        }
      }
    }
  }

  // ---------------------------------------------------------------- many processes

  datatype Happening = Happening(process: nat, event: Event)

  /** Processes by number, and which process issued each id. */
  datatype Cluster = Cluster(processes: seq<Process>, issuer: map<Id, nat>)

  /** Ids are fresh when asked with; a request gets past its subscription only if that succeeded. */
  predicate Possible(c: Cluster, h: Happening) {
    && h.process < |c.processes|
    && (h.event.Ask? ==> h.event.id !in c.issuer && c.processes[h.process].subscription == Ready)
  }

  function Step(c: Cluster, h: Happening): Cluster {
    if !Possible(c, h) then c
    else
      Cluster(
        c.processes[h.process := React(c.processes[h.process], h.event)],
        if h.event.Ask? then c.issuer[h.event.id := h.process] else c.issuer)
  }

  /** A cluster of n processes after any history; what is not possible does not happen. */
  function After(n: nat, history: seq<Happening>): Cluster {
    if history == [] then Cluster(seq(n, _ => IDLE), map[])
    else Step(After(n, history[..|history| - 1]), history[|history| - 1])
  }

  function TimesSettled(settled: seq<Settlement>, id: Id): nat {
    if settled == [] then 0
    else TimesSettled(settled[..|settled| - 1], id) + if settled[|settled| - 1].id == id then 1 else 0
  }

  lemma SettledOnceMore(settled: seq<Settlement>, s: Settlement, id: Id)
    ensures TimesSettled(settled + [s], id) == TimesSettled(settled, id) + if s.id == id then 1 else 0
  {
    assert (settled + [s])[..|settled|] == settled;
  }

  /** No timer outlives its request; nothing goes out before the one subscription has succeeded. */
  predicate Tidy(p: Process) {
    && p.timers == p.pending
    && p.subscribeCalls <= 1
    && (p.subscription == NotStarted <==> p.subscribeCalls == 0)
    && (p.subscription != Ready ==> p.pending == {} && p.settled == [])
  }

  /** An id is pending just where and while its request is unsettled, and settles at most once. */
  predicate Counted(c: Cluster, i: nat, id: Id)
    requires i < |c.processes|
  {
    && (id in c.processes[i].pending <==> Issued(c, i, id) && TimesSettled(c.processes[i].settled, id) == 0)
    && TimesSettled(c.processes[i].settled, id) <= (if Issued(c, i, id) then 1 else 0)
  }

  ghost predicate Exact(c: Cluster) {
    && (forall i | 0 <= i < |c.processes| :: Tidy(c.processes[i]))
    && (forall i, id | 0 <= i < |c.processes| :: Counted(c, i, id))
  }

  predicate Issued(c: Cluster, i: nat, id: Id) {
    id in c.issuer && c.issuer[id] == i
  }

  predicate CausedBy(s: Settlement, e: Event) {
    match s.cause
    case Answered(success) => e == Response(s.id, success)
    case TimedOut => e == Timer(s.id)
    case PublishFailed => e == Ask(s.id, false)
  }

  ghost predicate HasCause(history: seq<Happening>, i: nat, s: Settlement) {
    exists t :: 0 <= t < |history| && history[t].process == i && CausedBy(s, history[t].event)
  }

  /** Every settlement has its own event behind it, delivered to the process that asked. */
  ghost predicate Caused(history: seq<Happening>, c: Cluster) {
    forall i, k | 0 <= i < |c.processes| && 0 <= k < |c.processes[i].settled| ::
      HasCause(history, i, c.processes[i].settled[k])
  }

  lemma ReactSettles(p: Process, e: Event)
    ensures var settled := React(p, e).settled;
      settled == p.settled
      || (|settled| == |p.settled| + 1 && settled[..|p.settled|] == p.settled && CausedBy(settled[|p.settled|], e))
  {
  }

  lemma ReactTidy(p: Process, e: Event)
    requires Tidy(p)
    ensures Tidy(React(p, e))
  {
  }

  /** What one event does to one id in one process. */
  predicate ReactsRightly(p: Process, p': Process, e: Event, id: Id) {
    var settles := TimesSettled(p'.settled, id) - TimesSettled(p.settled, id);
    match e
    case Ask(x, published) =>
      if x != id then settles == 0 && (id in p'.pending <==> id in p.pending)
      else if published then settles == 0 && id in p'.pending
      else settles == 1 && (id in p'.pending <==> id in p.pending)
    case Response(x, _) =>
      settles == (if x == id && id in p.pending then 1 else 0)
      && (id in p'.pending <==> id in p.pending && x != id)
    case Timer(x) =>
      settles == (if x == id && id in p.pending then 1 else 0)
      && (id in p'.pending <==> id in p.pending && x != id)
    case _ => settles == 0 && p'.pending == p.pending
  }

  lemma ReactCounted(p: Process, e: Event, id: Id)
    requires Tidy(p) && (e.Ask? ==> p.subscription == Ready)
    ensures ReactsRightly(p, React(p, e), e, id)
  {
    hide TimesSettled;
    match e
    case Ask(x, _) => SettledOnceMore(p.settled, Settlement(x, PublishFailed), id);
    case Response(x, success) => SettledOnceMore(p.settled, Settlement(x, Answered(success)), id);
    case Timer(x) => SettledOnceMore(p.settled, Settlement(x, TimedOut), id);
    case _ =>
  }

  lemma StepCounted(c: Cluster, h: Happening, i: nat, id: Id)
    requires i < |c.processes| && Possible(c, h)
    requires Counted(c, i, id) && Tidy(c.processes[i])
    ensures Counted(Step(c, h), i, id)
  {
    hide React, Tidy, TimesSettled;
    if h.process == i {
      ReactCounted(c.processes[i], h.event, id);
    }
  }

  lemma StepExact(c: Cluster, h: Happening)
    requires Exact(c)
    ensures Exact(Step(c, h))
  {
    hide Tidy, Counted, React;
    if Possible(c, h) {
      forall i, id | 0 <= i < |c.processes| ensures Counted(Step(c, h), i, id) {
        StepCounted(c, h, i, id);
      }
      ReactTidy(c.processes[h.process], h.event);
    }
  }

  lemma StepCaused(history: seq<Happening>, c: Cluster, h: Happening)
    requires Caused(history, c)
    ensures Caused(history + [h], Step(c, h))
  {
    var c' := Step(c, h);
    var longer := history + [h];
    forall i, k | 0 <= i < |c'.processes| && 0 <= k < |c'.processes[i].settled|
      ensures HasCause(longer, i, c'.processes[i].settled[k])
    {
      if k < |c.processes[i].settled| {
        assert c'.processes[i].settled[k] == c.processes[i].settled[k];
        var t :| 0 <= t < |history| && history[t].process == i && CausedBy(c.processes[i].settled[k], history[t].event);
        assert longer[t] == history[t];
      } else {
        ReactSettles(c.processes[i], h.event);
        assert longer[|history|] == h;
      }
    }
  }

  /** In every run, with responses duplicated, reordered, late, lost or foreign. */
  lemma {:induction false} SettlesExactlyOnce(n: nat, history: seq<Happening>)
    ensures var c := After(n, history);
      |c.processes| == n && Exact(c) && Caused(history, c)
  {
    if history == [] {
      forall i: nat, id | i < n ensures Counted(After(n, []), i, id) {
      }
    } else {
      var past, h := history[..|history| - 1], history[|history| - 1];
      SettlesExactlyOnce(n, past);
      StepExact(After(n, past), h);
      StepCaused(past, After(n, past), h);
      assert past + [h] == history;
    }
  }

  // ---------------------------------------------------------------- the one subscription attempt

  /** The first event of process i, from a moment on, that is an Enter (or, if not asked for, the end
      of a subscription); the length of the history if there is none. */
  function First(history: seq<Happening>, i: nat, enter: bool, from: nat): (t: nat)
    requires from <= |history|
    ensures from <= t <= |history|
    ensures t < |history| ==> IsA(history[t], i, enter)
    ensures forall k | from <= k < t :: !IsA(history[k], i, enter)
    decreases |history| - from
  {
    if from == |history| || IsA(history[from], i, enter) then from else First(history, i, enter, from + 1)
  }

  predicate IsA(h: Happening, i: nat, enter: bool) {
    h.process == i && if enter then h.event.Enter? else h.event.Subscribed?
  }

  /** How the first subscription of process i, started by its first caller, came out: told from the
      history alone. */
  function FirstAttempt(history: seq<Happening>, i: nat): Subscription {
    var entered := First(history, i, true, 0);
    if entered == |history| then NotStarted
    else
      var ended := First(history, i, false, entered);
      if ended == |history| then Starting else if history[ended].event.ok then Ready else Failed
  }

  /** One more event decides the attempt only if it is the one waited for. */
  lemma AttemptOneMore(history: seq<Happening>, h: Happening, i: nat)
    ensures FirstAttempt(history + [h], i) ==
      match FirstAttempt(history, i) {
        case NotStarted => if IsA(h, i, true) then Starting else NotStarted
        case Starting => if IsA(h, i, false) then (if h.event.ok then Ready else Failed) else Starting
        case decided => decided
      }
  {
    var longer := history + [h];
    assert longer[|history|] == h && forall k | 0 <= k < |history| :: longer[k] == history[k];
    var entered, entered' := First(history, i, true, 0), First(longer, i, true, 0);
    assert entered < |history| ==> entered' == entered;
    if entered < |history| {
      var ended, ended' := First(history, i, false, entered), First(longer, i, false, entered);
      assert ended < |history| ==> ended' == ended;
    }
  }

  /** In every run the state of a process's subscription is the outcome of its first attempt, and only
      a process whose attempt succeeded has ever issued a request. */
  lemma {:induction false} AttemptDecides(n: nat, history: seq<Happening>, i: nat)
    requires i < n
    ensures var c := After(n, history);
      && |c.processes| == n
      && c.processes[i].subscription == FirstAttempt(history, i)
      && forall id | Issued(c, i, id) :: FirstAttempt(history, i) == Ready
  {
    if history != [] {
      var past, h := history[..|history| - 1], history[|history| - 1];
      AttemptDecides(n, past, i);
      assert past + [h] == history;
      AttemptOneMore(past, h, i);
      var c := After(n, past);
      forall id | Issued(Step(c, h), i, id) ensures FirstAttempt(history, i) == Ready {
        assert Issued(c, i, id) || (h == Happening(i, h.event) && c.processes[i].subscription == Ready);
      }
    }
  }

  /** A gateway process can make a request, at any moment of any run, if and only if its first
      subscription attempt has succeeded by then: no later attempt is ever made. */
  lemma {:induction false} RequestGoesOutIff(n: nat, history: seq<Happening>, i: nat, id: Id)
    requires i < n && id !in After(n, history).issuer
    ensures var after := After(n, history + [Happening(i, Ask(id, true))]);
      |after.processes| == n && (id in after.processes[i].pending <==> FirstAttempt(history, i) == Ready)
  {
    var h := Happening(i, Ask(id, true));
    assert (history + [h])[..|history|] == history;
    AttemptDecides(n, history, i);
    SettlesExactlyOnce(n, history);
    assert Counted(After(n, history), i, id);
  }

  /** Two events are enough: once the first attempt has failed, nothing that follows gets a request of
      this process out. */
  lemma FailedForGood(n: nat, i: nat, later: seq<Happening>)
    requires i < n
    ensures var history := [Happening(i, Enter), Happening(i, Subscribed(false))] + later;
      var c := After(n, history);
      && |c.processes| == n && c.processes[i].subscription == Failed
      && c.processes[i].pending == {} && c.processes[i].settled == []
      && forall id :: !Issued(c, i, id)
  {
    var history := [Happening(i, Enter), Happening(i, Subscribed(false))] + later;
    assert First(history, i, true, 0) == 0;
    assert First(history, i, false, 0) == 1;
    AttemptDecides(n, history, i);
    SettlesExactlyOnce(n, history);
    assert Tidy(After(n, history).processes[i]);
  }
}
