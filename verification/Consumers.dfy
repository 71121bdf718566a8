/** The consumer service: setups registered once, re-run on every new channel.

    The connection manager runs a new setup at once when a channel is live, and all setups, in order,
    whenever it opens a new channel.  Queues and their bindings are durable; consumers die with
    their channel. */
module Consumers {
  type Queue = string
  type Pattern = string

  /** What one call of subscribe hands to addSetup. */
  datatype Setup = Setup(queue: Queue, patterns: seq<Pattern>, isFirstSetup: bool)

  function FirstSetups(setups: seq<Setup>, q: Queue): nat {
    if setups == [] then 0
    else
      FirstSetups(setups[..|setups| - 1], q)
      + if setups[|setups| - 1].queue == q && setups[|setups| - 1].isFirstSetup then 1 else 0
  }

  function PatternSet(patterns: seq<Pattern>): set<Pattern> {
    set p | p in patterns
  }

  /** Every pattern ever passed for a queue. */
  function AllPatterns(setups: seq<Setup>, q: Queue): set<Pattern> {
    if setups == [] then {}
    else
      AllPatterns(setups[..|setups| - 1], q)
      + if setups[|setups| - 1].queue == q then PatternSet(setups[|setups| - 1].patterns) else {}
  }

  function Bound(bindings: map<Queue, set<Pattern>>, q: Queue): set<Pattern> {
    if q in bindings then bindings[q] else {}
  }

  lemma OneMoreSetup(setups: seq<Setup>, s: Setup, q: Queue)
    ensures FirstSetups(setups + [s], q) == FirstSetups(setups, q) + (if s.queue == q && s.isFirstSetup then 1 else 0)
    ensures AllPatterns(setups + [s], q) == AllPatterns(setups, q) + if s.queue == q then PatternSet(s.patterns) else {}
  {
    assert (setups + [s])[..|setups|] == setups;
  }

  /** The broker after one more setup ran. */
  ghost predicate Ran(
    b: map<Queue, set<Pattern>>, c: multiset<Queue>, b': map<Queue, set<Pattern>>, c': multiset<Queue>, s: Setup)
  {
    && (forall q :: Bound(b', q) == Bound(b, q) + if q == s.queue then PatternSet(s.patterns) else {})
    && c' == c + if s.isFirstSetup then multiset{s.queue} else multiset{}
  }

  /** The broker after a channel has run these setups, over the bindings it had. */
  ghost predicate RanAll(
    kept: map<Queue, set<Pattern>>, b: map<Queue, set<Pattern>>, c: multiset<Queue>, setups: seq<Setup>)
  {
    forall q :: c[q] == FirstSetups(setups, q) && Bound(b, q) == Bound(kept, q) + AllPatterns(setups, q)
  }

  /** Every subscribed queue has exactly one consumer, and is bound to every pattern ever passed for it. */
  ghost predicate Served(
    consumers: multiset<Queue>, b: map<Queue, set<Pattern>>, registered: set<Queue>, setups: seq<Setup>)
  {
    forall q :: consumers[q] == (if q in registered then 1 else 0) && Bound(b, q) == AllPatterns(setups, q)
  }

  ghost predicate NoForeignBindings(b: map<Queue, set<Pattern>>, setups: seq<Setup>) {
    forall q :: Bound(b, q) <= AllPatterns(setups, q)
  }

  lemma AllRan(
    kept: map<Queue, set<Pattern>>, b: map<Queue, set<Pattern>>, c: multiset<Queue>, registered: set<Queue>,
    setups: seq<Setup>)
    requires RanAll(kept, b, c, setups) && NoForeignBindings(kept, setups)
    requires RegisteredBy(setups, registered)
    ensures Served(c, b, registered, setups) && NoForeignBindings(b, setups)
  {
  }

  lemma NothingForeign(setups: seq<Setup>)
    ensures NoForeignBindings(map[], setups)
  {
  }

  lemma RanNone(kept: map<Queue, set<Pattern>>)
    ensures RanAll(kept, kept, multiset{}, [])
  {
  }

  lemma RanOneMore(
    kept: map<Queue, set<Pattern>>, b: map<Queue, set<Pattern>>, c: multiset<Queue>,
    b': map<Queue, set<Pattern>>, c': multiset<Queue>, setups: seq<Setup>, s: Setup)
    requires RanAll(kept, b, c, setups) && Ran(b, c, b', c', s)
    ensures RanAll(kept, b', c', setups + [s])
  {
    hide FirstSetups, AllPatterns, PatternSet, Bound;
    forall q
      ensures c'[q] == FirstSetups(setups + [s], q)
      ensures Bound(b', q) == Bound(kept, q) + AllPatterns(setups + [s], q)
    {
      OneMoreSetup(setups, s, q);
    }
  }

  /** A queue is registered by exactly one first setup. */
  ghost predicate RegisteredBy(setups: seq<Setup>, registered: set<Queue>) {
    forall q :: FirstSetups(setups, q) == if q in registered then 1 else 0
  }

  /** Registering one more setup, run or not. */
  lemma SubscribedOnceMore(b: map<Queue, set<Pattern>>, registered: set<Queue>, setups: seq<Setup>, s: Setup)
    requires RegisteredBy(setups, registered) && NoForeignBindings(b, setups)
    requires s.isFirstSetup <==> s.queue !in registered
    ensures RegisteredBy(setups + [s], registered + {s.queue}) && NoForeignBindings(b, setups + [s])
    ensures forall q ::
      AllPatterns(setups + [s], q) == AllPatterns(setups, q) + if s.queue == q then PatternSet(s.patterns) else {}
  {
    hide FirstSetups, AllPatterns, PatternSet, Bound;
    forall q
      ensures FirstSetups(setups + [s], q) == if q in registered + {s.queue} then 1 else 0
      ensures AllPatterns(setups + [s], q)
        == AllPatterns(setups, q) + if s.queue == q then PatternSet(s.patterns) else {}
    {
      OneMoreSetup(setups, s, q);
    }
  }

  /** Running it on a live channel that served the setups before. */
  lemma ServedOnceMore(
    b: map<Queue, set<Pattern>>, c: multiset<Queue>, registered: set<Queue>,
    b': map<Queue, set<Pattern>>, c': multiset<Queue>, setups: seq<Setup>, s: Setup)
    requires Served(c, b, registered, setups) && Ran(b, c, b', c', s)
    requires s.isFirstSetup <==> s.queue !in registered
    ensures Served(c', b', registered + {s.queue}, setups + [s])
    ensures NoForeignBindings(b', setups + [s])
  {
    hide AllPatterns, PatternSet, Bound, FirstSetups;
    forall q
      ensures c'[q] == (if q in registered + {s.queue} then 1 else 0) && Bound(b', q) == AllPatterns(setups + [s], q)
    {
      OneMoreSetup(setups, s, q);
    }
  }

  class ConsumerService {
    var registeredQueues: set<Queue>
    var setups: seq<Setup>
    var connected: bool
    /** The consumers on the live channel, with how many there are of each queue. */
    var consumers: multiset<Queue>
    var bindings: map<Queue, set<Pattern>>

    /** On a live channel every subscribed queue has exactly one consumer and all its bindings; without one
        nobody consumes. */
    ghost predicate Valid()
      reads this
    {
      && RegisteredBy(setups, registeredQueues)
      && NoForeignBindings(bindings, setups)
      && (if connected then Served(consumers, bindings, registeredQueues, setups) else consumers == multiset{})
    }

    constructor ()
      ensures Valid() && !connected && setups == [] && registeredQueues == {}
      ensures consumers == multiset{} && bindings == map[]
    {
      registeredQueues, setups, connected := {}, [], false;
      consumers, bindings := multiset{}, map[];
    }

    /** One setup on the live channel: assert the queue, bind each pattern, consume if it is the first. */
    method RunSetup(s: Setup)
      modifies this`bindings, this`consumers
      ensures Ran(old(bindings), old(consumers), bindings, consumers, s)
    {
      if s.queue !in bindings {
        bindings := bindings[s.queue := {}];
      }
      var i := 0;
      while i < |s.patterns|
        invariant 0 <= i <= |s.patterns| && consumers == old(consumers)
        invariant s.queue in bindings
        invariant forall q ::
          Bound(bindings, q) == Bound(old(bindings), q) + if q == s.queue then PatternSet(s.patterns[..i]) else {}
      {
        assert PatternSet(s.patterns[..i + 1]) == PatternSet(s.patterns[..i]) + {s.patterns[i]};
        bindings := bindings[s.queue := bindings[s.queue] + {s.patterns[i]}];
        i := i + 1;
      }
      assert s.patterns[..i] == s.patterns;
      if s.isFirstSetup {
        consumers := consumers + multiset{s.queue};
      }
    }

    method Subscribe(queue: Queue, patterns: seq<Pattern>)
      requires Valid()
      modifies this
      ensures Valid() && connected == old(connected)
      ensures registeredQueues == old(registeredQueues) + {queue}
      ensures forall q ::
        AllPatterns(setups, q) == AllPatterns(old(setups), q) + if q == queue then PatternSet(patterns) else {}
    {
      hide Ran, Served, NoForeignBindings, RegisteredBy, AllPatterns, PatternSet;
      var s := Setup(queue, patterns, queue !in registeredQueues);
      ghost var b, c, registered := bindings, consumers, registeredQueues;
      registeredQueues := registeredQueues + {queue};
      setups := setups + [s];
      SubscribedOnceMore(b, registered, old(setups), s);
      if connected {
        RunSetup(s);
        ServedOnceMore(b, c, registered, bindings, consumers, old(setups), s);
      }
    }

    method Disconnect()
      requires Valid()
      modifies this
      ensures Valid() && !connected && consumers == multiset{} && bindings == old(bindings)
      ensures registeredQueues == old(registeredQueues) && setups == old(setups)
    {
      connected := false;
      consumers := multiset{};
    }

    /** A new channel, perhaps to a broker that has lost its bindings: every setup runs again. */
    method Reconnect(bindingsLost: bool)
      requires Valid()
      modifies this
      ensures Valid() && connected
      ensures registeredQueues == old(registeredQueues) && setups == old(setups)
    {
      hide RanAll, Ran, Served, NoForeignBindings, RegisteredBy;
      consumers := multiset{};
      if bindingsLost {
        bindings := map[];
        NothingForeign(setups);
      }
      ghost var kept := bindings;
      RanNone(kept);
      var i := 0;
      while i < |setups|
        invariant 0 <= i <= |setups|
        invariant registeredQueues == old(registeredQueues) && setups == old(setups)
        invariant RanAll(kept, bindings, consumers, setups[..i])
      {
        ghost var b, c := bindings, consumers;
        RunSetup(setups[i]);
        assert setups[..i + 1] == setups[..i] + [setups[i]];
        RanOneMore(kept, b, c, bindings, consumers, setups[..i], setups[i]);
        i := i + 1;
      }
      assert setups[..i] == setups;
      AllRan(kept, bindings, consumers, registeredQueues, setups);
      connected := true;
    }
  }
}
