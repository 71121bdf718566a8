/** Creating a conversation under concurrent callers: find, insert or ignore, fetch again.

    Each database statement is atomic, the statements of different callers interleave freely, and the
    unique index on (client, freelancer) keeps one row for each pair.  A soft-deleted row stays in the
    index although no fetch finds it.  A caller may stop for good between any two statements: a
    schedule that names it no more. */
module Conversations {
  type RowKey = (nat, nat)

  /** Where a caller is.  `ownId` is the UUID it gave the row it may insert. */
  datatype Phase =
    | Started
    | Missed
    | Inserted
    | Welcoming
    | Returned(id: nat, created: bool)

  datatype Caller = Caller(pair: RowKey, ownId: nat, phase: Phase)

  datatype System = System(rows: map<RowKey, nat>, deleted: set<RowKey>, callers: seq<Caller>, welcomes: seq<nat>)

  /** What a fetch finds. */
  predicate Found(sys: System, pair: RowKey) {
    pair in sys.rows && pair !in sys.deleted
  }

  /** The next statement of one caller. */
  function Next(sys: System, k: nat): System {
    if k >= |sys.callers| then sys
    else
      var c := sys.callers[k];
      match c.phase
      case Started =>
        if Found(sys, c.pair) then Become(sys, k, Returned(sys.rows[c.pair], false)) else Become(sys, k, Missed)
      case Missed =>
        // INSERT ... ON CONFLICT DO NOTHING
        var rows := if c.pair in sys.rows then sys.rows else sys.rows[c.pair := c.ownId];
        Become(sys.(rows := rows), k, Inserted)
      case Inserted =>
        if !Found(sys, c.pair) then sys // the call throws
        else if sys.rows[c.pair] != c.ownId then Become(sys, k, Returned(sys.rows[c.pair], false))
        else Become(sys, k, Welcoming)
      case Welcoming =>
        Become(sys.(welcomes := sys.welcomes + [c.ownId]), k, Returned(c.ownId, true))
      case Returned(_, _) => sys
  }

  function Become(sys: System, k: nat, phase: Phase): System
    requires k < |sys.callers|
  {
    sys.(callers := sys.callers[k := sys.callers[k].(phase := phase)])
  }

  function Run(sys: System, schedule: seq<nat>): System {
    if schedule == [] then sys else Next(Run(sys, schedule[..|schedule| - 1]), schedule[|schedule| - 1])
  }

  /** Callers about to start, with UUIDs of their own, over any existing rows. */
  ghost predicate Fresh(sys: System) {
    && sys.welcomes == []
    && (forall p | p in sys.deleted :: p in sys.rows)
    && (forall k | 0 <= k < |sys.callers| :: sys.callers[k].phase == Started)
    && (forall k, l | 0 <= k < |sys.callers| && 0 <= l < |sys.callers| && k != l ::
          sys.callers[k].ownId != sys.callers[l].ownId)
    && (forall k, p | 0 <= k < |sys.callers| && p in sys.rows :: sys.rows[p] != sys.callers[k].ownId)
  }

  function TimesWelcomed(welcomes: seq<nat>, id: nat): nat {
    if welcomes == [] then 0
    else TimesWelcomed(welcomes[..|welcomes| - 1], id) + if welcomes[|welcomes| - 1] == id then 1 else 0
  }

  lemma WelcomedOnceMore(welcomes: seq<nat>, w: nat, id: nat)
    ensures TimesWelcomed(welcomes + [w], id) == TimesWelcomed(welcomes, id) + if w == id then 1 else 0
  {
    assert (welcomes + [w])[..|welcomes|] == welcomes;
  }

  /** What each caller may rely on. */
  predicate CallerSees(sys: System, c: Caller) {
    match c.phase
    case Started => TimesWelcomed(sys.welcomes, c.ownId) == 0 && !Won(sys, c)
    case Missed => TimesWelcomed(sys.welcomes, c.ownId) == 0 && !Won(sys, c)
    case Inserted => TimesWelcomed(sys.welcomes, c.ownId) == 0 && c.pair in sys.rows
    case Welcoming => TimesWelcomed(sys.welcomes, c.ownId) == 0 && Won(sys, c)
    case Returned(id, created) =>
      && c.pair in sys.rows && sys.rows[c.pair] == id
      && (created <==> Won(sys, c))
      && TimesWelcomed(sys.welcomes, c.ownId) == if created then 1 else 0
  }

  predicate Won(sys: System, c: Caller) {
    c.pair in sys.rows && sys.rows[c.pair] == c.ownId
  }

  ghost predicate OwnedBySomeone(sys: System, p: RowKey)
    requires p in sys.rows
  {
    exists k :: 0 <= k < |sys.callers| && sys.callers[k].pair == p && sys.callers[k].ownId == sys.rows[p]
  }

  ghost predicate ReturnedOwner(sys: System, id: nat) {
    exists k :: 0 <= k < |sys.callers| && sys.callers[k].ownId == id && sys.callers[k].phase.Returned?
  }

  predicate SameCaller(c: Caller, d: Caller) {
    c.pair == d.pair && c.ownId == d.ownId
  }

  /** Rows are never replaced; a new row is some caller's own; only a returned caller's was welcomed. */
  ghost predicate Invariant(start: System, sys: System) {
    && |sys.callers| == |start.callers|
    && sys.deleted == start.deleted
    && (forall k | 0 <= k < |sys.callers| ::
          SameCaller(sys.callers[k], start.callers[k]) && CallerSees(sys, sys.callers[k]))
    && (forall p | p in start.rows :: p in sys.rows && sys.rows[p] == start.rows[p])
    && (forall p | p in sys.rows && p !in start.rows :: OwnedBySomeone(sys, p))
    && (forall id | TimesWelcomed(sys.welcomes, id) > 0 :: ReturnedOwner(sys, id))
  }

  /** What one statement can change. */
  lemma StepChanges(sys: System, k: nat)
    requires k < |sys.callers|
    ensures var c := sys.callers[k];
      var sys' := Next(sys, k);
      && |sys'.callers| == |sys.callers| && sys'.deleted == sys.deleted
      && (forall l | 0 <= l < |sys.callers| && l != k :: sys'.callers[l] == sys.callers[l])
      && SameCaller(sys'.callers[k], c)
      && (c.phase.Returned? ==> sys'.callers[k] == c)
      && (sys'.rows == sys.rows
          || (c.phase == Missed && c.pair !in sys.rows && sys'.rows == sys.rows[c.pair := c.ownId]))
      && (sys'.welcomes == sys.welcomes
          || (c.phase == Welcoming && sys'.welcomes == sys.welcomes + [c.ownId] && sys'.callers[k].phase.Returned?))
  {
  }

  lemma OthersSee(sys: System, k: nat, l: nat)
    requires k < |sys.callers| && l < |sys.callers| && k != l
    requires sys.callers[k].ownId != sys.callers[l].ownId
    requires CallerSees(sys, sys.callers[l])
    ensures l < |Next(sys, k).callers| && CallerSees(Next(sys, k), Next(sys, k).callers[l])
  {
    hide Next;
    StepChanges(sys, k);
    WelcomedOnceMore(sys.welcomes, sys.callers[k].ownId, sys.callers[l].ownId);
  }

  lemma ItselfSees(sys: System, k: nat)
    requires k < |sys.callers| && CallerSees(sys, sys.callers[k])
    ensures k < |Next(sys, k).callers| && CallerSees(Next(sys, k), Next(sys, k).callers[k])
  {
    hide TimesWelcomed;
    WelcomedOnceMore(sys.welcomes, sys.callers[k].ownId, sys.callers[k].ownId);
  }

  lemma RowsOwned(sys: System, k: nat, p: RowKey)
    requires k < |sys.callers| && (p in sys.rows ==> OwnedBySomeone(sys, p))
    requires p in Next(sys, k).rows
    ensures OwnedBySomeone(Next(sys, k), p)
  {
    hide Next;
    StepChanges(sys, k);
    var sys' := Next(sys, k);
    if p in sys.rows {
      var l :| 0 <= l < |sys.callers| && sys.callers[l].pair == p && sys.callers[l].ownId == sys.rows[p];
      assert sys'.callers[l].pair == p && sys'.callers[l].ownId == sys'.rows[p];
    } else {
      assert sys'.callers[k].pair == p && sys'.callers[k].ownId == sys'.rows[p];
    }
  }

  lemma WelcomeOwned(sys: System, k: nat, id: nat)
    requires k < |sys.callers| && (TimesWelcomed(sys.welcomes, id) > 0 ==> ReturnedOwner(sys, id))
    requires TimesWelcomed(Next(sys, k).welcomes, id) > 0
    ensures ReturnedOwner(Next(sys, k), id)
  {
    hide Next;
    StepChanges(sys, k);
    var sys' := Next(sys, k);
    WelcomedOnceMore(sys.welcomes, sys.callers[k].ownId, id);
    if TimesWelcomed(sys.welcomes, id) > 0 {
      var l :| 0 <= l < |sys.callers| && sys.callers[l].ownId == id && sys.callers[l].phase.Returned?;
      assert sys'.callers[l].ownId == id && sys'.callers[l].phase.Returned?;
    } else {
      assert sys'.callers[k].ownId == id && sys'.callers[k].phase.Returned?;
    }
  }

  lemma StepKeeps(start: System, sys: System, k: nat)
    requires Fresh(start) && Invariant(start, sys)
    ensures Invariant(start, Next(sys, k))
  {
    if k < |sys.callers| {
      hide Next, CallerSees, OwnedBySomeone, ReturnedOwner;
      var sys' := Next(sys, k);
      StepChanges(sys, k);
      forall l | 0 <= l < |sys.callers|
        ensures SameCaller(sys'.callers[l], start.callers[l]) && CallerSees(sys', sys'.callers[l])
      {
        assert SameCaller(sys.callers[l], start.callers[l]) && SameCaller(sys.callers[k], start.callers[k]);
        if l == k { ItselfSees(sys, k); } else { OthersSee(sys, k, l); }
      }
      forall p | p in sys'.rows && p !in start.rows ensures OwnedBySomeone(sys', p) {
        RowsOwned(sys, k, p);
      }
      forall id | TimesWelcomed(sys'.welcomes, id) > 0 ensures ReturnedOwner(sys', id) {
        WelcomeOwned(sys, k, id);
      }
    }
  }

  lemma {:induction false} AlwaysKept(start: System, schedule: seq<nat>)
    requires Fresh(start)
    ensures Invariant(start, Run(start, schedule))
  {
    if schedule != [] {
      AlwaysKept(start, schedule[..|schedule| - 1]);
      StepKeeps(start, Run(start, schedule[..|schedule| - 1]), schedule[|schedule| - 1]);
    }
  }

  /** In every interleaving: callers for one pair get the same conversation, at most one of them is
      told it created it, and it is told so exactly when its own row is the one stored. */
  lemma RaceSafe(start: System, schedule: seq<nat>, k: nat, l: nat)
    requires Fresh(start) && k < |start.callers| && l < |start.callers|
    ensures var sys := Run(start, schedule);
      && |sys.callers| == |start.callers|
      && var c, d := sys.callers[k], sys.callers[l];
         (c.pair == d.pair && c.phase.Returned? && d.phase.Returned? ==>
            && c.pair in sys.rows && c.phase.id == d.phase.id == sys.rows[c.pair]
            && (c.phase.created && d.phase.created ==> k == l))
  {
    AlwaysKept(start, schedule);
    var sys := Run(start, schedule);
    assert SameCaller(sys.callers[k], start.callers[k]) && SameCaller(sys.callers[l], start.callers[l]);
    assert CallerSees(sys, sys.callers[k]) && CallerSees(sys, sys.callers[l]);
  }

  /** At any moment of any run: a conversation from before gets no welcome, a new one at most one, and it
      has got it exactly when the caller that created it has returned and was told so. */
  lemma {:induction false} OneWelcome(start: System, schedule: seq<nat>, pair: RowKey)
    requires Fresh(start) && pair in Run(start, schedule).rows
    ensures var sys := Run(start, schedule);
      var n := TimesWelcomed(sys.welcomes, sys.rows[pair]);
      && (pair in start.rows ==> n == 0)
      && (pair !in start.rows ==> n <= 1 && (n == 1 <==> CreatorReturned(sys, pair)))
  {
    hide Next, TimesWelcomed;
    AlwaysKept(start, schedule);
    var sys := Run(start, schedule);
    if pair in start.rows {
      forall k | 0 <= k < |sys.callers| ensures sys.callers[k].ownId != sys.rows[pair] {
        assert SameCaller(sys.callers[k], start.callers[k]);
      }
    } else {
      var k :| 0 <= k < |sys.callers| && sys.callers[k].pair == pair && sys.callers[k].ownId == sys.rows[pair];
      assert CallerSees(sys, sys.callers[k]);
      forall l |
        0 <= l < |sys.callers| && sys.callers[l].pair == pair && sys.callers[l].phase == Returned(sys.rows[pair], true)
        ensures l == k
      {
        assert CallerSees(sys, sys.callers[l]);
        assert SameCaller(sys.callers[k], start.callers[k]) && SameCaller(sys.callers[l], start.callers[l]);
      }
    }
  }

  /** Some caller was told that it created this pair's conversation. */
  ghost predicate CreatorReturned(sys: System, pair: RowKey)
    requires pair in sys.rows
  {
    exists k ::
      && 0 <= k < |sys.callers|
      && sys.callers[k].pair == pair && sys.callers[k].phase == Returned(sys.rows[pair], true)
  }

  /** When the callers of a pair have all returned, whatever became of the others, a conversation they
      created has its one welcome. */
  lemma {:induction false} WelcomedInTheEnd(start: System, schedule: seq<nat>, pair: RowKey)
    requires Fresh(start) && pair in Run(start, schedule).rows && pair !in start.rows
    requires var callers := Run(start, schedule).callers;
      forall k | 0 <= k < |callers| && callers[k].pair == pair :: callers[k].phase.Returned?
    ensures var sys := Run(start, schedule);
      TimesWelcomed(sys.welcomes, sys.rows[pair]) == 1 && CreatorReturned(sys, pair)
  {
    hide Next, TimesWelcomed;
    AlwaysKept(start, schedule);
    OneWelcome(start, schedule, pair);
    var sys := Run(start, schedule);
    var k :| 0 <= k < |sys.callers| && sys.callers[k].pair == pair && sys.callers[k].ownId == sys.rows[pair];
    assert CallerSees(sys, sys.callers[k]);
    assert sys.callers[k].phase == Returned(sys.rows[pair], true);
  }

  lemma RunsOn(sys: System, schedule: seq<nat>, k: nat)
    ensures Run(sys, schedule + [k]) == Next(Run(sys, schedule), k)
  {
    assert (schedule + [k])[..|schedule|] == schedule;
  }

  /** The welcome can be missing for good: the first caller inserts the row and stops before its
      message, and everyone after it is told that the conversation was there already. */
  lemma NeverWelcomed(pair: RowKey)
    ensures var start := System(map[], {}, [Caller(pair, 7, Started), Caller(pair, 8, Started)], []);
      && Fresh(start)
      && Run(start, [0, 0, 1])
         == System(map[pair := 7], {}, [Caller(pair, 7, Inserted), Caller(pair, 8, Returned(7, false))], [])
  {
    var start := System(map[], {}, [Caller(pair, 7, Started), Caller(pair, 8, Started)], []);
    RunsOn(start, [], 0);
    RunsOn(start, [0], 0);
    RunsOn(start, [0, 0], 1);
    assert [] + [0] == [0] && [0] + [0] == [0, 0] && [0, 0] + [1] == [0, 0, 1];
    var missed := System(map[], {}, [Caller(pair, 7, Missed), Caller(pair, 8, Started)], []);
    assert Next(start, 0) == missed;
    assert Next(missed, 0) == System(map[pair := 7], {}, [Caller(pair, 7, Inserted), Caller(pair, 8, Started)], []);
  }

  /** A caller that has not returned can take its next step, unless its row was soft-deleted: then its
      second fetch finds nothing, and the call throws. */
  lemma {:induction false} NextStepIff(start: System, schedule: seq<nat>, k: nat)
    requires Fresh(start) && k < |Run(start, schedule).callers|
    ensures var sys := Run(start, schedule);
      var c := sys.callers[k];
      |Next(sys, k).callers| == |sys.callers|
      && (Next(sys, k).callers[k] != c <==> !c.phase.Returned? && !(c.phase == Inserted && c.pair in start.deleted))
  {
    AlwaysKept(start, schedule);
    assert CallerSees(Run(start, schedule), Run(start, schedule).callers[k]);
  }

  function Turns(schedule: seq<nat>, k: nat): nat {
    if schedule == [] then 0
    else Turns(schedule[..|schedule| - 1], k) + if schedule[|schedule| - 1] == k then 1 else 0
  }

  /** Turns a caller still needs, at most. */
  function Left(p: Phase): nat {
    match p
    case Started => 4
    case Missed => 3
    case Inserted => 2
    case Welcoming => 1
    case Returned(_, _) => 0
  }

  lemma OneTurnLess(start: System, sys: System, k: nat, turn: nat)
    requires Invariant(start, sys) && k < |sys.callers| && sys.callers[k].pair !in start.deleted
    ensures |Next(sys, turn).callers| == |sys.callers|
    ensures var before, after := Left(sys.callers[k].phase), Left(Next(sys, turn).callers[k].phase);
      && after <= before
      && (turn == k && before > 0 ==> after < before)
  {
    assert CallerSees(sys, sys.callers[k]);
  }

  /** However the others are scheduled, and wherever they stop, four turns bring a caller home, unless its
      conversation was soft-deleted. */
  lemma {:induction false} FourTurnsAreEnough(start: System, schedule: seq<nat>, k: nat)
    requires Fresh(start) && k < |start.callers| && start.callers[k].pair !in start.deleted
    ensures var sys := Run(start, schedule);
      && |sys.callers| == |start.callers|
      && (sys.callers[k].phase.Returned? || Left(sys.callers[k].phase) + Turns(schedule, k) <= 4)
      && (Turns(schedule, k) >= 4 ==> sys.callers[k].phase.Returned?)
  {
    if schedule != [] {
      var init, turn := schedule[..|schedule| - 1], schedule[|schedule| - 1];
      FourTurnsAreEnough(start, init, k);
      AlwaysKept(start, init);
      var sys := Run(start, init);
      assert SameCaller(sys.callers[k], start.callers[k]);
      hide Next, Invariant;
      OneTurnLess(start, sys, k, turn);
    }
  }
}
