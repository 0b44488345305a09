/**
 * The timer scheduler of sdk/Private/Tools/Timer.cpp, without its detached threads. One list holds
 * every timer and one update walks it; each timer must behave as if it were alone.
 */
module Timer {
  import opened Wrappers

  /** Seconds. */
  type Time = real

  /** The `id` stands for the callback object a registration owns. */
  datatype TimerFunc = TimerFunc(id: nat, nextTime: Time, execOnce: bool, executionCounter: int,
                                 executionInterval: Time)

  datatype Run = Run(id: nat, at: Time)

  // ----- one timer on its own -----

  predicate Strikes(t: TimerFunc, now: Time) {
    now >= t.nextTime && (t.execOnce || t.executionCounter > 0 || t.executionCounter == -1)
  }

  /** The timer once an update has looked at it; a one-shot that ran is gone. */
  function Next(t: TimerFunc, now: Time): Option<TimerFunc> {
    if !Strikes(t, now) then Some(t)
    else if t.execOnce then None
    else Some(t.(executionCounter := if t.executionCounter > 0 then t.executionCounter - 1 else -1,
                 nextTime := now + t.executionInterval))
  }

  /** The times at which a timer alone runs, given the times of the updates. */
  function Fires(t: Option<TimerFunc>, ticks: seq<Time>): seq<Time>
    decreases |ticks|
  {
    if t.None? || ticks == [] then []
    else
      var rest := Fires(Next(t.value, ticks[0]), ticks[1..]);
      if Strikes(t.value, ticks[0]) then [ticks[0]] + rest else rest
  }

  function After(t: Option<TimerFunc>, ticks: seq<Time>): Option<TimerFunc>
    decreases |ticks|
  {
    if t.None? || ticks == [] then t else After(Next(t.value, ticks[0]), ticks[1..])
  }

  /** Nothing is left to run. */
  predicate IsOver(t: Option<TimerFunc>) {
    t.None? || (!t.value.execOnce && t.value.executionCounter == 0)
  }

  lemma {:induction false} OneMoreTick(t: Option<TimerFunc>, ticks: seq<Time>, now: Time)
    ensures var u := After(t, ticks);
            After(t, ticks + [now]) == (if u.None? then None else Next(u.value, now)) &&
            Fires(t, ticks + [now])
            == if u.Some? && Strikes(u.value, now) then Fires(t, ticks) + [now] else Fires(t, ticks)
    decreases |ticks|
  {
    if t.None? {
    } else if ticks == [] {
      assert ([] + [now])[1..] == [];
    } else {
      OneMoreTick(Next(t.value, ticks[0]), ticks[1..], now);
      assert (ticks + [now])[1..] == ticks[1..] + [now];
    }
  }

  predicate IsFirstDue(ticks: seq<Time>, due: Time, i: nat) {
    i < |ticks| && ticks[i] >= due && forall j :: 0 <= j < i ==> ticks[j] < due
  }

  /** A one-shot runs exactly once, at the first update that is not before its due time. */
  lemma {:induction false} OneShotFiresOnce(t: TimerFunc, ticks: seq<Time>)
    requires t.execOnce
    ensures (forall i :: 0 <= i < |ticks| ==> ticks[i] < t.nextTime) ==> Fires(Some(t), ticks) == []
    ensures Fires(Some(t), ticks) == [] ==> forall i :: 0 <= i < |ticks| ==> ticks[i] < t.nextTime
    ensures forall i: nat :: IsFirstDue(ticks, t.nextTime, i) ==> Fires(Some(t), ticks) == [ticks[i]]
    ensures After(Some(t), ticks) == if Fires(Some(t), ticks) == [] then Some(t) else None
  {
    if ticks != [] && ticks[0] < t.nextTime {
      var rest := ticks[1..];
      OneShotFiresOnce(t, rest);
      forall i: nat | IsFirstDue(ticks, t.nextTime, i)
        ensures Fires(Some(t), ticks) == [ticks[i]]
      {
        assert forall j :: 0 <= j < i - 1 ==> rest[j] == ticks[j + 1];
        assert IsFirstDue(rest, t.nextTime, i - 1);
      }
    }
  }

  /** The same about the first update that comes at or after the due time. */
  lemma OneShotFiresAt(t: TimerFunc, ticks: seq<Time>, i: nat)
    requires t.execOnce && i < |ticks| && ticks[i] >= t.nextTime && forall j :: 0 <= j < i ==> ticks[j] < t.nextTime
    ensures Fires(Some(t), ticks) == [ticks[i]]
  {
    OneShotFiresOnce(t, ticks);
    assert IsFirstDue(ticks, t.nextTime, i);
  }

  /** A counted timer has run exactly as often as its counter has gone down, so never too often. */
  lemma {:induction false} CounterIsSpent(t: TimerFunc, ticks: seq<Time>)
    requires !t.execOnce && t.executionCounter >= 0
    ensures After(Some(t), ticks).Some? && !After(Some(t), ticks).value.execOnce
    ensures After(Some(t), ticks).value.executionCounter == t.executionCounter - |Fires(Some(t), ticks)| >= 0
    decreases |ticks|
  {
    if ticks != [] {
      CounterIsSpent(Next(t, ticks[0]).value, ticks[1..]);
    }
  }

  /** An unlimited timer stays unlimited. */
  lemma {:induction false} UnlimitedStays(t: TimerFunc, ticks: seq<Time>)
    requires !t.execOnce && t.executionCounter == -1
    ensures After(Some(t), ticks).Some? && !After(Some(t), ticks).value.execOnce
    ensures After(Some(t), ticks).value.executionCounter == -1
    decreases |ticks|
  {
    if ticks != [] {
      UnlimitedStays(Next(t, ticks[0]).value, ticks[1..]);
    }
  }

  /** A counter below minus one never lets the timer run, and never changes. */
  lemma {:induction false} OtherNegativesNeverFire(t: TimerFunc, ticks: seq<Time>)
    requires !t.execOnce && t.executionCounter < -1
    ensures Fires(Some(t), ticks) == [] && After(Some(t), ticks) == Some(t)
  {
    if ticks != [] {
      OtherNegativesNeverFire(t, ticks[1..]);
    }
  }

  /** Runs are never early and at least an interval apart. */
  lemma {:induction false} RunsAreApart(t: TimerFunc, ticks: seq<Time>)
    requires !t.execOnce
    ensures var f := Fires(Some(t), ticks);
            (f != [] ==> f[0] >= t.nextTime) &&
            forall j :: 0 < j < |f| ==> f[j] >= f[j - 1] + t.executionInterval
    decreases |ticks|
  {
    if ticks != [] {
      var u := Next(t, ticks[0]).value;
      RunsAreApart(u, ticks[1..]);
    }
  }

  /** Nor late: with runs left, an update at or after the due time always runs the timer. */
  lemma RunsWhenDue(t: TimerFunc, ticks: seq<Time>, now: Time)
    requires !t.execOnce && t.executionCounter >= -1
    requires |Fires(Some(t), ticks)| < t.executionCounter || t.executionCounter == -1
    ensures After(Some(t), ticks).Some?
    ensures now >= After(Some(t), ticks).value.nextTime <==>
            Fires(Some(t), ticks + [now]) == Fires(Some(t), ticks) + [now]
    ensures After(Some(t), ticks).value.nextTime
            == if Fires(Some(t), ticks) == [] then t.nextTime else Last(Fires(Some(t), ticks)) + t.executionInterval
  {
    if t.executionCounter == -1 { UnlimitedStays(t, ticks); } else { CounterIsSpent(t, ticks); }
    OneMoreTick(Some(t), ticks, now);
    DueAfterLast(t, ticks);
    assert |Fires(Some(t), ticks) + [now]| == |Fires(Some(t), ticks)| + 1;
  }

  function Last(s: seq<Time>): Time
    requires s != []
  {
    s[|s| - 1]
  }

  lemma {:induction false} DueAfterLast(t: TimerFunc, ticks: seq<Time>)
    requires !t.execOnce
    ensures var u := After(Some(t), ticks);
            u.Some? && u.value.executionInterval == t.executionInterval &&
            u.value.nextTime
            == if Fires(Some(t), ticks) == [] then t.nextTime else Last(Fires(Some(t), ticks)) + t.executionInterval
    decreases |ticks|
  {
    if ticks != [] {
      DueAfterLast(Next(t, ticks[0]).value, ticks[1..]);
    }
  }

  // ----- the list -----

  /** A timer after the walk and before the sweep: a one-shot that ran is still there. */
  function Walked(t: TimerFunc, now: Time): TimerFunc {
    if Next(t, now).Some? then Next(t, now).value else t
  }

  function AllWalked(s: seq<TimerFunc>, now: Time): seq<TimerFunc> {
    seq(|s|, i requires 0 <= i < |s| => Walked(s[i], now))
  }

  predicate AsksForSweep(t: TimerFunc, now: Time) {
    now >= t.nextTime && (t.execOnce || (t.executionCounter <= 0 && t.executionCounter != -1))
  }

  predicate IsSwept(t: TimerFunc, now: Time) {
    (now >= t.nextTime && t.execOnce) || (!t.execOnce && t.executionCounter == 0)
  }

  function Swept(s: seq<TimerFunc>, now: Time): seq<TimerFunc> {
    if s == [] then []
    else if IsSwept(s[0], now) then Swept(s[1..], now) else [s[0]] + Swept(s[1..], now)
  }

  function RunsIn(s: seq<TimerFunc>, now: Time, n: nat): seq<Run>
    requires n <= |s|
  {
    if n == 0 then []
    else if Strikes(s[n - 1], now) then RunsIn(s, now, n - 1) + [Run(s[n - 1].id, now)] else RunsIn(s, now, n - 1)
  }

  /** Within one update callbacks run in the order of the list: each that is due, right after those before it. */
  lemma {:induction false} RunsFollowList(s: seq<TimerFunc>, now: Time, i: nat, n: nat)
    requires i < n <= |s|
    ensures RunsIn(s, now, i) <= RunsIn(s, now, n)
    ensures if now >= s[i].nextTime && (s[i].execOnce || s[i].executionCounter > 0 || s[i].executionCounter == -1)
            then |RunsIn(s, now, i)| < |RunsIn(s, now, n)| &&
                 RunsIn(s, now, n)[|RunsIn(s, now, i)|] == Run(s[i].id, now)
            else RunsIn(s, now, i + 1) == RunsIn(s, now, i)
    decreases n
  {
    if i < n - 1 { RunsFollowList(s, now, i, n - 1); }
  }

  function RunsOf(log: seq<Run>, id: nat): seq<Time> {
    if log == [] then []
    else
      var n := |log| - 1;
      if log[n].id == id then RunsOf(log[..n], id) + [log[n].at] else RunsOf(log[..n], id)
  }

  /** A registration: the timer as it began, and the updates there have been since. */
  datatype Life = Life(first: TimerFunc, ticks: seq<Time>)

  predicate Ascends(s: seq<TimerFunc>) {
    forall i, j :: 0 <= i < j < |s| ==> s[i].id < s[j].id
  }

  predicate IsListed(s: seq<TimerFunc>, id: nat) {
    exists i :: 0 <= i < |s| && s[i].id == id
  }

  /** Every registration behaves as its timer alone would, whether still listed or swept away. */
  ghost predicate IsFaithful(s: seq<TimerFunc>, log: seq<Run>, lives: seq<Life>) {
    Ascends(s) && (forall i :: 0 <= i < |s| ==> s[i].id < |lives|) &&
    (forall i :: 0 <= i < |s| ==> After(Some(lives[s[i].id].first), lives[s[i].id].ticks) == Some(s[i])) &&
    (forall id :: 0 <= id < |lives| && !IsListed(s, id) ==> IsOver(After(Some(lives[id].first), lives[id].ticks))) &&
    (forall id :: 0 <= id < |lives| ==>
       lives[id].first.id == id && RunsOf(log, id) == Fires(Some(lives[id].first), lives[id].ticks)) &&
    (forall k :: 0 <= k < |log| ==> log[k].id < |lives|)
  }

  function Ticked(lives: seq<Life>, now: Time): seq<Life> {
    seq(|lives|, i requires 0 <= i < |lives| => lives[i].(ticks := lives[i].ticks + [now]))
  }

  lemma {:induction false} RunsOfMore(log: seq<Run>, more: seq<Run>, id: nat)
    ensures RunsOf(log + more, id) == RunsOf(log, id) + RunsOf(more, id)
  {
    if more == [] {
      assert log + more == log;
    } else {
      var n := |more| - 1;
      RunsOfMore(log, more[..n], id);
      assert (log + more)[..|log| + n] == log + more[..n];
    }
  }

  /** In one walk a timer runs at most once, and exactly when it strikes. */
  lemma {:induction false} RunsInOne(s: seq<TimerFunc>, now: Time, n: nat, i: nat)
    requires n <= |s| && Ascends(s) && i < |s|
    ensures RunsOf(RunsIn(s, now, n), s[i].id) == if i < n && Strikes(s[i], now) then [now] else []
  {
    if n > 0 {
      RunsInOne(s, now, n - 1, i);
      var before := RunsIn(s, now, n - 1);
      if Strikes(s[n - 1], now) {
        assert (before + [Run(s[n - 1].id, now)])[..|before|] == before;
      }
    }
  }

  lemma {:induction false} RunsInNone(s: seq<TimerFunc>, now: Time, n: nat, id: nat)
    requires n <= |s| && forall i :: 0 <= i < |s| ==> s[i].id != id
    ensures RunsOf(RunsIn(s, now, n), id) == []
  {
    if n > 0 {
      RunsInNone(s, now, n - 1, id);
      var before := RunsIn(s, now, n - 1);
      if Strikes(s[n - 1], now) {
        assert (before + [Run(s[n - 1].id, now)])[..|before|] == before;
      }
    }
  }

  lemma {:induction false} RunsInListed(s: seq<TimerFunc>, now: Time, n: nat, bound: nat)
    requires n <= |s| && forall i :: 0 <= i < |s| ==> s[i].id < bound
    ensures forall k :: 0 <= k < |RunsIn(s, now, n)| ==> RunsIn(s, now, n)[k].id < bound
  {
    if n > 0 { RunsInListed(s, now, n - 1, bound); }
  }

  lemma {:induction false} SweptMembers(s: seq<TimerFunc>, now: Time)
    ensures forall t :: t in Swept(s, now) <==> t in s && !IsSwept(t, now)
  {
    hide IsSwept;
    if s != [] {
      assert s == [s[0]] + s[1..];
      SweptMembers(s[1..], now);
    }
  }

  lemma AscendingTail(s: seq<TimerFunc>)
    requires Ascends(s) && s != []
    ensures Ascends(s[1..]) && forall t :: t in s[1..] ==> s[0].id < t.id
  {
    var rest := s[1..];
    forall t | t in rest
      ensures s[0].id < t.id
    {
      var i :| 0 <= i < |rest| && rest[i] == t;
      assert s[i + 1] == t;
    }
  }

  lemma PrependAscends(t: TimerFunc, s: seq<TimerFunc>)
    requires Ascends(s) && forall u :: u in s ==> t.id < u.id
    ensures Ascends([t] + s)
  {
  }

  lemma NoneAscend()
    ensures Ascends([])
  {
  }

  lemma {:induction false} SweptKeeps(s: seq<TimerFunc>, now: Time)
    requires Ascends(s)
    ensures forall t :: t in Swept(s, now) <==> t in s && !IsSwept(t, now)
    ensures Ascends(Swept(s, now))
  {
    hide IsSwept, Ascends;
    SweptMembers(s, now);
    NoneAscend();
    if s != [] {
      AscendingTail(s);
      SweptKeeps(s[1..], now);
      if !IsSwept(s[0], now) { PrependAscends(s[0], Swept(s[1..], now)); }
    }
  }

  /** What an update leaves in the list. */
  function Updated(s: seq<TimerFunc>, now: Time): seq<TimerFunc> {
    if exists i :: 0 <= i < |s| && AsksForSweep(s[i], now) then Swept(AllWalked(s, now), now) else AllWalked(s, now)
  }

  /** What the walk and the sweep together make of one timer. */
  lemma WalkedIsNext(t: TimerFunc, now: Time)
    ensures Walked(t, now).id == t.id
    ensures Next(t, now).Some? ==> Next(t, now) == Some(Walked(t, now))
    ensures Next(t, now).None? ==> AsksForSweep(t, now) && IsSwept(Walked(t, now), now)
    ensures IsSwept(Walked(t, now), now) ==> IsOver(Next(t, now))
  {
  }

  lemma WalkedAscends(s: seq<TimerFunc>, now: Time)
    requires Ascends(s)
    ensures Ascends(AllWalked(s, now))
  {
    hide Walked;
    forall i | 0 <= i < |s|
      ensures AllWalked(s, now)[i].id == s[i].id
    {
      WalkedIsNext(s[i], now);
    }
  }

  lemma MemberIsListed(s: seq<TimerFunc>, t: TimerFunc)
    ensures t in s ==> IsListed(s, t.id)
  {
  }

  /** An update keeps a timer exactly as it would be alone, and drops only timers that are over. */
  lemma UpdatedKeeps(s: seq<TimerFunc>, now: Time)
    requires Ascends(s)
    ensures Ascends(Updated(s, now))
    ensures forall t :: t in Updated(s, now) ==>
            exists i :: 0 <= i < |s| && s[i].id == t.id && Next(s[i], now) == Some(t)
    ensures forall i :: 0 <= i < |s| && !IsListed(Updated(s, now), s[i].id) ==> IsOver(Next(s[i], now))
  {
    hide Walked, Next, IsSwept, AsksForSweep, Swept, IsOver, Ascends;
    var walked, after := AllWalked(s, now), Updated(s, now);
    WalkedAscends(s, now);
    SweptKeeps(walked, now);
    forall t | t in after
      ensures exists i :: 0 <= i < |s| && s[i].id == t.id && Next(s[i], now) == Some(t)
    {
      assert t in walked;
      var i :| 0 <= i < |walked| && walked[i] == t;
      WalkedIsNext(s[i], now);
    }
    forall i | 0 <= i < |s| && !IsListed(after, s[i].id)
      ensures IsOver(Next(s[i], now))
    {
      WalkedIsNext(s[i], now);
      assert walked[i] in walked;
      MemberIsListed(after, walked[i]);
    }
  }

  /** One more update of the whole list is one more tick in every life. */
  lemma TickInLife(s: seq<TimerFunc>, log: seq<Run>, lives: seq<Life>, now: Time, id: nat)
    requires IsFaithful(s, log, lives) && id < |lives|
    ensures RunsOf(log + RunsIn(s, now, |s|), id) == Fires(Some(lives[id].first), lives[id].ticks + [now])
    ensures IsListed(s, id) ==>
              exists i :: 0 <= i < |s| && s[i].id == id &&
                          After(Some(lives[id].first), lives[id].ticks + [now]) == Next(s[i], now)
    ensures !IsListed(s, id) ==> IsOver(After(Some(lives[id].first), lives[id].ticks + [now]))
  {
    hide Fires, After, RunsOf, RunsIn;
    OneMoreTick(Some(lives[id].first), lives[id].ticks, now);
    RunsOfMore(log, RunsIn(s, now, |s|), id);
    if IsListed(s, id) {
      var i :| 0 <= i < |s| && s[i].id == id;
      RunsInOne(s, now, |s|, i);
    } else {
      RunsInNone(s, now, |s|, id);
    }
  }

  lemma UpdateIsFaithful(s: seq<TimerFunc>, log: seq<Run>, lives: seq<Life>, now: Time)
    requires IsFaithful(s, log, lives)
    ensures IsFaithful(Updated(s, now), log + RunsIn(s, now, |s|), Ticked(lives, now))
  {
    hide Fires, After, RunsOf, Updated, Next;
    var after, more := Updated(s, now), Ticked(lives, now);
    UpdatedKeeps(s, now);
    RunsInListed(s, now, |s|, |lives|);
    forall id: nat | id < |lives|
      ensures RunsOf(log + RunsIn(s, now, |s|), id) == Fires(Some(more[id].first), more[id].ticks)
      ensures !IsListed(after, id) ==> IsOver(After(Some(more[id].first), more[id].ticks))
    {
      TickInLife(s, log, lives, now, id);
    }
    forall i | 0 <= i < |after|
      ensures after[i].id < |lives| && After(Some(more[after[i].id].first), more[after[i].id].ticks) == Some(after[i])
    {
      assert after[i] in after;
      var k :| 0 <= k < |s| && s[k].id == after[i].id && Next(s[k], now) == Some(after[i]);
      TickInLife(s, log, lives, now, s[k].id);
    }
  }

  lemma NewLifeIsFaithful(s: seq<TimerFunc>, log: seq<Run>, lives: seq<Life>, t: TimerFunc)
    requires IsFaithful(s, log, lives) && t.id == |lives|
    ensures IsFaithful(s + [t], log, lives + [Life(t, [])])
  {
    var more := lives + [Life(t, [])];
    forall id | 0 <= id < |more| && !IsListed(s + [t], id)
      ensures id < |lives| && !IsListed(s, id)
    {
      assert (s + [t])[|s|] == t;
      assert forall i :: 0 <= i < |s| ==> (s + [t])[i] == s[i];
    }
    NoRunsYet(log, |lives|);
  }

  lemma {:induction false} NoRunsYet(log: seq<Run>, id: nat)
    requires forall k :: 0 <= k < |log| ==> log[k].id < id
    ensures RunsOf(log, id) == []
  {
    if log != [] { NoRunsYet(log[..|log| - 1], id); }
  }

  class Timer {
    var timerFuncs: seq<TimerFunc>
    var log: seq<Run>              // the callbacks run so far
    var registered: nat
    ghost var lives: seq<Life>     // every registration ever made

    ghost predicate Valid()
      reads this
    {
      IsFaithful(timerFuncs, log, lives) && registered == |lives|
    }

    constructor ()
      ensures Valid() && timerFuncs == [] && log == [] && lives == []
    {
      timerFuncs, log, lives, registered := [], [], [], 0;
    }

    method DelayExecute(now: Time, delay: Time)
      requires Valid()
      modifies this
      ensures Valid() && log == old(log)
      ensures lives == old(lives) + [Life(TimerFunc(|old(lives)|, now + delay, true, 1, 0.0), [])]
    {
      Register(TimerFunc(registered, now + delay, true, 1, 0.0));
    }

    method RecurringExecute(now: Time, interval: Time, counter: int)
      requires Valid()
      modifies this
      ensures Valid() && log == old(log)
      ensures lives == old(lives) + [Life(TimerFunc(|old(lives)|, now, false, counter, interval), [])]
    {
      Register(TimerFunc(registered, now, false, counter, interval));
    }

    method Register(t: TimerFunc)
      requires Valid() && t.id == registered
      modifies this
      ensures Valid() && log == old(log)
      ensures timerFuncs == old(timerFuncs) + [t] && lives == old(lives) + [Life(t, [])]
    {
      NewLifeIsFaithful(timerFuncs, log, lives, t);
      timerFuncs := timerFuncs + [t];
      lives := lives + [Life(t, [])];
      registered := registered + 1;
    }

    method Update(now: Time)
      requires Valid()
      modifies this
      ensures Valid() && lives == Ticked(old(lives), now)
      ensures timerFuncs == Updated(old(timerFuncs), now)
      ensures log == old(log) + RunsIn(old(timerFuncs), now, |old(timerFuncs)|)
    {
      hide IsFaithful, Swept, RunsIn, Walked, AsksForSweep;
      ghost var s := timerFuncs;
      UpdateIsFaithful(s, log, lives, now);
      lives := Ticked(lives, now);
      NoRunsIn(s, now);
      if timerFuncs == [] {
        assert Updated(s, now) == s && log + RunsIn(s, now, |s|) == log;
        return;
      }
      var remove := Walk(now);
      if remove {
        timerFuncs := Sweep(timerFuncs, now);
      }
    }

    /** The loop over the list: due timers run, their counters and due times move on. */
    method Walk(now: Time) returns (remove: bool)
      modifies this`timerFuncs, this`log
      ensures timerFuncs == AllWalked(old(timerFuncs), now)
      ensures log == old(log) + RunsIn(old(timerFuncs), now, |old(timerFuncs)|)
      ensures remove == exists i :: 0 <= i < |old(timerFuncs)| && AsksForSweep(old(timerFuncs)[i], now)
    {
      remove := false;
      ghost var s := timerFuncs;
      for i := 0 to |timerFuncs|
        invariant |timerFuncs| == |s|
        invariant forall k :: 0 <= k < |s| ==> timerFuncs[k] == if k < i then Walked(s[k], now) else s[k]
        invariant log == old(log) + RunsIn(s, now, i)
        invariant remove == exists k :: 0 <= k < i && AsksForSweep(s[k], now)
      {
        var data := timerFuncs[i];
        if now >= data.nextTime {
          if data.execOnce {
            remove := true;
          } else {
            if data.executionCounter > 0 {
              data := data.(executionCounter := data.executionCounter - 1);
            } else if data.executionCounter != -1 {
              remove := true;
              continue;
            }
            data := data.(nextTime := now + data.executionInterval);
            timerFuncs := timerFuncs[i := data];
          }
          log := log + [Run(data.id, now)];
        }
      }
    }

    /** A registered one-shot is still listed or has run; an unlimited timer is listed for ever. */
    lemma NothingIsLost(id: nat)
      requires Valid() && id < |lives|
      ensures lives[id].first.execOnce ==> IsListed(timerFuncs, id) || RunsOf(log, id) != []
      ensures !lives[id].first.execOnce && lives[id].first.executionCounter > |RunsOf(log, id)| ==>
              IsListed(timerFuncs, id)
      ensures !lives[id].first.execOnce && lives[id].first.executionCounter < 0 ==> IsListed(timerFuncs, id)
    {
      hide Fires, After, RunsOf, Ascends;
      var t, ticks := lives[id].first, lives[id].ticks;
      if t.execOnce {
        OneShotFiresOnce(t, ticks);
      } else if t.executionCounter >= 0 {
        CounterIsSpent(t, ticks);
      } else if t.executionCounter == -1 {
        UnlimitedStays(t, ticks);
      } else {
        OtherNegativesNeverFire(t, ticks);
      }
    }
  }

  lemma NoRunsIn(s: seq<TimerFunc>, now: Time)
    ensures RunsIn(s, now, 0) == [] && Swept([], now) == []
  {
  }

  method Sweep(s: seq<TimerFunc>, now: Time) returns (kept: seq<TimerFunc>)
    ensures kept == Swept(s, now)
  {
    hide IsSwept, Swept;
    kept := [];
    SweptEnds(s, now);
    for i := 0 to |s|
      invariant kept + Swept(s[i..], now) == Swept(s, now)
    {
      SweptStep(s, now, i);
      if !IsSwept(s[i], now) {
        kept := kept + [s[i]];
      }
    }
  }

  lemma SweptStep(s: seq<TimerFunc>, now: Time, i: nat)
    requires i < |s|
    ensures Swept(s[i..], now) == if IsSwept(s[i], now) then Swept(s[i + 1..], now) else [s[i]] + Swept(s[i + 1..], now)
  {
    assert s[i..][1..] == s[i + 1..];
  }

  lemma SweptEnds(s: seq<TimerFunc>, now: Time)
    ensures Swept(s[|s|..], now) == [] && s[0..] == s
  {
  }
}
