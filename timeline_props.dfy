/** What the aggregator computes, stated without the aggregator: each
    philosopher's record depends only on that philosopher's own events, and
    each of its fields is characterised by a definition over those events. */
module TimelineProps {
  import opened Wrappers
  import opened LogGrammar
  import opened Timeline

  // ---------------------------------------------------------------------
  // Projections of the log

  /** The events of the matching lines, in log order. */
  function Events(logs: seq<string>): seq<Event> {
    if logs == [] then []
    else
      var init := Events(logs[..|logs| - 1]);
      match Decode(logs[|logs| - 1])
      case None => init
      case Some(e) => init + [e]
  }

  /** The events of one philosopher, in log order. */
  function ActorEvents(logs: seq<string>, id: nat): seq<Event> {
    if logs == [] then []
    else
      var init := ActorEvents(logs[..|logs| - 1], id);
      match Decode(logs[|logs| - 1])
      case None => init
      case Some(e) => if e.id == id then init + [e] else init
  }

  /** A record built from the default one by a philosopher's own events alone. */
  function FoldActor(evs: seq<Event>): Philo {
    if evs == [] then Fresh() else Update(FoldActor(evs[..|evs| - 1]), evs[|evs| - 1])
  }

  /** A philosopher is in the table exactly when one of its lines matched, and
      its record is the fold of its own events: the lines of the other
      philosophers and the lines that do not match have no effect on it. */
  lemma {:induction false} AggregateByActor(logs: seq<string>, id: nat)
    ensures id in Aggregate(logs).data <==> ActorEvents(logs, id) != []
    ensures id in Aggregate(logs).data ==> Aggregate(logs).data[id] == FoldActor(ActorEvents(logs, id))
  {
    if logs != [] {
      var init := logs[..|logs| - 1];
      AggregateByActor(init, id);
      match Decode(logs[|logs| - 1]) {
        case None =>
        case Some(e) =>
          ApplyEffect(Aggregate(init), e);
          if e.id == id {
            var evs := ActorEvents(init, id);
            assert (evs + [e])[..|evs|] == evs;
          }
      }
    }
  }

  // ---------------------------------------------------------------------
  // One line at a time

  /** A line that does not match leaves the table as it is. A matching line
      changes its own philosopher's record only: each counter but its
      action's is kept, its action's grows by one, and the cursor moves to it. */
  lemma StepEffect(t: Table, line: string)
    requires Valid(t)
    ensures Decode(line).None? ==> Step(t, line) == t
    ensures Decode(line).Some? ==>
      var e, r := Decode(line).value, Step(t, line);
      r.data.Keys == t.data.Keys + {e.id} &&
      (forall id :: id in t.data && id != e.id ==> r.data[id] == t.data[id]) &&
      (forall a :: Count(r.data[e.id], a) == Count(Record(t, e.id), a) + (if a == e.action then 1 else 0)) &&
      r.data[e.id].lastAction == Some(e.action) && r.data[e.id].lastActionTime == e.time
  {
    if Decode(line).Some? {
      ApplyEffect(t, Decode(line).value);
    }
  }

  lemma ApplyEffect(t: Table, e: Event)
    requires Valid(t)
    ensures var r := Apply(t, e);
      r.data.Keys == t.data.Keys + {e.id} &&
      (forall id :: id in t.data && id != e.id ==> r.data[id] == t.data[id]) &&
      (forall a :: Count(r.data[e.id], a) == Count(Record(t, e.id), a) + (if a == e.action then 1 else 0)) &&
      r.data[e.id].lastAction == Some(e.action) && r.data[e.id].lastActionTime == e.time
  {
    UpdateCounts(Record(t, e.id), e);
  }

  lemma UpdateCounts(p: Philo, e: Event)
    ensures forall a :: Count(Update(p, e), a) == Count(p, a) + (if a == e.action then 1 else 0)
  {
  }

  /** The duration fields only move when the previous action of the same
      philosopher was an eat or a sleep: then the shortest and longest of
      that action take the time since it started into account. */
  lemma UpdateDurations(p: Philo, e: Event)
    ensures var r, d := Update(p, e), e.time - p.lastActionTime;
      (p.lastAction == Some(Eat) ==> r.shortEat == Min(p.shortEat, d) && r.longEat == Max(p.longEat, d)) &&
      (p.lastAction != Some(Eat) ==> r.shortEat == p.shortEat && r.longEat == p.longEat) &&
      (p.lastAction == Some(Sleep) ==> r.shortSleep == Min(p.shortSleep, d) && r.longSleep == Max(p.longSleep, d)) &&
      (p.lastAction != Some(Sleep) ==> r.shortSleep == p.shortSleep && r.longSleep == p.longSleep)
  {
  }

  /** The longest time without eating never decreases; an eat records the gap
      since the previous meal and becomes the last meal; a death records the
      time since the last meal. */
  lemma UpdateMeals(p: Philo, e: Event)
    ensures var r := Update(p, e);
      r.maxTimeNoEat >= p.maxTimeNoEat &&
      (e.action == Eat ==> r.maxTimeNoEat == Max(p.maxTimeNoEat, e.time - p.lastMeal) && r.lastMeal == e.time) &&
      (e.action != Eat ==> r.maxTimeNoEat == p.maxTimeNoEat && r.lastMeal == p.lastMeal) &&
      (e.action == Died ==> r.timeToDie == e.time - p.lastMeal) &&
      (e.action != Died ==> r.timeToDie == p.timeToDie)
  {
  }

  // ---------------------------------------------------------------------
  // Reference definitions over one philosopher's events

  /** How many of the events are the given action. */
  function Tally(evs: seq<Event>, a: Action): nat {
    if evs == [] then 0 else (if evs[0].action == a then 1 else 0) + Tally(evs[1..], a)
  }

  /** For each event of the given action that has a next event, the time
      from it to that next event: how long the action lasted. */
  function Durations(evs: seq<Event>, a: Action): seq<int> {
    if |evs| < 2 then []
    else (if evs[0].action == a then [evs[1].time - evs[0].time] else []) + Durations(evs[1..], a)
  }

  /** The timestamps of the meals. */
  function MealTimes(evs: seq<Event>): seq<nat> {
    if evs == [] then [] else (if evs[0].action == Eat then [evs[0].time] else []) + MealTimes(evs[1..])
  }

  /** The gaps between consecutive meals, the first one measured from 0. */
  function Gaps(ts: seq<nat>): seq<int> {
    seq(|ts|, k requires 0 <= k < |ts| => ts[k] as int - (if k == 0 then 0 else ts[k - 1]))
  }

  /** The time of the last meal, 0 before the first. */
  function LastMeal(evs: seq<Event>): nat {
    var ts := MealTimes(evs);
    if ts == [] then 0 else ts[|ts| - 1]
  }

  /** `x` is the smallest of `ds`, or the sentinel when none is smaller. */
  ghost predicate IsShortest(x: int, ds: seq<int>) {
    x <= Sentinel && (forall d :: d in ds ==> x <= d) && (x == Sentinel || x in ds)
  }

  /** `x` is the largest of `ds`, or 0 when none is larger. */
  ghost predicate IsLongest(x: int, ds: seq<int>) {
    0 <= x && (forall d :: d in ds ==> d <= x) && (x == 0 || x in ds)
  }

  lemma {:induction false} TallyAppend(evs: seq<Event>, e: Event, a: Action)
    ensures Tally(evs + [e], a) == Tally(evs, a) + (if e.action == a then 1 else 0)
  {
    if evs == [] {
      assert [e][1..] == [];
    } else {
      assert (evs + [e])[1..] == evs[1..] + [e];
      TallyAppend(evs[1..], e, a);
    }
  }

  lemma {:induction false} DurationsAppend(evs: seq<Event>, e: Event, a: Action)
    requires evs != []
    ensures Durations(evs + [e], a) ==
      Durations(evs, a) + (if evs[|evs| - 1].action == a then [e.time - evs[|evs| - 1].time] else [])
  {
    assert (evs + [e])[1..] == evs[1..] + [e];
    if |evs| == 1 {
      assert evs[1..] + [e] == [e];
    } else {
      DurationsAppend(evs[1..], e, a);
    }
  }

  lemma {:induction false} MealTimesAppend(evs: seq<Event>, e: Event)
    ensures MealTimes(evs + [e]) == MealTimes(evs) + (if e.action == Eat then [e.time] else [])
  {
    if evs == [] {
      assert [e][1..] == [];
    } else {
      var head := if evs[0].action == Eat then [evs[0].time] else [];
      assert (evs + [e])[1..] == evs[1..] + [e];
      assert MealTimes(evs + [e]) == head + MealTimes(evs[1..] + [e]);
      MealTimesAppend(evs[1..], e);
    }
  }

  lemma GapsAppend(ts: seq<nat>, t: nat)
    ensures Gaps(ts + [t]) == Gaps(ts) + [t - (if ts == [] then 0 else ts[|ts| - 1])]
  {
  }

  // ---------------------------------------------------------------------
  // The record's fields, characterised

  /** The cursor is the philosopher's latest event (main.py:330-331). */
  lemma FoldActorCursor(evs: seq<Event>)
    ensures evs == [] ==> FoldActor(evs).lastAction == None && FoldActor(evs).lastActionTime == 0
    ensures evs != [] ==>
      FoldActor(evs).lastAction == Some(evs[|evs| - 1].action) &&
      FoldActor(evs).lastActionTime == evs[|evs| - 1].time
  {
  }

  /** Each counter is the number of the philosopher's events of its action. */
  lemma {:induction false} FoldActorCounts(evs: seq<Event>)
    ensures forall a :: Count(FoldActor(evs), a) == Tally(evs, a)
  {
    if evs != [] {
      var init, e := evs[..|evs| - 1], evs[|evs| - 1];
      assert evs == init + [e];
      FoldActorCounts(init);
      UpdateCounts(FoldActor(init), e);
      forall a ensures Count(FoldActor(evs), a) == Tally(evs, a) {
        TallyAppend(init, e, a);
      }
    }
  }

  /** The shortest and longest eat and sleep are the extremes of the observed
      durations of those actions; `short_*` keeps the sentinel and `long_*`
      keeps 0 until a duration is observed (main.py:295-298, 323-326). */
  lemma FoldActorDurations(evs: seq<Event>)
    ensures IsShortest(FoldActor(evs).shortEat, Durations(evs, Eat))
    ensures IsLongest(FoldActor(evs).longEat, Durations(evs, Eat))
    ensures IsShortest(FoldActor(evs).shortSleep, Durations(evs, Sleep))
    ensures IsLongest(FoldActor(evs).longSleep, Durations(evs, Sleep))
  {
    FoldActorEatDurations(evs);
    FoldActorSleepDurations(evs);
  }

  lemma {:induction false} FoldActorEatDurations(evs: seq<Event>)
    ensures IsShortest(FoldActor(evs).shortEat, Durations(evs, Eat))
    ensures IsLongest(FoldActor(evs).longEat, Durations(evs, Eat))
  {
    if evs != [] {
      var init, e := evs[..|evs| - 1], evs[|evs| - 1];
      assert evs == init + [e];
      var p := FoldActor(init);
      FoldActorEatDurations(init);
      FoldActorCursor(init);
      UpdateDurations(p, e);
      if init != [] {
        DurationsAppend(init, e, Eat);
        if init[|init| - 1].action == Eat {
          ShortestExtend(p.shortEat, Durations(init, Eat), e.time - p.lastActionTime);
          LongestExtend(p.longEat, Durations(init, Eat), e.time - p.lastActionTime);
        } else {
          assert Durations(evs, Eat) == Durations(init, Eat);
        }
      }
    }
  }

  lemma {:induction false} FoldActorSleepDurations(evs: seq<Event>)
    ensures IsShortest(FoldActor(evs).shortSleep, Durations(evs, Sleep))
    ensures IsLongest(FoldActor(evs).longSleep, Durations(evs, Sleep))
  {
    if evs != [] {
      var init, e := evs[..|evs| - 1], evs[|evs| - 1];
      assert evs == init + [e];
      var p := FoldActor(init);
      FoldActorSleepDurations(init);
      FoldActorCursor(init);
      UpdateDurations(p, e);
      if init != [] {
        DurationsAppend(init, e, Sleep);
        if init[|init| - 1].action == Sleep {
          ShortestExtend(p.shortSleep, Durations(init, Sleep), e.time - p.lastActionTime);
          LongestExtend(p.longSleep, Durations(init, Sleep), e.time - p.lastActionTime);
        } else {
          assert Durations(evs, Sleep) == Durations(init, Sleep);
        }
      }
    }
  }

  lemma ShortestExtend(x: int, ds: seq<int>, d: int)
    requires IsShortest(x, ds)
    ensures IsShortest(Min(x, d), ds + [d])
  {
  }

  lemma LongestExtend(x: int, ds: seq<int>, d: int)
    requires IsLongest(x, ds)
    ensures IsLongest(Max(x, d), ds + [d])
  {
  }

  /** `last_meal` is the time of the latest meal (0 before any), and
      `max_time_no_eat` is the largest gap between consecutive meals, the
      first measured from 0, or 0 when no gap is larger (main.py:334-336). */
  lemma {:induction false} FoldActorMeals(evs: seq<Event>)
    ensures FoldActor(evs).lastMeal == LastMeal(evs)
    ensures IsLongest(FoldActor(evs).maxTimeNoEat, Gaps(MealTimes(evs)))
  {
    if evs != [] {
      var init, e := evs[..|evs| - 1], evs[|evs| - 1];
      assert evs == init + [e];
      FoldActorMeals(init);
      UpdateMeals(FoldActor(init), e);
      MealTimesAppend(init, e);
      if e.action == Eat {
        var gs, g := Gaps(MealTimes(init)), e.time - LastMeal(init);
        GapsAppend(MealTimes(init), e.time);
        assert Gaps(MealTimes(evs)) == gs + [g];
        assert forall d :: d in gs + [g] <==> d in gs || d == g;
      } else {
        assert MealTimes(evs) == MealTimes(init);
      }
    }
  }

  /** `time_to_die` is 0 while the philosopher has not died; once it has, it
      is the time of its latest death minus the time of the last meal before
      that death (main.py:339-340). */
  lemma {:induction false} FoldActorDeath(evs: seq<Event>)
    ensures Tally(evs, Died) == 0 ==> FoldActor(evs).timeToDie == 0
    ensures forall k :: 0 <= k < |evs| && evs[k].action == Died && Tally(evs[k + 1..], Died) == 0 ==>
      FoldActor(evs).timeToDie == evs[k].time - LastMeal(evs[..k])
  {
    if evs != [] {
      var init, e := evs[..|evs| - 1], evs[|evs| - 1];
      assert evs == init + [e];
      FoldActorDeath(init);
      FoldActorMeals(init);
      UpdateMeals(FoldActor(init), e);
      TallyAppend(init, e, Died);
      forall k | 0 <= k < |evs| && evs[k].action == Died && Tally(evs[k + 1..], Died) == 0
        ensures FoldActor(evs).timeToDie == evs[k].time - LastMeal(evs[..k])
      {
        if k < |init| {
          assert evs[k + 1..] == init[k + 1..] + [e];
          TallyAppend(init[k + 1..], e, Died);
          assert evs[..k] == init[..k];
        } else {
          assert evs[..k] == init;
        }
      }
    }
  }

  // ---------------------------------------------------------------------
  // The whole table

  function Total(p: Philo): nat {
    p.eat + p.sleep + p.think + p.fork + p.died
  }

  /** The sum of all counters of the listed philosophers. */
  function SumTotals(ids: seq<nat>, data: map<nat, Philo>): nat
    requires forall id :: id in ids ==> id in data
  {
    if ids == [] then 0 else Total(data[ids[0]]) + SumTotals(ids[1..], data)
  }

  lemma {:induction false} SumAppend(ids: seq<nat>, x: nat, data: map<nat, Philo>)
    requires forall id :: id in ids ==> id in data
    requires x in data
    ensures SumTotals(ids + [x], data) == SumTotals(ids, data) + Total(data[x])
  {
    if ids != [] {
      assert (ids + [x])[1..] == ids[1..] + [x];
      SumAppend(ids[1..], x, data);
    } else {
      assert [x][1..] == [];
    }
  }

  lemma {:induction false} SumOverride(ids: seq<nat>, data: map<nat, Philo>, x: nat, p: Philo)
    requires forall id :: id in ids ==> id in data
    requires Distinct(ids)
    ensures SumTotals(ids, data[x := p]) + (if x in ids then Total(data[x]) else 0) ==
      SumTotals(ids, data) + (if x in ids then Total(p) else 0)
  {
    if ids != [] {
      assert Distinct(ids[1..]) by {
        forall i, j | 0 <= i < j < |ids[1..]| ensures ids[1..][i] != ids[1..][j] {
          assert ids[1..][i] == ids[i + 1] && ids[1..][j] == ids[j + 1];
        }
      }
      SumOverride(ids[1..], data, x, p);
      if ids[0] == x {
        assert x !in ids[1..] by {
          forall k | 0 <= k < |ids[1..]| ensures ids[1..][k] != x {
            assert ids[1..][k] == ids[k + 1];
          }
        }
      }
    }
  }

  /** The counters of all philosophers add up to the number of matching lines. */
  lemma {:induction false} CountersMatchLines(logs: seq<string>)
    ensures SumTotals(Aggregate(logs).ids, Aggregate(logs).data) == |Events(logs)|
  {
    if logs != [] {
      var init := logs[..|logs| - 1];
      CountersMatchLines(init);
      SumAfterStep(Aggregate(init), logs[|logs| - 1]);
    }
  }

  /** A matching line adds one to the sum of all counters; any other line adds nothing. */
  lemma SumAfterStep(t: Table, line: string)
    requires Valid(t)
    ensures SumTotals(Step(t, line).ids, Step(t, line).data) ==
      SumTotals(t.ids, t.data) + (if Decode(line).Some? then 1 else 0)
  {
    if Decode(line).Some? {
      SumAfterUpdate(t, Decode(line).value);
    }
  }

  lemma SumAfterUpdate(t: Table, e: Event)
    requires Valid(t)
    ensures var ids := if e.id in t.data then t.ids else t.ids + [e.id];
      var data := t.data[e.id := Update(Record(t, e.id), e)];
      (forall id :: id in ids ==> id in data) &&
      SumTotals(ids, data) == SumTotals(t.ids, t.data) + 1
  {
    var p := Record(t, e.id);
    var q := Update(p, e);
    UpdateCounts(p, e);
    assert Total(q) == Total(p) + 1 by {
      assert Total(q) == Count(q, Think) + Count(q, Sleep) + Count(q, Fork) + Count(q, Eat) + Count(q, Died);
    }
    if e.id in t.data {
      SumOverride(t.ids, t.data, e.id, q);
    } else {
      NewKeySum(t, e.id, q);
    }
  }

  /** Adding a new key at the end adds its record's counters. */
  lemma NewKeySum(t: Table, x: nat, q: Philo)
    requires Valid(t) && x !in t.data
    ensures SumTotals(t.ids + [x], t.data[x := q]) == SumTotals(t.ids, t.data) + Total(q)
  {
    SumOverride(t.ids, t.data[x := Fresh()], x, q);
    assert t.data[x := Fresh()][x := q] == t.data[x := q];
    SumOverride(t.ids, t.data, x, Fresh());
    SumAppend(t.ids, x, t.data[x := q]);
  }

  /** Running the aggregator on a longer log only appends philosophers to the
      key order: the table of a prefix lists its keys as a prefix. */
  lemma {:induction false} IdsGrowByAppend(logs: seq<string>, m: nat)
    requires m <= |logs|
    ensures Aggregate(logs[..m]).ids <= Aggregate(logs).ids
  {
    if m < |logs| {
      var init := logs[..|logs| - 1];
      assert logs[..m] == init[..m];
      IdsGrowByAppend(init, m);
    } else {
      assert logs[..m] == logs;
    }
  }

  /** The key order is the order of first appearance: whenever the j-th
      listed philosopher has logged a matching line among the first m lines,
      every philosopher listed before it has too. */
  lemma FirstAppearanceOrder(logs: seq<string>, m: nat, i: nat, j: nat)
    requires m <= |logs|
    requires i < j < |Aggregate(logs).ids|
    requires ActorEvents(logs[..m], Aggregate(logs).ids[j]) != []
    ensures ActorEvents(logs[..m], Aggregate(logs).ids[i]) != []
  {
    var ids := Aggregate(logs).ids;
    var pre := Aggregate(logs[..m]);
    IdsGrowByAppend(logs, m);
    AggregateByActor(logs[..m], ids[j]);
    AggregateByActor(logs[..m], ids[i]);
    assert ids[j] in pre.ids;
    var q :| 0 <= q < |pre.ids| && pre.ids[q] == ids[j];
    assert ids[q] == ids[j];
    assert j < |pre.ids|;
    assert pre.ids[i] == ids[i];
  }
}
