/** Concrete runs: what the aggregation and the checkers make of them. */
module Scenarios {
  import opened Wrappers
  import opened Text
  import opened LogGrammar
  import opened Timeline
  import opened Checkers

  /** A printed line decodes to the event it was printed from. */
  lemma DecodesTo(e: Event, line: string)
    requires line == Format(e)
    ensures Decode(line) == Some(e)
  {
    DecodeFormat(e, false);
    assert Format(e) + EndText(false) == Format(e);
  }

  const ForkLine: string := "0 1  has taken a fork"
  const EatLine: string := "0 1  is eating"
  const SleepLine: string := "200 1  is sleeping"
  const ThinkLine: string := "400 1  is thinking"

  /** One philosopher takes two forks, eats at 0, sleeps at 200 and thinks at 400. */
  const MealLines: seq<string> := [ForkLine] + [ForkLine] + [EatLine] + [SleepLine] + [ThinkLine]

  lemma ForkLineDecodes()
    ensures Decode(ForkLine) == Some(Event(0, 1, Fork))
  {
    assert ForkLine == NatToString(0) + " " + NatToString(1) + "  " + PhraseText(Fork);
    DecodesTo(Event(0, 1, Fork), ForkLine);
  }

  lemma EatLineDecodes()
    ensures Decode(EatLine) == Some(Event(0, 1, Eat))
  {
    assert EatLine == NatToString(0) + " " + NatToString(1) + "  " + PhraseText(Eat);
    DecodesTo(Event(0, 1, Eat), EatLine);
  }

  lemma SleepLineDecodes()
    ensures Decode(SleepLine) == Some(Event(200, 1, Sleep))
  {
    assert NatToString(200) == "200";
    assert SleepLine == NatToString(200) + " " + NatToString(1) + "  " + PhraseText(Sleep);
    DecodesTo(Event(200, 1, Sleep), SleepLine);
  }

  lemma ThinkLineDecodes()
    ensures Decode(ThinkLine) == Some(Event(400, 1, Think))
  {
    assert NatToString(400) == "400";
    assert ThinkLine == NatToString(400) + " " + NatToString(1) + "  " + PhraseText(Think);
    DecodesTo(Event(400, 1, Think), ThinkLine);
  }

  /** The record after each of the meal lines. */
  const AfterFork: Philo := Fresh().(fork := 1, lastAction := Some(Fork))
  const AfterForks: Philo := AfterFork.(fork := 2)
  const AfterEat: Philo := AfterForks.(eat := 1, lastAction := Some(Eat))
  const AfterSleep: Philo :=
    AfterEat.(sleep := 1, shortEat := 200, longEat := 200, lastAction := Some(Sleep), lastActionTime := 200)
  const AfterThink: Philo :=
    AfterSleep.(think := 1, shortSleep := 200, longSleep := 200, lastAction := Some(Think), lastActionTime := 400)

  /** The fold over the lines with one more at the end. */
  lemma AggregateSnoc(logs: seq<string>, line: string)
    ensures Aggregate(logs + [line]) == Step(Aggregate(logs), line)
  {
    assert (logs + [line])[..|logs|] == logs;
  }

  /** One more line of philosopher 1 after lines about that philosopher alone. */
  lemma FoldNext(logs: seq<string>, p: Philo, line: string, e: Event)
    requires Aggregate(logs) == Table([1], map[1 := p])
    requires Decode(line) == Some(e) && e.id == 1
    ensures Aggregate(logs + [line]) == Table([1], map[1 := Update(p, e)])
  {
    AggregateSnoc(logs, line);
  }

  lemma FoldFork(fork: string)
    requires Decode(fork) == Some(Event(0, 1, Fork))
    ensures Aggregate([fork]) == Table([1], map[1 := AfterFork])
  {
    AggregateSnoc([], fork);
    assert [] + [fork] == [fork];
  }

  /** The second fork only adds to the fork count; the meal starts the meal
      clock; the sleep closes a 200 ms meal; the think closes a 200 ms sleep. */
  lemma MealUpdates()
    ensures Update(AfterFork, Event(0, 1, Fork)) == AfterForks
    ensures Update(AfterForks, Event(0, 1, Eat)) == AfterEat
    ensures Update(AfterEat, Event(200, 1, Sleep)) == AfterSleep
    ensures Update(AfterSleep, Event(400, 1, Think)) == AfterThink
  {
  }

  /** The fold over any five lines that decode to the meal events. */
  lemma MealFold(fork: string, eat: string, sleep: string, think: string)
    requires Decode(fork) == Some(Event(0, 1, Fork)) && Decode(eat) == Some(Event(0, 1, Eat))
    requires Decode(sleep) == Some(Event(200, 1, Sleep)) && Decode(think) == Some(Event(400, 1, Think))
    ensures Aggregate([fork] + [fork] + [eat] + [sleep] + [think]) == Table([1], map[1 := AfterThink])
  {
    MealUpdates();
    FoldFork(fork);
    FoldNext([fork], AfterFork, fork, Event(0, 1, Fork));
    FoldNext([fork] + [fork], AfterForks, eat, Event(0, 1, Eat));
    FoldNext([fork] + [fork] + [eat], AfterEat, sleep, Event(200, 1, Sleep));
    FoldNext([fork] + [fork] + [eat] + [sleep], AfterSleep, think, Event(400, 1, Think));
  }

  /** The philosopher's record counts one meal, one sleep, one think and two
      forks, and its meal and its sleep both lasted 200 ms. */
  lemma MealScenario()
    ensures Aggregate(MealLines) == Table([1], map[1 := AfterThink])
    ensures var p := Aggregate(MealLines).data[1];
      p.eat == 1 && p.sleep == 1 && p.think == 1 && p.fork == 2 && p.died == 0 &&
      p.shortEat == 200 && p.shortSleep == 200 && p.lastMeal == 0
  {
    ForkLineDecodes();
    EatLineDecodes();
    SleepLineDecodes();
    ThinkLineDecodes();
    MealFold(ForkLine, EatLine, SleepLine, ThinkLine);
  }

  /** Lines that do not match leave the table as it was. */
  lemma {:induction false} AggregateUnmatched(logs: seq<string>)
    requires forall k :: 0 <= k < |logs| ==> !Matches(logs[k])
    ensures Aggregate(logs) == EmptyTable()
  {
    if logs != [] {
      AggregateUnmatched(logs[..|logs| - 1]);
    }
  }

  const SingleSpaceFork: string := "0 1 has taken a fork"
  const SingleSpaceEat: string := "0 1 is eating"

  lemma SingleSpaceForkRejected()
    ensures !Matches(SingleSpaceFork)
  {
    assert SingleSpaceFork == "0" + " " + "1" + " " + RenderTailOf(Fork, false);
    SingleGapRejected("0", "1", Fork, false);
  }

  lemma SingleSpaceEatRejected()
    ensures !Matches(SingleSpaceEat)
  {
    assert SingleSpaceEat == "0" + " " + "1" + " " + RenderTailOf(Eat, false);
    SingleGapRejected("0", "1", Eat, false);
  }

  /** The meal lines with a single space before the phrase do not match the
      grammar, which asks for two whitespace characters there, so the table
      stays empty. */
  lemma SingleSpaceScenario()
    ensures Aggregate([SingleSpaceFork] + [SingleSpaceFork] + [SingleSpaceEat]) == EmptyTable()
  {
    SingleSpaceForkRejected();
    SingleSpaceEatRejected();
    AllUnmatched(SingleSpaceFork, SingleSpaceEat);
  }

  lemma AllUnmatched(fork: string, eat: string)
    requires !Matches(fork) && !Matches(eat)
    ensures Aggregate([fork] + [fork] + [eat]) == EmptyTable()
  {
    var logs := [fork] + [fork] + [eat];
    assert forall k :: 0 <= k < |logs| ==> logs[k] == fork || logs[k] == eat;
    AggregateUnmatched(logs);
  }

  /** The classic no-death test `4 410 200 200`. */
  const Classic: Args := Args(4, 410, 200, 200)

  /** A philosopher who ate and slept three times, never waited 300 ms or more
      for a meal, and ate and slept at least 200 ms each time. */
  const Steady: Philo := Philo(3, 3, 3, 6, 0, 900, 300, 0, 200, 200, 200, 200, Some(Sleep), 1000)

  function FourOf(p: Philo, q: Philo): Table {
    Table([1, 2, 3, 4], map[1 := p, 2 := p, 3 := q, 4 := p])
  }

  lemma FourValid(p: Philo, q: Philo)
    ensures Valid(FourOf(p, q))
  {
    var t := FourOf(p, q);
    forall id ensures id in t.data <==> id in t.ids {
    }
  }

  lemma NoDeathScenario(logs: seq<string>)
    requires AllMatch(logs)
    ensures NoDieOutcome(logs, FourOf(Steady, Steady), Classic) == Pass
  {
    FourValid(Steady, Steady);
    NoDiePassIff(logs, FourOf(Steady, Steady), Classic);
  }

  /** One death fails the run and names the philosopher. */
  lemma OneDeathScenario(logs: seq<string>)
    requires AllMatch(logs)
    ensures NoDieOutcome(logs, FourOf(Steady, Steady.(died := 1)), Classic) == Fail(Dead(3))
  {
    var t := FourOf(Steady, Steady.(died := 1));
    FourValid(Steady, Steady.(died := 1));
    assert t.data[t.ids[0]] == t.data[t.ids[1]] == Steady;
    FirstFaultIsFirst(NoDie(Classic), t.ids, t.data, 2);
  }

  /** The death test `5 410 200 200`: a death 415 ms after the last meal is
      within the 10 ms tolerance, one 425 ms after it is not. */
  lemma LateDeathScenario(logs: seq<string>)
    requires AllMatch(logs)
    ensures var a := Args(5, 410, 200, 200);
      var dying := Steady.(died := 1, timeToDie := 415);
      var late := Steady.(died := 1, timeToDie := 425);
      DieOutcome(logs, Table([1], map[1 := dying]), a) == Pass &&
      DieOutcome(logs, Table([1], map[1 := late]), a) == Fail(LateDeath(1, 425, 410))
  {
  }

  /** A line with letters for its timestamp fails every checker, reporting the line. */
  lemma LettersScenario(t: Table, a: Args, limit: int)
    requires Valid(t)
    ensures var logs := ["0 1  is eating", "abc 1  is eating"];
      var r := Fail(Malformed("abc 1  is eating"));
      NoDieOutcome(logs, t, a) == r && NoDieLimitOutcome(logs, t, a, limit) == r && DieOutcome(logs, t, a) == r
  {
    var logs := ["0 1  is eating", "abc 1  is eating"];
    DecodesTo(Event(0, 1, Eat), logs[0]);
    assert LeadingDigits(logs[1]) == 0;
    MalformedFailsEveryChecker(logs, t, a, limit, 1);
  }
}
