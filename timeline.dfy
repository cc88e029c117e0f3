/** The timeline aggregator, `TestCaseBlock.get_data` (main.py:279-342): the
    log lines are folded, in order, into one record per philosopher, kept in a
    dictionary whose keys remember the order of first appearance. */
module Timeline {
  import opened Wrappers
  import opened LogGrammar

  /** The initial value of `short_eat` and `short_sleep` (main.py:296, 298):
      larger than any duration a run is expected to show. */
  const Sentinel: int := 999999999999999999999

  /** One philosopher's record, the fields of `default_philo` (main.py:283-302).
      `lastAction` is `None` for the initial empty string. Timestamps are
      natural numbers; differences of timestamps may be negative when a log is
      out of order, so the fields holding them are integers. */
  datatype Philo = Philo(
    eat: nat, sleep: nat, think: nat, fork: nat, died: nat,
    lastMeal: nat, maxTimeNoEat: int, timeToDie: int,
    longSleep: int, shortSleep: int, longEat: int, shortEat: int,
    lastAction: Option<Action>, lastActionTime: nat)

  /** A fresh copy of the default record (main.py:321). */
  function Fresh(): Philo {
    Philo(0, 0, 0, 0, 0, 0, 0, 0, 0, Sentinel, 0, Sentinel, None, 0)
  }

  /** The counter an action is tallied under. */
  function Count(p: Philo, a: Action): nat {
    match a
    case Think => p.think
    case Sleep => p.sleep
    case Fork => p.fork
    case Eat => p.eat
    case Died => p.died
  }

  /** `data[philo][action] += 1` (main.py:329). */
  function Bump(p: Philo, a: Action): (r: Philo)
    ensures forall b :: Count(r, b) == Count(p, b) + (if b == a then 1 else 0)
    ensures r.(eat := p.eat, sleep := p.sleep, think := p.think, fork := p.fork, died := p.died) == p
  {
    match a
    case Think => p.(think := p.think + 1)
    case Sleep => p.(sleep := p.sleep + 1)
    case Fork => p.(fork := p.fork + 1)
    case Eat => p.(eat := p.eat + 1)
    case Died => p.(died := p.died + 1)
  }

  function Min(a: int, b: int): int { if a <= b then a else b }
  function Max(a: int, b: int): int { if a >= b then a else b }

  /** What one event of a philosopher does to that philosopher's record
      (main.py:323-340): the duration of the previous eat or sleep, the
      counter, the cursor, the longest gap between meals and the delay of a
      death after the last meal. */
  function Update(p: Philo, e: Event): Philo {
    var d := e.time - p.lastActionTime;
    var p1 :=
      if p.lastAction == Some(Eat) then p.(shortEat := Min(d, p.shortEat), longEat := Max(d, p.longEat))
      else if p.lastAction == Some(Sleep) then p.(shortSleep := Min(d, p.shortSleep), longSleep := Max(d, p.longSleep))
      else p;
    var p2 := Bump(p1, e.action).(lastAction := Some(e.action), lastActionTime := e.time);
    var p3 :=
      if e.action == Eat then p2.(maxTimeNoEat := Max(e.time - p2.lastMeal, p2.maxTimeNoEat), lastMeal := e.time)
      else p2;
    if e.action == Died then p3.(timeToDie := e.time - p3.lastMeal) else p3
  }

  /** The dictionary `data`: its keys in insertion order, and its values. */
  datatype Table = Table(ids: seq<nat>, data: map<nat, Philo>)

  ghost predicate Distinct(s: seq<nat>) {
    forall i, j :: 0 <= i < j < |s| ==> s[i] != s[j]
  }

  /** What a Python dictionary guarantees: each key once, in `ids` exactly
      when it is in `data`. */
  ghost predicate Valid(t: Table) {
    Distinct(t.ids) && (forall id :: id in t.data <==> id in t.ids)
  }

  function EmptyTable(): (t: Table)
    ensures Valid(t)
  {
    Table([], map[])
  }

  /** A philosopher's record, or the default one if it is not in the table yet. */
  function Record(t: Table, id: nat): Philo {
    if id in t.data then t.data[id] else Fresh()
  }

  /** One iteration of the loop (main.py:303-340): a line that does not match
      is skipped; a matching one updates its philosopher's record, adding the
      philosopher at the end if it is new. */
  function Step(t: Table, line: string): (r: Table)
    requires Valid(t)
    ensures Valid(r)
  {
    match Decode(line)
    case None => t
    case Some(e) => Apply(t, e)
  }

  /** The effect of one decoded event: its philosopher's record is updated,
      and the philosopher is added at the end if it is new. */
  function Apply(t: Table, e: Event): (r: Table)
    requires Valid(t)
    ensures Valid(r)
  {
    var ids := if e.id in t.data then t.ids else t.ids + [e.id];
    Table(ids, t.data[e.id := Update(Record(t, e.id), e)])
  }

  /** The table `get_data` returns for the given lines. */
  function Aggregate(logs: seq<string>): (t: Table)
    ensures Valid(t)
  {
    if logs == [] then EmptyTable()
    else Step(Aggregate(logs[..|logs| - 1]), logs[|logs| - 1])
  }

  /** `get_data` (main.py:279-342): the loop over the lines. */
  method GetData(logs: seq<string>) returns (t: Table)
    ensures t == Aggregate(logs)
  {
    var ids: seq<nat> := [];
    var data: map<nat, Philo> := map[];
    for i := 0 to |logs|
      invariant Table(ids, data) == Aggregate(logs[..i])
    {
      assert logs[..i + 1][..i] == logs[..i];
      ids, data := AddLine(ids, data, logs[i]);
    }
    assert logs[..|logs|] == logs;
    t := Table(ids, data);
  }

  /** One iteration of the loop (main.py:304-340): match the line and, if
      it matches, record its event. */
  method AddLine(ids: seq<nat>, data: map<nat, Philo>, line: string)
    returns (ids': seq<nat>, data': map<nat, Philo>)
    requires Valid(Table(ids, data))
    ensures Table(ids', data') == Step(Table(ids, data), line)
  {
    var m := Decode(line);
    if m.None? {
      return ids, data;
    }
    ids', data' := AddEvent(ids, data, m.value);
  }

  /** Add the event's philosopher if it is new (main.py:319-321), then update
      that philosopher's record. */
  method AddEvent(ids: seq<nat>, data: map<nat, Philo>, e: Event)
    returns (ids': seq<nat>, data': map<nat, Philo>)
    requires Valid(Table(ids, data))
    ensures Table(ids', data') == Apply(Table(ids, data), e)
  {
    ids', data' := ids, data;
    var philo := e.id;
    if philo !in data' {
      data' := data'[philo := Fresh()];
      ids' := ids' + [philo];
    }
    var p := RecordEvent(data'[philo], e);
    data' := data'[philo := p];
  }

  /** The body of the loop for a matching line, on the philosopher's record
      (main.py:323-340): its fields are updated one after the other. */
  method RecordEvent(p0: Philo, e: Event) returns (p: Philo)
    ensures p == Update(p0, e)
  {
    p := p0;
    var time, action := e.time, e.action;
    var d := time - p.lastActionTime;
    if p.lastAction == Some(Eat) {
      p := p.(shortEat := Min(d, p.shortEat), longEat := Max(d, p.longEat));
    } else if p.lastAction == Some(Sleep) {
      p := p.(shortSleep := Min(d, p.shortSleep), longSleep := Max(d, p.longSleep));
    }
    p := Bump(p, action);
    p := p.(lastAction := Some(action), lastActionTime := time);
    if action == Eat {
      p := p.(maxTimeNoEat := Max(time - p.lastMeal, p.maxTimeNoEat), lastMeal := time);
    }
    if action == Died {
      p := p.(timeToDie := time - p.lastMeal);
    }
  }
}
