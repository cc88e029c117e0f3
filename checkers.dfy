/** The rule checkers `checker_no_die`, `checker_no_die_limit` and
    `checker_die` (main.py:14-188). Each first rejects the whole log on its
    first line that does not match the grammar, then walks the philosophers in
    the table's key order and stops at the first rule one of them breaks. */
module Checkers {
  import opened Wrappers
  import opened Text
  import opened LogGrammar
  import opened Timeline

  /** The test's arguments `count t2d t2e t2s`, already parsed (main.py:23-27). */
  datatype Args = Args(count: int, t2d: int, t2e: int, t2s: int)

  /** Why a checker rejects a run, with the values its message reports. */
  datatype Reason =
    | Malformed(line: string)
    | WrongCount(expected: int, found: nat)
    | Dead(id: nat)
    | Starved(id: nat, maxTimeNoEat: int)
    | ForgotSleep(id: nat)
    | ShortSleep(id: nat, shortSleep: int, t2s: int)
    | ShortEat(id: nat, shortEat: int, t2e: int)
    | BelowLimit(id: nat, eat: nat, limit: int)
    | OverLimit(limit: int, minAte: int)
    | LateDeath(id: nat, timeToDie: int, t2d: int)

  /** The philosopher a reason is about, if it is about one. */
  function ActorOf(r: Reason): Option<nat> {
    match r
    case Malformed(_) => None
    case WrongCount(_, _) => None
    case OverLimit(_, _) => None
    case _ => Some(r.id)
  }

  datatype Outcome = Pass | Fail(reason: Reason)

  /** What a checker returns: `{"result": ..., "message": ...}`. */
  datatype Verdict = Verdict(result: bool, message: string)

  /** The `n` characters of `m` from position `k`. */
  function Window(m: string, k: nat, n: nat): string
    requires k + n <= |m|
  {
    m[k..k + n]
  }

  /** `s` occurs in `m`. */
  ghost predicate Mentions(m: string, s: string) {
    exists k: nat :: k + |s| <= |m| && Window(m, k, |s|) == s
  }

  /** A message about one philosopher: `lead`, then its id, then `rest`. */
  function AboutPhilo(lead: string, id: nat, rest: string): (m: string)
    ensures Mentions(m, NatToString(id))
  {
    var n := NatToString(id);
    var m := lead + n + rest;
    assert Window(m, |lead|, |n|) == n;
    m
  }

  const FormatError: string := "Logs does not match the required log format :\n "

  /** The message of each failure (main.py:20, 33, 48-64, 124, 131, 170). */
  function Message(r: Reason): (m: string)
    ensures r.Malformed? ==> |r.line| <= |m| && m[|m| - |r.line|..] == r.line
    ensures ActorOf(r).Some? ==> Mentions(m, NatToString(ActorOf(r).value))
  {
    match r
    case Malformed(line) => FormatError + line
    case WrongCount(expected, found) =>
      "Wainting " + IntToString(expected) + " philos, " + NatToString(found) + " found."
    case Dead(id) => AboutPhilo("Philo ", id, " died")
    case Starved(id, gap) =>
      AboutPhilo("Philo ", id, " asn't eat for " + IntToString(gap) + "ms and he dind't died.")
    case ForgotSleep(id) => AboutPhilo("Philosopher ", id, " forgot to sleep after eating")
    case ShortSleep(id, shortSleep, t2s) =>
      AboutPhilo("Philo ", id, " slept " + IntToString(shortSleep) + "ms but time to sleep is longer: " + IntToString(t2s) + ".")
    case ShortEat(id, shortEat, t2e) => ShortEatMessage(id, shortEat, t2e)
    case BelowLimit(id, eat, limit) =>
      AboutPhilo("Philo ", id, " ate " + NatToString(eat) + " times but requirment was eating " + IntToString(limit) + " times.")
    case OverLimit(limit, minAte) =>
      "Philosophers have eat too many times, limit was " + IntToString(limit) + " but everyone ate at least " + IntToString(minAte) + " times"
    case LateDeath(id, ttd, t2d) =>
      AboutPhilo("Philo ", id, " death happend " + IntToString(ttd) + "ms after the last meal, time to die was " + IntToString(t2d) + " and a delay of more than 10ms is not accepted.")
  }

  function ShortEatMessage(id: nat, shortEat: int, t2e: int): string {
    AboutPhilo("Philo ", id, " ate " + IntToString(shortEat) + "ms but time to eat is longer: " + IntToString(t2e) + ".")
  }

  /** The dictionary a checker returns for an outcome. */
  function ToVerdict(o: Outcome): (v: Verdict)
    ensures v.result <==> o.Pass?
    ensures o.Fail? && o.reason.Malformed? ==>
              |o.reason.line| <= |v.message| && v.message[|v.message| - |o.reason.line|..] == o.reason.line
  {
    match o
    case Pass => Verdict(true, "")
    case Fail(r) => Verdict(false, Message(r))
  }

  // ---------------------------------------------------------------------
  // The format pre-check (main.py:16-20, 70-74, 139-143)

  /** The first line that does not match the grammar, if any. */
  function FirstMalformed(logs: seq<string>): (r: Option<string>)
    ensures r.None? <==> forall k :: 0 <= k < |logs| ==> Matches(logs[k])
    ensures r.Some? ==> !Matches(r.value)
  {
    if logs == [] then None
    else if !Matches(logs[0]) then Some(logs[0])
    else
      var r := FirstMalformed(logs[1..]);
      assert r.None? ==> forall k :: 0 <= k < |logs| ==> Matches(logs[k]) by {
        if r.None? {
          forall k | 0 < k < |logs| ensures Matches(logs[k]) {
            assert logs[k] == logs[1..][k - 1];
          }
        }
      }
      r
  }

  /** The line reported is the first one that does not match. */
  lemma {:induction false} FirstMalformedIsFirst(logs: seq<string>, k: nat)
    requires k < |logs| && !Matches(logs[k])
    requires forall j :: 0 <= j < k ==> Matches(logs[j])
    ensures FirstMalformed(logs) == Some(logs[k])
  {
    if k > 0 {
      assert Matches(logs[0]);
      forall j | 0 <= j < k - 1 ensures Matches(logs[1..][j]) {
        assert logs[1..][j] == logs[j + 1];
      }
      FirstMalformedIsFirst(logs[1..], k - 1);
    }
  }

  /** The loop over the lines that every checker starts with. */
  method CheckFormat(logs: seq<string>) returns (bad: Option<string>)
    ensures bad == FirstMalformed(logs)
  {
    for i := 0 to |logs|
      invariant FirstMalformed(logs) == FirstMalformed(logs[i..])
    {
      assert logs[i..][1..] == logs[i + 1..];
      if !Matches(logs[i]) {
        return Some(logs[i]);
      }
    }
    return None;
  }

  // ---------------------------------------------------------------------
  // The rules for one philosopher

  /** The three checkers' rule sets. */
  datatype Rules = NoDie(args: Args) | NoDieLimit(args: Args, limit: int) | Die(args: Args)

  /** The rules every checker applies to each philosopher (main.py:50-64):
      no gap between meals reached the time to die, at most one eat more than
      sleeps, no sleep and no eat shorter than configured. */
  predicate Healthy(a: Args, p: Philo) {
    p.maxTimeNoEat < a.t2d && p.eat - p.sleep <= 1 && p.shortSleep >= a.t2s && p.shortEat >= a.t2e
  }

  /** What a philosopher must satisfy under each rule set: no death at all
      (main.py:47), plus at least `limit` meals for the limit checker
      (main.py:123); a death reported no later than 10 ms after the time to
      die for the death checker (main.py:168-169). */
  predicate Obeys(rules: Rules, p: Philo) {
    match rules
    case NoDie(a) => p.died == 0 && Healthy(a, p)
    case NoDieLimit(a, limit) => p.died == 0 && Healthy(a, p) && p.eat >= limit
    case Die(a) => (p.died != 0 ==> p.timeToDie <= a.t2d + 10) && Healthy(a, p)
  }

  /** The shared rules in the order the checkers test them (main.py:51-64). */
  function CommonFault(a: Args, id: nat, p: Philo): (r: Option<Reason>)
    ensures r.None? <==> Healthy(a, p)
    ensures r.Some? ==> ActorOf(r.value) == Some(id)
  {
    if p.maxTimeNoEat >= a.t2d then Some(Starved(id, p.maxTimeNoEat))
    else if p.eat - p.sleep > 1 then Some(ForgotSleep(id))
    else if p.shortSleep < a.t2s then Some(ShortSleep(id, p.shortSleep, a.t2s))
    else if p.shortEat < a.t2e then Some(ShortEat(id, p.shortEat, a.t2e))
    else None
  }

  /** The first rule a philosopher breaks, in the order its checker tests
      them. The reason names the philosopher and reports the value that broke
      the rule together with the bound it broke; every rule tested before it
      holds. Rules are tested in this order: the death rule (no death at all,
      or for the death checker a timely one), then going without food, a
      missed sleep, a short sleep, a short eat, and last the meal limit. */
  function Fault(rules: Rules, id: nat, p: Philo): (r: Option<Reason>)
    ensures r.None? <==> Obeys(rules, p)
    ensures r.Some? ==> ActorOf(r.value) == Some(id)
    ensures r.Some? && r.value.Dead? ==> p.died != 0
    ensures r.Some? && r.value.Starved? ==> r.value.maxTimeNoEat == p.maxTimeNoEat >= rules.args.t2d
    ensures r.Some? && r.value.ForgotSleep? ==> p.eat - p.sleep > 1
    ensures r.Some? && r.value.ShortSleep? ==>
              r.value.shortSleep == p.shortSleep < r.value.t2s == rules.args.t2s
    ensures r.Some? && r.value.ShortEat? ==> r.value.shortEat == p.shortEat < r.value.t2e == rules.args.t2e
    ensures r.Some? && r.value.BelowLimit? ==> rules.NoDieLimit? && r.value.eat == p.eat < r.value.limit == rules.limit
    ensures r.Some? && r.value.LateDeath? ==>
              rules.Die? && p.died != 0 && r.value.timeToDie == p.timeToDie > r.value.t2d + 10 && r.value.t2d == rules.args.t2d
    // the rules tested before the reported one hold
    ensures r.Some? && r.value.Dead? ==> !rules.Die?
    ensures r.Some? && !rules.Die? && !r.value.Dead? ==> p.died == 0
    ensures r.Some? && rules.Die? && !r.value.LateDeath? ==> p.died == 0 || p.timeToDie <= rules.args.t2d + 10
    ensures r.Some? && (r.value.ForgotSleep? || r.value.ShortSleep? || r.value.ShortEat? || r.value.BelowLimit?) ==>
              p.maxTimeNoEat < rules.args.t2d
    ensures r.Some? && (r.value.ShortSleep? || r.value.ShortEat? || r.value.BelowLimit?) ==> p.eat - p.sleep <= 1
    ensures r.Some? && (r.value.ShortEat? || r.value.BelowLimit?) ==> p.shortSleep >= rules.args.t2s
    ensures r.Some? && r.value.BelowLimit? ==> p.shortEat >= rules.args.t2e
  {
    match rules
    case NoDie(a) => if p.died != 0 then Some(Dead(id)) else CommonFault(a, id, p)
    case NoDieLimit(a, limit) =>
      if p.died != 0 then Some(Dead(id))
      else if CommonFault(a, id, p).Some? then CommonFault(a, id, p)
      else if p.eat < limit then Some(BelowLimit(id, p.eat, limit))
      else None
    case Die(a) =>
      if p.died != 0 && p.timeToDie > a.t2d + 10 then Some(LateDeath(id, p.timeToDie, a.t2d))
      else CommonFault(a, id, p)
  }

  /** The first fault over the philosophers in key order: none exactly when
      every philosopher obeys the rules, otherwise the fault of the first one
      that does not. */
  function FirstFault(rules: Rules, ids: seq<nat>, data: map<nat, Philo>): (r: Option<Reason>)
    requires forall id :: id in ids ==> id in data
    ensures r.None? <==> forall k :: 0 <= k < |ids| ==> Obeys(rules, data[ids[k]])
    ensures r.Some? ==> ActorOf(r.value).Some? && ActorOf(r.value).value in ids
  {
    if ids == [] then None
    else
      var f := Fault(rules, ids[0], data[ids[0]]);
      if f.Some? then f
      else
        var r := FirstFault(rules, ids[1..], data);
        assert r.None? ==> forall k :: 0 <= k < |ids| ==> Obeys(rules, data[ids[k]]) by {
          if r.None? {
            forall k | 0 < k < |ids| ensures Obeys(rules, data[ids[k]]) {
              assert ids[k] == ids[1..][k - 1];
            }
          }
        }
        r
  }

  /** The philosopher reported is the first one in key order that breaks a
      rule, and the fault is the first rule they break. */
  lemma {:induction false} FirstFaultIsFirst(rules: Rules, ids: seq<nat>, data: map<nat, Philo>, k: nat)
    requires forall id :: id in ids ==> id in data
    requires k < |ids| && !Obeys(rules, data[ids[k]])
    requires forall j :: 0 <= j < k ==> Obeys(rules, data[ids[j]])
    ensures FirstFault(rules, ids, data) == Fault(rules, ids[k], data[ids[k]])
  {
    if k > 0 {
      assert Obeys(rules, data[ids[0]]);
      forall j | 0 <= j < k - 1 ensures Obeys(rules, data[ids[1..][j]]) {
        assert ids[1..][j] == ids[j + 1];
      }
      FirstFaultIsFirst(rules, ids[1..], data, k - 1);
    }
  }

  /** The loop over the philosophers shared by `checker_no_die` and
      `checker_die`: it returns at the first philosopher that breaks a rule. */
  method FindFault(rules: Rules, ids: seq<nat>, data: map<nat, Philo>) returns (f: Option<Reason>)
    requires forall id :: id in ids ==> id in data
    ensures f == FirstFault(rules, ids, data)
  {
    for i := 0 to |ids|
      invariant FirstFault(rules, ids, data) == FirstFault(rules, ids[i..], data)
    {
      assert ids[i..][1..] == ids[i + 1..];
      var id := ids[i];
      var fault := Fault(rules, id, data[id]);
      if fault.Some? {
        return fault;
      }
    }
    return None;
  }

  /** `m` is the meal count of one of the listed philosophers and no listed
      philosopher ate fewer times. */
  ghost predicate IsLeastEat(m: int, ids: seq<nat>, data: map<nat, Philo>)
    requires forall id :: id in ids ==> id in data
  {
    (exists k :: 0 <= k < |ids| && m == data[ids[k]].eat) &&
    forall k :: 0 <= k < |ids| ==> m <= data[ids[k]].eat
  }

  /** There is only one least meal count. */
  lemma LeastEatUnique(m: int, m': int, ids: seq<nat>, data: map<nat, Philo>)
    requires forall id :: id in ids ==> id in data
    requires IsLeastEat(m, ids, data) && IsLeastEat(m', ids, data)
    ensures m == m'
  {
    var k :| 0 <= k < |ids| && m == data[ids[k]].eat;
    var k' :| 0 <= k' < |ids| && m' == data[ids[k']].eat;
  }

  /** One more philosopher in the scan: the least count is the smaller of the
      one so far and theirs, or theirs if they are the first. */
  lemma LeastEatExtend(m: int, ids: seq<nat>, data: map<nat, Philo>, id: nat)
    requires forall x :: x in ids ==> x in data
    requires id in data
    requires ids == [] ==> m == -1
    requires ids != [] ==> IsLeastEat(m, ids, data)
    ensures IsLeastEat(Min(if m == -1 then data[id].eat else m, data[id].eat), ids + [id], data)
  {
    var ids' := ids + [id];
    var e := data[id].eat;
    var m' := Min(if m == -1 then e else m, e);
    if ids == [] {
      assert ids'[0] == id;
    } else {
      var k :| 0 <= k < |ids| && m == data[ids[k]].eat;
      assert ids'[k] == ids[k];
      assert ids'[|ids|] == id;
      assert m' == m || m' == e;
      forall j | 0 <= j < |ids'| ensures m' <= data[ids'[j]].eat {
        if j < |ids| { assert ids'[j] == ids[j]; }
      }
    }
  }

  lemma PrefixSnoc(s: seq<nat>, i: nat)
    requires i < |s|
    ensures s[..i + 1] == s[..i] + [s[i]]
  {
  }

  /** The smallest meal count over the philosophers, -1 when there are none
      (main.py:90, 126-128). */
  function MinEat(ids: seq<nat>, data: map<nat, Philo>): (m: int)
    requires forall id :: id in ids ==> id in data
    ensures ids == [] ==> m == -1
    ensures ids != [] ==> IsLeastEat(m, ids, data)
  {
    if ids == [] then -1
    else
      var rest := MinEat(ids[1..], data);
      var m := if rest == -1 then data[ids[0]].eat else Min(data[ids[0]].eat, rest);
      assert forall k :: 0 < k < |ids| ==> ids[k] == ids[1..][k - 1];
      m
  }

  // ---------------------------------------------------------------------
  // The checkers, as specifications

  function NoDieOutcome(logs: seq<string>, t: Table, a: Args): Outcome
    requires Valid(t)
  {
    match FirstMalformed(logs)
    case Some(line) => Fail(Malformed(line))
    case None =>
      if |t.ids| != a.count then Fail(WrongCount(a.count, |t.ids|))
      else
        match FirstFault(NoDie(a), t.ids, t.data)
        case Some(r) => Fail(r)
        case None => Pass
  }

  function NoDieLimitOutcome(logs: seq<string>, t: Table, a: Args, limit: int): Outcome
    requires Valid(t)
  {
    match FirstMalformed(logs)
    case Some(line) => Fail(Malformed(line))
    case None =>
      if |t.ids| != a.count then Fail(WrongCount(a.count, |t.ids|))
      else
        match FirstFault(NoDieLimit(a, limit), t.ids, t.data)
        case Some(r) => Fail(r)
        case None =>
          if MinEat(t.ids, t.data) != limit then Fail(OverLimit(limit, MinEat(t.ids, t.data)))
          else Pass
  }

  function DieOutcome(logs: seq<string>, t: Table, a: Args): Outcome
    requires Valid(t)
  {
    match FirstMalformed(logs)
    case Some(line) => Fail(Malformed(line))
    case None =>
      match FirstFault(Die(a), t.ids, t.data)
      case Some(r) => Fail(r)
      case None => Pass
  }

  // ---------------------------------------------------------------------
  // The checkers, as the loops they are

  /** `checker_no_die` (main.py:14-66). */
  method CheckNoDie(logs: seq<string>, t: Table, a: Args) returns (v: Verdict)
    requires Valid(t)
    ensures v == ToVerdict(NoDieOutcome(logs, t, a))
  {
    var bad := CheckFormat(logs);
    if bad.Some? {
      return ToVerdict(Fail(Malformed(bad.value)));
    }
    var philoCount := |t.ids|;
    if philoCount != a.count {
      return ToVerdict(Fail(WrongCount(a.count, philoCount)));
    }
    var fault := FindFault(NoDie(a), t.ids, t.data);
    if fault.Some? {
      return ToVerdict(Fail(fault.value));
    }
    return ToVerdict(Pass);
  }

  /** The philosophers' loop of `checker_no_die_limit` (main.py:89-128): it
      returns at the first philosopher that breaks a rule and otherwise keeps
      the smallest meal count seen so far, starting from -1. */
  method FindFaultAndLeastEat(rules: Rules, ids: seq<nat>, data: map<nat, Philo>)
    returns (fault: Option<Reason>, minAte: int)
    requires forall id :: id in ids ==> id in data
    ensures fault == FirstFault(rules, ids, data)
    ensures fault.None? ==> minAte == MinEat(ids, data)
  {
    minAte := -1;
    for i := 0 to |ids|
      invariant FirstFault(rules, ids, data) == FirstFault(rules, ids[i..], data)
      invariant i == 0 ==> minAte == -1
      invariant i > 0 ==> IsLeastEat(minAte, ids[..i], data)
    {
      assert ids[i..][1..] == ids[i + 1..];
      var id := ids[i];
      var p := data[id];
      fault := Fault(rules, id, p);
      if fault.Some? {
        return;
      }
      LeastEatExtend(minAte, ids[..i], data, id);
      PrefixSnoc(ids, i);
      if minAte == -1 {
        minAte := p.eat;
      }
      minAte := Min(minAte, p.eat);
    }
    fault := None;
    assert ids[..|ids|] == ids;
    if ids != [] {
      LeastEatUnique(minAte, MinEat(ids, data), ids, data);
    }
  }

  /** `checker_no_die_limit` (main.py:68-134). */
  method CheckNoDieLimit(logs: seq<string>, t: Table, a: Args, limit: int) returns (v: Verdict)
    requires Valid(t)
    ensures v == ToVerdict(NoDieLimitOutcome(logs, t, a, limit))
  {
    var bad := CheckFormat(logs);
    if bad.Some? {
      return ToVerdict(Fail(Malformed(bad.value)));
    }
    var philoCount := |t.ids|;
    if philoCount != a.count {
      return ToVerdict(Fail(WrongCount(a.count, philoCount)));
    }
    var fault, minAte := FindFaultAndLeastEat(NoDieLimit(a, limit), t.ids, t.data);
    if fault.Some? {
      return ToVerdict(Fail(fault.value));
    }
    if minAte != limit {
      return ToVerdict(Fail(OverLimit(limit, minAte)));
    }
    return ToVerdict(Pass);
  }

  /** `checker_die` (main.py:137-188): no count check. */
  method CheckDie(logs: seq<string>, t: Table, a: Args) returns (v: Verdict)
    requires Valid(t)
    ensures v == ToVerdict(DieOutcome(logs, t, a))
  {
    var bad := CheckFormat(logs);
    if bad.Some? {
      return ToVerdict(Fail(Malformed(bad.value)));
    }
    var fault := FindFault(Die(a), t.ids, t.data);
    if fault.Some? {
      return ToVerdict(Fail(fault.value));
    }
    return ToVerdict(Pass);
  }

  // ---------------------------------------------------------------------
  // What the checkers decide

  /** A line that does not match fails every checker, whatever the arguments
      and the table: the reason is the first such line, reported verbatim. */
  lemma MalformedFailsEveryChecker(logs: seq<string>, t: Table, a: Args, limit: int, k: nat)
    requires Valid(t)
    requires k < |logs| && !Matches(logs[k])
    ensures FirstMalformed(logs).Some?
    ensures var r := Fail(Malformed(FirstMalformed(logs).value));
      NoDieOutcome(logs, t, a) == r && NoDieLimitOutcome(logs, t, a, limit) == r && DieOutcome(logs, t, a) == r
  {
  }

  /** Every philosopher in the table is listed, so a statement about the
      listed philosophers is one about all of them. */
  lemma AllListed(rules: Rules, t: Table)
    requires Valid(t)
    ensures (forall k :: 0 <= k < |t.ids| ==> Obeys(rules, t.data[t.ids[k]])) <==>
      (forall id :: id in t.data ==> Obeys(rules, t.data[id]))
  {
    if forall k :: 0 <= k < |t.ids| ==> Obeys(rules, t.data[t.ids[k]]) {
      forall id | id in t.data ensures Obeys(rules, t.data[id]) {
        var k :| 0 <= k < |t.ids| && t.ids[k] == id;
      }
    }
  }

  /** Every line matches the grammar. */
  predicate AllMatch(logs: seq<string>) {
    forall k :: 0 <= k < |logs| ==> Matches(logs[k])
  }

  /** What `checker_no_die` asks of a run: every line matches, there are
      `count` philosophers, and none of them died, went `t2d` or longer
      without eating, ate twice without sleeping in between, or slept or ate
      for less than configured. */
  ghost predicate NoDieAccepts(logs: seq<string>, t: Table, a: Args) {
    AllMatch(logs) && |t.ids| == a.count &&
    forall id :: id in t.data ==> t.data[id].died == 0 && Healthy(a, t.data[id])
  }

  /** What `checker_no_die_limit` asks: what `checker_no_die` asks, every
      philosopher ate at least `limit` times, and the fewest meals of any
      philosopher is exactly `limit` (-1 when there are none). */
  ghost predicate NoDieLimitAccepts(logs: seq<string>, t: Table, a: Args, limit: int)
    requires Valid(t)
  {
    NoDieAccepts(logs, t, a) &&
    (forall id :: id in t.data ==> t.data[id].eat >= limit) && MinEat(t.ids, t.data) == limit
  }

  /** What `checker_die` asks: every line matches and each philosopher that
      died did so at most 10 ms past the time to die and obeys the shared
      rules. It neither checks the count nor requires a death. */
  ghost predicate DieAccepts(logs: seq<string>, t: Table, a: Args) {
    AllMatch(logs) &&
    forall id :: id in t.data ==>
      (t.data[id].died != 0 ==> t.data[id].timeToDie <= a.t2d + 10) && Healthy(a, t.data[id])
  }

  lemma NoDiePassIff(logs: seq<string>, t: Table, a: Args)
    requires Valid(t)
    ensures NoDieOutcome(logs, t, a) == Pass <==> NoDieAccepts(logs, t, a)
  {
    AllListed(NoDie(a), t);
  }

  lemma NoDieLimitPassIff(logs: seq<string>, t: Table, a: Args, limit: int)
    requires Valid(t)
    ensures NoDieLimitOutcome(logs, t, a, limit) == Pass <==> NoDieLimitAccepts(logs, t, a, limit)
  {
    AllListed(NoDie(a), t);
    AllListed(NoDieLimit(a, limit), t);
  }

  /** When the limit checker passes, some philosopher ate exactly `limit`
      times, and it can pass with no philosopher at all only for a limit of -1. */
  lemma NoDieLimitPassReachesLimit(logs: seq<string>, t: Table, a: Args, limit: int)
    requires Valid(t)
    requires NoDieLimitOutcome(logs, t, a, limit) == Pass
    ensures t.ids == [] ==> limit == -1
    ensures t.ids != [] ==> exists id :: id in t.data && t.data[id].eat == limit
  {
    if t.ids != [] {
      var k :| 0 <= k < |t.ids| && MinEat(t.ids, t.data) == t.data[t.ids[k]].eat;
      assert t.ids[k] in t.data;
    }
  }

  lemma DiePassIff(logs: seq<string>, t: Table, a: Args)
    requires Valid(t)
    ensures DieOutcome(logs, t, a) == Pass <==> DieAccepts(logs, t, a)
  {
    AllListed(Die(a), t);
  }

  // ---------------------------------------------------------------------
  // The code as written, where it departs from what it evidently intends

  /** The message main.py:64, 121 and 186 print for a too short eat: it
      reports the shortest sleep and the time to sleep. */
  function ShortEatMessageAsWritten(id: nat, p: Philo, a: Args): string {
    AboutPhilo("Philo ", id, " ate " + IntToString(p.shortSleep) + "ms but time to eat is longer: " + IntToString(a.t2s) + ".")
  }

  /** The first character of a number an actor message reports after `mid`. */
  lemma ReportedFirst(lead: string, id: nat, mid: string, x: int, tail: string)
    ensures AboutPhilo(lead, id, mid + IntToString(x) + tail)[|lead| + |NatToString(id)| + |mid|] == IntToString(x)[0]
  {
  }

  /** A philosopher whose meals (100 ms) were shorter than the time to eat
      (200 ms) while every sleep (300 ms) was long enough. */
  const ShortMeals := Philo(1, 1, 0, 2, 0, 0, 0, 0, 300, 300, 100, 100, None, 0)

  lemma ShortMealsFault(a: Args)
    requires a.t2e == 200 && a.t2s == 150 && a.t2d > 0
    ensures Fault(NoDie(a), 1, ShortMeals) == Some(ShortEat(1, 100, 200))
  {
  }

  /** For that philosopher the message as written reports the 300 ms sleep
      where the intended message reports the 100 ms meal. */
  lemma ShortEatMisreported(a: Args)
    requires a.t2e == 200 && a.t2s == 150
    ensures ShortEatMessageAsWritten(1, ShortMeals, a) != Message(ShortEat(1, 100, 200))
  {
    var mid, tail := " ate ", "ms but time to eat is longer: ";
    var asWritten := ShortEatMessageAsWritten(1, ShortMeals, a);
    var intended := ShortEatMessage(1, 100, 200);
    ReportedFirst("Philo ", 1, mid, 300, tail + IntToString(150) + ".");
    ReportedFirst("Philo ", 1, mid, 100, tail + IntToString(200) + ".");
    assert IntToString(300)[0] == NatToString(30)[0] == NatToString(3)[0] == '3';
    assert IntToString(100)[0] == NatToString(10)[0] == NatToString(1)[0] == '1';
    assert asWritten[12] != intended[12];
  }

  /** The count test `philo_count is not count` (main.py:32) and the limit
      test `min_ate is not limit` (main.py:130) compare objects, not values.
      CPython shares one object per value only for -5..256, and the two sides
      are computed separately, so two equal values outside that range still
      count as different. */
  predicate IsNotAsWritten(x: int, y: int) {
    x != y || !(-5 <= x <= 256)
  }

  /** The count check as written. */
  function CountFaultAsWritten(expected: int, found: nat): Option<Reason> {
    if IsNotAsWritten(found, expected) then Some(WrongCount(expected, found)) else None
  }

  /** Three hundred philosophers, all of them found, fail the count check as
      written; the count check the model uses accepts them. */
  lemma LargeCountRejected(logs: seq<string>, t: Table, a: Args)
    requires Valid(t) && |t.ids| == 300 && a.count == 300
    ensures CountFaultAsWritten(a.count, |t.ids|) == Some(WrongCount(300, 300))
    ensures NoDieOutcome(logs, t, a) != Fail(WrongCount(300, 300))
  {
  }

  /** The limit test as written. */
  function LimitFaultAsWritten(minAte: int, limit: int): Option<Reason> {
    if IsNotAsWritten(minAte, limit) then Some(OverLimit(limit, minAte)) else None
  }

  /** A limit of 300 meals that every philosopher reached, the fewest being
      exactly 300, fails the limit test as written; the limit test the model
      uses accepts it. */
  lemma LargeLimitRejected(logs: seq<string>, t: Table, a: Args)
    requires Valid(t) && t.ids != [] && MinEat(t.ids, t.data) == 300
    ensures LimitFaultAsWritten(MinEat(t.ids, t.data), 300) == Some(OverLimit(300, 300))
    ensures NoDieLimitOutcome(logs, t, a, 300) != Fail(OverLimit(300, 300))
  {
  }
}
