/** `call_checker` (main.py:359-376): aggregate the captured lines, run the test
    case's checker if it has one, and show the outcome. */
module Dispatch {
  import opened Wrappers
  import opened LogGrammar
  import opened Timeline
  import opened Checkers

  /** The checker a test case names; `NoChecker` stands for `None`. */
  datatype CheckerKind = NoDieChecker | NoDieLimitChecker | DieChecker | NoChecker

  /** A test case: its argument string, split on spaces and each piece read
      as an integer, and its checker. */
  datatype TestCase = TestCase(args: seq<int>, checker: CheckerKind)

  /** The argument pieces a checker reads: `args[1..3]` for every checker,
      `args[0]` for the two that compare the count, and `args[4]` for the
      limit (main.py:23-27, 77-82, 146-149). */
  predicate HasArgs(tc: TestCase) {
    match tc.checker
    case NoChecker => true
    case NoDieLimitChecker => |tc.args| >= 5
    case _ => |tc.args| >= 4
  }

  function ArgsOf(tc: TestCase): Args
    requires |tc.args| >= 4
  {
    Args(tc.args[0], tc.args[1], tc.args[2], tc.args[3])
  }

  /** What the result label shows. */
  datatype Display = Success | Failed(message: string) | CheckByYourself

  /** The label's text (main.py:366, 370, 374): "Success" for a success and
      only for one; a failure's text is its message after a fixed prefix. */
  function LabelText(d: Display): (r: string)
    ensures r == "Success" <==> d.Success?
    ensures d.Failed? ==> r == "[Failed] " + d.message
  {
    match d
    case Success => "Success"
    case Failed(message) => "[Failed] " + message
    case CheckByYourself => "You should check by yourself"
  }

  function Shown(v: Verdict): Display {
    if v.result then Success else Failed(v.message)
  }

  /** The outcome of the test case's checker on the lines and their table. */
  function CheckerOutcome(tc: TestCase, logs: seq<string>): Outcome
    requires HasArgs(tc) && tc.checker != NoChecker
  {
    var t := Aggregate(logs);
    match tc.checker
    case NoDieChecker => NoDieOutcome(logs, t, ArgsOf(tc))
    case NoDieLimitChecker => NoDieLimitOutcome(logs, t, ArgsOf(tc), tc.args[4])
    case DieChecker => DieOutcome(logs, t, ArgsOf(tc))
  }

  /** What `call_checker` shows for the lines of a finished run. */
  function Judgement(tc: TestCase, logs: seq<string>): Display
    requires HasArgs(tc)
  {
    if tc.checker == NoChecker then CheckByYourself
    else Shown(ToVerdict(CheckerOutcome(tc, logs)))
  }

  method CallChecker(tc: TestCase, logs: seq<string>) returns (d: Display)
    requires HasArgs(tc)
    ensures d == Judgement(tc, logs)
  {
    var data := GetData(logs);
    if tc.checker == NoChecker {
      return CheckByYourself;
    }
    var result: Verdict;
    match tc.checker {
      case NoDieChecker => result := CheckNoDie(logs, data, ArgsOf(tc));
      case NoDieLimitChecker => result := CheckNoDieLimit(logs, data, ArgsOf(tc), tc.args[4]);
      case DieChecker => result := CheckDie(logs, data, ArgsOf(tc));
    }
    if result.result {
      return Success;
    }
    return Failed(result.message);
  }

  /** What the test case's checker asks of the run and its table. */
  ghost predicate Accepts(tc: TestCase, logs: seq<string>)
    requires HasArgs(tc) && tc.checker != NoChecker
  {
    var t := Aggregate(logs);
    match tc.checker
    case NoDieChecker => NoDieAccepts(logs, t, ArgsOf(tc))
    case NoDieLimitChecker => NoDieLimitAccepts(logs, t, ArgsOf(tc), tc.args[4])
    case DieChecker => DieAccepts(logs, t, ArgsOf(tc))
  }

  /** The label reads "Success" exactly when the test case has a checker and
      the run meets that checker's rules, and "You should check by yourself"
      exactly when it has none. */
  lemma JudgementSuccessIff(tc: TestCase, logs: seq<string>)
    requires HasArgs(tc)
    ensures Judgement(tc, logs) == CheckByYourself <==> tc.checker == NoChecker
    ensures Judgement(tc, logs) == Success <==> tc.checker != NoChecker && Accepts(tc, logs)
  {
    if tc.checker != NoChecker {
      OutcomePassIff(tc, logs);
    }
  }

  lemma OutcomePassIff(tc: TestCase, logs: seq<string>)
    requires HasArgs(tc) && tc.checker != NoChecker
    ensures CheckerOutcome(tc, logs) == Pass <==> Accepts(tc, logs)
  {
    var t := Aggregate(logs);
    var a := ArgsOf(tc);
    match tc.checker
    case NoDieChecker =>
      NoDiePassIff(logs, t, a);
    case NoDieLimitChecker =>
      NoDieLimitPassIff(logs, t, a, tc.args[4]);
    case DieChecker =>
      DiePassIff(logs, t, a);
  }

  /** With a checker, a line outside the grammar makes the label show the
      format error followed by the first such line. */
  lemma JudgementMalformed(tc: TestCase, logs: seq<string>, k: nat)
    requires HasArgs(tc) && tc.checker != NoChecker
    requires k < |logs| && !Matches(logs[k])
    ensures FirstMalformed(logs).Some?
    ensures Judgement(tc, logs) == Failed(FormatError + FirstMalformed(logs).value)
  {
    var line := FirstMalformed(logs).value;
    MalformedJudgement(tc, logs, line);
  }

  lemma MalformedJudgement(tc: TestCase, logs: seq<string>, line: string)
    requires HasArgs(tc) && tc.checker != NoChecker
    requires FirstMalformed(logs) == Some(line)
    ensures Judgement(tc, logs) == Failed(FormatError + line)
  {
    assert CheckerOutcome(tc, logs) == Fail(Malformed(line));
  }

  /** The label reads "Success" exactly when the test case has a checker and
      the run meets that checker's acceptance condition. */
  lemma LabelSuccessIff(tc: TestCase, logs: seq<string>)
    requires HasArgs(tc)
    ensures LabelText(Judgement(tc, logs)) == "Success" <==> tc.checker != NoChecker && Accepts(tc, logs)
  {
    JudgementSuccessIff(tc, logs);
  }

  /** With a checker, a line that does not match shows "[Failed] " and the
      format message for the first such line. */
  lemma MalformedLabel(tc: TestCase, logs: seq<string>, k: nat)
    requires HasArgs(tc) && tc.checker != NoChecker
    requires k < |logs| && !Matches(logs[k])
    ensures FirstMalformed(logs).Some?
    ensures LabelText(Judgement(tc, logs)) == "[Failed] " + (FormatError + FirstMalformed(logs).value)
  {
    JudgementMalformed(tc, logs, k);
  }
}
