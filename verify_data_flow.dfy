/** The result collector of the data-flow verification script (`VerificationResults`) and
    the exit status of its `main`.

    The checks the script runs against the live services are outside the model; their
    outcomes arrive as calls of `AddTest` and `AddWarning`. Printing is modelled by the status
    each entry is printed with. */
module Verification {
  import opened Common

  /** One entry of `tests`; `warning` is true only for entries made by `add_warning`. */
  datatype TestEntry = TestEntry(name: string, passed: bool, warning: bool, message: string,
                                 details: seq<(string, string)>)

  /** The status printed in front of an entry's name. */
  datatype Status = Pass | Fail | Warn

  /** `"✓ PASS" if test["passed"] else "✗ FAIL"`, overridden by `"⚠ WARN"` for a warning. */
  function StatusOf(e: TestEntry): (s: Status)
    ensures s == Warn <==> e.warning
    ensures s == Fail <==> !e.passed && !e.warning
  {
    var s := if e.passed then Pass else Fail;
    if e.warning then Warn else s
  }

  /** `details or {}` */
  function DetailsOrEmpty(details: Option<seq<(string, string)>>): (d: seq<(string, string)>)
    ensures details.None? ==> d == []
    ensures details.Some? ==> d == details.value
  {
    if details.Some? then details.value else []
  }

  /** Entries as the two adders make them: only a passed entry can be a warning. */
  predicate WellFormed(e: TestEntry) {
    e.warning ==> e.passed
  }

  function PassCount(tests: seq<TestEntry>): nat
    decreases |tests|
  {
    if tests == [] then 0
    else PassCount(tests[..|tests| - 1]) + (if StatusOf(tests[|tests| - 1]) == Pass then 1 else 0)
  }

  function FailCount(tests: seq<TestEntry>): nat
    decreases |tests|
  {
    if tests == [] then 0
    else FailCount(tests[..|tests| - 1]) + (if StatusOf(tests[|tests| - 1]) == Fail then 1 else 0)
  }

  function WarnCount(tests: seq<TestEntry>): nat
    decreases |tests|
  {
    if tests == [] then 0
    else WarnCount(tests[..|tests| - 1]) + (if StatusOf(tests[|tests| - 1]) == Warn then 1 else 0)
  }

  /** Every entry has exactly one status, so the three counts add up to the number of entries. */
  lemma {:induction false} CountsAddUp(tests: seq<TestEntry>)
    ensures PassCount(tests) + FailCount(tests) + WarnCount(tests) == |tests|
    decreases |tests|
  {
    if tests != [] {
      CountsAddUp(tests[..|tests| - 1]);
    }
  }

  /** No failure is counted exactly when no entry failed. */
  lemma {:induction false} FailCountZeroIff(tests: seq<TestEntry>)
    requires forall i :: 0 <= i < |tests| ==> WellFormed(tests[i])
    ensures FailCount(tests) == 0 <==> forall i :: 0 <= i < |tests| ==> tests[i].passed
    decreases |tests|
  {
    if tests != [] {
      var front := tests[..|tests| - 1];
      assert forall i :: 0 <= i < |front| ==> front[i] == tests[i];
      FailCountZeroIff(front);
    }
  }

  /** The exit status of the script: 1 when anything failed, otherwise 0 (warnings or not). */
  function ExitCode(failed: nat): (code: int)
    ensures code == 0 || code == 1
    ensures code == 1 <==> failed > 0
  {
    if failed > 0 then 1 else 0
  }

  /** The closing line of `main`. */
  datatype Verdict = VerificationFailed | CompletedWithWarnings | VerificationPassed

  function VerdictOf(failed: nat, warnings: nat): (v: Verdict)
    ensures v == VerificationFailed <==> failed > 0
    ensures v == CompletedWithWarnings <==> failed == 0 && warnings > 0
  {
    if failed > 0 then VerificationFailed
    else if warnings > 0 then CompletedWithWarnings
    else VerificationPassed
  }

  class VerificationResults {
    var tests: seq<TestEntry>
    var passed: nat
    var failed: nat
    var warnings: nat

    /** The counters count the entries by the status they print with. */
    predicate Valid()
      reads this
    {
      (forall i :: 0 <= i < |tests| ==> WellFormed(tests[i]))
      && passed == PassCount(tests) && failed == FailCount(tests) && warnings == WarnCount(tests)
    }

    constructor()
      ensures Valid() && tests == [] && passed == 0 && failed == 0 && warnings == 0
    {
      tests := [];
      passed := 0;
      failed := 0;
      warnings := 0;
    }

    /** `add_test`: one entry, and one more passed or failed. */
    method AddTest(name: string, ok: bool, message: string, details: Option<seq<(string, string)>>)
      requires Valid()
      modifies this
      ensures Valid()
      ensures tests == old(tests) + [TestEntry(name, ok, false, message, DetailsOrEmpty(details))]
      ensures passed == old(passed) + (if ok then 1 else 0) && failed == old(failed) + (if ok then 0 else 1)
      ensures warnings == old(warnings)
    {
      var e := TestEntry(name, ok, false, message, DetailsOrEmpty(details));
      assert (tests + [e])[..|tests|] == tests;
      tests := tests + [e];
      if ok {
        passed := passed + 1;
      } else {
        failed := failed + 1;
      }
    }

    /** `add_warning`: one entry marked passed and a warning, and one more warning only. */
    method AddWarning(name: string, message: string, details: Option<seq<(string, string)>>)
      requires Valid()
      modifies this
      ensures Valid()
      ensures tests == old(tests) + [TestEntry(name, true, true, message, DetailsOrEmpty(details))]
      ensures warnings == old(warnings) + 1 && passed == old(passed) && failed == old(failed)
    {
      var e := TestEntry(name, true, true, message, DetailsOrEmpty(details));
      assert (tests + [e])[..|tests|] == tests;
      tests := tests + [e];
      warnings := warnings + 1;
    }

    /** `Total Tests: len(self.tests)` is the sum of the three counters. */
    lemma TotalIsSum()
      requires Valid()
      ensures |tests| == passed + failed + warnings
    {
      CountsAddUp(tests);
    }

    /** The script exits with 1 exactly when some recorded entry did not pass. */
    lemma ExitCodeIff()
      requires Valid()
      ensures ExitCode(failed) == 1 <==> exists i :: 0 <= i < |tests| && !tests[i].passed
    {
      FailCountZeroIff(tests);
    }
  }

  /** A warning is printed as WARN although it counts as passed, and an ordinary entry as
      PASS or FAIL by its outcome. */
  lemma PrintedStatus(name: string, ok: bool, message: string, details: seq<(string, string)>)
    ensures StatusOf(TestEntry(name, true, true, message, details)) == Warn
    ensures StatusOf(TestEntry(name, ok, false, message, details)) == (if ok then Pass else Fail)
  {
  }
}
