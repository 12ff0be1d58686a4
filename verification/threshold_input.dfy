/**
  The page's threshold validator `containsOnlyNumbers`, the regular
  expression `/\d+(\.\d+)*$/` tested against the raw input text
  (packages/site/src/pages/index.tsx).

  The pattern is anchored at the end (`$`) but not at the start, so a test
  succeeds when SOME suffix of the text is a dotted number; the grammar below
  states that reading, and the validator is proved equal to the much simpler
  "the text ends in an ASCII digit".
 */
module ThresholdInput {
  import opened Decimal

  /** `\d+`: one or more ASCII digits. */
  ghost predicate DigitRun(t: string) {
    |t| > 0 && AllDigits(t)
  }

  /** `(\.\d+)*`: zero or more groups, each a dot followed by a digit run. */
  ghost predicate DotGroups(u: string)
    decreases |u|
  {
    || |u| == 0
    || exists k :: 2 <= k <= |u| && u[0] == '.' && DigitRun(u[1..k]) && DotGroups(u[k..])
  }

  /** `\d+(\.\d+)*` matching the whole of `t`. */
  ghost predicate NumberToken(t: string) {
    exists k :: 1 <= k <= |t| && DigitRun(t[..k]) && DotGroups(t[k..])
  }

  /** `/\d+(\.\d+)*$/.test(s)`: a match may start anywhere but must end at the end of `s`. */
  ghost predicate PatternTest(s: string) {
    exists i :: 0 <= i <= |s| && NumberToken(s[i..])
  }

  lemma {:induction false} DotGroupsEndInDigit(u: string)
    requires DotGroups(u) && |u| > 0
    ensures IsDigit(u[|u| - 1])
    decreases |u|
  {
    var k :| 2 <= k <= |u| && u[0] == '.' && DigitRun(u[1..k]) && DotGroups(u[k..]);
    if k == |u| {
      assert u[1..k][|u[1..k]| - 1] == u[|u| - 1];
    } else {
      DotGroupsEndInDigit(u[k..]);
    }
  }

  lemma {:induction false} NumberTokenEndsInDigit(t: string)
    requires NumberToken(t)
    ensures |t| > 0 && IsDigit(t[|t| - 1])
  {
    var k :| 1 <= k <= |t| && DigitRun(t[..k]) && DotGroups(t[k..]);
    if k == |t| {
      assert t[..k][k - 1] == t[|t| - 1];
    } else {
      DotGroupsEndInDigit(t[k..]);
    }
  }

  /** The pattern test succeeds exactly on the texts whose last character is an ASCII digit. */
  lemma {:induction false} PatternTestIffEndsInDigit(s: string)
    ensures PatternTest(s) <==> (|s| > 0 && IsDigit(s[|s| - 1]))
  {
    if PatternTest(s) {
      var i :| 0 <= i <= |s| && NumberToken(s[i..]);
      NumberTokenEndsInDigit(s[i..]);
    }
    if |s| > 0 && IsDigit(s[|s| - 1]) {
      var t := s[|s| - 1..];
      assert t[..1] == t && t[1..] == [];
      assert DigitRun(t[..1]) && DotGroups(t[1..]);
      assert NumberToken(t);
    }
  }

  /** `containsOnlyNumbers`: despite its name, it accepts any text ending in a digit. */
  function ContainsOnlyNumbers(s: string): (b: bool)
    ensures b <==> PatternTest(s)
  {
    PatternTestIffEndsInDigit(s);
    |s| > 0 && IsDigit(s[|s| - 1])
  }

  /** Worked instances: letters or several dots before a final digit pass, a trailing dot fails. */
  lemma ValidatorExamples()
    ensures ContainsOnlyNumbers("abc1") && ContainsOnlyNumbers("1.2.3")
    ensures !ContainsOnlyNumbers("12.") && !ContainsOnlyNumbers("")
  {
  }
}
