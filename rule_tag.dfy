/**
 * The bundle rule tag `<N>for<M>`: the pattern `^(\d+)for(\d+)$` and the two
 * base-10 `parseInt` calls that turn its digit runs into a rule
 * (extensions/product-bundle-discount/src/run.js:33-37).
 */
module RuleTag {
  import opened Wrappers

  /** The pricing rule of a bundle: buy exactly `requiredQty` units for `fixedTotalPrice` in total. */
  datatype Rule = Rule(requiredQty: nat, fixedTotalPrice: nat)

  /** `\d` of a regular expression without the unicode flag: an ASCII decimal digit. */
  predicate IsDigit(c: char) {
    '0' <= c <= '9'
  }

  predicate AllDigits(s: string) {
    forall i :: 0 <= i < |s| ==> IsDigit(s[i])
  }

  /** What `\d+` matches: one or more digits. */
  predicate IsDigitRun(s: string) {
    |s| > 0 && AllDigits(s)
  }

  /** The base-10 value of a digit string, as `parseInt(s, 10)` computes it. */
  function DigitsValue(s: string): nat
    requires AllDigits(s)
  {
    if s == [] then 0
    else
      10 * DigitsValue(s[..|s| - 1]) + (s[|s| - 1] as int - '0' as int)
  }

  /** The length of the longest run of digits at the start of `s`. */
  function LeadingDigits(s: string): (k: nat)
    ensures k <= |s|
    ensures AllDigits(s[..k])
    ensures k < |s| ==> !IsDigit(s[k])
  {
    if s == [] || !IsDigit(s[0]) then 0
    else
      var k := 1 + LeadingDigits(s[1..]);
      assert forall i :: 0 < i < k ==> s[..k][i] == s[1..][..k - 1][i - 1];
      k
  }

  /** `\d+` can never reach past the first non-digit, so the first run of `<N>for<M>` is `<N>`. */
  predicate Matches(tag: string, n: string, m: string) {
    IsDigitRun(n) && IsDigitRun(m) && tag == n + "for" + m
  }

  /**
   * The rule a tag encodes, or None when the tag does not match `^(\d+)for(\d+)$`
   * (the `continue` at run.js:34).
   */
  function ParseRule(tag: string): (r: Option<Rule>)
    ensures r.Some? ==> exists n, m :: Matches(tag, n, m) && r.value == Rule(DigitsValue(n), DigitsValue(m))
  {
    var k := LeadingDigits(tag);
    if 0 < k && k + 3 < |tag| && tag[k..k + 3] == "for" && AllDigits(tag[k + 3..]) then
      assert tag == tag[..k] + "for" + tag[k + 3..] by {
        assert tag == tag[..k] + tag[k..k + 3] + tag[k + 3..];
      }
      assert Matches(tag, tag[..k], tag[k + 3..]);
      Some(Rule(DigitsValue(tag[..k]), DigitsValue(tag[k + 3..])))
    else
      None
  }

  /** Every tag of the form digits, `for`, digits is accepted, with the values of its two runs. */
  lemma ParseRuleComplete(n: string, m: string)
    requires IsDigitRun(n) && IsDigitRun(m)
    ensures ParseRule(n + "for" + m) == Some(Rule(DigitsValue(n), DigitsValue(m)))
  {
    var tag := n + "for" + m;
    var k := LeadingDigits(tag);
    assert !IsDigit(tag[|n|]);
    assert forall i :: 0 <= i < |n| ==> tag[i] == n[i];
    assert k == |n|;
    assert tag[..k] == n;
    assert tag[k..k + 3] == "for";
    assert tag[k + 3..] == m;
  }

  /** The tag is accepted exactly when it is digits, then `for`, then digits. */
  lemma ParseRuleExactly(tag: string)
    ensures ParseRule(tag).Some? <==> exists n, m :: Matches(tag, n, m)
  {
    if exists n, m :: Matches(tag, n, m) {
      var n, m :| Matches(tag, n, m);
      ParseRuleComplete(n, m);
    }
  }

  /** The two tags of the scenarios: `3for999` is buy three for 999, `3-for-999` is no rule. */
  lemma ParseRuleExamples()
    ensures ParseRule("3for999") == Some(Rule(3, 999))
    ensures ParseRule("3-for-999") == None
    ensures ParseRule("for999") == None
  {
    ParseRuleComplete("3", "999");
    assert DigitsValue("3") == 3 by { assert "3"[..0] == ""; }
    assert DigitsValue("999") == 999 by {
      assert "999"[..2] == "99";
      assert "99"[..1] == "9";
      assert "9"[..0] == "";
    }
    assert "3for999" == "3" + "for" + "999";
    assert LeadingDigits("3-for-999") == 1 by { assert "3-for-999"[1..][0] == '-'; }
    assert "3-for-999"[1..4] != "for" by { assert "3-for-999"[1..4][0] == '-'; }
  }
}
