/**
 * Worked examples of the bundle discount calculator: what a few small groups
 * and carts with the rule `3for999` (three units for 999, so 333 a unit) yield.
 */
module BundleScenarios {
  import opened Wrappers
  import opened RuleTag
  import opened BundleDiscount

  /** A unit-quantity cart line at price 400 in group `group`, tagged `tag`. */
  function Line(id: string, tag: Option<string>, group: Option<string>): CartLine {
    CartLine(id, 1, 400.0, tag, group)
  }

  /** The discount of one unit at 400 in a `3for999` bundle: 400 - 333 on one unit. */
  function Saving(id: string): Discount {
    Discount(BundleOffer(333.0), id, 67.0)
  }

  /** Lines `a`, `b`, `c`, one unit at 400 each, grouped under `3for999`. */
  function BundleOfThree(): Group {
    Group([Member("a", 1, 400.0), Member("b", 1, 400.0), Member("c", 1, 400.0)], Rule(3, 999))
  }

  /** Scenario: three units at 400 under `3for999`: each line saves 400 - 333 on its unit. */
  lemma {:induction false} AcceptedGroupPricing()
    ensures GroupDiscounts(BundleOfThree()) == [Saving("a"), Saving("b"), Saving("c")]
  {
    var g := BundleOfThree();
    var ms := g.lineItems;
    assert TotalQty(ms[..1]) == 1 by { assert ms[..1][..0] == []; }
    assert TotalQty(ms[..2]) == 2 by { assert ms[..2][..1] == ms[..1]; }
    assert TotalQty(ms) == 3;
    assert UnitPrice(g.rule) == 333.0;
    assert QualifyingPrefix(ms, 333.0) == 3 by {
      assert ms[1..][1..][1..] == [];
    }
    assert ms[..3] == ms;
    assert Entries(ms, 333.0) == [Saving("a"), Saving("b"), Saving("c")] by {
      assert ms[..2][..1] == ms[..1];
      assert ms[..1][..0] == [];
    }
  }

  /** Lines `d` and `e`, one unit at 400 each, grouped under `3for999`: one unit short. */
  function ShortGroup(d: string, e: string): Group {
    Group([Member(d, 1, 400.0), Member(e, 1, 400.0)], Rule(3, 999))
  }

  /** Scenario: two units where `3for999` requires three: nothing is discounted. */
  lemma ShortGroupRejected(d: string, e: string)
    ensures GroupDiscounts(ShortGroup(d, e)) == []
  {
    var ms := ShortGroup(d, e).lineItems;
    assert TotalQty(ms[..1]) == 1 by { assert ms[..1][..0] == []; }
    assert TotalQty(ms) == 2;
  }

  /** Scenario: three units at 300 in a `3for999` group cost less than 333 each, so nothing is discounted. */
  lemma PriceBelowUnitGroup()
    ensures GroupDiscounts(Group([Member("a", 3, 300.0)], Rule(3, 999))) == []
  {
    var ms := [Member("a", 3, 300.0)];
    assert ms[..0] == [];
    assert TotalQty(ms) == 3;
    assert QualifyingPrefix(ms, 333.0) == 0;
  }

  /** Scenario: a tagged line without a group id forms no group and gets nothing. */
  lemma {:induction false} ScenarioMissingGroupId()
    ensures Compute([Line("a", Some("3for999"), None)]) == RunResult(All, [])
  {
    var lines := [Line("a", Some("3for999"), None)];
    assert lines[..0] == [];
    assert GroupIds(lines) == [];
  }

  /**
   * Scenario: next to the accepted group of AcceptedGroupPricing, a group short of
   * quantity adds no discount and takes none away.
   */
  lemma MixedGroupsPricing()
    ensures Price(["g1", "g2"], map["g1" := BundleOfThree(), "g2" := ShortGroup("d", "e")])
      == [Saving("a"), Saving("b"), Saving("c")]
  {
    AcceptedGroupPricing();
    ShortGroupRejected("d", "e");
    var groups := map["g1" := BundleOfThree(), "g2" := ShortGroup("d", "e")];
    assert ["g1", "g2"][..1] == ["g1"];
    assert ["g1"][..0] == [];
    assert Price(["g1"], groups) == [] + GroupDiscounts(BundleOfThree());
  }

  /** A line of group `group` tagged `tag`, one unit at 400. */
  function Tagged(id: string, tag: string, group: string): CartLine {
    Line(id, Some(tag), Some(group))
  }

  /** A tag read as three for 999, such as `3for999` (ParseRuleExamples). */
  predicate ThreeFor999(tag: string) {
    ParseRule(tag) == Some(Rule(3, 999))
  }

  /** Three lines `a`, `b`, `c` of group `g`, each tagged `tag`. */
  function CartOfThree(tag: string, g: string): seq<CartLine> {
    [Tagged("a", tag, g), Tagged("b", tag, g), Tagged("c", tag, g)]
  }

  /** What the grouping holds after the first line of CartOfThree. */
  lemma {:induction false} FirstLineGroups(tag: string, g: string)
    requires ThreeFor999(tag) && g != ""
    ensures var lines := [Tagged("a", tag, g)];
      && GroupIds(lines) == [g]
      && Members(lines, g) == [Member("a", 1, 400.0)]
      && FirstRule(lines, g) == Some(Rule(3, 999))
  {
    var lines := [Tagged("a", tag, g)];
    assert lines[..0] == [];
  }

  /** What the grouping holds after the first two lines of CartOfThree. */
  lemma {:induction false} SecondLineGroups(tag: string, g: string)
    requires ThreeFor999(tag) && g != ""
    ensures var lines := [Tagged("a", tag, g), Tagged("b", tag, g)];
      && GroupIds(lines) == [g]
      && Members(lines, g) == [Member("a", 1, 400.0), Member("b", 1, 400.0)]
      && FirstRule(lines, g) == Some(Rule(3, 999))
  {
    var lines := [Tagged("a", tag, g), Tagged("b", tag, g)];
    assert lines[..1] == [Tagged("a", tag, g)];
    FirstLineGroups(tag, g);
  }

  /** The cart of three lines forms exactly the group of AcceptedGroupPricing. */
  lemma {:induction false} CartOfThreeGroups(tag: string, g: string)
    requires ThreeFor999(tag) && g != ""
    ensures GroupIds(CartOfThree(tag, g)) == [g]
    ensures Members(CartOfThree(tag, g), g) == BundleOfThree().lineItems
    ensures FirstRule(CartOfThree(tag, g), g) == Some(Rule(3, 999))
  {
    var lines := [Tagged("a", tag, g), Tagged("b", tag, g), Tagged("c", tag, g)];
    assert lines[..2] == [Tagged("a", tag, g), Tagged("b", tag, g)];
    SecondLineGroups(tag, g);
    assert CartOfThree(tag, g) == lines;
  }

  /** Scenario: a whole cart of three lines tagged `3for999` in one group gets the three savings of AcceptedGroupPricing. */
  lemma CartOfThreePricing()
    ensures Compute(CartOfThree("3for999", "g1")) == RunResult(All, [Saving("a"), Saving("b"), Saving("c")])
  {
    ParseRuleExamples();
    CartPricing("3for999", "g1");
  }

  /** Any tag read as three for 999 and any group id give the three savings. */
  lemma CartPricing(tag: string, g: string)
    requires ThreeFor999(tag) && g != ""
    ensures Compute(CartOfThree(tag, g)) == RunResult(All, [Saving("a"), Saving("b"), Saving("c")])
  {
    var lines := CartOfThree(tag, g);
    CartOfThreeGroups(tag, g);
    AcceptedGroupPricing();
    var groups := Grouping(lines);
    assert groups[g] == BundleOfThree();
    assert [g][..0] == [];
    assert Price([g], groups) == GroupDiscounts(BundleOfThree());
  }

  /** CartOfThree in group `g`, then lines `d` and `e` tagged `tag` in group `h`. */
  function MixedCart(tag: string, g: string, h: string): seq<CartLine> {
    CartOfThree(tag, g) + [Tagged("d", tag, h)] + [Tagged("e", tag, h)]
  }

  /** One line appended to a cart, as the grouping loop sees it. */
  lemma Appended(pre: seq<CartLine>, l: CartLine, id: string, rule: Rule)
    requires Classify(l) == Some((id, rule))
    ensures GroupIds(pre + [l]) == if id in GroupIds(pre) then GroupIds(pre) else GroupIds(pre) + [id]
    ensures Members(pre + [l], id) == Members(pre, id) + [ToMember(l)]
    ensures FirstRule(pre + [l], id) == if Members(pre, id) != [] then FirstRule(pre, id) else Some(rule)
    ensures forall other | other != id :: Members(pre + [l], other) == Members(pre, other)
    ensures forall other | other != id :: FirstRule(pre + [l], other) == FirstRule(pre, other)
  {
    var lines := pre + [l];
    assert lines[..|pre|] == pre && lines[..|pre| + 1] == lines;
    GroupIdsStep(lines, |pre|, id);
    OwnGroupStep(lines, |pre|, id, rule);
    OtherGroupsKept(lines, |pre|, id);
  }

  /** What the grouping holds after the whole of MixedCart. */
  lemma {:induction false} MixedCartMembers(tag: string, g: string, h: string)
    requires ThreeFor999(tag) && g != "" && h != "" && g != h
    ensures var lines := MixedCart(tag, g, h);
      && GroupIds(lines) == [g, h]
      && Members(lines, g) == BundleOfThree().lineItems
      && FirstRule(lines, g) == Some(Rule(3, 999))
      && Members(lines, h) == ShortGroup("d", "e").lineItems
      && FirstRule(lines, h) == Some(Rule(3, 999))
  {
    var three := CartOfThree(tag, g);
    var four := three + [Tagged("d", tag, h)];
    CartOfThreeGroups(tag, g);
    Appended(three, Tagged("d", tag, h), h, Rule(3, 999));
    Appended(four, Tagged("e", tag, h), h, Rule(3, 999));
  }

  /** The groups the mixed cart forms. */
  lemma MixedCartGrouping(tag: string, g: string, h: string)
    requires ThreeFor999(tag) && g != "" && h != "" && g != h
    ensures GroupIds(MixedCart(tag, g, h)) == [g, h]
    ensures Grouping(MixedCart(tag, g, h)) == map[g := BundleOfThree(), h := ShortGroup("d", "e")]
  {
    MixedCartMembers(tag, g, h);
    var lines := MixedCart(tag, g, h);
    assert GroupOf(lines, g) == BundleOfThree();
    assert GroupOf(lines, h) == ShortGroup("d", "e");
  }

  /** Scenario: the mixed cart gets the three savings of its first group and nothing for the short second group. */
  lemma MixedCartPricing()
    ensures Compute(MixedCart("3for999", "g1", "g2")) == RunResult(All, [Saving("a"), Saving("b"), Saving("c")])
  {
    ParseRuleExamples();
    MixedCartGrouping("3for999", "g1", "g2");
    MixedGroupsPricing();
  }
}
