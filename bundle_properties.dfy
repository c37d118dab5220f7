/**
 * Properties of the bundle discount calculator, stated about `Compute` (which
 * `BundleDiscount.Run` is proved to return) and about the grouping and pricing
 * functions it is built from.
 */
module BundleProperties {
  import opened Wrappers
  import opened RuleTag
  import opened BundleDiscount

  /** Cart line ids are unique within a cart. */
  ghost predicate UniqueLineIds(lines: seq<CartLine>) {
    forall i, j :: 0 <= i < j < |lines| ==> lines[i].id != lines[j].id
  }

  function LineIds(ms: seq<Member>): set<string> {
    set m | m in ms :: m.lineId
  }

  /** The ids of the cart lines that contribute to group `id`. */
  function ContributingIds(lines: seq<CartLine>, id: string): set<string> {
    set l | l in lines && Contributes(l, id) :: l.id
  }

  /** The discounts, in order, that target one of the lines `ids`. */
  function Targeting(ds: seq<Discount>, ids: set<string>): seq<Discount> {
    if ds == [] then []
    else
      var last := ds[|ds| - 1];
      Targeting(ds[..|ds| - 1], ids) + (if last.targetId in ids then [last] else [])
  }

  // ----- Which lines take part (run.js:27-37) -----

  /**
   * A line contributes to group `id` with rule `r` exactly when its group id is `id`
   * (not empty) and its tag is digits, `for`, digits, whose values are `r`.
   */
  lemma ClassifyExactly(l: CartLine, id: string, r: Rule)
    ensures Classify(l) == Some((id, r)) <==>
      && l.bundleGroupId == Some(id) && id != ""
      && l.bundleRule.Some?
      && exists n, m :: Matches(l.bundleRule.value, n, m) && r == Rule(DigitsValue(n), DigitsValue(m))
  {
    if l.bundleGroupId == Some(id) && id != "" && l.bundleRule.Some? {
      if exists n, m :: Matches(l.bundleRule.value, n, m) && r == Rule(DigitsValue(n), DigitsValue(m)) {
        var n, m :| Matches(l.bundleRule.value, n, m) && r == Rule(DigitsValue(n), DigitsValue(m));
        ParseRuleComplete(n, m);
      }
    }
  }

  /** Group `id` has members exactly when some line contributes to it. */
  lemma {:induction false} MembersNonEmptyIff(lines: seq<CartLine>, id: string)
    ensures Members(lines, id) != [] <==> exists i :: 0 <= i < |lines| && Contributes(lines[i], id)
  {
    if lines != [] {
      var pre := lines[..|lines| - 1];
      MembersNonEmptyIff(pre, id);
      assert forall i :: 0 <= i < |pre| ==> pre[i] == lines[i];
    }
  }

  /** The member line ids of group `id` are the ids of the lines that contribute to it. */
  lemma {:induction false} MembersAreContributingLines(lines: seq<CartLine>, id: string)
    ensures LineIds(Members(lines, id)) == ContributingIds(lines, id)
  {
    if lines != [] {
      var pre, last := lines[..|lines| - 1], lines[|lines| - 1];
      MembersAreContributingLines(pre, id);
      assert lines == pre + [last];
      assert ContributingIds(lines, id)
          == ContributingIds(pre, id) + (if Contributes(last, id) then {last.id} else {});
    }
  }

  /** With unique cart ids, no two members of a group target the same line. */
  lemma {:induction false} MemberIdsDistinct(lines: seq<CartLine>, id: string)
    requires UniqueLineIds(lines)
    ensures forall p, k :: 0 <= p < k < |Members(lines, id)| ==> Members(lines, id)[p].lineId != Members(lines, id)[k].lineId
  {
    if lines != [] {
      var pre, last := lines[..|lines| - 1], lines[|lines| - 1];
      MemberIdsDistinct(pre, id);
      MembersAreContributingLines(pre, id);
      var ms := Members(pre, id);
      forall p | 0 <= p < |ms| ensures ms[p].lineId != last.id {
        assert ms[p].lineId in ContributingIds(pre, id);
        var l :| l in pre && Contributes(l, id) && l.id == ms[p].lineId;
        var j :| 0 <= j < |pre| && pre[j] == l;
        assert lines[j] == l;
      }
    }
  }

  /** Lines of two different groups never share an id, when cart ids are unique. */
  lemma GroupsDisjoint(lines: seq<CartLine>, a: string, b: string)
    requires UniqueLineIds(lines) && a != b
    ensures LineIds(Members(lines, a)) !! LineIds(Members(lines, b))
  {
    MembersAreContributingLines(lines, a);
    MembersAreContributingLines(lines, b);
  }

  // ----- The rule of a group (run.js:40-45) -----

  /** A group's rule is the rule of the first line that contributes to it. */
  lemma {:induction false} FirstRuleIsFirst(lines: seq<CartLine>, id: string, i: nat)
    requires i < |lines| && Contributes(lines[i], id)
    requires forall j :: 0 <= j < i ==> !Contributes(lines[j], id)
    ensures FirstRule(lines, id) == Some(Classify(lines[i]).value.1)
  {
    var pre := lines[..|lines| - 1];
    assert forall j :: 0 <= j < |pre| ==> pre[j] == lines[j];
    if i == |lines| - 1 {
      MembersNonEmptyIff(pre, id);
    } else {
      FirstRuleIsFirst(pre, id, i);
    }
  }

  /** Lines that come after the group exists never change its rule. */
  lemma {:induction false} RuleNeverReplaced(pre: seq<CartLine>, post: seq<CartLine>, id: string)
    requires FirstRule(pre, id).Some?
    ensures FirstRule(pre + post, id) == FirstRule(pre, id)
  {
    if post != [] {
      var post' := post[..|post| - 1];
      assert (pre + post)[..|pre + post| - 1] == pre + post';
      RuleNeverReplaced(pre, post', id);
      assert FirstRule(pre + post, id) == FirstRule(pre + post', id);
    } else {
      assert pre + post == pre;
    }
  }

  // ----- The order of the groups (run.js:40-45, 55) -----

  /**
   * Groups are priced in the order in which they are created: the first line of a
   * later group comes after some line of every earlier group.
   */
  lemma {:induction false} GroupIdsInFirstSeenOrder(lines: seq<CartLine>, j: nat, k: nat, q: nat)
    requires j < k < |GroupIds(lines)|
    requires q < |lines| && Contributes(lines[q], GroupIds(lines)[k])
    ensures exists p :: 0 <= p < q && Contributes(lines[p], GroupIds(lines)[j])
  {
    var pre := lines[..|lines| - 1];
    var ids, earlier := GroupIds(lines), GroupIds(pre);
    assert forall i :: 0 <= i < |pre| ==> pre[i] == lines[i];
    assert ids == earlier || ids == earlier + [Classify(lines[|lines| - 1]).value.0];
    assert j < |earlier|;
    assert ids[j] == earlier[j];
    if q < |pre| {
      MembersNonEmptyIff(pre, ids[k]);
      assert ids[k] in earlier;
      assert k < |earlier|;
      GroupIdsInFirstSeenOrder(pre, j, k, q);
    } else {
      MembersNonEmptyIff(pre, ids[j]);
      assert earlier[j] in earlier;
    }
  }

  // ----- Pricing one group (run.js:56-90) -----

  /** The discount at position `i` is that of the member at position `i`. */
  lemma {:induction false} EntriesAt(ms: seq<Member>, unit: real)
    ensures forall i :: 0 <= i < |ms| ==> Entries(ms, unit)[i] == EntryFor(ms[i], unit)
  {
    if ms != [] {
      var ms' := ms[..|ms| - 1];
      EntriesAt(ms', unit);
      assert forall i :: 0 <= i < |ms'| ==> ms'[i] == ms[i];
    }
  }

  lemma EntryAmountPositive(m: Member, unit: real)
    requires PerUnitDiscount(m, unit) > 0.0
    ensures EntryFor(m, unit).amount > 0.0
  {
    assert m.quantity as real >= 1.0;
  }

  /**
   * An accepted group requires at least one unit, so the unit price of an
   * accepted group never divides by zero.
   */
  lemma AcceptedRequiresUnits(g: Group)
    requires g.lineItems != [] && Accepted(g)
    ensures g.rule.requiredQty > 0
  {
    assert g.lineItems[0].quantity <= TotalQty(g.lineItems);
  }

  /** The discounts of one group target its own members only. */
  lemma GroupDiscountsTargetMembers(g: Group)
    requires g.lineItems != []
    ensures forall d :: d in GroupDiscounts(g) ==> d.targetId in LineIds(g.lineItems)
  {
    if Accepted(g) {
      assert g.lineItems[0].quantity <= TotalQty(g.lineItems);
      var unit := UnitPrice(g.rule);
      var ms := g.lineItems[..QualifyingPrefix(g.lineItems, unit)];
      EntriesAt(ms, unit);
      forall d | d in GroupDiscounts(g) ensures d.targetId in LineIds(g.lineItems) {
        var k :| 0 <= k < |ms| && Entries(ms, unit)[k] == d;
        assert g.lineItems[k] in g.lineItems;
      }
    }
  }

  /**
   * The emitted discounts of an accepted group are those of its members up to the
   * first non-positive per-unit discount, each being that member's whole saving.
   */
  lemma GroupDiscountsPrefix(g: Group)
    requires g.lineItems != [] && Accepted(g)
    ensures g.rule.requiredQty > 0
    ensures var ds, unit := GroupDiscounts(g), UnitPrice(g.rule);
      && |ds| <= |g.lineItems|
      && (forall k :: 0 <= k < |ds| ==>
            PerUnitDiscount(g.lineItems[k], unit) > 0.0 && ds[k] == EntryFor(g.lineItems[k], unit))
      && (|ds| < |g.lineItems| ==> PerUnitDiscount(g.lineItems[|ds|], unit) <= 0.0)
  {
    assert g.lineItems[0].quantity <= TotalQty(g.lineItems);
    var unit := UnitPrice(g.rule);
    EntriesAt(g.lineItems[..QualifyingPrefix(g.lineItems, unit)], unit);
  }

  // ----- Pricing all groups -----

  lemma {:induction false} TargetingConcat(a: seq<Discount>, b: seq<Discount>, ids: set<string>)
    ensures Targeting(a + b, ids) == Targeting(a, ids) + Targeting(b, ids)
  {
    if b != [] {
      var b' := b[..|b| - 1];
      assert (a + b)[..|a + b| - 1] == a + b';
      assert (a + b)[|a + b| - 1] == b[|b| - 1];
      TargetingConcat(a, b', ids);
    } else {
      assert a + b == a;
    }
  }

  lemma {:induction false} TargetingAll(ds: seq<Discount>, ids: set<string>)
    requires forall d :: d in ds ==> d.targetId in ids
    ensures Targeting(ds, ids) == ds
  {
    if ds != [] {
      var ds', last := ds[..|ds| - 1], ds[|ds| - 1];
      assert ds == ds' + [last];
      forall d | d in ds' ensures d.targetId in ids {
        assert d in ds' + [last];
      }
      TargetingAll(ds', ids);
    }
  }

  lemma {:induction false} TargetingNone(ds: seq<Discount>, ids: set<string>)
    requires forall d :: d in ds ==> d.targetId !in ids
    ensures Targeting(ds, ids) == []
  {
    if ds != [] {
      var ds', last := ds[..|ds| - 1], ds[|ds| - 1];
      assert ds == ds' + [last];
      forall d | d in ds' ensures d.targetId !in ids {
        assert d in ds' + [last];
      }
      TargetingNone(ds', ids);
    }
  }

  lemma {:induction false} TargetingSubseq(ds: seq<Discount>, ids: set<string>)
    ensures forall d :: d in Targeting(ds, ids) <==> d in ds && d.targetId in ids
  {
    if ds != [] {
      var ds' := ds[..|ds| - 1];
      TargetingSubseq(ds', ids);
      assert ds == ds' + [ds[|ds| - 1]];
    }
  }

  /**
   * Within `Price`, the discounts on the lines of group `id` are the group's own
   * discounts, whatever the other groups are, provided no other group shares a line.
   */
  lemma {:induction false} PriceTargeting(keys: seq<string>, groups: map<string, Group>, id: string)
    requires GroupsNonEmpty(keys, groups)
    requires forall i, j :: 0 <= i < j < |keys| ==> keys[i] != keys[j]
    requires id in groups
    requires forall other :: other in keys && other != id ==> LineIds(groups[other].lineItems) !! LineIds(groups[id].lineItems)
    ensures id in keys ==> Targeting(Price(keys, groups), LineIds(groups[id].lineItems)) == GroupDiscounts(groups[id])
    ensures id !in keys ==> Targeting(Price(keys, groups), LineIds(groups[id].lineItems)) == []
  {
    var ids := LineIds(groups[id].lineItems);
    if keys != [] {
      var keys', last := keys[..|keys| - 1], keys[|keys| - 1];
      DistinctPrefix(keys, keys');
      PriceTargeting(keys', groups, id);
      var earlier, own := Price(keys', groups), GroupDiscounts(groups[last]);
      assert Price(keys, groups) == earlier + own;
      TargetingConcat(earlier, own, ids);
      LastGroupTargeting(groups[last], ids, last == id);
      assert last != id ==> (id in keys <==> id in keys');
    }
  }

  /** Dropping the last of distinct keys leaves distinct keys, none of them the last. */
  lemma DistinctPrefix(keys: seq<string>, keys': seq<string>)
    requires keys != [] && keys' == keys[..|keys| - 1]
    requires forall i, j :: 0 <= i < j < |keys| ==> keys[i] != keys[j]
    ensures forall x :: x in keys' ==> x in keys
    ensures forall i, j :: 0 <= i < j < |keys'| ==> keys'[i] != keys'[j]
    ensures keys[|keys| - 1] !in keys'
  {
  }

  /** The last group contributes all its discounts when it is group `id`, and none otherwise. */
  lemma LastGroupTargeting(g: Group, ids: set<string>, own: bool)
    requires g.lineItems != []
    requires own ==> LineIds(g.lineItems) == ids
    requires !own ==> LineIds(g.lineItems) !! ids
    ensures Targeting(GroupDiscounts(g), ids) == if own then GroupDiscounts(g) else []
  {
    GroupDiscountsTargetMembers(g);
    if own {
      TargetingAll(GroupDiscounts(g), ids);
    } else {
      TargetingNone(GroupDiscounts(g), ids);
    }
  }

  /** Every discount of `Price` targets a member of one of the groups. */
  lemma {:induction false} PriceTargetsMembers(keys: seq<string>, groups: map<string, Group>)
    requires GroupsNonEmpty(keys, groups)
    ensures forall d :: d in Price(keys, groups) ==> exists k :: k in keys && d.targetId in LineIds(groups[k].lineItems)
  {
    if keys != [] {
      var keys', last := keys[..|keys| - 1], keys[|keys| - 1];
      assert forall x :: x in keys' ==> x in keys;
      PriceTargetsMembers(keys', groups);
      GroupDiscountsTargetMembers(groups[last]);
    }
  }

  /** Every discount `Price` emits saves a positive amount. */
  lemma {:induction false} PricePositive(keys: seq<string>, groups: map<string, Group>)
    requires GroupsNonEmpty(keys, groups)
    ensures forall d :: d in Price(keys, groups) ==> d.amount > 0.0
  {
    if keys != [] {
      var keys', g := keys[..|keys| - 1], groups[keys[|keys| - 1]];
      assert forall x :: x in keys' ==> x in keys;
      PricePositive(keys', groups);
      if Accepted(g) {
        GroupDiscountsPrefix(g);
        forall d | d in GroupDiscounts(g) ensures d.amount > 0.0 {
          var k :| 0 <= k < |GroupDiscounts(g)| && GroupDiscounts(g)[k] == d;
          EntryAmountPositive(g.lineItems[k], UnitPrice(g.rule));
        }
      }
    }
  }

  // ----- Properties of the whole result (run.js:21-97) -----

  lemma ComputeGroupsWellFormed(lines: seq<CartLine>, id: string)
    requires UniqueLineIds(lines)
    requires id in GroupIds(lines)
    ensures id in Grouping(lines) && Grouping(lines)[id] == GroupOf(lines, id)
    ensures forall other :: other in GroupIds(lines) && other != id ==>
      LineIds(Grouping(lines)[other].lineItems) !! LineIds(Grouping(lines)[id].lineItems)
  {
    forall other | other in GroupIds(lines) && other != id
      ensures LineIds(Members(lines, other)) !! LineIds(Members(lines, id))
    {
      GroupsDisjoint(lines, other, id);
    }
  }

  /**
   * Independence of groups: the discounts on the lines of one group are exactly
   * what that group alone yields, in member order, whatever the other groups hold.
   */
  lemma DiscountsOfGroup(lines: seq<CartLine>, id: string)
    requires UniqueLineIds(lines)
    requires id in GroupIds(lines)
    ensures Targeting(Compute(lines).discounts, LineIds(Members(lines, id))) == GroupDiscounts(GroupOf(lines, id))
  {
    ComputeGroupsWellFormed(lines, id);
    PriceTargeting(GroupIds(lines), Grouping(lines), id);
  }

  /** A group whose quantity is not exactly the required one gets no discount on any of its lines. */
  lemma RejectedGroupGetsNothing(lines: seq<CartLine>, id: string)
    requires UniqueLineIds(lines)
    requires Members(lines, id) != []
    requires TotalQty(Members(lines, id)) != FirstRule(lines, id).value.requiredQty
    ensures forall d :: d in Compute(lines).discounts ==> d.targetId !in LineIds(Members(lines, id))
  {
    DiscountsOfGroup(lines, id);
    TargetingSubseq(Compute(lines).discounts, LineIds(Members(lines, id)));
  }

  /** Every emitted discount is a positive saving; the strategy is always All. */
  lemma AllDiscountsPositive(lines: seq<CartLine>)
    ensures Compute(lines).strategy == All
    ensures forall d :: d in Compute(lines).discounts ==> d.amount > 0.0
  {
    PricePositive(GroupIds(lines), Grouping(lines));
  }

  /**
   * Short-circuit: in an accepted group, once a member's per-unit discount is not
   * positive, neither it nor any later member of the group gets a discount.
   */
  lemma ShortCircuit(lines: seq<CartLine>, id: string, i: nat, k: nat)
    requires UniqueLineIds(lines)
    requires Members(lines, id) != [] && Accepted(GroupOf(lines, id))
    requires i <= k < |Members(lines, id)|
    requires FirstRule(lines, id).value.requiredQty > 0
    requires PerUnitDiscount(Members(lines, id)[i], UnitPrice(FirstRule(lines, id).value)) <= 0.0
    ensures forall d :: d in Compute(lines).discounts ==> d.targetId != Members(lines, id)[k].lineId
  {
    var g, ms := GroupOf(lines, id), Members(lines, id);
    MemberIdsDistinct(lines, id);
    GroupShortCircuit(g, i, k);
    DiscountsOfGroup(lines, id);
    TargetingSubseq(Compute(lines).discounts, LineIds(ms));
    assert ms[k] in ms;
  }

  /** ShortCircuit within one group whose members have distinct line ids. */
  lemma GroupShortCircuit(g: Group, i: nat, k: nat)
    requires g.lineItems != [] && Accepted(g)
    requires g.rule.requiredQty > 0
    requires forall p, q :: 0 <= p < q < |g.lineItems| ==> g.lineItems[p].lineId != g.lineItems[q].lineId
    requires i <= k < |g.lineItems|
    requires PerUnitDiscount(g.lineItems[i], UnitPrice(g.rule)) <= 0.0
    ensures forall d :: d in GroupDiscounts(g) ==> d.targetId != g.lineItems[k].lineId
  {
    var ds := GroupDiscounts(g);
    GroupDiscountsPrefix(g);
    forall d | d in ds ensures d.targetId != g.lineItems[k].lineId {
      var j :| 0 <= j < |ds| && ds[j] == d;
      assert j < i;
    }
  }

  /** Every discount targets a line that contributes to some group. */
  lemma DiscountsTargetContributingLines(lines: seq<CartLine>)
    ensures forall d :: d in Compute(lines).discounts ==>
      exists l :: l in lines && Classify(l).Some? && d.targetId == l.id
  {
    PriceTargetsMembers(GroupIds(lines), Grouping(lines));
    forall d | d in Compute(lines).discounts
      ensures exists l :: l in lines && Classify(l).Some? && d.targetId == l.id
    {
      var k :| k in GroupIds(lines) && d.targetId in LineIds(Grouping(lines)[k].lineItems);
      MembersAreContributingLines(lines, k);
      assert d.targetId in ContributingIds(lines, k);
    }
  }

  /** A skipped line (missing or empty attributes, or a tag that does not match) gets no discount. */
  lemma SkippedLineGetsNoDiscount(lines: seq<CartLine>, i: nat)
    requires UniqueLineIds(lines)
    requires i < |lines| && Classify(lines[i]).None?
    ensures forall d :: d in Compute(lines).discounts ==> d.targetId != lines[i].id
  {
    DiscountsTargetContributingLines(lines);
    forall d | d in Compute(lines).discounts ensures d.targetId != lines[i].id {
      var l :| l in lines && Classify(l).Some? && d.targetId == l.id;
      var j :| 0 <= j < |lines| && lines[j] == l;
      assert j != i;
    }
  }

  /** Removing a skipped line from anywhere in the cart leaves the members of every group as they were. */
  lemma {:induction false} SkippedLineKeepsMembers(pre: seq<CartLine>, l: CartLine, post: seq<CartLine>, id: string)
    requires Classify(l).None?
    ensures Members(pre + [l] + post, id) == Members(pre + post, id)
  {
    if post == [] {
      assert (pre + [l] + post)[..|pre|] == pre;
      assert pre + post == pre;
    } else {
      var post' := post[..|post| - 1];
      assert (pre + [l] + post)[..|pre + [l] + post| - 1] == pre + [l] + post';
      assert (pre + post)[..|pre + post| - 1] == pre + post';
      SkippedLineKeepsMembers(pre, l, post', id);
    }
  }

  /** ... and the rule of every group. */
  lemma {:induction false} SkippedLineKeepsRule(pre: seq<CartLine>, l: CartLine, post: seq<CartLine>, id: string)
    requires Classify(l).None?
    ensures FirstRule(pre + [l] + post, id) == FirstRule(pre + post, id)
  {
    if post == [] {
      assert (pre + [l] + post)[..|pre|] == pre;
      assert pre + post == pre;
    } else {
      var post' := post[..|post| - 1];
      assert (pre + [l] + post)[..|pre + [l] + post| - 1] == pre + [l] + post';
      assert (pre + post)[..|pre + post| - 1] == pre + post';
      SkippedLineKeepsRule(pre, l, post', id);
    }
  }

  /** ... and the order of the groups. */
  lemma {:induction false} SkippedLineKeepsGroupIds(pre: seq<CartLine>, l: CartLine, post: seq<CartLine>)
    requires Classify(l).None?
    ensures GroupIds(pre + [l] + post) == GroupIds(pre + post)
  {
    if post == [] {
      assert pre + [l] + post == pre + [l];
      assert pre + post == pre;
      GroupIdsSnoc(pre, l);
    } else {
      var post', last := post[..|post| - 1], post[|post| - 1];
      assert pre + [l] + post == (pre + [l] + post') + [last];
      assert pre + post == (pre + post') + [last];
      SkippedLineKeepsGroupIds(pre, l, post');
      GroupIdsSnoc(pre + [l] + post', last);
      GroupIdsSnoc(pre + post', last);
    }
  }

  /** One more line adds its group id at the end, if it contributes to a group not yet seen. */
  lemma GroupIdsSnoc(lines: seq<CartLine>, l: CartLine)
    ensures GroupIds(lines + [l]) ==
      if Classify(l).Some? && Classify(l).value.0 !in GroupIds(lines) then GroupIds(lines) + [Classify(l).value.0]
      else GroupIds(lines)
  {
    assert (lines + [l])[..|lines|] == lines;
  }

  /** A skipped line has no effect on the result. */
  lemma SkippedLineIgnored(pre: seq<CartLine>, l: CartLine, post: seq<CartLine>)
    requires Classify(l).None?
    ensures Compute(pre + [l] + post) == Compute(pre + post)
  {
    SkippedLineKeepsGroupIds(pre, l, post);
    forall id ensures Members(pre + [l] + post, id) == Members(pre + post, id)
      && FirstRule(pre + [l] + post, id) == FirstRule(pre + post, id)
    {
      SkippedLineKeepsMembers(pre, l, post, id);
      SkippedLineKeepsRule(pre, l, post, id);
    }
    assert Grouping(pre + [l] + post) == Grouping(pre + post);
  }

  // ----- The bundle price (run.js:61-80) -----

  /**
   * `x` added up `n` times. The bundle price is argued with this rather than with
   * products, which the arithmetic of the verifier handles poorly in bulk.
   */
  function Times(x: real, n: nat): real {
    if n == 0 then 0.0 else Times(x, n - 1) + x
  }

  lemma {:induction false} TimesProduct(x: real, n: nat)
    ensures Times(x, n) == x * n as real
  {
    if n != 0 {
      TimesProduct(x, n - 1);
      assert x * (n - 1) as real + x == x * n as real;
    }
  }

  lemma {:induction false} TimesSum(x: real, a: nat, b: nat)
    ensures Times(x, a + b) == Times(x, a) + Times(x, b)
  {
    if b != 0 {
      TimesSum(x, a, b - 1);
    }
  }

  lemma {:induction false} TimesDifference(x: real, y: real, n: nat)
    ensures Times(x, n) - Times(y, n) == Times(x - y, n)
  {
    if n != 0 {
      TimesDifference(x, y, n - 1);
    }
  }

  /** What the members cost at their own prices. */
  function Cost(ms: seq<Member>): real {
    if ms == [] then 0.0 else Cost(ms[..|ms| - 1]) + Times(ms[|ms| - 1].originalPrice, ms[|ms| - 1].quantity)
  }

  /** The summed amount of some discounts. */
  function Amount(ds: seq<Discount>): real {
    if ds == [] then 0.0 else Amount(ds[..|ds| - 1]) + ds[|ds| - 1].amount
  }

  lemma AmountSnoc(ds: seq<Discount>, d: Discount)
    ensures Amount(ds + [d]) == Amount(ds) + d.amount
  {
    assert (ds + [d])[..|ds|] == ds;
  }

  /** A member's discount is its per-unit discount on each of its units. */
  lemma EntryAmount(m: Member, unit: real)
    ensures EntryFor(m, unit).amount == Times(m.originalPrice - unit, m.quantity)
  {
    TimesProduct(m.originalPrice - unit, m.quantity);
  }

  /**
   * Discounting every member of `ms` at the unit price `unit` leaves the unit
   * price on each of their units.
   */
  lemma {:induction false} RepricedTotal(ms: seq<Member>, unit: real)
    ensures Cost(ms) - Amount(Entries(ms, unit)) == Times(unit, TotalQty(ms))
  {
    if ms != [] {
      var ms', last := ms[..|ms| - 1], ms[|ms| - 1];
      RepricedTotal(ms', unit);
      assert Entries(ms, unit) == Entries(ms', unit) + [EntryFor(last, unit)];
      AmountSnoc(Entries(ms', unit), EntryFor(last, unit));
      EntryAmount(last, unit);
      TimesDifference(last.originalPrice, unit, last.quantity);
      TimesSum(unit, TotalQty(ms'), last.quantity);
    }
  }

  /** RepricedTotal, for any unit price that spreads the fixed total over the required units. */
  lemma PricedAtUnit(ms: seq<Member>, unit: real, rule: Rule)
    requires TotalQty(ms) == rule.requiredQty
    requires unit * rule.requiredQty as real == rule.fixedTotalPrice as real
    ensures Cost(ms) - Amount(Entries(ms, unit)) == rule.fixedTotalPrice as real
  {
    RepricedTotal(ms, unit);
    TimesProduct(unit, rule.requiredQty);
  }

  /**
   * The bundle offer: when every member of an accepted group is discounted, the
   * group costs exactly the rule's fixed total.
   */
  lemma FullyDiscountedBundleCostsFixedTotal(g: Group)
    requires g.lineItems != [] && Accepted(g)
    requires g.rule.requiredQty > 0
    requires QualifyingPrefix(g.lineItems, UnitPrice(g.rule)) == |g.lineItems|
    ensures Cost(g.lineItems) - Amount(GroupDiscounts(g)) == g.rule.fixedTotalPrice as real
  {
    var unit := UnitPrice(g.rule);
    AllMembersDiscounted(g);
    PricedAtUnit(g.lineItems, unit, g.rule);
  }

  lemma AllMembersDiscounted(g: Group)
    requires g.lineItems != [] && Accepted(g)
    requires g.rule.requiredQty > 0
    requires QualifyingPrefix(g.lineItems, UnitPrice(g.rule)) == |g.lineItems|
    ensures GroupDiscounts(g) == Entries(g.lineItems, UnitPrice(g.rule))
  {
    assert g.lineItems[..|g.lineItems|] == g.lineItems;
  }
}
