/**
 * The bundle discount calculator `run` (extensions/product-bundle-discount/src/run.js:21-97).
 *
 * Cart lines tagged with a rule `<N>for<M>` and a bundle group id are grouped by
 * that id; a group whose summed quantity is exactly N gets its units repriced at
 * M / N each, one fixed-amount discount per member, until the first member whose
 * price is not above that unit price.
 *
 * The specification is stated by meaning: `Members`, `FirstRule` and `GroupIds`
 * say which lines form a group, which rule it has and in which order groups
 * appear; `GroupDiscounts` and `Price` say what is emitted; `Compute` is the whole
 * result. The methods `GroupLines`, `ApplyDiscounts` and `Run` are the two loops of
 * the source, proved to compute it.
 */
module BundleDiscount {
  import opened Wrappers
  import opened RuleTag

  /** Cart quantities are positive. */
  type Quantity = q: nat | q > 0 witness 1

  /** A cart line as `run` reads it (run.js:27-28, 48-50). */
  datatype CartLine = CartLine(
    id: string,
    quantity: Quantity,
    price: real,
    bundleRule: Option<string>,
    bundleGroupId: Option<string>)

  /** A member record of a bundle group (run.js:47-51). */
  datatype Member = Member(lineId: string, quantity: Quantity, originalPrice: real)

  /** A bundle group: its members in insertion order and the rule it was created with (run.js:41-44). */
  datatype Group = Group(lineItems: seq<Member>, rule: Rule)

  /** The message of a discount, kept as the unit price it displays (run.js:76). */
  datatype Message = BundleOffer(fixedPricePerUnit: real)

  /** One fixed-amount discount on one cart line (run.js:75-89). */
  datatype Discount = Discount(message: Message, targetId: string, amount: real)

  datatype Strategy = All

  /** What `run` returns (run.js:93-96). */
  datatype RunResult = RunResult(strategy: Strategy, discounts: seq<Discount>)

  // ----- Grouping (run.js:26-52) -----

  /** A JavaScript-truthy string attribute: present and not empty. */
  predicate Present(attribute: Option<string>) {
    attribute.Some? && attribute.value != ""
  }

  /** The group id and rule a line contributes, or None when the line is skipped (run.js:30, 34). */
  function Classify(l: CartLine): Option<(string, Rule)> {
    if !Present(l.bundleRule) || !Present(l.bundleGroupId) then None
    else
      match ParseRule(l.bundleRule.value)
      case None => None
      case Some(rule) => Some((l.bundleGroupId.value, rule))
  }

  predicate Contributes(l: CartLine, id: string) {
    Classify(l).Some? && Classify(l).value.0 == id
  }

  function ToMember(l: CartLine): Member {
    Member(l.id, l.quantity, l.price)
  }

  /** The member records of group `id`: its contributing lines, in input order. */
  function Members(lines: seq<CartLine>, id: string): seq<Member> {
    if lines == [] then []
    else
      var last := lines[|lines| - 1];
      Members(lines[..|lines| - 1], id) + (if Contributes(last, id) then [ToMember(last)] else [])
  }

  /** The rule of the earliest line that contributes to group `id`. */
  function FirstRule(lines: seq<CartLine>, id: string): (r: Option<Rule>)
    ensures r.Some? <==> Members(lines, id) != []
  {
    if lines == [] then None
    else
      var earlier := FirstRule(lines[..|lines| - 1], id);
      var last := lines[|lines| - 1];
      if earlier.Some? then earlier
      else if Contributes(last, id) then Some(Classify(last).value.1)
      else None
  }

  /** The ids of the groups, each once, in the order in which they are first seen. */
  function GroupIds(lines: seq<CartLine>): (ids: seq<string>)
    ensures forall id :: id in ids <==> Members(lines, id) != []
    ensures forall i, j :: 0 <= i < j < |ids| ==> ids[i] != ids[j]
  {
    if lines == [] then []
    else
      var earlier := GroupIds(lines[..|lines| - 1]);
      var contributed := Classify(lines[|lines| - 1]);
      if contributed.Some? && contributed.value.0 !in earlier then earlier + [contributed.value.0]
      else earlier
  }

  function GroupOf(lines: seq<CartLine>, id: string): Group
    requires Members(lines, id) != []
  {
    Group(Members(lines, id), FirstRule(lines, id).value)
  }

  /** The content of `bundleGroups` once every line has been seen. */
  function Grouping(lines: seq<CartLine>): map<string, Group> {
    map id | id in GroupIds(lines) :: GroupOf(lines, id)
  }

  /**
   * One step of the grouping loop on `bundleGroups`: the line's group, created
   * with the line's rule when absent, gets the line appended; a skipped line
   * changes nothing.
   */
  function AddLine(groups: map<string, Group>, l: CartLine): map<string, Group> {
    match Classify(l)
    case None => groups
    case Some((id, rule)) =>
      var group := if id in groups then groups[id] else Group([], rule);
      groups[id := group.(lineItems := group.lineItems + [ToMember(l)])]
  }

  /** The grouping of a longer prefix is one loop step on the grouping of the shorter. */
  lemma GroupingStep(lines: seq<CartLine>, i: nat)
    requires i < |lines|
    ensures Grouping(lines[..i + 1]) == AddLine(Grouping(lines[..i]), lines[i])
  {
    if Classify(lines[i]).None? {
      SkipGrouping(lines, i);
    } else {
      AddGrouping(lines, i, Classify(lines[i]).value.0, Classify(lines[i]).value.1);
    }
  }

  lemma SkipGrouping(lines: seq<CartLine>, i: nat)
    requires i < |lines| && Classify(lines[i]).None?
    ensures Grouping(lines[..i + 1]) == Grouping(lines[..i])
  {
    var p, p' := lines[..i], lines[..i + 1];
    SkipStep(lines, i);
    forall id | id in GroupIds(p) ensures GroupOf(p', id) == GroupOf(p, id) {
      assert Members(p', id) == Members(p, id);
      assert FirstRule(p', id) == FirstRule(p, id);
    }
  }

  lemma AddGrouping(lines: seq<CartLine>, i: nat, id: string, rule: Rule)
    requires i < |lines| && Classify(lines[i]) == Some((id, rule))
    ensures Grouping(lines[..i + 1]) == AddLine(Grouping(lines[..i]), lines[i])
  {
    var m := AddLine(Grouping(lines[..i]), lines[i]);
    AddGroupingKeys(lines, i, id, rule);
    forall k | k in m ensures Grouping(lines[..i + 1])[k] == m[k] {
      AddGroupingValue(lines, i, id, rule, k);
    }
  }

  lemma AddGroupingKeys(lines: seq<CartLine>, i: nat, id: string, rule: Rule)
    requires i < |lines| && Classify(lines[i]) == Some((id, rule))
    ensures Grouping(lines[..i + 1]).Keys == AddLine(Grouping(lines[..i]), lines[i]).Keys
  {
    GroupIdsStep(lines, i, id);
  }

  lemma AddGroupingValue(lines: seq<CartLine>, i: nat, id: string, rule: Rule, k: string)
    requires i < |lines| && Classify(lines[i]) == Some((id, rule))
    requires k in AddLine(Grouping(lines[..i]), lines[i])
    ensures k in Grouping(lines[..i + 1]) && Grouping(lines[..i + 1])[k] == AddLine(Grouping(lines[..i]), lines[i])[k]
  {
    var p, p' := lines[..i], lines[..i + 1];
    GroupIdsStep(lines, i, id);
    if k == id {
      OwnGroupStep(lines, i, id, rule);
    } else {
      OtherGroupsKept(lines, i, id);
      assert GroupOf(p', k) == GroupOf(p, k);
    }
  }

  /** A skipped line changes no group id and no group. */
  lemma SkipStep(lines: seq<CartLine>, i: nat)
    requires i < |lines| && Classify(lines[i]).None?
    ensures GroupIds(lines[..i + 1]) == GroupIds(lines[..i])
    ensures forall id :: Members(lines[..i + 1], id) == Members(lines[..i], id)
    ensures forall id :: FirstRule(lines[..i + 1], id) == FirstRule(lines[..i], id)
  {
    assert lines[..i + 1][..i] == lines[..i];
  }

  /** A contributing line adds its group id when it is the first of that group. */
  lemma GroupIdsStep(lines: seq<CartLine>, i: nat, id: string)
    requires i < |lines| && Classify(lines[i]).Some? && Classify(lines[i]).value.0 == id
    ensures GroupIds(lines[..i + 1]) == if id in GroupIds(lines[..i]) then GroupIds(lines[..i]) else GroupIds(lines[..i]) + [id]
  {
    assert lines[..i + 1][..i] == lines[..i];
  }

  /** A contributing line joins its group, which keeps its rule or takes the line's. */
  lemma OwnGroupStep(lines: seq<CartLine>, i: nat, id: string, rule: Rule)
    requires i < |lines| && Classify(lines[i]) == Some((id, rule))
    ensures Members(lines[..i + 1], id) == Members(lines[..i], id) + [ToMember(lines[i])]
    ensures FirstRule(lines[..i + 1], id) == if Members(lines[..i], id) != [] then FirstRule(lines[..i], id) else Some(rule)
  {
    assert lines[..i + 1][..i] == lines[..i];
  }

  /** The groups other than the one a line contributes to are the same after it. */
  lemma OtherGroupsKept(lines: seq<CartLine>, i: nat, id: string)
    requires i < |lines| && Classify(lines[i]).Some? && Classify(lines[i]).value.0 == id
    ensures forall other | other != id :: Members(lines[..i + 1], other) == Members(lines[..i], other)
    ensures forall other | other != id :: FirstRule(lines[..i + 1], other) == FirstRule(lines[..i], other)
  {
    assert lines[..i + 1][..i] == lines[..i];
  }

  // ----- Pricing (run.js:55-91) -----

  /** The summed quantity of a group's members (the `reduce` at run.js:56). */
  function TotalQty(ms: seq<Member>): (t: nat)
    ensures forall i :: 0 <= i < |ms| ==> ms[i].quantity <= t
  {
    if ms == [] then 0 else TotalQty(ms[..|ms| - 1]) + ms[|ms| - 1].quantity
  }

  /** The bundle's price per unit (run.js:61): priced this way, the required units cost the fixed total. */
  function UnitPrice(rule: Rule): (u: real)
    requires rule.requiredQty > 0
    ensures u * rule.requiredQty as real == rule.fixedTotalPrice as real
  {
    rule.fixedTotalPrice as real / rule.requiredQty as real
  }

  function PerUnitDiscount(m: Member, unit: real): real {
    m.originalPrice - unit
  }

  /** The length of the longest prefix of `ms` whose members all have a positive per-unit discount. */
  function QualifyingPrefix(ms: seq<Member>, unit: real): (k: nat)
    ensures k <= |ms|
    ensures forall i :: 0 <= i < k ==> PerUnitDiscount(ms[i], unit) > 0.0
    ensures k < |ms| ==> PerUnitDiscount(ms[k], unit) <= 0.0
  {
    if ms == [] || PerUnitDiscount(ms[0], unit) <= 0.0 then 0
    else 1 + QualifyingPrefix(ms[1..], unit)
  }

  /** The discount of one member: its per-unit discount on every unit it has (run.js:73-89). */
  function EntryFor(m: Member, unit: real): Discount {
    Discount(BundleOffer(unit), m.lineId, PerUnitDiscount(m, unit) * m.quantity as real)
  }

  /** One discount per member, in member order. */
  function Entries(ms: seq<Member>, unit: real): (ds: seq<Discount>)
    ensures |ds| == |ms|
  {
    if ms == [] then [] else Entries(ms[..|ms| - 1], unit) + [EntryFor(ms[|ms| - 1], unit)]
  }

  predicate Accepted(g: Group) {
    TotalQty(g.lineItems) == g.rule.requiredQty
  }

  /**
   * What one group emits: nothing unless its quantity matches the rule exactly,
   * otherwise one discount for each member of the qualifying prefix.
   */
  function GroupDiscounts(g: Group): seq<Discount>
    requires g.lineItems != []
  {
    if !Accepted(g) then []
    else
      var unit := UnitPrice(g.rule);
      Entries(g.lineItems[..QualifyingPrefix(g.lineItems, unit)], unit)
  }

  predicate GroupsNonEmpty(keys: seq<string>, groups: map<string, Group>) {
    forall id :: id in keys ==> id in groups && groups[id].lineItems != []
  }

  /** The discounts of the groups `keys`, group after group. */
  function Price(keys: seq<string>, groups: map<string, Group>): seq<Discount>
    requires GroupsNonEmpty(keys, groups)
  {
    if keys == [] then []
    else Price(keys[..|keys| - 1], groups) + GroupDiscounts(groups[keys[|keys| - 1]])
  }

  /** The result of `run` on a cart. */
  function Compute(lines: seq<CartLine>): RunResult {
    RunResult(All, Price(GroupIds(lines), Grouping(lines)))
  }

  // ----- The source's loops -----

  /** The grouping loop (run.js:26-52): builds `bundleGroups` in place, line by line. */
  method GroupLines(lines: seq<CartLine>) returns (keys: seq<string>, groups: map<string, Group>)
    ensures keys == GroupIds(lines)
    ensures groups == Grouping(lines)
  {
    keys, groups := [], map[];
    for i := 0 to |lines|
      invariant keys == GroupIds(lines[..i])
      invariant groups == Grouping(lines[..i])
    {
      var lineItem := lines[i];
      GroupingStep(lines, i);
      if !Present(lineItem.bundleRule) || !Present(lineItem.bundleGroupId) {
        SkipStep(lines, i);
        continue;
      }
      var parsed := ParseRule(lineItem.bundleRule.value);
      if parsed.None? {
        SkipStep(lines, i);
        continue;
      }
      var id := lineItem.bundleGroupId.value;
      GroupIdsStep(lines, i, id);
      // The group is created with this line's rule when absent, then the line is pushed.
      var group := if id in groups then groups[id] else Group([], parsed.value);
      if id !in groups {
        keys := keys + [id];
      }
      groups := groups[id := group.(lineItems := group.lineItems + [Member(lineItem.id, lineItem.quantity, lineItem.price)])];
    }
    assert lines[..|lines|] == lines;
  }

  /**
   * The loop over one accepted group's members (run.js:63-90): a discount for each
   * member until the first whose per-unit discount is not positive, where it stops.
   */
  method DiscountMembers(lineItems: seq<Member>, fixedPricePerUnit: real) returns (emitted: seq<Discount>)
    ensures emitted == Entries(lineItems[..QualifyingPrefix(lineItems, fixedPricePerUnit)], fixedPricePerUnit)
  {
    emitted := [];
    var j := 0;
    while j < |lineItems|
      invariant j <= |lineItems|
      invariant forall i :: 0 <= i < j ==> PerUnitDiscount(lineItems[i], fixedPricePerUnit) > 0.0
      invariant emitted == Entries(lineItems[..j], fixedPricePerUnit)
    {
      var lineItem := lineItems[j];
      var discountPerUnit := lineItem.originalPrice - fixedPricePerUnit;
      if discountPerUnit <= 0.0 {
        break;
      }
      var totalDiscount := discountPerUnit * lineItem.quantity as real;
      assert lineItems[..j + 1][..j] == lineItems[..j];
      assert Discount(BundleOffer(fixedPricePerUnit), lineItem.lineId, totalDiscount) == EntryFor(lineItem, fixedPricePerUnit);
      emitted := emitted + [Discount(BundleOffer(fixedPricePerUnit), lineItem.lineId, totalDiscount)];
      j := j + 1;
    }
    assert j == QualifyingPrefix(lineItems, fixedPricePerUnit);
  }

  /** The pricing loop (run.js:55-91), over the groups in creation order. */
  method ApplyDiscounts(keys: seq<string>, groups: map<string, Group>) returns (discounts: seq<Discount>)
    requires GroupsNonEmpty(keys, groups)
    ensures discounts == Price(keys, groups)
  {
    discounts := [];
    for g := 0 to |keys|
      invariant discounts == Price(keys[..g], groups)
    {
      assert keys[..g + 1][..g] == keys[..g];
      var group := groups[keys[g]];
      var totalQty := TotalQty(group.lineItems);
      if totalQty != group.rule.requiredQty {
        continue;
      }
      assert group.lineItems[0].quantity <= totalQty;
      var fixedPricePerUnit := group.rule.fixedTotalPrice as real / group.rule.requiredQty as real;
      var emitted := DiscountMembers(group.lineItems, fixedPricePerUnit);
      discounts := discounts + emitted;
    }
    assert keys[..|keys|] == keys;
  }

  /** `run`: group the lines, price the groups, and return every discount with the All strategy. */
  method Run(lines: seq<CartLine>) returns (result: RunResult)
    ensures result == Compute(lines)
  {
    var keys, groups := GroupLines(lines);
    var discounts := ApplyDiscounts(keys, groups);
    result := RunResult(All, discounts);
  }
}
