# Product bundle discount, modelled in Dafny

This project models `run` in the product bundle discount extension, the
function that computes multi-item "bundle" discounts for a cart.

Cart lines can carry two attributes: a bundle rule such as `3for999`, meaning
three units for 999, and a bundle group id. `run` works in two passes.

- **Grouping pass.** Each line that has both attributes non-empty and whose
  rule matches digits, `for`, digits becomes a member of its group. A group is
  created by the first such line, with that line's rule. Members are appended
  in cart order.
- **Pricing pass.** Groups are visited in the order they were created. A group
  whose summed quantity is not exactly the rule's required quantity gets
  nothing. Otherwise each unit is repriced at `fixedTotalPrice / requiredQty`.
  Members are visited in order, and each gets one fixed-amount discount of
  `(price - unit price) * quantity`. The pass stops at the first member whose
  price is not above the unit price. Discounts already emitted for earlier
  members of that group are kept.
- **Result.** The discounts are returned with the strategy `All`.

Modules:

- `Wrappers`: the `Option` type.
- `RuleTag`: the rule tag. It covers the pattern `^(\d+)for(\d+)$` (JavaScript
  `\d` is ASCII digits only) and base-10 `parseInt` of the two captures,
  computed exactly.
- `BundleDiscount`: the data model and the specification by meaning.
  - `Members`, `FirstRule`, `GroupIds` and `Grouping` say which lines form a
    group, which rule the group has, and in which order groups appear.
  - `GroupDiscounts`, `Price` and `Compute` say what is emitted.
  - The imperative methods follow the source's loops:
    - `GroupLines` is the grouping `for` loop with its `continue`s, over a map
      and a key list.
    - `DiscountMembers` is the inner loop with its `break`.
    - `ApplyDiscounts` is the outer pricing loop.
    - `Run` chains them.

  Each method is proved to compute its specification function.
- `BundleProperties`: lemmas about the specification. They cover:
  - which lines take part and which rule wins;
  - group order and the exact-quantity check;
  - the short-circuit on a non-positive per-unit discount;
  - independence between groups, and that every emitted amount is positive;
  - that an ignored line changes nothing;
  - that a fully discounted bundle costs exactly its fixed total.
- `BundleScenarios`: worked examples built on the rule `3for999`. Some start
  from ready groups. The whole-cart ones (`CartOfThreePricing`,
  `MixedCartPricing`, `ScenarioMissingGroupId`) run cart lines through the rule
  tag and the grouping.

The source's single function `run` is modelled as three methods, one per loop,
chained by `Run`. This gives each loop its own contract. The order of effects
is the same as in the source. The only observable output is the discount list,
and it is appended in the same order.

## Model

| member | source | states |
|---|---|---|
| RuleTag.ParseRule | extensions/product-bundle-discount/src/run.js:33-37 | A parsed rule comes from a split of the tag into digits, `for`, digits, and holds the base-10 values of the two digit runs |
| RuleTag.ParseRuleExactly | extensions/product-bundle-discount/src/run.js:33-34 | A tag yields a rule if and only if it is a non-empty digit run, then `for`, then a non-empty digit run, with nothing before or after |
| RuleTag.ParseRuleComplete | extensions/product-bundle-discount/src/run.js:33-37 | For any two digit runs `n` and `m`, the tag `n` + `for` + `m` parses to the rule with required quantity value(n) and fixed total value(m) |
| RuleTag.ParseRuleExamples | extensions/product-bundle-discount/src/run.js:32-34 | `3for999` gives quantity 3 and total 999; `3-for-999` and `for999` give no rule |
| RuleTag.DigitsValue | extensions/product-bundle-discount/src/run.js:36-37 | Definition: the base-10 value of a digit run, the value `parseInt(…, 10)` gives a capture of the pattern, without precision loss |
| BundleDiscount.Present | extensions/product-bundle-discount/src/run.js:30 | Definition: the truthiness test on an attribute value: present and not the empty string |
| BundleDiscount.Classify | extensions/product-bundle-discount/src/run.js:27-37 | Definition: the group id and rule a line contributes, or none when either attribute is missing or empty (line 30) or the rule tag does not match (line 34) |
| BundleDiscount.Members | extensions/product-bundle-discount/src/run.js:39-51 | Definition: a group's member records, one per contributing line, in cart order, each with the line's id, quantity and unit price |
| BundleDiscount.GroupOf | extensions/product-bundle-discount/src/run.js:40-51 | Definition: a group is its members together with the rule of its first contributing line |
| BundleDiscount.Grouping | extensions/product-bundle-discount/src/run.js:26-52 | Definition: what `bundleGroups` holds after the loop: for each id of `GroupIds`, the group `GroupOf` of that id |
| BundleDiscount.AddLine | extensions/product-bundle-discount/src/run.js:30-51 | Definition: one iteration of the grouping loop on the map: a skipped line changes nothing; otherwise the line's group, created with the line's rule when absent, gets the line appended |
| BundleDiscount.Accepted | extensions/product-bundle-discount/src/run.js:58 | Definition: a group is priced only when its summed quantity equals the rule's required quantity |
| BundleDiscount.PerUnitDiscount | extensions/product-bundle-discount/src/run.js:67 | Definition: a member's price minus the unit price |
| BundleDiscount.EntryFor | extensions/product-bundle-discount/src/run.js:73-89 | Definition: one member's discount: the message with the unit price, the member's line id as target, and the per-unit discount times the quantity as amount |
| BundleDiscount.Entries | extensions/product-bundle-discount/src/run.js:63-89 | One discount per member, in member order, as many as there are members |
| BundleDiscount.GroupDiscounts | extensions/product-bundle-discount/src/run.js:56-90 | Definition: what one group emits: nothing unless `Accepted`, otherwise the entries of the members of the qualifying prefix at the unit price |
| BundleDiscount.Price | extensions/product-bundle-discount/src/run.js:55-91 | Definition: the discounts of the groups of `keys`, concatenated group after group in key order |
| BundleDiscount.Compute | extensions/product-bundle-discount/src/run.js:21-97 | Definition: the result of `run` on a cart: strategy `All` with `Price(GroupIds(lines), Grouping(lines))` |
| BundleDiscount.FirstRule | extensions/product-bundle-discount/src/run.js:40-45 | A group has a rule exactly when it has at least one member |
| BundleDiscount.GroupIds | extensions/product-bundle-discount/src/run.js:40-45 | The group keys are exactly the ids with at least one member, each listed once |
| BundleDiscount.GroupingStep | extensions/product-bundle-discount/src/run.js:30-51 | Processing one more line changes the grouping as one loop iteration does: skip, or create the group with this line's rule when absent, then append the line |
| BundleDiscount.SkipStep | extensions/product-bundle-discount/src/run.js:30-34 | A line without both attributes, or with a non-matching rule, leaves the keys, every group's members and every group's rule unchanged |
| BundleDiscount.GroupIdsStep | extensions/product-bundle-discount/src/run.js:40-45 | A contributing line adds its group id at the end of the keys only when that group does not exist yet |
| BundleDiscount.OwnGroupStep | extensions/product-bundle-discount/src/run.js:40-51 | A contributing line is appended to its group's members; the group keeps its rule, or takes this line's rule if it is the group's first member |
| BundleDiscount.OtherGroupsKept | extensions/product-bundle-discount/src/run.js:47-51 | A contributing line changes no other group's members or rule |
| BundleDiscount.GroupLines | extensions/product-bundle-discount/src/run.js:26-52 | The grouping loop produces exactly the keys `GroupIds` and the groups `Grouping` of the whole cart |
| BundleDiscount.TotalQty | extensions/product-bundle-discount/src/run.js:56 | The summed quantity of a group is at least each member's quantity |
| BundleDiscount.UnitPrice | extensions/product-bundle-discount/src/run.js:61 | The unit price times the required quantity is the fixed total price |
| BundleDiscount.QualifyingPrefix | extensions/product-bundle-discount/src/run.js:63-70 | The members discounted are the longest prefix whose per-unit discount is positive, and the next member, if there is one, has a non-positive per-unit discount |
| BundleDiscount.DiscountMembers | extensions/product-bundle-discount/src/run.js:63-90 | The inner loop emits one entry per member of the qualifying prefix, in order, and nothing after the break |
| BundleDiscount.ApplyDiscounts | extensions/product-bundle-discount/src/run.js:55-91 | The pricing loop emits, group after group in key order, exactly the discounts of each group |
| BundleDiscount.Run | extensions/product-bundle-discount/src/run.js:21-97 | `run` returns strategy `All` with the discounts of all groups of the cart |
| BundleProperties.ClassifyExactly | extensions/product-bundle-discount/src/run.js:27-37 | A line contributes to group `id` with rule `r` if and only if its group id is `id` and not empty, and its rule tag is digits, `for`, digits with values `r` |
| BundleProperties.MembersNonEmptyIff | extensions/product-bundle-discount/src/run.js:39-51 | A group exists if and only if some cart line contributes to it |
| BundleProperties.MembersAreContributingLines | extensions/product-bundle-discount/src/run.js:47-51 | The member line ids of a group are exactly the ids of the lines contributing to it |
| BundleProperties.MemberIdsDistinct | extensions/product-bundle-discount/src/run.js:47-51 | With unique cart line ids, a group's members have distinct line ids |
| BundleProperties.GroupsDisjoint | extensions/product-bundle-discount/src/run.js:39-51 | With unique cart line ids, two different groups share no line |
| BundleProperties.FirstRuleIsFirst | extensions/product-bundle-discount/src/run.js:40-45 | A group's rule is the rule of the first line that contributes to it |
| BundleProperties.RuleNeverReplaced | extensions/product-bundle-discount/src/run.js:40-45 | Once a group has a rule, later lines never change it, even if they carry a different rule |
| BundleProperties.GroupIdsInFirstSeenOrder | extensions/product-bundle-discount/src/run.js:40-45 | Groups are ordered by first appearance: a group listed earlier has a contributing line before any line of a group listed later |
| BundleProperties.EntriesAt | extensions/product-bundle-discount/src/run.js:63-89 | The k-th entry of a run of members is the discount of the k-th member |
| BundleProperties.EntryAmountPositive | extensions/product-bundle-discount/src/run.js:67-73 | A member with a positive per-unit discount gets a positive total discount |
| BundleProperties.AcceptedRequiresUnits | extensions/product-bundle-discount/src/run.js:56-61 | An accepted group requires at least one unit, so the unit price division is defined |
| BundleProperties.GroupDiscountsTargetMembers | extensions/product-bundle-discount/src/run.js:75-83 | Every discount of a group targets one of its member lines |
| BundleProperties.GroupDiscountsPrefix | extensions/product-bundle-discount/src/run.js:63-73 | An accepted group's discounts are, in order, the entries of its members up to the first non-positive per-unit discount, and each such member has a positive per-unit discount |
| BundleProperties.PriceTargeting | extensions/product-bundle-discount/src/run.js:55-91 | Among all emitted discounts, those on a group's lines are exactly that group's own discounts, and none if the group is not visited |
| BundleProperties.PriceTargetsMembers | extensions/product-bundle-discount/src/run.js:55-91 | Every emitted discount targets a member of some visited group |
| BundleProperties.PricePositive | extensions/product-bundle-discount/src/run.js:67-73 | Every emitted discount amount is positive |
| BundleProperties.DiscountsOfGroup | extensions/product-bundle-discount/src/run.js:55-91 | With unique cart line ids, the discounts on a group's lines in the whole result are exactly that group's discounts, whatever other groups do |
| BundleProperties.RejectedGroupGetsNothing | extensions/product-bundle-discount/src/run.js:56-58 | With unique cart line ids, a group whose summed quantity differs from its required quantity gets no discount on any of its lines |
| BundleProperties.AllDiscountsPositive | extensions/product-bundle-discount/src/run.js:67-96 | The result's strategy is `All` and every discount in it has a positive amount |
| BundleProperties.GroupShortCircuit | extensions/product-bundle-discount/src/run.js:63-70 | In an accepted group, once a member's per-unit discount is not positive, that member and all later members get no discount |
| BundleProperties.ShortCircuit | extensions/product-bundle-discount/src/run.js:63-70 | With unique cart line ids, in the whole result a member at or after the first non-positive per-unit discount of its group gets nothing |
| BundleProperties.DiscountsTargetContributingLines | extensions/product-bundle-discount/src/run.js:26-52 | Every discount targets a cart line that contributes to some group |
| BundleProperties.SkippedLineGetsNoDiscount | extensions/product-bundle-discount/src/run.js:30-34 | With unique cart line ids, a line lacking an attribute, or with a non-matching rule, gets no discount |
| BundleProperties.SkippedLineKeepsMembers | extensions/product-bundle-discount/src/run.js:30-34 | Inserting a skipped line anywhere in the cart leaves every group's members unchanged |
| BundleProperties.SkippedLineKeepsRule | extensions/product-bundle-discount/src/run.js:30-34 | Inserting a skipped line anywhere leaves every group's rule unchanged |
| BundleProperties.SkippedLineKeepsGroupIds | extensions/product-bundle-discount/src/run.js:30-34 | Inserting a skipped line anywhere leaves the group order unchanged |
| BundleProperties.GroupIdsSnoc | extensions/product-bundle-discount/src/run.js:40-45 | Adding a line at the end of the cart adds its group id at the end of the keys only if it opens a new group |
| BundleProperties.SkippedLineIgnored | extensions/product-bundle-discount/src/run.js:30-34 | Inserting a skipped line anywhere in the cart leaves the whole result unchanged |
| BundleProperties.TimesProduct | extensions/product-bundle-discount/src/run.js:73 | Repeated addition of an amount, n times, equals the amount times n |
| BundleProperties.EntryAmount | extensions/product-bundle-discount/src/run.js:67-73 | A member's discount amount is its per-unit saving counted once per unit |
| BundleProperties.RepricedTotal | extensions/product-bundle-discount/src/run.js:61-89 | The members' cost minus all their entries equals the unit price times their summed quantity |
| BundleProperties.PricedAtUnit | extensions/product-bundle-discount/src/run.js:58-61 | When the summed quantity is the required quantity, cost minus discounts is the fixed total |
| BundleProperties.AllMembersDiscounted | extensions/product-bundle-discount/src/run.js:63-90 | If no member breaks the loop, every member of an accepted group gets its entry |
| BundleProperties.FullyDiscountedBundleCostsFixedTotal | extensions/product-bundle-discount/src/run.js:56-90 | An accepted group in which every member's price is above the unit price costs exactly its fixed total price after its discounts |
| BundleScenarios.AcceptedGroupPricing | extensions/product-bundle-discount/src/run.js:55-90 | Three single units at 400 under `3for999` each get a discount of 67 with a unit price of 333 |
| BundleScenarios.ShortGroupRejected | extensions/product-bundle-discount/src/run.js:56-58 | Two units under `3for999` get no discount |
| BundleScenarios.PriceBelowUnitGroup | extensions/product-bundle-discount/src/run.js:67-70 | Three units at 300 under `3for999` get no discount, because 300 is not above 333 |
| BundleScenarios.ScenarioMissingGroupId | extensions/product-bundle-discount/src/run.js:30 | A tagged line without a group id yields an empty result with strategy `All` |
| BundleScenarios.MixedGroupsPricing | extensions/product-bundle-discount/src/run.js:55-91 | Next to an accepted group, a group short of quantity adds no discount and removes none |
| BundleScenarios.Appended | extensions/product-bundle-discount/src/run.js:39-51 | A line appended to any cart joins its group in the grouping: its id is added to the keys only if new, it is appended to its group's members, the group's rule is kept or set by it, and other groups are unchanged |
| BundleScenarios.CartOfThreeGroups | extensions/product-bundle-discount/src/run.js:26-52 | Three lines tagged three-for-999 in one group form exactly one group, with the three lines as members and that rule |
| BundleScenarios.CartPricing | extensions/product-bundle-discount/src/run.js:21-97 | For any tag read as three for 999 and any non-empty group id, the whole three-line cart gets one discount of 67 per line with unit price 333 |
| BundleScenarios.CartOfThreePricing | extensions/product-bundle-discount/src/run.js:21-97 | The whole cart of three lines tagged `3for999` in group `g1` yields strategy `All` and the three savings of 67 |
| BundleScenarios.MixedCartGrouping | extensions/product-bundle-discount/src/run.js:26-52 | Three lines of one group followed by two of another form the two groups in that order, with their lines as members |
| BundleScenarios.MixedCartPricing | extensions/product-bundle-discount/src/run.js:21-97 | The whole mixed cart yields only the three savings of its first group; its second group, one unit short, gets nothing |

## Left out

- Message text: the message is kept as the unit price it shows. The text from
  `toFixed(2)` and the currency sign (mis-encoded in the source) are not modelled.
- IEEE-754 doubles: prices, the unit price and the amounts are exact reals.
  Rounding in `fixedTotalPrice / requiredQty` and in the products is not
  modelled.
- `parseInt` precision: digit runs have their exact value. The loss of
  precision in the source above 2^53 is not modelled.
- Object key order: groups are visited in creation order. `Object.entries`
  would list group ids that are canonical array-index strings (such as
  `"12"`, but not `"012"`, `"-1"` or `"1.5"`) first, in ascending numeric
  order. That reordering is not modelled.
- Inherited object keys: `bundleGroups` is a plain object. A group id such as
  `toString` or `__proto__` finds an inherited property, which makes the
  source throw or misbehave. The model treats every id as an ordinary key.
- Input plumbing: a cart line is read as the five fields `run` uses. The
  attributes are modelled as optional strings and the quantity as a positive
  integer. Behaviour on non-string attributes, or on zero or negative
  quantities, is not modelled. With zero quantities, `0for<M>` could be
  accepted and divide by zero.
- The generated `DiscountApplicationStrategy` import is the single value
  `Strategy.All`. The unused constant `EMPTY_DISCOUNT` is not modelled.
- MemberIdsDistinct: assumes unique cart line ids, because it is stated about line ids; the source does not need them unique.
- GroupsDisjoint: assumes unique cart line ids, because it is stated about line ids; the source does not need them unique.
- DiscountsOfGroup: assumes unique cart line ids, because it is stated about line ids; the source does not need them unique.
- RejectedGroupGetsNothing: assumes unique cart line ids, because it is stated about line ids; the source does not need them unique.
- ShortCircuit: assumes unique cart line ids, because it is stated about line ids; the source does not need them unique.
- SkippedLineGetsNoDiscount: assumes unique cart line ids, because it is stated about line ids; the source does not need them unique.
