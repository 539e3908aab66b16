/**
  The association-rule engine's query (`arl_recommender`). Mining itself
  (Apriori and rule generation) is not modelled: the rules arrive already
  ranked by the chosen metric, best first.
 */
module AssociationRules {
  import opened Common
  import opened Sampling

  /**
    A rule antecedent => consequent. The consequent is listed in the
    iteration order of the frozenset that holds it, so its first element is
    the one `list(x)[0]` picks.
   */
  datatype Rule = Rule(antecedent: set<ProductId>, consequent: seq<ProductId>)

  /** The rule generator never emits an empty consequent. */
  ghost predicate WellFormed(rules: seq<Rule>) {
    forall r :: r in rules ==> |r.consequent| > 0
  }

  /** How many of the scanned rules may contribute. */
  const RuleScanLimit: nat := 20

  predicate Mentions(r: Rule, p: ProductId) {
    p in r.antecedent
  }

  /** The rules whose antecedent contains `p`, in ranked order. */
  function Matching(rules: seq<Rule>, p: ProductId): seq<Rule> {
    Filter(rules, (r: Rule) => Mentions(r, p))
  }

  /** The number of rules before position `i` whose antecedent contains `p`. */
  function MatchesBefore(rules: seq<Rule>, p: ProductId, i: nat): nat
    requires i <= |rules|
  {
    |Matching(rules[..i], p)|
  }

  /**
    The products the query may draw from: the first consequent element of
    each of the first twenty rules, in ranked order, whose antecedent holds `p`.
   */
  ghost function RuleHeads(rules: seq<Rule>, p: ProductId): set<ProductId>
    requires WellFormed(rules)
  {
    set i | 0 <= i < |rules| && Mentions(rules[i], p) && MatchesBefore(rules, p, i) < RuleScanLimit
          :: rules[i].consequent[0]
  }

  /** `x` is the rule at position `i` of `rules` with exactly `k` matching rules before it. */
  ghost predicate ScannedAt(rules: seq<Rule>, p: ProductId, k: nat, x: Rule) {
    exists i :: 0 <= i < |rules| && MatchesBefore(rules, p, i) == k && x == rules[i]
  }

  /**
    `[0:20]` of the matching rules: entry `k` is the matching rule with
    exactly `k` matching rules before it, and every matching rule with
    fewer than twenty matching rules before it is kept.
   */
  function FirstMatching(rules: seq<Rule>, p: ProductId): (r: seq<Rule>)
    ensures |r| == Min(RuleScanLimit, |Matching(rules, p)|)
    ensures forall k :: 0 <= k < |r| ==> Mentions(r[k], p) && ScannedAt(rules, p, k, r[k])
    ensures forall i :: 0 <= i < |rules| && Mentions(rules[i], p) && MatchesBefore(rules, p, i) < RuleScanLimit ==>
      MatchesBefore(rules, p, i) < |r| && r[MatchesBefore(rules, p, i)] == rules[i]
  {
    ScannedRulesOrigin(rules, p);
    assert forall i :: 0 <= i < |rules| && Mentions(rules[i], p) && MatchesBefore(rules, p, i) < RuleScanLimit ==>
      MatchesBefore(rules, p, i) < |Prefix(Matching(rules, p), RuleScanLimit)| && Prefix(Matching(rules, p), RuleScanLimit)[MatchesBefore(rules, p, i)] == rules[i]
    by {
      forall i | 0 <= i < |rules| && Mentions(rules[i], p) && MatchesBefore(rules, p, i) < RuleScanLimit
        ensures MatchesBefore(rules, p, i) < |Prefix(Matching(rules, p), RuleScanLimit)| && Prefix(Matching(rules, p), RuleScanLimit)[MatchesBefore(rules, p, i)] == rules[i]
      {
        ScannedRulePosition(rules, p, i);
      }
    }
    Prefix(Matching(rules, p), RuleScanLimit)
  }

  /** Every scanned rule is a matching rule, with as many matching rules before it as its position. */
  lemma ScannedRulesOrigin(rules: seq<Rule>, p: ProductId)
    ensures forall k :: 0 <= k < |Prefix(Matching(rules, p), RuleScanLimit)| ==>
      Mentions(Prefix(Matching(rules, p), RuleScanLimit)[k], p) &&
      ScannedAt(rules, p, k, Prefix(Matching(rules, p), RuleScanLimit)[k])
  {
    forall k | 0 <= k < |Prefix(Matching(rules, p), RuleScanLimit)|
      ensures Mentions(Prefix(Matching(rules, p), RuleScanLimit)[k], p)
      ensures ScannedAt(rules, p, k, Prefix(Matching(rules, p), RuleScanLimit)[k])
    {
      var i := ScannedRuleOrigin(rules, p, k);
    }
  }

  /** Entry `k` of the scanned rules is a matching rule with `k` matching rules before it. */
  lemma ScannedRuleOrigin(rules: seq<Rule>, p: ProductId, k: nat) returns (i: nat)
    requires k < |Prefix(Matching(rules, p), RuleScanLimit)|
    ensures i < |rules| && Mentions(rules[i], p) && MatchesBefore(rules, p, i) == k
    ensures Prefix(Matching(rules, p), RuleScanLimit)[k] == rules[i]
  {
    i := FilterOrigin(rules, (r: Rule) => Mentions(r, p), k);
    assert MatchesBefore(rules, p, i) == k;
  }

  /** A matching rule with fewer than twenty matching rules before it is scanned, at that position. */
  lemma ScannedRulePosition(rules: seq<Rule>, p: ProductId, i: nat)
    requires i < |rules| && Mentions(rules[i], p) && MatchesBefore(rules, p, i) < RuleScanLimit
    ensures MatchesBefore(rules, p, i) < |Prefix(Matching(rules, p), RuleScanLimit)|
    ensures Prefix(Matching(rules, p), RuleScanLimit)[MatchesBefore(rules, p, i)] == rules[i]
  {
    FilterPosition(rules, (r: Rule) => Mentions(r, p), i);
  }

  function Heads(rs: seq<Rule>): (r: seq<ProductId>)
    requires WellFormed(rs)
    ensures |r| == |rs| && forall i :: 0 <= i < |rs| ==> r[i] == rs[i].consequent[0]
  {
    seq(|rs|, i requires 0 <= i < |rs| => rs[i].consequent[0])
  }

  lemma HeadsAreRuleHeads(rules: seq<Rule>, p: ProductId)
    requires WellFormed(rules)
    ensures forall x :: x in Heads(FirstMatching(rules, p)) <==> x in RuleHeads(rules, p)
  {
    var first := FirstMatching(rules, p);
    forall x | x in Heads(first) ensures x in RuleHeads(rules, p) {
      var m :| 0 <= m < |first| && Heads(first)[m] == x;
      assert ScannedAt(rules, p, m, first[m]);
      var i :| 0 <= i < |rules| && MatchesBefore(rules, p, i) == m && first[m] == rules[i];
    }
    forall x | x in RuleHeads(rules, p) ensures x in Heads(first) {
      var i :| 0 <= i < |rules| && Mentions(rules[i], p) && MatchesBefore(rules, p, i) < RuleScanLimit
               && rules[i].consequent[0] == x;
      var m := MatchesBefore(rules, p, i);
      assert Heads(first)[m] == x;
    }
  }

  /** Some product is available exactly when some rule's antecedent holds `p`. */
  lemma RuleHeadsEmpty(rules: seq<Rule>, p: ProductId)
    requires WellFormed(rules)
    ensures RuleHeads(rules, p) == {} <==> forall i :: 0 <= i < |rules| ==> !Mentions(rules[i], p)
  {
    if exists i :: 0 <= i < |rules| && Mentions(rules[i], p) {
      var i :| 0 <= i < |rules| && Mentions(rules[i], p);
      FilterPosition(rules, (r: Rule) => Mentions(r, p), i);
      var first := FilterOrigin(rules, (r: Rule) => Mentions(r, p), 0);
      assert MatchesBefore(rules, p, first) == 0;
      assert rules[first].consequent[0] in RuleHeads(rules, p);
    }
  }

  /**
    `arl_recommender`: the distinct first consequent elements of the first
    twenty matching rules, in the iteration order of a Python set (an
    arbitrary arrangement, driven here by `order`), cut to `recCount`.
   */
  function RecommendByRules(rules: seq<Rule>, p: ProductId, recCount: nat, order: seq<nat>): (r: seq<ProductId>)
    requires WellFormed(rules)
    ensures Distinct(r)
    ensures forall x :: x in r ==> x in RuleHeads(rules, p)
    ensures |r| == Min(recCount, |RuleHeads(rules, p)|)
    ensures r == [] <==> recCount == 0 || forall i :: 0 <= i < |rules| ==> !Mentions(rules[i], p)
  {
    var pool := Dedupe(Heads(FirstMatching(rules, p)));
    HeadsAreRuleHeads(rules, p);
    DistinctCardinality(pool);
    assert Elements(pool) == RuleHeads(rules, p);
    RuleHeadsEmpty(rules, p);
    Draw(pool, Min(recCount, |pool|), order)
  }
}
