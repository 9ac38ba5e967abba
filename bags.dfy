/**
 * The baggage rules of Day7/main.go: each rule says which colours, and how many
 * of each, a bag of its colour holds. Two recursions walk the containment
 * graph: up to every colour that can eventually hold a given one, and down to
 * count every bag a given one holds.
 */
module Bags {
  import opened Optional

  datatype BaggageRule = BaggageRule(color: string, canContain: map<string, nat>)

  /** `baggageRule.canContainBag`: the colour is listed in the rule, whatever its count. */
  function CanContainBag(rule: BaggageRule, color: string): (b: bool)
    ensures b <==> color in rule.canContain.Keys
  {
    color in rule.canContain
  }

  /** The first rule for a colour, if any. */
  function FirstRule(rules: seq<BaggageRule>, color: string): (r: Option<BaggageRule>)
    ensures r.Some? ==> r.value in rules && r.value.color == color
  {
    if rules == [] then None
    else if rules[0].color == color then Some(rules[0])
    else FirstRule(rules[1..], color)
  }

  /** None iff no rule has the colour; otherwise the rule at the least index with it. */
  lemma {:induction false} FirstRuleIsFirst(rules: seq<BaggageRule>, color: string)
    ensures FirstRule(rules, color).None? <==> forall k :: 0 <= k < |rules| ==> rules[k].color != color
    ensures FirstRule(rules, color).Some? ==> exists k :: (0 <= k < |rules| && rules[k] == FirstRule(rules, color).value &&
      rules[k].color == color && forall j :: 0 <= j < k ==> rules[j].color != color)
  {
    if rules != [] && rules[0].color != color {
      var tail := rules[1..];
      FirstRuleIsFirst(tail, color);
      if FirstRule(tail, color).Some? {
        var k :| 0 <= k < |tail| && tail[k] == FirstRule(tail, color).value &&
          tail[k].color == color && forall j :: 0 <= j < k ==> tail[j].color != color;
        assert rules[k + 1] == tail[k];
        assert forall j :: 0 <= j < k + 1 ==> rules[j].color != color by {
          forall j | 0 <= j < k + 1
            ensures rules[j].color != color
          {
            if j > 0 {
              assert rules[j] == tail[j - 1];
            }
          }
        }
      } else {
        forall k | 0 <= k < |rules|
          ensures rules[k].color != color
        {
          if k > 0 {
            assert rules[k] == tail[k - 1];
          }
        }
      }
    }
  }

  /** `findRuleByColor`: a scan for the first rule of the colour. */
  method FindRuleByColor(rules: seq<BaggageRule>, color: string) returns (r: Option<BaggageRule>)
    ensures r == FirstRule(rules, color)
  {
    for k := 0 to |rules|
      invariant FirstRule(rules, color) == FirstRule(rules[k..], color)
    {
      assert rules[k..][1..] == rules[k + 1..];
      if rules[k].color == color {
        return Some(rules[k]);
      }
    }
    return None;
  }

  function RankOf(rank: map<string, nat>, color: string): nat {
    if color in rank then rank[color] else 0
  }

  /**
   * The rule graph is acyclic, witnessed by a rank that is larger for every
   * rule's colour than for each colour it holds. Neither recursion keeps a
   * visited set, so both need this to end.
   */
  ghost predicate Ranked(rules: seq<BaggageRule>, rank: map<string, nat>) {
    forall k :: 0 <= k < |rules| ==> (rules[k].color in rank &&
      forall c :: c in rules[k].canContain ==> c in rank && rank[c] < rank[rules[k].color])
  }

  /** Some rule of colour a holds colour b. */
  ghost predicate Edge(rules: seq<BaggageRule>, a: string, b: string) {
    exists k :: 0 <= k < |rules| && rules[k].color == a && b in rules[k].canContain
  }

  /** p is a chain of one or more containment edges. */
  ghost predicate IsPath(rules: seq<BaggageRule>, p: seq<string>) {
    |p| >= 2 && forall i :: 0 <= i < |p| - 1 ==> Edge(rules, p[i], p[i + 1])
  }

  ghost predicate Reaches(rules: seq<BaggageRule>, a: string, b: string) {
    exists p :: IsPath(rules, p) && p[0] == a && p[|p| - 1] == b
  }

  /** Every colour that can hold the given one, directly or through other bags. */
  ghost function Ancestors(rules: seq<BaggageRule>, color: string): set<string> {
    set k | 0 <= k < |rules| && Reaches(rules, rules[k].color, color) :: rules[k].color
  }

  /** Some rule holding the colour is the ancestor itself or lies on the way from it. */
  ghost predicate ViaEdge(rules: seq<BaggageRule>, x: string, color: string, j: int)
    requires 0 <= j < |rules|
  {
    color in rules[j].canContain && (x == rules[j].color || x in Ancestors(rules, rules[j].color))
  }

  /** A chain ends with one edge into the colour, from its first colour or from the end of a shorter chain. */
  lemma AncestorHasLastEdge(rules: seq<BaggageRule>, x: string, color: string)
    requires x in Ancestors(rules, color)
    ensures exists j :: 0 <= j < |rules| && ViaEdge(rules, x, color, j)
  {
    var p :| IsPath(rules, p) && p[0] == x && p[|p| - 1] == color;
    var n := |p|;
    assert Edge(rules, p[n - 2], p[n - 1]);
    var j :| 0 <= j < |rules| && rules[j].color == p[n - 2] && color in rules[j].canContain;
    if n > 2 {
      var q := p[..n - 1];
      assert forall i :: 0 <= i < |q| ==> q[i] == p[i];
      assert IsPath(rules, q) && q[0] == x && q[|q| - 1] == rules[j].color;
      assert Edge(rules, p[0], p[1]);
      var k :| 0 <= k < |rules| && rules[k].color == x;
      assert Reaches(rules, rules[k].color, rules[j].color);
    }
    assert ViaEdge(rules, x, color, j);
  }

  /** One more edge into the colour extends a chain, or makes one. */
  lemma LastEdgeMakesAncestor(rules: seq<BaggageRule>, x: string, color: string, j: int)
    requires 0 <= j < |rules| && ViaEdge(rules, x, color, j)
    ensures x in Ancestors(rules, color)
  {
    assert Edge(rules, rules[j].color, color);
    if x == rules[j].color {
      assert IsPath(rules, [x, color]);
      assert Reaches(rules, rules[j].color, color);
    } else {
      var k :| 0 <= k < |rules| && rules[k].color == x && Reaches(rules, rules[k].color, rules[j].color);
      var q :| IsPath(rules, q) && q[0] == x && q[|q| - 1] == rules[j].color;
      var p := q + [color];
      assert forall i :: 0 <= i < |q| ==> p[i] == q[i];
      assert IsPath(rules, p);
      assert Reaches(rules, rules[k].color, color);
    }
  }

  /** The measure of the upward recursion: the rules whose colour ranks above the current one. */
  ghost function Above(rules: seq<BaggageRule>, rank: map<string, nat>, color: string): set<int> {
    set k | 0 <= k < |rules| && RankOf(rank, rules[k].color) > RankOf(rank, color)
  }

  /**
   * `findBagsThatCanContain`: every rule holding the colour adds its own colour,
   * then the search continues from it. The map Go passes by reference is the
   * in/out set `result`, which only grows, by exactly the ancestors.
   */
  method FindBagsThatCanContain(rules: seq<BaggageRule>, color: string, result: set<string>, ghost rank: map<string, nat>)
    returns (updated: set<string>)
    requires Ranked(rules, rank)
    ensures updated == result + Ancestors(rules, color)
    decreases Above(rules, rank, color)
  {
    updated := result;
    for k := 0 to |rules|
      invariant forall x :: x in updated <==> (x in result || exists j :: 0 <= j < k && ViaEdge(rules, x, color, j))
    {
      var rule := rules[k];
      ghost var before := updated;
      if CanContainBag(rule, color) {
        updated := updated + {rule.color};
        assert Above(rules, rank, rule.color) < Above(rules, rank, color) by {
          assert k in Above(rules, rank, color) - Above(rules, rank, rule.color);
        }
        updated := FindBagsThatCanContain(rules, rule.color, updated, rank);
      }
      forall x
        ensures x in updated <==> (x in result || exists j :: 0 <= j < k + 1 && ViaEdge(rules, x, color, j))
      {
        assert x in updated <==> x in before || ViaEdge(rules, x, color, k);
      }
    }
    forall x
      ensures x in updated <==> x in result + Ancestors(rules, color)
    {
      if x in Ancestors(rules, color) {
        AncestorHasLastEdge(rules, x, color);
      }
      if j :| 0 <= j < |rules| && ViaEdge(rules, x, color, j) {
        LastEdgeMakesAncestor(rules, x, color, j);
      }
    }
  }

  /** Σ over the colours in `keys` of count × (1 + bags inside that colour). */
  ghost function WeightedSum(rules: seq<BaggageRule>, rank: map<string, nat>, m: map<string, nat>, keys: set<string>, bound: nat): int
    requires Ranked(rules, rank)
    requires keys <= m.Keys && forall c :: c in keys ==> RankOf(rank, c) < bound
    decreases bound, |keys| + 2
  {
    if keys == {} then 0
    else
      var c := Pick(keys);
      Term(rules, rank, m, c) + WeightedSum(rules, rank, m, keys - {c}, bound)
  }

  /** One colour's share of the sum: its count times one bag plus what that bag holds. */
  ghost function Term(rules: seq<BaggageRule>, rank: map<string, nat>, m: map<string, nat>, c: string): int
    requires Ranked(rules, rank) && c in m
    decreases RankOf(rank, c) + 1, 1
  {
    m[c] * (1 + Inside(rules, rank, c))
  }

  /** Some colour of a non-empty set: the one the sum takes first. */
  ghost function Pick(keys: set<string>): (c: string)
    requires keys != {}
    ensures c in keys
  {
    var c :| c in keys; c
  }

  /** The number of bags a bag of the colour holds, by its first rule; 0 without a rule. */
  ghost function Inside(rules: seq<BaggageRule>, rank: map<string, nat>, color: string): int
    requires Ranked(rules, rank)
    decreases RankOf(rank, color) + 1, 0
  {
    match FirstRule(rules, color)
    case None => 0
    case Some(rule) => WeightedSum(rules, rank, rule.canContain, rule.canContain.Keys, RankOf(rank, color))
  }

  /** The sum does not depend on which colour is taken first. */
  lemma {:induction false} WeightedSumPick(rules: seq<BaggageRule>, rank: map<string, nat>, m: map<string, nat>, keys: set<string>, bound: nat, c: string)
    requires Ranked(rules, rank)
    requires keys <= m.Keys && forall c :: c in keys ==> RankOf(rank, c) < bound
    requires c in keys
    ensures WeightedSum(rules, rank, m, keys, bound) == Term(rules, rank, m, c) + WeightedSum(rules, rank, m, keys - {c}, bound)
    decreases |keys|
  {
    var d := Pick(keys);
    if d != c {
      WeightedSumPick(rules, rank, m, keys - {d}, bound, c);
      WeightedSumPick(rules, rank, m, keys - {c}, bound, d);
      assert keys - {d} - {c} == keys - {c} - {d};
    }
  }

  /** With a first rule, the rule's colours are exactly what the count walks through. */
  lemma InsideOfRule(rules: seq<BaggageRule>, rank: map<string, nat>, color: string, rule: BaggageRule)
    requires Ranked(rules, rank) && FirstRule(rules, color) == Some(rule)
    ensures color in rank && forall c :: c in rule.canContain ==> RankOf(rank, c) < RankOf(rank, color)
    ensures Inside(rules, rank, color) == WeightedSum(rules, rank, rule.canContain, rule.canContain.Keys, RankOf(rank, color))
  {
  }

  /**
   * `findNumberOfBagsContainedIn`: the total Go passes by reference is the
   * in/out value `total`; it grows by `multiplier` times the bags inside the
   * colour. The counts map is walked in any order, as Go's map iteration is.
   */
  method FindNumberOfBagsContainedIn(rules: seq<BaggageRule>, color: string, multiplier: int, total: int, ghost rank: map<string, nat>)
    returns (updated: int)
    requires Ranked(rules, rank)
    ensures updated == total + multiplier * Inside(rules, rank, color)
    ensures FirstRule(rules, color).None? ==> updated == total
    decreases RankOf(rank, color)
  {
    updated := total;
    var found := FindRuleByColor(rules, color);
    if found.Some? {
      var rule := found.value;
      InsideOfRule(rules, rank, color, rule);
      var bound := RankOf(rank, color);
      var todo := rule.canContain.Keys;
      while todo != {}
        invariant todo <= rule.canContain.Keys
        invariant updated + multiplier * WeightedSum(rules, rank, rule.canContain, todo, bound) ==
          total + multiplier * Inside(rules, rank, color)
        decreases |todo|
      {
        var c :| c in todo;
        var count := rule.canContain[c];
        ghost var before := updated;
        updated := updated + multiplier * count;
        updated := FindNumberOfBagsContainedIn(rules, c, multiplier * count, updated, rank);
        CountStep(rules, rank, rule.canContain, todo, bound, c, multiplier, before, updated);
        todo := todo - {c};
      }
    }
  }

  /** One colour of the counting loop: its weighted term moves from the remaining sum into the total. */
  lemma CountStep(rules: seq<BaggageRule>, rank: map<string, nat>, m: map<string, nat>, keys: set<string>, bound: nat,
                  c: string, multiplier: int, before: int, after: int)
    requires Ranked(rules, rank)
    requires keys <= m.Keys && forall c :: c in keys ==> RankOf(rank, c) < bound
    requires c in keys
    requires after == before + multiplier * m[c] + (multiplier * m[c]) * Inside(rules, rank, c)
    ensures after + multiplier * WeightedSum(rules, rank, m, keys - {c}, bound) == before + multiplier * WeightedSum(rules, rank, m, keys, bound)
  {
    WeightedSumPick(rules, rank, m, keys, bound, c);
    var inner, term := Inside(rules, rank, c), Term(rules, rank, m, c);
    assert term == m[c] * (1 + inner);
    Distribute(before, after, multiplier, m[c], inner, term,
      WeightedSum(rules, rank, m, keys - {c}, bound), WeightedSum(rules, rank, m, keys, bound));
  }

  lemma Distribute(before: int, after: int, multiplier: int, count: int, inner: int, term: int, rest: int, sum: int)
    requires term == count * (1 + inner) && sum == term + rest
    requires after == before + multiplier * count + (multiplier * count) * inner
    ensures after + multiplier * rest == before + multiplier * sum
  {
    calc {
      multiplier * sum;
      multiplier * (count * (1 + inner)) + multiplier * rest;
      multiplier * (count + count * inner) + multiplier * rest;
      multiplier * count + multiplier * (count * inner) + multiplier * rest;
    }
  }

  function ExampleRules(): seq<BaggageRule> {
    [BaggageRule("blue", map["red" := 3]), BaggageRule("red", map["green" := 2]), BaggageRule("green", map[])]
  }

  function ExampleRank(): map<string, nat> {
    map["blue" := 2, "red" := 1, "green" := 0]
  }

  lemma ExampleRanked()
    ensures Ranked(ExampleRules(), ExampleRank())
  {
    var rules, rank := ExampleRules(), ExampleRank();
    forall k | 0 <= k < |rules|
      ensures rules[k].color in rank && forall c :: c in rules[k].canContain ==> c in rank && rank[c] < rank[rules[k].color]
    {
    }
  }

  /** A rule holding one colour: its bags are those of that colour and what they hold. */
  lemma InsideOfSingle(rules: seq<BaggageRule>, rank: map<string, nat>, color: string, rule: BaggageRule, c: string)
    requires Ranked(rules, rank) && FirstRule(rules, color) == Some(rule) && rule.canContain.Keys == {c}
    ensures Inside(rules, rank, color) == rule.canContain[c] * (1 + Inside(rules, rank, c))
  {
    InsideOfRule(rules, rank, color, rule);
    WeightedSumPick(rules, rank, rule.canContain, {c}, RankOf(rank, color), c);
    assert {c} - {c} == {};
  }

  /** The count of the example's inner colour: red holds 2 green, which hold nothing. */
  lemma ExampleRed()
    requires Ranked(ExampleRules(), ExampleRank())
    ensures Inside(ExampleRules(), ExampleRank(), "red") == 2
  {
    var rules, rank := ExampleRules(), ExampleRank();
    assert FirstRule(rules, "green") == Some(rules[2]);
    InsideOfRule(rules, rank, "green", rules[2]);
    assert rules[2].canContain.Keys == {};
    assert FirstRule(rules, "red") == Some(rules[1]);
    assert rules[1].canContain.Keys == {"green"};
    InsideOfSingle(rules, rank, "red", rules[1], "green");
  }

  /** Blue holds 3 red and red holds 2 green: 3 red and 6 green, 9 bags in all. */
  lemma DocExample()
    ensures Ranked(ExampleRules(), ExampleRank()) && Inside(ExampleRules(), ExampleRank(), "blue") == 9
  {
    var rules, rank := ExampleRules(), ExampleRank();
    ExampleRanked();
    ExampleRed();
    assert FirstRule(rules, "blue") == Some(rules[0]);
    assert rules[0].canContain.Keys == {"red"};
    InsideOfSingle(rules, rank, "blue", rules[0], "red");
  }
}
