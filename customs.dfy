/**
 * Day 6: customs declaration answers. Each line is one person's answers (one
 * letter per question answered "yes"); blank lines separate groups. The Go maps
 * `map[int32]bool`, whose stored values are always `true`, are sets of characters.
 */
module Customs {
  import Strconv
  import Sets

  datatype AnswerGroup = AnswerGroup(uniqueAnswers: set<char>, personAnswers: seq<set<char>>)

  const EmptyGroup := AnswerGroup({}, [])

  /** The distinct characters of a line. */
  function Letters(data: string): set<char> {
    set k | 0 <= k < |data| :: data[k]
  }

  /** Everything any person of the group answered. */
  function Union(persons: seq<set<char>>): set<char> {
    if persons == [] then {} else Union(persons[..|persons| - 1]) + persons[|persons| - 1]
  }

  /** What any group built by `parseAnswers` satisfies: its unique answers are the union of the persons' answers. */
  predicate Consistent(g: AnswerGroup) {
    g.uniqueAnswers == Union(g.personAnswers)
  }

  /**
   * `parseAnswers`: one more person, whose answers are the letters of the line;
   * those letters are also added to the group's unique answers. Go updates the
   * group in place; here it is an in/out value.
   */
  method ParseAnswers(data: string, g: AnswerGroup) returns (h: AnswerGroup)
    ensures h.personAnswers == g.personAnswers + [Letters(data)]
    ensures h.uniqueAnswers == g.uniqueAnswers + Letters(data)
    ensures Consistent(g) ==> Consistent(h)
  {
    var answers: set<char> := {};
    h := g;
    for k := 0 to |data|
      invariant answers == Letters(data[..k])
      invariant h == g.(uniqueAnswers := g.uniqueAnswers + answers)
    {
      assert Letters(data[..k + 1]) == Letters(data[..k]) + {data[k]} by {
        assert data[..k + 1] == data[..k] + [data[k]];
      }
      h := h.(uniqueAnswers := h.uniqueAnswers + {data[k]});
      answers := answers + {data[k]};
    }
    assert data[..|data|] == data;
    h := h.(personAnswers := h.personAnswers + [answers]);
    assert (g.personAnswers + [answers])[..|g.personAnswers|] == g.personAnswers;
  }

  /** Whether every person of the group answered `a`. */
  predicate AnsweredByAll(persons: seq<set<char>>, a: char) {
    forall j :: 0 <= j < |persons| ==> a in persons[j]
  }

  /** The answers every person of a non-empty group gave. */
  function CommonAnswers(persons: seq<set<char>>): set<char>
    requires |persons| > 0
  {
    set a | a in persons[0] && AnsweredByAll(persons, a)
  }

  /** The same set, as the intersection of the persons' answers, one after another. */
  function Intersection(persons: seq<set<char>>): set<char>
    requires |persons| > 0
  {
    if |persons| == 1 then persons[0] else Intersection(persons[..|persons| - 1]) * persons[|persons| - 1]
  }

  lemma {:induction false} CommonIsIntersection(persons: seq<set<char>>)
    requires |persons| > 0
    ensures CommonAnswers(persons) == Intersection(persons)
  {
    if |persons| > 1 {
      var init := persons[..|persons| - 1];
      CommonIsIntersection(init);
      forall a
        ensures a in CommonAnswers(persons) <==> a in CommonAnswers(init) && a in persons[|persons| - 1]
      {
        if a in CommonAnswers(init) && a in persons[|persons| - 1] {
          forall j | 0 <= j < |persons|
            ensures a in persons[j]
          {
            if j < |persons| - 1 {
              assert a in init[j];
            }
          }
        }
        if a in CommonAnswers(persons) {
          forall j | 0 <= j < |init|
            ensures a in init[j]
          {
            assert a in persons[j];
          }
        }
      }
    }
  }

  /** The inner loop of `getCommonAnswerCount`: scan the persons until one lacks the answer. */
  method IsAnsweredByAll(persons: seq<set<char>>, baseAnswer: char) returns (allHave: bool)
    ensures allHave <==> AnsweredByAll(persons, baseAnswer)
  {
    allHave := true;
    var j := 0;
    while j < |persons|
      invariant 0 <= j <= |persons|
      invariant allHave && forall i :: 0 <= i < j ==> baseAnswer in persons[i]
    {
      if baseAnswer !in persons[j] {
        allHave := false;
        return;
      }
      j := j + 1;
    }
  }

  /** The answers in `done` that everybody gave. */
  function CommonAmong(persons: seq<set<char>>, done: set<char>): set<char> {
    set a | a in done && AnsweredByAll(persons, a)
  }

  lemma CommonAmongStep(persons: seq<set<char>>, done: set<char>, a: char)
    requires a !in done
    ensures AnsweredByAll(persons, a) ==> |CommonAmong(persons, done + {a})| == |CommonAmong(persons, done)| + 1
    ensures !AnsweredByAll(persons, a) ==> CommonAmong(persons, done + {a}) == CommonAmong(persons, done)
  {
    if AnsweredByAll(persons, a) {
      assert CommonAmong(persons, done + {a}) == CommonAmong(persons, done) + {a};
    }
  }

  /**
   * `getCommonAnswerCount`: for each answer of the first person, in any order,
   * scan all persons and count it when none lacks it. Go indexes
   * `personAnswers[0]`, so the group must have a person.
   */
  method GetCommonAnswerCount(g: AnswerGroup) returns (commonAnswerCount: nat)
    requires |g.personAnswers| > 0
    ensures commonAnswerCount == |CommonAnswers(g.personAnswers)|
  {
    var persons := g.personAnswers;
    var todo := persons[0];
    ghost var done: set<char> := {};
    commonAnswerCount := 0;
    while todo != {}
      invariant todo + done == persons[0] && todo !! done
      invariant commonAnswerCount == |CommonAmong(persons, done)|
      decreases |todo|
    {
      var baseAnswer :| baseAnswer in todo;
      var allHave := IsAnsweredByAll(persons, baseAnswer);
      CommonAmongStep(persons, done, baseAnswer);
      if allHave {
        commonAnswerCount := commonAnswerCount + 1;
      }
      todo := todo - {baseAnswer};
      done := done + {baseAnswer};
    }
    assert CommonAmong(persons, done) == CommonAnswers(persons);
  }

  /**
   * The common answers are among the first person's, which are among the
   * group's unique answers; in a group of one person they are that person's.
   */
  lemma CommonAnswersBounds(g: AnswerGroup)
    requires |g.personAnswers| > 0 && Consistent(g)
    ensures CommonAnswers(g.personAnswers) <= g.personAnswers[0] <= g.uniqueAnswers
    ensures |CommonAnswers(g.personAnswers)| <= |g.personAnswers[0]| <= |g.uniqueAnswers|
    ensures |g.personAnswers| == 1 ==> CommonAnswers(g.personAnswers) == g.personAnswers[0]
  {
    InUnion(g.personAnswers, 0);
    Sets.SubsetCardinality(CommonAnswers(g.personAnswers), g.personAnswers[0]);
    Sets.SubsetCardinality(g.personAnswers[0], g.uniqueAnswers);
  }

  lemma {:induction false} InUnion(persons: seq<set<char>>, j: nat)
    requires j < |persons|
    ensures persons[j] <= Union(persons)
  {
    if j < |persons| - 1 {
      InUnion(persons[..|persons| - 1], j);
    }
  }

  /** One group's lines, each parsed in turn as one more person. */
  function ParsedGroup(lines: seq<string>): AnswerGroup {
    if lines == [] then EmptyGroup
    else
      var g := ParsedGroup(lines[..|lines| - 1]);
      AnswerGroup(g.uniqueAnswers + Letters(lines[|lines| - 1]), g.personAnswers + [Letters(lines[|lines| - 1])])
  }

  /** A parsed group has one person per line and is consistent. */
  lemma {:induction false} ParsedGroupShape(lines: seq<string>)
    ensures |ParsedGroup(lines).personAnswers| == |lines|
    ensures Consistent(ParsedGroup(lines))
  {
    if lines != [] {
      var init := lines[..|lines| - 1];
      ParsedGroupShape(init);
      var ps := ParsedGroup(init).personAnswers + [Letters(lines[|lines| - 1])];
      assert ps[..|ps| - 1] == ParsedGroup(init).personAnswers;
    }
  }

  /** What the loop of `loadAnswers` has built after k lines: the closed groups and the open one. */
  ghost predicate LoadedUpTo(lines: seq<string>, k: nat, groups: seq<AnswerGroup>, current: AnswerGroup)
    requires k <= |lines|
  {
    var pieces := Strconv.Split(lines[..k], "");
    && |groups| + 1 == |pieces|
    && (forall i :: 0 <= i < |groups| ==> groups[i] == ParsedGroup(pieces[i]))
    && current == ParsedGroup(pieces[|groups|])
  }

  /** One line of `loadAnswers`: a blank line closes the open group, any other line adds a person to it. */
  lemma LoadStep(lines: seq<string>, k: nat, groups: seq<AnswerGroup>, current: AnswerGroup)
    requires k < |lines| && LoadedUpTo(lines, k, groups, current)
    ensures lines[k] == "" ==> LoadedUpTo(lines, k + 1, groups + [current], EmptyGroup)
    ensures lines[k] != "" ==> LoadedUpTo(lines, k + 1, groups,
      AnswerGroup(current.uniqueAnswers + Letters(lines[k]), current.personAnswers + [Letters(lines[k])]))
  {
    Strconv.SplitPrefixStep(lines, "", k);
    var pieces := Strconv.Split(lines[..k], "");
    if lines[k] != "" {
      var g := pieces[|pieces| - 1];
      assert (g + [lines[k]])[..|g|] == g;
    }
  }

  /**
   * `loadAnswers` over the lines of the input file: a blank line closes the
   * current group and the last group is closed after the last line, so k blank
   * lines give k + 1 groups, and two blank lines in a row give a group without persons.
   */
  method LoadAnswers(lines: seq<string>) returns (answerGroups: seq<AnswerGroup>)
    ensures |answerGroups| == Strconv.Count(lines, "") + 1
    ensures forall i :: 0 <= i < |answerGroups| ==> answerGroups[i] == ParsedGroup(Strconv.Split(lines, "")[i])
  {
    answerGroups := [];
    var currentAnswerGroup := EmptyGroup;
    for k := 0 to |lines|
      invariant LoadedUpTo(lines, k, answerGroups, currentAnswerGroup)
    {
      LoadStep(lines, k, answerGroups, currentAnswerGroup);
      if lines[k] == "" {
        answerGroups := answerGroups + [currentAnswerGroup];
        currentAnswerGroup := EmptyGroup;
      } else {
        currentAnswerGroup := ParseAnswers(lines[k], currentAnswerGroup);
      }
    }
    assert lines[..|lines|] == lines;
    answerGroups := answerGroups + [currentAnswerGroup];
  }

  /** A loaded group has a person unless it came from two adjacent blank lines, or from a blank line at either end. */
  lemma LoadedGroupsHavePersons(lines: seq<string>, i: nat)
    requires i < |Strconv.Split(lines, "")| && Strconv.Split(lines, "")[i] != []
    ensures |ParsedGroup(Strconv.Split(lines, "")[i]).personAnswers| > 0
  {
    ParsedGroupShape(Strconv.Split(lines, "")[i]);
  }
}
