/**
 * The skills section: skills grouped into the listed categories, each drawn
 * as a bar whose width animates from zero to the skill's level, the cards of
 * a category appearing one after another.
 */
module Skills {

  datatype Skill = Skill(name: string, level: int, category: string)

  /** The skills, in the order the section lists them. */
  const AllSkills: seq<Skill> := [
    Skill("React", 95, "Frontend"),
    Skill("TypeScript", 90, "Frontend"),
    Skill("JavaScript", 92, "Frontend"),
    Skill("Vite", 88, "Frontend"),
    Skill("Ant Design", 85, "Frontend"),
    Skill("Next.js", 87, "Frontend"),
    Skill("Tailwind CSS", 85, "Frontend"),
    Skill("Node.js", 80, "Backend"),
    Skill("Express.js", 75, "Backend"),
    Skill("ASP.NET", 70, "Backend"),
    Skill("MongoDB", 70, "Database"),
    Skill("MySQL", 65, "Database"),
    Skill("Git", 85, "Tools"),
    Skill("Figma", 75, "Tools")
  ]

  /** The categories, in the order their groups are drawn. */
  const Categories: seq<string> := ["Frontend", "Backend", "Database", "Tools", "Cloud"]

  /** `getCategorySkills`: the skills of one category, in list order. */
  function CategorySkills(skills: seq<Skill>, c: string): (r: seq<Skill>)
    ensures |r| <= |skills|
    ensures forall s :: s in r <==> s in skills && s.category == c
  {
    if skills == [] then []
    else (if skills[0].category == c then [skills[0]] else []) + CategorySkills(skills[1..], c)
  }

  /** Filtering keeps the order: the skills of `a + b` are those of `a`, then those of `b`. */
  lemma {:induction false} CategorySkillsAppend(a: seq<Skill>, b: seq<Skill>, c: string)
    ensures CategorySkills(a + b, c) == CategorySkills(a, c) + CategorySkills(b, c)
  {
    if a == [] {
      assert a + b == b;
    } else {
      assert (a + b)[1..] == a[1..] + b;
      CategorySkillsAppend(a[1..], b, c);
    }
  }

  /** A list whose skills all belong to `c` is its own group. */
  lemma {:induction false} CategorySkillsAll(skills: seq<Skill>, c: string)
    requires forall i :: 0 <= i < |skills| ==> skills[i].category == c
    ensures CategorySkills(skills, c) == skills
  {
    if skills != [] {
      CategorySkillsAll(skills[1..], c);
    }
  }

  /** The skills shown across the groups of `cats`, counted. */
  function Shown(skills: seq<Skill>, cats: seq<string>): nat
  {
    if cats == [] then 0 else |CategorySkills(skills, cats[0])| + Shown(skills, cats[1..])
  }

  /** How many of `cats` are `c`. */
  function Occurrences(cats: seq<string>, c: string): nat
  {
    if cats == [] then 0 else (if cats[0] == c then 1 else 0) + Occurrences(cats[1..], c)
  }

  predicate Distinct(cats: seq<string>)
  {
    forall i, j :: 0 <= i < j < |cats| ==> cats[i] != cats[j]
  }

  lemma {:induction false} OccurrencesOfDistinct(cats: seq<string>, c: string)
    requires Distinct(cats)
    ensures Occurrences(cats, c) == if c in cats then 1 else 0
  {
    if cats != [] {
      assert Distinct(cats[1..]) by {
        forall i, j | 0 <= i < j < |cats[1..]|
          ensures cats[1..][i] != cats[1..][j]
        {
          assert cats[1..][i] == cats[i + 1] && cats[1..][j] == cats[j + 1];
        }
      }
      OccurrencesOfDistinct(cats[1..], c);
      if cats[0] == c {
        assert c !in cats[1..] by {
          forall k | 0 <= k < |cats[1..]|
            ensures cats[1..][k] != c
          {
            assert cats[1..][k] == cats[k + 1];
          }
        }
      }
    }
  }

  /** One more skill in front adds one to the count of each group it may join. */
  lemma {:induction false} ShownCons(x: Skill, rest: seq<Skill>, cats: seq<string>)
    ensures Shown([x] + rest, cats) == Shown(rest, cats) + Occurrences(cats, x.category)
  {
    if cats != [] {
      assert ([x] + rest)[1..] == rest;
      ShownCons(x, rest, cats[1..]);
    }
  }

  /**
   * When the categories are distinct and cover every skill's category, each
   * skill appears in exactly one group, so the groups show every skill once.
   */
  lemma {:induction false} EachSkillShownOnce(skills: seq<Skill>, cats: seq<string>)
    requires Distinct(cats)
    requires forall i :: 0 <= i < |skills| ==> skills[i].category in cats
    ensures Shown(skills, cats) == |skills|
  {
    if skills == [] {
      ShownEmpty(cats);
    } else {
      var x, rest := skills[0], skills[1..];
      assert skills == [x] + rest;
      EachSkillShownOnce(rest, cats);
      ShownCons(x, rest, cats);
      OccurrencesOfDistinct(cats, x.category);
    }
  }

  lemma {:induction false} ShownEmpty(cats: seq<string>)
    ensures Shown([], cats) == 0
  {
    if cats != [] {
      ShownEmpty(cats[1..]);
    }
  }

  /** Every listed skill belongs to one of the first four categories. */
  lemma SkillCategories()
    ensures forall i :: 0 <= i < |AllSkills| ==> AllSkills[i].category in Categories[..4]
  {
    assert Categories[..4] == ["Frontend", "Backend", "Database", "Tools"];
    forall i | 0 <= i < |AllSkills|
      ensures AllSkills[i].category in Categories[..4]
    {
      var c := AllSkills[i].category;
      assert c == "Frontend" || c == "Backend" || c == "Database" || c == "Tools";
    }
  }

  /** A category no skill belongs to has an empty group. */
  lemma {:induction false} CategorySkillsNone(skills: seq<Skill>, c: string)
    requires forall i :: 0 <= i < |skills| ==> skills[i].category != c
    ensures CategorySkills(skills, c) == []
  {
    if skills != [] {
      CategorySkillsNone(skills[1..], c);
    }
  }

  /** The section shows each of its skills exactly once. */
  lemma SectionShowsEverySkill()
    ensures Shown(AllSkills, Categories) == |AllSkills|
  {
    SkillCategories();
    EachSkillShownOnce(AllSkills, Categories);
  }

  /** No skill is in "Cloud", so its group is drawn empty. */
  lemma CloudIsEmpty()
    ensures CategorySkills(AllSkills, "Cloud") == []
  {
    SkillCategories();
    assert "Cloud" !in Categories[..4];
    CategorySkillsNone(AllSkills, "Cloud");
  }

  /** Every level is a percentage. */
  lemma LevelsArePercentages()
    ensures forall i :: 0 <= i < |AllSkills| ==> 0 <= AllSkills[i].level <= 100
  {
  }

  /** A bar's width: the skill's level once its animation has started, zero before. */
  function BarWidth(animated: seq<Skill>, s: Skill): (w: int)
    ensures s in animated ==> w == s.level
    ensures s !in animated ==> w == 0
    ensures 0 <= s.level <= 100 ==> 0 <= w <= 100
  {
    if s in animated then s.level else 0
  }

  /** What a card draws: the bar's width and its transition delay in milliseconds. */
  datatype Card = Card(skill: Skill, width: int, delay: nat)

  /** The cards of one category's group, in order. */
  function GroupCards(skills: seq<Skill>, animated: seq<Skill>, c: string): (r: seq<Card>)
    ensures |r| == |CategorySkills(skills, c)|
    ensures forall i :: 0 <= i < |r| ==> r[i].skill == CategorySkills(skills, c)[i]
    ensures forall i :: 0 <= i < |r| ==> r[i].width == BarWidth(animated, r[i].skill)
    ensures forall i :: 0 <= i < |r| ==> r[i].delay == i * 100
  {
    var group := CategorySkills(skills, c);
    seq(|group|, i requires 0 <= i < |group| => Card(group[i], BarWidth(animated, group[i]), i * 100))
  }

  /** Within a group each card starts its animation 100 ms after the one before. */
  lemma Staggered(skills: seq<Skill>, animated: seq<Skill>, c: string, i: nat, j: nat)
    requires i < j < |GroupCards(skills, animated, c)|
    ensures GroupCards(skills, animated, c)[j].delay - GroupCards(skills, animated, c)[i].delay == (j - i) * 100
  {
  }

  /** Whatever has been animated, every bar of the section is a valid percentage. */
  lemma WidthsArePercentages(animated: seq<Skill>, c: string, i: nat)
    requires i < |GroupCards(AllSkills, animated, c)|
    ensures 0 <= GroupCards(AllSkills, animated, c)[i].width <= 100
  {
    var s := CategorySkills(AllSkills, c)[i];
    assert s in CategorySkills(AllSkills, c);
    var k :| 0 <= k < |AllSkills| && AllSkills[k] == s;
    LevelsArePercentages();
  }

  /** The section's state: the skills whose bars have been animated. */
  class SkillsSection {
    const skills: seq<Skill>
    var animatedSkills: seq<Skill>

    /** The section mounts with no bar animated. */
    constructor(list: seq<Skill>)
      ensures skills == list && animatedSkills == []
    {
      skills := list;
      animatedSkills := [];
    }

    /** The mount timer: every skill's bar starts animating at once. */
    method TimerFires()
      modifies this
      ensures animatedSkills == skills
    {
      animatedSkills := skills;
    }
  }

  /** Before the timer every bar is empty; after it, every bar shows its level. */
  lemma AnimationFlip(skills: seq<Skill>, c: string)
    ensures forall i :: 0 <= i < |GroupCards(skills, [], c)| ==> GroupCards(skills, [], c)[i].width == 0
    ensures forall i :: 0 <= i < |GroupCards(skills, skills, c)| ==>
      GroupCards(skills, skills, c)[i].width == GroupCards(skills, skills, c)[i].skill.level
  {
  }
}
