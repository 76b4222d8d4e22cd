/** The static Class 10 mathematics tables: the topic list with its
    syllabus notes, marks per question type for each difficulty, the share of
    each question type for each difficulty, and the weight of each topic. */
module Curriculum {

  /** Topic name and syllabus note, in table order (a Python dict keeps
      insertion order). */
  const Topics: seq<(string, string)> := [
    ("Real Numbers", "Fundamental Theorem of Arithmetic, Proof of irrationality of root 2, 3, 5"),
    ("Polynomials", "Zeros of a polynomial, Relationship between zeros and coefficients of quadratic polynomials"),
    ("Pair of Linear Equations in Two Variables", "Graphical method, Consistency, Substitution, Elimination"),
    ("Quadratic Equations", "Standard form, Factorization, Quadratic formula, Nature of roots, Discriminant"),
    ("Arithmetic Progressions", "nth term of AP, Sum of first n terms"),
    ("Triangles", "Similarity, BPT Theorem, AA, SAS, SSS criteria"),
    ("Coordinate Geometry", "Distance formula, Section formula"),
    ("Introduction to Trigonometry", "Trigonometric ratios 0-90 degrees, sin^2 + cos^2 = 1"),
    ("Some Applications of Trigonometry", "Heights and Distances, Angle of elevation/depression"),
    ("Circles", "Tangent properties, Tangents from external points"),
    ("Areas Related to Circles", "Area of sectors and segments"),
    ("Surface Areas and Volumes",
      "1. Determine the surface area of an object formed by combining any two of the basic solids: "
      + "cuboid, cone, cylinder, sphere and hemisphere. "
      + "2. Find the volume of objects formed by combining any two of a cuboid, cone, cylinder, sphere and hemisphere."),
    ("Statistics", "Mean, Median, Mode of grouped data"),
    ("Probability", "Theoretical probability, Simple events")]

  datatype Level = Level(description: string, mcqMarks: nat, shortMarks: nat, longMarks: nat, focus: string)

  const DifficultyLevels: map<string, Level> := map[
    "easy" := Level("Basic understanding and direct application of formulas", 1, 2, 3,
                    "Direct application of formulas, basic concepts"),
    "medium" := Level("Multi-step problems requiring application of multiple concepts", 2, 3, 5,
                      "Problem-solving, application of multiple concepts"),
    "hard" := Level("Complex problems requiring analytical thinking and deeper understanding", 3, 4, 5,
                    "Analytical thinking, complex problem-solving")]

  /** Percentages of MCQ, short and long questions. */
  datatype Share = Share(mcq: nat, short: nat, long: nat)

  const QuestionDistribution: map<string, Share> := map[
    "easy" := Share(60, 30, 10),
    "medium" := Share(40, 40, 20),
    "hard" := Share(30, 30, 40)]

  /** Topic name and weight, in table order. */
  const TopicWeightage: seq<(string, nat)> := [
    ("Real Numbers", 6),
    ("Polynomials", 5),
    ("Pair of Linear Equations in Two Variables", 8),
    ("Quadratic Equations", 8),
    ("Arithmetic Progressions", 5),
    ("Triangles", 9),
    ("Coordinate Geometry", 6),
    ("Introduction to Trigonometry", 8),
    ("Some Applications of Trigonometry", 8),
    ("Circles", 7),
    ("Areas Related to Circles", 7),
    ("Surface Areas and Volumes", 10),
    ("Statistics", 7),
    ("Probability", 6)]

  function KeysOf<V>(table: seq<(string, V)>): (ks: seq<string>)
    ensures |ks| == |table| && forall i :: 0 <= i < |table| ==> ks[i] == table[i].0
  {
    seq(|table|, i requires 0 <= i < |table| => table[i].0)
  }

  function ValuesOf(table: seq<(string, nat)>): (vs: seq<nat>)
    ensures |vs| == |table| && forall i :: 0 <= i < |table| ==> vs[i] == table[i].1
  {
    seq(|table|, i requires 0 <= i < |table| => table[i].1)
  }

  function SumNat(xs: seq<nat>): nat {
    if |xs| == 0 then 0 else xs[0] + SumNat(xs[1..])
  }

  /** The difficulties from easiest to hardest. */
  const Difficulties: seq<string> := ["easy", "medium", "hard"]

  // ---------------------------------------------------------------------
  // Table consistency

  /** Every difficulty's shares add up to the whole paper. */
  lemma SharesSumTo100()
    ensures forall d :: d in QuestionDistribution ==>
              QuestionDistribution[d].mcq + QuestionDistribution[d].short + QuestionDistribution[d].long == 100
  {
  }

  /** Within a difficulty a longer answer is always worth more marks. */
  lemma MarksOrderedByType()
    ensures forall d :: d in DifficultyLevels ==>
              DifficultyLevels[d].mcqMarks < DifficultyLevels[d].shortMarks < DifficultyLevels[d].longMarks
  {
  }

  /** From easy to hard no question type loses marks, the MCQ share shrinks
      strictly and the long-answer share grows strictly. */
  lemma HarderMeansMore(i: nat, j: nat)
    requires i < j < |Difficulties|
    ensures var a, b := Difficulties[i], Difficulties[j];
            && a in DifficultyLevels && b in DifficultyLevels
            && a in QuestionDistribution && b in QuestionDistribution
            && DifficultyLevels[a].mcqMarks <= DifficultyLevels[b].mcqMarks
            && DifficultyLevels[a].shortMarks <= DifficultyLevels[b].shortMarks
            && DifficultyLevels[a].longMarks <= DifficultyLevels[b].longMarks
            && QuestionDistribution[a].mcq > QuestionDistribution[b].mcq
            && QuestionDistribution[a].long < QuestionDistribution[b].long
  {
  }

  /** Both difficulty tables have exactly the keys easy, medium and hard. */
  lemma DifficultyKeysAgree()
    ensures DifficultyLevels.Keys == QuestionDistribution.Keys == {"easy", "medium", "hard"}
  {
  }

  /** The weightage table lists exactly the topics of the topic table, in
      the same order, each once. */
  lemma WeightageKeysAgree()
    ensures KeysOf(TopicWeightage) == KeysOf(Topics)
    ensures |Topics| == 14
    ensures forall i, j :: 0 <= i < j < |Topics| ==> Topics[i].0 != Topics[j].0
  {
  }

  /** The topic weights add up to 100. */
  lemma WeightsSumTo100()
    ensures SumNat(ValuesOf(TopicWeightage)) == 100
  {
    var w: seq<nat> := [6, 5, 8, 8, 5, 9, 6, 8, 8, 7, 7, 10, 7, 6];
    assert ValuesOf(TopicWeightage) == w;
    assert w[14..] == [];
    SumNatStep(w, 13);
    SumNatStep(w, 12);
    SumNatStep(w, 11);
    SumNatStep(w, 10);
    SumNatStep(w, 9);
    SumNatStep(w, 8);
    SumNatStep(w, 7);
    SumNatStep(w, 6);
    SumNatStep(w, 5);
    SumNatStep(w, 4);
    SumNatStep(w, 3);
    SumNatStep(w, 2);
    SumNatStep(w, 1);
    SumNatStep(w, 0);
    assert w[0..] == w;
  }

  lemma SumNatStep(xs: seq<nat>, k: nat)
    requires k < |xs|
    ensures SumNat(xs[k..]) == xs[k] + SumNat(xs[k + 1..])
  {
    assert xs[k..][1..] == xs[k + 1..];
  }
}
