/** The quiz results dialog: the grade, colour and message for a score, the
    incorrect count, each submitted answer's line and the choice of the
    result to show. Fetching is not modelled; the fetched records are inputs. */
module QuizResults {
  import opened Wrappers
  import opened Text
  import opened Questions

  // ---------------------------------------------------------------------
  // Score tiers

  /** How many of the cut-offs `p` reaches. */
  function Reached(p: real, cutoffs: seq<real>): (n: nat)
    ensures n <= |cutoffs|
  {
    if |cutoffs| == 0 then 0 else (if p >= cutoffs[0] then 1 else 0) + Reached(p, cutoffs[1..])
  }

  /** A higher score never reaches fewer cut-offs. */
  lemma {:induction false} ReachedMonotone(p: real, q: real, cutoffs: seq<real>)
    requires p <= q
    ensures Reached(p, cutoffs) <= Reached(q, cutoffs)
  {
    if |cutoffs| > 0 {
      ReachedMonotone(p, q, cutoffs[1..]);
    }
  }

  const GradeCutoffs: seq<real> := [50.0, 60.0, 70.0, 80.0, 90.0]
  const TierCutoffs: seq<real> := [50.0, 70.0, 90.0]

  /** The grades from worst to best. */
  const Grades: seq<string> := ["F", "D", "C", "B", "A", "A+"]

  /** `getGrade`. */
  function Grade(p: real): (g: string)
    ensures g in Grades
  {
    if p >= 90.0 then "A+"
    else if p >= 80.0 then "A"
    else if p >= 70.0 then "B"
    else if p >= 60.0 then "C"
    else if p >= 50.0 then "D"
    else "F"
  }

  /** A grade's place from F (0) to A+ (5). */
  function Rank(g: string): nat {
    if g == "A+" then 5 else if g == "A" then 4 else if g == "B" then 3
    else if g == "C" then 2 else if g == "D" then 1 else 0
  }

  /** The grade is the one whose place is the number of cut-offs 50, 60, 70,
      80 and 90 reached, and so a higher score never gets a worse grade. */
  lemma GradeByCutoffs(p: real, q: real)
    ensures Grade(p) == Grades[Reached(p, GradeCutoffs)]
    ensures p <= q ==> Rank(Grade(p)) <= Rank(Grade(q))
  {
    GradeReached(p);
    GradeReached(q);
    if p <= q {
      ReachedMonotone(p, q, GradeCutoffs);
    }
  }

  lemma GradeReached(p: real)
    ensures Rank(Grade(p)) == Reached(p, GradeCutoffs)
    ensures Grades[Rank(Grade(p))] == Grade(p)
  {
    var c := GradeCutoffs;
    var n5 := if p >= 90.0 then 1 else 0;
    assert Reached(p, [90.0]) == n5 by {
      assert [90.0][1..] == [];
    }
    var n4 := n5 + if p >= 80.0 then 1 else 0;
    assert Reached(p, [80.0, 90.0]) == n4 by {
      assert [80.0, 90.0][1..] == [90.0];
    }
    var n3 := n4 + if p >= 70.0 then 1 else 0;
    assert Reached(p, [70.0, 80.0, 90.0]) == n3 by {
      assert [70.0, 80.0, 90.0][1..] == [80.0, 90.0];
    }
    var n2 := n3 + if p >= 60.0 then 1 else 0;
    assert Reached(p, [60.0, 70.0, 80.0, 90.0]) == n2 by {
      assert [60.0, 70.0, 80.0, 90.0][1..] == [70.0, 80.0, 90.0];
    }
    assert Reached(p, c) == n2 + if p >= 50.0 then 1 else 0 by {
      assert c[1..] == [60.0, 70.0, 80.0, 90.0];
    }
  }

  /** `getScoreColor`. */
  function ScoreColour(p: real): (r: string)
    ensures r in {"text-green-600", "text-blue-600", "text-yellow-600", "text-red-600"}
  {
    if p >= 90.0 then "text-green-600"
    else if p >= 70.0 then "text-blue-600"
    else if p >= 50.0 then "text-yellow-600"
    else "text-red-600"
  }

  /** `getScoreMessage`. */
  function ScoreMessage(p: real): (r: string)
    ensures r in {"Outstanding!", "Good job!", "Keep practicing!", "Needs improvement"}
  {
    if p >= 90.0 then "Outstanding!"
    else if p >= 70.0 then "Good job!"
    else if p >= 50.0 then "Keep practicing!"
    else "Needs improvement"
  }

  const Colours: seq<string> := ["text-red-600", "text-yellow-600", "text-blue-600", "text-green-600"]
  const Messages: seq<string> := ["Needs improvement", "Keep practicing!", "Good job!", "Outstanding!"]

  /** Colour and message are both chosen by how many of 50, 70 and 90 the
      score reaches, so two scores share a colour exactly when they share a
      message; each tier lines up with the grades. */
  lemma TiersAgree(p: real, q: real)
    ensures ScoreColour(p) == Colours[Reached(p, TierCutoffs)]
    ensures ScoreMessage(p) == Messages[Reached(p, TierCutoffs)]
    ensures ScoreColour(p) == ScoreColour(q) <==> ScoreMessage(p) == ScoreMessage(q)
    ensures ScoreColour(p) == "text-green-600" <==> Grade(p) == "A+"
    ensures ScoreColour(p) == "text-red-600" <==> Grade(p) == "F"
  {
    var c := TierCutoffs;
    assert c[1..] == [70.0, 90.0];
    assert c[1..][1..] == [90.0];
    assert Reached(p, [90.0]) == if p >= 90.0 then 1 else 0 by {
      assert [90.0][1..] == [];
    }
    assert Reached(q, [90.0]) == if q >= 90.0 then 1 else 0 by {
      assert [90.0][1..] == [];
    }
    assert Colours[2] != Colours[3];
  }

  // ---------------------------------------------------------------------
  // Counts and answers

  datatype QuizResult = QuizResult(
    id: string, completedAt: int, scorePercentage: real, totalQuestions: int, correctAnswers: int)

  /** The "Incorrect" tile: the questions not answered correctly. */
  function Incorrect(r: QuizResult): (n: int)
    ensures n + r.correctAnswers == r.totalQuestions
  {
    r.totalQuestions - r.correctAnswers
  }

  const OptionPrefix: string := "Selected option: "
  const OptionsPrefix: string := "Selected options: "
  const TextPrefix: string := "Answer: "

  /** The line under each answered question. */
  function AnswerLine(a: Answer): string {
    match a
    case Choice(i) => OptionPrefix + Letter(i)
    case Written(s) => TextPrefix + s
    case Choices(ixs) => OptionsPrefix + Letters(ixs)
  }

  predicate StartsWith(s: string, p: string) {
    |p| <= |s| && s[..|p|] == p
  }

  /** Reads an answer line back. */
  function ReadAnswerLine(line: string): Option<Answer> {
    if StartsWith(line, TextPrefix) then Some(Written(line[|TextPrefix|..]))
    else if StartsWith(line, OptionsPrefix) then Some(Choices(ReadLetters(line[|OptionsPrefix|..])))
    else if StartsWith(line, OptionPrefix) && |line| == |OptionPrefix| + 1 then
      Some(Choice(line[|OptionPrefix|] as int - 'A' as int))
    else None
  }

  predicate InAlphabet(a: Answer) {
    match a
    case Choice(i) => 0 <= i < 26
    case Choices(ixs) => forall k :: 0 <= k < |ixs| ==> 0 <= ixs[k] < 26
    case Written(_) => true
  }

  lemma PrefixParts(p: string, x: string)
    ensures StartsWith(p + x, p) && (p + x)[|p|..] == x
  {
    assert (p + x)[..|p|] == p;
  }

  /** The three kinds of answer are told apart by their lines, and letters
      in the alphabet range read back as the indices: the line determines the
      answer. */
  lemma AnswerLineRoundTrip(a: Answer)
    requires InAlphabet(a)
    ensures ReadAnswerLine(AnswerLine(a)) == Some(a)
  {
    var line := AnswerLine(a);
    match a
    case Written(s) =>
      PrefixParts(TextPrefix, s);
    case Choices(ixs) =>
      PrefixParts(OptionsPrefix, Letters(ixs));
      assert line[0] == 'S';
      LettersRoundTrip(ixs);
    case Choice(i) =>
      PrefixParts(OptionPrefix, Letter(i));
      assert line[0] == 'S';
      assert line[15] == ':';
      assert !StartsWith(line, OptionsPrefix) by {
        assert OptionsPrefix[15] == 's';
      }
  }

  /** Different in-range answers give different lines. */
  lemma AnswerLinesDiffer(a: Answer, b: Answer)
    requires InAlphabet(a) && InAlphabet(b) && a != b
    ensures AnswerLine(a) != AnswerLine(b)
  {
    AnswerLineRoundTrip(a);
    AnswerLineRoundTrip(b);
  }

  // ---------------------------------------------------------------------
  // Which result is shown

  /** Result `i` has the latest completion time, and no earlier result in the
      list has that time: it is what a stable sort by descending time puts
      first. */
  predicate IsLatest(results: seq<QuizResult>, i: nat) {
    && i < |results|
    && (forall j :: 0 <= j < |results| ==> results[j].completedAt <= results[i].completedAt)
    && (forall j :: 0 <= j < i ==> results[j].completedAt < results[i].completedAt)
  }

  /** The latest result, or none from an empty list. */
  method Latest(results: seq<QuizResult>) returns (r: Option<nat>)
    ensures r.None? <==> |results| == 0
    ensures r.Some? ==> IsLatest(results, r.value)
  {
    if |results| == 0 {
      return None;
    }
    var best := 0;
    var k := 1;
    while k < |results|
      invariant 0 <= best < k <= |results|
      invariant forall j :: 0 <= j < k ==> results[j].completedAt <= results[best].completedAt
      invariant forall j :: 0 <= j < best ==> results[j].completedAt < results[best].completedAt
    {
      if results[k].completedAt > results[best].completedAt {
        best := k;
      }
      k := k + 1;
    }
    return Some(best);
  }

  /** There is exactly one latest result. */
  lemma LatestUnique(results: seq<QuizResult>, i: nat, j: nat)
    requires IsLatest(results, i) && IsLatest(results, j)
    ensures i == j
  {
    assert results[j].completedAt <= results[i].completedAt;
    assert results[i].completedAt <= results[j].completedAt;
  }

  const NoResults: string := "No quiz results found for this worksheet"

  /** The result the dialog shows: the one fetched by id when an id is given,
      otherwise the latest of the worksheet's results; when there is none the
      dialog shows an error. */
  method ChooseResult(resultId: string, fetched: Option<QuizResult>, results: seq<QuizResult>)
    returns (r: Result<QuizResult, string>)
    ensures |resultId| > 0 ==> r == if fetched.Some? then Success(fetched.value) else Failure(NoResults)
    ensures |resultId| == 0 ==> (r.Failure? <==> |results| == 0)
    ensures |resultId| == 0 && r.Success? ==> exists i :: 0 <= i < |results| && IsLatest(results, i) && r.value == results[i]
    ensures r.Failure? ==> r.error == NoResults
  {
    if |resultId| > 0 {
      r := if fetched.Some? then Success(fetched.value) else Failure(NoResults);
    } else {
      var latest := Latest(results);
      r := if latest.Some? then Success(results[latest.value]) else Failure(NoResults);
    }
  }
}
