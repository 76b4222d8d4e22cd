/** The frontend's mock question generator: the sample questions are filtered
    by type label and cycled through until `count` questions exist, each with
    a fresh id. The sample records are a parameter, reduced to their type and
    an opaque rest; `clock(i)` is the value `Date.now()` returns during
    iteration `i`. */
module MockData {
  import opened Text

  /** A sample question: its type and everything else. */
  datatype Sample<T> = Sample(qtype: string, rest: T)

  /** `{ ...base, id }`: a copy of a sample with a new id, or, when there is
      no sample to copy (`base` is `undefined`), an object holding only the id. */
  datatype Mock<T> = Copy(base: Sample<T>, id: string) | IdOnly(id: string)

  /** The types occurring in the sample list the generator ships with (its
      five questions are image, MCQ, short, MCQ, image). */
  const SampleTypes: set<string> := {"image", "mcq", "short"}

  /** The label a type is filtered by; anything unknown counts as a long
      answer. */
  function TypeLabel(qtype: string): string {
    if qtype == "image" then "Image-based"
    else if qtype == "mcq" then "MCQ"
    else if qtype == "short" then "Short Answer"
    else "Long Answer"
  }

  predicate Selected<T>(s: Sample<T>, types: seq<string>) {
    |types| == 0 || TypeLabel(s.qtype) in types
  }

  /** `sampleQuestions.filter(...)`. */
  function Filtered<T>(samples: seq<Sample<T>>, types: seq<string>): (r: seq<Sample<T>>)
    ensures |r| <= |samples|
    ensures forall k :: 0 <= k < |r| ==> r[k] in samples && Selected(r[k], types)
    ensures forall k :: 0 <= k < |samples| && Selected(samples[k], types) ==> samples[k] in r
  {
    if |samples| == 0 then []
    else
      var rest := Filtered(samples[1..], types);
      assert forall k :: 1 <= k < |samples| ==> samples[k] == samples[1..][k - 1];
      if Selected(samples[0], types) then [samples[0]] + rest else rest
  }

  /** A single sample is kept exactly when it is selected. */
  lemma FilteredSingle<T>(s: Sample<T>, types: seq<string>)
    ensures Filtered([s], types) == if Selected(s, types) then [s] else []
  {
    assert [s][1..] == [];
  }

  /** Filtering a list given as its head and tail. */
  lemma FilteredCons<T>(s: Sample<T>, rest: seq<Sample<T>>, types: seq<string>)
    ensures Filtered([s] + rest, types) == if Selected(s, types) then [s] + Filtered(rest, types) else Filtered(rest, types)
  {
    var xs := [s] + rest;
    assert xs[0] == s && xs[1..] == rest;
  }

  /** Filtering distributes over concatenation. With `FilteredSingle` this
      pins the filter down: the selected samples, each as often as it
      occurs, in their original order. */
  lemma {:induction false} FilteredAppend<T>(a: seq<Sample<T>>, b: seq<Sample<T>>, types: seq<string>)
    ensures Filtered(a + b, types) == Filtered(a, types) + Filtered(b, types)
    decreases |a|
  {
    if |a| == 0 {
      assert a + b == b;
    } else {
      var t := a[1..];
      HeadTail(a, b);
      FilteredAppend(t, b, types);
      FilteredCons(a[0], t + b, types);
      FilteredCons(a[0], t, types);
      ConsAssoc(a[0], Filtered(t, types), Filtered(b, types));
    }
  }

  /** The id of question `i` created at time `t`. */
  function Id(t: nat, i: nat): string {
    "q-" + NatToString(t) + "-" + NatToString(i)
  }

  /** Question `i` of the output: a copy of the sample at `i` cycled through
      the filtered list, or only the id when that list is empty. */
  function MockAt<T>(filtered: seq<Sample<T>>, clock: nat -> nat, i: nat): Mock<T> {
    if |filtered| > 0 then Copy(filtered[i % |filtered|], Id(clock(i), i)) else IdOnly(Id(clock(i), i))
  }

  /** `generateQuestions(count, types)`. */
  method GenerateQuestions<T>(count: int, types: seq<string>, samples: seq<Sample<T>>, clock: nat -> nat)
    returns (qs: seq<Mock<T>>)
    ensures |qs| == if count > 0 then count else 0
    ensures forall i :: 0 <= i < |qs| ==> qs[i].id == Id(clock(i), i)
    ensures var f := Filtered(samples, types);
            forall i :: 0 <= i < |qs| ==>
              if |f| > 0 then qs[i].Copy? && qs[i].base == f[i % |f|] else qs[i].IdOnly?
    ensures forall i, j :: 0 <= i < j < |qs| ==> qs[i].id != qs[j].id
  {
    var filtered := Filtered(samples, types);
    qs := [];
    var i := 0;
    while i < count
      invariant 0 <= i && |qs| == i
      invariant i <= if count > 0 then count else 0
      invariant forall k :: 0 <= k < i ==> qs[k] == MockAt(filtered, clock, k)
    {
      qs := qs + [MockAt(filtered, clock, i)];
      i := i + 1;
    }
    IdsDistinct(qs, clock);
  }

  lemma IdsDistinct<T>(qs: seq<Mock<T>>, clock: nat -> nat)
    requires forall i :: 0 <= i < |qs| ==> qs[i].id == Id(clock(i), i)
    ensures forall i, j :: 0 <= i < j < |qs| ==> qs[i].id != qs[j].id
  {
    forall i, j | 0 <= i < j < |qs| ensures qs[i].id != qs[j].id {
      IdsDiffer(clock(i), i, clock(j), j);
    }
  }

  lemma DigitsHaveNoDash(s: string)
    requires AllDigits(s)
    ensures Free(s, '-')
  {
  }

  /** Ids of different iterations differ whatever the clock says: the index
      can be read back from the id. */
  lemma IdsDiffer(t1: nat, i: nat, t2: nat, j: nat)
    requires i != j
    ensures Id(t1, i) != Id(t2, j)
  {
    IdParts(t1, i);
    IdParts(t2, j);
    if Id(t1, i) == Id(t2, j) {
      NatToStringInjective(i, j);
    }
  }

  /** Splitting an id on "-" gives "q", the time and the index. */
  lemma IdParts(t: nat, i: nat)
    ensures Split(Id(t, i), '-') == ["q", NatToString(t), NatToString(i)]
  {
    var ts, ns := NatToString(t), NatToString(i);
    DigitsHaveNoDash(ts);
    DigitsHaveNoDash(ns);
    assert "q-" == "q" + ['-'];
    assert Id(t, i) == "q" + ['-'] + ts + ['-'] + ns;
    SplitThree("q", ts, ns, '-');
  }

  /** An empty type list disables the filter. */
  lemma NoTypesNoFilter<T>(samples: seq<Sample<T>>)
    ensures Filtered(samples, []) == samples
  {
    if |samples| > 0 {
      NoTypesNoFilter(samples[1..]);
      assert [samples[0]] + samples[1..] == samples;
    }
  }

  /** No shipped sample is a long answer, so asking only for long answers
      leaves nothing to cycle through. */
  lemma {:induction false} LongAnswerFiltersAll<T>(samples: seq<Sample<T>>)
    requires forall k :: 0 <= k < |samples| ==> samples[k].qtype in SampleTypes
    ensures Filtered(samples, ["Long Answer"]) == []
  {
    if |samples| > 0 {
      assert samples[0].qtype in SampleTypes;
      ShippedLabels(samples[0].qtype);
      LongAnswerFiltersAll(samples[1..]);
    }
  }

  lemma ShippedLabels(t: string)
    requires t in SampleTypes
    ensures TypeLabel(t) != "Long Answer"
  {
    assert "Image-based"[0] != "Long Answer"[0];
    assert "MCQ"[0] != "Long Answer"[0];
    assert "Short Answer"[0] != "Long Answer"[0];
  }

  /** The label of each known type, and the catch-all. */
  lemma TypeLabels(qtype: string)
    ensures TypeLabel(qtype) in {"Image-based", "MCQ", "Short Answer", "Long Answer"}
    ensures TypeLabel(qtype) == "Long Answer" <==> qtype !in {"image", "mcq", "short"}
  {
  }
}
