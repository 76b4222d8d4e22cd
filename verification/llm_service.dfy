/** Model routing of the backend's LLM service: the subject name picks one of
    five configured model ids by keyword priority, and the same priority picks
    the one specialisation sentence of the system prompt. */
module LlmService {
  import opened Text

  const BiologyModel: string := "mistralai/mistral-7b-instruct:free"
  const MathematicsModel: string := "meta/llama-3.3-70b-instruct:free"
  const ChemistryModel: string := "nous/hermes-3-405b-instruct:free"
  const PhysicsModel: string := "google/gemma-3-27b:free"
  const DefaultModel: string := "google/gemini-2.0-flash-exp:free"

  /** The model used for image generation, whatever the subject. */
  const ImageModel: string := "google/gemini-2.5-flash-image-preview"

  /** Which keyword branch a subject name falls into. */
  datatype SubjectClass = Biology | Mathematics | Chemistry | Physics | Other

  /** The keyword tests in the order the service applies them, on an already
      lower-cased name; `Mathematics` accepts "math" or "mathematics". */
  function Classify(name: string): SubjectClass {
    if Contains(name, "biology") then Biology
    else if Contains(name, "math") || Contains(name, "mathematics") then Mathematics
    else if Contains(name, "chemistry") then Chemistry
    else if Contains(name, "physics") then Physics
    else Other
  }

  function ModelOf(c: SubjectClass): string {
    match c
    case Biology => BiologyModel
    case Mathematics => MathematicsModel
    case Chemistry => ChemistryModel
    case Physics => PhysicsModel
    case Other => DefaultModel
  }

  /** The branch the model routing takes: the name is lower-cased and then
      stripped before the keyword tests. */
  function RoutingClass(subject: string): SubjectClass {
    Classify(PyStrip(Lower(subject)))
  }

  /** The model for a subject. The result is always one of the five configured
      ids, and it is the default exactly when none of the four keywords occurs
      in the lower-cased name (surrounding whitespace is irrelevant). */
  function ModelForSubject(subject: string): (m: string)
    ensures m in {BiologyModel, MathematicsModel, ChemistryModel, PhysicsModel, DefaultModel}
    ensures m == DefaultModel <==>
              !Contains(Lower(subject), "biology") && !Contains(Lower(subject), "math")
              && !Contains(Lower(subject), "chemistry") && !Contains(Lower(subject), "physics")
  {
    ClassifyIgnoresEnds(Lower(subject));
    MathematicsTestRedundant(Lower(subject));
    ModelOf(RoutingClass(subject))
  }

  /** The keyword priority written as a rule list: the first rule whose keyword
      occurs wins. */
  const Rules: seq<(string, SubjectClass)> :=
    [("biology", Biology), ("math", Mathematics), ("mathematics", Mathematics),
     ("chemistry", Chemistry), ("physics", Physics)]

  function FirstRule(name: string, rules: seq<(string, SubjectClass)>): SubjectClass {
    if |rules| == 0 then Other
    else if Contains(name, rules[0].0) then rules[0].1
    else FirstRule(name, rules[1..])
  }

  /** The nested tests agree with the first-match reading of the rule list. */
  lemma ClassifyIsFirstRule(name: string)
    ensures Classify(name) == FirstRule(name, Rules)
  {
    var r4: seq<(string, SubjectClass)> := [("physics", Physics)];
    var r3 := [("chemistry", Chemistry)] + r4;
    var r2 := [("mathematics", Mathematics)] + r3;
    var r1 := [("math", Mathematics)] + r2;
    assert Rules == [("biology", Biology)] + r1;
    assert r4[1..] == [];
    assert FirstRule(name, r4) == if Contains(name, "physics") then Physics else Other;
    assert FirstRule(name, r3) == if Contains(name, "chemistry") then Chemistry else FirstRule(name, r4);
    assert FirstRule(name, r2) == if Contains(name, "mathematics") then Mathematics else FirstRule(name, r3);
    assert FirstRule(name, r1) == if Contains(name, "math") then Mathematics else FirstRule(name, r2);
  }

  /** The "mathematics" test never decides anything: any name containing it
      already contains "math". */
  lemma MathematicsTestRedundant(name: string)
    ensures Classify(name) == Mathematics <==> !Contains(name, "biology") && Contains(name, "math")
  {
    if Contains(name, "mathematics") {
      assert "mathematics" == "math" + "ematics";
      ContainsPrefix(name, "math", "ematics");
    }
  }

  predicate WhitespaceFree(k: string) {
    forall j :: 0 <= j < |k| ==> k[j] !in PyWhitespace
  }

  predicate LowerLetters(k: string) {
    forall j :: 0 <= j < |k| ==> 'a' <= k[j] <= 'z'
  }

  lemma LettersAreNotWhitespace(k: string)
    requires LowerLetters(k)
    ensures WhitespaceFree(k)
  {
    forall j | 0 <= j < |k| ensures k[j] !in PyWhitespace {
      var c := k[j];
      assert 'a' <= c <= 'z';
    }
  }

  lemma KeywordsWithoutWhitespace()
    ensures WhitespaceFree("biology") && WhitespaceFree("math") && WhitespaceFree("mathematics")
    ensures WhitespaceFree("chemistry") && WhitespaceFree("physics")
  {
    LettersAreNotWhitespace("biology");
    LettersAreNotWhitespace("math");
    LettersAreNotWhitespace("mathematics");
    LettersAreNotWhitespace("chemistry");
    LettersAreNotWhitespace("physics");
  }

  /** Stripping whitespace never changes the keyword branch. */
  lemma ClassifyIgnoresEnds(name: string)
    ensures Classify(PyStrip(name)) == Classify(name)
  {
    KeywordsWithoutWhitespace();
    ContainsTrim(name, "biology", PyWhitespace);
    ContainsTrim(name, "math", PyWhitespace);
    ContainsTrim(name, "mathematics", PyWhitespace);
    ContainsTrim(name, "chemistry", PyWhitespace);
    ContainsTrim(name, "physics", PyWhitespace);
  }

  lemma LowerIdempotent(s: string)
    ensures Lower(Lower(s)) == Lower(s)
  {
    assert forall i :: 0 <= i < |s| ==> LowerChar(LowerChar(s[i])) == LowerChar(s[i]);
  }

  /** Lower-casing is idempotent, so an already lower-cased name is routed the
      same way as the original. */
  lemma ModelOfLowered(s: string)
    ensures ModelForSubject(Lower(s)) == ModelForSubject(s)
  {
    LowerIdempotent(s);
  }

  /** Whitespace around the name never changes the model. */
  lemma ModelIgnoresSurroundingWhitespace(pre: string, s: string, post: string)
    requires forall i :: 0 <= i < |pre| ==> pre[i] in PyWhitespace
    requires forall i :: 0 <= i < |post| ==> post[i] in PyWhitespace
    ensures ModelForSubject(pre + s + post) == ModelForSubject(s)
  {
    var t := Lower(pre + s + post);
    LoweredAround(pre, s, post);
    ClassifySlice(t, |pre|, |pre| + |s|);
    ClassifyIgnoresEnds(t);
    ClassifyIgnoresEnds(Lower(s));
    assert RoutingClass(pre + s + post) == RoutingClass(s);
  }

  /** Lower-casing leaves whitespace around a name as it was. */
  lemma LoweredAround(pre: string, s: string, post: string)
    requires forall i :: 0 <= i < |pre| ==> pre[i] in PyWhitespace
    requires forall i :: 0 <= i < |post| ==> post[i] in PyWhitespace
    ensures var t := Lower(pre + s + post);
            && |pre| + |s| <= |t| && t[|pre|..|pre| + |s|] == Lower(s)
            && (forall i :: 0 <= i < |pre| ==> t[i] in PyWhitespace)
            && (forall i :: |pre| + |s| <= i < |t| ==> t[i] in PyWhitespace)
  {
    var t := Lower(pre + s + post);
    LowerConcat(pre + s, post);
    LowerConcat(pre, s);
    assert t == Lower(pre) + Lower(s) + Lower(post);
    var a, b := |pre|, |pre| + |s|;
    assert t[a..b] == Lower(s);
    forall i | 0 <= i < a ensures t[i] in PyWhitespace {
      LowerKeepsWhitespace(pre[i]);
    }
    forall i | b <= i < |t| ensures t[i] in PyWhitespace {
      LowerKeepsWhitespace(post[i - b]);
    }
  }

  lemma LowerKeepsWhitespace(c: char)
    requires c in PyWhitespace
    ensures LowerChar(c) == c
  {
  }

  /** Cutting whitespace off both ends never changes the keyword branch. */
  lemma ClassifySlice(t: string, a: nat, b: nat)
    requires a <= b <= |t|
    requires forall i :: 0 <= i < a ==> t[i] in PyWhitespace
    requires forall i :: b <= i < |t| ==> t[i] in PyWhitespace
    ensures Classify(t[a..b]) == Classify(t)
  {
    KeywordsWithoutWhitespace();
    ContainsSlice(t, a, b, "biology", PyWhitespace);
    ContainsSlice(t, a, b, "math", PyWhitespace);
    ContainsSlice(t, a, b, "mathematics", PyWhitespace);
    ContainsSlice(t, a, b, "chemistry", PyWhitespace);
    ContainsSlice(t, a, b, "physics", PyWhitespace);
  }

  // ---------------------------------------------------------------------
  // System prompt

  const PromptIntro: string := "You are an expert educational content creator."
  const PromptOutro: string :=
    " Generate high-quality questions based on the given topic and requirements. Always respond with valid JSON only."

  /** The four specialisation sentences share their opening words. */
  const Specialise: string := " You specialize in creating "
  const BiologySpecialisation: string :=
    Specialise + "accurate biology questions with precise scientific terminology."
  const MathematicsSpecialisation: string :=
    Specialise + "mathematics questions with clear problem-solving steps and accurate formulas."
  const ChemistrySpecialisation: string :=
    Specialise + "chemistry questions with accurate chemical equations and terminology."
  const PhysicsSpecialisation: string :=
    Specialise + "physics questions with accurate physical laws and formulas."

  function Specialisation(c: SubjectClass): string {
    match c
    case Biology => BiologySpecialisation
    case Mathematics => MathematicsSpecialisation
    case Chemistry => ChemistrySpecialisation
    case Physics => PhysicsSpecialisation
    case Other => ""
  }

  /** The system prompt sent with every question request. It tests the
      lower-cased name without stripping it; the specialisation it picks is
      nonetheless the one matching the chosen model. */
  function SystemPrompt(subject: string): (p: string)
    ensures p == PromptIntro + Specialisation(RoutingClass(subject)) + PromptOutro
  {
    ClassifyIgnoresEnds(Lower(subject));
    PromptIntro + Specialisation(Classify(Lower(subject))) + PromptOutro
  }

  /** The five model ids are pairwise different. */
  lemma ModelsDistinct()
    ensures forall c, d: SubjectClass :: ModelOf(c) == ModelOf(d) ==> c == d
  {
    assert BiologyModel[0] == 'm' && BiologyModel[1] == 'i';
    assert MathematicsModel[0] == 'm' && MathematicsModel[1] == 'e';
    assert ChemistryModel[0] == 'n';
    assert PhysicsModel[0] == 'g' && PhysicsModel[10] == 'm';
    assert DefaultModel[0] == 'g' && DefaultModel[10] == 'i';
  }

  /** Only the keyword-less branch gets the default model, and only it adds no
      specialisation sentence. */
  lemma DefaultIffOther(c: SubjectClass)
    ensures ModelOf(c) == DefaultModel <==> c == Other
    ensures |Specialisation(c)| == 0 <==> c == Other
  {
    match c
    case Biology =>
      assert ModelOf(c)[0] != DefaultModel[0] && |Specialisation(c)| >= |Specialise|;
    case Mathematics =>
      assert ModelOf(c)[0] != DefaultModel[0] && |Specialisation(c)| >= |Specialise|;
    case Chemistry =>
      assert ModelOf(c)[0] != DefaultModel[0] && |Specialisation(c)| >= |Specialise|;
    case Physics =>
      assert ModelOf(c)[10] != DefaultModel[10] && |Specialisation(c)| >= |Specialise|;
    case Other =>
  }

  /** The prompt starts with the fixed introduction, ends with the JSON-only
      sentence, and has a specialisation sentence in between exactly when the
      subject is routed to a specialised model. */
  lemma SystemPromptFrame(subject: string)
    ensures var p := SystemPrompt(subject);
            && |PromptIntro| + |PromptOutro| <= |p|
            && p[..|PromptIntro|] == PromptIntro
            && p[|p| - |PromptOutro|..] == PromptOutro
            && (|p| == |PromptIntro| + |PromptOutro| <==> ModelForSubject(subject) == DefaultModel)
  {
    var c := RoutingClass(subject);
    PrefixAndSuffix(PromptIntro, Specialisation(c), PromptOutro);
    SpecialisedIffNotDefault(c, ModelForSubject(subject), |SystemPrompt(subject)|);
  }

  lemma SpecialisedIffNotDefault(c: SubjectClass, m: string, n: int)
    requires m == ModelOf(c) && n == |PromptIntro| + |Specialisation(c)| + |PromptOutro|
    ensures n == |PromptIntro| + |PromptOutro| <==> m == DefaultModel
  {
    DefaultIffOther(c);
    if c == Other {
      assert m == DefaultModel && |Specialisation(c)| == 0;
    } else {
      assert m != DefaultModel && |Specialisation(c)| != 0;
    }
  }
}
