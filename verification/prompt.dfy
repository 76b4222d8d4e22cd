/** Prompt assembly of the worksheet endpoint: a fixed-layout base block
    carrying the request, a subject block chosen by the same keyword priority
    as model routing, an image block stating the image flag, and a fixed
    format block, concatenated in that order. The literal blocks are the
    endpoint's own text. */
module Prompt {
  import opened Wrappers
  import opened Text
  import opened LlmService

  /** The generation parameters of a worksheet request. `subjectName` is
      `None` when the client sends `null`. */
  datatype WorksheetRequest = WorksheetRequest(
    topicId: string,
    mcqCount: int,
    shortCount: int,
    longCount: int,
    difficulty: string,
    subjectName: Option<string>,
    includeImages: bool,
    generateRealImages: bool)

  /** `req.subject_name or subject.name`: a missing or empty requested name
      falls back to the stored subject name. */
  function EffectiveSubjectName(requested: Option<string>, stored: string): (n: string)
    ensures n == stored || (requested.Some? && n == requested.value && |n| > 0)
    ensures requested.Some? && |requested.value| > 0 ==> n == requested.value
  {
    match requested
    case Some(s) => if |s| > 0 then s else stored
    case None => stored
  }

  /** Python's `str()` of a boolean, as an f-string renders it. */
  function PyBool(b: bool): string {
    if b then "True" else "False"
  }

  // ---------------------------------------------------------------------
  // Literal blocks

  const BaseIntro: string :=
    "\n"
    + "        Generate educational questions for a worksheet with the following details:\n"
    + "        \n"
    + "        Subject: "

  const BaseChapter: string :=
    "\n"
    + "        Chapter: "

  const BaseTopic: string :=
    "\n"
    + "        Topic: "

  const BaseSubtopics: string :=
    "\n"
    + "        Subtopics: "

  const BaseMcq: string :=
    "\n"
    + "        \n"
    + "        Generate the following types of questions:\n"
    + "        - Multiple Choice Questions (MCQ): "

  const BaseShort: string :=
    "\n"
    + "        - Short Answer Questions: "

  const BaseLong: string :=
    "\n"
    + "        - Long Answer Questions: "

  const BaseDifficulty: string :=
    "\n"
    + "        \n"
    + "        Difficulty level: "

  const BaseStructure: string :=
    "\n"
    + "        \n"
    + "        For each question, provide the following JSON structure (IMPORTANT):\n"
    + "        {\n"
    + "            \"type\": \"mcq\" | \"short\" | \"long\" | \"image\",\n"
    + "            \"text\": \"The question text here\",\n"
    + "            \"options\": [\"option1\", \"option2\", \"option3\", \"option4\"] (for MCQ and image-based questions),\n"
    + "            \"correct_answer\": \"answer text or option index\",\n"
    + "            \"explanation\": \"explanation of the answer\",\n"
    + "            \"images\": [\"Image Description 1\"] (for image-based questions, include a detailed text description of the educational image that needs to be generated),\n"
    + "            \"difficulty\": \"easy\" | \"medium\" | \"hard\",\n"
    + "            \"marks\": 1 (or higher)\n"
    + "        }\n"
    + "        "

  const BiologyInstructions: string :=
    "\n"
    + "            For Biology questions:\n"
    + "            - Focus on biological processes, structures, and terminology\n"
    + "            - Include questions about cell biology, genetics, evolution, ecology, etc.\n"
    + "            - For image-based questions, include diagrams of biological structures (cells, organs, systems)\n"
    + "            - Ensure scientific accuracy in all biological concepts\n"
    + "            - Format all biological terms correctly with proper scientific notation\n"
    + "            - IMPORTANT: Format all biological terms and formulas using LaTeX notation:\n"
    + "              * Use $ for inline equations (e.g., $H_2O$)\n"
    + "              * Use $$ for display equations (e.g., $$C_6H_{12}O_6 + 6O_2 \\rightarrow 6CO_2 + 6H_2O$$)\n"
    + "              * Use proper subscripts and superscripts for chemical formulas\n"
    + "            "

  const MathematicsInstructions: string :=
    "\n"
    + "            For Mathematics questions:\n"
    + "            - Focus on mathematical concepts, formulas, and problem-solving\n"
    + "            - Include questions with equations, graphs, and numerical problems\n"
    + "            - For image-based questions, include graphs, geometric diagrams, or mathematical visualizations\n"
    + "            - Ensure all mathematical formulas and equations are accurate\n"
    + "            - IMPORTANT: Format all mathematical equations using LaTeX notation:\n"
    + "              * Use $ for inline equations (e.g., $x^2 + y^2 = r^2$)\n"
    + "              * Use $$ for display equations (e.g., $$\\int_{a}^{b} f(x)dx$$)\n"
    + "              * Use proper Greek letters (e.g., $\\alpha$, $\\beta$, $\\theta$)\n"
    + "              * Use proper mathematical symbols (e.g., $\\sum$, $\\prod$, $\\int$)\n"
    + "            - For solutions, show step-by-step problem-solving process\n"
    + "            - Include units for all numerical answers where appropriate\n"
    + "            "

  const ChemistryInstructions: string :=
    "\n"
    + "            For Chemistry questions:\n"
    + "            - Focus on chemical reactions, properties, and terminology\n"
    + "            - Include questions with chemical equations, molecular structures, and periodic table concepts\n"
    + "            - For image-based questions, include molecular diagrams, reaction mechanisms, or chemical structures\n"
    + "            - Ensure all chemical equations and formulas are balanced and accurate\n"
    + "            - IMPORTANT: Format chemical equations using LaTeX notation:\n"
    + "              * Use $ for inline equations (e.g., $H_2O$)\n"
    + "              * Use $$ for display equations (e.g., $$2H_2 + O_2 \\rightarrow 2H_2O$$)\n"
    + "              * Use subscripts for numbers (e.g., $H_2O$, $CO_2$)\n"
    + "              * Use superscripts for charges (e.g., $Ca^{2+}$, $Fe^{3+}$)\n"
    + "              * Use proper arrow notation for reactions ($\\rightarrow$ for forward, $\\leftrightarrow$ for equilibrium)\n"
    + "              * Include state symbols where appropriate ((s), (l), (g), (aq))\n"
    + "            "

  const PhysicsInstructions: string :=
    "\n"
    + "            For Physics questions:\n"
    + "            - Focus on physical laws, formulas, and concepts\n"
    + "            - Include questions with physics equations, diagrams, and problem-solving\n"
    + "            - For image-based questions, include force diagrams, circuit diagrams, or physics visualizations\n"
    + "            - Ensure all physics formulas and concepts are accurate\n"
    + "            - IMPORTANT: Format all physics equations using LaTeX notation:\n"
    + "              * Use $ for inline equations (e.g., $F = ma$)\n"
    + "              * Use $$ for display equations (e.g., $$E = mc^2$$)\n"
    + "              * Use Greek letters for variables ($\\alpha$, $\\beta$, $\\gamma$, $\\theta$, etc.)\n"
    + "              * Use proper mathematical symbols ($\\int$, $\\partial$, $\\nabla$, etc.)\n"
    + "              * Include units for all physical quantities where appropriate\n"
    + "              * For vector quantities, use proper vector notation ($\\vec{v}$, $|\\vec{v}|$, etc.)\n"
    + "            "

  const ImagesIntro: string :=
    "\n"
    + "        Include images: "

  const ImagesRules: string :=
    "\n"
    + "        \n"
    + "        {\"CRITICAL INSTRUCTION\": If include_images is true, you MUST create at least 1-2 image-based questions that require analyzing a diagram, chart, or image. These questions should have \"type\": \"image\" and include a DETAILED TEXT DESCRIPTION of the educational image to be generated in the \"images\" field.}\n"
    + "        \n"
    + "        If include_images is false, generate only regular text-based questions (mcq, short, long).\n"
    + "        "

  const FormatInstructions: string :=
    "\n"
    + "        {\"MANDATORY FORMAT\": Respond with ONLY a valid JSON array of question objects, nothing else.}\n"
    + "        Example format:\n"
    + "        [\n"
    + "            {\"type\": \"mcq\", \"text\": \"Question 1?\", \"options\": [\"A\", \"B\", \"C\", \"D\"], \"correct_answer\": 0, \"explanation\": \"Because...\", \"difficulty\": \"easy\", \"marks\": 1}},\n"
    + "            {\"type\": \"image\", \"text\": \"Analyze the diagram and answer:\", \"options\": [\"Option A\", \"Option B\", \"Option C\", \"Option D\"], \"correct_answer\": 0, \"explanation\": \"Because...\", \"images\": [\"A diagram of a plant cell\"], \"difficulty\": \"medium\", \"marks\": 3}},\n"
    + "            {\"type\": \"short\", \"text\": \"Question 3?\", \"options\": [], \"correct_answer\": \"answer\", \"explanation\": \"Because...\", \"difficulty\": \"medium\", \"marks\": 2}}\n"
    + "        ]\n"
    + "        "

  // ---------------------------------------------------------------------
  // Assembly

  /** The pieces of the block that describes the worksheet, in order: subject,
      chapter, topic, the subtopics joined by ", ", the three counts and the
      difficulty, each after its label. */
  function BaseParts(subject: string, chapter: string, topic: string, subtopics: seq<string>,
                     req: WorksheetRequest): seq<string>
  {
    [BaseIntro, subject, BaseChapter, chapter, BaseTopic, topic,
     BaseSubtopics, Join(subtopics, ", "),
     BaseMcq, IntToString(req.mcqCount),
     BaseShort, IntToString(req.shortCount),
     BaseLong, IntToString(req.longCount),
     BaseDifficulty, req.difficulty,
     BaseStructure]
  }

  function PromptBase(subject: string, chapter: string, topic: string, subtopics: seq<string>,
                      req: WorksheetRequest): string
  {
    Concat(BaseParts(subject, chapter, topic, subtopics, req))
  }

  function InstructionsOf(c: SubjectClass): string {
    match c
    case Biology => BiologyInstructions
    case Mathematics => MathematicsInstructions
    case Chemistry => ChemistryInstructions
    case Physics => PhysicsInstructions
    case Other => ""
  }

  /** The subject block, chosen on the lower-cased, stripped subject name. */
  function SubjectInstructions(subject: string): string {
    InstructionsOf(Classify(PyStrip(Lower(subject))))
  }

  function ImageInstructions(includeImages: bool): string {
    ImagesIntro + PyBool(includeImages) + ImagesRules
  }

  /** The user prompt sent to the model: base, subject, image and format
      blocks in that order. */
  function BuildPrompt(subject: string, chapter: string, topic: string, subtopics: seq<string>,
                       req: WorksheetRequest): string
  {
    Concat(PromptParts(subject, chapter, topic, subtopics, req))
  }

  function PromptParts(subject: string, chapter: string, topic: string, subtopics: seq<string>,
                       req: WorksheetRequest): seq<string>
  {
    [PromptBase(subject, chapter, topic, subtopics, req), SubjectInstructions(subject),
     ImageInstructions(req.includeImages), FormatInstructions]
  }

  // ---------------------------------------------------------------------
  // Properties

  /** The requested counts and the difficulty each appear in the base block,
      between their own label and the next one. */
  lemma BaseStatesRequest(subject: string, chapter: string, topic: string, subtopics: seq<string>,
                          req: WorksheetRequest)
    ensures var b := PromptBase(subject, chapter, topic, subtopics, req);
            && Contains(b, BaseMcq + IntToString(req.mcqCount) + BaseShort)
            && Contains(b, BaseShort + IntToString(req.shortCount) + BaseLong)
            && Contains(b, BaseLong + IntToString(req.longCount) + BaseDifficulty)
            && Contains(b, BaseDifficulty + req.difficulty + BaseStructure)
  {
    var xs := BaseParts(subject, chapter, topic, subtopics, req);
    WindowOfThree(xs, 8, BaseMcq, IntToString(req.mcqCount), BaseShort);
    WindowOfThree(xs, 10, BaseShort, IntToString(req.shortCount), BaseLong);
    WindowOfThree(xs, 12, BaseLong, IntToString(req.longCount), BaseDifficulty);
    WindowOfThree(xs, 14, BaseDifficulty, req.difficulty, BaseStructure);
  }

  /** The base block opens with the subject line. */
  lemma BaseOpensWithSubject(subject: string, chapter: string, topic: string, subtopics: seq<string>,
                             req: WorksheetRequest)
    ensures var b := PromptBase(subject, chapter, topic, subtopics, req);
            |BaseIntro + subject| <= |b| && b[..|BaseIntro + subject|] == BaseIntro + subject
  {
    var xs := BaseParts(subject, chapter, topic, subtopics, req);
    ConcatAppend(xs[..2], xs[2..]);
    assert xs[..2] + xs[2..] == xs;
    assert xs[..2] == [BaseIntro, subject];
    assert Concat([subject]) == subject + Concat([]);
    assert [BaseIntro, subject][1..] == [subject];
    assert Concat(xs[..2]) == BaseIntro + subject;
    PrefixAndSuffix(BaseIntro + subject, Concat(xs[2..]), "");
  }

  /** What the whole prompt is guaranteed to say: the requested counts and
      the difficulty, each between its own label and the next one. */
  lemma PromptStatesRequest(subject: string, chapter: string, topic: string, subtopics: seq<string>,
                            req: WorksheetRequest)
    ensures var p := BuildPrompt(subject, chapter, topic, subtopics, req);
            && Contains(p, BaseMcq + IntToString(req.mcqCount) + BaseShort)
            && Contains(p, BaseShort + IntToString(req.shortCount) + BaseLong)
            && Contains(p, BaseLong + IntToString(req.longCount) + BaseDifficulty)
            && Contains(p, BaseDifficulty + req.difficulty + BaseStructure)
  {
    var xs := PromptParts(subject, chapter, topic, subtopics, req);
    var base, rest := xs[0], Concat(xs[1..]);
    assert Concat(xs) == base + rest;
    BaseStatesRequest(subject, chapter, topic, subtopics, req);
    ContainsExtend(base, BaseMcq + IntToString(req.mcqCount) + BaseShort, rest);
    ContainsExtend(base, BaseShort + IntToString(req.shortCount) + BaseLong, rest);
    ContainsExtend(base, BaseLong + IntToString(req.longCount) + BaseDifficulty, rest);
    ContainsExtend(base, BaseDifficulty + req.difficulty + BaseStructure, rest);
  }

  /** The image block, which states the image flag, is in the prompt. */
  lemma PromptStatesImageFlag(subject: string, chapter: string, topic: string, subtopics: seq<string>,
                              req: WorksheetRequest)
    ensures Contains(BuildPrompt(subject, chapter, topic, subtopics, req),
                     ImagesIntro + PyBool(req.includeImages) + ImagesRules)
  {
    var xs := PromptParts(subject, chapter, topic, subtopics, req);
    ConcatPiece(xs, 2);
  }

  /** The prompt opens with the subject line and closes with the format block. */
  lemma PromptFrame(subject: string, chapter: string, topic: string, subtopics: seq<string>,
                    req: WorksheetRequest)
    ensures var p := BuildPrompt(subject, chapter, topic, subtopics, req);
            && |BaseIntro + subject| <= |p| && p[..|BaseIntro + subject|] == BaseIntro + subject
            && |FormatInstructions| <= |p| && p[|p| - |FormatInstructions|..] == FormatInstructions
  {
    var xs := PromptParts(subject, chapter, topic, subtopics, req);
    var base, rest := xs[0], Concat(xs[1..]);
    assert Concat(xs) == base + rest;
    BaseOpensWithSubject(subject, chapter, topic, subtopics, req);
    PrefixSuffix(base, rest);
    ConcatLast(xs);
    PrefixSuffix(Concat(xs[..3]), xs[3]);
  }

  /** The subject block follows the model routing: each specialised model
      comes with its own block, and the default model with none. */
  lemma SubjectInstructionsFollowRouting(subject: string)
    ensures forall c: SubjectClass ::
              SubjectInstructions(subject) == InstructionsOf(c) <==> ModelForSubject(subject) == ModelOf(c)
    ensures SubjectInstructions(subject) == "" <==> ModelForSubject(subject) == DefaultModel
  {
    InstructionsDistinct();
    ModelsDistinct();
  }

  lemma InstructionsDistinct()
    ensures forall c, d: SubjectClass :: InstructionsOf(c) == InstructionsOf(d) ==> c == d
  {
    assert BiologyInstructions[17] == 'B' && MathematicsInstructions[17] == 'M';
    assert ChemistryInstructions[17] == 'C' && PhysicsInstructions[17] == 'P';
  }
}
