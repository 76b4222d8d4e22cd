/** Worksheet export in the frontend: the plain-text document, the
    per-question blocks of the printable HTML, the answer rendering both share,
    the file name and the format dispatch. The clock and the date are
    parameters; the download itself and the PDF renderer are not modelled. */
module Export {
  import opened Wrappers
  import opened Text
  import opened Questions

  // ---------------------------------------------------------------------
  // Answers

  /** JavaScript truthiness of a correct-answer field: absent, `null`, the
      number 0 and the empty string are falsy; an array is always truthy. */
  predicate AnswerTruthy(a: Field<Answer>) {
    match a
    case Undefined => false
    case Null => false
    case Given(Choice(n)) => n != 0
    case Given(Choices(_)) => true
    case Given(Written(s)) => |s| > 0
  }

  function IntStrings(ns: seq<int>): (r: seq<string>)
    ensures |r| == |ns| && forall k :: 0 <= k < |ns| ==> r[k] == IntToString(ns[k])
  {
    if |ns| == 0 then [] else [IntToString(ns[0])] + IntStrings(ns[1..])
  }

  /** `String(a)`: a number in decimal, an array as its elements joined by
      `","`, a string as itself. */
  function AnswerString(a: Answer): string {
    match a
    case Choice(n) => IntToString(n)
    case Choices(ns) => Join(IntStrings(ns), ",")
    case Written(s) => s
  }

  /** The answer as the text and HTML exporters print it: a letter or letters
      for an MCQ with an index answer, otherwise the answer itself or "N/A"
      when it is falsy. */
  function AnswerText(q: Question): string {
    if q.qtype == "mcq" && q.correctAnswer.Given? && q.correctAnswer.value.Choice? then
      Letter(q.correctAnswer.value.index)
    else if q.qtype == "mcq" && q.correctAnswer.Given? && q.correctAnswer.value.Choices? then
      Letters(q.correctAnswer.value.indices)
    else if AnswerTruthy(q.correctAnswer) then AnswerString(q.correctAnswer.value)
    else "N/A"
  }

  /** An MCQ's letters read back as the answer indices, when they are in the
      alphabet range. */
  lemma McqAnswerDecodes(q: Question)
    requires q.qtype == "mcq" && q.correctAnswer.Given?
    ensures q.correctAnswer.value.Choice? && 0 <= q.correctAnswer.value.index < 26 ==>
              ReadLetters(AnswerText(q)) == [q.correctAnswer.value.index]
    ensures q.correctAnswer.value.Choices?
            && (forall k :: 0 <= k < |q.correctAnswer.value.indices| ==> 0 <= q.correctAnswer.value.indices[k] < 26) ==>
              ReadLetters(AnswerText(q)) == q.correctAnswer.value.indices
  {
    match q.correctAnswer.value
    case Choice(i) =>
      if 0 <= i < 26 {
        assert AnswerText(q) == Letter(i);
      }
    case Choices(ixs) =>
      if forall k :: 0 <= k < |ixs| ==> 0 <= ixs[k] < 26 {
        LettersRoundTrip(ixs);
      }
    case Written(_) =>
  }

  /** Outside MCQs, and for a text answer to an MCQ, the answer is printed as
      it is, except that a falsy one (none, the number 0, "") prints "N/A";
      a positive number prints digits that read back as the number. */
  lemma OtherAnswerShown(q: Question)
    requires q.qtype != "mcq" || !q.correctAnswer.Given? || q.correctAnswer.value.Written?
    ensures !AnswerTruthy(q.correctAnswer) ==> AnswerText(q) == "N/A"
    ensures q.correctAnswer == Given(Choice(0)) ==> AnswerText(q) == "N/A"
    ensures AnswerTruthy(q.correctAnswer) && q.correctAnswer.value.Written? ==>
              AnswerText(q) == q.correctAnswer.value.text
    ensures q.correctAnswer.Given? && q.correctAnswer.value.Choice? && q.correctAnswer.value.index > 0 ==>
              AllDigits(AnswerText(q)) && DigitsValue(AnswerText(q)) == q.correctAnswer.value.index
  {
    if q.correctAnswer.Given? && q.correctAnswer.value.Choice? && q.correctAnswer.value.index > 0 {
      NatToStringRoundTrip(q.correctAnswer.value.index);
    }
  }

  // ---------------------------------------------------------------------
  // Plain text

  /** A line of 50 box-drawing characters closing every question block. */
  const Separator: string := "──────────────────────────────────────────────────"

  function Heading(q: Question, i: nat): string {
    "Q" + NatToString(i + 1) + ". " + q.text + " (" + MarksLabel(q.marks) + ")\n"
  }

  /** Option `j` as a text line: its letter, ". ", the option. */
  function OptionLine(j: nat, option: string): string {
    Letter(j) + ". " + option + "\n"
  }

  function OptionLines(os: seq<string>): (r: seq<string>)
    ensures |r| == |os| && forall j :: 0 <= j < |os| ==> r[j] == OptionLine(j, os[j])
  {
    seq(|os|, j requires 0 <= j < |os| => OptionLine(j, os[j]))
  }

  /** The option lines, printed for MCQs that have options and nothing else. */
  function TextOptions(q: Question): string {
    if q.qtype == "mcq" && q.options.Some? then Concat(OptionLines(q.options.value)) else ""
  }

  function AnswerSection(q: Question): string {
    "\nAnswer: " + AnswerText(q) + "\n\nExplanation: " + q.explanation + "\n"
  }

  /** The rule under the header: 50 `=`. */
  const HeaderRule: string := "=================================================="

  const BlockEnd: string := "\n" + Separator + "\n\n"

  /** The text of question `i` (counting from 0). */
  function TextBlock(q: Question, i: nat, includeAnswers: bool): string {
    Heading(q, i) + TextOptions(q) + (if includeAnswers then AnswerSection(q) else "") + BlockEnd
  }

  function TextBlocks(qs: seq<Question>, includeAnswers: bool): (r: seq<string>)
    ensures |r| == |qs| && forall i :: 0 <= i < |qs| ==> r[i] == TextBlock(qs[i], i, includeAnswers)
  {
    seq(|qs|, i requires 0 <= i < |qs| => TextBlock(qs[i], i, includeAnswers))
  }

  /** The title, its `=` underline as long as the title in UTF-16 code units,
      the count, the total marks, the date, and a rule of 50 `=`. */
  function TextHeader(topic: string, qs: seq<Question>, date: string): string {
    Concat([topic + "\n", Repeat('=', Utf16Length(topic)) + "\n\n",
            "Questions: " + NatToString(|qs|) + "\n",
            "Total Marks: " + IntToString(TotalMarks(qs)) + "\n",
            "Date: " + date + "\n\n",
            HeaderRule + "\n\n"])
  }

  /** `exportToText`: the header, then the `questions.forEach` loop appending
      block after block; `date` is the locale date string of the moment of
      export. */
  function ExportToText(topic: string, qs: seq<Question>, includeAnswers: bool, date: string): string {
    AppendFrom(TextHeader(topic, qs, date), TextBlocks(qs, includeAnswers), 0)
  }

  /** The document is the header followed by one block per question, in list
      order, block `i` numbered `i + 1`. */
  lemma TextDocument(topic: string, qs: seq<Question>, includeAnswers: bool, date: string)
    ensures ExportToText(topic, qs, includeAnswers, date)
            == TextHeader(topic, qs, date) + Concat(TextBlocks(qs, includeAnswers))
  {
    AppendFromConcat(TextHeader(topic, qs, date), TextBlocks(qs, includeAnswers), 0);
    assert TextBlocks(qs, includeAnswers)[0..] == TextBlocks(qs, includeAnswers);
  }

  /** The header opens with the title on its own line, underlined by exactly
      as many `=` as the title has UTF-16 code units, and states the question
      count and the total of the marks. */
  lemma HeaderStates(topic: string, qs: seq<Question>, date: string)
    ensures var h := TextHeader(topic, qs, date);
            var u := Utf16Length(topic);
            && |topic| + 1 + u <= |h|
            && h[..|topic| + 1] == topic + "\n"
            && h[|topic| + 1..|topic| + 1 + u] == Repeat('=', u)
            && Contains(h, "Questions: " + NatToString(|qs|) + "\n")
            && Contains(h, "Total Marks: " + IntToString(TotalMarks(qs)) + "\n")
  {
    var xs := [topic + "\n", Repeat('=', Utf16Length(topic)) + "\n\n",
               "Questions: " + NatToString(|qs|) + "\n",
               "Total Marks: " + IntToString(TotalMarks(qs)) + "\n",
               "Date: " + date + "\n\n",
               HeaderRule + "\n\n"];
    assert TextHeader(topic, qs, date) == Concat(xs);
    ConcatPiece(xs, 2);
    ConcatPiece(xs, 3);
    ConcatFrontTwo(xs);
    FrontParts(topic + "\n", Repeat('=', Utf16Length(topic)), "\n\n", Concat(xs[2..]));
  }

  /** A block opens with its numbered heading and the marks label, and closes
      with the newline, the separator and a blank line. */
  lemma BlockShape(q: Question, i: nat, includeAnswers: bool)
    ensures var b := TextBlock(q, i, includeAnswers);
            var h := Heading(q, i);
            && |h| + |BlockEnd| <= |b|
            && b[..|h|] == h
            && b[|b| - |BlockEnd|..] == BlockEnd
  {
    FourParts(Heading(q, i), TextOptions(q), if includeAnswers then AnswerSection(q) else "", BlockEnd);
  }

  /** Every block ends with the separator, so a document has one separator
      per question, and a non-empty list's document ends with one. */
  lemma DocumentEndsWithSeparator(topic: string, qs: seq<Question>, includeAnswers: bool, date: string)
    requires |qs| > 0
    ensures EndsWith(ExportToText(topic, qs, includeAnswers, date), BlockEnd)
  {
    var bs := TextBlocks(qs, includeAnswers);
    BlockShape(qs[|qs| - 1], |qs| - 1, includeAnswers);
    EndsWithSuffix(TextHeader(topic, qs, date), bs, BlockEnd);
    TextDocument(topic, qs, includeAnswers, date);
  }

  /** Options appear only for MCQs: a non-MCQ block does not depend on the
      options at all, and an MCQ block with options contains every option
      line, lettered from "A". */
  lemma OptionsOnlyForMcq(q: Question, i: nat, includeAnswers: bool, other: Option<seq<string>>)
    ensures q.qtype != "mcq" ==>
              TextBlock(q.(options := other), i, includeAnswers) == TextBlock(q, i, includeAnswers)
    ensures q.qtype == "mcq" && q.options.Some? ==>
              forall j :: 0 <= j < |q.options.value| ==>
                Contains(TextBlock(q, i, includeAnswers), OptionLine(j, q.options.value[j]))
  {
    if q.qtype != "mcq" {
      OptionsIgnored(q, i, includeAnswers, other);
    } else if q.options.Some? {
      forall j | 0 <= j < |q.options.value|
        ensures Contains(TextBlock(q, i, includeAnswers), OptionLine(j, q.options.value[j]))
      {
        OptionShown(q, i, includeAnswers, j);
      }
    }
  }

  lemma OptionsIgnored(q: Question, i: nat, includeAnswers: bool, other: Option<seq<string>>)
    requires q.qtype != "mcq"
    ensures TextBlock(q.(options := other), i, includeAnswers) == TextBlock(q, i, includeAnswers)
  {
    var p := q.(options := other);
    assert TextOptions(p) == "" == TextOptions(q);
    assert Heading(p, i) == Heading(q, i);
    assert AnswerSection(p) == AnswerSection(q);
  }

  lemma OptionShown(q: Question, i: nat, includeAnswers: bool, j: nat)
    requires q.qtype == "mcq" && q.options.Some? && j < |q.options.value|
    ensures Contains(TextBlock(q, i, includeAnswers), OptionLine(j, q.options.value[j]))
  {
    var os := q.options.value;
    var answers := if includeAnswers then AnswerSection(q) else "";
    assert TextOptions(q) == Concat(OptionLines(os));
    ConcatPieceInside(Heading(q, i), OptionLines(os), answers, BlockEnd, j);
    assert OptionLines(os)[j] == OptionLine(j, os[j]);
  }

  /** The answer and explanation appear only when asked for: without them a
      block does not depend on the answer or the explanation; with them the
      block is the same text with the answer section inserted just before
      the closing separator. */
  lemma AnswersOnlyWhenAsked(q: Question, i: nat, answer: Field<Answer>, explanation: string)
    ensures TextBlock(q.(correctAnswer := answer, explanation := explanation), i, false) == TextBlock(q, i, false)
    ensures var on := TextBlock(q, i, true);
            var off := TextBlock(q, i, false);
            var p := |Heading(q, i)| + |TextOptions(q)|;
            var sec := AnswerSection(q);
            && p + |sec| <= |on|
            && on[p..p + |sec|] == sec
            && on[..p] + on[p + |sec|..] == off
  {
    AnswersIgnored(q, i, answer, explanation);
    AnswerSectionInserted(q, i);
  }

  lemma AnswersIgnored(q: Question, i: nat, answer: Field<Answer>, explanation: string)
    ensures TextBlock(q.(correctAnswer := answer, explanation := explanation), i, false) == TextBlock(q, i, false)
  {
    var p := q.(correctAnswer := answer, explanation := explanation);
    assert Heading(p, i) == Heading(q, i);
    assert TextOptions(p) == TextOptions(q);
  }

  lemma AnswerSectionInserted(q: Question, i: nat)
    ensures var on := TextBlock(q, i, true);
            var p := |Heading(q, i)| + |TextOptions(q)|;
            var sec := AnswerSection(q);
            && p + |sec| <= |on|
            && on[p..p + |sec|] == sec
            && on[..p] + on[p + |sec|..] == TextBlock(q, i, false)
  {
    var a := Heading(q, i) + TextOptions(q);
    assert |a| == |Heading(q, i)| + |TextOptions(q)|;
    BlockWithAndWithout(q, i);
    InsertedMiddle(a, AnswerSection(q), BlockEnd, TextBlock(q, i, true), TextBlock(q, i, false));
  }

  lemma BlockWithAndWithout(q: Question, i: nat)
    ensures TextBlock(q, i, true) == Heading(q, i) + TextOptions(q) + AnswerSection(q) + BlockEnd
    ensures TextBlock(q, i, false) == Heading(q, i) + TextOptions(q) + BlockEnd
  {
    var ho := Heading(q, i) + TextOptions(q);
    assert ho + "" == ho;
  }

  // ---------------------------------------------------------------------
  // HTML blocks (the page around them is not modelled)

  const HtmlItemOpen: string := "\n            <div class=\"question-item\">\n                <p class=\"question-text\">\n                    Q"
  const HtmlMarksOpen: string := "\n                    <span class=\"marks-float\">\n                        ("
  const HtmlMarksClose: string := ")\n                    </span>\n                </p>\n        "
  const HtmlImageOpen: string := "\n                <div class=\"question-image\" style=\"margin-bottom: 15px; text-align: center; page-break-inside: avoid;\">\n                    <img src=\""
  const HtmlImageClose: string := "\" alt=\"Question Diagram\" style=\"max-width: 100%; height: auto; border: 1px solid #ddd; padding: 5px;\"/>\n                </div>\n            "
  const HtmlAnswerOpen: string := "\n                <div class=\"answer-box\">\n                    <p><strong class=\"answer-label\">Answer:</strong> "

  function HtmlHead(q: Question, i: nat): string {
    Concat([HtmlItemOpen, NatToString(i + 1), ". ", q.text, HtmlMarksOpen, MarksLabel(q.marks), HtmlMarksClose])
  }

  /** Only the first image is embedded, and only when there is one. */
  function HtmlImage(q: Question): string {
    if q.images.Some? && |q.images.value| > 0 then HtmlImageOpen + q.images.value[0] + HtmlImageClose else ""
  }

  function HtmlOptionLine(j: nat, option: string): string {
    "<p><strong>" + Letter(j) + ".</strong> " + option + "</p>"
  }

  function HtmlOptions(q: Question): string {
    if q.qtype == "mcq" && q.options.Some? then
      var os := q.options.value;
      "<div class=\"mcq-options\">"
      + Concat(seq(|os|, j requires 0 <= j < |os| => HtmlOptionLine(j, os[j])))
      + "</div>"
    else ""
  }

  function HtmlAnswer(q: Question, includeAnswers: bool): string {
    if includeAnswers then
      HtmlAnswerOpen + AnswerText(q) + "</p>"
      + "<p><strong class=\"explanation-label\">Explanation:</strong> " + q.explanation + "</p>"
      + "</div>"
    else ""
  }

  /** Ruled lines left for a written answer: 5 for short, 8 for long, none
      otherwise. */
  function AnswerLines(qtype: string): nat {
    if qtype == "short" then 5 else if qtype == "long" then 8 else 0
  }

  /** The blank answer area, 18 pixels per line. */
  function AnswerSpace(qtype: string): (r: string)
    ensures qtype == "short" ==> Contains(r, "height: 90px;")
    ensures qtype == "long" ==> Contains(r, "height: 144px;")
    ensures r == "" <==> qtype != "short" && qtype != "long"
  {
    if qtype == "short" || qtype == "long" then
      var height := "height: " + NatToString(AnswerLines(qtype) * 18) + "px;";
      var r := "<div class=\"answer-space\" style=\"" + height + "\"></div>";
      ContainsInfix("<div class=\"answer-space\" style=\"", height, "\"></div>");
      HeightText();
      r
    else ""
  }

  lemma HeightText()
    ensures "height: " + NatToString(5 * 18) + "px;" == "height: 90px;"
    ensures "height: " + NatToString(8 * 18) + "px;" == "height: 144px;"
  {
  }

  /** The HTML of question `i`. */
  function HtmlBlock(q: Question, i: nat, includeAnswers: bool): string {
    Concat([HtmlHead(q, i), HtmlImage(q), HtmlOptions(q), HtmlAnswer(q, includeAnswers), AnswerSpace(q.qtype), "</div>"])
  }

  function HtmlBlocks(qs: seq<Question>, includeAnswers: bool): string {
    Concat(seq(|qs|, i requires 0 <= i < |qs| => HtmlBlock(qs[i], i, includeAnswers)))
  }

  /** Only the first image matters: two questions that differ only in their
      image lists, with the same first image or none on either side, give the
      same HTML; and a first image, when there is one, is embedded. */
  lemma HtmlFirstImageOnly(q: Question, images: Option<seq<string>>, i: nat, includeAnswers: bool)
    requires var a := q.images.Some? && |q.images.value| > 0;
             var b := images.Some? && |images.value| > 0;
             a == b && (a ==> q.images.value[0] == images.value[0])
    ensures HtmlBlock(q.(images := images), i, includeAnswers) == HtmlBlock(q, i, includeAnswers)
    ensures q.images.Some? && |q.images.value| > 0 ==>
              Contains(HtmlBlock(q, i, includeAnswers), HtmlImageOpen + q.images.value[0] + HtmlImageClose)
  {
    var p := q.(images := images);
    assert HtmlHead(p, i) == HtmlHead(q, i);
    assert HtmlImage(p) == HtmlImage(q);
    assert HtmlOptions(p) == HtmlOptions(q);
    assert AnswerText(p) == AnswerText(q);
    assert HtmlAnswer(p, includeAnswers) == HtmlAnswer(q, includeAnswers);
    if q.images.Some? && |q.images.value| > 0 {
      var xs := [HtmlHead(q, i), HtmlImage(q), HtmlOptions(q), HtmlAnswer(q, includeAnswers), AnswerSpace(q.qtype), "</div>"];
      ConcatPiece(xs, 1);
      ContainsSame(HtmlBlock(q, i, includeAnswers), Concat(xs), HtmlImage(q));
    }
  }

  /** Short questions get a 90-pixel answer area, long ones 144 pixels, and
      no other type gets one. */
  lemma HtmlAnswerSpace(q: Question, i: nat, includeAnswers: bool)
    ensures q.qtype == "short" ==> Contains(HtmlBlock(q, i, includeAnswers), "height: 90px;")
    ensures q.qtype == "long" ==> Contains(HtmlBlock(q, i, includeAnswers), "height: 144px;")
    ensures q.qtype != "short" && q.qtype != "long" ==>
              HtmlBlock(q, i, includeAnswers)
              == Concat([HtmlHead(q, i), HtmlImage(q), HtmlOptions(q), HtmlAnswer(q, includeAnswers), "", "</div>"])
  {
    var xs := [HtmlHead(q, i), HtmlImage(q), HtmlOptions(q), HtmlAnswer(q, includeAnswers), AnswerSpace(q.qtype), "</div>"];
    if q.qtype == "short" || q.qtype == "long" {
      ConcatPiece(xs, 4);
      if q.qtype == "short" {
        ContainsTransitive(Concat(xs), xs[4], "height: 90px;");
      } else {
        ContainsTransitive(Concat(xs), xs[4], "height: 144px;");
      }
    }
  }

  /** The text and HTML exports print the same answer. */
  lemma ExportsShareAnswer(q: Question, i: nat)
    ensures Contains(TextBlock(q, i, true), AnswerText(q))
    ensures Contains(HtmlBlock(q, i, true), AnswerText(q))
  {
    TextShowsAnswer(q, i);
    HtmlShowsAnswer(q, i);
  }

  lemma TextShowsAnswer(q: Question, i: nat)
    ensures Contains(TextBlock(q, i, true), AnswerText(q))
  {
    var a := "\nAnswer: " + AnswerText(q);
    ContainsEnd("\nAnswer: ", AnswerText(q));
    ContainsExtend(a, AnswerText(q), "\n\nExplanation: ");
    ContainsExtend(a + "\n\nExplanation: ", AnswerText(q), q.explanation);
    ContainsExtend(a + "\n\nExplanation: " + q.explanation, AnswerText(q), "\n");
    ContainsInfix(Heading(q, i) + TextOptions(q), AnswerSection(q), BlockEnd);
    ContainsTransitive(TextBlock(q, i, true), AnswerSection(q), AnswerText(q));
  }

  lemma HtmlShowsAnswer(q: Question, i: nat)
    ensures Contains(HtmlBlock(q, i, true), AnswerText(q))
  {
    var ys := [HtmlHead(q, i), HtmlImage(q), HtmlOptions(q), HtmlAnswer(q, true), AnswerSpace(q.qtype), "</div>"];
    ConcatPiece(ys, 3);
    var e := "<p><strong class=\"explanation-label\">Explanation:</strong> ";
    var a := HtmlAnswerOpen + AnswerText(q);
    ContainsEnd(HtmlAnswerOpen, AnswerText(q));
    ContainsExtend(a, AnswerText(q), "</p>");
    ContainsExtend(a + "</p>", AnswerText(q), e);
    ContainsExtend(a + "</p>" + e, AnswerText(q), q.explanation);
    ContainsExtend(a + "</p>" + e + q.explanation, AnswerText(q), "</p>");
    ContainsExtend(a + "</p>" + e + q.explanation + "</p>", AnswerText(q), "</div>");
    ContainsTransitive(Concat(ys), HtmlAnswer(q, true), AnswerText(q));
  }

  // ---------------------------------------------------------------------
  // File name and format

  predicate AsciiAlnum(c: char) {
    'a' <= c <= 'z' || 'A' <= c <= 'Z' || '0' <= c <= '9'
  }

  /** A character a sanitised name may contain. */
  predicate FileNameChar(c: char) {
    'a' <= c <= 'z' || '0' <= c <= '9' || c == '_'
  }

  /** One character of `replace(/[^a-z0-9]/gi, '_').toLowerCase()`. The
      replacement works on UTF-16 code units, so a character outside the basic
      plane, two code units, becomes two underscores. */
  function SanitiseChar(c: char): (r: string)
    ensures |r| == Utf16Units(c)
    ensures forall k :: 0 <= k < |r| ==> FileNameChar(r[k])
  {
    if AsciiAlnum(c) then [LowerChar(c)] else if c as int < 0x1_0000 then "_" else "__"
  }

  function Sanitise(s: string): (r: string)
    ensures |r| == Utf16Length(s)
    ensures forall k :: 0 <= k < |r| ==> FileNameChar(r[k])
  {
    if |s| == 0 then "" else SanitiseChar(s[0]) + Sanitise(s[1..])
  }

  lemma {:induction false} SanitiseAppend(a: string, b: string)
    ensures Sanitise(a + b) == Sanitise(a) + Sanitise(b)
  {
    if |a| > 0 {
      assert (a + b)[1..] == a[1..] + b;
      SanitiseAppend(a[1..], b);
    } else {
      assert a + b == b;
    }
  }

  /** Sanitising a sanitised name changes nothing. */
  lemma {:induction false} SanitiseIdempotent(s: string)
    ensures Sanitise(Sanitise(s)) == Sanitise(s)
  {
    if |s| > 0 {
      var head := SanitiseChar(s[0]);
      SanitiseAppend(head, Sanitise(s[1..]));
      SanitiseIdempotent(s[1..]);
      if |head| == 1 {
        assert head[1..] == "";
      } else {
        assert head[1..][1..] == "";
      }
    }
  }

  /** On text in the basic plane the name keeps every position: ASCII letters
      and digits survive lower-cased, everything else becomes `_`. */
  lemma {:induction false} SanitiseBasicPlane(s: string)
    requires forall k :: 0 <= k < |s| ==> s[k] as int < 0x1_0000
    ensures |Sanitise(s)| == |s|
    ensures forall k :: 0 <= k < |s| ==>
              Sanitise(s)[k] == if AsciiAlnum(s[k]) then LowerChar(s[k]) else '_'
  {
    if |s| > 0 {
      SanitiseBasicPlane(s[1..]);
      assert forall k :: 1 <= k < |s| ==> s[k] == s[1..][k - 1];
    }
  }

  datatype ExportOptions = ExportOptions(includeAnswers: bool, format: string, filename: Option<string>)

  /** What is handed to the download or to the PDF renderer. */
  datatype ExportFile =
    | PdfFile(name: string, questionsHtml: string)
    | TextFile(name: string, content: string)

  /** `options.filename || worksheet_<sanitised topic>_<now>`; `now` is
      `Date.now()`. */
  function BaseName(topic: string, opts: ExportOptions, now: nat): string {
    if opts.filename.Some? && |opts.filename.value| > 0 then opts.filename.value
    else "worksheet_" + Sanitise(topic) + "_" + NatToString(now)
  }

  /** `exportWorksheet`: PDF or text by format; any other format is an error. */
  function ExportWorksheet(topic: string, qs: seq<Question>, opts: ExportOptions, now: nat, date: string)
    : (r: Result<ExportFile, string>)
    ensures r.Failure? <==> opts.format != "pdf" && opts.format != "txt"
    ensures r.Failure? ==> r.error == "Unsupported format: " + opts.format
    ensures r.Success? ==> r.value.name == BaseName(topic, opts, now) + "." + opts.format
  {
    var name := BaseName(topic, opts, now);
    if opts.format == "pdf" then Success(PdfFile(name + ".pdf", HtmlBlocks(qs, opts.includeAnswers)))
    else if opts.format == "txt" then Success(TextFile(name + ".txt", ExportToText(topic, qs, opts.includeAnswers, date)))
    else Failure("Unsupported format: " + opts.format)
  }

  /** An explicit non-empty file name wins; otherwise the name is "worksheet_",
      then only lower-case letters, digits and underscores, as many as the
      topic has UTF-16 code units, then "_" and the timestamp. */
  lemma FileNameChoice(topic: string, opts: ExportOptions, now: nat)
    ensures opts.filename.Some? && |opts.filename.value| > 0 ==> BaseName(topic, opts, now) == opts.filename.value
    ensures !(opts.filename.Some? && |opts.filename.value| > 0) ==>
              var n := BaseName(topic, opts, now);
              var u := Utf16Length(topic);
              && |n| == 10 + u + 1 + |NatToString(now)|
              && n[..10] == "worksheet_"
              && (forall k :: 10 <= k < 10 + u ==> FileNameChar(n[k]))
              && n[10 + u..] == "_" + NatToString(now)
  {
    if !(opts.filename.Some? && |opts.filename.value| > 0) {
      var n := BaseName(topic, opts, now);
      var sn := Sanitise(topic);
      FourParts("worksheet_", sn, "_", NatToString(now));
      forall k | 10 <= k < 10 + |sn| ensures FileNameChar(n[k]) {
        assert n[k] == n[10..10 + |sn|][k - 10] == sn[k - 10];
      }
    }
  }

  /** A text export carries exactly the text document. */
  lemma TextExportContent(topic: string, qs: seq<Question>, opts: ExportOptions, now: nat, date: string)
    requires opts.format == "txt"
    ensures ExportWorksheet(topic, qs, opts, now, date).value.TextFile?
    ensures ExportWorksheet(topic, qs, opts, now, date).value.content
            == TextHeader(topic, qs, date) + Concat(TextBlocks(qs, opts.includeAnswers))
  {
    TextDocument(topic, qs, opts.includeAnswers, date);
  }
}
