# Worksheet generator: a Dafny model

This project models the core of a worksheet and quiz generator for school
teachers. The backend is a FastAPI service. It looks up the chosen topic,
chapter and subject, builds a prompt, and picks a language model by subject
keyword. It recovers a JSON question list from the model's free-text reply,
optionally replaces image descriptions by generated images, and saves the
questions after reading each record through key synonyms and defaults. The
frontend is a React application. Its filter panel, worksheet, quiz and exam
pages turn selections into generation requests. The question card and
results panel edit, reorder, copy and save questions, the export utilities
render plain-text and HTML worksheets, and the quiz result and feedback views
grade and report.

Everything is modelled as pure functions over immutable datatypes, plus two
small methods with loops. Outside effects become parameters:

- The model call is `llm: LlmCall -> LlmReply`.
- JSON parsing is `parse: string -> Option<Json>`.
- The image service is `gen: (Json, string) -> Option<string>`.
- The clock is `clock: nat -> nat` or `now: nat`, and the locale date is a
  `date: string`.
- The fetched catalogue lists are `seq<Topic>`, `seq<Chapter>` and
  `seq<Subject>`.

Python truthiness, `dict.get` with defaults, `x or y` and JavaScript's
`x || d` are written out explicitly.

The modules follow the source files:

| module | source |
|---|---|
| `LlmService`, `Recovery` | the `LLMService` class of backend/main.py |
| `Prompt`, `Images`, `Normalise`, `Worksheet` | `generate_worksheet` in backend/main.py |
| `Curriculum` | backend/ncert_math_topics.py |
| `JsonValue`, `Text`, `Wrappers` | shared helpers |
| `Questions`, `Export` | frontend/src/lib/exportUtils.ts |
| `MockData` | frontend/src/lib/mockData.ts |
| `QuestionCard`, `ResultsPanel`, `FilterPanel`, `QuizResults`, `QuizFeedback` | the components of the same names |
| `IndexPage`, `QuizCreation`, `ExamCreation` | the pages of the same names |
| `Catalogue` | the catalogue lookups the pages share |

The backend does not repair invalid escape sequences or control characters in
the model's reply. It does not reconcile the number of questions returned
with the number requested. It tries a direct parse, then the first `[`…last
`]` slice, then the first `{`…last `}` slice, and otherwise fails with the
first 200 characters of the reply. A message content that is not a string
(`null`, say) fails the first parse with a `TypeError`, which the generic
handler answers with "Unexpected error during JSON parsing: …". `Recovery`
models these paths.

## Model

| member | source | states |
|---|---|---|
| LlmService.ModelForSubject | backend/main.py:882-909 | The model is one of the five configured ids, and it is the default exactly when none of "biology", "math", "chemistry", "physics" occurs in the lower-cased name. |
| LlmService.ClassifyIsFirstRule | backend/main.py:898-909 | The if/elif chain is the first matching rule of an ordered keyword table, so biology wins over math, math over chemistry, and so on. |
| LlmService.MathematicsTestRedundant | backend/main.py:901 | The `"mathematics" in s` test never matters: a name is routed to mathematics exactly when it has no "biology" and does contain "math". |
| LlmService.ClassifyIgnoresEnds | backend/main.py:896 | `.strip()` before the keyword test does not change the routing, because no keyword contains whitespace. |
| LlmService.LowerIdempotent | backend/main.py:896 | Lower-casing twice is lower-casing once. |
| LlmService.ModelOfLowered | backend/main.py:896 | A subject and its lower-cased form are routed to the same model. |
| LlmService.ModelIgnoresSurroundingWhitespace | backend/main.py:896 | Whitespace added around a subject name never changes its model. |
| LlmService.ModelsDistinct | backend/main.py:882-890 | The five model ids are pairwise different, so the model determines the routing class. |
| LlmService.DefaultIffOther | backend/main.py:994-1004 | Only unrouted subjects get the default model, and only they get no specialisation sentence in the system prompt. |
| LlmService.SystemPromptFrame | backend/main.py:994-1006 | The system prompt starts with the expert sentence and ends with the JSON-only sentence. It has a specialisation sentence in between exactly when the subject is not routed to the default model. |
| Recovery.SearchSpan | backend/main.py:1050-1068 | The greedy DOTALL search for `\[.*\]` finds the leftmost opening bracket and the rightmost closing bracket after it, and finds nothing exactly when no such pair exists. |
| Recovery.BracketSlice | backend/main.py:1050-1068 | The matched text is the slice between the span's ends, and there is one exactly when a span exists. |
| Recovery.BracketSliceShape | backend/main.py:1050-1068 | The slice starts with the opening character, ends with the closing one, and nothing before it opens and nothing after it closes. |
| Recovery.RecoverQuestions | backend/main.py:1036-1079 | Every failure carries the parse-failure message quoting the reply. |
| Recovery.RecoverIsFirstSuccess | backend/main.py:1036-1079 | Recovery is the first successful attempt among the whole reply, the bracket slice and the brace slice, with a lone object wrapped in a list. |
| Recovery.DirectParse | backend/main.py:1038-1043 | A reply that parses as a dict becomes a one-element list, and one that parses as a list is returned as it is. |
| Recovery.FailsIffNothingParses | backend/main.py:1036-1079 | Recovery fails exactly when none of the three candidate texts parses. |
| Recovery.ListInProse | backend/main.py:1050-1056 | A JSON list surrounded by prose without brackets is recovered as that list. |
| Recovery.FailureQuotesPrefix | backend/main.py:1073-1076 | The error detail quotes at most the first 200 characters of the reply. |
| Recovery.RecoverContent | backend/main.py:1036-1079 | A string content goes through the recovery chain. Any other content fails at once with the unexpected-error prefix and Python's `TypeError` text naming the value's type. |
| Recovery.FailureDetails | backend/main.py:1069-1079 | The parse-failure prefix and the unexpected-error prefix never mix: the first is used exactly for string content and the second exactly for any other content. |
| Prompt.EffectiveSubjectName | backend/main.py:1245 | The request's subject name is used when it is non-empty, and the stored subject's name otherwise. |
| Prompt.BaseStatesRequest | backend/main.py:1249-1276 | The base block states the MCQ, short and long counts and the difficulty, each between its own label and the next. |
| Prompt.BaseOpensWithSubject | backend/main.py:1249-1252 | The base block opens with the subject line. |
| Prompt.PromptStatesRequest | backend/main.py:1249-1361 | The whole prompt states the requested counts and difficulty. |
| Prompt.PromptStatesImageFlag | backend/main.py:1341-1347 | The prompt contains the image block with the Python spelling of the image flag. |
| Prompt.PromptFrame | backend/main.py:1249-1361 | The prompt opens with the subject line and closes with the format instructions. |
| Prompt.SubjectInstructionsFollowRouting | backend/main.py:1279-1338 | The subject block is chosen by the same keyword rules as the model, so it is empty exactly when the default model is used. |
| Prompt.InstructionsDistinct | backend/main.py:1281-1338 | The four subject blocks are pairwise different. |
| Images.ResolveDescriptions | backend/main.py:1379-1388 | A record's descriptions resolve exactly when every description yields an image, with one payload each. Otherwise the calls stop at the first failure. |
| Images.Payloads | backend/main.py:1383 | One string payload per generated image, in order. |
| Images.ResolveAll | backend/main.py:1373-1391 | With images off the records are untouched. Otherwise the list keeps its length and fails exactly when some record's loop raises. |
| Images.UnselectedUntouched | backend/main.py:1376 | A record that is not an image question with descriptions passes through unchanged. |
| Images.SelectedAtomic | backend/main.py:1376-1391 | A selected record ends with either one payload per description or an empty image list, never a partial list. |
| Images.CallsStopAtFirstFailure | backend/main.py:1384-1388 | After the first failing description no further image calls are made. |
| Normalise.PyOr | backend/main.py:1398 | `a or b` is truthy exactly when either operand is. |
| Normalise.NormaliseRecord | backend/main.py:1394-1423 | A record is saved exactly when it is a dict with a truthy `text`, `question` or `question_text`, and the saved text is truthy. |
| Normalise.NormaliseFields | backend/main.py:1398-1413 | Field by field: text is the first truthy synonym; options, answer, type, explanation, images, difficulty and marks follow key presence with their defaults. |
| Normalise.Positions | backend/main.py:1395-1423 | The positions returned are exactly those whose element is kept, in increasing order. |
| Normalise.KeptIndices | backend/main.py:1395-1423 | The kept positions are exactly the records with a usable text, in order. |
| Normalise.SaveAll | backend/main.py:1395-1423 | The saved list has one normalised question per kept record, in record order. |
| Normalise.SaveAllEmpty | backend/main.py:1425-1429 | Nothing is saved exactly when no record has a usable text. |
| Worksheet.FindTopic | backend/main.py:1223-1228 | The topic found has the requested id, and none is found only when no row has it. |
| Worksheet.FindChapter | backend/main.py:1231-1236 | The same for the topic's chapter. |
| Worksheet.FindSubject | backend/main.py:1238-1242 | The same for the chapter's subject. |
| Worksheet.Lookup | backend/main.py:1223-1242 | Every lookup failure is a 404. |
| Worksheet.GenerateWorksheet | backend/main.py:1215-1441 | A successful request returns a non-empty list of saved questions. |
| Worksheet.LookupFirst | backend/main.py:1223-1228 | A missing topic is reported before the model is ever called. |
| Worksheet.CallIsRouted | backend/main.py:1361-1364 | The model call carries the model and system prompt chosen from the effective subject name, and the built prompt. |
| Worksheet.ImagesOffIgnoresGenerator | backend/main.py:1374 | With images off the image service cannot influence the outcome. |
| Worksheet.SuccessSavesKeptRecords | backend/main.py:1394-1432 | A successful run returns exactly the normalised records with a usable text, in order. |
| Worksheet.NoValidQuestionsIff | backend/main.py:1427-1431 | The request fails with "no valid questions" exactly when no recovered record has a usable text. |
| Text.IndexOf | backend/main.py:1398-1413 | The index found holds the key and is the first to do so, and none is found only when the key is absent. |
| Text.IndexOfAppend | backend/main.py:1390 | A key appended after existing keys is found only when no earlier key matches. |
| JsonValue.SetField | backend/main.py:1390 | `d[key] = v` makes `d.get(key)` return `v` and changes no other key. An existing key keeps its place. |
| JsonValue.Iterate | backend/main.py:1379 | `for x in v` yields a list's items, a string's characters one by one, or a dict's keys in order, and raises for null, booleans and numbers. |
| Curriculum.SharesSumTo100 | backend/ncert_math_topics.py:50-66 | Each difficulty's question-type shares add up to 100. |
| Curriculum.MarksOrderedByType | backend/ncert_math_topics.py:25-47 | At every difficulty, MCQs carry fewer marks than short answers, which carry fewer than long answers. |
| Curriculum.HarderMeansMore | backend/ncert_math_topics.py:25-47 | A harder level never carries fewer marks for any question type. |
| Curriculum.DifficultyKeysAgree | backend/ncert_math_topics.py:25-66 | The level table and the distribution table have the same three levels. |
| Curriculum.WeightageKeysAgree | backend/ncert_math_topics.py:69-84 | The weightage table names the 14 topics of the topic table (lines 3-22), in that table's order, without repeats. |
| Curriculum.WeightsSumTo100 | backend/ncert_math_topics.py:69-84 | The topic weights add up to 100. |
| Questions.MarksLabel | frontend/src/lib/exportUtils.ts:1028 | The marks label is the number, then " mark", then at most one more character. |
| Questions.MarksLabelPlural | frontend/src/components/QuestionCard.tsx:106 | The label ends in "s" exactly when there is more than one mark. |
| Questions.TotalMarksAppend | frontend/src/lib/exportUtils.ts:1023 | The total of the marks of two lists put together is the sum of their totals. |
| Export.McqAnswerDecodes | frontend/src/lib/exportUtils.ts:1038-1044 | An MCQ answer index in the alphabet prints as its letter, and a list of indices prints as letters that read back as the same indices. |
| Export.OtherAnswerShown | frontend/src/lib/exportUtils.ts:1038-1044 | A falsy answer prints "N/A" (index 0 included), a written answer prints as written, and a positive index on a non-MCQ question prints its decimal digits. |
| Export.OptionLines | frontend/src/lib/exportUtils.ts:1030-1034 | One line per option, lettered by position. |
| Export.TextBlocks | frontend/src/lib/exportUtils.ts:1027-1049 | One block per question, block `i` built from question `i`. |
| Export.TextDocument | frontend/src/lib/exportUtils.ts:1015-1053 | The loop that appends block after block yields the header followed by all blocks in list order. |
| Export.HeaderStates | frontend/src/lib/exportUtils.ts:1020-1025 | The header is the title line, an underline as long as the title in UTF-16 units, the question count and the marks total. |
| Export.BlockShape | frontend/src/lib/exportUtils.ts:1027-1049 | Every block opens with its numbered heading and closes with the separator. |
| Export.DocumentEndsWithSeparator | frontend/src/lib/exportUtils.ts:1027-1049 | A non-empty document ends with the block separator. |
| Export.OptionsOnlyForMcq | frontend/src/lib/exportUtils.ts:1030-1034 | A non-MCQ block does not depend on the options, and an MCQ block contains every option line. |
| Export.AnswersOnlyWhenAsked | frontend/src/lib/exportUtils.ts:1038-1046 | Without answers a block does not depend on the answer or explanation. With them it is the same block with the answer section inserted before the separator. |
| Export.AnswerSpace | frontend/src/lib/exportUtils.ts:857-861 | Short questions get a 90-pixel answer area and long ones 144 pixels. Every other type gets none. |
| Export.HtmlFirstImageOnly | frontend/src/lib/exportUtils.ts:817-825 | The HTML depends on the images only through the first one, which is embedded when present. |
| Export.HtmlAnswerSpace | frontend/src/lib/exportUtils.ts:803-866 | The HTML block carries the answer area of its question type. |
| Export.ExportsShareAnswer | frontend/src/lib/exportUtils.ts:1038-1044 | The text export and the HTML export (lines 803-866) print the same answer text. |
| Export.TextShowsAnswer | frontend/src/lib/exportUtils.ts:1038-1044 | A text block with answers contains the answer text. |
| Export.HtmlShowsAnswer | frontend/src/lib/exportUtils.ts:803-866 | An HTML block with answers contains the answer text. |
| Export.SanitiseChar | frontend/src/lib/exportUtils.ts:1071-1082 | Each UTF-16 unit of a character becomes one allowed file-name character. |
| Export.Sanitise | frontend/src/lib/exportUtils.ts:1071-1082 | The sanitised name has one allowed character per UTF-16 unit of the topic. |
| Export.SanitiseAppend | frontend/src/lib/exportUtils.ts:1071-1082 | Sanitising works character by character, so it distributes over concatenation. |
| Export.SanitiseIdempotent | frontend/src/lib/exportUtils.ts:1071-1082 | Sanitising a sanitised name changes nothing. |
| Export.SanitiseBasicPlane | frontend/src/lib/exportUtils.ts:1071-1082 | Without astral characters, letters are lower-cased, digits kept, and everything else becomes `_`, position by position. |
| Export.ExportWorksheet | frontend/src/lib/exportUtils.ts:1063-1082 | Only "pdf" and "txt" are accepted, other formats fail with the unsupported-format message, and the file name is the base name plus the format. |
| Export.FileNameChoice | frontend/src/lib/exportUtils.ts:1071-1082 | A non-empty chosen file name is used as given. Otherwise the name is "worksheet_", the sanitised topic, "_" and the timestamp. |
| Export.TextExportContent | frontend/src/lib/exportUtils.ts:1063-1082 | A "txt" export is a text file holding the plain-text document. |
| MockData.Filtered | frontend/src/lib/mockData.ts:158-159 | Every kept sample is a selected one from the list, and every selected sample is kept. |
| MockData.FilteredSingle | frontend/src/lib/mockData.ts:158-159 | A single sample is kept exactly when its label is selected. |
| MockData.FilteredAppend | frontend/src/lib/mockData.ts:158-159 | Filtering distributes over concatenation, so the selected samples are kept as often as they occur and in their original order. |
| MockData.GenerateQuestions | frontend/src/lib/mockData.ts:157-172 | `count` questions (none for a non-positive count), cycling through the filtered samples, with pairwise different ids. |
| MockData.IdsDiffer | frontend/src/lib/mockData.ts:167 | Ids of different positions differ whatever the clock says. |
| MockData.IdParts | frontend/src/lib/mockData.ts:167 | An id splits on "-" back into "q", the timestamp and the position. |
| MockData.NoTypesNoFilter | frontend/src/lib/mockData.ts:158 | With no type selected every sample is kept. |
| MockData.LongAnswerFiltersAll | frontend/src/lib/mockData.ts:158-159 | Selecting only "Long Answer" keeps nothing, because no sample type carries that label. |
| MockData.TypeLabels | frontend/src/lib/mockData.ts:159 | Every type gets one of the four labels, and "Long Answer" exactly for unknown types. |
| QuestionCard.TypeLabel | frontend/src/components/QuestionCard.tsx:68-76 | Known types get their display label and unknown types show as they are. |
| QuestionCard.LabelsAgreeWithMock | frontend/src/components/QuestionCard.tsx:68-76 | The card and the mock filter label known types alike, and disagree on unknown types. |
| QuestionCard.LabelsDistinct | frontend/src/components/QuestionCard.tsx:68-76 | Different known types get different labels. |
| QuestionCard.TypeColor | frontend/src/components/QuestionCard.tsx:58-66 | Exactly the unknown types get no colour classes. |
| QuestionCard.ColoursDistinct | frontend/src/components/QuestionCard.tsx:58-66 | Different known types get different colour classes. |
| QuestionCard.OptionAt | frontend/src/components/QuestionCard.tsx:219-225 | An index inside the options gives that option and any other index gives nothing. |
| QuestionCard.CorrectAnswerShown | frontend/src/components/QuestionCard.tsx:216-226 | The correct-answer line is missing exactly when the field is undefined. A `null` answer, which the backend sends for a question without one, shows the line with an empty span, and a text answer shows as written. |
| QuestionCard.NullAnswerShownEmpty | frontend/src/components/QuestionCard.tsx:216-226 | Without an answer the card shows an empty line for `null` and no line for a missing field, while the export prints "N/A" for both (exportUtils.ts line 1043). |
| QuestionCard.CardAndExportAgree | frontend/src/components/QuestionCard.tsx:219-225 | For an MCQ index the card shows the option text while the export prints its letter, and that letter heads the option's line. |
| QuestionCard.ShownLettersDecode | frontend/src/components/QuestionCard.tsx:219-225 | A multi-answer line reads back as the answer's indices. |
| QuestionCard.EditedTextShown | frontend/src/components/QuestionCard.tsx:144-145 | Whatever is typed in the options box is shown back unchanged. |
| QuestionCard.OptionsRoundTrip | frontend/src/components/QuestionCard.tsx:144-145 | Options without newlines survive joining and splitting, and an empty list comes back as one empty option. |
| QuestionCard.Edited | frontend/src/components/QuestionCard.tsx:29-154 | An edit changes only the text, options and explanation. The options change only for an MCQ whose box was typed in, and then the box shows what was typed. |
| QuestionCard.Save | frontend/src/components/QuestionCard.tsx:53-56 | Save sends the card's question id with the form as it stands. |
| QuestionCard.RunFrames | frontend/src/components/QuestionCard.tsx:29-154 | Whatever is typed, the form keeps every field but text, options and explanation, and keeps the options unless an MCQ's box was typed in. |
| QuestionCard.UntouchedEditIsIdentity | frontend/src/components/QuestionCard.tsx:53-56 | Saving a form that was only opened and cancelled gives back the question unchanged, whatever its options. |
| QuestionCard.TypingGivesEdited | frontend/src/components/QuestionCard.tsx:136-154 | Typing text, options and explanation gives the edited record, and skipping the options box keeps the question's options. |
| QuestionCard.CancelKeepsEdits | frontend/src/components/QuestionCard.tsx:163 | Cancel does not reset the form, so earlier edits survive. |
| QuestionCard.SaveIgnoresLaterQuestion | frontend/src/components/QuestionCard.tsx:29 | The form is initialised once, so a later question sends the form as typed under the new question's id. |
| QuestionCard.Thumbnail | frontend/src/components/QuestionCard.tsx:173-182 | The card shows the first image exactly when there is one. |
| QuestionCard.DialogImage | frontend/src/components/QuestionCard.tsx:249-254 | The dialog has an image slot exactly when the question has an image list. |
| QuestionCard.OnlyFirstImageShown | frontend/src/components/QuestionCard.tsx:173-182 | The card and the dialog (lines 249-254) show the same first image, and the dialog shows nothing for an empty list. |
| ResultsPanel.Apply | frontend/src/components/ResultsPanel.tsx:78-80 | For each of the twelve fields, a field the patch holds replaces the question's and an absent one keeps it. |
| ResultsPanel.UpdateById | frontend/src/components/ResultsPanel.tsx:78-80 | Exactly the questions with the id are patched, and the list keeps its length and order. |
| ResultsPanel.ApplyIdempotent | frontend/src/components/ResultsPanel.tsx:78-80 | Applying a patch twice is applying it once, and the empty patch changes nothing. |
| ResultsPanel.WholeReplaces | frontend/src/components/ResultsPanel.tsx:78-80 | Saving the edit form replaces the question by the edited record. |
| ResultsPanel.UpdateIdempotent | frontend/src/components/ResultsPanel.tsx:78-80 | Repeating an update changes nothing more, even when the patch changes the id. |
| ResultsPanel.UpdateUnknownId | frontend/src/components/ResultsPanel.tsx:78-80 | An id no question has leaves the list unchanged. |
| ResultsPanel.ArrayMove | frontend/src/components/ResultsPanel.tsx:55-63 | The moved element lands at the target index and the length stays. |
| ResultsPanel.Remove | frontend/src/components/ResultsPanel.tsx:55-63 | Removing an element shortens the list by one. |
| ResultsPanel.MoveCharacterised | frontend/src/components/ResultsPanel.tsx:55-63 | Apart from the moved element the order is kept, the move is a permutation, and moving back undoes it. |
| ResultsPanel.IndexOfId | frontend/src/components/ResultsPanel.tsx:55-63 | The index found is the first question with the id, and none is found only when no question has it. |
| ResultsPanel.DragEnd | frontend/src/components/ResultsPanel.tsx:55-63 | No target, or a drop on itself, changes nothing. Any drop is a permutation of the list. |
| ResultsPanel.DragMovesToTarget | frontend/src/components/ResultsPanel.tsx:55-63 | The dragged question ends where the target was, and the others keep their relative order. |
| ResultsPanel.MoveKeepsTotal | frontend/src/components/ResultsPanel.tsx:55-63 | Reordering never changes the marks total shown at lines 200-201. |
| ResultsPanel.CopyOptionLines | frontend/src/components/ResultsPanel.tsx:125-128 | One lettered line per option. |
| ResultsPanel.CopyBlocks | frontend/src/components/ResultsPanel.tsx:125-128 | One block per question, in order. |
| ResultsPanel.CopyOptionsSplit | frontend/src/components/ResultsPanel.tsx:125-128 | The option part of a block splits back into its lines when no option has a newline. |
| ResultsPanel.CopyHasEveryQuestion | frontend/src/components/ResultsPanel.tsx:125-128 | The clipboard text contains every question's block, headed by its number and text. |
| ResultsPanel.Ids | frontend/src/components/ResultsPanel.tsx:145-151 | The saved id list is the questions' ids in list order. |
| ResultsPanel.SaveCall | frontend/src/components/ResultsPanel.tsx:145-151 | A save goes out exactly when the trimmed name is non-empty and a topic id is set, with the name as typed. |
| ResultsPanel.SaveNeedsNameAndTopic | frontend/src/components/ResultsPanel.tsx:146 | A save goes out exactly when the name has a non-whitespace character and a topic id is set. |
| ResultsPanel.PanelExportName | frontend/src/components/ResultsPanel.tsx:87-92 | The panel always exports under "worksheet_", the sanitised topic and the timestamp, as pdf or txt, and its format dispatch never fails. The renderer itself can still reject (exportUtils.ts lines 985-1007). |
| ResultsPanel.CountLabel | frontend/src/components/ResultsPanel.tsx:200 | "question" takes an "s" exactly when there is more than one question. |
| FilterPanel.GradesLoaded | frontend/src/components/FilterPanel.tsx:80-87 | Loaded grades are stored, and the first is selected only when none was. Nothing else changes, and a failed fetch changes nothing. |
| FilterPanel.SubjectsLoaded | frontend/src/components/FilterPanel.tsx:99-102 | Loaded subjects reset the subject choice and the chapter and topic lists. Nothing else changes, and a failed fetch changes nothing. |
| FilterPanel.ChaptersLoaded | frontend/src/components/FilterPanel.tsx:114-116 | Loaded chapters reset the chapter choice and the topic list. Nothing else changes, and a failed fetch changes nothing. |
| FilterPanel.TopicsLoaded | frontend/src/components/FilterPanel.tsx:128-129 | Loaded topics reset the topic choice. Nothing else changes, and a failed fetch changes nothing. |
| FilterPanel.Without | frontend/src/components/FilterPanel.tsx:173-177 | Removing a type keeps every other type. |
| FilterPanel.ToggleFlips | frontend/src/components/FilterPanel.tsx:173-177 | Toggling flips the type's membership and no other type's. |
| FilterPanel.ToggleTwice | frontend/src/components/FilterPanel.tsx:173-177 | Toggling twice restores membership, and the very list when the type was unselected. |
| FilterPanel.ToggleKeepsDistinct | frontend/src/components/FilterPanel.tsx:173-177 | Toggling never introduces a repeated type. |
| FilterPanel.Clear | frontend/src/components/FilterPanel.tsx:162-171 | Clearing resets chapter, topic, counts, types and difficulty to their defaults, and keeps board, grade, subject and the fetched lists. |
| FilterPanel.Generate | frontend/src/components/FilterPanel.tsx:137-159 | Nothing is generated without a topic. Otherwise the filters carry the panel's choices and the total count. |
| FilterPanel.ClearIdempotent | frontend/src/components/FilterPanel.tsx:162-171 | Clearing twice is clearing once, and a cleared panel cannot generate. |
| FilterPanel.CountFallback | frontend/src/components/FilterPanel.tsx:144 | The overall count is the per-type sum when it is non-zero, and the question count otherwise. A cleared panel sends five. |
| FilterPanel.NewTopicsBlockGenerate | frontend/src/components/FilterPanel.tsx:128-129 | Neither a fresh panel (lines 33-51) nor freshly loaded topics can generate before a topic is chosen. |
| FilterPanel.ChooseTopic | frontend/src/components/FilterPanel.tsx:260 | Choosing a non-empty topic enables generating for that topic. |
| Catalogue.FirstWith | frontend/src/pages/Index.tsx:45-58 | `find` returns the first element with the key, and nothing only when no element has it. |
| Catalogue.FindTopic | frontend/src/pages/Index.tsx:28-30 | The topic found has the id, and none is found only when no topic has it. |
| Catalogue.FindChapter | frontend/src/pages/Index.tsx:45-58 | The same for chapters. |
| Catalogue.FindSubject | frontend/src/pages/Index.tsx:45-58 | The same for subjects. |
| Catalogue.NameOr | frontend/src/pages/Index.tsx:28-30 | A found non-empty name wins, and the fallback is used otherwise. |
| Catalogue.SubjectNameOf | frontend/src/pages/Index.tsx:45-58 | A non-empty subject name comes from a chapter of the topic and a subject of that chapter. |
| Catalogue.SubjectNameFound | frontend/src/pages/Index.tsx:45-58 | When each link of the chain exists once, the name is that subject's. |
| Catalogue.SubjectNameMissing | frontend/src/pages/Index.tsx:45-58 | With no topic, or a topic whose chapter is not listed, the name is empty. |
| Catalogue.IntOr | frontend/src/pages/Index.tsx:34-37 | A missing or zero count falls back to the default, and any other count is kept. |
| Catalogue.PageTitle | frontend/src/pages/Index.tsx:28-30 | A page title is never empty: it is the fallback when no topic has the id (the quiz page does the same at QuizCreation.tsx lines 32-35), and otherwise the name of a topic with that id. |
| IndexPage.Request | frontend/src/pages/Index.tsx:60-69 | The request carries the chosen topic and the subject name found through its chapter. |
| IndexPage.RequestDefaults | frontend/src/pages/Index.tsx:34-42 | Missing counts are zero and a missing difficulty is "medium". Images are requested exactly when some type has its flag and a positive count. |
| IndexPage.FromFilterPanel | frontend/src/pages/Index.tsx:34-42 | From the filter panel the request carries the panel's own counts and difficulty and never asks for images. The panel's overall count and types do not reach it. |
| QuizCreation.Request | frontend/src/pages/QuizCreation.tsx:62-71 | The request carries the chosen topic and the subject name found through its chapter. |
| QuizCreation.CountDefaults | frontend/src/pages/QuizCreation.tsx:38-41 | A missing or zero MCQ count becomes five and the other counts default to zero. |
| QuizCreation.ImageFlags | frontend/src/pages/QuizCreation.tsx:44 | Images are requested exactly when the MCQ image flag is set and the MCQ count is positive. |
| QuizCreation.DifficultyOrBlooms | frontend/src/pages/QuizCreation.tsx:74-79 | A given difficulty is sent as given. Otherwise the Bloom's fields are sent when both are set, and the two are never sent together. |
| QuizCreation.QuizSave | frontend/src/pages/QuizCreation.tsx:128-130 | The quiz is saved as the title followed by " - Quiz", with the question ids in order. |
| QuizCreation.UnknownTopicTitle | frontend/src/pages/QuizCreation.tsx:128-130 | Without a matching topic the quiz is titled "Generated Quiz" (lines 32-35) and saved as "Generated Quiz - Quiz". |
| ExamCreation.DifficultyName | frontend/src/pages/ExamCreation.tsx:30-35 | Every difficulty has a non-empty name. |
| ExamCreation.AddTopic | frontend/src/pages/ExamCreation.tsx:75-82 | A selected, named, unlisted topic is appended to both lists and the selection cleared. Otherwise nothing changes. |
| ExamCreation.NamesWithout | frontend/src/pages/ExamCreation.tsx:84-87 | Filtering the names never lengthens the list. |
| ExamCreation.RemoveKeepsPairs | frontend/src/pages/ExamCreation.tsx:84-87 | Removing an id deletes exactly its (name, id) pair and keeps the lists paired. |
| ExamCreation.PickerStaysValid | frontend/src/pages/ExamCreation.tsx:75-87 | Adding and removing keep the lists paired and free of repeated ids, and a removed id is gone. |
| ExamCreation.AddThenRemove | frontend/src/pages/ExamCreation.tsx:75-87 | Removing a just-added topic restores both lists. |
| ExamCreation.Generate | frontend/src/pages/ExamCreation.tsx:90-134 | Without topics there is no request, only the error message. Otherwise the request carries the listed ids and counts, no images, and the selected subject's name when it is listed. |
| ExamCreation.AlwaysDifficulty | frontend/src/pages/ExamCreation.tsx:116-126 | The difficulty is always set, so the Bloom's fields are never sent. The subject name is that of the first listed subject with the selected id, and empty when nothing is selected or the id is unlisted. |
| QuizResults.ReachedMonotone | frontend/src/components/QuizResultsFixed.tsx:72-93 | A higher score never reaches fewer cut-offs. |
| QuizResults.Grade | frontend/src/components/QuizResultsFixed.tsx:86-93 | The grade is one of A+, A, B, C, D, F. |
| QuizResults.GradeByCutoffs | frontend/src/components/QuizResultsFixed.tsx:86-93 | The grade is fixed by how many of 50, 60, 70, 80, 90 the score reaches, so a higher score never gets a worse grade. |
| QuizResults.GradeReached | frontend/src/components/QuizResultsFixed.tsx:86-93 | The grade's rank is the number of cut-offs reached. |
| QuizResults.ScoreColour | frontend/src/components/QuizResultsFixed.tsx:72-77 | The colour is one of the four tiers. |
| QuizResults.ScoreMessage | frontend/src/components/QuizResultsFixed.tsx:79-84 | The message is one of the four tiers. |
| QuizResults.TiersAgree | frontend/src/components/QuizResultsFixed.tsx:72-93 | Colour and message follow the same 50/70/90 tiers. Green goes with A+ and red with F. |
| QuizResults.Incorrect | frontend/src/components/QuizResultsFixed.tsx:195 | Correct and incorrect add up to the question count. |
| QuizResults.PrefixParts | frontend/src/components/QuizResultsFixed.tsx:240-245 | A line starts with its prefix, and the rest reads back. |
| QuizResults.AnswerLineRoundTrip | frontend/src/components/QuizResultsFixed.tsx:240-245 | Every in-range answer's line reads back as that answer. |
| QuizResults.AnswerLinesDiffer | frontend/src/components/QuizResultsFixed.tsx:240-245 | Different in-range answers give different lines. |
| QuizResults.Latest | frontend/src/components/QuizResultsFixed.tsx:41-48 | The latest result is found exactly when there are results. It has the greatest completion time and no earlier result ties it. |
| QuizResults.LatestUnique | frontend/src/components/QuizResultsFixed.tsx:41-48 | There is only one latest result. |
| QuizResults.ChooseResult | frontend/src/components/QuizResultsFixed.tsx:36-54 | With an id the fetched result is shown. Without one the latest result is shown, and it fails exactly when there are no results. |
| QuizFeedback.Click | frontend/src/components/QuizFeedback.tsx:78-87 | Clicking a thumb changes only the selection. |
| QuizFeedback.ClickToggles | frontend/src/components/QuizFeedback.tsx:78-87 | A click selects the thumb unless it was selected, and clicking it again restores the form. |
| QuizFeedback.SentComment | frontend/src/components/QuizFeedback.tsx:37 | No comment is sent exactly when it is all whitespace. Otherwise the piece sent has no whitespace at its ends and only whitespace around it. |
| QuizFeedback.SentCommentIsTrim | frontend/src/components/QuizFeedback.tsx:37 | Any piece of the comment with non-whitespace ends and only whitespace around it is exactly what is sent. |
| QuizFeedback.Submit | frontend/src/components/QuizFeedback.tsx:21-64 | No call without a selection. Otherwise the call carries the choice and comment, success resets the form, and failure keeps the input. |
| QuizFeedback.RetryAfterFailure | frontend/src/components/QuizFeedback.tsx:47-64 | After a failure the same feedback can be sent again. |
| QuizFeedback.SuccessNeedsNewChoice | frontend/src/components/QuizFeedback.tsx:47-49 | After a success nothing is sent until a thumb is chosen again. |

## Left out

- Databases, the network, authentication and token checks, uuids, FastAPI routing and pydantic validation are not modelled. Their data enters as parameters.
- The HTTP calls to the model and image services are not modelled. They are the parameters `llm` and `gen`.
- Browser effects are not modelled: html2pdf, file download, the clipboard, printing, toasts, animation and async loading.
- The HTML page head and its CSS are not modelled. Only the per-question HTML blocks are.
- Case mapping beyond ASCII is not modelled: `Lower` maps only `A`–`Z`.
- JSON numbers are reals, without Python's int/float distinction. Recovery.PyTypeName calls a whole number `int`, while Python calls a decoded `1.0` a `float`.
- JSON objects are ordered key/value lists, and `parse` may return one with a repeated key. `JsonValue.Get` then reads the first value, while Python's `json.loads` keeps the last.
- Recovery.RecoverQuestions: `parse` is `None` exactly for a `JSONDecodeError`. A `RecursionError` from a deeply nested reply is not modelled. It gives the unexpected-error 500 in the first parse and escapes the handler in a fallback parse.
- `String.fromCharCode` on a lone surrogate code unit is represented as U+FFFD (`Text.Letter`), because Dafny characters are Unicode scalar values.
- The card's open/closed and editing flags are not modelled. Cancel only clears the editing flag, so on the form's record it is a no-op.
- The text of an arbitrary exception (`str(e)`) is a parameter of the 500 error, not reproduced.
- The mock samples' contents are not modelled. A sample is its type plus an opaque rest.
- Fractional marks and counts are not modelled, and neither is NaN. Marks and counts are integers, and quiz percentages are reals.
- `completedAt` is an integer timestamp. Results with missing or unparsable dates are not modelled.
- ResultsPanel.DragEnd: requires both ids to be in the list when a target is given, because the sortable list only reports its own items.
- ResultsPanel.CopyOptionsSplit: holds for up to 65481 options, because `String.fromCharCode` wraps and the 65482nd letter is a newline.
- The quiz filter panel is not part of this model. Its filters are an input with every field optional.
- The worksheet page fetches chapters with a chapter id passed as a subject id. The fetched lists are inputs, so this call is not modelled.
- After `handleSave` the panel clears its name field and closes its dialog. This UI state is not modelled.
- ExamFilterPanel, Header, equationUtils and api.ts are not part of this model.
- The unused early versions of the endpoints in backend/main.py and of the export helpers in exportUtils.ts are not part of this model.
