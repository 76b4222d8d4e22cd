/** Recovery of question records from the raw text the model replies with:
    the whole text is parsed first; failing that, the greedy `[...]` span, and
    failing that, the greedy `{...}` span, whose value is wrapped in a list.
    The JSON parser itself (`json.loads`) is a parameter: `parse(s)` is `None`
    exactly when `json.loads(s)` raises `JSONDecodeError`. */
module Recovery {
  import opened Wrappers
  import opened Text
  import opened JsonValue

  // ---------------------------------------------------------------------
  // The greedy bracket search

  /** `s[p..q]` is a match of the pattern `<open>.*<close>` with `.` matching
      every character (the `re.DOTALL` flag). */
  predicate Matches(s: string, open: char, close: char, p: int, q: int) {
    0 <= p && p + 2 <= q <= |s| && s[p] == open && s[q - 1] == close
  }

  /** The span `re.search` reports for `<open>.*<close>`: the leftmost start
      that has any match, extended as far as the greedy `.*` can go. There is
      a match exactly when the first `open` precedes the last `close`. */
  function SearchSpan(s: string, open: char, close: char): (r: Option<(nat, nat)>)
    ensures r.Some? ==> Matches(s, open, close, r.value.0, r.value.1)
    ensures r.Some? ==> forall p, q :: p < r.value.0 ==> !Matches(s, open, close, p, q)
    ensures r.Some? ==> forall q :: r.value.1 < q ==> !Matches(s, open, close, r.value.0, q)
    ensures r.None? ==> forall p, q :: !Matches(s, open, close, p, q)
  {
    match (IndexOf(s, open), LastIndexOf(s, close))
    case (Some(i), Some(j)) =>
      if i < j then Some((i, j + 1))
      else None
    case _ => None
  }

  /** `re.search(r'<open>.*<close>', s, re.DOTALL).group(0)`, or `None`. */
  function BracketSlice(s: string, open: char, close: char): (r: Option<string>)
    ensures r.Some? <==> SearchSpan(s, open, close).Some?
    ensures r.Some? ==> r.value == s[SearchSpan(s, open, close).value.0..SearchSpan(s, open, close).value.1]
  {
    match SearchSpan(s, open, close)
    case Some((p, q)) => Some(s[p..q])
    case None => None
  }

  /** The slice starts with `open`, ends with `close`, and every character of
      the text before it differs from `open`, every one after it from `close`. */
  lemma BracketSliceShape(s: string, open: char, close: char)
    requires BracketSlice(s, open, close).Some?
    ensures var t := BracketSlice(s, open, close).value;
            |t| >= 2 && t[0] == open && t[|t| - 1] == close
            && exists p :: 0 <= p <= |s| - |t| && OccursAt(s, t, p)
                           && (forall i :: 0 <= i < p ==> s[i] != open)
                           && (forall i :: p + |t| <= i < |s| ==> s[i] != close)
  {
    var (p, q) := SearchSpan(s, open, close).value;
    var t := s[p..q];
    assert OccursAt(s, t, p);
    forall i | 0 <= i < p ensures s[i] != open {
      assert !Matches(s, open, close, i, q);
    }
    forall i | q <= i < |s| ensures s[i] != close {
      assert !Matches(s, open, close, p, i + 1);
    }
  }

  // ---------------------------------------------------------------------
  // The fallback chain

  const ParseFailurePrefix: string := "Failed to parse LLM response. Raw response: "

  /** The error raised when nothing parses: the prefix, then at most the
      first 200 characters of the reply. */
  function ParseFailure(content: string): string {
    ParseFailurePrefix + Take(content, 200)
  }

  /** `generate_questions` after the reply arrived: the value it returns, or
      the detail of the error it raises. */
  function RecoverQuestions(content: string, parse: string -> Option<Json>): (r: Result<Json, string>)
    ensures r.Failure? ==> r.error == ParseFailure(content)
  {
    match parse(content)
    case Some(v) => Success(if v.Obj? then Arr([v]) else v)
    case None =>
      var arr := BracketSlice(content, '[', ']');
      if arr.Some? && parse(arr.value).Some? then Success(parse(arr.value).value)
      else
        var obj := BracketSlice(content, '{', '}');
        if obj.Some? && parse(obj.value).Some? then Success(Arr([parse(obj.value).value]))
        else Failure(ParseFailure(content))
  }

  const UnexpectedPrefix: string := "Unexpected error during JSON parsing: "

  /** Python's name for the type of a decoded JSON value. A number is named
      `int` when it is whole and `float` otherwise. */
  function PyTypeName(v: Json): string {
    match v
    case Null => "NoneType"
    case Bool(_) => "bool"
    case Num(n) => if n.Floor as real == n then "int" else "float"
    case Str(_) => "str"
    case Arr(_) => "list"
    case Obj(_) => "dict"
  }

  /** The `TypeError` text `json.loads` raises for an argument that is not a
      string. */
  function NotAStringError(v: Json): string {
    "the JSON object must be str, bytes or bytearray, not " + PyTypeName(v)
  }

  /** `generate_questions` from the reply's `message.content` on. A string
      goes through the recovery chain. Any other value (a `null` content,
      say) makes the first `json.loads` raise `TypeError`, which is not a
      `JSONDecodeError`, so the generic handler answers with its own
      detail and no fallback is tried. */
  function RecoverContent(content: Json, parse: string -> Option<Json>): (r: Result<Json, string>)
    ensures content.Str? ==> r == RecoverQuestions(content.s, parse)
    ensures !content.Str? ==> r.Failure? && r.error == UnexpectedPrefix + NotAStringError(content)
  {
    if content.Str? then RecoverQuestions(content.s, parse)
    else Failure(UnexpectedPrefix + NotAStringError(content))
  }

  /** The two failure details never mix: a string content that nothing
      recovers is quoted after the parse-failure prefix, and only a content
      that is not a string gets the unexpected-error prefix. */
  lemma FailureDetails(content: Json, parse: string -> Option<Json>)
    requires RecoverContent(content, parse).Failure?
    ensures var e := RecoverContent(content, parse).error;
            (content.Str? <==> |e| >= |ParseFailurePrefix| && e[..|ParseFailurePrefix|] == ParseFailurePrefix)
            && (!content.Str? <==> |e| >= |UnexpectedPrefix| && e[..|UnexpectedPrefix|] == UnexpectedPrefix)
  {
    var e := RecoverContent(content, parse).error;
    if content.Str? {
      PrefixSuffix(ParseFailurePrefix, Take(content.s, 200));
      assert ParseFailurePrefix[0] != UnexpectedPrefix[0];
      assert |e| >= |UnexpectedPrefix| ==> e[..|UnexpectedPrefix|][0] == e[0] == ParseFailurePrefix[0];
    } else {
      PrefixSuffix(UnexpectedPrefix, NotAStringError(content));
      assert |e| >= |ParseFailurePrefix| ==> e[..|ParseFailurePrefix|][0] == e[0] == UnexpectedPrefix[0];
    }
  }

  /** How a recovered value is shaped into the returned list. */
  datatype Shaping = WrapObject | AsIs | WrapAlways

  function Shape(how: Shaping, v: Json): Json {
    match how
    case WrapObject => if v.Obj? then Arr([v]) else v
    case AsIs => v
    case WrapAlways => Arr([v])
  }

  /** The recovery chain as an ordered list of attempts. */
  function Attempts(content: string): seq<(Option<string>, Shaping)> {
    [(Some(content), WrapObject),
     (BracketSlice(content, '[', ']'), AsIs),
     (BracketSlice(content, '{', '}'), WrapAlways)]
  }

  /** The first attempt whose candidate exists and parses wins. */
  function FirstSuccess(attempts: seq<(Option<string>, Shaping)>, parse: string -> Option<Json>): Option<Json> {
    if |attempts| == 0 then None
    else
      var (cand, how) := attempts[0];
      if cand.Some? && parse(cand.value).Some? then Some(Shape(how, parse(cand.value).value))
      else FirstSuccess(attempts[1..], parse)
  }

  /** The nested handlers behave as "first attempt that parses wins". */
  lemma RecoverIsFirstSuccess(content: string, parse: string -> Option<Json>)
    ensures RecoverQuestions(content, parse)
            == match FirstSuccess(Attempts(content), parse)
               case Some(v) => Success(v)
               case None => Failure(ParseFailure(content))
  {
    var xs := Attempts(content);
    assert xs[1..][1..][1..] == [];
    assert FirstSuccess(xs[1..][1..], parse) == FirstSuccess([xs[2]], parse);
  }

  /** A reply that parses as an object becomes a one-element list; one that
      parses as a list comes back unchanged. */
  lemma DirectParse(content: string, parse: string -> Option<Json>)
    requires parse(content).Some?
    ensures parse(content).value.Obj? ==> RecoverQuestions(content, parse) == Success(Arr([parse(content).value]))
    ensures parse(content).value.Arr? ==> RecoverQuestions(content, parse) == Success(parse(content).value)
  {
  }

  /** Recovery fails exactly when the whole text, the `[...]` span and the
      `{...}` span all fail to parse or do not exist. */
  lemma FailsIffNothingParses(content: string, parse: string -> Option<Json>)
    ensures RecoverQuestions(content, parse).Failure? <==>
              parse(content).None?
              && (BracketSlice(content, '[', ']').None? || parse(BracketSlice(content, '[', ']').value).None?)
              && (BracketSlice(content, '{', '}').None? || parse(BracketSlice(content, '{', '}').value).None?)
  {
  }

  /** A JSON list surrounded by prose is recovered: when the prose before it
      has no `[` and the prose after it has no `]`, the `[...]` span is
      exactly the list text. */
  lemma ListInProse(pre: string, body: string, post: string, parse: string -> Option<Json>)
    requires forall i :: 0 <= i < |pre| ==> pre[i] != '['
    requires forall i :: 0 <= i < |post| ==> post[i] != ']'
    requires |body| >= 2 && body[0] == '[' && body[|body| - 1] == ']'
    requires parse(pre + body + post).None?
    requires parse(body).Some?
    ensures RecoverQuestions(pre + body + post, parse) == Success(parse(body).value)
  {
    var s := pre + body + post;
    var p, q := |pre|, |pre| + |body|;
    assert Matches(s, '[', ']', p, q);
    forall i | 0 <= i < p ensures s[i] != '[' {
      assert s[i] == pre[i];
    }
    forall i | q <= i < |s| ensures s[i] != ']' {
      assert s[i] == post[i - q];
    }
    assert SearchSpan(s, '[', ']') == Some((p, q));
    assert s[p..q] == body;
  }

  /** The error detail quotes no more than 200 characters of the reply, and
      quotes it from its start. */
  lemma FailureQuotesPrefix(content: string, parse: string -> Option<Json>)
    requires RecoverQuestions(content, parse).Failure?
    ensures var e := RecoverQuestions(content, parse).error;
            |ParseFailurePrefix| <= |e| <= |ParseFailurePrefix| + 200
            && e[..|ParseFailurePrefix|] == ParseFailurePrefix
            && e[|ParseFailurePrefix|..] <= content
  {
    PrefixSuffix(ParseFailurePrefix, Take(content, 200));
  }
}
