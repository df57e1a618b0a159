/** Command-line targets of human review: how a key is shown, parsed back, and admitted. */
module ReviewSelector {
  import opened Wrappers
  import opened Texts

  datatype Key = Key(trace: string, reference: Option<string>, dimension: string)

  datatype Value = Score(score: int) | Winner(winner: string)

  datatype Error =
    | MalformedTarget | Ambiguous | UnknownTarget
    | DuplicateLabel | UnknownAxis | BadWinner | NotAnInteger | OutOfRange | BadLabel | Conflict | DuplicateLabelAgain
    | EmptyJudgment | DuplicateJudgment | Unexpected | JudgmentWithoutLabel

  datatype Result<+T> = Ok(value: T) | Err(error: Error) {
    predicate IsFailure() { Err? }
    function PropagateFailure<U>(): Result<U>
      requires Err?
    {
      Err(error)
    }
    function Extract(): T
      requires Ok?
    {
      value
    }
  }

  /** The response shape, each axis with its inclusive range, and the codecs the parser calls. */
  datatype Rules = Rules(pairwise: bool, axes: map<string, (int, int)>, artifactId: string -> bool, integer: string -> Option<int>,
                         decode: string -> Option<(Option<seq<string>>, string)>)

  /** Colon-separated target text. */
  function Display(key: Key): string {
    key.trace + (if key.reference.Some? then ":" + key.reference.value else "") + ":" + key.dimension
  }

  predicate Bracketed(text: string) { LeftStripped(text) != [] && LeftStripped(text)[0] == '[' }

  predicate Claims(text: string, key: Key) { Display(key) + "=" <= text }

  function Claiming(text: string): Key -> bool { key => Claims(text, key) }

  /** A JSON array target before an equals sign. */
  function JsonTarget(rules: Rules, stripped: string): Result<(Key, string)> {
    var decoded := rules.decode(stripped);
    if decoded.None? then Err(MalformedTarget) else
    var (parts, rest) := decoded.value;
    if || parts.None? || |parts.value| != (if rules.pairwise then 3 else 2) || "" in parts.value
       || rest == [] || rest[0] != '='
    then Err(MalformedTarget)
    else Ok((if rules.pairwise then Key(parts.value[0], Some(parts.value[1]), parts.value[2]) else Key(parts.value[0], None, parts.value[1]),
             rest[1..]))
  }

  /** A target and the unmodified body behind it. */
  function Parts(rules: Rules, expected: seq<Key>, value: string): Result<(Key, string)> {
    if Bracketed(value) then JsonTarget(rules, LeftStripped(value)) else
    var matches := Filter(Claiming(value), expected);
    if |matches| == 1 then
      assert matches[0] in matches;
      Ok((matches[0], value[|Display(matches[0])| + 1..]))
    else Err(if |matches| > 1 then Ambiguous else UnknownTarget)
  }

  /** The parts of a key, in the order they are written. */
  function Written(key: Key): seq<string> {
    [key.trace] + (if key.reference.Some? then [key.reference.value] else []) + [key.dimension]
  }

  /** An array target is accepted exactly when it decodes to the nonempty parts of a key of the command's shape, in order, and an equals sign
      follows; the body is all that comes behind. */
  lemma JsonTargetMeans(rules: Rules, text: string, key: Key, body: string)
    ensures var r := JsonTarget(rules, text);
            && (r == Ok((key, body))
                <==> rules.decode(text) == Some((Some(Written(key)), "=" + body)) && "" !in Written(key) && (key.reference.Some? <==> rules.pairwise))
            && (r.Err? ==> r.error == MalformedTarget)
  {
    var r := JsonTarget(rules, text);
    if r.Ok? {
      var parts := rules.decode(text).value.0.value;
      assert Written(r.value.0) == parts && rules.decode(text).value.1 == "=" + r.value.1;
    }
    if rules.decode(text) == Some((Some(Written(key)), "=" + body)) { assert ("=" + body)[1..] == body; }
  }

  // ----- Shown and parsed back -----

  lemma {:induction false} StrippedOfPrefix(a: string, b: string)
    requires LeftStripped(a) != []
    ensures LeftStripped(a + b) == LeftStripped(a) + b
  {
    if a != [] && White(a[0]) {
      assert (a + b)[1..] == a[1..] + b;
      StrippedOfPrefix(a[1..], b);
    }
  }

  lemma {:induction false} StrippedKeeps(text: string, k: nat)
    requires k < |text| && !White(text[k])
    ensures LeftStripped(text) != []
  {
    if White(text[0]) { StrippedKeeps(text[1..], k - 1); }
  }

  lemma DisplayHasColon(key: Key)
    ensures exists k :: 0 <= k < |Display(key)| && Display(key)[k] == ':'
  {
    var k := |Display(key)| - |key.dimension| - 1;
    assert Display(key)[k] == ':';
  }

  lemma BracketedByDisplay(key: Key, rest: string)
    ensures Bracketed(Display(key) + rest) <==> Bracketed(Display(key))
  {
    DisplayHasColon(key);
    var k :| 0 <= k < |Display(key)| && Display(key)[k] == ':';
    StrippedKeeps(Display(key), k);
    StrippedOfPrefix(Display(key), rest);
  }

  /** Two entries of the frozen list both fit the text. */
  ghost predicate TwoClaim(expected: seq<Key>, text: string) {
    exists i, j :: 0 <= i < j < |expected| && Claims(text, expected[i]) && Claims(text, expected[j])
  }

  lemma TwoMatches(expected: seq<Key>, text: string)
    ensures |Filter(Claiming(text), expected)| > 1 <==> TwoClaim(expected, text)
  {
    hide Claims;
    FilterKeepsTwo(Claiming(text), expected);
  }

  /** What is shown for a frozen key parses to exactly that key and body, or is reported ambiguous; ambiguous exactly when two entries fit. */
  lemma DisplayParsesBack(rules: Rules, expected: seq<Key>, key: Key, body: string)
    requires key in expected && !Bracketed(Display(key))
    ensures var text := Display(key) + "=" + body;
            Parts(rules, expected, text) == if TwoClaim(expected, text) then Err(Ambiguous) else Ok((key, body))
  {
    hide Display, White, LeftStripped, Bracketed;
    var text := Display(key) + "=" + body;
    assert text == Display(key) + ("=" + body);
    BracketedByDisplay(key, "=" + body);
    var matches := Filter(Claiming(text), expected);
    TwoMatches(expected, text);
    assert Claiming(text)(key) && key in matches;
    hide Claims, Claiming, TwoClaim;
    if |matches| == 1 {
      assert matches[0] == key;
      assert text[|Display(key)| + 1..] == body;
    }
  }

  /** A text without a bracket names a frozen key exactly as that key, shown, an equals sign and the body, when no second entry fits too;
      any other is ambiguous if two fit, and otherwise unknown. */
  lemma PartsMeans(rules: Rules, expected: seq<Key>, text: string, key: Key, body: string)
    requires !Bracketed(text)
    ensures var r := Parts(rules, expected, text);
            && (r == Ok((key, body)) <==> key in expected && text == Display(key) + "=" + body && !TwoClaim(expected, text))
            && (r.Err? ==> r.error == if TwoClaim(expected, text) then Ambiguous else UnknownTarget)
  {
    hide White, LeftStripped, Bracketed;
    var matches := Filter(Claiming(text), expected);
    TwoMatches(expected, text);
    if key in expected && text == Display(key) + "=" + body {
      assert Claiming(text)(key) && key in matches;
    }
    hide Display, TwoClaim;
    if |matches| == 1 {
      var found := matches[0];
      assert found in matches && Claiming(text)(found);
      assert text == Display(found) + "=" + text[|Display(found)| + 1..];
      assert text == Display(key) + "=" + body && key == found ==> text[|Display(key)| + 1..] == body;
    }
  }

  /** What is decoded behind an opening bracket is an array up to its closing bracket; the rest is left over. */
  ghost predicate DecodesArrays(rules: Rules) {
    forall text :: text != [] && text[0] == '[' && rules.decode(text).Some? ==>
      exists taken: string :: taken != [] && taken[|taken| - 1] == ']' && text == taken + rules.decode(text).value.1
  }

  /** The letters of an artifact ID, which every dimension is. */
  predicate ArtifactLetters(text: string) {
    text != [] && forall k :: 0 <= k < |text| ==> 'a' <= text[k] <= 'z' || Digit(text[k]) || text[k] in {'.', '_', '-'}
  }

  lemma {:induction false} StrippedKeepsLast(text: string)
    requires LeftStripped(text) != []
    ensures text != [] && LeftStripped(text)[|LeftStripped(text)| - 1] == text[|text| - 1]
  {
    if White(text[0]) { StrippedKeepsLast(text[1..]); }
  }

  lemma TargetLeavesBody(rules: Rules, text: string)
    ensures var r := JsonTarget(rules, text);
            r != Err(Ambiguous) && (r.Ok? ==> rules.decode(text).Some? && rules.decode(text).value.1 == "=" + r.value.1)
  {
  }

  lemma SameTail(a: string, b: string, tail: string)
    requires a + tail == b + tail
    ensures a == b
  {
    assert |a| == |b|;
    assert a == (a + tail)[..|a|] && b == (b + tail)[..|b|];
  }

  /** A target decoded before this body would be the shown text itself, and so end in a bracket. */
  lemma BracketedIsNotItself(rules: Rules, shown: string, key: Key, body: string)
    requires DecodesArrays(rules) && shown != [] && shown[0] == '[' && shown[|shown| - 1] != ']'
    ensures var r := JsonTarget(rules, shown + ("=" + body));
            r != Ok((key, body)) && r != Err(Ambiguous)
  {
    hide JsonTarget;
    var text := shown + ("=" + body);
    TargetLeavesBody(rules, text);
    if rules.decode(text).Some? {
      var taken: string :| taken != [] && taken[|taken| - 1] == ']' && text == taken + rules.decode(text).value.1;
      if rules.decode(text).value.1 == "=" + body { SameTail(taken, shown, "=" + body); }
    }
  }

  lemma DisplayEnds(key: Key)
    requires ArtifactLetters(key.dimension)
    ensures Display(key) != []
    ensures Display(key)[|Display(key)| - 1] == key.dimension[|key.dimension| - 1] != ']'
  {
  }

  /** What is shown for a frozen key never parses as another key, and parses back or is ambiguous, exactly when it does not begin with a bracket. */
  lemma ParsesBackUnlessBracketed(rules: Rules, expected: seq<Key>, key: Key, body: string)
    requires DecodesArrays(rules) && key in expected && ArtifactLetters(key.dimension)
    ensures Parts(rules, expected, Display(key) + "=" + body) in {Ok((key, body)), Err(Ambiguous)} <==> !Bracketed(Display(key))
  {
    var text := Display(key) + "=" + body;
    assert text == Display(key) + ("=" + body);
    if Bracketed(Display(key)) {
      hide JsonTarget, Display, LeftStripped, DecodesArrays, ArtifactLetters, White, Claiming;
      DisplayEnds(key);
      StrippedKeepsLast(Display(key));
      BracketedByDisplay(key, "=" + body);
      StrippedOfPrefix(Display(key), "=" + body);
      BracketedIsNotItself(rules, LeftStripped(Display(key)), key, body);
    } else {
      DisplayParsesBack(rules, expected, key, body);
    }
  }

  /** No identifier contains a delimiter. */
  predicate Clean(text: string) { ':' !in text && '=' !in text }

  predicate CleanKey(key: Key) { Clean(key.trace) && Clean(key.dimension) && (key.reference.Some? ==> Clean(key.reference.value)) }

  lemma FirstAt(a: string, b: string, delimiter: char)
    requires delimiter !in a
    ensures var text := a + [delimiter] + b;
            text[|a|] == delimiter && forall k :: 0 <= k < |a| ==> text[k] != delimiter
  {
    assert forall k :: 0 <= k < |a| ==> a[k] in a;
  }

  lemma FirstDelimiter(a: string, b: string, c: string, d: string, delimiter: char)
    requires delimiter !in a && delimiter !in c && a + [delimiter] + b == c + [delimiter] + d
    ensures a == c && b == d
  {
    var left, right := a + [delimiter] + b, c + [delimiter] + d;
    FirstAt(a, b, delimiter);
    FirstAt(c, d, delimiter);
    assert a == left[..|a|] && c == right[..|c|];
    assert b == left[|a| + 1..] && d == right[|c| + 1..];
  }

  lemma DisplayIsInjective(left: Key, right: Key)
    requires CleanKey(left) && CleanKey(right) && (left.reference.Some? <==> right.reference.Some?) && Display(left) == Display(right)
    ensures left == right
  {
    if left.reference.None? {
      assert left.trace + [':'] + left.dimension == Display(left) && right.trace + [':'] + right.dimension == Display(right);
      FirstDelimiter(left.trace, left.dimension, right.trace, right.dimension, ':');
    } else {
      var (a, b) := (left.reference.value + [':'] + left.dimension, right.reference.value + [':'] + right.dimension);
      assert left.trace + [':'] + a == Display(left) && right.trace + [':'] + b == Display(right);
      FirstDelimiter(left.trace, a, right.trace, b, ':');
      FirstDelimiter(left.reference.value, left.dimension, right.reference.value, right.dimension, ':');
    }
  }

  /** Over distinct keys of one shape whose identifiers hold no delimiter, every shown key parses back. */
  lemma CleanKeysParseBack(rules: Rules, expected: seq<Key>, key: Key, body: string)
    requires key in expected && !Bracketed(Display(key)) && Distinct(expected)
    requires forall k :: k in expected ==> CleanKey(k) && (k.reference.Some? <==> rules.pairwise)
    ensures Parts(rules, expected, Display(key) + "=" + body) == Ok((key, body))
  {
    var text := Display(key) + "=" + body;
    DisplayParsesBack(rules, expected, key, body);
    forall k | k in expected && Claims(text, k) ensures k == key { OnlyClaim(k, key, body); }
    assert forall i :: 0 <= i < |expected| && Claims(text, expected[i]) ==> expected[i] == key;
  }

  lemma OnlyClaim(other: Key, key: Key, body: string)
    requires CleanKey(other) && CleanKey(key) && (other.reference.Some? <==> key.reference.Some?)
    requires Claims(Display(key) + "=" + body, other)
    ensures other == key
  {
    var text := Display(key) + "=" + body;
    var rest := text[|Display(other)| + 1..];
    assert Display(other) + ['='] + rest == text && Display(key) + ['='] + body == text;
    FirstDelimiter(Display(other), rest, Display(key), body, '=');
    DisplayIsInjective(other, key);
  }

  /** A shown key that begins with a bracket can parse as a different key. */
  lemma BracketedKeyParsesAsAnother(rules: Rules, body: string)
    requires !rules.pairwise
    requires rules.decode("[\"a\", \"b\"]=x:d=" + body) == Some((Some(["a", "b"]), "=x:d=" + body))
    ensures var key := Key("[\"a\", \"b\"]=x", None, "d");
            Parts(rules, [key], Display(key) + "=" + body) == Ok((Key("a", None, "b"), "x:d=" + body))
  {
    var key := Key("[\"a\", \"b\"]=x", None, "d");
    var text := Display(key) + "=" + body;
    assert Display(key) == "[\"a\", \"b\"]=x:d";
    assert text == "[\"a\", \"b\"]=x:d=" + body;
    assert text[0] == '[';
    assert LeftStripped(text) == text;
    assert ("=x:d=" + body)[1..] == "x:d=" + body;
  }

  // ----- Admission -----

  type Labels = map<Key, Value>

  predicate InRange(rules: Rules, key: Key, value: Value) {
    value.Score? ==> key.dimension in rules.axes && rules.axes[key.dimension].0 <= value.score <= rules.axes[key.dimension].1
  }

  /** One score in the axis range, or one typed preference. */
  function LabelValue(rules: Rules, key: Key, raw: string): Result<Value> {
    if rules.pairwise then
      if raw in {"winner_a", "winner_b", "tie"} then Ok(Winner(raw)) else Err(BadWinner)
    else if key.dimension !in rules.axes then Err(UnknownAxis)
    else
      var score := rules.integer(raw);
      if score.None? then Err(NotAnInteger)
      else if InRange(rules, key, Score(score.value)) then Ok(Score(score.value)) else Err(OutOfRange)
  }

  /** A label is accepted exactly as one of the three preferences, or as an integer in its axis's range; any other has its own error. */
  lemma LabelValueMeans(rules: Rules, key: Key, raw: string, value: Value)
    ensures LabelValue(rules, key, raw) == Ok(value)
            <==> match value
                 case Winner(winner) => rules.pairwise && winner == raw && (raw == "winner_a" || raw == "winner_b" || raw == "tie")
                 case Score(score) =>
                   && !rules.pairwise && rules.integer(raw) == Some(score) && key.dimension in rules.axes
                   && var (low, high) := rules.axes[key.dimension]; low <= score && score <= high
    ensures LabelValue(rules, key, raw).Err? ==>
              LabelValue(rules, key, raw).error ==
              if rules.pairwise then BadWinner
              else if key.dimension !in rules.axes then UnknownAxis
              else if rules.integer(raw).None? then NotAnInteger
              else OutOfRange
  {
  }

  predicate ValidLabel(rules: Rules, key: Key) {
    && 1 <= |key.trace| <= 512 && rules.artifactId(key.dimension)
    && (key.reference.Some? ==> 1 <= |key.reference.value| <= 512 && key.reference.value != key.trace)
    && (rules.pairwise ==> key.reference.Some?)
  }

  /** One supplied label, judged by itself. */
  function ParseLabel(rules: Rules, expected: seq<Key>, value: string): Result<(Key, Value)> {
    var (key, body) :- Parts(rules, expected, value);
    var parsed :- LabelValue(rules, key, body);
    if ValidLabel(rules, key) then Ok((key, parsed)) else Err(BadLabel)
  }

  /** One turn of the label loop, in the order its checks are made. */
  function LabelStep(rules: Rules, expected: seq<Key>, drafted: set<Key>, labels: Labels, supplied: set<Key>, value: string)
    : Result<(Labels, set<Key>)>
  {
    var (key, body) :- Parts(rules, expected, value);
    if key in supplied then Err(DuplicateLabel) else
    var parsed :- LabelValue(rules, key, body);
    if !ValidLabel(rules, key) then Err(BadLabel)
    else if key in labels && labels[key] != parsed then Err(Conflict)
    else if key in labels && key !in drafted then Err(DuplicateLabelAgain)
    else Ok((labels[key := parsed], supplied + {key}))
  }

  function LabelLoop(rules: Rules, expected: seq<Key>, drafted: set<Key>, labels: Labels, supplied: set<Key>, values: seq<string>)
    : Result<(Labels, set<Key>)>
    decreases |values|
  {
    if values == [] then Ok((labels, supplied)) else
    var (next, seen) :- LabelStep(rules, expected, drafted, labels, supplied, values[0]);
    LabelLoop(rules, expected, drafted, next, seen, values[1..])
  }

  function Stripped(text: string): string { RightStripped(LeftStripped(text)) }

  function JudgmentStep(rules: Rules, expected: seq<Key>, judgments: map<Key, string>, value: string): Result<map<Key, string>> {
    var (key, body) :- Parts(rules, expected, value);
    if Stripped(body) == [] then Err(EmptyJudgment)
    else if key in judgments then Err(DuplicateJudgment)
    else Ok(judgments[key := Stripped(body)])
  }

  function JudgmentLoop(rules: Rules, expected: seq<Key>, judgments: map<Key, string>, values: seq<string>): Result<map<Key, string>>
    decreases |values|
  {
    if values == [] then Ok(judgments) else
    var next :- JudgmentStep(rules, expected, judgments, values[0]);
    JudgmentLoop(rules, expected, next, values[1..])
  }

  datatype Inputs = Inputs(labels: Labels, judgments: map<Key, string>)

  /** The saved labels, then the supplied labels, then the judgments, then the frozen set. */
  function Admit(rules: Rules, expected: seq<Key>, saved: Labels, labels: seq<string>, judgments: seq<string>): Result<Inputs> {
    if exists key | key in saved :: !InRange(rules, key, saved[key]) then Err(OutOfRange) else
    var (all, _) :- LabelLoop(rules, expected, saved.Keys, saved, {}, labels);
    var texts :- JudgmentLoop(rules, expected, map[], judgments);
    if exists key | key in all.Keys + texts.Keys :: key !in expected then Err(Unexpected)
    else if !(texts.Keys <= all.Keys) then Err(JudgmentWithoutLabel)
    else Ok(Inputs(all, texts))
  }

  /** Some supplied label is for this key. */
  ghost predicate Named(rules: Rules, expected: seq<Key>, values: seq<string>, key: Key) {
    exists i :: 0 <= i < |values| && ParseLabel(rules, expected, values[i]).Ok? && ParseLabel(rules, expected, values[i]).value.0 == key
  }

  ghost predicate Fits(rules: Rules, expected: seq<Key>, labels: Labels, supplied: set<Key>, value: string) {
    var parsed := ParseLabel(rules, expected, value);
    parsed.Ok? && parsed.value.0 !in supplied && (parsed.value.0 in labels ==> labels[parsed.value.0] == parsed.value.1)
  }

  /** Every supplied label parses, they name distinct keys, and none disagrees with a saved label. */
  ghost predicate Consistent(rules: Rules, expected: seq<Key>, labels: Labels, supplied: set<Key>, values: seq<string>) {
    && (forall i :: 0 <= i < |values| ==> Fits(rules, expected, labels, supplied, values[i]))
    && forall i, j :: 0 <= i < j < |values| ==>
         ParseLabel(rules, expected, values[i]).value.0 != ParseLabel(rules, expected, values[j]).value.0
  }

  /** Between turns the labels are the saved ones and the supplied ones. */
  ghost predicate Merged(drafted: set<Key>, labels: Labels, supplied: set<Key>) { labels.Keys == drafted + supplied }

  /** A turn accepts exactly a fitting label, and its second duplicate check never fires. */
  lemma StepAccepts(rules: Rules, expected: seq<Key>, drafted: set<Key>, labels: Labels, supplied: set<Key>, value: string)
    requires Merged(drafted, labels, supplied)
    ensures var step := LabelStep(rules, expected, drafted, labels, supplied, value);
            var parsed := ParseLabel(rules, expected, value);
            && step != Err(DuplicateLabelAgain)
            && (step.Ok? <==> Fits(rules, expected, labels, supplied, value))
            && (step.Ok? ==> step.value == (labels[parsed.value.0 := parsed.value.1], supplied + {parsed.value.0})
                             && Merged(drafted, step.value.0, step.value.1))
  {
    PartsIsNotDuplicate(rules, expected, value);
    hide Parts, LabelValue, ValidLabel;
    var parts := Parts(rules, expected, value);
    if parts.Ok? {
      var (key, body) := parts.value;
      var parsed := LabelValue(rules, key, body);
      ValueIsNotDuplicate(rules, key, body);
      if parsed.Err? { assert ParseLabel(rules, expected, value) == Err(parsed.error); }
    }
  }

  lemma PartsIsNotDuplicate(rules: Rules, expected: seq<Key>, value: string)
    ensures Parts(rules, expected, value) != Err(DuplicateLabelAgain)
  {
    hide LeftStripped, Display, Claims, Claiming, White, Bracketed;
  }

  lemma ValueIsNotDuplicate(rules: Rules, key: Key, raw: string)
    ensures LabelValue(rules, key, raw) != Err(DuplicateLabelAgain)
  {
    hide InRange;
  }

  lemma ConsistentTail(rules: Rules, expected: seq<Key>, labels: Labels, supplied: set<Key>, values: seq<string>)
    requires values != [] && Fits(rules, expected, labels, supplied, values[0])
    ensures var (key, value) := ParseLabel(rules, expected, values[0]).value;
            Consistent(rules, expected, labels, supplied, values)
            <==> Consistent(rules, expected, labels[key := value], supplied + {key}, values[1..])
  {
    hide ParseLabel;
    var (key, value) := ParseLabel(rules, expected, values[0]).value;
    var rest := values[1..];
    if Consistent(rules, expected, labels[key := value], supplied + {key}, rest) {
      forall i | 0 <= i < |values| ensures Fits(rules, expected, labels, supplied, values[i]) {
        if i > 0 { assert Fits(rules, expected, labels[key := value], supplied + {key}, rest[i - 1]); }
      }
      forall i, j | 0 <= i < j < |values|
        ensures ParseLabel(rules, expected, values[i]).value.0 != ParseLabel(rules, expected, values[j]).value.0
      {
        assert Fits(rules, expected, labels[key := value], supplied + {key}, rest[j - 1]);
        if i > 0 { assert values[i] == rest[i - 1] && values[j] == rest[j - 1]; }
      }
    }
    if Consistent(rules, expected, labels, supplied, values) {
      forall i | 0 <= i < |rest| ensures Fits(rules, expected, labels[key := value], supplied + {key}, rest[i]) {
        assert Fits(rules, expected, labels, supplied, values[i + 1]) && rest[i] == values[i + 1];
      }
      forall i, j | 0 <= i < j < |rest|
        ensures ParseLabel(rules, expected, rest[i]).value.0 != ParseLabel(rules, expected, rest[j]).value.0
      {
        assert rest[i] == values[i + 1] && rest[j] == values[j + 1];
      }
    }
  }

  /** What the loop leaves: the labels it began with, and each supplied label under its own key. */
  ghost predicate Holds(rules: Rules, expected: seq<Key>, labels: Labels, supplied: set<Key>, values: seq<string>, r: (Labels, set<Key>)) {
    && (forall key :: key in labels ==> key in r.0 && r.0[key] == labels[key])
    && (forall key :: key in r.1 <==> key in supplied || Named(rules, expected, values, key))
    && forall i :: 0 <= i < |values| ==>
         var parsed := ParseLabel(rules, expected, values[i]);
         parsed.Ok? && parsed.value.0 in r.0 && r.0[parsed.value.0] == parsed.value.1
  }

  lemma HoldsMore(rules: Rules, expected: seq<Key>, labels: Labels, supplied: set<Key>, values: seq<string>, r: (Labels, set<Key>))
    requires values != [] && Fits(rules, expected, labels, supplied, values[0])
    requires var (key, value) := ParseLabel(rules, expected, values[0]).value;
             Holds(rules, expected, labels[key := value], supplied + {key}, values[1..], r)
    ensures Holds(rules, expected, labels, supplied, values, r)
  {
    hide ParseLabel;
    var (first, value) := ParseLabel(rules, expected, values[0]).value;
    forall i | 0 <= i < |values|
      ensures var parsed := ParseLabel(rules, expected, values[i]);
              parsed.Ok? && parsed.value.0 in r.0 && r.0[parsed.value.0] == parsed.value.1
    {
      if i == 0 {
        assert first in labels[first := value] && labels[first := value][first] == value;
      } else {
        assert values[i] == values[1..][i - 1];
      }
    }
    forall key ensures key in r.1 <==> key in supplied || Named(rules, expected, values, key) {
      if Named(rules, expected, values[1..], key) {
        var i :| 0 <= i < |values[1..]| && ParseLabel(rules, expected, values[1..][i]).Ok? && ParseLabel(rules, expected, values[1..][i]).value.0 == key;
        assert values[1..][i] == values[i + 1];
      }
      if Named(rules, expected, values, key) && key != first {
        var i :| 0 <= i < |values| && ParseLabel(rules, expected, values[i]).Ok? && ParseLabel(rules, expected, values[i]).value.0 == key;
        assert values[1..][i - 1] == values[i];
      }
      assert Named(rules, expected, values, first);
    }
    forall key | key in labels ensures key in r.0 && r.0[key] == labels[key] {
      assert key in labels[first := value] && labels[first := value][key] == labels[key];
    }
  }

  /** The loop accepts exactly the consistent labels, holds every one of them afterwards, and never takes its second duplicate branch. */
  lemma {:induction false} LoopAccepts(rules: Rules, expected: seq<Key>, drafted: set<Key>, labels: Labels, supplied: set<Key>, values: seq<string>)
    requires Merged(drafted, labels, supplied)
    ensures var r := LabelLoop(rules, expected, drafted, labels, supplied, values);
            && r != Err(DuplicateLabelAgain)
            && (r.Ok? <==> Consistent(rules, expected, labels, supplied, values))
            && (r.Ok? ==> Merged(drafted, r.value.0, r.value.1) && Holds(rules, expected, labels, supplied, values, r.value))
    decreases |values|
  {
    hide LabelStep, ParseLabel;
    if values != [] {
      var step := LabelStep(rules, expected, drafted, labels, supplied, values[0]);
      StepAccepts(rules, expected, drafted, labels, supplied, values[0]);
      if step.Ok? {
        LoopAccepts(rules, expected, drafted, step.value.0, step.value.1, values[1..]);
        ConsistentTail(rules, expected, labels, supplied, values);
        var r := LabelLoop(rules, expected, drafted, labels, supplied, values);
        hide Merged, Consistent, Holds;
        if r.Ok? { HoldsMore(rules, expected, labels, supplied, values, r.value); }
      }
    }
  }

  /** Why the loop refuses a label, behind earlier ones that it accepted. */
  ghost predicate LabelFault(rules: Rules, expected: seq<Key>, labels: Labels, supplied: set<Key>, earlier: seq<string>, value: string, error: Error) {
    match Parts(rules, expected, value)
    case Err(e) => error == e
    case Ok((key, body)) =>
      if key in supplied || Named(rules, expected, earlier, key) then error == DuplicateLabel
      else match LabelValue(rules, key, body)
           case Err(e) => error == e
           case Ok(parsed) => if !ValidLabel(rules, key) then error == BadLabel else error == Conflict && key in labels && labels[key] != parsed
  }

  lemma StepFault(rules: Rules, expected: seq<Key>, drafted: set<Key>, labels: Labels, supplied: set<Key>, value: string)
    requires Merged(drafted, labels, supplied) && LabelStep(rules, expected, drafted, labels, supplied, value).Err?
    ensures LabelFault(rules, expected, labels, supplied, [], value, LabelStep(rules, expected, drafted, labels, supplied, value).error)
  {
    hide Parts, LabelValue, ValidLabel;
  }

  lemma FaultBehind(rules: Rules, expected: seq<Key>, labels: Labels, supplied: set<Key>, first: string, earlier: seq<string>, value: string, error: Error)
    requires Fits(rules, expected, labels, supplied, first)
    requires var (key, parsed) := ParseLabel(rules, expected, first).value;
             LabelFault(rules, expected, labels[key := parsed], supplied + {key}, earlier, value, error)
    ensures LabelFault(rules, expected, labels, supplied, [first] + earlier, value, error)
  {
    hide Parts, LabelValue, ValidLabel;
    var (key, parsed) := ParseLabel(rules, expected, first).value;
    var all := [first] + earlier;
    hide ParseLabel;
    assert all[0] == first && Named(rules, expected, all, key);
    forall k | Named(rules, expected, earlier, k) ensures Named(rules, expected, all, k) {
      var i :| 0 <= i < |earlier| && ParseLabel(rules, expected, earlier[i]).Ok? && ParseLabel(rules, expected, earlier[i]).value.0 == k;
      assert all[i + 1] == earlier[i];
    }
    forall k | Named(rules, expected, all, k) && k != key ensures Named(rules, expected, earlier, k) {
      var i :| 0 <= i < |all| && ParseLabel(rules, expected, all[i]).Ok? && ParseLabel(rules, expected, all[i]).value.0 == k;
      assert all[i] == earlier[i - 1];
    }
  }

  /** A refused loop names the first label at fault, and its fault. */
  lemma {:induction false} LoopFaults(rules: Rules, expected: seq<Key>, drafted: set<Key>, labels: Labels, supplied: set<Key>, values: seq<string>)
    returns (i: nat)
    requires Merged(drafted, labels, supplied) && LabelLoop(rules, expected, drafted, labels, supplied, values).Err?
    ensures i < |values| && Consistent(rules, expected, labels, supplied, values[..i])
    ensures LabelFault(rules, expected, labels, supplied, values[..i], values[i],
                       LabelLoop(rules, expected, drafted, labels, supplied, values).error)
    decreases |values|
  {
    hide LabelStep, ParseLabel, LabelFault;
    var step := LabelStep(rules, expected, drafted, labels, supplied, values[0]);
    StepAccepts(rules, expected, drafted, labels, supplied, values[0]);
    i := 0;
    if step.Err? {
      StepFault(rules, expected, drafted, labels, supplied, values[0]);
      assert values[..0] == [];
    } else {
      var k := LoopFaults(rules, expected, drafted, step.value.0, step.value.1, values[1..]);
      i := k + 1;
      assert values[..i] == [values[0]] + values[1..][..k] && values[..i][1..] == values[1..][..k];
      ConsistentTail(rules, expected, labels, supplied, values[..i]);
      hide Consistent, Fits;
      FaultBehind(rules, expected, labels, supplied, values[0], values[1..][..k], values[i],
                  LabelLoop(rules, expected, drafted, labels, supplied, values).error);
    }
  }

  ghost predicate AllWhite(text: string) { forall k :: 0 <= k < |text| ==> White(text[k]) }

  /** The text without the white space around it. */
  ghost predicate Trims(body: string, text: string) {
    && (exists left: string, right: string :: AllWhite(left) && AllWhite(right) && body == left + (text + right))
    && (text == "" || (!White(text[0]) && !White(text[|text| - 1])))
  }

  lemma StrippedTrims(body: string)
    ensures Trims(body, Stripped(body))
  {
    hide White, LeftStripped, RightStripped;
    var (inner, text) := (LeftStripped(body), Stripped(body));
    var (left, right) := (body[..|body| - |inner|], inner[|text|..]);
    if text != "" { StrippedEnds(body); }
    assert AllWhite(left);
    assert AllWhite(right) by {
      forall k | 0 <= k < |right| ensures White(right[k]) { assert right[k] == inner[|text| + k]; }
    }
    hide AllWhite, Stripped;
    assert inner == text + right && body == left + inner;
  }

  /** Every judgment parses to nonblank text, and they name distinct keys. */
  ghost predicate SoundJudgments(rules: Rules, expected: seq<Key>, taken: set<Key>, values: seq<string>) {
    && (forall i :: 0 <= i < |values| ==> SoundJudgment(rules, expected, taken, values[i]))
    && forall i, j :: 0 <= i < j < |values| ==> Parts(rules, expected, values[i]).value.0 != Parts(rules, expected, values[j]).value.0
  }

  ghost predicate SoundJudgment(rules: Rules, expected: seq<Key>, taken: set<Key>, value: string) {
    Parts(rules, expected, value).Ok? && Parts(rules, expected, value).value.0 !in taken && Stripped(Parts(rules, expected, value).value.1) != ""
  }

  /** Some judgment is for this key. */
  ghost predicate Judged(rules: Rules, expected: seq<Key>, values: seq<string>, key: Key) {
    exists i :: 0 <= i < |values| && Parts(rules, expected, values[i]).Ok? && Parts(rules, expected, values[i]).value.0 == key
  }

  /** The text of a judgment is held, trimmed, under its key. */
  ghost predicate JudgmentIn(rules: Rules, expected: seq<Key>, value: string, r: map<Key, string>) {
    var parts := Parts(rules, expected, value);
    parts.Ok? && parts.value.0 in r && r[parts.value.0] != "" && Trims(parts.value.1, r[parts.value.0])
  }

  /** What the judgment loop leaves. */
  ghost predicate HoldsJudgments(rules: Rules, expected: seq<Key>, judgments: map<Key, string>, values: seq<string>, r: map<Key, string>) {
    && (forall key :: key in judgments ==> key in r && r[key] == judgments[key])
    && (forall key :: key in r <==> key in judgments || Judged(rules, expected, values, key))
    && forall i :: 0 <= i < |values| ==> JudgmentIn(rules, expected, values[i], r)
  }

  lemma SoundTail(rules: Rules, expected: seq<Key>, taken: set<Key>, values: seq<string>)
    requires values != [] && SoundJudgment(rules, expected, taken, values[0])
    ensures var key := Parts(rules, expected, values[0]).value.0;
            SoundJudgments(rules, expected, taken, values) <==> SoundJudgments(rules, expected, taken + {key}, values[1..])
  {
    hide Parts, Stripped;
    var (key, rest) := (Parts(rules, expected, values[0]).value.0, values[1..]);
    assert forall i :: 0 <= i < |rest| ==> rest[i] == values[i + 1];
    if SoundJudgments(rules, expected, taken + {key}, rest) {
      forall i | 0 <= i < |values| ensures SoundJudgment(rules, expected, taken, values[i]) {
        if i > 0 { assert SoundJudgment(rules, expected, taken + {key}, rest[i - 1]); }
      }
      forall i, j | 0 <= i < j < |values| ensures Parts(rules, expected, values[i]).value.0 != Parts(rules, expected, values[j]).value.0 {
        assert SoundJudgment(rules, expected, taken + {key}, rest[j - 1]);
        if i > 0 { assert values[i] == rest[i - 1] && values[j] == rest[j - 1]; }
      }
    }
    if SoundJudgments(rules, expected, taken, values) {
      forall i | 0 <= i < |rest| ensures SoundJudgment(rules, expected, taken + {key}, rest[i]) {
        assert SoundJudgment(rules, expected, taken, values[i + 1]);
      }
    }
  }

  lemma JudgedTail(rules: Rules, expected: seq<Key>, values: seq<string>, key: Key)
    requires values != [] && Parts(rules, expected, values[0]).Ok?
    ensures Judged(rules, expected, values, key) <==> Parts(rules, expected, values[0]).value.0 == key || Judged(rules, expected, values[1..], key)
  {
    hide Parts;
    if i :| 0 <= i < |values[1..]| && Parts(rules, expected, values[1..][i]).Ok? && Parts(rules, expected, values[1..][i]).value.0 == key {
      assert values[1..][i] == values[i + 1];
    }
    if i :| 1 <= i < |values| && Parts(rules, expected, values[i]).Ok? && Parts(rules, expected, values[i]).value.0 == key {
      assert values[1..][i - 1] == values[i];
    }
  }

  lemma JudgedKeys(rules: Rules, expected: seq<Key>, taken: set<Key>, first: Key, values: seq<string>, keys: set<Key>)
    requires values != [] && Parts(rules, expected, values[0]).Ok? && Parts(rules, expected, values[0]).value.0 == first
    requires forall key :: key in keys <==> key in taken + {first} || Judged(rules, expected, values[1..], key)
    ensures forall key :: key in keys <==> key in taken || Judged(rules, expected, values, key)
  {
    forall key ensures key in keys <==> key in taken || Judged(rules, expected, values, key) {
      JudgedTail(rules, expected, values, key);
    }
  }

  lemma HoldsMoreJudgments(rules: Rules, expected: seq<Key>, judgments: map<Key, string>, first: Key, body: string, values: seq<string>,
                           r: map<Key, string>)
    requires values != [] && first !in judgments && Parts(rules, expected, values[0]) == Ok((first, body)) && Stripped(body) != ""
    requires HoldsJudgments(rules, expected, judgments[first := Stripped(body)], values[1..], r)
    ensures HoldsJudgments(rules, expected, judgments, values, r)
  {
    hide Parts, Stripped, Trims, Judged;
    StrippedTrims(body);
    var more := judgments[first := Stripped(body)];
    assert more.Keys == judgments.Keys + {first};
    JudgedKeys(rules, expected, judgments.Keys, first, values, r.Keys);
    assert r[first] == more[first];
    assert forall key :: key in judgments ==> key in more && more[key] == judgments[key];
    forall i | 0 <= i < |values| ensures JudgmentIn(rules, expected, values[i], r) {
      if i > 0 { assert values[1..][i - 1] == values[i]; }
    }
  }

  /** The judgment loop accepts exactly sound judgments and holds the trimmed text of each. */
  lemma {:induction false} JudgmentsHeld(rules: Rules, expected: seq<Key>, judgments: map<Key, string>, values: seq<string>)
    ensures var r := JudgmentLoop(rules, expected, judgments, values);
            && (r.Ok? <==> SoundJudgments(rules, expected, judgments.Keys, values))
            && (r.Ok? ==> HoldsJudgments(rules, expected, judgments, values, r.value))
    decreases |values|
  {
    hide Parts, Stripped, Trims;
    if values != [] {
      var step := JudgmentStep(rules, expected, judgments, values[0]);
      if step.Ok? {
        JudgmentsHeld(rules, expected, step.value, values[1..]);
        SoundTail(rules, expected, judgments.Keys, values);
        var (key, body) := Parts(rules, expected, values[0]).value;
        assert step.value.Keys == judgments.Keys + {key};
        hide HoldsJudgments, SoundJudgments;
        var r := JudgmentLoop(rules, expected, judgments, values);
        if r.Ok? { HoldsMoreJudgments(rules, expected, judgments, key, body, values, r.value); }
      }
    }
  }

  /** Why the loop refuses a judgment, behind earlier ones that it accepted. */
  ghost predicate JudgmentFault(rules: Rules, expected: seq<Key>, taken: set<Key>, earlier: seq<string>, value: string, error: Error) {
    match Parts(rules, expected, value)
    case Err(e) => error == e
    case Ok((key, body)) =>
      if AllWhite(body) then error == EmptyJudgment else error == DuplicateJudgment && (key in taken || Judged(rules, expected, earlier, key))
  }

  lemma BlankStripped(body: string)
    ensures Stripped(body) == "" <==> AllWhite(body)
  {
    StrippedTrims(body);
    hide White;
    if LeftStripped(body) != "" { assert body[|body| - |LeftStripped(body)|] == LeftStripped(body)[0]; }
    if Stripped(body) == "" {
      var left: string, right: string :| AllWhite(left) && AllWhite(right) && body == left + ("" + right);
    }
  }

  lemma {:induction false} JudgmentFaults(rules: Rules, expected: seq<Key>, judgments: map<Key, string>, values: seq<string>) returns (i: nat)
    requires JudgmentLoop(rules, expected, judgments, values).Err?
    ensures i < |values| && SoundJudgments(rules, expected, judgments.Keys, values[..i])
    ensures JudgmentFault(rules, expected, judgments.Keys, values[..i], values[i], JudgmentLoop(rules, expected, judgments, values).error)
    decreases |values|
  {
    hide Parts, Stripped, AllWhite;
    var (parts, step) := (Parts(rules, expected, values[0]), JudgmentStep(rules, expected, judgments, values[0]));
    i := 0;
    if parts.Ok? { BlankStripped(parts.value.1); }
    if step.Ok? {
      var k := JudgmentFaults(rules, expected, step.value, values[1..]);
      i := k + 1;
      var some := values[..i];
      assert some[1..] == values[1..][..k] && some[0] == values[0];
      assert step.value.Keys == judgments.Keys + {parts.value.0};
      SoundTail(rules, expected, judgments.Keys, some);
      hide SoundJudgments;
      if Parts(rules, expected, values[i]).Ok? { JudgedTail(rules, expected, some, Parts(rules, expected, values[i]).value.0); }
    }
  }

  /** Between turns every judgment is stripped and not empty. */
  ghost predicate Worded(judgments: map<Key, string>) {
    forall key :: key in judgments ==> judgments[key] != [] && !White(judgments[key][0]) && !White(judgments[key][|judgments[key]| - 1])
  }

  lemma OneMore(judgments: map<Key, string>, key: Key, text: string)
    requires key !in judgments
    ensures |judgments[key := text]| == |judgments| + 1
  {
    assert judgments[key := text].Keys == judgments.Keys + {key};
  }

  lemma OneMoreWorded(judgments: map<Key, string>, key: Key, text: string)
    requires Worded(judgments) && text != [] && !White(text[0]) && !White(text[|text| - 1])
    ensures Worded(judgments[key := text])
  {
    hide White;
  }

  lemma JudgmentTurn(rules: Rules, expected: seq<Key>, judgments: map<Key, string>, value: string)
    requires Worded(judgments)
    ensures var step := JudgmentStep(rules, expected, judgments, value);
            && step != Err(DuplicateLabelAgain)
            && (step.Ok? ==> Worded(step.value) && |step.value| == |judgments| + 1)
  {
    hide LabelValue, Parts, White, Stripped, Worded;
    PartsIsNotDuplicate(rules, expected, value);
    var step := JudgmentStep(rules, expected, judgments, value);
    if step.Ok? {
      var (key, body) := Parts(rules, expected, value).value;
      StrippedEnds(body);
      OneMore(judgments, key, Stripped(body));
      OneMoreWorded(judgments, key, Stripped(body));
    }
  }

  lemma StrippedEnds(text: string)
    requires Stripped(text) != []
    ensures !White(Stripped(text)[0]) && !White(Stripped(text)[|Stripped(text)| - 1])
  {
    hide White;
    var left := LeftStripped(text);
    assert Stripped(text)[0] == left[0];
  }

  lemma {:induction false} JudgmentsAreText(rules: Rules, expected: seq<Key>, judgments: map<Key, string>, values: seq<string>)
    requires Worded(judgments)
    ensures var r := JudgmentLoop(rules, expected, judgments, values);
            && r != Err(DuplicateLabelAgain)
            && (r.Ok? ==> Worded(r.value) && |r.value| == |judgments| + |values|)
    decreases |values|
  {
    hide JudgmentStep, Worded;
    if values != [] {
      JudgmentTurn(rules, expected, judgments, values[0]);
      var step := JudgmentStep(rules, expected, judgments, values[0]);
      if step.Ok? { JudgmentsAreText(rules, expected, step.value, values[1..]); }
    }
  }

  lemma NoJudgments()
    ensures Worded(map[])
  {
  }

  lemma AdmitMeans(rules: Rules, expected: seq<Key>, saved: Labels, labels: seq<string>, judgments: seq<string>)
    ensures var r := Admit(rules, expected, saved, labels, judgments);
            var all := LabelLoop(rules, expected, saved.Keys, saved, {}, labels);
            var texts := JudgmentLoop(rules, expected, map[], judgments);
            && (r.Ok? ==> && all.Ok? && texts.Ok? && r.value == Inputs(all.value.0, texts.value)
                          && (forall key :: key in all.value.0 ==> key in expected) && texts.value.Keys <= all.value.0.Keys)
            && (r == Err(DuplicateLabelAgain) ==> all == Err(DuplicateLabelAgain) || texts == Err(DuplicateLabelAgain))
  {
    hide LabelLoop, JudgmentLoop, InRange;
  }

  /** Admitted labels and judgments are for frozen keys, every judgment has a label, saved labels survive, supplied ones are held, and the
      second duplicate-label error is never the answer. */
  lemma AdmittedInputs(rules: Rules, expected: seq<Key>, saved: Labels, labels: seq<string>, judgments: seq<string>)
    ensures var r := Admit(rules, expected, saved, labels, judgments);
            && r != Err(DuplicateLabelAgain)
            && (r.Ok? ==>
                  && (forall key :: key in r.value.labels ==> key in expected)
                  && r.value.judgments.Keys <= r.value.labels.Keys && |r.value.judgments| == |judgments| && Worded(r.value.judgments)
                  && (forall key :: key in saved ==> key in r.value.labels && r.value.labels[key] == saved[key])
                  && (forall key :: key in r.value.labels <==> key in saved || Named(rules, expected, labels, key))
                  && Consistent(rules, expected, saved, {}, labels)
                  && forall i :: 0 <= i < |labels| ==>
                       var (key, value) := ParseLabel(rules, expected, labels[i]).value;
                       key in r.value.labels && r.value.labels[key] == value)
  {
    LoopAccepts(rules, expected, saved.Keys, saved, {}, labels);
    NoJudgments();
    JudgmentsAreText(rules, expected, map[], judgments);
    AdmitMeans(rules, expected, saved, labels, judgments);
    hide Admit, LabelLoop, JudgmentLoop, ParseLabel, Worded, Consistent, Named;
  }

  /** Every key of a label or a judgment is frozen. */
  ghost predicate AllExpected(rules: Rules, expected: seq<Key>, saved: Labels, labels: seq<string>, judgments: seq<string>) {
    forall key :: key in saved || Named(rules, expected, labels, key) || Judged(rules, expected, judgments, key) ==> key in expected
  }

  /** Every judgment has a label, saved or supplied. */
  ghost predicate AllLabelled(rules: Rules, expected: seq<Key>, saved: Labels, labels: seq<string>, judgments: seq<string>) {
    forall key :: Judged(rules, expected, judgments, key) ==> key in saved || Named(rules, expected, labels, key)
  }

  lemma AdmitStages(rules: Rules, expected: seq<Key>, saved: Labels, labels: seq<string>, judgments: seq<string>)
    ensures var r := Admit(rules, expected, saved, labels, judgments);
            var all := LabelLoop(rules, expected, saved.Keys, saved, {}, labels);
            var texts := JudgmentLoop(rules, expected, map[], judgments);
            if exists key :: key in saved && !InRange(rules, key, saved[key]) then r == Err(OutOfRange)
            else if all.Err? then r == Err(all.error)
            else if texts.Err? then r == Err(texts.error)
            else if !(forall key :: key in all.value.0 || key in texts.value ==> key in expected) then r == Err(Unexpected)
            else if !(forall key :: key in texts.value ==> key in all.value.0) then r == Err(JudgmentWithoutLabel)
            else r == Ok(Inputs(all.value.0, texts.value))
  {
    hide LabelLoop, JudgmentLoop, InRange;
  }

  lemma AdmittedKeys(rules: Rules, expected: seq<Key>, saved: Labels, labels: seq<string>, judgments: seq<string>, all: (Labels, set<Key>),
                     texts: map<Key, string>)
    requires Merged(saved.Keys, all.0, all.1) && Holds(rules, expected, saved, {}, labels, all)
    requires HoldsJudgments(rules, expected, map[], judgments, texts)
    ensures AllExpected(rules, expected, saved, labels, judgments) <==> forall key :: key in all.0 || key in texts ==> key in expected
    ensures AllLabelled(rules, expected, saved, labels, judgments) <==> forall key :: key in texts ==> key in all.0
  {
    hide Named, Judged, JudgmentIn, ParseLabel;
    assert forall key :: key in all.0.Keys <==> key in saved || Named(rules, expected, labels, key);
  }

  /** Admission checks the saved scores, the labels, the judgments, the frozen keys and the labels of the judgments, in this order: it accepts
      exactly when all five hold, holds the trimmed text of every judgment then, and otherwise names the first fault of the first that fails. */
  lemma AdmitsExactly(rules: Rules, expected: seq<Key>, saved: Labels, labels: seq<string>, judgments: seq<string>)
    ensures var r := Admit(rules, expected, saved, labels, judgments);
            if exists key :: key in saved && !InRange(rules, key, saved[key]) then r == Err(OutOfRange)
            else if !Consistent(rules, expected, saved, {}, labels) then
              r.Err? && exists i: nat :: && i < |labels| && Consistent(rules, expected, saved, {}, labels[..i])
                                         && LabelFault(rules, expected, saved, {}, labels[..i], labels[i], r.error)
            else if !SoundJudgments(rules, expected, {}, judgments) then
              r.Err? && exists i: nat :: && i < |judgments| && SoundJudgments(rules, expected, {}, judgments[..i])
                                         && JudgmentFault(rules, expected, {}, judgments[..i], judgments[i], r.error)
            else if !AllExpected(rules, expected, saved, labels, judgments) then r == Err(Unexpected)
            else if !AllLabelled(rules, expected, saved, labels, judgments) then r == Err(JudgmentWithoutLabel)
            else r.Ok? && HoldsJudgments(rules, expected, map[], judgments, r.value.judgments)
  {
    LoopAccepts(rules, expected, saved.Keys, saved, {}, labels);
    JudgmentsHeld(rules, expected, map[], judgments);
    var none: map<Key, string> := map[];
    assert none.Keys == {};
    AdmitStages(rules, expected, saved, labels, judgments);
    hide Admit, ParseLabel, Consistent, SoundJudgments, Named, Judged, LabelFault, JudgmentFault, InRange, LabelLoop, JudgmentLoop;
    var (all, texts) := (LabelLoop(rules, expected, saved.Keys, saved, {}, labels), JudgmentLoop(rules, expected, map[], judgments));
    if all.Ok? && texts.Ok? {
      AdmittedKeys(rules, expected, saved, labels, judgments, all.value, texts.value);
      hide AllExpected, AllLabelled, Holds, HoldsJudgments, Merged;
    } else if all.Err? {
      var i := LoopFaults(rules, expected, saved.Keys, saved, {}, labels);
    } else if texts.Err? {
      var i := JudgmentFaults(rules, expected, map[], judgments);
    }
  }

  /** The command's loops over dictionaries and sets compute exactly what admission says. */
  method ParseExplicitInputs(rules: Rules, expected: seq<Key>, saved: Labels, supplied: seq<string>, corrected: seq<string>)
    returns (r: Result<Inputs>)
    ensures r == Admit(rules, expected, saved, supplied, corrected)
  {
    hide Parts, LabelValue, ValidLabel, Stripped;
    if exists key | key in saved :: !InRange(rules, key, saved[key]) { return Err(OutOfRange); }
    var merged := LabelTurns(rules, expected, saved, supplied);
    if merged.Err? { return Err(merged.error); }
    var judgments := JudgmentTurns(rules, expected, corrected);
    if judgments.Err? { return Err(judgments.error); }
    hide LabelLoop, JudgmentLoop;
    var labels := merged.value.0;
    if exists key | key in labels.Keys + judgments.value.Keys :: key !in expected { return Err(Unexpected); }
    if !(judgments.value.Keys <= labels.Keys) { return Err(JudgmentWithoutLabel); }
    r := Ok(Inputs(labels, judgments.value));
  }

  method LabelTurns(rules: Rules, expected: seq<Key>, saved: Labels, values: seq<string>) returns (r: Result<(Labels, set<Key>)>)
    ensures r == LabelLoop(rules, expected, saved.Keys, saved, {}, values)
  {
    hide Parts, LabelValue, ValidLabel;
    var labels, supplied := saved, {};
    var i := 0;
    while i < |values|
      invariant 0 <= i <= |values|
      invariant LabelLoop(rules, expected, saved.Keys, labels, supplied, values[i..]) == LabelLoop(rules, expected, saved.Keys, saved, {}, values)
    {
      assert values[i..][0] == values[i] && values[i..][1..] == values[i + 1..];
      var parts := Parts(rules, expected, values[i]);
      if parts.Err? { return Err(parts.error); }
      var (key, body) := parts.value;
      if key in supplied { return Err(DuplicateLabel); }
      var parsed := LabelValue(rules, key, body);
      if parsed.Err? { return Err(parsed.error); }
      if !ValidLabel(rules, key) { return Err(BadLabel); }
      if key in labels && labels[key] != parsed.value { return Err(Conflict); }
      if key in labels && key !in saved.Keys { return Err(DuplicateLabelAgain); }
      labels, supplied := labels[key := parsed.value], supplied + {key};
      i := i + 1;
    }
    r := Ok((labels, supplied));
  }

  method JudgmentTurns(rules: Rules, expected: seq<Key>, values: seq<string>) returns (r: Result<map<Key, string>>)
    ensures r == JudgmentLoop(rules, expected, map[], values)
  {
    hide Parts, Stripped;
    var judgments: map<Key, string> := map[];
    var i := 0;
    while i < |values|
      invariant 0 <= i <= |values|
      invariant JudgmentLoop(rules, expected, judgments, values[i..]) == JudgmentLoop(rules, expected, map[], values)
    {
      assert values[i..][0] == values[i] && values[i..][1..] == values[i + 1..];
      var parts := Parts(rules, expected, values[i]);
      if parts.Err? { return Err(parts.error); }
      var (key, body) := parts.value;
      var text := Stripped(body);
      if text == [] { return Err(EmptyJudgment); }
      if key in judgments { return Err(DuplicateJudgment); }
      judgments := judgments[key := text];
      i := i + 1;
    }
    r := Ok(judgments);
  }
}
