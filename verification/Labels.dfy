/** `render_labels` and `escape_label_value` in `src/metrics/registry.rs`, and a
    reader for what they write (Prometheus text exposition format 0.0.4,
    "Line format"). */
module Labels {
  import opened Basics
  import opened Strings

  type LabelMap = map<string, string>

  // ---- escaping ----

  /** `value.replace(c, with)`. */
  function ReplaceAll(s: string, c: char, with: string): string {
    if s == "" then "" else (if s[0] == c then with else [s[0]]) + ReplaceAll(s[1..], c, with)
  }

  /** The source's three replacements, one after the other. */
  function EscapeLabelValue(value: string): string {
    ReplaceAll(ReplaceAll(ReplaceAll(value, '\\', "\\\\"), '"', "\\\""), '\n', "\\n")
  }

  function EscapeChar(c: char): string {
    if c == '\\' then "\\\\" else if c == '"' then "\\\"" else if c == '\n' then "\\n" else [c]
  }

  function Escape(value: string): string {
    if value == "" then "" else EscapeChar(value[0]) + Escape(value[1..])
  }

  lemma {:induction false} ReplaceAllConcat(a: string, b: string, c: char, with: string)
    ensures ReplaceAll(a + b, c, with) == ReplaceAll(a, c, with) + ReplaceAll(b, c, with)
  {
    if a == "" {
      assert a + b == b;
    } else {
      ReplaceAllConcat(a[1..], b, c, with);
      assert (a + b)[0] == a[0] && (a + b)[1..] == a[1..] + b;
      ConcatAssociates(
        if a[0] == c then with else [a[0]], ReplaceAll(a[1..], c, with), ReplaceAll(b, c, with));
    }
  }

  lemma ReplaceOne(x: char, c: char, with: string)
    ensures ReplaceAll([x], c, with) == if x == c then with else [x]
  {
    assert [x][1..] == "";
  }

  lemma EscapeOne(x: char)
    ensures EscapeLabelValue([x]) == EscapeChar(x)
  {
    ReplaceOne(x, '\\', "\\\\");
    ReplaceOne(x, '"', "\\\"");
    ReplaceOne(x, '\n', "\\n");
    ReplaceOne('\\', '"', "\\\"");
    ReplaceOne('\\', '\n', "\\n");
    ReplaceOne('"', '\n', "\\n");
    assert "\\\\" == "\\" + "\\" && "\\\"" == "\\" + "\"";
    ReplaceAllConcat("\\", "\\", '"', "\\\"");
    ReplaceAllConcat("\\", "\\", '\n', "\\n");
    ReplaceAllConcat("\\", "\"", '\n', "\\n");
  }

  /** The three replacements never see each other's output: together they are
      one escape for each character. */
  lemma {:induction false} EscapeIsPerCharacter(value: string)
    ensures EscapeLabelValue(value) == Escape(value)
  {
    if value != "" {
      var x, rest := [value[0]], value[1..];
      EscapeIsPerCharacter(rest);
      EscapeOne(value[0]);
      assert value == x + rest;
      var x1, rest1 := ReplaceAll(x, '\\', "\\\\"), ReplaceAll(rest, '\\', "\\\\");
      var x2, rest2 := ReplaceAll(x1, '"', "\\\""), ReplaceAll(rest1, '"', "\\\"");
      ReplaceAllConcat(x, rest, '\\', "\\\\");
      ReplaceAllConcat(x1, rest1, '"', "\\\"");
      ReplaceAllConcat(x2, rest2, '\n', "\\n");
    }
  }

  /** Every backslash starts one of the three escapes; there is no raw newline
      and no quote outside an escape. */
  predicate WellEscaped(s: string) {
    s == "" ||
    if s[0] == '\\' then |s| >= 2 && s[1] in {'\\', '"', 'n'} && WellEscaped(s[2..])
    else s[0] != '"' && s[0] != '\n' && WellEscaped(s[1..])
  }

  lemma {:induction false} EscapeIsWellEscaped(value: string)
    ensures WellEscaped(Escape(value))
    ensures '\n' !in Escape(value)
  {
    if value != "" {
      EscapeIsWellEscaped(value[1..]);
      var e := EscapeChar(value[0]);
      assert Escape(value)[|e|..] == Escape(value[1..]);
    }
  }

  // ---- rendering ----

  function RenderPair(name: string, value: string): string {
    name + "=\"" + EscapeLabelValue(value) + "\""
  }

  type Pair = (string, string)

  /** The pairs, joined by commas. */
  function RenderPairs(pairs: seq<Pair>): string {
    if pairs == [] then ""
    else RenderPair(pairs[0].0, pairs[0].1) + if |pairs| == 1 then "" else "," + RenderPairs(pairs[1..])
  }

  /** The labels in the order of their names. */
  ghost function SortedPairs(labels: LabelMap): seq<Pair> {
    var names := SortKeys(labels.Keys);
    seq(|names|, i requires 0 <= i < |names| => assert names[i] in names; (names[i], labels[names[i]]))
  }

  ghost function RenderLabels(labels: LabelMap): string {
    if labels == map[] then "" else "{" + RenderPairs(SortedPairs(labels)) + "}"
  }

  // ---- reading ----

  /** The value up to the closing quote, and what follows that quote. */
  function ReadValue(s: string): Option<(string, string)> {
    if s == "" || s[0] == '\n' then None
    else if s[0] == '"' then Some(("", s[1..]))
    else if s[0] == '\\' then
      if |s| < 2 || s[1] !in {'\\', '"', 'n'} then None
      else
        match ReadValue(s[2..])
        case None => None
        case Some((value, rest)) => Some(([if s[1] == 'n' then '\n' else s[1]] + value, rest))
    else
      match ReadValue(s[1..])
      case None => None
      case Some((value, rest)) => Some(([s[0]] + value, rest))
  }

  /** Whether an equals sign and a quote come first: where a name ends. */
  predicate NameEnds(s: string) {
    |s| >= 2 && s[0] == '=' && s[1] == '"'
  }

  /** The name up to the first equals sign with a quote behind it, and what
      follows that quote. */
  function ReadName(s: string): (r: Option<Pair>)
    ensures r.Some? ==> |r.value.1| < |s|
  {
    if s == "" then None
    else if NameEnds(s) then Some(("", s[2..]))
    else
      match ReadName(s[1..])
      case None => None
      case Some((name, rest)) => Some(([s[0]] + name, rest))
  }

  lemma {:induction false} ReadValueShortens(s: string)
    ensures ReadValue(s).Some? ==> |ReadValue(s).value.1| < |s|
  {
    if s != "" && s[0] != '"' && s[0] != '\n' {
      if s[0] != '\\' {
        ReadValueShortens(s[1..]);
      } else if |s| >= 2 {
        ReadValueShortens(s[2..]);
      }
    }
  }

  function ReadPairs(s: string): Option<seq<Pair>>
    decreases |s|
  {
    match ReadName(s)
    case None => None
    case Some((name, afterName)) =>
      ReadValueShortens(afterName);
      match ReadValue(afterName)
      case None => None
      case Some((value, rest)) =>
        if rest == "}" then Some([(name, value)])
        else if rest == "" || rest[0] != ',' then None
        else
          match ReadPairs(rest[1..])
          case None => None
          case Some(others) => Some([(name, value)] + others)
  }

  function NamesOf(pairs: seq<Pair>): (names: seq<string>)
    ensures |names| == |pairs|
  {
    seq(|pairs|, i requires 0 <= i < |pairs| => pairs[i].0)
  }

  function ToMap(pairs: seq<Pair>): LabelMap {
    if pairs == [] then map[] else ToMap(pairs[1..])[pairs[0].0 := pairs[0].1]
  }

  /** The labels, if their names ascend. */
  function ReadLabels(s: string): Option<LabelMap> {
    if s == "" then Some(map[])
    else if s[0] != '{' then None
    else
      match ReadPairs(s[1..])
      case None => None
      case Some(pairs) => if StrictlyAscending(NamesOf(pairs)) then Some(ToMap(pairs)) else None
  }

  // ---- round trip ----

  lemma ReadEscapedChar(c: char, tail: string)
    ensures ReadValue(EscapeChar(c) + tail) ==
      if ReadValue(tail).None? then None
      else Some(([c] + ReadValue(tail).value.0, ReadValue(tail).value.1))
  {
    var e := EscapeChar(c);
    var s := e + tail;
    assert s[0] == e[0] && s[|e|..] == tail;
    assert |e| == 2 ==> s[1] == e[1];
  }

  /** Reading stops at the closing quote and undoes every escape. */
  lemma {:induction false} ReadEscaped(value: string, rest: string)
    ensures ReadValue(Escape(value) + ("\"" + rest)) == Some((value, rest))
  {
    if value == "" {
      var s := "\"" + rest;
      assert Escape(value) + s == s && s[1..] == rest;
    } else {
      var tail := Escape(value[1..]) + ("\"" + rest);
      ReadEscaped(value[1..], rest);
      ConcatAssociates(EscapeChar(value[0]), Escape(value[1..]), "\"" + rest);
      ReadEscapedChar(value[0], tail);
      assert value == [value[0]] + value[1..];
    }
  }

  /** Nowhere an equals sign with a quote behind it. */
  predicate PlainName(name: string) {
    name == "" || (!NameEnds(name) && PlainName(name[1..]))
  }

  predicate PlainNames(labels: LabelMap) {
    forall name :: name in labels ==> PlainName(name)
  }

  predicate PlainPairs(pairs: seq<Pair>) {
    forall i :: 0 <= i < |pairs| ==> PlainName(pairs[i].0)
  }

  lemma {:induction false} NoEqualsIsPlain(name: string)
    requires '=' !in name
    ensures PlainName(name)
  {
    if name != "" {
      NoEqualsIsPlain(name[1..]);
    }
  }

  lemma {:induction false} ReadPlainName(name: string, rest: string)
    requires PlainName(name)
    ensures ReadName(name + ("=\"" + rest)) == Some((name, rest))
  {
    var s := name + ("=\"" + rest);
    if name == "" {
      assert s[2..] == rest;
    } else {
      ReadPlainName(name[1..], rest);
      assert s[1..] == name[1..] + ("=\"" + rest);
      assert name == [name[0]] + name[1..];
      assert !NameEnds(s);
    }
  }

  lemma RenderedPairShape(name: string, value: string, rest: string)
    ensures RenderPair(name, value) + rest == name + ("=\"" + (Escape(value) + ("\"" + rest)))
  {
    EscapeIsPerCharacter(value);
  }

  /** Reading one rendered pair leaves what follows it. */
  lemma ReadRenderedPair(name: string, value: string, rest: string)
    requires PlainName(name)
    ensures ReadPairs(RenderPair(name, value) + rest) ==
      if rest == "}" then Some([(name, value)])
      else if rest == "" || rest[0] != ',' || ReadPairs(rest[1..]).None? then None
      else Some([(name, value)] + ReadPairs(rest[1..]).value)
  {
    RenderedPairShape(name, value, rest);
    ReadPlainName(name, Escape(value) + ("\"" + rest));
    ReadEscaped(value, rest);
  }

  lemma RenderedPairsSplit(pairs: seq<Pair>)
    requires |pairs| > 1
    ensures var more := RenderPairs(pairs[1..]) + "}";
      var rest := "," + more;
      && RenderPairs(pairs) + "}" == RenderPair(pairs[0].0, pairs[0].1) + rest
      && rest[0] == ',' && rest[1..] == more && rest != "}"
  {
    ConcatAssociates(RenderPair(pairs[0].0, pairs[0].1), "," + RenderPairs(pairs[1..]), "}");
    ConcatAssociates(",", RenderPairs(pairs[1..]), "}");
  }

  lemma {:induction false} ReadRenderedPairs(pairs: seq<Pair>)
    requires pairs != [] && PlainPairs(pairs)
    ensures ReadPairs(RenderPairs(pairs) + "}") == Some(pairs)
    decreases |pairs|
  {
    var (name, value) := pairs[0];
    if |pairs| == 1 {
      ReadRenderedPair(name, value, "}");
      assert RenderPairs(pairs) == RenderPair(name, value);
      assert pairs == [(name, value)];
    } else {
      ReadRenderedPairs(pairs[1..]);
      RenderedPairsSplit(pairs);
      ReadRenderedPair(name, value, "," + (RenderPairs(pairs[1..]) + "}"));
      assert pairs == [(name, value)] + pairs[1..];
    }
  }

  // ---- nothing else can be read ----

  lemma {:induction false} NameWasRead(s: string)
    ensures ReadName(s).Some? ==>
      var (name, rest) := ReadName(s).value; PlainName(name) && s == name + ("=\"" + rest)
  {
    if s != "" && !NameEnds(s) {
      NameWasRead(s[1..]);
      if ReadName(s[1..]).Some? {
        var (name, rest) := ReadName(s[1..]).value;
        assert s == [s[0]] + s[1..];
        assert name != "" ==> s[1] == name[0];
        assert ([s[0]] + name)[1..] == name;
        ConcatAssociates([s[0]], name, "=\"" + rest);
      }
    }
  }

  lemma EscapedCharThen(c: char, value: string)
    ensures Escape([c] + value) == EscapeChar(c) + Escape(value)
  {
    assert ([c] + value)[1..] == value;
  }

  lemma {:induction false} ValueWasRead(s: string)
    ensures ReadValue(s).Some? ==>
      var (value, rest) := ReadValue(s).value; s == Escape(value) + ("\"" + rest)
  {
    if ReadValue(s).Some? {
      var (value, rest) := ReadValue(s).value;
      if s[0] == '"' {
        assert s == "\"" + s[1..] && Escape("") + s == s;
      } else {
        var (c, tail) := if s[0] == '\\' then (if s[1] == 'n' then '\n' else s[1], s[2..]) else (s[0], s[1..]);
        ValueWasRead(tail);
        var more := ReadValue(tail).value.0;
        assert value == [c] + more;
        EscapedCharThen(c, more);
        assert s == EscapeChar(c) + tail;
        ConcatAssociates(EscapeChar(c), Escape(more), "\"" + rest);
      }
    }
  }

  lemma PairWasRead(s: string)
    requires ReadName(s).Some? && ReadValue(ReadName(s).value.1).Some?
    ensures var (name, afterName) := ReadName(s).value;
      var (value, rest) := ReadValue(afterName).value;
      PlainName(name) && s == RenderPair(name, value) + rest
  {
    NameWasRead(s);
    var (name, afterName) := ReadName(s).value;
    ValueWasRead(afterName);
    RenderedPairShape(name, ReadValue(afterName).value.0, ReadValue(afterName).value.1);
  }

  lemma {:induction false} PairsWereRead(s: string)
    ensures ReadPairs(s).Some? ==>
      var pairs := ReadPairs(s).value; pairs != [] && PlainPairs(pairs) && s == RenderPairs(pairs) + "}"
    decreases |s|
  {
    if ReadPairs(s).Some? {
      var (name, afterName) := ReadName(s).value;
      var (value, rest) := ReadValue(afterName).value;
      PairWasRead(s);
      if rest != "}" {
        ReadValueShortens(afterName);
        PairsWereRead(rest[1..]);
        var others := ReadPairs(rest[1..]).value;
        var pairs := [(name, value)] + others;
        assert pairs[1..] == others;
        RenderedPairsSplit(pairs);
        assert rest == "," + rest[1..];
      }
    }
  }

  // ---- pairs and maps ----

  lemma {:induction false} ToMapHolds(pairs: seq<Pair>)
    requires Distinct(NamesOf(pairs))
    ensures forall name :: name in ToMap(pairs) <==> name in NamesOf(pairs)
    ensures forall i :: 0 <= i < |pairs| ==> pairs[i].0 in ToMap(pairs) && ToMap(pairs)[pairs[i].0] == pairs[i].1
  {
    if pairs != [] {
      var rest := pairs[1..];
      var names := NamesOf(pairs);
      assert names == [pairs[0].0] + NamesOf(rest);
      assert Distinct(NamesOf(rest)) by {
        forall i, j | 0 <= i < j < |rest| ensures NamesOf(rest)[i] != NamesOf(rest)[j] {
          assert names[i + 1] != names[j + 1];
        }
      }
      ToMapHolds(rest);
      forall i | 0 <= i < |pairs|
        ensures pairs[i].0 in ToMap(pairs) && ToMap(pairs)[pairs[i].0] == pairs[i].1
      {
        if i > 0 {
          assert rest[i - 1] == pairs[i] && names[0] != names[i];
        }
      }
    }
  }

  lemma PairsOfMap(labels: LabelMap)
    ensures ToMap(SortedPairs(labels)) == labels
  {
    var pairs := SortedPairs(labels);
    assert NamesOf(pairs) == SortKeys(labels.Keys);
    AscendingIsDistinct(SortKeys(labels.Keys));
    ToMapHolds(pairs);
    forall name | name in labels ensures ToMap(pairs)[name] == labels[name] {
      var i :| 0 <= i < |pairs| && NamesOf(pairs)[i] == name;
      assert pairs[i] == (name, labels[name]);
    }
  }

  lemma PairsArePlain(labels: LabelMap)
    ensures PlainPairs(SortedPairs(labels)) <==> PlainNames(labels)
  {
    var names, pairs := SortKeys(labels.Keys), SortedPairs(labels);
    forall i | 0 <= i < |pairs| ensures pairs[i].0 in labels {
      assert names[i] in names;
    }
    forall name | name in labels ensures exists i :: 0 <= i < |pairs| && pairs[i].0 == name {
      var i :| 0 <= i < |names| && names[i] == name;
      assert pairs[i].0 == name;
    }
  }

  lemma MapOfPairs(pairs: seq<Pair>)
    requires StrictlyAscending(NamesOf(pairs))
    ensures SortedPairs(ToMap(pairs)) == pairs
  {
    var names := NamesOf(pairs);
    AscendingIsDistinct(names);
    ToMapHolds(pairs);
    SortedIsUnique(ToMap(pairs).Keys, names);
    forall i | 0 <= i < |pairs| ensures SortedPairs(ToMap(pairs))[i] == pairs[i] {
      assert names[i] == pairs[i].0;
    }
  }

  // ---- round trip ----

  lemma Braced(body: string)
    ensures ("{" + body + "}")[0] == '{' && ("{" + body + "}")[1..] == body + "}"
  {
  }

  lemma RenderedIsRead(labels: LabelMap)
    requires PlainNames(labels)
    ensures ReadLabels(RenderLabels(labels)) == Some(labels)
  {
    if labels != map[] {
      var sorted := SortedPairs(labels);
      assert NamesOf(sorted) == SortKeys(labels.Keys);
      PairsOfMap(labels);
      PairsArePlain(labels);
      Braced(RenderPairs(sorted));
      ReadRenderedPairs(sorted);
    }
  }

  lemma RenderPairsOf(pairs: seq<Pair>)
    requires pairs != [] && StrictlyAscending(NamesOf(pairs))
    ensures RenderLabels(ToMap(pairs)) == "{" + RenderPairs(pairs) + "}"
  {
    MapOfPairs(pairs);
    assert pairs[0].0 in ToMap(pairs);
  }

  lemma ReadWasRendered(s: string)
    ensures ReadLabels(s).Some? ==> PlainNames(ReadLabels(s).value) && s == RenderLabels(ReadLabels(s).value)
  {
    if s != "" && ReadLabels(s).Some? {
      var pairs := ReadPairs(s[1..]).value;
      PairsWereRead(s[1..]);
      MapOfPairs(pairs);
      PairsArePlain(ToMap(pairs));
      RenderPairsOf(pairs);
      OpeningBrace(s, RenderPairs(pairs) + "}");
      ConcatAssociates("{", RenderPairs(pairs), "}");
    }
  }

  lemma OpeningBrace(s: string, rest: string)
    requires s != "" && s[0] == '{' && s[1..] == rest
    ensures s == "{" + rest
  {
  }

  /** The reader undoes the renderer and accepts nothing else: it reads `labels`
      from exactly their rendering, and only if the names are plain. */
  lemma ReadIffRendered(s: string, labels: LabelMap)
    ensures ReadLabels(s) == Some(labels) <==> PlainNames(labels) && s == RenderLabels(labels)
  {
    ReadWasRendered(s);
    if PlainNames(labels) {
      RenderedIsRead(labels);
    }
  }

  /** Reading what was rendered gives back the label map exactly when no label
      name contains an equals sign with a quote behind it. */
  lemma RoundTripIff(labels: LabelMap)
    ensures ReadLabels(RenderLabels(labels)) == Some(labels) <==> PlainNames(labels)
  {
    ReadIffRendered(RenderLabels(labels), labels);
  }

  /** So rendering tells different label maps apart. */
  lemma RenderingIsInjective(a: LabelMap, b: LabelMap)
    requires PlainNames(a) && PlainNames(b) && RenderLabels(a) == RenderLabels(b)
    ensures a == b
  {
    RoundTripIff(a);
    RoundTripIff(b);
  }

  /** Some other label map with plain names is printed alike. */
  ghost predicate Mistakable(labels: LabelMap) {
    exists other: LabelMap :: other != labels && PlainNames(other) && RenderLabels(other) == RenderLabels(labels)
  }

  /** What is printed for any label map, whatever its names, can be mistaken for
      another one's with plain names exactly when a name is not plain and what is
      printed can be read all the same. */
  lemma MistakableIff(labels: LabelMap)
    ensures Mistakable(labels) <==> !PlainNames(labels) && ReadLabels(RenderLabels(labels)).Some?
  {
    var s := RenderLabels(labels);
    if Mistakable(labels) {
      var other: LabelMap :| other != labels && PlainNames(other) && RenderLabels(other) == s;
      ReadIffRendered(s, other);
      if PlainNames(labels) {
        RenderingIsInjective(labels, other);
      }
    }
    if !PlainNames(labels) && ReadLabels(s).Some? {
      ReadIffRendered(s, ReadLabels(s).value);
    }
  }

  // ---- label names of the exposition format ----

  predicate NameStart(c: char) {
    'a' <= c <= 'z' || 'A' <= c <= 'Z' || c == '_'
  }

  predicate NameChar(c: char) {
    NameStart(c) || '0' <= c <= '9'
  }

  /** `[a-zA-Z_][a-zA-Z0-9_]*`. */
  predicate ValidName(name: string) {
    name != "" && NameStart(name[0]) && forall i :: 0 <= i < |name| ==> NameChar(name[i])
  }

  predicate ValidNames(labels: LabelMap) {
    forall name :: name in labels ==> ValidName(name)
  }

  /** Reading by the format's own rules, which admit no other label names. */
  function ReadExposition(s: string): Option<LabelMap> {
    var r := ReadLabels(s);
    if r.Some? && ValidNames(r.value) then r else None
  }

  /** What is printed is a label block of the format that gives back the label map
      exactly when every label name is a valid one. */
  lemma ExpositionRoundTripIff(labels: LabelMap)
    ensures ReadExposition(RenderLabels(labels)) == Some(labels) <==> ValidNames(labels)
  {
    RoundTripIff(labels);
    if ValidNames(labels) {
      forall name | name in labels ensures PlainName(name) {
        assert forall i :: 0 <= i < |name| ==> NameChar(name[i]);
        NoEqualsIsPlain(name);
      }
    }
  }

  // ---- names that are not plain ----

  lemma RenderOne(name: string, value: string)
    ensures RenderLabels(map[name := value]) == "{" + RenderPair(name, value) + "}"
  {
    SortedIsUnique({name}, [name]);
    assert map[name := value].Keys == {name};
    assert SortedPairs(map[name := value]) == [(name, value)];
  }

  lemma RenderTwo(n1: string, n2: string, v1: string, v2: string)
    requires LexLess(n1, n2)
    ensures RenderLabels(map[n1 := v1, n2 := v2]) == "{" + (RenderPair(n1, v1) + ("," + RenderPair(n2, v2))) + "}"
  {
    LexTrichotomy(n1, n2);
    SortedIsUnique({n1, n2}, [n1, n2]);
    var labels := map[n1 := v1, n2 := v2];
    assert labels.Keys == {n1, n2} && labels[n1] == v1 && labels[n2] == v2;
    var last := [(n2, v2)];
    var pairs := [(n1, v1), (n2, v2)];
    assert SortedPairs(labels) == pairs && pairs[1..] == last;
    assert RenderPairs(last) == RenderPair(n2, v2);
    assert RenderPairs(pairs) == RenderPair(n1, v1) + ("," + RenderPair(n2, v2));
  }

  lemma CommaAssociates(p: string, q: string)
    ensures p + ("," + q) == (p + ",") + q
  {
  }

  lemma LongNamePair(prefix: string, name: string, value: string)
    ensures RenderPair(prefix + name, value) == prefix + RenderPair(name, value)
  {
  }

  /** A label name may carry a whole other pair in itself. */
  lemma EqualsSignCollides(n1: string, n2: string, v1: string, v2: string)
    requires LexLess(n1, n2)
    ensures var a: LabelMap := map[n1 := v1, n2 := v2];
      var b: LabelMap := map[(RenderPair(n1, v1) + ",") + n2 := v2];
      a != b && RenderLabels(a) == RenderLabels(b)
  {
    var first := RenderPair(n1, v1) + ",";
    RenderTwo(n1, n2, v1, v2);
    RenderOne(first + n2, v2);
    LongNamePair(first, n2, v2);
    CommaAssociates(RenderPair(n1, v1), RenderPair(n2, v2));
    LexTrichotomy(n1, n2);
    TwoNamesDiffer(n1, n2, v1, v2, first + n2);
  }

  lemma TwoNamesDiffer(n1: string, n2: string, v1: string, v2: string, name: string)
    requires n1 != n2
    ensures map[n1 := v1, n2 := v2] != map[name := v2]
  {
    var (a, b) := (map[n1 := v1, n2 := v2], map[name := v2]);
    assert n1 in a && n2 in a;
    assert b.Keys == {name};
  }

  /** In that case the long name is mistaken for the two short ones. */
  lemma LongNameIsMistakable(n1: string, n2: string, v1: string, v2: string)
    requires LexLess(n1, n2) && PlainName(n1) && PlainName(n2)
    ensures Mistakable(map[(RenderPair(n1, v1) + ",") + n2 := v2])
  {
    EqualsSignCollides(n1, n2, v1, v2);
    assert PlainNames(map[n1 := v1, n2 := v2]);
  }
}
