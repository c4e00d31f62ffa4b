/** The one-pass nesting scan of a model's JSON answer. */
module JsonDepth {

  const MAX_DEPTH: nat := 64

  // ---------------------------------------------------------------------
  // JSON texts, by the grammar of RFC 8259
  // ---------------------------------------------------------------------

  /** A JSON value with every character of its text: string bodies are kept
      escaped, and white space is kept where the grammar allows it. */
  datatype Value =
    | Scalar(text: string)
    | Text(body: string)
    | EmptyArray(space: string)
    | Array(items: Items)
    | EmptyObject(space: string)
    | Object(members: Members)

  datatype Items =
    | LastItem(before: string, value: Value, after: string)
    | MoreItems(before: string, value: Value, after: string, rest: Items)

  datatype Members =
    | LastMember(before: string, key: string, colonBefore: string, colonAfter: string, value: Value, after: string)
    | MoreMembers(before: string, key: string, colonBefore: string, colonAfter: string, value: Value, after: string,
                  rest: Members)

  predicate Space(s: string) {
    forall i :: 0 <= i < |s| ==> s[i] in " \t\n\r"
  }

  /** Literal names, and texts over the alphabet of numbers (section 6). */
  predicate ScalarOk(s: string) {
    s in {"true", "false", "null"} || (s != "" && forall i :: 0 <= i < |s| ==> s[i] in "0123456789+-.eE")
  }

  predicate Hex(c: char) {
    '0' <= c <= '9' || 'a' <= c <= 'f' || 'A' <= c <= 'F'
  }

  /** The inside of a string: no bare quote, backslash only in an escape (section 7). */
  predicate BodyOk(s: string) {
    if s == "" then true
    else if s[0] == '"' || s[0] < ' ' then false
    else if s[0] != '\\' then BodyOk(s[1..])
    else if |s| >= 2 && s[1] in "\"\\/bfnrt" then BodyOk(s[2..])
    else |s| >= 6 && s[1] == 'u' && Hex(s[2]) && Hex(s[3]) && Hex(s[4]) && Hex(s[5]) && BodyOk(s[6..])
  }

  predicate ValueOk(v: Value) {
    match v
    case Scalar(s) => ScalarOk(s)
    case Text(s) => BodyOk(s)
    case EmptyArray(s) => Space(s)
    case Array(items) => ItemsOk(items)
    case EmptyObject(s) => Space(s)
    case Object(members) => MembersOk(members)
  }

  predicate ItemsOk(items: Items) {
    && Space(items.before) && ValueOk(items.value) && Space(items.after)
    && (items.MoreItems? ==> ItemsOk(items.rest))
  }

  predicate MembersOk(m: Members) {
    && Space(m.before) && BodyOk(m.key) && Space(m.colonBefore) && Space(m.colonAfter)
    && ValueOk(m.value) && Space(m.after)
    && (m.MoreMembers? ==> MembersOk(m.rest))
  }

  function Show(v: Value): string {
    match v
    case Scalar(s) => s
    case Text(s) => Quoted(s)
    case EmptyArray(s) => "[" + (s + "]")
    case Array(items) => "[" + (ShowItems(items) + "]")
    case EmptyObject(s) => "{" + (s + "}")
    case Object(members) => "{" + (ShowMembers(members) + "}")
  }

  function Quoted(body: string): string {
    "\"" + (body + "\"")
  }

  function ShowItems(items: Items): string {
    items.before + (Show(items.value) + (items.after + if items.MoreItems? then "," + ShowItems(items.rest) else ""))
  }

  function ShowMembers(m: Members): string {
    m.before + (Quoted(m.key) + (m.colonBefore + (":" + (m.colonAfter + (Show(m.value) + (m.after
      + if m.MoreMembers? then "," + ShowMembers(m.rest) else ""))))))
  }

  function Max(a: nat, b: nat): nat {
    if a >= b then a else b
  }

  /** How deeply containers nest in a value. */
  function Depth(v: Value): nat {
    match v
    case Scalar(_) => 0
    case Text(_) => 0
    case EmptyArray(_) => 1
    case Array(items) => 1 + ItemsDepth(items)
    case EmptyObject(_) => 1
    case Object(members) => 1 + MembersDepth(members)
  }

  function ItemsDepth(items: Items): nat {
    Max(Depth(items.value), if items.MoreItems? then ItemsDepth(items.rest) else 0)
  }

  function MembersDepth(m: Members): nat {
    Max(Depth(m.value), if m.MoreMembers? then MembersDepth(m.rest) else 0)
  }

  // ---------------------------------------------------------------------
  // The scan
  // ---------------------------------------------------------------------

  datatype Scan = Scan(depth: nat, peak: nat, inString: bool, escaped: bool)

  function Step(s: Scan, c: char): Scan {
    if s.inString then
      if s.escaped then s.(escaped := false)
      else if c == '\\' then s.(escaped := true)
      else if c == '"' then s.(inString := false)
      else s
    else if c == '"' then s.(inString := true)
    else if c in "[{" then s.(depth := s.depth + 1, peak := Max(s.peak, s.depth + 1))
    else if c in "]}" then s.(depth := if s.depth > 0 then s.depth - 1 else 0)
    else s
  }

  function Run(s: Scan, text: string): Scan
    decreases |text|
  {
    if text == "" then s else Run(Step(s, text[0]), text[1..])
  }

  const START := Scan(0, 0, false, false)

  /** Between tokens: not inside a string. */
  predicate Between(s: Scan) {
    !s.inString && !s.escaped && s.depth <= s.peak
  }

  /** The scan stopped with the peak raised to cover `depth` more levels. */
  function Seen(s: Scan, depth: nat): Scan {
    s.(peak := Max(s.peak, s.depth + depth))
  }

  lemma {:induction false} RunAppend(s: Scan, a: string, b: string)
    ensures Run(s, a + b) == Run(Run(s, a), b)
    decreases |a|
  {
    if a == "" {
      assert a + b == b;
    } else {
      assert (a + b)[1..] == a[1..] + b;
      RunAppend(Step(s, a[0]), a[1..], b);
    }
  }

  lemma RunOne(s: Scan, c: char)
    ensures Run(s, [c]) == Step(s, c)
  {
    assert [c][1..] == "";
    assert Run(Step(s, c), "") == Step(s, c);
  }

  /** Characters that are neither quotes nor brackets change nothing between tokens. */
  lemma {:induction false} RunPlain(s: Scan, text: string)
    requires Between(s) && forall i :: 0 <= i < |text| ==> text[i] !in "\"[]{}"
    ensures Run(s, text) == s
  {
    if text != "" {
      assert Step(s, text[0]) == s;
      RunPlain(s, text[1..]);
    }
  }

  lemma SpaceIsPlain(s: string)
    requires Space(s)
    ensures forall i :: 0 <= i < |s| ==> s[i] !in "\"[]{}"
  {
  }

  lemma ScalarIsPlain(s: string)
    requires ScalarOk(s)
    ensures forall i :: 0 <= i < |s| ==> s[i] !in "\"[]{}"
  {
  }

  /** Inside a string the scan passes over every escape and stays inside. */
  lemma {:induction false} RunBody(s: Scan, body: string)
    requires s.inString && !s.escaped && BodyOk(body)
    ensures Run(s, body) == s
  {
    if body != "" {
      if body[0] != '\\' {
        RunBody(s, body[1..]);
      } else if body[1] in "\"\\/bfnrt" {
        RunEscape(s, body);
        RunBody(s, body[2..]);
      } else {
        RunEscape(s, body);
        RunHex(s, body[2..]);
        assert body[2..][4..] == body[6..];
        RunBody(s, body[6..]);
      }
    }
  }

  lemma RunEscape(s: Scan, body: string)
    requires s.inString && !s.escaped && |body| >= 2 && body[0] == '\\'
    ensures Run(s, body) == Run(s, body[2..])
  {
    var once := Step(s, body[0]);
    assert Step(once, body[1..][0]) == s;
    assert body[1..][1..] == body[2..];
  }

  lemma RunHex(s: Scan, text: string)
    requires s.inString && !s.escaped && |text| >= 4
    requires Hex(text[0]) && Hex(text[1]) && Hex(text[2]) && Hex(text[3])
    ensures Run(s, text) == Run(s, text[4..])
  {
    RunPlainChar(s, text);
    RunPlainChar(s, text[1..]);
    RunPlainChar(s, text[2..]);
    RunPlainChar(s, text[3..]);
    assert text[1..][1..] == text[2..] && text[2..][1..] == text[3..] && text[3..][1..] == text[4..];
  }

  lemma RunPlainChar(s: Scan, text: string)
    requires s.inString && !s.escaped && text != "" && text[0] != '\\' && text[0] != '"'
    ensures Run(s, text) == Run(s, text[1..])
  {
  }

  lemma RunQuoted(s: Scan, body: string)
    requires Between(s) && BodyOk(body)
    ensures Run(s, Quoted(body)) == s
  {
    var inside := s.(inString := true);
    RunAppend(s, "\"", body + "\"");
    RunOne(s, '"');
    RunAppend(inside, body, "\"");
    RunBody(inside, body);
    RunOne(inside, '"');
  }

  /** A bracketed text raises the peak by one level over what is inside. */
  lemma RunBracketed(s: Scan, left: char, inner: string, right: char, depth: nat)
    requires Between(s) && left in "[{" && right in "]}"
    requires forall t :: Between(t) ==> Run(t, inner) == Seen(t, depth)
    ensures Run(s, [left] + (inner + [right])) == Seen(s, 1 + depth)
  {
    var opening := Step(s, left);
    RunAppend(s, [left], inner + [right]);
    RunOne(s, left);
    RunAppend(opening, inner, [right]);
    RunOne(Seen(opening, depth), right);
  }

  /** Over any well-formed value, wherever it starts, the scan comes back to its
      depth having seen exactly the value's nesting. */
  lemma {:induction false} RunValue(s: Scan, v: Value)
    requires Between(s) && ValueOk(v)
    ensures Run(s, Show(v)) == Seen(s, Depth(v))
    decreases v
  {
    match v
    case Scalar(text) =>
      ScalarIsPlain(text);
      RunPlain(s, text);
    case Text(body) =>
      RunQuoted(s, body);
    case EmptyArray(space) =>
      RunSpaces(space);
      RunBracketed(s, '[', space, ']', 0);
    case EmptyObject(space) =>
      RunSpaces(space);
      RunBracketed(s, '{', space, '}', 0);
    case Array(items) =>
      forall t | Between(t) ensures Run(t, ShowItems(items)) == Seen(t, ItemsDepth(items)) {
        RunItems(t, items);
      }
      RunBracketed(s, '[', ShowItems(items), ']', ItemsDepth(items));
    case Object(members) =>
      forall t | Between(t) ensures Run(t, ShowMembers(members)) == Seen(t, MembersDepth(members)) {
        RunMembers(t, members);
      }
      RunBracketed(s, '{', ShowMembers(members), '}', MembersDepth(members));
  }

  lemma RunSpaces(space: string)
    requires Space(space)
    ensures forall t :: Between(t) ==> Run(t, space) == Seen(t, 0)
  {
    forall t | Between(t) ensures Run(t, space) == Seen(t, 0) {
      RunSpace(t, space);
    }
  }

  lemma RunSpace(s: Scan, space: string)
    requires Between(s) && Space(space)
    ensures Run(s, space) == s
  {
    SpaceIsPlain(space);
    RunPlain(s, space);
  }

  lemma {:induction false} RunItems(s: Scan, items: Items)
    requires Between(s) && ItemsOk(items)
    ensures Run(s, ShowItems(items)) == Seen(s, ItemsDepth(items))
    decreases items
  {
    var seen := Seen(s, Depth(items.value));
    RunSpace(s, items.before);
    RunValue(s, items.value);
    RunSpace(seen, items.after);
    var tail := if items.MoreItems? then "," + ShowItems(items.rest) else "";
    RunAppend(s, items.before, Show(items.value) + (items.after + tail));
    RunAppend(s, Show(items.value), items.after + tail);
    RunAppend(seen, items.after, tail);
    if items.MoreItems? {
      RunItems(seen, items.rest);
      RunAppend(seen, ",", ShowItems(items.rest));
      RunOne(seen, ',');
    }
  }

  lemma {:induction false} RunMembers(s: Scan, m: Members)
    requires Between(s) && MembersOk(m)
    ensures Run(s, ShowMembers(m)) == Seen(s, MembersDepth(m))
    decreases m
  {
    var seen := Seen(s, Depth(m.value));
    var tail := if m.MoreMembers? then "," + ShowMembers(m.rest) else "";
    RunKey(s, m, Show(m.value) + (m.after + tail));
    RunValue(s, m.value);
    RunSpace(seen, m.after);
    RunAppend(s, Show(m.value), m.after + tail);
    RunAppend(seen, m.after, tail);
    if m.MoreMembers? {
      RunMembers(seen, m.rest);
      RunAppend(seen, ",", ShowMembers(m.rest));
      RunOne(seen, ',');
    }
  }

  /** A member's key and colon change nothing. */
  lemma RunKey(s: Scan, m: Members, text: string)
    requires Between(s) && MembersOk(m)
    ensures Run(s, m.before + (Quoted(m.key) + (m.colonBefore + (":" + (m.colonAfter + text))))) == Run(s, text)
  {
    RunSpace(s, m.before);
    RunQuoted(s, m.key);
    RunSpace(s, m.colonBefore);
    RunOne(s, ':');
    RunSpace(s, m.colonAfter);
    RunAppend(s, m.before, Quoted(m.key) + (m.colonBefore + (":" + (m.colonAfter + text))));
    RunAppend(s, Quoted(m.key), m.colonBefore + (":" + (m.colonAfter + text)));
    RunAppend(s, m.colonBefore, ":" + (m.colonAfter + text));
    RunAppend(s, ":", m.colonAfter + text);
    RunAppend(s, m.colonAfter, text);
  }

  // ---------------------------------------------------------------------
  // The guard
  // ---------------------------------------------------------------------

  lemma {:induction false} PeakGrows(s: Scan, text: string)
    ensures Run(s, text).peak >= s.peak
    decreases |text|
  {
    if text != "" {
      PeakGrows(Step(s, text[0]), text[1..]);
    }
  }

  lemma RunPrefix(text: string, i: nat)
    requires i <= |text|
    ensures Run(START, text) == Run(Run(START, text[..i]), text[i..])
    ensures i < |text| ==> Run(START, text[..i + 1]) == Step(Run(START, text[..i]), text[i])
  {
    assert text == text[..i] + text[i..];
    RunAppend(START, text[..i], text[i..]);
    if i < |text| {
      assert text[..i + 1] == text[..i] + [text[i]];
      RunAppend(START, text[..i], [text[i]]);
      RunOne(Run(START, text[..i]), text[i]);
    }
  }

  /** Scan a text once, stopping as soon as it nests too deeply. */
  method TooDeep(text: string) returns (refused: bool)
    ensures refused <==> Run(START, text).peak > MAX_DEPTH
  {
    var depth: nat, inString, escaped := 0, false, false;
    var i := 0;
    while i < |text|
      invariant i <= |text|
      invariant var s := Run(START, text[..i]);
                s.depth == depth && s.inString == inString && s.escaped == escaped && s.peak <= MAX_DEPTH
    {
      var c := text[i];
      RunPrefix(text, i);
      RunPrefix(text, i + 1);
      i := i + 1;
      if inString {
        if escaped {
          escaped := false;
        } else if c == '\\' {
          escaped := true;
        } else if c == '"' {
          inString := false;
        }
        continue;
      }
      if c == '"' {
        inString := true;
      } else if c in "[{" {
        depth := depth + 1;
        if depth > MAX_DEPTH {
          PeakGrows(Run(START, text[..i]), text[i..]);
          return true;
        }
      } else if c in "]}" {
        depth := if depth > 0 then depth - 1 else 0;
      }
    }
    assert text[..i] == text;
    return false;
  }

  /** For every well-formed JSON text, escapes and white space included, the
      guard refuses exactly the values nested more than 64 containers deep. */
  method GuardsExactly(before: string, v: Value, after: string) returns (refused: bool)
    requires Space(before) && ValueOk(v) && Space(after)
    ensures refused <==> Depth(v) > MAX_DEPTH
  {
    refused := TooDeep(before + (Show(v) + after));
    PeakIsDepth(before, v, after);
  }

  lemma PeakIsDepth(before: string, v: Value, after: string)
    requires Space(before) && ValueOk(v) && Space(after)
    ensures Run(START, before + (Show(v) + after)).peak == Depth(v)
  {
    RunAppend(START, before, Show(v) + after);
    RunSpace(START, before);
    RunAppend(START, Show(v), after);
    RunValue(START, v);
    RunSpace(Seen(START, Depth(v)), after);
  }
}
