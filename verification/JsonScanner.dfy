/**
 Finding a JSON object inside model output: the string-aware brace scan, and the printer it
 undoes. Text is printed from concrete syntax trees, so every spelling RFC 8259 allows (any
 white space, any escape) is some tree's text.
 */
module JsonScanner {
  import opened Wrappers

  // ---- RFC 8259, sections 2 to 7 --------------------------------------------------------------

  predicate IsJsonSpace(c: char) { c == ' ' || c == '\t' || c == '\n' || c == '\r' }

  predicate AllJsonSpace(s: string) { forall i :: 0 <= i < |s| ==> IsJsonSpace(s[i]) }

  /** White space around a token. */
  type Space = s: string | AllJsonSpace(s)

  predicate IsHex(c: char) { '0' <= c <= '9' || 'a' <= c <= 'f' || 'A' <= c <= 'F' }

  /** One character of a string as written: itself, a two-character escape, or \uXXXX. */
  datatype StringItem =
    | Plain(c: char)
    | Escape(e: char)
    | Unicode(h: string)
  {
    predicate Valid() {
      match this
      case Plain(c) => c != '"' && c != '\\' && c >= ' '
      case Escape(e) => e in ['"', '\\', '/', 'b', 'f', 'n', 'r', 't']
      case Unicode(h) => |h| == 4 && forall i :: 0 <= i < 4 ==> IsHex(h[i])
    }

    function Text(): string {
      match this
      case Plain(c) => [c]
      case Escape(e) => ['\\', e]
      case Unicode(h) => ['\\', 'u'] + h
    }
  }

  predicate AreDigits(s: string) { s != [] && forall i :: 0 <= i < |s| ==> '0' <= s[i] <= '9' }

  /** Section 6: a number, in its parts. */
  datatype Number = Number(minus: bool, whole: string, frac: Option<string>, exp: Option<Exponent>)
  {
    predicate Valid() {
      && AreDigits(whole) && (whole[0] == '0' ==> |whole| == 1)
      && (frac.Some? ==> AreDigits(frac.value))
      && (exp.Some? ==> exp.value.e in ['e', 'E'] && exp.value.sign in ["", "+", "-"] && AreDigits(exp.value.digits))
    }

    function Text(): string {
      (if minus then ['-'] else []) + whole + (if frac.Some? then ['.'] + frac.value else [])
      + (if exp.Some? then [exp.value.e] + exp.value.sign + exp.value.digits else [])
    }
  }
  datatype Exponent = Exponent(e: char, sign: string, digits: string)

  const LITERAL_NAMES := ["true", "false", "null"]

  datatype Value =
    | Literal(name: string)
    | Numeral(number: Number)
    | Text(items: seq<StringItem>)
    | Array(blank: Space, elements: Elements)
    | Object(blank: Space, members: Members)
  datatype Elements = NoElements | Element(before: Space, value: Value, after: Space, rest: Elements)
  datatype Members = NoMembers | Member(before: Space, key: seq<StringItem>, colonBefore: Space, colonAfter: Space, value: Value, after: Space, rest: Members)

  predicate ValidItems(items: seq<StringItem>) { forall i :: 0 <= i < |items| ==> items[i].Valid() }

  predicate ValidValue(v: Value) {
    match v
    case Literal(name) => name in LITERAL_NAMES
    case Numeral(number) => number.Valid()
    case Text(items) => ValidItems(items)
    case Array(_, elements) => ValidElements(elements)
    case Object(_, members) => ValidMembers(members)
  }

  predicate ValidElements(es: Elements) {
    es.Element? ==> ValidValue(es.value) && ValidElements(es.rest)
  }

  predicate ValidMembers(ms: Members) {
    ms.Member? ==> ValidItems(ms.key) && ValidValue(ms.value) && ValidMembers(ms.rest)
  }

  function ItemsText(items: seq<StringItem>): string {
    if items == [] then [] else items[0].Text() + ItemsText(items[1..])
  }

  function Quoted(items: seq<StringItem>): string {
    ['"'] + ItemsText(items) + ['"']
  }

  function Print(v: Value): string {
    match v
    case Literal(name) => name
    case Numeral(number) => number.Text()
    case Text(items) => Quoted(items)
    case Array(blank, elements) => ['['] + blank + ElementsText(elements) + [']']
    case Object(blank, members) => ['{'] + blank + MembersText(members) + ['}']
  }

  function ElementsText(es: Elements): string {
    match es
    case NoElements => []
    case Element(before, value, after, rest) =>
      before + Print(value) + after + (if rest.NoElements? then [] else [','] + ElementsText(rest))
  }

  function MembersText(ms: Members): string {
    match ms
    case NoMembers => []
    case Member(before, key, colonBefore, colonAfter, value, after, rest) =>
      before + Quoted(key) + colonBefore + [':'] + colonAfter + Print(value) + after
      + (if rest.NoMembers? then [] else [','] + MembersText(rest))
  }

  // ---- The scan -------------------------------------------------------------------------------

  /** Where the scan is: how many braces are open, and whether it is inside a string. */
  datatype Scan = Scan(depth: int, inString: bool)

  /** The index of the brace that closes depth 0, reading `src` from `i`; None when none does. */
  function ClosingFrom(src: string, i: nat, at: Scan): (r: Option<nat>)
    ensures r.Some? ==> i <= r.value < |src| && src[r.value] == '}'
    decreases |src| - i
  {
    if i >= |src| then None
    else if at.inString then
      if src[i] == '\\' then ClosingFrom(src, i + 2, at)
      else if src[i] == '"' then ClosingFrom(src, i + 1, at.(inString := false))
      else ClosingFrom(src, i + 1, at)
    else if src[i] == '"' then ClosingFrom(src, i + 1, at.(inString := true))
    else if src[i] == '{' then ClosingFrom(src, i + 1, at.(depth := at.depth + 1))
    else if src[i] == '}' then
      if at.depth == 1 then Some(i) else ClosingFrom(src, i + 1, at.(depth := at.depth - 1))
    else ClosingFrom(src, i + 1, at)
  }

  /** `src` reads `t` at `i`. */
  predicate At(src: string, i: nat, t: string) {
    i + |t| <= |src| && src[i..i + |t|] == t
  }

  lemma AtConcat(src: string, i: nat, a: string, b: string)
    requires At(src, i, a + b)
    ensures At(src, i, a) && At(src, i + |a|, b)
  {
    assert src[i..i + |a|] == (a + b)[..|a|] == a;
    assert src[i + |a|..i + |a| + |b|] == (a + b)[|a|..] == b;
  }

  /** Text that, met outside a string with a brace open, leaves the scan as it was. */
  ghost predicate Skips(t: string) {
    forall src: string, i: nat, depth: int | depth >= 1 && At(src, i, t) ::
      ClosingFrom(src, i, Scan(depth, false)) == ClosingFrom(src, i + |t|, Scan(depth, false))
  }

  lemma SkipsConcat(a: string, b: string)
    requires Skips(a) && Skips(b)
    ensures Skips(a + b)
  {
    forall src: string, i: nat, depth: int | depth >= 1 && At(src, i, a + b)
      ensures ClosingFrom(src, i, Scan(depth, false)) == ClosingFrom(src, i + |a + b|, Scan(depth, false))
    {
      AtConcat(src, i, a, b);
    }
  }

  /** Characters that are neither quotes nor braces are skipped. */
  lemma {:induction false} SkipsNeutral(t: string)
    requires forall k :: 0 <= k < |t| ==> t[k] !in ['"', '{', '}']
    ensures Skips(t)
  {
    if t == [] {
    } else {
      assert t == [t[0]] + t[1..];
      SkipsOne(t[0]);
      SkipsNeutral(t[1..]);
      SkipsConcat([t[0]], t[1..]);
    }
  }

  lemma SkipsOne(c: char)
    requires c !in ['"', '{', '}']
    ensures Skips([c])
  {
    forall src: string, i: nat, depth: int | depth >= 1 && At(src, i, [c])
      ensures ClosingFrom(src, i, Scan(depth, false)) == ClosingFrom(src, i + 1, Scan(depth, false))
    {
      assert src[i] == src[i..i + 1][0] == c;
    }
  }

  /** Text that, met inside a string with a brace open, leaves the scan as it was. */
  ghost predicate SkipsInside(t: string) {
    forall src: string, i: nat, depth: int | depth >= 1 && At(src, i, t) ::
      ClosingFrom(src, i, Scan(depth, true)) == ClosingFrom(src, i + |t|, Scan(depth, true))
  }

  lemma SkipsInsideConcat(a: string, b: string)
    requires SkipsInside(a) && SkipsInside(b)
    ensures SkipsInside(a + b)
  {
    forall src: string, i: nat, depth: int | depth >= 1 && At(src, i, a + b)
      ensures ClosingFrom(src, i, Scan(depth, true)) == ClosingFrom(src, i + |a + b|, Scan(depth, true))
    {
      AtConcat(src, i, a, b);
    }
  }

  lemma {:induction false} SkipsItems(items: seq<StringItem>)
    requires ValidItems(items)
    ensures SkipsInside(ItemsText(items))
  {
    if items == [] {
    } else {
      var t := items[0].Text();
      forall src: string, i: nat, depth: int | depth >= 1 && At(src, i, t)
        ensures ClosingFrom(src, i, Scan(depth, true)) == ClosingFrom(src, i + |t|, Scan(depth, true))
      {
        ScanItem(src, i, items[0], depth);
      }
      SkipsItems(items[1..]);
      SkipsInsideConcat(t, ItemsText(items[1..]));
    }
  }

  lemma ScanItem(src: string, i: nat, item: StringItem, depth: int)
    requires item.Valid() && At(src, i, item.Text())
    ensures ClosingFrom(src, i, Scan(depth, true)) == ClosingFrom(src, i + |item.Text()|, Scan(depth, true))
  {
    var t := item.Text();
    forall k | 0 <= k < |t|
      ensures src[i + k] == t[k]
    {
      assert src[i..i + |t|][k] == t[k];
    }
    match item
    case Plain(c) =>
      assert src[i] == t[0];
    case Escape(e) =>
      assert src[i] == t[0];
    case Unicode(h) =>
      assert src[i] == t[0];
      forall k | i + 2 <= k < i + 6
        ensures src[k] != '"' && src[k] != '\\'
      {
        assert src[i + (k - i)] == t[k - i] == h[k - i - 2] && IsHex(h[k - i - 2]);
      }
      FourInString(src, i + 2, depth);
  }

  lemma FourInString(src: string, i: nat, depth: int)
    requires i + 4 <= |src| && forall k :: i <= k < i + 4 ==> src[k] != '"' && src[k] != '\\'
    ensures ClosingFrom(src, i, Scan(depth, true)) == ClosingFrom(src, i + 4, Scan(depth, true))
  {
    StepInString(src, i, depth);
    StepInString(src, i + 1, depth);
    StepInString(src, i + 2, depth);
    StepInString(src, i + 3, depth);
  }

  lemma StepInString(src: string, i: nat, depth: int)
    requires i < |src| && src[i] != '"' && src[i] != '\\'
    ensures ClosingFrom(src, i, Scan(depth, true)) == ClosingFrom(src, i + 1, Scan(depth, true))
  {
  }

  lemma QuotedParts(src: string, i: nat, body: string)
    requires At(src, i, ['"'] + body + ['"'])
    ensures src[i] == '"' && At(src, i + 1, body) && src[i + 1 + |body|] == '"'
  {
    AtConcat(src, i, ['"'] + body, ['"']);
    AtConcat(src, i, ['"'], body);
    assert src[i] == src[i..i + 1][0];
    var end := i + 1 + |body|;
    assert src[end] == src[end..end + 1][0];
  }

  lemma ClosesString(src: string, i: nat, depth: int)
    requires i < |src| && src[i] == '"'
    ensures ClosingFrom(src, i, Scan(depth, true)) == ClosingFrom(src, i + 1, Scan(depth, false))
  {
  }

  /** A whole string is skipped: the braces, escaped quotes and backslashes in it are not seen. */
  lemma SkipsQuoted(items: seq<StringItem>)
    requires ValidItems(items)
    ensures Skips(Quoted(items))
  {
    var body := ItemsText(items);
    SkipsItems(items);
    forall src: string, i: nat, depth: int | depth >= 1 && At(src, i, Quoted(items))
      ensures ClosingFrom(src, i, Scan(depth, false)) == ClosingFrom(src, i + |Quoted(items)|, Scan(depth, false))
    {
      QuotedParts(src, i, body);
      ClosesString(src, i + 1 + |body|, depth);
    }
  }

  /** A pair of braces around skipped text opens one level and comes back to the one it met. */
  lemma SkipsBraced(blank: Space, body: string)
    requires Skips(body)
    ensures Skips(['{'] + blank + body + ['}'])
  {
    var inner := blank + body;
    SkipsNeutral(blank);
    SkipsConcat(blank, body);
    var t := ['{'] + inner + ['}'];
    assert t == ['{'] + blank + body + ['}'];
    forall src: string, i: nat, depth: int | depth >= 1 && At(src, i, t)
      ensures ClosingFrom(src, i, Scan(depth, false)) == ClosingFrom(src, i + |t|, Scan(depth, false))
    {
      BracedParts(src, i, inner);
      assert ClosingFrom(src, i + 1, Scan(depth + 1, false)) == ClosingFrom(src, i + 1 + |inner|, Scan(depth + 1, false));
    }
  }

  lemma BracedParts(src: string, i: nat, body: string)
    requires At(src, i, ['{'] + body + ['}'])
    ensures src[i] == '{' && At(src, i + 1, body) && src[i + 1 + |body|] == '}'
  {
    AtConcat(src, i, ['{'] + body, ['}']);
    AtConcat(src, i, ['{'], body);
    assert src[i] == src[i..i + 1][0];
    var end := i + 1 + |body|;
    assert src[end] == src[end..end + 1][0];
  }

  lemma NumbersAreNeutral(n: Number)
    requires n.Valid()
    ensures forall k :: 0 <= k < |n.Text()| ==> n.Text()[k] !in ['"', '{', '}']
  {
    var sign := if n.minus then ['-'] else [];
    var frac := if n.frac.Some? then ['.'] + n.frac.value else [];
    var exp := if n.exp.Some? then [n.exp.value.e] + n.exp.value.sign + n.exp.value.digits else [];
    assert IsNeutral(sign) && IsNeutral(n.whole) && IsNeutral(frac) && IsNeutral(exp);
    assert n.Text() == sign + n.whole + frac + exp;
  }

  predicate IsNeutral(t: string) { forall k :: 0 <= k < |t| ==> t[k] !in ['"', '{', '}'] }

  lemma {:induction false} SkipsValue(v: Value)
    requires ValidValue(v)
    ensures Skips(Print(v))
    decreases v
  {
    match v
    case Literal(name) => SkipsNeutral(name);
    case Numeral(number) =>
      NumbersAreNeutral(number);
      SkipsNeutral(number.Text());
    case Text(items) => SkipsQuoted(items);
    case Array(blank, elements) =>
      SkipsElements(elements);
      SkipsBracketed(blank, ElementsText(elements));
    case Object(blank, members) =>
      SkipsMembers(members);
      SkipsBraced(blank, MembersText(members));
  }

  lemma SkipsBracketed(blank: Space, body: string)
    requires Skips(body)
    ensures Skips(['['] + blank + body + [']'])
  {
    SkipsNeutral(['['] + blank);
    SkipsNeutral([']']);
    SkipsConcat(['['] + blank, body);
    SkipsConcat(['['] + blank + body, [']']);
  }

  lemma {:induction false} SkipsElements(es: Elements)
    requires ValidElements(es)
    ensures Skips(ElementsText(es))
    decreases es
  {
    match es
    case NoElements =>
    case Element(before, value, after, rest) =>
      SkipsValue(value);
      SkipsElements(rest);
      SkipsNeutral(before);
      SkipsNeutral(after);
      SkipsNeutral([',']);
      SkipsConcat([','], ElementsText(rest));
      SkipsConcat(before, Print(value));
      SkipsConcat(before + Print(value), after);
      SkipsConcat(before + Print(value) + after, [','] + ElementsText(rest));
      assert before + Print(value) + after + [] == before + Print(value) + after;
  }

  lemma {:induction false} SkipsMembers(ms: Members)
    requires ValidMembers(ms)
    ensures Skips(MembersText(ms))
    decreases ms
  {
    match ms
    case NoMembers =>
    case Member(before, key, colonBefore, colonAfter, value, after, rest) =>
      SkipsValue(value);
      SkipsMembers(rest);
      SkipsQuoted(key);
      SkipsNeutral(before);
      SkipsNeutral(colonBefore + [':'] + colonAfter);
      SkipsNeutral(after);
      SkipsNeutral([',']);
      var head := before + Quoted(key);
      var pair := head + (colonBefore + [':'] + colonAfter);
      SkipsConcat(before, Quoted(key));
      SkipsConcat(head, colonBefore + [':'] + colonAfter);
      SkipsConcat(pair, Print(value));
      SkipsConcat(pair + Print(value), after);
      SkipsConcat([','], MembersText(rest));
      SkipsConcat(pair + Print(value) + after, [','] + MembersText(rest));
      assert pair == before + Quoted(key) + colonBefore + [':'] + colonAfter;
      assert pair + Print(value) + after + [] == pair + Print(value) + after;
  }

  /**
   The scan undoes the printer: started at a printed object it stops exactly at that object's
   closing brace, whatever its strings hold, however deep it nests and whatever text follows.
   */
  lemma ScanStopsAtClosingBrace(src: string, start: nat, o: Value)
    requires o.Object? && ValidValue(o) && At(src, start, Print(o))
    ensures ClosingFrom(src, start, Scan(0, false)) == Some(start + |Print(o)| - 1)
  {
    var body := o.blank + MembersText(o.members);
    SkipsMembers(o.members);
    SkipsNeutral(o.blank);
    SkipsConcat(o.blank, MembersText(o.members));
    assert Print(o) == ['{'] + body + ['}'];
    StopsAfter(src, start, body);
  }

  lemma StopsAfter(src: string, start: nat, body: string)
    requires Skips(body) && At(src, start, ['{'] + body + ['}'])
    ensures ClosingFrom(src, start, Scan(0, false)) == Some(start + 1 + |body|)
  {
    BracedParts(src, start, body);
    assert ClosingFrom(src, start + 1, Scan(1, false)) == ClosingFrom(src, start + 1 + |body|, Scan(1, false));
  }

  // ---- The extraction -------------------------------------------------------------------------

  const SCAN_CAP: nat := 200_000
  const SCAN_MAX_STARTS: nat := 50

  /** What String.prototype.trim removes; JSON's white space is part of it. */
  predicate IsTrimmed(c: char) {
    || IsJsonSpace(c) || c == '\U{000B}' || c == '\U{000C}' || c == '\U{00A0}' || c == '\U{1680}'
    || '\U{2000}' <= c <= '\U{200A}' || c == '\U{2028}' || c == '\U{2029}' || c == '\U{202F}'
    || c == '\U{205F}' || c == '\U{3000}' || c == '\U{FEFF}'
  }

  function Trim(s: string): string {
    if s != [] && IsTrimmed(s[0]) then Trim(s[1..])
    else if s != [] && IsTrimmed(s[|s| - 1]) then Trim(s[..|s| - 1])
    else s
  }

  /** The first '{' of `src` at or after `i`, or its length. */
  function NextBrace(src: string, i: nat): (k: nat)
    requires i <= |src|
    ensures i <= k <= |src| && (k < |src| ==> src[k] == '{')
    ensures forall j :: i <= j < k ==> src[j] != '{'
    decreases |src| - i
  {
    if i == |src| || src[i] == '{' then i else NextBrace(src, i + 1)
  }

  /** The first of `texts` that, trimmed, parses to an object. */
  function FirstParsed<V>(texts: seq<string>, parse: string -> Option<V>): Option<V> {
    if texts == [] then None
    else
      var first := parse(Trim(texts[0]));
      if first.Some? then first else FirstParsed(texts[1..], parse)
  }

  /** The first balanced object that parses, trying `starts` opening braces: `start` and those after it. */
  function FirstBalanced<V>(src: string, start: nat, starts: nat, parse: string -> Option<V>): Option<V>
    requires start <= |src|
    decreases starts
  {
    if starts == 0 || start == |src| then None
    else
      var parsed := TryParse(src, start, ClosingFrom(src, start, Scan(0, false)), parse);
      if parsed.Some? then parsed else FirstBalanced(src, NextBrace(src, start + 1), starts - 1, parse)
  }

  function Capped(output: string): string {
    if |output| > SCAN_CAP then output[..SCAN_CAP] else output
  }

  /** `parse` gives the object a text holds, None for anything else; `fences` are the fenced texts in order. */
  function Extracted<V>(output: string, fences: seq<string>, parse: string -> Option<V>): Option<V> {
    var src := Capped(output);
    var early := FirstParsed([src] + fences, parse);
    if early.Some? then early else FirstBalanced(src, NextBrace(src, 0), SCAN_MAX_STARTS, parse)
  }

  method ClosingBrace(src: string, start: nat) returns (end: Option<nat>)
    requires start <= |src|
    ensures end == ClosingFrom(src, start, Scan(0, false))
  {
    var depth, inString, i := 0, false, start;
    while i < |src|
      invariant start <= i
      invariant ClosingFrom(src, start, Scan(0, false)) == ClosingFrom(src, i, Scan(depth, inString))
    {
      var ch := src[i];
      if inString {
        if ch == '\\' {
          i := i + 1;
        } else if ch == '"' {
          inString := false;
        }
      } else if ch == '"' {
        inString := true;
      } else if ch == '{' {
        depth := depth + 1;
      } else if ch == '}' {
        depth := depth - 1;
        if depth == 0 {
          return Some(i);
        }
      }
      i := i + 1;
    }
    end := None;
  }

  method ExtractJsonObject<V>(output: string, fences: seq<string>, parse: string -> Option<V>) returns (r: Option<V>)
    ensures r == Extracted(output, fences, parse)
  {
    var src := Capped(output);
    r := parse(Trim(src));
    if r.Some? {
      return;
    }
    for k := 0 to |fences|
      invariant FirstParsed([src] + fences, parse) == FirstParsed(fences[k..], parse)
    {
      r := parse(Trim(fences[k]));
      if r.Some? {
        return;
      }
    }
    r := BalancedObject(src, SCAN_MAX_STARTS, parse);
  }

  method BalancedObject<V>(src: string, maxStarts: nat, parse: string -> Option<V>) returns (r: Option<V>)
    ensures r == FirstBalanced(src, NextBrace(src, 0), maxStarts, parse)
  {
    var start: nat, starts: nat := NextBrace(src, 0), 0;
    while start < |src| && starts < maxStarts
      invariant start <= |src| && starts <= maxStarts
      invariant FirstBalanced(src, NextBrace(src, 0), maxStarts, parse) == FirstBalanced(src, start, maxStarts - starts, parse)
      decreases maxStarts - starts
    {
      var end := ClosingBrace(src, start);
      r := TryParse(src, start, end, parse);
      if r.Some? {
        return;
      }
      start, starts := NextBrace(src, start + 1), starts + 1;
    }
    r := None;
  }

  function TryParse<V>(src: string, start: nat, end: Option<nat>, parse: string -> Option<V>): Option<V>
    requires end.Some? ==> start <= end.value < |src|
  {
    if end.Some? then parse(src[start..end.value + 1]) else None
  }

  // ---- Which attempt is taken -----------------------------------------------------------------

  /** The opening braces before `i`. */
  function BracesBefore(src: string, i: nat): nat
    requires i <= |src|
  {
    if i == 0 then 0 else BracesBefore(src, i - 1) + if src[i - 1] == '{' then 1 else 0
  }

  /** One of the first `n` opening braces is at `p`. */
  predicate IsStart(src: string, p: nat, n: nat) { p < |src| && src[p] == '{' && BracesBefore(src, p) < n }

  /** What the text from the brace at `p` to the one that balances it parses to. */
  function BalancedAt<V>(src: string, p: nat, parse: string -> Option<V>): Option<V>
    requires p < |src|
  {
    match ClosingFrom(src, p, Scan(0, false))
    case None => None
    case Some(end) => parse(src[p..end + 1])
  }

  lemma {:induction false} NoBracesBetween(src: string, i: nat, k: nat)
    requires i <= k <= |src| && forall j :: i <= j < k ==> src[j] != '{'
    ensures BracesBefore(src, k) == BracesBefore(src, i)
    decreases k - i
  {
    if i < k {
      NoBracesBetween(src, i, k - 1);
    }
  }

  lemma {:induction false} BracesGrow(src: string, i: nat, k: nat)
    requires i <= k <= |src|
    ensures BracesBefore(src, i) <= BracesBefore(src, k)
    decreases k - i
  {
    if i < k {
      BracesGrow(src, i, k - 1);
    }
  }

  /** The first of the starts from `start` on that parses. */
  ghost predicate IsFirstBalanced<V(!new)>(src: string, start: nat, n: nat, r: Option<V>, parse: string -> Option<V>)
    requires start <= |src|
  {
    && (r.None? ==> forall p :: start <= p && IsStart(src, p, n) ==> BalancedAt(src, p, parse).None?)
    && (r.Some? ==> exists p :: IsFirstAt(src, start, p, n, r, parse))
  }

  ghost predicate IsFirstAt<V(!new)>(src: string, start: nat, p: nat, n: nat, r: Option<V>, parse: string -> Option<V>) {
    && start <= p && IsStart(src, p, n) && BalancedAt(src, p, parse) == r
    && forall q :: start <= q < p && IsStart(src, q, n) ==> BalancedAt(src, q, parse).None?
  }

  lemma {:induction false} BalancedFrom<V(!new)>(src: string, start: nat, starts: nat, parse: string -> Option<V>)
    requires start <= |src| && (start < |src| ==> src[start] == '{')
    ensures IsFirstBalanced(src, start, BracesBefore(src, start) + starts, FirstBalanced(src, start, starts, parse), parse)
    decreases starts
  {
    var n := BracesBefore(src, start) + starts;
    forall p: nat | start <= p <= |src|
      ensures BracesBefore(src, p) >= BracesBefore(src, start)
    {
      BracesGrow(src, start, p);
    }
    if starts == 0 || start == |src| {
    } else {
      var next := NextBrace(src, start + 1);
      NoBracesBetween(src, start + 1, next);
      BalancedFrom(src, next, starts - 1, parse);
      OneMoreStart(src, start, next, n, FirstBalanced(src, next, starts - 1, parse), parse);
    }
  }

  lemma OneMoreStart<V(!new)>(src: string, start: nat, next: nat, n: nat, rest: Option<V>, parse: string -> Option<V>)
    requires start < next <= |src| && IsStart(src, start, n) && forall j :: start < j < next ==> src[j] != '{'
    requires IsFirstBalanced(src, next, n, rest, parse)
    ensures var here := BalancedAt(src, start, parse); IsFirstBalanced(src, start, n, if here.Some? then here else rest, parse)
  {
    var here := BalancedAt(src, start, parse);
    if here.Some? {
      assert IsFirstAt(src, start, start, n, here, parse);
    } else if rest.Some? {
      var p: nat :| IsFirstAt(src, next, p, n, rest, parse);
      assert IsFirstAt(src, start, p, n, rest, parse);
    }
  }

  /** None of the texts parses, or `r` is what the first that does parses to. */
  ghost predicate IsFirstText<V(!new)>(texts: seq<string>, r: Option<V>, parse: string -> Option<V>) {
    && (r.None? ==> forall k :: 0 <= k < |texts| ==> parse(Trim(texts[k])).None?)
    && (r.Some? ==> exists k :: 0 <= k < |texts| && parse(Trim(texts[k])) == r && forall j :: 0 <= j < k ==> parse(Trim(texts[j])).None?)
  }

  lemma {:induction false} FirstTextIsTaken<V(!new)>(texts: seq<string>, parse: string -> Option<V>)
    ensures IsFirstText(texts, FirstParsed(texts, parse), parse)
  {
    if texts == [] {
    } else if parse(Trim(texts[0])).None? {
      FirstTextIsTaken(texts[1..], parse);
      var r := FirstParsed(texts[1..], parse);
      forall k | 0 < k < |texts|
        ensures texts[k] == texts[1..][k - 1]
      {
      }
      if r.Some? {
        var k :| 0 <= k < |texts[1..]| && parse(Trim(texts[1..][k])) == r && forall j :: 0 <= j < k ==> parse(Trim(texts[1..][j])).None?;
        assert parse(Trim(texts[k + 1])) == r;
        assert forall j :: 0 <= j < k + 1 ==> parse(Trim(texts[j])).None?;
      }
    }
  }

  /**
   What the extraction returns is what its first attempt to parse gives: the whole text, then each fence,
   then the text each of the first 50 opening braces begins; and nothing only when none of them parses.
   Text past the first 200,000 characters is never looked at.
   */
  lemma FirstAttemptIsTaken<V(!new)>(output: string, fences: seq<string>, parse: string -> Option<V>)
    ensures var src := if |output| <= 200_000 then output else output[..200_000];
            var r := Extracted(output, fences, parse);
            if (exists k :: 0 <= k <= |fences| && parse(Trim(([src] + fences)[k])).Some?)
            then r.Some? && IsFirstText([src] + fences, r, parse)
            else IsFirstBalanced(src, 0, 50, r, parse)
  {
    var src := Capped(output);
    var early := FirstParsed([src] + fences, parse);
    FirstTextIsTaken([src] + fences, parse);
    if early.None? {
      var start := NextBrace(src, 0);
      NoBracesBetween(src, 0, start);
      BalancedFrom(src, start, SCAN_MAX_STARTS, parse);
      FromTheFirstBrace(src, start, SCAN_MAX_STARTS, FirstBalanced(src, start, SCAN_MAX_STARTS, parse), parse);
    }
  }

  lemma FromTheFirstBrace<V(!new)>(src: string, start: nat, n: nat, r: Option<V>, parse: string -> Option<V>)
    requires start <= |src| && (forall j :: 0 <= j < start ==> src[j] != '{') && IsFirstBalanced(src, start, n, r, parse)
    ensures IsFirstBalanced(src, 0, n, r, parse)
  {
    if r.Some? {
      var p: nat :| IsFirstAt(src, start, p, n, r, parse);
      assert IsFirstAt(src, 0, p, n, r, parse);
    }
  }

  /** Trimming takes exactly the characters it may off both ends. */
  lemma {:induction false} TrimTakesBothEnds(s: string) returns (cut: nat)
    ensures cut + |Trim(s)| <= |s| && s[cut..cut + |Trim(s)|] == Trim(s)
    ensures forall i :: 0 <= i < cut || cut + |Trim(s)| <= i < |s| ==> IsTrimmed(s[i])
    ensures Trim(s) != [] ==> !IsTrimmed(Trim(s)[0]) && !IsTrimmed(Trim(s)[|Trim(s)| - 1])
    decreases |s|
  {
    if s != [] && IsTrimmed(s[0]) {
      var rest := s[1..];
      var c := TrimTakesBothEnds(rest);
      cut := c + 1;
      assert rest[c..c + |Trim(s)|] == s[cut..cut + |Trim(s)|];
      assert forall i :: 0 < i < |s| ==> s[i] == rest[i - 1];
    } else if s != [] && IsTrimmed(s[|s| - 1]) {
      var rest := s[..|s| - 1];
      cut := TrimTakesBothEnds(rest);
      assert rest[cut..cut + |Trim(s)|] == s[cut..cut + |Trim(s)|];
      assert forall i :: 0 <= i < |rest| ==> s[i] == rest[i];
    } else {
      cut := 0;
    }
  }

  /** Text that is one JSON object, white space around it allowed: what JSON.parse takes for an object. */
  ghost predicate IsObjectText(t: string, before: Space, o: Value, after: Space) {
    o.Object? && ValidValue(o) && t == before + Print(o) + after
  }

  /** `parse` reads exactly the object texts, and white space around one does not change what it reads. */
  ghost predicate ParsesObjects<V(!new)>(parse: string -> Option<V>) {
    && (forall t: string :: parse(t).Some? ==> exists before, o, after :: IsObjectText(t, before, o, after))
    && (forall t: string, u: string, before, o, after, before', after' ::
          IsObjectText(t, before, o, after) && IsObjectText(u, before', o, after') ==> parse(t).Some? && parse(t) == parse(u))
  }

  /** There are such parsers: one that only says whether a text is an object's. */
  lemma SomeParserParsesObjects()
    ensures exists parse: string -> Option<()> :: ParsesObjects(parse)
  {
    ghost var parse := (t: string) => if IsSomeObject(t) then Some(()) else None;
    forall t: string, before, o, after | IsObjectText(t, before, o, after)
      ensures IsSomeObject(t)
    {
    }
    assert ParsesObjects(parse);
  }

  ghost predicate IsSomeObject(t: string) { exists before, o, after :: IsObjectText(t, before, o, after) }

  /**
   Any object, printed after text with no opening brace and before any text at all, is the
   object the extraction returns, when the cap reaches its end and nothing is fenced.
   */
  lemma ExtractsThePrintedObject<V(!new)>(prefix: string, o: Value, suffix: string, parse: string -> Option<V>)
    requires '{' !in prefix && o.Object? && ValidValue(o)
    requires |prefix| + |Print(o)| <= SCAN_CAP
    requires ParsesObjects(parse)
    ensures parse(Print(o)).Some?
    ensures Extracted(prefix + Print(o) + suffix, [], parse) == parse(Print(o))
  {
    var src := Capped(prefix + Print(o) + suffix);
    PrintedIsWithinCap(prefix, Print(o), suffix);
    assert IsObjectText(Print(o), [], o, []) by { assert [] + Print(o) + [] == Print(o); }
    FirstBalancedIsPrinted(src, |prefix|, SCAN_MAX_STARTS, o, parse);
    TrimmedIsPrinted(src, |prefix|, o, parse);
    assert FirstParsed([src] + [], parse) == parse(Trim(src)) by {
      assert ([src] + [])[1..] == [];
    }
  }

  lemma PrintedIsWithinCap(prefix: string, t: string, suffix: string)
    requires |prefix| + |t| <= SCAN_CAP
    ensures At(Capped(prefix + t + suffix), |prefix|, t)
    ensures Capped(prefix + t + suffix)[..|prefix|] == prefix
  {
    var all := prefix + t + suffix;
    var n := |prefix| + |t|;
    assert all[..n] == prefix + t;
    assert Capped(all)[..n] == all[..n];
    assert Capped(all)[|prefix|..n] == Capped(all)[..n][|prefix|..] == t;
    assert Capped(all)[..|prefix|] == all[..n][..|prefix|] == prefix;
  }

  lemma FirstBalancedIsPrinted<V>(src: string, start: nat, starts: nat, o: Value, parse: string -> Option<V>)
    requires o.Object? && ValidValue(o) && At(src, start, Print(o)) && '{' !in src[..start]
    requires starts > 0 && parse(Print(o)).Some?
    ensures FirstBalanced(src, NextBrace(src, 0), starts, parse) == parse(Print(o))
  {
    ScanStopsAtClosingBrace(src, start, o);
    assert src[start] == src[start..start + |Print(o)|][0] == '{';
    assert forall j :: 0 <= j < start ==> src[j] == src[..start][j];
    assert NextBrace(src, 0) == start;
  }

  lemma TrimmedIsPrinted<V(!new)>(src: string, start: nat, o: Value, parse: string -> Option<V>)
    requires o.Object? && ValidValue(o) && At(src, start, Print(o)) && '{' !in src[..start]
    requires ParsesObjects(parse)
    ensures parse(Trim(src)).Some? ==> parse(Trim(src)) == parse(Print(o))
  {
    if parse(Trim(src)).Some? {
      var before, other, after :| IsObjectText(Trim(src), before, other, after);
      TrimmedObjectIsPrinted(src, start, o, before, other, after);
      assert IsObjectText(Print(other), [], other, []) by { assert [] + Print(other) + [] == Print(other); }
      assert parse(Trim(src)) == parse(Print(other));
    }
  }

  lemma TrimmedObjectIsPrinted(src: string, start: nat, o: Value, before: Space, other: Value, after: Space)
    requires o.Object? && ValidValue(o) && At(src, start, Print(o)) && '{' !in src[..start]
    requires IsObjectText(Trim(src), before, other, after)
    ensures Print(other) == Print(o)
  {
    var cut := TrimTakesBothEnds(src);
    assert forall j :: 0 <= j < start ==> src[j] == src[..start][j];
    SameObject(src, start, o, cut, before, other, after);
  }

  /** Two objects found behind nothing but trimmed characters and brace-free text start and end alike. */
  lemma SameObject(src: string, start: nat, o: Value, cut: nat, before: Space, other: Value, after: Space)
    requires o.Object? && ValidValue(o) && At(src, start, Print(o))
    requires forall i :: 0 <= i < start ==> src[i] != '{'
    requires cut <= |src| && forall i :: 0 <= i < cut ==> IsTrimmed(src[i])
    requires IsObjectText(before + Print(other) + after, before, other, after)
    requires At(src, cut, before + Print(other) + after)
    ensures Print(other) == Print(o)
  {
    AtConcat(src, cut, before + Print(other), after);
    AtConcat(src, cut, before, Print(other));
    var begin := cut + |before|;
    forall i | 0 <= i < begin
      ensures src[i] != '{'
    {
      if i >= cut {
        assert src[cut..begin][i - cut] == src[i];
      }
    }
    assert src[begin] == src[begin..begin + |Print(other)|][0] == '{';
    assert src[start] == src[start..start + |Print(o)|][0] == '{';
    assert begin == start;
    ScanStopsAtClosingBrace(src, start, o);
    ScanStopsAtClosingBrace(src, start, other);
  }
}
