/**
 JSON Pointer evaluation (section 4 of RFC 6901) the way `serde_json::Value::pointer`
 carries it out: a pointer is a string, split on '/', each token unescaped, array tokens
 read as decimal indices without leading zeros.
 */
module Pointer {
  import opened Wrappers
  import opened Json

  type Tokens = seq<string>

  // ---- Decimal array indices -------------------------------------------------------

  predicate IsDigit(c: char) {
    '0' <= c <= '9'
  }

  predicate AllDigits(s: string) {
    forall i :: 0 <= i < |s| ==> IsDigit(s[i])
  }

  function DigitChar(d: nat): (c: char)
    requires d < 10
    ensures IsDigit(c) && c as int - '0' as int == d
  {
    '0' + d as char
  }

  /** The text `format!("{i}")` produces. */
  function Decimal(n: nat): (s: string)
    ensures |s| > 0 && AllDigits(s)
    ensures s[0] == '0' <==> n == 0
    ensures n == 0 ==> s == "0"
  {
    if n < 10 then [DigitChar(n)] else Decimal(n / 10) + [DigitChar(n % 10)]
  }

  function DecimalValue(s: string): nat
    requires AllDigits(s)
  {
    if s == "" then 0
    else DecimalValue(s[..|s| - 1]) * 10 + (s[|s| - 1] as int - '0' as int)
  }

  /** `parse_index`: no sign, no leading zero. */
  function ParseIndex(s: string): Option<nat> {
    if s == "" || !AllDigits(s) || (s[0] == '0' && |s| != 1) then None
    else Some(DecimalValue(s))
  }

  lemma {:induction false} DecimalIsIndex(n: nat)
    ensures ParseIndex(Decimal(n)) == Some(n)
  {
    var s := Decimal(n);
    if n >= 10 {
      DecimalIsIndex(n / 10);
      assert s[..|s| - 1] == Decimal(n / 10);
    } else {
      assert s[..0] == "";
      assert DecimalValue(s) == DecimalValue(s[..0]) * 10 + n;
    }
  }

  /** Array tokens are canonical: two tokens naming one index are the same token. */
  lemma {:induction false} IndexIsDecimal(s: string)
    requires ParseIndex(s).Some?
    ensures s == Decimal(ParseIndex(s).value)
    decreases |s|
  {
    var v := ParseIndex(s).value;
    var init := s[..|s| - 1];
    var last := s[|s| - 1] as int - '0' as int;
    if |s| == 1 {
      assert init == "";
      assert DecimalValue(s) == DecimalValue(init) * 10 + last;
      assert s == [DigitChar(last)];
    } else {
      assert ParseIndex(init) == Some(DecimalValue(init));
      IndexIsDecimal(init);
      assert v == DecimalValue(init) * 10 + last;
      assert init[0] != '0';
      assert DecimalValue(init) > 0;
      assert v / 10 == DecimalValue(init) && v % 10 == last;
      assert s == init + [DigitChar(last)];
    }
  }

  // ---- Pointer strings and tokens --------------------------------------------------

  function Split(s: string): (r: Tokens)
    ensures |r| >= 1
  {
    if s == "" then [""]
    else if s[0] == '/' then [""] + Split(s[1..])
    else var r := Split(s[1..]); [[s[0]] + r[0]] + r[1..]
  }

  /** `str::replace` of the two-character escape `~mark` by one character. */
  function ReplaceEscape(s: string, mark: char, sub: char): string {
    if |s| >= 2 && s[0] == '~' && s[1] == mark then [sub] + ReplaceEscape(s[2..], mark, sub)
    else if s == "" then ""
    else [s[0]] + ReplaceEscape(s[1..], mark, sub)
  }

  function Unescape(s: string): string {
    ReplaceEscape(ReplaceEscape(s, '1', '/'), '0', '~')
  }

  function UnescapeAll(ts: Tokens): (r: Tokens)
    ensures |r| == |ts| && forall i :: 0 <= i < |ts| ==> r[i] == Unescape(ts[i])
  {
    if ts == [] then [] else [Unescape(ts[0])] + UnescapeAll(ts[1..])
  }

  /** One step of the walk: a member of an object or an element of an array. */
  function Child(doc: Json, token: string): Option<Json> {
    match doc
    case Obj(m) => Field(m, token)
    case Arr(items) =>
      (match ParseIndex(token)
       case Some(i) => if i < |items| then Some(items[i]) else None
       case None => None)
    case _ => None
  }

  function Walk(doc: Json, ts: Tokens): Option<Json> {
    if ts == [] then Some(doc)
    else
      match Child(doc, ts[0])
      case Some(c) => Walk(c, ts[1..])
      case None => None
  }

  /** `Value::pointer`. */
  function Lookup(doc: Json, path: string): Option<Json> {
    if path == "" then Some(doc)
    else if path[0] != '/' then None
    else Walk(doc, UnescapeAll(Split(path)[1..]))
  }

  /** A token as it is written between two slashes: escaped or not, possibly empty. */
  predicate Bare(token: string) {
    forall i :: 0 <= i < |token| ==> token[i] != '/'
  }

  predicate BarePath(ts: Tokens) {
    forall i :: 0 <= i < |ts| ==> Bare(ts[i])
  }

  /** A token that stands for itself in a pointer: nothing to split on, nothing to unescape. */
  predicate Plain(token: string) {
    token != "" && forall i :: 0 <= i < |token| ==> token[i] != '/' && token[i] != '~'
  }

  predicate PlainPath(ts: Tokens) {
    forall i :: 0 <= i < |ts| ==> Plain(ts[i])
  }

  function Render(ts: Tokens): string {
    if ts == [] then "" else "/" + ts[0] + Render(ts[1..])
  }

  lemma {:induction false} UnescapePlain(s: string, mark: char, sub: char)
    requires forall i :: 0 <= i < |s| ==> s[i] != '~'
    ensures ReplaceEscape(s, mark, sub) == s
  {
    if s != "" {
      UnescapePlain(s[1..], mark, sub);
    }
  }

  lemma {:induction false} SplitToken(token: string, rest: string)
    requires forall i :: 0 <= i < |token| ==> token[i] != '/'
    requires rest == "" || rest[0] == '/'
    ensures Split(token + rest) == [token] + Split(rest)[1..]
  {
    if token == "" {
      assert token + rest == rest;
    } else {
      SplitToken(token[1..], rest);
      assert (token + rest)[1..] == token[1..] + rest;
      var r := Split(token[1..] + rest);
      assert r[0] == token[1..] && r[1..] == Split(rest)[1..];
      assert [token[0]] + token[1..] == token;
    }
  }

  lemma SplitSlash(rest: string)
    ensures Split("/" + rest) == [""] + Split(rest)
  {
    assert ("/" + rest)[1..] == rest;
  }

  lemma {:induction false} SplitRender(ts: Tokens)
    requires BarePath(ts)
    ensures Split(Render(ts)) == [""] + ts
  {
    if ts != [] {
      var tail := Render(ts[1..]);
      SplitRender(ts[1..]);
      assert Split(ts[0] + tail) == ts by {
        assert Bare(ts[0]);
        SplitToken(ts[0], tail);
        assert Split(tail)[1..] == ts[1..];
      }
      SplitSlash(ts[0] + tail);
      assert Render(ts) == "/" + (ts[0] + tail);
    }
  }

  lemma {:induction false} JoinSplit(s: string)
    ensures BarePath(Split(s)) && Split(s)[0] + Render(Split(s)[1..]) == s
  {
    if s != "" {
      var r := Split(s[1..]);
      JoinSplit(s[1..]);
      if s[0] == '/' {
        assert Split(s)[1..] == r;
        assert Render(r) == "/" + r[0] + Render(r[1..]);
        assert s == "/" + s[1..];
      } else {
        assert Bare(r[0]) && Split(s)[0] == [s[0]] + r[0] && Split(s)[1..] == r[1..];
        assert s == [s[0]] + s[1..];
      }
    }
  }

  /** Every pointer string that starts with a slash is its own tokens, rendered. */
  lemma RenderSplit(path: string)
    requires path != "" && path[0] == '/'
    ensures var ts := Split(path)[1..]; ts != [] && BarePath(ts) && Render(ts) == path
  {
    JoinSplit(path);
    assert Split(path)[0] == "" && |Split(path[1..])| >= 1;
  }

  lemma {:induction false} UnescapeAllPlain(ts: Tokens)
    requires PlainPath(ts)
    ensures UnescapeAll(ts) == ts
  {
    if ts != [] {
      UnescapePlain(ts[0], '1', '/');
      UnescapePlain(ts[0], '0', '~');
      UnescapeAllPlain(ts[1..]);
    }
  }

  /** On rendered tokens the string-level pointer is the walk over the unescaped tokens. */
  lemma LookupIsWalk(doc: Json, ts: Tokens)
    requires BarePath(ts)
    ensures Lookup(doc, Render(ts)) == Walk(doc, UnescapeAll(ts))
  {
    SplitRender(ts);
    assert ([""] + ts)[1..] == ts;
  }

  /** How section 3 of RFC 6901 has a token written. */
  function Escape(s: string): string {
    if s == "" then ""
    else (if s[0] == '~' then "~0" else if s[0] == '/' then "~1" else [s[0]]) + Escape(s[1..])
  }

  function TildesOnly(s: string): string {
    if s == "" then "" else (if s[0] == '~' then "~0" else [s[0]]) + TildesOnly(s[1..])
  }

  lemma SkipOne(c: char, rest: string, mark: char, sub: char)
    requires c != '~'
    ensures ReplaceEscape([c] + rest, mark, sub) == [c] + ReplaceEscape(rest, mark, sub)
  {
    assert ([c] + rest)[1..] == rest;
  }

  lemma ReplaceOne(rest: string, mark: char, sub: char)
    ensures ReplaceEscape(['~', mark] + rest, mark, sub) == [sub] + ReplaceEscape(rest, mark, sub)
  {
    assert (['~', mark] + rest)[2..] == rest;
  }

  lemma KeepOne(rest: string, mark: char, sub: char)
    requires mark != '0'
    ensures ReplaceEscape("~0" + rest, mark, sub) == "~0" + ReplaceEscape(rest, mark, sub)
  {
    assert ("~0" + rest)[1..] == ['0'] + rest;
    SkipOne('0', rest, mark, sub);
  }

  lemma {:induction false} SlashesBack(s: string)
    ensures ReplaceEscape(Escape(s), '1', '/') == TildesOnly(s)
  {
    if s != "" {
      var rest := Escape(s[1..]);
      SlashesBack(s[1..]);
      if s[0] == '~' {
        KeepOne(rest, '1', '/');
      } else if s[0] == '/' {
        ReplaceOne(rest, '1', '/');
      } else {
        SkipOne(s[0], rest, '1', '/');
      }
    }
  }

  lemma {:induction false} TildesBack(s: string)
    ensures ReplaceEscape(TildesOnly(s), '0', '~') == s
  {
    if s != "" {
      var rest := TildesOnly(s[1..]);
      TildesBack(s[1..]);
      if s[0] == '~' {
        ReplaceOne(rest, '0', '~');
      } else {
        SkipOne(s[0], rest, '0', '~');
      }
    }
  }

  lemma {:induction false} EscapedIsBare(s: string)
    ensures Bare(Escape(s))
  {
    if s != "" {
      EscapedIsBare(s[1..]);
    }
  }

  function EscapeAll(ts: Tokens): (r: Tokens) {
    seq(|ts|, i requires 0 <= i < |ts| => Escape(ts[i]))
  }

  /** Every place in a document has a pointer, whatever characters its keys hold, and the pointer
      leads there. */
  lemma EscapedLeadsThere(doc: Json, ts: Tokens)
    ensures Lookup(doc, Render(EscapeAll(ts))) == Walk(doc, ts)
  {
    var escaped := EscapeAll(ts);
    forall i | 0 <= i < |ts| ensures Bare(escaped[i]) && Unescape(escaped[i]) == ts[i] {
      EscapedIsBare(ts[i]);
      SlashesBack(ts[i]);
      TildesBack(ts[i]);
    }
    LookupIsWalk(doc, escaped);
    assert UnescapeAll(escaped) == ts;
  }

  lemma PlainIsBare(ts: Tokens)
    requires PlainPath(ts)
    ensures BarePath(ts) && UnescapeAll(ts) == ts
  {
    forall i | 0 <= i < |ts| ensures Bare(ts[i]) {
      assert Plain(ts[i]);
    }
    UnescapeAllPlain(ts);
  }

  lemma {:induction false} RenderAppend(a: Tokens, b: Tokens)
    ensures Render(a + b) == Render(a) + Render(b)
  {
    if a == [] {
      assert a + b == b;
    } else {
      RenderAppend(a[1..], b);
      assert (a + b)[1..] == a[1..] + b;
    }
  }

  lemma {:induction false} WalkAppend(doc: Json, a: Tokens, b: Tokens)
    ensures Walk(doc, a + b) ==
            match Walk(doc, a) case Some(n) => Walk(n, b) case None => None
  {
    if a == [] {
      assert a + b == b;
    } else {
      assert (a + b)[1..] == a[1..] + b;
      match Child(doc, a[0]) {
        case Some(c) => WalkAppend(c, a[1..], b);
        case None =>
      }
    }
  }
}
