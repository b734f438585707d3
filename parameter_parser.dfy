/**
 * `ParameterParser` of the file-upload package: a cursor-driven scanner that splits
 * `name = value; name2 = "quoted; value"; name3` into a map from names to (possibly null)
 * values. The scanning functions below state what each cursor loop of the class computes;
 * the class `ParameterParser` keeps the source's cursor fields and loops and is proved
 * against them.
 */
module ParamParser {
  import opened Wrappers
  import Lists

  // ------------------------------------------------------------ characters

  /**
   * The `i`-th of the inclusive character ranges `Character.isWhitespace` accepts: the
   * Unicode space, line and paragraph separators other than the no-break spaces (U+00A0,
   * U+2007, U+202F), plus the ASCII controls TAB, LF, VT, FF, CR and FS, GS, RS, US.
   */
  function WhitespaceRange(i: nat): (char, char)
    requires i < 8
  {
    if i == 0 then ('\t', '\r')
    else if i == 1 then ('\U{1C}', ' ')
    else if i == 2 then ('\U{1680}', '\U{1680}')
    else if i == 3 then ('\U{2000}', '\U{2006}')
    else if i == 4 then ('\U{2008}', '\U{200A}')
    else if i == 5 then ('\U{2028}', '\U{2029}')
    else if i == 6 then ('\U{205F}', '\U{205F}')
    else ('\U{3000}', '\U{3000}')
  }

  /** `c` lies in one of the whitespace ranges from the `i`-th on. */
  predicate InWhitespaceRanges(c: char, i: nat)
    decreases 8 - i
  {
    i < 8 && ((WhitespaceRange(i).0 <= c <= WhitespaceRange(i).1) || InWhitespaceRanges(c, i + 1))
  }

  /** `Character.isWhitespace`. */
  predicate IsWhitespace(c: char) {
    InWhitespaceRanges(c, 0)
  }

  predicate IsUpper(c: char) {
    'A' <= c <= 'Z'
  }

  function LowerChar(c: char): (r: char)
    ensures !IsUpper(r)
    ensures !IsUpper(c) ==> r == c
  {
    if IsUpper(c) then (c as int + 32) as char else c
  }

  /** `String.toLowerCase(Locale.ROOT)`, restricted to the ASCII letters. */
  function LowerCase(t: string): (r: string)
    ensures |r| == |t|
  {
    if |t| == 0 then [] else [LowerChar(t[0])] + LowerCase(t[1..])
  }

  /** Lower-casing maps each character on its own and leaves no upper-case letter. */
  lemma {:induction false} LowerCaseSpec(t: string)
    ensures forall j :: 0 <= j < |t| ==> LowerCase(t)[j] == LowerChar(t[j])
    ensures forall j :: 0 <= j < |t| ==> !IsUpper(LowerCase(t)[j])
  {
    if |t| > 0 {
      LowerCaseSpec(t[1..]);
      forall j | 1 <= j < |t|
        ensures LowerCase(t)[j] == LowerChar(t[j])
      {
        assert LowerCase(t)[j] == LowerCase(t[1..])[j - 1];
      }
    }
  }

  // ------------------------------------------------------------ getToken

  /** How many blanks `t` starts with (the first loop of `getToken`). */
  function LeadingBlanks(t: string): (k: nat)
    ensures k <= |t|
  {
    if |t| > 0 && IsWhitespace(t[0]) then 1 + LeadingBlanks(t[1..]) else 0
  }

  /** Where the trailing blanks of `t` begin (the second loop of `getToken`). */
  function BlankTail(t: string): (k: nat)
    ensures k <= |t|
  {
    if |t| > 0 && IsWhitespace(t[|t| - 1]) then BlankTail(t[..|t| - 1]) else |t|
  }

  /** `LeadingBlanks` counts blanks up to the first character that is not one. */
  lemma {:induction false} LeadingBlanksSpec(t: string)
    ensures forall j :: 0 <= j < LeadingBlanks(t) ==> IsWhitespace(t[j])
    ensures LeadingBlanks(t) < |t| ==> !IsWhitespace(t[LeadingBlanks(t)])
  {
    if |t| > 0 && IsWhitespace(t[0]) {
      LeadingBlanksSpec(t[1..]);
      forall j | 1 <= j < LeadingBlanks(t)
        ensures IsWhitespace(t[j])
      {
        assert t[j] == t[1..][j - 1];
      }
      assert LeadingBlanks(t) < |t| ==> t[LeadingBlanks(t)] == t[1..][LeadingBlanks(t[1..])];
    }
  }

  /** `BlankTail` is where the run of blanks that ends `t` begins. */
  lemma {:induction false} BlankTailSpec(t: string)
    ensures forall j :: BlankTail(t) <= j < |t| ==> IsWhitespace(t[j])
    ensures BlankTail(t) > 0 ==> !IsWhitespace(t[BlankTail(t) - 1])
  {
    if |t| > 0 && IsWhitespace(t[|t| - 1]) {
      var u := t[..|t| - 1];
      BlankTailSpec(u);
      forall j | BlankTail(t) <= j < |u|
        ensures IsWhitespace(t[j])
      {
        assert t[j] == u[j];
      }
      assert BlankTail(t) > 0 ==> t[BlankTail(t) - 1] == u[BlankTail(u) - 1];
    }
  }

  /** The leading blanks are determined by the two properties `LeadingBlanksSpec` states. */
  lemma {:induction false} LeadingBlanksUnique(t: string, k: int)
    requires 0 <= k <= |t|
    requires forall j :: 0 <= j < k ==> IsWhitespace(t[j])
    requires k < |t| ==> !IsWhitespace(t[k])
    ensures LeadingBlanks(t) == k
  {
    if k > 0 {
      var u := t[1..];
      forall j | 0 <= j < k - 1
        ensures IsWhitespace(u[j])
      {
        assert u[j] == t[j + 1];
      }
      assert k - 1 < |u| ==> u[k - 1] == t[k];
      LeadingBlanksUnique(u, k - 1);
    }
  }

  /** The trailing blanks are determined by the two properties `BlankTailSpec` states. */
  lemma {:induction false} BlankTailUnique(t: string, k: int)
    requires 0 <= k <= |t|
    requires forall j :: k <= j < |t| ==> IsWhitespace(t[j])
    requires k > 0 ==> !IsWhitespace(t[k - 1])
    ensures BlankTail(t) == k
    decreases |t|
  {
    if k < |t| {
      var u := t[..|t| - 1];
      forall j | k <= j < |u|
        ensures IsWhitespace(u[j])
      {
        assert u[j] == t[j];
      }
      assert k > 0 ==> u[k - 1] == t[k - 1];
      BlankTailUnique(u, k);
    }
  }

  /** `t` without its leading blanks and then without its trailing ones. */
  function Trim(t: string): string {
    var a := LeadingBlanks(t);
    t[a..a + BlankTail(t[a..])]
  }

  /** One enclosing pair of quotation marks is removed, if wanted and present. */
  function Unquote(t: string, quoted: bool): (r: string)
    ensures |r| <= |t|
  {
    if quoted && |t| >= 2 && t[0] == '"' && t[|t| - 1] == '"' then t[1..|t| - 1] else t
  }

  /** `getToken(quoted)` on the characters between `i1` and `i2`; null for an empty token. */
  function TokenValue(t: string, quoted: bool): (r: Option<string>)
    ensures r.Some? ==> |r.value| > 0
  {
    var u := Unquote(Trim(t), quoted);
    if |u| == 0 then None else Some(u)
  }

  /** A slice of a slice is a slice of the whole. */
  lemma SliceOfSlice(w: seq<char>, i: int, j: int, k: int, l: int)
    requires 0 <= i <= j <= |w| && 0 <= k <= l <= j - i
    ensures w[i..j][k..l] == w[i + k..i + l]
  {
    forall n | 0 <= n < l - k
      ensures w[i..j][k..l][n] == w[i + k..i + l][n]
    {
    }
  }

  /** A suffix of a slice is a slice of the whole. */
  lemma SuffixOfSlice(w: seq<char>, i: int, j: int, k: int)
    requires 0 <= i <= j <= |w| && 0 <= k <= j - i
    ensures w[i..j][k..] == w[i + k..j]
  {
    forall n | 0 <= n < j - i - k
      ensures w[i..j][k..][n] == w[i + k..j][n]
    {
    }
  }

  /**
   * Where `getToken` leaves `i1` and `i2` for the range `[i1, i2)` of `w`: past the leading
   * blanks, before the trailing ones, and inside one enclosing pair of quotes if `quoted`.
   */
  function TokenSpan(w: seq<char>, i1: int, i2: int, quoted: bool): (r: (int, int))
    requires 0 <= i1 <= i2 <= |w|
    ensures i1 <= r.0 <= r.1 <= i2
  {
    var a := i1 + LeadingBlanks(w[i1..i2]);
    var b := a + BlankTail(w[a..i2]);
    if quoted && b - a >= 2 && w[a] == '"' && w[b - 1] == '"' then (a + 1, b - 1) else (a, b)
  }

  /** Once the cursors `a` and `b` have passed the blanks at either end, they delimit `Trim`. */
  lemma TrimOfRange(w: seq<char>, i1: int, i2: int, a: int, b: int)
    requires 0 <= i1 <= a <= b <= i2 <= |w|
    requires forall j :: i1 <= j < a ==> IsWhitespace(w[j])
    requires forall j :: b <= j < i2 ==> IsWhitespace(w[j])
    requires a == b ==> b == i2
    requires a < b ==> !IsWhitespace(w[a]) && !IsWhitespace(w[b - 1])
    ensures Trim(w[i1..i2]) == w[a..b]
  {
    LeadingBlanksOfRange(w, i1, i2, a);
    BlankTailOfRange(w, a, i2, b);
    TrimFromCounts(w, i1, i2, a, b);
  }

  /** `Trim` in terms of where the leading and the trailing blanks end. */
  lemma TrimFromCounts(w: seq<char>, i1: int, i2: int, a: int, b: int)
    requires 0 <= i1 <= a <= b <= i2 <= |w|
    requires LeadingBlanks(w[i1..i2]) == a - i1
    requires BlankTail(w[a..i2]) == b - a
    ensures Trim(w[i1..i2]) == w[a..b]
  {
    var t := w[i1..i2];
    SuffixOfSlice(w, i1, i2, a - i1);
    SliceOfSlice(w, i1, i2, a - i1, b - i1);
    var k, l := a - i1, b - i1;
    assert i1 + k == a && i1 + l == b;
    assert t[k..l] == w[a..b];
    assert Trim(t) == t[k..l];
  }

  lemma LeadingBlanksOfRange(w: seq<char>, i1: int, i2: int, a: int)
    requires 0 <= i1 <= a <= i2 <= |w|
    requires forall j :: i1 <= j < a ==> IsWhitespace(w[j])
    requires a < i2 ==> !IsWhitespace(w[a])
    ensures LeadingBlanks(w[i1..i2]) == a - i1
  {
    var t := w[i1..i2];
    forall j | 0 <= j < a - i1
      ensures IsWhitespace(t[j])
    {
      assert t[j] == w[i1 + j];
    }
    LeadingBlanksUnique(t, a - i1);
  }

  lemma BlankTailOfRange(w: seq<char>, a: int, i2: int, b: int)
    requires 0 <= a <= b <= i2 <= |w|
    requires forall j :: b <= j < i2 ==> IsWhitespace(w[j])
    requires a < b ==> !IsWhitespace(w[b - 1])
    ensures BlankTail(w[a..i2]) == b - a
  {
    var u := w[a..i2];
    forall j | b - a <= j < |u|
      ensures IsWhitespace(u[j])
    {
      assert u[j] == w[a + j];
    }
    BlankTailUnique(u, b - a);
  }

  /** The token is determined by the trimmed text. */
  lemma TokenOfTrim(t: string, v: string, quoted: bool)
    requires Trim(t) == v
    ensures TokenValue(t, quoted) == var u := Unquote(v, quoted); if |u| == 0 then None else Some(u)
  {
  }

  /** Unquoting a slice yields a slice. */
  lemma UnquoteRange(w: seq<char>, a: int, b: int, quoted: bool)
    requires 0 <= a <= b <= |w|
    ensures var strip := quoted && b - a >= 2 && w[a] == '"' && w[b - 1] == '"';
      Unquote(w[a..b], quoted) == if strip then w[a + 1..b - 1] else w[a..b]
  {
    if quoted && b - a >= 2 && w[a] == '"' && w[b - 1] == '"' {
      SliceOfSlice(w, a, b, 1, b - a - 1);
    }
  }

  /**
   * The token of `w[i1..i2]` once the cursors `a` and `b` have passed the blanks at either
   * end: the characters between them, less one enclosing pair of quotes if wanted.
   */
  lemma TokenOfTrimmedRange(w: seq<char>, i1: int, i2: int, a: int, b: int, quoted: bool,
                            c: int, d: int, r: Option<string>)
    requires 0 <= i1 <= a <= b <= i2 <= |w|
    requires forall j :: i1 <= j < a ==> IsWhitespace(w[j])
    requires forall j :: b <= j < i2 ==> IsWhitespace(w[j])
    requires a == b ==> b == i2
    requires a < b ==> !IsWhitespace(w[a]) && !IsWhitespace(w[b - 1])
    requires var strip := quoted && b - a >= 2 && w[a] == '"' && w[b - 1] == '"';
      c == (if strip then a + 1 else a) && d == (if strip then b - 1 else b)
    requires r == if d > c then Some(w[c..d]) else None
    ensures TokenValue(w[i1..i2], quoted) == r
  {
    TrimOfRange(w, i1, i2, a, b);
    TokenOfTrim(w[i1..i2], w[a..b], quoted);
    UnquoteRange(w, a, b, quoted);
  }

  /** The cursors `getToken` ends with are those of `TokenSpan`. */
  lemma SpanOfTrimmedRange(w: seq<char>, i1: int, i2: int, a: int, b: int, quoted: bool, c: int, d: int)
    requires 0 <= i1 <= a <= b <= i2 <= |w|
    requires forall j :: i1 <= j < a ==> IsWhitespace(w[j])
    requires forall j :: b <= j < i2 ==> IsWhitespace(w[j])
    requires a < i2 ==> !IsWhitespace(w[a])
    requires a < b ==> !IsWhitespace(w[b - 1])
    requires var strip := quoted && b - a >= 2 && w[a] == '"' && w[b - 1] == '"';
      c == (if strip then a + 1 else a) && d == (if strip then b - 1 else b)
    ensures (c, d) == TokenSpan(w, i1, i2, quoted)
  {
    LeadingBlanksOfRange(w, i1, i2, a);
    BlankTailOfRange(w, a, i2, b);
  }

  /** An unquoted token is null exactly when the text is all whitespace. */
  lemma TokenNoneIffBlank(t: string)
    ensures TokenValue(t, false).None? <==> forall j :: 0 <= j < |t| ==> IsWhitespace(t[j])
  {
    var a := LeadingBlanks(t);
    LeadingBlanksSpec(t);
    var u := t[a..];
    BlankTailSpec(u);
    if a < |t| {
      assert u[0] == t[a];
    }
  }

  /**
   * An unquoted token is the text with its surrounding whitespace removed, and nothing else:
   * it starts after `a` leading blanks, and only blanks follow it.
   */
  lemma TokenIsTrimmed(t: string)
    requires TokenValue(t, false).Some?
    ensures var r := TokenValue(t, false).value; var a := LeadingBlanks(t);
      a + |r| <= |t| && r == t[a..a + |r|]
      && !IsWhitespace(r[0]) && !IsWhitespace(r[|r| - 1])
      && (forall j :: 0 <= j < a ==> IsWhitespace(t[j]))
      && (forall j :: a + |r| <= j < |t| ==> IsWhitespace(t[j]))
  {
    assert TokenValue(t, false).value == Trim(t);
    TrimStart(t);
    TrimEnd(t);
  }

  /** A non-empty trimmed text starts after the leading blanks, with a character that is not one. */
  lemma TrimStart(t: string)
    requires |Trim(t)| > 0
    ensures var a := LeadingBlanks(t);
      a + |Trim(t)| <= |t| && Trim(t) == t[a..a + |Trim(t)|] && !IsWhitespace(Trim(t)[0])
      && forall j :: 0 <= j < a ==> IsWhitespace(t[j])
  {
    LeadingBlanksSpec(t);
    assert Trim(t)[0] == t[LeadingBlanks(t)];
  }

  /** A non-empty trimmed text ends with a character that is not a blank, and only blanks follow. */
  lemma TrimEnd(t: string)
    requires |Trim(t)| > 0
    ensures var e := LeadingBlanks(t) + |Trim(t)|;
      e <= |t| && !IsWhitespace(Trim(t)[|Trim(t)| - 1])
      && forall j :: e <= j < |t| ==> IsWhitespace(t[j])
  {
    var a := LeadingBlanks(t);
    var u := t[a..];
    BlankTailSpec(u);
    var b := BlankTail(u);
    assert Trim(t) == u[..b];
    forall j | a + b <= j < |t|
      ensures IsWhitespace(t[j])
    {
      assert t[j] == u[j - a];
    }
  }

  /** With quoting, a trimmed token `"x"` yields `x` (null when `x` is empty). */
  lemma QuotesStripped(t: string, x: string)
    requires Trim(t) == ['"'] + x + ['"']
    ensures TokenValue(t, true) == if |x| == 0 then None else Some(x)
  {
    var u := Trim(t);
    assert u[1..|u| - 1] == x;
  }

  /** A lone quotation mark is not an enclosing pair: it is kept. */
  lemma LoneQuoteKept(t: string)
    requires Trim(t) == ['"']
    ensures TokenValue(t, true) == Some(['"'])
  {
  }

  // ------------------------------------------------------------ parseToken / parseQuotedToken

  /** Where `parseToken` stops: the first terminator at or after `pos`, or `len`. */
  function TokenEnd(s: seq<char>, pos: int, len: int, terminators: seq<char>): (e: int)
    requires 0 <= pos <= len <= |s|
    ensures pos <= e <= len
    decreases len - pos
  {
    if pos == len || s[pos] in terminators then pos else TokenEnd(s, pos + 1, len, terminators)
  }

  /** `parseToken` stops at the first terminator: none lies before the end, one lies at it. */
  lemma {:induction false} TokenEndSpec(s: seq<char>, pos: int, len: int, terminators: seq<char>)
    requires 0 <= pos <= len <= |s|
    ensures var e := TokenEnd(s, pos, len, terminators);
      (forall j :: pos <= j < e ==> s[j] !in terminators) && (e < len ==> s[e] in terminators)
    decreases len - pos
  {
    if pos < len && s[pos] !in terminators {
      TokenEndSpec(s, pos + 1, len, terminators);
    }
  }

  /** The `quoted` and `charEscaped` flags of `parseQuotedToken`. */
  datatype QuoteState = QuoteState(quoted: bool, escaped: bool)

  /** The flags after scanning `s[start..end]`: an unescaped `"` toggles quoting, `\` escapes. */
  function QuoteScan(s: seq<char>, start: int, end: int): QuoteState
    requires 0 <= start <= end <= |s|
    decreases end - start
  {
    if end == start then QuoteState(false, false)
    else
      var p := QuoteScan(s, start, end - 1);
      var ch := s[end - 1];
      QuoteState(if !p.escaped && ch == '"' then !p.quoted else p.quoted, !p.escaped && ch == '\\')
  }

  /** Where `parseQuotedToken` stops: the first terminator outside quotes, or `len`. */
  function QuotedEnd(s: seq<char>, start: int, pos: int, len: int, terminators: seq<char>): (e: int)
    requires 0 <= start <= pos <= len <= |s|
    ensures pos <= e <= len
    decreases len - pos
  {
    if pos == len || (!QuoteScan(s, start, pos).quoted && s[pos] in terminators) then pos
    else QuotedEnd(s, start, pos + 1, len, terminators)
  }

  /**
   * `parseQuotedToken` stops at a terminator outside quotes, and every terminator it passes
   * lies inside quotes.
   */
  lemma {:induction false} QuotedEndSpec(s: seq<char>, start: int, pos: int, len: int, terminators: seq<char>)
    requires 0 <= start <= pos <= len <= |s|
    ensures var e := QuotedEnd(s, start, pos, len, terminators);
      (e < len ==> s[e] in terminators && !QuoteScan(s, start, e).quoted)
      && (forall j :: pos <= j < e && s[j] in terminators ==> QuoteScan(s, start, j).quoted)
    decreases len - pos
  {
    if pos < len && !(!QuoteScan(s, start, pos).quoted && s[pos] in terminators) {
      QuotedEndSpec(s, start, pos + 1, len, terminators);
    }
  }

  /** One character of the scan of `parseQuotedToken` that is not a terminator outside quotes. */
  lemma QuoteStep(s: seq<char>, start: int, pos: int, len: int, terminators: seq<char>)
    requires 0 <= start <= pos < len <= |s|
    requires QuoteScan(s, start, pos).quoted || s[pos] !in terminators
    ensures var p := QuoteScan(s, start, pos);
      QuoteScan(s, start, pos + 1)
      == QuoteState(if !p.escaped && s[pos] == '"' then !p.quoted else p.quoted, !p.escaped && s[pos] == '\\')
    ensures QuotedEnd(s, start, pos, len, terminators) == QuotedEnd(s, start, pos + 1, len, terminators)
  {
  }

  /** A `"` right after an unescaped `\` does not toggle quoting. */
  lemma EscapedQuoteKeepsQuoting(s: seq<char>, start: int, j: int)
    requires 0 <= start < j < |s|
    requires s[j - 1] == '\\' && !QuoteScan(s, start, j - 1).escaped && s[j] == '"'
    ensures QuoteScan(s, start, j + 1).quoted == QuoteScan(s, start, j).quoted
  {
  }

  /** Any other `"` toggles quoting. */
  lemma UnescapedQuoteToggles(s: seq<char>, start: int, j: int)
    requires 0 <= start <= j < |s|
    requires s[j] == '"' && !QuoteScan(s, start, j).escaped
    ensures QuoteScan(s, start, j + 1).quoted == !QuoteScan(s, start, j).quoted
  {
  }

  // ------------------------------------------------------------ parse

  /**
   * The collaborators of `parse` that are not part of this model: `RFC2231Utility`
   * (`hasEncodedValue`, `decodeText`, `stripDelimiter`) and `MimeUtility.decodeText`.
   * A decoder answers `None` where the source throws `UnsupportedEncodingException`.
   */
  datatype Decoders = Decoders(
    hasEncodedValue: Option<string> -> bool,
    decodeRfc2231: string -> Option<string>,
    decodeMime: string -> Option<string>,
    stripDelimiter: string -> string)

  /** The value after decoding; the original is kept when decoding fails. */
  function DecodeValue(name: Option<string>, v: string, dec: Decoders): string {
    var d := if dec.hasEncodedValue(name) then dec.decodeRfc2231(v) else dec.decodeMime(v);
    if d.Some? then d.value else v
  }

  /** The map key for a parsed name. */
  function KeyOf(name: string, lowerCaseNames: bool, dec: Decoders): string {
    var stripped := dec.stripDelimiter(name);
    if lowerCaseNames then LowerCase(stripped) else stripped
  }

  /** One `put` of the main loop: the name as parsed, its key and its value. */
  datatype Param = Param(rawName: string, key: string, value: Option<string>)

  /** The name part of one iteration of `parse`: where `parseToken` stops, and the token. */
  function NamePart(s: seq<char>, pos: int, len: int, separator: char): (r: (int, Option<string>))
    requires 0 <= pos <= len <= |s|
    ensures pos <= r.0 <= len
    ensures r.0 < len ==> s[r.0] == '=' || s[r.0] == separator
  {
    TokenEndSpec(s, pos, len, ['=', separator]);
    var e1 := TokenEnd(s, pos, len, ['=', separator]);
    (e1, TokenValue(s[pos..e1], false))
  }

  /**
   * The value part: after an `=`, where `parseQuotedToken` stops and the decoded token;
   * without one, no value and no move.
   */
  function ValuePart(s: seq<char>, e1: int, len: int, separator: char, name: Option<string>, dec: Decoders)
    : (r: (int, Option<string>))
    requires 0 <= e1 <= len <= |s|
    ensures e1 <= r.0 <= len
    ensures !(e1 < len && s[e1] == '=') ==> r == (e1, None)
    ensures e1 < len && s[e1] == '=' ==> e1 < r.0
  {
    if e1 < len && s[e1] == '=' then
      var e2 := QuotedEnd(s, e1 + 1, e1 + 1, len, [separator]);
      var raw := TokenValue(s[e1 + 1..e2], true);
      (e2, if raw.Some? then Some(DecodeValue(name, raw.value, dec)) else None)
    else (e1, None)
  }

  /** The separator that ends an iteration is stepped over. */
  function SkipSeparator(s: seq<char>, e2: int, len: int, separator: char): (r: int)
    requires 0 <= e2 <= len <= |s|
    ensures e2 <= r <= len
    ensures r == e2 + 1 <==> e2 < len && s[e2] == separator
  {
    if e2 < len && s[e2] == separator then e2 + 1 else e2
  }

  /**
   * One iteration of the main loop of `parse` starting at `pos`: the position after it and
   * the pair it stores, if any.
   */
  function Step(s: seq<char>, pos: int, len: int, separator: char, lowerCaseNames: bool, dec: Decoders)
    : (r: (int, Option<Param>))
    requires 0 <= pos < len <= |s|
    ensures pos < r.0 <= len
  {
    var (e1, name) := NamePart(s, pos, len, separator);
    var (e2, value) := ValuePart(s, e1, len, separator, name, dec);
    (SkipSeparator(s, e2, len, separator),
     if name.Some? then Some(Param(name.value, KeyOf(name.value, lowerCaseNames, dec), value)) else None)
  }

  /** `Step` read off from its name and value parts. */
  lemma StepOfParts(s: seq<char>, pos: int, len: int, separator: char, lowerCaseNames: bool, dec: Decoders,
                    e1: int, name: Option<string>, e2: int, value: Option<string>)
    requires 0 <= pos < len <= |s|
    requires (e1, name) == NamePart(s, pos, len, separator)
    requires (e2, value) == ValuePart(s, e1, len, separator, name, dec)
    ensures Step(s, pos, len, separator, lowerCaseNames, dec)
      == (SkipSeparator(s, e2, len, separator),
          if name.Some? then Some(Param(name.value, KeyOf(name.value, lowerCaseNames, dec), value)) else None)
  {
  }

  /** A stored pair has a non-empty name, and its key is that name's key. */
  predicate WellKeyed(p: Param, lowerCaseNames: bool, dec: Decoders) {
    |p.rawName| > 0 && p.key == KeyOf(p.rawName, lowerCaseNames, dec)
  }

  /**
   * Each iteration consumes at least one character; what it stores is well keyed; a name not
   * followed by `=` gets a null value.
   */
  lemma StepSpec(s: seq<char>, pos: int, len: int, separator: char, lowerCaseNames: bool, dec: Decoders)
    requires 0 <= pos < len <= |s|
    ensures var r := Step(s, pos, len, separator, lowerCaseNames, dec);
      pos < r.0 <= len
      && (r.1.Some? ==> WellKeyed(r.1.value, lowerCaseNames, dec))
      && (var e := TokenEnd(s, pos, len, ['=', separator]);
          r.1.Some? && !(e < len && s[e] == '=') ==> r.1.value.value.None?)
  {
  }

  /** The pairs the main loop stores from `pos` up to `len`, in order. */
  function Entries(s: seq<char>, pos: int, len: int, separator: char, lowerCaseNames: bool, dec: Decoders)
    : seq<Param>
    requires 0 <= pos <= len <= |s|
    decreases len - pos
  {
    if pos == len then []
    else
      var (next, p) := Step(s, pos, len, separator, lowerCaseNames, dec);
      (if p.Some? then [p.value] else []) + Entries(s, next, len, separator, lowerCaseNames, dec)
  }

  /** Every stored pair is well keyed. */
  lemma {:induction false} EntriesSpec(s: seq<char>, pos: int, len: int, separator: char, lowerCaseNames: bool,
                                       dec: Decoders)
    requires 0 <= pos <= len <= |s|
    ensures forall p :: p in Entries(s, pos, len, separator, lowerCaseNames, dec) ==> WellKeyed(p, lowerCaseNames, dec)
    decreases len - pos
  {
    if pos < len {
      var st := Step(s, pos, len, separator, lowerCaseNames, dec);
      StepSpec(s, pos, len, separator, lowerCaseNames, dec);
      EntriesSpec(s, st.0, len, separator, lowerCaseNames, dec);
    }
  }

  type Params = map<string, Option<string>>

  /** `HashMap.put` of each pair in turn: a later pair with the same key wins. */
  function Collect(m: Params, es: seq<Param>): Params
    decreases |es|
  {
    if |es| == 0 then m else Collect(m[es[0].key := es[0].value], es[1..])
  }

  lemma {:induction false} CollectKeys(m: Params, es: seq<Param>)
    ensures Collect(m, es).Keys == m.Keys + set k | 0 <= k < |es| :: es[k].key
    decreases |es|
  {
    if |es| > 0 {
      CollectKeys(m[es[0].key := es[0].value], es[1..]);
      var tail := set k | 0 <= k < |es[1..]| :: es[1..][k].key;
      var all := set k | 0 <= k < |es| :: es[k].key;
      assert all == {es[0].key} + tail by {
        forall x | x in all ensures x in {es[0].key} + tail {
          var k :| 0 <= k < |es| && es[k].key == x;
          if k > 0 {
            assert es[1..][k - 1].key == x;
          }
        }
        forall x | x in tail ensures x in all {
          var k :| 0 <= k < |es[1..]| && es[1..][k].key == x;
          assert es[k + 1].key == x;
        }
      }
    }
  }

  /** The main loop's effect on the map, one iteration at a time. */
  lemma EntriesStep(m: Params, s: seq<char>, pos: int, len: int, separator: char, lowerCaseNames: bool,
                    dec: Decoders)
    requires 0 <= pos < len <= |s|
    ensures var (next, p) := Step(s, pos, len, separator, lowerCaseNames, dec);
      Collect(m, Entries(s, pos, len, separator, lowerCaseNames, dec))
      == Collect(if p.Some? then m[p.value.key := p.value.value] else m,
                 Entries(s, next, len, separator, lowerCaseNames, dec))
  {
    var (next, p) := Step(s, pos, len, separator, lowerCaseNames, dec);
    var rest := Entries(s, next, len, separator, lowerCaseNames, dec);
    if p.Some? {
      assert ([p.value] + rest)[1..] == rest;
    } else {
      assert [] + rest == rest;
    }
  }

  /** `parse(char[], offset, length, separator)` fails only by reading outside the array. */
  datatype ParseError = IndexOutOfBounds

  /**
   * `parse(charArray, offset, length, separator)`: `length` is an end index. An empty range
   * gives an empty map; a non-empty range reaching outside the array throws.
   */
  function ParseChars(s: seq<char>, offset: int, length: int, separator: char, lowerCaseNames: bool,
                      dec: Decoders): (r: Result<Params, ParseError>)
    ensures r.Failure? <==> offset < length && (offset < 0 || length > |s|)
    ensures offset >= length ==> r == Success(map[])
  {
    if offset >= length then Success(map[])
    else if offset < 0 || length > |s| then Failure(IndexOutOfBounds)
    else Success(Collect(map[], Entries(s, offset, length, separator, lowerCaseNames, dec)))
  }

  /** Every key stored is the key of a non-empty name found in the text. */
  lemma ParsedKeys(s: seq<char>, offset: int, length: int, separator: char, lowerCaseNames: bool, dec: Decoders)
    requires ParseChars(s, offset, length, separator, lowerCaseNames, dec).Success?
    ensures forall key :: key in ParseChars(s, offset, length, separator, lowerCaseNames, dec).value ==>
      exists name :: |name| > 0 && key == KeyOf(name, lowerCaseNames, dec)
  {
    if offset < length {
      var es := Entries(s, offset, length, separator, lowerCaseNames, dec);
      EntriesSpec(s, offset, length, separator, lowerCaseNames, dec);
      CollectKeys(map[], es);
      forall key | key in Collect(map[], es)
        ensures exists name :: |name| > 0 && key == KeyOf(name, lowerCaseNames, dec)
      {
        var k :| 0 <= k < |es| && es[k].key == key;
        assert es[k] in es;
      }
    }
  }

  /** With `lowerCaseNames` set, no stored key holds an upper-case letter. */
  lemma LowerCaseKeys(s: seq<char>, offset: int, length: int, separator: char, dec: Decoders)
    requires ParseChars(s, offset, length, separator, true, dec).Success?
    ensures forall key :: key in ParseChars(s, offset, length, separator, true, dec).value ==>
      forall j :: 0 <= j < |key| ==> !IsUpper(key[j])
  {
    ParsedKeys(s, offset, length, separator, true, dec);
    forall key | key in ParseChars(s, offset, length, separator, true, dec).value
      ensures forall j :: 0 <= j < |key| ==> !IsUpper(key[j])
    {
      var name :| |name| > 0 && key == KeyOf(name, true, dec);
      LowerCaseSpec(dec.stripDelimiter(name));
    }
  }

  /** The character that `str.indexOf` finds first among `separators`, if any occurs. */
  predicate EarliestIn(str: string, separators: seq<char>, sep: char) {
    sep in str && forall c :: c in separators && c in str ==> Lists.IndexOf(str, sep) <= Lists.IndexOf(str, c)
  }

  /**
   * The separator choice of `parse(String, char[])`: the separator occurring earliest in
   * `str`, or `separators[0]` when none occurs or `str` is null.
   */
  method EarliestSeparator(str: Option<string>, separators: seq<char>) returns (separator: char)
    requires |separators| > 0
    ensures separator in separators
    ensures str.None? || (forall c :: c in separators ==> c !in str.value) ==> separator == separators[0]
    ensures str.Some? && (exists c :: c in separators && c in str.value) ==> EarliestIn(str.value, separators, separator)
  {
    separator := separators[0];
    if str.Some? {
      var s := str.value;
      var idx := |s|;
      var k := 0;
      while k < |separators|
        invariant 0 <= k <= |separators|
        invariant separator in separators
        invariant 0 <= idx <= |s|
        invariant idx == |s| ==> separator == separators[0]
        invariant idx < |s| ==> separator in s && idx == Lists.IndexOf(s, separator)
        invariant forall j :: 0 <= j < k && separators[j] in s ==> idx <= Lists.IndexOf(s, separators[j])
      {
        var separator2 := separators[k];
        var tmp := Lists.IndexOf(s, separator2);
        if tmp != -1 && tmp < idx {
          idx := tmp;
          separator := separator2;
        }
        k := k + 1;
      }
    }
  }

  // ------------------------------------------------------------ the parser object

  /** `ParameterParser`: the cursor state of one parse and the `lowerCaseNames` flag. */
  class ParameterParser {
    var chars: array<char>
    var pos: int
    var len: int
    var i1: int
    var i2: int
    var lowerCaseNames: bool

    constructor ()
      ensures !lowerCaseNames && !IsLowerCaseNames()
      ensures pos == 0 && len == 0 && i1 == 0 && i2 == 0
    {
      chars := new char[0];
      pos, len, i1, i2 := 0, 0, 0, 0;
      lowerCaseNames := false;
    }

    /** `isLowerCaseNames`: the flag last stored by `SetLowerCaseNames`, off for a new parser. */
    function IsLowerCaseNames(): (r: bool)
      reads this
      ensures r == lowerCaseNames
    {
      lowerCaseNames
    }

    method SetLowerCaseNames(b: bool)
      modifies this
      ensures lowerCaseNames == b && IsLowerCaseNames() == b
      ensures chars == old(chars) && pos == old(pos) && len == old(len) && i1 == old(i1) && i2 == old(i2)
    {
      lowerCaseNames := b;
    }

    /** `hasChar`: characters remain before the end index. */
    function HasChar(): (r: bool)
      reads this
      ensures r <==> len - pos > 0
    {
      pos < len
    }

    /** `isOneOf`: membership, by a linear search that stops at the first hit. */
    method IsOneOf(ch: char, charray: seq<char>) returns (result: bool)
      ensures result <==> ch in charray
    {
      result := false;
      var k := 0;
      while k < |charray|
        invariant 0 <= k <= |charray|
        invariant !result && ch !in charray[..k]
      {
        if ch == charray[k] {
          result := true;
          break;
        }
        assert charray[..k + 1] == charray[..k] + [charray[k]];
        k := k + 1;
      }
      assert !result ==> charray[..k] == charray;
    }

    /** The first loop of `getToken`: skips the blanks that start `[from, to)`. */
    method SkipLeadingBlanks(from: int, to: int) returns (a: int)
      requires 0 <= from <= to <= chars.Length
      ensures from <= a <= to
      ensures forall j :: from <= j < a ==> IsWhitespace(chars[j])
      ensures a < to ==> !IsWhitespace(chars[a])
    {
      a := from;
      while a < to && IsWhitespace(chars[a])
        invariant from <= a <= to
        invariant forall j :: from <= j < a ==> IsWhitespace(chars[j])
      {
        a := a + 1;
      }
    }

    /** The second loop of `getToken`: backs over the blanks that end `[from, to)`. */
    method SkipTrailingBlanks(from: int, to: int) returns (b: int)
      requires 0 <= from <= to <= chars.Length
      ensures from <= b <= to
      ensures forall j :: b <= j < to ==> IsWhitespace(chars[j])
      ensures b > from ==> !IsWhitespace(chars[b - 1])
      ensures from < to && !IsWhitespace(chars[from]) ==> b > from
    {
      b := to;
      while b > from && IsWhitespace(chars[b - 1])
        invariant from <= b <= to
        invariant forall j :: b <= j < to ==> IsWhitespace(chars[j])
      {
        b := b - 1;
      }
    }

    /** The bounds `getToken` leaves in `i1` and `i2`, and the token between them. */
    method TokenBounds(quoted: bool) returns (a: int, b: int, result: Option<string>)
      requires 0 <= i1 <= i2 <= chars.Length
      ensures 0 <= a <= b <= chars.Length
      ensures result == TokenValue(chars[i1..i2], quoted)
      ensures result.Some? ==> result.value == chars[a..b]
      ensures (a, b) == TokenSpan(chars[..], i1, i2, quoted)
    {
      a := SkipLeadingBlanks(i1, i2);
      b := SkipTrailingBlanks(a, i2);
      ghost var a0, b0 := a, b;
      if quoted && b - a >= 2 && chars[a] == '"' && chars[b - 1] == '"' {
        a := a + 1;
        b := b - 1;
      }
      result := None;
      if b > a {
        result := Some(chars[a..b]);
      }
      TokenOfTrimmedRange(chars[..], i1, i2, a0, b0, quoted, a, b, result);
      SpanOfTrimmedRange(chars[..], i1, i2, a0, b0, quoted, a, b);
    }

    /** `getToken`: trims `[i1, i2)` in place and returns the token it then delimits. */
    method GetToken(quoted: bool) returns (result: Option<string>)
      requires 0 <= i1 <= i2 <= chars.Length
      modifies this
      ensures chars == old(chars) && pos == old(pos) && len == old(len) && lowerCaseNames == old(lowerCaseNames)
      ensures result == TokenValue(chars[old(i1)..old(i2)], quoted)
      ensures (i1, i2) == TokenSpan(chars[..], old(i1), old(i2), quoted)
      ensures result.Some? ==> 0 <= i1 <= i2 <= chars.Length && result.value == chars[i1..i2]
    {
      var a, b;
      a, b, result := TokenBounds(quoted);
      i1, i2 := a, b;
    }

    /** `parseToken`: advances `pos` to the first terminator (or `len`). */
    method ParseToken(terminators: seq<char>) returns (result: Option<string>)
      requires 0 <= pos <= len <= chars.Length
      modifies this
      ensures chars == old(chars) && len == old(len) && lowerCaseNames == old(lowerCaseNames)
      ensures pos == TokenEnd(chars[..], old(pos), len, terminators)
      ensures result == TokenValue(chars[old(pos)..pos], false)
    {
      i1 := pos;
      i2 := pos;
      while HasChar()
        invariant old(pos) == i1 <= pos == i2 <= len <= chars.Length
        invariant TokenEnd(chars[..], i1, len, terminators) == TokenEnd(chars[..], pos, len, terminators)
        invariant chars == old(chars) && len == old(len) && lowerCaseNames == old(lowerCaseNames)
        decreases len - pos
      {
        var ch := chars[pos];
        var isTerminator := IsOneOf(ch, terminators);
        if isTerminator {
          break;
        }
        i2 := i2 + 1;
        pos := pos + 1;
      }
      result := GetToken(false);
    }

    /** `parseQuotedToken`: as `parseToken`, but terminators inside quotes do not count. */
    method ParseQuotedToken(terminators: seq<char>) returns (result: Option<string>)
      requires 0 <= pos <= len <= chars.Length
      modifies this
      ensures chars == old(chars) && len == old(len) && lowerCaseNames == old(lowerCaseNames)
      ensures pos == QuotedEnd(chars[..], old(pos), old(pos), len, terminators)
      ensures result == TokenValue(chars[old(pos)..pos], true)
    {
      i1 := pos;
      i2 := pos;
      var quoted := false;
      var charEscaped := false;
      ghost var s, start := chars[..], pos;
      while HasChar()
        invariant chars == old(chars) && len == old(len) && lowerCaseNames == old(lowerCaseNames)
        invariant chars[..] == s
        invariant start == i1 <= pos == i2 <= len <= |s|
        invariant QuoteState(quoted, charEscaped) == QuoteScan(s, start, pos)
        invariant QuotedEnd(s, start, start, len, terminators) == QuotedEnd(s, start, pos, len, terminators)
        decreases len - pos
      {
        var ch := chars[pos];
        if !quoted {
          var isTerminator := IsOneOf(ch, terminators);
          if isTerminator {
            break;
          }
        }
        QuoteStep(s, start, pos, len, terminators);
        if !charEscaped && ch == '"' {
          quoted := !quoted;
        }
        charEscaped := !charEscaped && ch == '\\';
        i2 := i2 + 1;
        pos := pos + 1;
      }
      result := GetToken(true);
    }

    /** The value part of one iteration of `parse`: an optional `=` and a decoded quoted token. */
    method ParseValue(separator: char, paramName: Option<string>, dec: Decoders) returns (value: Option<string>)
      requires 0 <= pos <= len <= chars.Length
      modifies this
      ensures chars == old(chars) && len == old(len) && lowerCaseNames == old(lowerCaseNames)
      ensures (pos, value) == ValuePart(chars[..], old(pos), len, separator, paramName, dec)
    {
      value := None;
      if HasChar() && chars[pos] == '=' {
        pos := pos + 1;
        value := ParseQuotedToken([separator]);
        if value.Some? {
          value := Some(DecodeValue(paramName, value.value, dec));
        }
      }
    }

    /** One iteration of the main loop of `parse`: a name, an optional value and a separator. */
    method ParseOne(separator: char, dec: Decoders) returns (p: Option<Param>)
      requires 0 <= pos < len <= chars.Length
      modifies this
      ensures chars == old(chars) && len == old(len) && lowerCaseNames == old(lowerCaseNames)
      ensures (pos, p) == Step(chars[..], old(pos), len, separator, lowerCaseNames, dec)
    {
      ghost var start, s := pos, chars[..];
      var paramName := ParseToken(['=', separator]);
      ghost var e1 := pos;
      assert (e1, paramName) == NamePart(s, start, len, separator);
      var paramValue := ParseValue(separator, paramName, dec);
      ghost var e2 := pos;
      StepOfParts(s, start, len, separator, lowerCaseNames, dec, e1, paramName, e2, paramValue);
      if HasChar() && chars[pos] == separator {
        pos := pos + 1;
      }
      assert pos == SkipSeparator(s, e2, len, separator);
      p := None;
      if paramName.Some? {
        var name := dec.stripDelimiter(paramName.value);
        if lowerCaseNames {
          name := LowerCase(name);
        }
        assert name == KeyOf(paramName.value, lowerCaseNames, dec);
        p := Some(Param(paramName.value, name, paramValue));
      }
      assert chars[..] == s;
    }

    /**
     * `parse(char[] charArray, int offset, int length, char separator)`: a null array gives
     * an empty map; otherwise the array is copied and scanned from `offset` to `length`.
     */
    method ParseRange(charArray: Option<array<char>>, offset: int, length: int, separator: char, dec: Decoders)
      returns (r: Result<Params, ParseError>)
      modifies this
      ensures charArray.None? ==> r == Success(map[])
      ensures charArray.Some? ==> r == ParseChars(charArray.value[..], offset, length, separator, lowerCaseNames, dec)
      ensures lowerCaseNames == old(lowerCaseNames)
    {
      if charArray.None? {
        return Success(map[]);
      }
      var a := charArray.value;
      chars := new char[a.Length](k requires 0 <= k < a.Length reads a => a[k]);
      assert chars[..] == a[..];
      pos := offset;
      len := length;
      if HasChar() && (pos < 0 || len > chars.Length) {
        return Failure(IndexOutOfBounds);
      }
      ghost var s := a[..];
      var params: Params := map[];
      while HasChar()
        invariant offset < length ==> 0 <= offset <= pos <= len == length <= chars.Length
        invariant offset >= length ==> pos == offset && len == length && params == map[]
        invariant chars[..] == s && a[..] == s && chars != a
        invariant lowerCaseNames == old(lowerCaseNames)
        invariant offset < length ==>
          Collect(map[], Entries(s, offset, len, separator, lowerCaseNames, dec))
          == Collect(params, Entries(s, pos, len, separator, lowerCaseNames, dec))
        decreases len - pos
      {
        ghost var start := pos;
        EntriesStep(params, s, start, len, separator, lowerCaseNames, dec);
        var p := ParseOne(separator, dec);
        if p.Some? {
          params := params[p.value.key := p.value.value];
        }
      }
      r := Success(params);
    }

    /** `parse(char[] charArray, char separator)`: the whole array. */
    method ParseArray(charArray: Option<array<char>>, separator: char, dec: Decoders) returns (r: Params)
      modifies this
      ensures charArray.None? ==> r == map[]
      ensures charArray.Some? ==>
        Success(r) == ParseChars(charArray.value[..], 0, charArray.value.Length, separator, lowerCaseNames, dec)
      ensures lowerCaseNames == old(lowerCaseNames)
    {
      if charArray.None? {
        return map[];
      }
      var res := ParseRange(charArray, 0, charArray.value.Length, separator, dec);
      r := if res.Success? then res.value else map[];
    }

    /** `parse(String str, char separator)`. */
    method ParseString(str: Option<string>, separator: char, dec: Decoders) returns (r: Params)
      modifies this
      ensures str.None? ==> r == map[]
      ensures str.Some? ==> Success(r) == ParseChars(str.value, 0, |str.value|, separator, lowerCaseNames, dec)
      ensures lowerCaseNames == old(lowerCaseNames)
    {
      if str.None? {
        return map[];
      }
      var s := str.value;
      var arr := new char[|s|](k requires 0 <= k < |s| => s[k]);
      assert arr[..] == s;
      r := ParseArray(Some(arr), separator, dec);
    }

    /** `parse(String str, char[] separators)`: the earliest separator in `str` is used. */
    method ParseMulti(str: Option<string>, separators: Option<seq<char>>, dec: Decoders) returns (r: Params)
      modifies this
      ensures separators.None? || |separators.value| == 0 ==> r == map[]
      ensures separators.Some? && |separators.value| > 0 && str.None? ==> r == map[]
      ensures separators.Some? && |separators.value| > 0 && str.Some? ==>
        exists sep :: sep in separators.value
          && ((forall c :: c in separators.value ==> c !in str.value) ==> sep == separators.value[0])
          && ((exists c :: c in separators.value && c in str.value) ==> EarliestIn(str.value, separators.value, sep))
          && Success(r) == ParseChars(str.value, 0, |str.value|, sep, lowerCaseNames, dec)
      ensures lowerCaseNames == old(lowerCaseNames)
    {
      if separators.None? || |separators.value| == 0 {
        return map[];
      }
      var separator := EarliestSeparator(str, separators.value);
      r := ParseString(str, separator, dec);
    }
  }
}
