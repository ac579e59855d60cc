/** Reading a score typed by the user, such as "2x1" or "2 1".
    The string is split on 'x' when it contains an 'x'; otherwise on runs of
    whitespace when it contains a space character; otherwise it is refused.
    Exactly two tokens must come out, each an integer literal. */
module ScoreParser {

  datatype Option<T> = None | Some(value: T)

  datatype Result<T, E> = Ok(value: T) | Err(error: E)

  /** Why a score was refused (all of them are a ValueError at the source). */
  datatype ScoreError =
    | NoDelimiter       // neither 'x' nor ' ' occurs
    | NotAnInteger      // a token that int() refuses
    | WrongTokenCount   // fewer or more than two tokens

  /** The characters Python's str.isspace accepts: those str.split() splits
      on. */
  predicate IsSpace(c: char) {
    ('\t' <= c <= '\r') || ('\U{1C}' <= c <= '\U{1F}') || c == ' ' ||
    c == '\U{85}' || c == '\U{A0}' || c == '\U{1680}' ||
    ('\U{2000}' <= c <= '\U{200A}') || c == '\U{2028}' || c == '\U{2029}' ||
    c == '\U{202F}' || c == '\U{205F}' || c == '\U{3000}'
  }

  predicate NoSpace(s: string) {
    forall i :: 0 <= i < |s| ==> !IsSpace(s[i])
  }

  predicate AllSpace(s: string) {
    forall i :: 0 <= i < |s| ==> IsSpace(s[i])
  }

  /** The characters int() strips around a literal: the ASCII whitespace
      " \t\n\v\f\r", and the non-ASCII characters str.isspace accepts,
      which int() first maps to ' '. The separators U+001C to U+001F are
      whitespace to str.split() but not to int(). */
  predicate IsIntSpace(c: char) {
    IsSpace(c) && !('\U{1C}' <= c <= '\U{1F}')
  }

  // ---- splitting ----

  /** str.split(sep) with an explicit one-character separator: empty tokens
      are kept, so there is always one token more than separators. */
  function SplitOn(s: string, sep: char): (r: seq<string>)
    ensures |r| >= 1
    ensures forall i :: 0 <= i < |r| ==> sep !in r[i]
    decreases |s|
  {
    if |s| == 0 then [""]
    else
      var rest := SplitOn(s[1..], sep);
      assert s == [s[0]] + s[1..];
      if s[0] == sep then [""] + rest
      else [[s[0]] + rest[0]] + rest[1..]
  }

  /** One token more than there are separators. */
  lemma {:induction false} SplitOnCount(s: string, sep: char)
    ensures |SplitOn(s, sep)| == multiset(s)[sep] + 1
    decreases |s|
  {
    if |s| > 0 {
      SplitOnCount(s[1..], sep);
      assert s == [s[0]] + s[1..];
      assert multiset(s) == multiset{s[0]} + multiset(s[1..]);
    }
  }

  /** Joining the tokens with the separator gives the string back. */
  function Join(parts: seq<string>, sep: char): (s: string)
    decreases |parts|
  {
    if |parts| == 0 then ""
    else if |parts| == 1 then parts[0]
    else parts[0] + [sep] + Join(parts[1..], sep)
  }

  lemma JoinCons(c: char, parts: seq<string>, sep: char)
    requires |parts| >= 1
    ensures Join([[c] + parts[0]] + parts[1..], sep) == [c] + Join(parts, sep)
  {
    var r := [[c] + parts[0]] + parts[1..];
    if |parts| > 1 {
      assert r[1..] == parts[1..];
    }
  }

  lemma {:induction false} JoinSplitOn(s: string, sep: char)
    ensures Join(SplitOn(s, sep), sep) == s
    decreases |s|
  {
    if |s| > 0 {
      var rest := SplitOn(s[1..], sep);
      JoinSplitOn(s[1..], sep);
      assert s == [s[0]] + s[1..];
      if s[0] == sep {
        var r := [""] + rest;
        assert SplitOn(s, sep) == r;
        assert r[1..] == rest;
        assert Join(r, sep) == "" + [sep] + Join(rest, sep);
      } else {
        JoinCons(s[0], rest, sep);
      }
    }
  }

  /** A leading token without the separator is split off as it is. */
  lemma {:induction false} SplitOnFirst(u: string, sep: char, w: string)
    requires sep !in u
    ensures SplitOn(u + [sep] + w, sep) == [u] + SplitOn(w, sep)
    decreases |u|
  {
    if |u| == 0 {
      assert u + [sep] + w == [sep] + w;
      assert ([sep] + w)[1..] == w;
    } else {
      SplitOnFirst(u[1..], sep, w);
      assert (u + [sep] + w)[1..] == u[1..] + [sep] + w;
      assert [u[0]] + u[1..] == u;
    }
  }

  lemma {:induction false} SplitOnNone(u: string, sep: char)
    requires sep !in u
    ensures SplitOn(u, sep) == [u]
    decreases |u|
  {
    if |u| > 0 {
      SplitOnNone(u[1..], sep);
      assert [u[0]] + u[1..] == u;
    }
  }

  /** The number of leading characters that are not whitespace. */
  function WordLength(s: string): (k: nat)
    ensures k <= |s|
    ensures forall i :: 0 <= i < k ==> !IsSpace(s[i])
    ensures k < |s| ==> IsSpace(s[k])
    decreases |s|
  {
    if |s| == 0 || IsSpace(s[0]) then 0 else 1 + WordLength(s[1..])
  }

  /** str.split() with no argument: the maximal runs of non-whitespace
      characters, so no token is empty and leading or trailing whitespace
      yields nothing. */
  function SplitWhitespace(s: string): (r: seq<string>)
    ensures forall i :: 0 <= i < |r| ==> r[i] != "" && NoSpace(r[i])
    decreases |s|
  {
    if |s| == 0 then []
    else if IsSpace(s[0]) then SplitWhitespace(s[1..])
    else
      var k := WordLength(s);
      [s[..k]] + SplitWhitespace(s[k..])
  }

  /** The whitespace around the tokens of str.split(): the run before the
      first token, the runs between tokens (never empty) and the run after
      the last one. */
  function Gaps(s: string): (g: seq<string>)
    ensures |g| == |SplitWhitespace(s)| + 1
    ensures forall i :: 0 <= i < |g| ==> AllSpace(g[i])
    ensures forall i :: 0 < i < |g| - 1 ==> g[i] != ""
    ensures |s| > 0 && IsSpace(s[0]) ==> g[0] != ""
    decreases |s|
  {
    if |s| == 0 then [""]
    else if IsSpace(s[0]) then
      var g := Gaps(s[1..]);
      [[s[0]] + g[0]] + g[1..]
    else
      [""] + Gaps(s[WordLength(s)..])
  }

  /** `gaps[0] + words[0] + gaps[1] + ... + words[n - 1] + gaps[n]`. */
  function Weave(gaps: seq<string>, words: seq<string>): (s: string)
    requires |gaps| == |words| + 1
    decreases |words|
  {
    if words == [] then gaps[0] else gaps[0] + words[0] + Weave(gaps[1..], words[1..])
  }

  /** A whitespace character in front extends the first gap. */
  lemma WeaveSpace(c: char, g: seq<string>, w: seq<string>)
    requires |g| == |w| + 1
    ensures Weave([[c] + g[0]] + g[1..], w) == [c] + Weave(g, w)
  {
    var G := [[c] + g[0]] + g[1..];
    assert G[0] == [c] + g[0] && G[1..] == g[1..];
  }

  /** A word in front comes after an empty first gap. */
  lemma WeaveWord(u: string, h: seq<string>, w: seq<string>)
    requires |h| == |w| + 1
    ensures Weave([""] + h, [u] + w) == u + Weave(h, w)
  {
    var G, W := [""] + h, [u] + w;
    assert G[1..] == h && W[1..] == w;
    calc {
      Weave(G, W);
      G[0] + W[0] + Weave(G[1..], W[1..]);
      { assert G[0] == "" && W[0] == u; }
      "" + u + Weave(h, w);
      { assert "" + u == u; }
      u + Weave(h, w);
    }
  }

  /** The tokens of str.split() are the words of the input, in order: put
      back between the whitespace gaps, they give the input again. */
  lemma {:induction false} SplitWhitespaceWeave(s: string)
    ensures Weave(Gaps(s), SplitWhitespace(s)) == s
    decreases |s|
  {
    if |s| > 0 {
      if IsSpace(s[0]) {
        SplitWhitespaceWeave(s[1..]);
        WeaveSpace(s[0], Gaps(s[1..]), SplitWhitespace(s[1..]));
        assert s == [s[0]] + s[1..];
      } else {
        var k := WordLength(s);
        SplitWhitespaceWeave(s[k..]);
        WeaveWord(s[..k], Gaps(s[k..]), SplitWhitespace(s[k..]));
        assert s == s[..k] + s[k..];
      }
    }
  }

  lemma {:induction false} WordLengthOf(u: string, w: string)
    requires NoSpace(u)
    requires w == [] || IsSpace(w[0])
    ensures WordLength(u + w) == |u|
    decreases |u|
  {
    if |u| > 0 {
      assert (u + w)[1..] == u[1..] + w;
      WordLengthOf(u[1..], w);
    } else {
      assert u + w == w;
    }
  }

  /** A word followed by whitespace (or by nothing) is the first token. */
  lemma SplitWhitespaceWord(u: string, w: string)
    requires u != [] && NoSpace(u)
    requires w == [] || IsSpace(w[0])
    ensures SplitWhitespace(u + w) == [u] + SplitWhitespace(w)
  {
    WordLengthOf(u, w);
    assert (u + w)[..|u|] == u && (u + w)[|u|..] == w;
  }

  // ---- integers ----

  predicate IsDigit(c: char) {
    '0' <= c <= '9'
  }

  predicate AllDigits(s: string) {
    forall i :: 0 <= i < |s| ==> IsDigit(s[i])
  }

  /** The value of a string of decimal digits, most significant first. */
  function DigitsValue(s: string): (n: nat)
    requires AllDigits(s)
    decreases |s|
  {
    if |s| == 0 then 0
    else DigitsValue(s[..|s| - 1]) * 10 + (s[|s| - 1] as int - '0' as int)
  }

  predicate IsSign(c: char) {
    c == '+' || c == '-'
  }

  /** An integer literal: an optional sign in front, every other character
      a decimal digit, and at least one digit. */
  predicate IsIntLiteral(t: string) {
    |t| > 0 && IsDigit(t[|t| - 1]) &&
    forall i :: 0 <= i < |t| ==> IsDigit(t[i]) || (i == 0 && IsSign(t[i]))
  }

  /** `s` without the leading whitespace int() ignores. */
  function TrimStart(s: string): (r: string)
    ensures |r| <= |s| && r == s[|s| - |r|..]
    ensures forall i :: 0 <= i < |s| - |r| ==> IsIntSpace(s[i])
    ensures r == [] || !IsIntSpace(r[0])
    decreases |s|
  {
    if |s| > 0 && IsIntSpace(s[0]) then TrimStart(s[1..]) else s
  }

  /** `s` without the trailing whitespace int() ignores. */
  function TrimEnd(s: string): (r: string)
    ensures |r| <= |s| && r == s[..|r|]
    ensures forall i :: |r| <= i < |s| ==> IsIntSpace(s[i])
    ensures r == [] || !IsIntSpace(r[|r| - 1])
    decreases |s|
  {
    if |s| > 0 && IsIntSpace(s[|s| - 1]) then TrimEnd(s[..|s| - 1]) else s
  }

  /** An integer literal is a sign followed by digits, or digits alone. */
  lemma LiteralShape(t: string)
    ensures IsIntLiteral(t) <==>
      |t| > 0 && if IsSign(t[0]) then |t| > 1 && AllDigits(t[1..]) else AllDigits(t)
  {
    if |t| > 0 && IsSign(t[0]) {
      if IsIntLiteral(t) {
        forall i | 0 <= i < |t| - 1 ensures IsDigit(t[1..][i]) {
          assert t[1..][i] == t[i + 1];
        }
      }
      if |t| > 1 && AllDigits(t[1..]) {
        forall i | 0 < i < |t| ensures IsDigit(t[i]) {
          assert t[i] == t[1..][i - 1];
        }
        assert IsDigit(t[1..][|t| - 2]);
      }
    }
  }

  /** Trimming leaves a string without whitespace as it is. */
  lemma TrimNoSpace(s: string)
    ensures NoSpace(s) ==> TrimEnd(TrimStart(s)) == s
  {
    if NoSpace(s) && s != [] {
      assert !IsIntSpace(s[0]) && !IsIntSpace(s[|s| - 1]);
    }
  }

  /** Reads an integer literal with nothing around it: an optional sign,
      then decimal digits; the value carries the sign. */
  function ParseLiteral(t: string): (r: Option<int>)
    ensures r.Some? <==> IsIntLiteral(t)
    ensures r.Some? ==>
      |t| > 0 &&
      if IsSign(t[0]) then
        AllDigits(t[1..]) &&
        r.value == (if t[0] == '-' then -(DigitsValue(t[1..]) as int) else DigitsValue(t[1..]))
      else
        AllDigits(t) && r.value == DigitsValue(t)
  {
    LiteralShape(t);
    if |t| > 0 && IsSign(t[0]) then
      var digits := t[1..];
      if |digits| > 0 && AllDigits(digits) then
        var magnitude: int := DigitsValue(digits);
        Some(if t[0] == '-' then -magnitude else magnitude)
      else None
    else if |t| > 0 && AllDigits(t) then Some(DigitsValue(t))
    else None
  }

  /** int(token) for a string: the surrounding whitespace int() ignores is
      stripped, and what remains must be an integer literal. */
  function ParseInt(token: string): (r: Option<int>)
    ensures r.Some? <==> IsIntLiteral(TrimEnd(TrimStart(token)))
    ensures r.Some? ==>
      var t := TrimEnd(TrimStart(token));
      |t| > 0 &&
      if IsSign(t[0]) then
        AllDigits(t[1..]) &&
        r.value == (if t[0] == '-' then -(DigitsValue(t[1..]) as int) else DigitsValue(t[1..]))
      else
        AllDigits(t) && r.value == DigitsValue(t)
    ensures NoSpace(token) && token != [] && AllDigits(token) ==> r == Some(DigitsValue(token))
  {
    TrimNoSpace(token);
    ParseLiteral(TrimEnd(TrimStart(token)))
  }

  // ---- the score ----

  /** The tokens the delimiter rule produces, or None without a delimiter. */
  function Tokens(input: string): (r: Option<seq<string>>)
    ensures r.None? <==> 'x' !in input && ' ' !in input
  {
    if 'x' in input then Some(SplitOn(input, 'x'))
    else if ' ' in input then Some(SplitWhitespace(input))
    else None
  }

  /** `score1, score2 = map(int, tokens)`: the values are converted one by
      one as the unpacking asks for them, so a bad token before the excess
      one is reported as such. */
  function Unpack(tokens: seq<string>): (r: Result<(int, int), ScoreError>)
    ensures r.Ok? <==> |tokens| == 2 && ParseInt(tokens[0]).Some? && ParseInt(tokens[1]).Some?
    ensures r.Ok? ==> r.value == (ParseInt(tokens[0]).value, ParseInt(tokens[1]).value)
    ensures r.Err? ==> r.error != NoDelimiter
  {
    if |tokens| == 0 then Err(WrongTokenCount)
    else if ParseInt(tokens[0]).None? then Err(NotAnInteger)
    else if |tokens| == 1 then Err(WrongTokenCount)
    else if ParseInt(tokens[1]).None? then Err(NotAnInteger)
    else if |tokens| > 2 then
      (if ParseInt(tokens[2]).None? then Err(NotAnInteger) else Err(WrongTokenCount))
    else Ok((ParseInt(tokens[0]).value, ParseInt(tokens[1]).value))
  }

  /** Parses a score and unpacks it into exactly two integers. */
  function ParseScore(input: string): (r: Result<(int, int), ScoreError>)
    ensures r.Ok? <==>
      Tokens(input).Some? && |Tokens(input).value| == 2 &&
      ParseInt(Tokens(input).value[0]).Some? && ParseInt(Tokens(input).value[1]).Some?
    ensures r.Ok? ==>
      r.value == (ParseInt(Tokens(input).value[0]).value, ParseInt(Tokens(input).value[1]).value)
    ensures r == Err(NoDelimiter) <==> 'x' !in input && ' ' !in input
  {
    match Tokens(input)
    case None => Err(NoDelimiter)
    case Some(tokens) => Unpack(tokens)
  }

  // ---- printing integers, the inverse of ParseInt ----

  function DigitChar(d: nat): (c: char)
    requires d < 10
    ensures IsDigit(c) && c as int - '0' as int == d
  {
    ('0' as int + d) as char
  }

  /** The decimal digits of `n`, without leading zeros. */
  function NatToString(n: nat): (s: string)
    ensures s != [] && AllDigits(s)
    decreases n
  {
    if n < 10 then [DigitChar(n)] else NatToString(n / 10) + [DigitChar(n % 10)]
  }

  /** How Python prints an int: a '-' before the digits of a negative one. */
  function IntToString(n: int): (s: string) {
    if n < 0 then "-" + NatToString(-n) else NatToString(n)
  }

  lemma {:induction false} NatToStringValue(n: nat)
    ensures DigitsValue(NatToString(n)) == n
    decreases n
  {
    if n >= 10 {
      NatToStringValue(n / 10);
      var s := NatToString(n);
      assert s[..|s| - 1] == NatToString(n / 10);
    }
  }

  lemma DigitsHaveNoSpace(s: string)
    requires AllDigits(s)
    ensures NoSpace(s) && 'x' !in s && ' ' !in s
  {
    forall i | 0 <= i < |s| ensures !IsSpace(s[i]) {
      assert IsDigit(s[i]);
    }
  }

  /** A printed integer is one non-empty token without whitespace or 'x'. */
  lemma PrintedShape(n: int)
    ensures IntToString(n) != [] && NoSpace(IntToString(n)) && 'x' !in IntToString(n)
  {
    var digits := NatToString(if n < 0 then -n else n);
    DigitsHaveNoSpace(digits);
    if n < 0 {
      var s := IntToString(n);
      assert s == ['-'] + digits;
      forall i | 0 <= i < |s| ensures !IsSpace(s[i]) && s[i] != 'x' {
        if i > 0 { assert s[i] == digits[i - 1]; }
      }
    }
  }

  /** Reading back a printed integer gives the integer. */
  lemma IntToStringRoundTrip(n: int)
    ensures ParseInt(IntToString(n)) == Some(n)
  {
    var m := if n < 0 then -n else n;
    var digits := NatToString(m);
    NatToStringValue(m);
    PrintedShape(n);
    var s := IntToString(n);
    TrimNoSpace(s);
    if n < 0 {
      assert s[0] == '-' && s[1..] == digits;
    } else {
      assert s == digits && s[0] != '+' && s[0] != '-';
    }
  }

  /** Two printed integers unpack into their values. */
  lemma UnpackPrinted(a: int, b: int)
    ensures Unpack([IntToString(a), IntToString(b)]) == Ok((a, b))
  {
    IntToStringRoundTrip(a);
    IntToStringRoundTrip(b);
  }

  lemma TokensWithX(u: string, v: string)
    requires 'x' !in u && 'x' !in v
    ensures Tokens(u + "x" + v) == Some([u, v])
  {
    var s := u + "x" + v;
    assert s == u + ['x'] + v;
    assert s[|u|] == 'x';
    assert 'x' in s;
    SplitOnFirst(u, 'x', v);
    SplitOnNone(v, 'x');
    assert SplitOn(s, 'x') == [u, v];
  }

  lemma TokensWithSpace(u: string, v: string)
    requires u != [] && NoSpace(u) && 'x' !in u
    requires v != [] && NoSpace(v) && 'x' !in v
    ensures Tokens(u + " " + v) == Some([u, v])
  {
    var s := u + " " + v;
    assert s == u + ([' '] + v);
    assert s[|u|] == ' ';
    assert ' ' in s;
    assert 'x' !in s by {
      forall i | 0 <= i < |s| ensures s[i] != 'x' {
        if i < |u| { assert s[i] == u[i]; }
        else if i > |u| { assert s[i] == v[i - |u| - 1]; }
      }
    }
    SplitWhitespaceWord(u, [' '] + v);
    assert ([' '] + v)[1..] == v;
    assert v + [] == v;
    SplitWhitespaceWord(v, []);
    assert SplitWhitespace([' '] + v) == SplitWhitespace(v);
    assert SplitWhitespace(s) == [u, v];
  }

  /** A score written as "<a>x<b>" reads back as (a, b). */
  lemma ParseScoreWithX(a: int, b: int)
    ensures ParseScore(IntToString(a) + "x" + IntToString(b)) == Ok((a, b))
  {
    PrintedShape(a);
    PrintedShape(b);
    TokensWithX(IntToString(a), IntToString(b));
    UnpackPrinted(a, b);
  }

  /** A score written as "<a> <b>" reads back as (a, b). */
  lemma ParseScoreWithSpace(a: int, b: int)
    ensures ParseScore(IntToString(a) + " " + IntToString(b)) == Ok((a, b))
  {
    PrintedShape(a);
    PrintedShape(b);
    TokensWithSpace(IntToString(a), IntToString(b));
    UnpackPrinted(a, b);
  }

  lemma TokensWithTwoX(u: string, v: string, w: string)
    requires 'x' !in u && 'x' !in v && 'x' !in w
    ensures Tokens(u + "x" + v + "x" + w) == Some([u, v, w])
  {
    var tail := v + ['x'] + w;
    var s := u + ['x'] + tail;
    assert u + "x" + v + "x" + w == s;
    assert s[|u|] == 'x';
    SplitOnFirst(u, 'x', tail);
    SplitOnFirst(v, 'x', w);
    SplitOnNone(w, 'x');
    assert SplitOn(tail, 'x') == [v, w];
    assert SplitOn(s, 'x') == [u, v, w];
  }

  /** Three tokens joined by 'x' are refused once the third converts: the
      unpacking takes two. */
  lemma ParseScoreThreeTokens(u: string, v: string, w: string)
    requires 'x' !in u && 'x' !in v && 'x' !in w
    requires ParseInt(u).Some? && ParseInt(v).Some? && ParseInt(w).Some?
    ensures ParseScore(u + "x" + v + "x" + w) == Err(WrongTokenCount)
  {
    TokensWithTwoX(u, v, w);
    var tokens := [u, v, w];
    assert tokens[0] == u && tokens[1] == v && tokens[2] == w;
    assert Unpack(tokens) == Err(WrongTokenCount);
  }

  /** Three integers joined by 'x' are refused. */
  lemma ParseScoreThreeValues(a: int, b: int, c: int)
    ensures ParseScore(IntToString(a) + "x" + IntToString(b) + "x" + IntToString(c)) == Err(WrongTokenCount)
  {
    PrintedShape(a);
    PrintedShape(b);
    PrintedShape(c);
    IntToStringRoundTrip(a);
    IntToStringRoundTrip(b);
    IntToStringRoundTrip(c);
    ParseScoreThreeTokens(IntToString(a), IntToString(b), IntToString(c));
  }

  /** A single digit prints as itself. */
  lemma PrintedDigit(n: int)
    requires 0 <= n < 10
    ensures IntToString(n) == [DigitChar(n)]
  {
  }

  /** "2x1" reads as (2, 1). */
  lemma ScoreExampleWithX()
    ensures ParseScore("2x1") == Ok((2, 1))
  {
    PrintedDigit(2);
    PrintedDigit(1);
    var s := IntToString(2) + "x" + IntToString(1);
    assert s == "2x1";
    ParseScoreWithX(2, 1);
  }

  /** "2 1" reads as (2, 1). */
  lemma ScoreExampleWithSpace()
    ensures ParseScore("2 1") == Ok((2, 1))
  {
    PrintedDigit(2);
    PrintedDigit(1);
    var s := IntToString(2) + " " + IntToString(1);
    assert s == "2 1";
    ParseScoreWithSpace(2, 1);
  }

  /** Without 'x' or ' ' there is no delimiter. */
  lemma ScoreExampleNoDelimiter()
    ensures ParseScore("abc") == Err(NoDelimiter)
  {
    var s := "abc";
    assert s == ['a', 'b', 'c'];
    assert 'x' !in s && ' ' !in s;
  }

  /** Only the space character selects the whitespace split: "2\t1" is
      refused, though the split itself would also cut at the tab. */
  lemma ScoreExampleTab()
    ensures ParseScore("2\t1") == Err(NoDelimiter)
  {
    var s := "2\t1";
    assert s == ['2', '\t', '1'];
    assert 'x' !in s && ' ' !in s;
  }

  /** "2x1x3" has three tokens. */
  lemma ScoreExampleThreeTokens()
    ensures ParseScore("2x1x3") == Err(WrongTokenCount)
  {
    PrintedDigit(2);
    PrintedDigit(1);
    PrintedDigit(3);
    var s := IntToString(2) + "x" + IntToString(1) + "x" + IntToString(3);
    assert s == "2x1x3";
    ParseScoreThreeValues(2, 1, 3);
  }

  /** A token with no whitespace at its ends is accepted exactly when it is
      an integer literal. */
  lemma ParseIntUnpadded(t: string)
    requires t != [] && !IsIntSpace(t[0]) && !IsIntSpace(t[|t| - 1])
    ensures ParseInt(t).Some? <==> IsIntLiteral(t)
  {
    assert TrimStart(t) == t;
  }

  /** A leading space is trimmed off. */
  lemma TrimStartSpace(t: string)
    requires t != [] && !IsIntSpace(t[0])
    ensures TrimStart(" " + t) == t
  {
    assert (" " + t)[1..] == t;
  }

  /** A trailing space is trimmed off. */
  lemma TrimEndSpace(t: string)
    requires t != [] && !IsIntSpace(t[|t| - 1])
    ensures TrimEnd(t + " ") == t
  {
    assert (t + " ")[..|t|] == t;
  }

  /** Spaces around a token do not change what int() reads. */
  lemma ParseIntPadded(t: string)
    requires t != [] && !IsIntSpace(t[0]) && !IsIntSpace(t[|t| - 1])
    ensures ParseInt(" " + t + " ") == ParseInt(t)
  {
    var u := t + " ";
    assert " " + t + " " == " " + u;
    TrimStartSpace(u);
    TrimEndSpace(t);
    assert TrimStart(t) == t && TrimEnd(t) == t;
  }

  /** A token without whitespace at its ends is refused when some character
      is neither a digit nor a leading sign. */
  lemma ParseIntBadAt(t: string, i: nat)
    requires t != [] && !IsIntSpace(t[0]) && !IsIntSpace(t[|t| - 1])
    requires i < |t| && !IsDigit(t[i]) && (i > 0 || !IsSign(t[i]))
    ensures ParseInt(t) == None
  {
    ParseIntUnpadded(t);
  }

  /** int() keeps the separator U+001C, which str.split() would cut at, so
      a literal behind it is refused. */
  lemma IntExampleSeparator()
    ensures ParseInt("\U{1C}2") == None
  {
    ParseIntBadAt("\U{1C}2", 0);
  }

  /** A letter is not an integer. */
  lemma IntExampleLetter()
    ensures ParseInt("a") == None
  {
    ParseIntBadAt("a", 0);
  }

  /** Digits must not be followed by anything else. */
  lemma IntExampleTrailingLetter()
    ensures ParseInt("1a") == None
  {
    ParseIntBadAt("1a", 1);
  }

  /** Only one sign is allowed. */
  lemma IntExampleDoubleSign()
    ensures ParseInt("--1") == None
  {
    ParseIntBadAt("--1", 1);
  }

  /** A sign needs at least one digit after it. */
  lemma IntExampleSignOnly()
    ensures ParseInt("+").None?
  {
    ParseIntUnpadded("+");
  }

  /** A padded negative literal reads as its value. */
  lemma IntExampleSigned()
    ensures ParseInt(" -7 ") == Some(-7)
  {
    var t := IntToString(-7);
    assert t == "-" + [DigitChar(7)] == "-7";
    assert " " + t + " " == " -7 ";
    IntToStringRoundTrip(-7);
    ParseIntPadded(t);
  }

  /** Two 'x'-separated tokens are refused when either is not an integer. */
  lemma ParseScoreBadToken(u: string, v: string)
    requires 'x' !in u && 'x' !in v
    requires ParseInt(u).None? || ParseInt(v).None?
    ensures ParseScore(u + "x" + v) == Err(NotAnInteger)
  {
    TokensWithX(u, v);
    var tokens := [u, v];
    assert tokens[0] == u && tokens[1] == v;
  }

  /** A printed integer followed by 'x' and a non-integer is refused. */
  lemma ParseScoreBadSecond(a: int, v: string)
    requires 'x' !in v && ParseInt(v).None?
    ensures ParseScore(IntToString(a) + "x" + v) == Err(NotAnInteger)
  {
    PrintedShape(a);
    ParseScoreBadToken(IntToString(a), v);
  }

  /** A non-integer followed by 'x' and a printed integer is refused. */
  lemma ParseScoreBadFirst(u: string, b: int)
    requires 'x' !in u && ParseInt(u).None?
    ensures ParseScore(u + "x" + IntToString(b)) == Err(NotAnInteger)
  {
    PrintedShape(b);
    ParseScoreBadToken(u, IntToString(b));
  }

  /** A token that starts with U+001C, then 'x' and an integer, is refused. */
  lemma ParseScoreSeparatorFirst(b: int)
    ensures ParseScore("\U{1C}2" + "x" + IntToString(b)) == Err(NotAnInteger)
  {
    IntExampleSeparator();
    ParseScoreBadFirst("\U{1C}2", b);
  }

  /** "\U{1C}2x1" is refused: its first token is not an integer. */
  lemma ScoreExampleSeparator()
    ensures ParseScore("\U{1C}2x1") == Err(NotAnInteger)
  {
    PrintedDigit(1);
    assert "\U{1C}2" + "x" + IntToString(1) == "\U{1C}2x1";
    ParseScoreSeparatorFirst(1);
  }

  /** An integer, then 'x' and a letter, is refused. */
  lemma ParseScoreLetterSecond(a: int)
    ensures ParseScore(IntToString(a) + "x" + "a") == Err(NotAnInteger)
  {
    IntExampleLetter();
    ParseScoreBadSecond(a, "a");
  }

  /** "2xa" is refused: its second token is not an integer. */
  lemma ScoreExampleLetter()
    ensures ParseScore("2xa") == Err(NotAnInteger)
  {
    PrintedDigit(2);
    assert IntToString(2) + "x" + "a" == "2xa";
    ParseScoreLetterSecond(2);
  }
}
