/**
 * A song's `genre_ids` field: either missing (pandas' NaN) or text of
 * integer codes separated by '|'. Parsing it is `str(x).split('|')`
 * followed by Python's `int()` on every piece; a piece that `int()`
 * rejects raises, which aborts the whole run.
 */
module GenreField {
  import opened Wrappers

  /** The separator between codes in a `genre_ids` field. */
  const Delimiter: char := '|'

  /** The ValueError raised by `int()`, with the piece it could not read. */
  datatype ParseError = BadToken(token: string)

  // ---------------------------------------------------------------------
  // Splitting on the delimiter
  // ---------------------------------------------------------------------

  /** `'|'.join(parts)`. */
  function Join(parts: seq<string>): string
    requires |parts| >= 1
    decreases |parts|
  {
    if |parts| == 1 then parts[0] else parts[0] + [Delimiter] + Join(parts[1..])
  }

  /**
   * Python's `s.split('|')`: the pieces between delimiters, never an empty
   * list (the empty string gives `[""]`).
   */
  function Split(s: string): (parts: seq<string>)
    ensures |parts| >= 1
    ensures forall k :: 0 <= k < |parts| ==> Delimiter !in parts[k]
  {
    if s == [] then [[]]
    else
      var rest := Split(s[1..]);
      if s[0] == Delimiter then [[]] + rest
      else
        var parts := [[s[0]] + rest[0]] + rest[1..];
        assert parts[1..] == rest[1..];
        parts
  }

  /** Joining the pieces with '|' gives back the split text. */
  lemma {:induction false} JoinSplit(s: string)
    ensures Join(Split(s)) == s
  {
    if s != [] {
      var tail := s[1..];
      var rest := Split(tail);
      JoinSplit(tail);
      assert s == [s[0]] + tail;
      var parts := Split(s);
      if s[0] == Delimiter {
        assert parts == [[]] + rest && parts[1..] == rest;
        assert Join(parts) == [] + [Delimiter] + Join(rest);
      } else if |rest| == 1 {
        assert parts == [[s[0]] + rest[0]];
      } else {
        assert parts[0] == [s[0]] + rest[0] && parts[1..] == rest[1..];
        assert Join(rest) == rest[0] + [Delimiter] + Join(rest[1..]);
        assert Join(parts) == parts[0] + [Delimiter] + Join(rest[1..]);
      }
    }
  }

  /** Splitting text that starts with a delimiter-free prefix glues the prefix to the first piece. */
  lemma {:induction false} SplitAfterPlain(p: string, x: string)
    requires Delimiter !in p
    ensures Split(p + x) == [p + Split(x)[0]] + Split(x)[1..]
  {
    if p == [] {
      assert p + x == x;
      assert p + Split(x)[0] == Split(x)[0];
      assert Split(x) == [Split(x)[0]] + Split(x)[1..];
    } else {
      SplitAfterPlain(p[1..], x);
      assert (p + x)[0] == p[0];
      assert (p + x)[1..] == p[1..] + x;
      assert [p[0]] + (p[1..] + Split(x)[0]) == p + Split(x)[0];
    }
  }

  /** Splitting text that starts with the delimiter yields an empty first piece. */
  lemma SplitAfterDelimiter(x: string)
    ensures Split([Delimiter] + x) == [[]] + Split(x)
  {
    assert ([Delimiter] + x)[1..] == x;
  }

  /** Split undoes Join when no piece contains the delimiter. */
  lemma {:induction false} SplitJoin(parts: seq<string>)
    requires |parts| >= 1
    requires forall k :: 0 <= k < |parts| ==> Delimiter !in parts[k]
    ensures Split(Join(parts)) == parts
    decreases |parts|
  {
    if |parts| == 1 {
      SplitAfterPlain(parts[0], []);
      assert parts[0] + [] == parts[0];
      assert parts == [parts[0]];
    } else {
      var rest := parts[1..];
      SplitJoin(rest);
      var tail := [Delimiter] + Join(rest);
      SplitAfterDelimiter(Join(rest));
      SplitAfterPlain(parts[0], tail);
      assert Join(parts) == parts[0] + tail;
      assert parts[0] + [] == parts[0];
      assert parts == [parts[0]] + rest;
    }
  }

  // ---------------------------------------------------------------------
  // Python's int() on one piece
  // ---------------------------------------------------------------------

  predicate IsDigit(c: char) {
    '0' <= c <= '9'
  }

  /**
   * The ASCII characters `int()` ignores around a numeral: space, \t \n \v
   * \f \r. The separators \x1c-\x1f, though `str.isspace()` holds of them,
   * are not stripped, and a piece holding one is rejected.
   */
  predicate IsSpace(c: char) {
    c == ' ' || 9 <= c as int <= 13
  }

  /** Drops leading whitespace. */
  function TrimStart(s: string): string {
    if s != [] && IsSpace(s[0]) then TrimStart(s[1..]) else s
  }

  /** Drops trailing whitespace. */
  function TrimEnd(s: string): string {
    if s != [] && IsSpace(s[|s| - 1]) then TrimEnd(s[..|s| - 1]) else s
  }

  function Trim(s: string): string {
    TrimEnd(TrimStart(s))
  }

  /** TrimStart removes a prefix made only of whitespace (that it removes all of it is TrimStartStrips). */
  lemma {:induction false} TrimStartDropsSpace(s: string)
    ensures |TrimStart(s)| <= |s| && TrimStart(s) == s[|s| - |TrimStart(s)|..]
    ensures forall k :: 0 <= k < |s| - |TrimStart(s)| ==> IsSpace(s[k])
  {
    if s != [] && IsSpace(s[0]) {
      TrimStartDropsSpace(s[1..]);
    }
  }

  /** TrimEnd removes a suffix made only of whitespace (that it removes all of it is TrimEndStrips). */
  lemma {:induction false} TrimEndDropsSpace(s: string)
    ensures |TrimEnd(s)| <= |s| && TrimEnd(s) == s[..|TrimEnd(s)|]
    ensures forall k :: |TrimEnd(s)| <= k < |s| ==> IsSpace(s[k])
  {
    if s != [] && IsSpace(s[|s| - 1]) {
      TrimEndDropsSpace(s[..|s| - 1]);
    }
  }

  /** Decimal digits with single underscores between them, the numerals `int()` accepts. */
  predicate IsNumeral(d: string) {
    && |d| > 0
    && IsDigit(d[0])
    && IsDigit(d[|d| - 1])
    && (forall k :: 0 <= k < |d| ==> IsDigit(d[k]) || d[k] == '_')
    && (forall k :: 0 <= k < |d| - 1 ==> IsDigit(d[k]) || IsDigit(d[k + 1]))
  }

  /** The value of a numeral read in base 10, underscores ignored. */
  function NumeralValue(d: string): nat
    requires forall k :: 0 <= k < |d| ==> IsDigit(d[k]) || d[k] == '_'
  {
    if d == [] then 0
    else
      var last := d[|d| - 1];
      if last == '_' then NumeralValue(d[..|d| - 1])
      else
        assert IsDigit(last);
        10 * NumeralValue(d[..|d| - 1]) + (last as int - '0' as int)
  }

  /**
   * Python's `int(token)`: surrounding whitespace, then an optional sign,
   * then a numeral. `None` stands for the ValueError it raises otherwise.
   */
  function ParseInt(token: string): Option<int> {
    var t := Trim(token);
    if |t| > 0 && (t[0] == '+' || t[0] == '-') then
      var d := t[1..];
      if IsNumeral(d) then
        var v: int := NumeralValue(d);
        Some(if t[0] == '-' then -v else v)
      else None
    else if IsNumeral(t) then Some(NumeralValue(t))
    else None
  }

  /** TrimStart leaves no leading whitespace. */
  lemma {:induction false} TrimStartStrips(s: string)
    ensures TrimStart(s) == [] || !IsSpace(TrimStart(s)[0])
  {
    if s != [] && IsSpace(s[0]) {
      TrimStartStrips(s[1..]);
    }
  }

  /** TrimEnd leaves no trailing whitespace. */
  lemma {:induction false} TrimEndStrips(s: string)
    ensures TrimEnd(s) == [] || !IsSpace(TrimEnd(s)[|TrimEnd(s)| - 1])
  {
    if s != [] && IsSpace(s[|s| - 1]) {
      TrimEndStrips(s[..|s| - 1]);
    }
  }

  /** The characters `int()` tolerates in a piece. */
  predicate IsNumeralChar(c: char) {
    IsDigit(c) || IsSpace(c) || c == '+' || c == '-' || c == '_'
  }

  /** An optionally signed numeral is made of numeral characters and holds a digit. */
  lemma SignedNumeralChars(t: string)
    requires IsNumeral(t) || (|t| > 0 && (t[0] == '+' || t[0] == '-') && IsNumeral(t[1..]))
    ensures forall k :: 0 <= k < |t| ==> IsNumeralChar(t[k])
    ensures IsDigit(t[|t| - 1])
  {
    if !IsNumeral(t) {
      var d := t[1..];
      assert forall k :: 1 <= k < |t| ==> t[k] == d[k - 1];
    }
  }

  /**
   * `int()` rejects every piece holding some other character, and every
   * piece without a digit (such as the empty piece of "12||3").
   */
  lemma ParseIntRejects(token: string)
    ensures ParseInt(token).Some? ==> forall k :: 0 <= k < |token| ==> IsNumeralChar(token[k])
    ensures ParseInt(token).Some? ==> exists k :: 0 <= k < |token| && IsDigit(token[k])
  {
    var t0 := TrimStart(token);
    var t := TrimEnd(t0);
    TrimStartDropsSpace(token);
    TrimEndDropsSpace(t0);
    var off := |token| - |t0|;
    assert t0 == token[off..];
    assert t == t0[..|t|];
    if ParseInt(token).Some? {
      assert t == Trim(token);
      SignedNumeralChars(t);
      forall k | 0 <= k < |token| ensures IsNumeralChar(token[k]) {
        if k < off {
          assert IsSpace(token[k]);
        } else if k < off + |t| {
          assert token[k] == t[k - off];
        } else {
          assert token[k] == t0[k - off];
          assert IsSpace(t0[k - off]);
        }
      }
      assert token[off + |t| - 1] == t[|t| - 1];
    }
  }

  /**
   * A piece holding one of the separators \x1c-\x1f anywhere, padding
   * included, is rejected: `int("\x1f7")` raises.
   */
  lemma SeparatorRejected(token: string, k: int)
    requires 0 <= k < |token| && 28 <= token[k] as int <= 31
    ensures ParseInt(token) == None
  {
    ParseIntRejects(token);
    assert !IsNumeralChar(token[k]);
  }

  /** So the field "\x1f7|3" (31 is \x1f) makes the run abort on its first piece. */
  lemma SeparatorFieldRejected()
    ensures ParseGenres(Some([31 as char, '7', '|', '3'])) == Failure(BadToken([31 as char, '7']))
  {
    var first := [31 as char, '7'];
    SplitAfterPlain(['3'], []);
    assert ['3'] + [] == ['3'];
    SplitAfterDelimiter(['3']);
    SplitAfterPlain(first, ['|', '3']);
    assert first + ['|', '3'] == [31 as char, '7', '|', '3'];
    assert first + [] == first;
    SeparatorRejected([31 as char, '7'], 0);
  }

  // ---------------------------------------------------------------------
  // Writing codes back as text (the inverse of parsing)
  // ---------------------------------------------------------------------

  function DigitChar(n: nat): (c: char)
    requires n < 10
    ensures IsDigit(c)
  {
    ('0' as int + n) as char
  }

  /** `str(n)` for a natural number. */
  function ShowNat(n: nat): (s: string)
    ensures |s| >= 1
    ensures forall k :: 0 <= k < |s| ==> IsDigit(s[k])
  {
    if n < 10 then [DigitChar(n)] else ShowNat(n / 10) + [DigitChar(n % 10)]
  }

  /** `str(n)` for an integer. */
  function Show(n: int): (s: string)
    ensures |s| >= 1 && Delimiter !in s
  {
    if n < 0 then ['-'] + ShowNat(-n) else ShowNat(n)
  }

  lemma {:induction false} NumeralShowNat(n: nat)
    ensures IsNumeral(ShowNat(n))
    ensures NumeralValue(ShowNat(n)) == n
  {
    var s := ShowNat(n);
    if n >= 10 {
      NumeralShowNat(n / 10);
      assert s[..|s| - 1] == ShowNat(n / 10);
    }
  }

  /** `int(str(n)) == n`. */
  lemma ParseShow(n: int)
    ensures ParseInt(Show(n)) == Some(n)
  {
    var s := Show(n);
    NumeralShowNat(if n < 0 then -n else n);
    assert !IsSpace(s[0]) && !IsSpace(s[|s| - 1]);
    assert TrimStart(s) == s;
    assert TrimEnd(s) == s;
    if n < 0 {
      assert s[1..] == ShowNat(-n);
    }
  }

  /** Whitespace in front of text that starts with a non-space is exactly what TrimStart removes. */
  lemma {:induction false} TrimStartPadding(pad: string, x: string)
    requires forall k :: 0 <= k < |pad| ==> IsSpace(pad[k])
    requires x != [] && !IsSpace(x[0])
    ensures TrimStart(pad + x) == x
  {
    if pad == [] {
      assert pad + x == x;
    } else {
      assert (pad + x)[1..] == pad[1..] + x;
      TrimStartPadding(pad[1..], x);
    }
  }

  /** Whitespace after text that ends with a non-space is exactly what TrimEnd removes. */
  lemma {:induction false} TrimEndPadding(x: string, pad: string)
    requires forall k :: 0 <= k < |pad| ==> IsSpace(pad[k])
    requires x != [] && !IsSpace(x[|x| - 1])
    ensures TrimEnd(x + pad) == x
  {
    if pad == [] {
      assert x + pad == x;
    } else {
      assert (x + pad)[..|x + pad| - 1] == x + pad[..|pad| - 1];
      TrimEndPadding(x, pad[..|pad| - 1]);
    }
  }

  /** `int()` ignores whitespace around a code: `int(" 12\n") == 12`. */
  lemma ParsePadded(n: int, before: string, after: string)
    requires forall k :: 0 <= k < |before| ==> IsSpace(before[k])
    requires forall k :: 0 <= k < |after| ==> IsSpace(after[k])
    ensures ParseInt(before + Show(n) + after) == Some(n)
  {
    var s := Show(n);
    ParseShow(n);
    NumeralShowNat(if n < 0 then -n else n);
    assert !IsSpace(s[0]) && !IsSpace(s[|s| - 1]);
    assert before + s + after == before + (s + after);
    TrimStartPadding(before, s + after);
    TrimEndPadding(s, after);
    assert Trim(before + s + after) == s;
    assert TrimStart(s) == s && TrimEnd(s) == s;
  }

  // ---------------------------------------------------------------------
  // The whole field
  // ---------------------------------------------------------------------

  /** Every piece is accepted by `int()`. */
  predicate AllParse(tokens: seq<string>) {
    forall k :: 0 <= k < |tokens| ==> ParseInt(tokens[k]).Some?
  }

  /** `[int(y) for y in pieces]`: every piece must parse, or the comprehension raises. */
  function ParseTokens(tokens: seq<string>): (r: Result<seq<int>, ParseError>)
    ensures r.Success? <==> AllParse(tokens)
    ensures r.Success? ==> |r.value| == |tokens|
    ensures r.Success? ==> forall k :: 0 <= k < |tokens| ==> ParseInt(tokens[k]) == Some(r.value[k])
    ensures r.Failure? ==> r.error.token in tokens && ParseInt(r.error.token).None?
  {
    if tokens == [] then Success([])
    else match ParseInt(tokens[0])
      case None => Failure(BadToken(tokens[0]))
      case Some(n) =>
        match ParseTokens(tokens[1..])
        case Failure(e) => Failure(e)
        case Success(rest) =>
          Success([n] + rest)
  }

  /** The comprehension raises on the first piece `int()` rejects: every piece before it parses. */
  lemma {:induction false} ParseTokensFirstFailure(tokens: seq<string>)
    ensures ParseTokens(tokens).Failure? ==>
      exists k :: 0 <= k < |tokens| && AllParse(tokens[..k]) && ParseTokens(tokens).error == BadToken(tokens[k])
  {
    if tokens != [] && ParseTokens(tokens).Failure? {
      if ParseInt(tokens[0]).None? {
        assert AllParse(tokens[..0]);
      } else {
        var tail := tokens[1..];
        ParseTokensFirstFailure(tail);
        var k :| 0 <= k < |tail| && AllParse(tail[..k]) && ParseTokens(tail).error == BadToken(tail[k]);
        assert tokens[..k + 1] == [tokens[0]] + tail[..k];
        assert AllParse(tokens[..k + 1]);
        assert tokens[k + 1] == tail[k];
      }
    }
  }

  /**
   * The lambda mapped over `genre_ids`: a missing field gives no codes;
   * otherwise the field is split on '|' and every piece goes through `int()`,
   * in order. A present field never yields an empty list: the empty text
   * splits into one empty piece, which `int()` rejects.
   */
  function ParseGenres(field: Option<string>): (r: Result<seq<int>, ParseError>)
    ensures field.None? ==> r == Success([])
    ensures field.Some? ==>
      (r.Success? <==> AllParse(Split(field.value)))
    ensures field.Some? && r.Success? ==>
      && |r.value| == |Split(field.value)| >= 1
      && forall k :: 0 <= k < |r.value| ==> ParseInt(Split(field.value)[k]) == Some(r.value[k])
    ensures field == Some("") ==> r.Failure?
  {
    match field
    case None => Success([])
    case Some(text) => ParseTokens(Split(text))
  }

  /** A list of codes written the way the catalog stores them, e.g. "465|1259". */
  function FormatGenres(codes: seq<int>): string
    requires |codes| >= 1
  {
    Join(seq(|codes|, k requires 0 <= k < |codes| => Show(codes[k])))
  }

  /** Parsing a field written from a non-empty list of codes gives back that list, in order. */
  lemma ParseFormatted(codes: seq<int>)
    requires |codes| >= 1
    ensures ParseGenres(Some(FormatGenres(codes))) == Success(codes)
  {
    var shown := seq(|codes|, k requires 0 <= k < |codes| => Show(codes[k]));
    SplitJoin(shown);
    forall k | 0 <= k < |codes| ensures ParseInt(shown[k]) == Some(codes[k]) {
      ParseShow(codes[k]);
    }
    assert ParseTokens(shown).value == codes;
  }
}
