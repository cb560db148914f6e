/**
 * The behaviour of the few JDK methods the flow-log core depends on, written out:
 * `String.trim`, `String.split` (regular expression `\s+` and a single literal
 * character, with Java's removal of trailing empty strings), `String.toLowerCase`
 * restricted to ASCII, `Integer.parseInt`/`Long.parseLong` for ASCII digits,
 * `String.valueOf(int)`, `String.hashCode` and 32-bit wrap-around.
 */
module JavaLang {
  import opened Wrappers

  /** Java `int` and `long`. */
  type Int32 = x: int | -0x8000_0000 <= x <= 0x7FFF_FFFF
  type Int64 = x: int | -0x8000_0000_0000_0000 <= x <= 0x7FFF_FFFF_FFFF_FFFF

  const MinInt: int := -0x8000_0000
  const MaxInt: int := 0x7FFF_FFFF
  const MinLong: int := -0x8000_0000_0000_0000
  const MaxLong: int := 0x7FFF_FFFF_FFFF_FFFF

  // ---------------------------------------------------------------------------
  // Characters

  /** The characters of the regular-expression class `\s` (without UNICODE_CHARACTER_CLASS). */
  predicate IsRegexSpace(c: char) {
    c == ' ' || c == '\t' || c == '\n' || c == '\U{B}' || c == '\U{C}' || c == '\r'
  }

  /** `String.trim` removes every character whose code is at most U+0020. */
  predicate IsTrimSpace(c: char) {
    c <= ' '
  }

  predicate IsDigit(c: char) {
    '0' <= c <= '9'
  }

  predicate IsUpper(c: char) {
    'A' <= c <= 'Z'
  }

  function LowerChar(c: char): char {
    if IsUpper(c) then (c as int + 32) as char else c
  }

  predicate NoRegexSpace(s: string) {
    forall i :: 0 <= i < |s| ==> !IsRegexSpace(s[i])
  }

  predicate NoUpper(s: string) {
    forall i :: 0 <= i < |s| ==> !IsUpper(s[i])
  }

  // ---------------------------------------------------------------------------
  // String.trim

  function TrimStart(s: string): (r: string)
    ensures |r| <= |s| && r == s[|s| - |r|..]
    ensures r == [] || !IsTrimSpace(r[0])
    ensures forall i :: 0 <= i < |s| - |r| ==> IsTrimSpace(s[i])
    decreases |s|
  {
    if s != [] && IsTrimSpace(s[0]) then TrimStart(s[1..]) else s
  }

  function TrimEnd(s: string): (r: string)
    ensures |r| <= |s| && r == s[..|r|]
    ensures r == [] || !IsTrimSpace(r[|r| - 1])
    ensures forall i :: |r| <= i < |s| ==> IsTrimSpace(s[i])
    decreases |s|
  {
    if s != [] && IsTrimSpace(s[|s| - 1]) then TrimEnd(s[..|s| - 1]) else s
  }

  /** `r` is what is left of `s` after removing `i` leading and some trailing characters,
      all of them up to U+0020. */
  predicate StripsTo(s: string, i: int, r: string) {
    && 0 <= i <= |s| - |r| && r == s[i..i + |r|]
    && (forall k :: 0 <= k < i ==> IsTrimSpace(s[k]))
    && (forall k :: i + |r| <= k < |s| ==> IsTrimSpace(s[k]))
  }

  /** `String.trim`: the input with its leading and trailing characters up to U+0020
      removed, so that both ends of a non-empty result are above U+0020. */
  function Trim(s: string): (r: string)
    ensures r == [] || (!IsTrimSpace(r[0]) && !IsTrimSpace(r[|r| - 1]))
    ensures exists i :: StripsTo(s, i, r)
  {
    var t := TrimStart(s);
    var r := TrimEnd(t);
    StripsInTwoSteps(s, t, r);
    r
  }

  /** Cutting trim spaces off the front of `s` to get `t`, then off the back of `t` to get
      `r`, strips `s` to `r`. */
  lemma StripsInTwoSteps(s: string, t: string, r: string)
    requires |t| <= |s| && t == s[|s| - |t|..]
    requires forall k :: 0 <= k < |s| - |t| ==> IsTrimSpace(s[k])
    requires |r| <= |t| && r == t[..|r|]
    requires forall k :: |r| <= k < |t| ==> IsTrimSpace(t[k])
    ensures StripsTo(s, |s| - |t|, r)
  {
    var i := |s| - |t|;
    assert s[i..i + |r|] == t[..|r|];
    forall k | i + |r| <= k < |s|
      ensures IsTrimSpace(s[k])
    {
      assert s[k] == t[k - i];
    }
  }

  /** A string whose two ends are above U+0020 is its own trim. */
  lemma TrimUntrimmed(s: string)
    requires s != [] && !IsTrimSpace(s[0]) && !IsTrimSpace(s[|s| - 1])
    ensures Trim(s) == s
  {
  }

  /** Trimming twice is trimming once. */
  lemma TrimIdempotent(s: string)
    ensures Trim(Trim(s)) == Trim(s)
  {
    if Trim(s) != [] {
      TrimUntrimmed(Trim(s));
    }
  }

  // ---------------------------------------------------------------------------
  // String.split

  /** The pieces of `s` between the single occurrences of `d`, every empty piece kept. */
  function CharPieces(s: string, d: char): (r: seq<string>)
    ensures |r| >= 1
    ensures forall i :: 0 <= i < |r| ==> d !in r[i]
    decreases |s|
  {
    if s == [] then [""]
    else
      var rest := CharPieces(s[1..], d);
      if s[0] == d then [""] + rest else [[s[0]] + rest[0]] + rest[1..]
  }

  /** The pieces of `s` between the maximal runs of `\s` characters, every empty piece kept. */
  function RunPieces(s: string): (r: seq<string>)
    ensures |r| >= 1
    ensures forall i :: 0 <= i < |r| ==> NoRegexSpace(r[i])
    decreases |s|
  {
    if s == [] then [""]
    else if IsRegexSpace(s[0]) then
      if |s| > 1 && IsRegexSpace(s[1]) then RunPieces(s[1..]) else [""] + RunPieces(s[1..])
    else
      var rest := RunPieces(s[1..]);
      [[s[0]] + rest[0]] + rest[1..]
  }

  /** `split` with limit 0 discards the empty strings at the end of the result. */
  function DropTrailingEmpty(p: seq<string>): (r: seq<string>)
    ensures |r| <= |p| && r == p[..|r|]
    ensures r == [] || r[|r| - 1] != ""
    ensures forall i :: |r| <= i < |p| ==> p[i] == ""
    decreases |p|
  {
    if p != [] && p[|p| - 1] == "" then DropTrailingEmpty(p[..|p| - 1]) else p
  }

  /** `s.split(d)` for a character `d` that is not a regular-expression metacharacter
      (or is escaped): no occurrence gives `[s]`, even for the empty string. */
  function Split(s: string, d: char): (r: seq<string>)
    ensures d !in s ==> r == [s]
    ensures d in s ==> r == [] || r[|r| - 1] != ""
    ensures forall i :: 0 <= i < |r| ==> d !in r[i]
  {
    if d !in s then [s] else DropTrailingEmpty(CharPieces(s, d))
  }

  /** `s.split("\\s+")`. */
  function SplitOnSpaceRuns(s: string): (r: seq<string>)
    ensures NoRegexSpace(s) ==> r == [s]
    ensures !NoRegexSpace(s) ==> r == [] || r[|r| - 1] != ""
    ensures forall i :: 0 <= i < |r| ==> NoRegexSpace(r[i])
  {
    if NoRegexSpace(s) then [s] else DropTrailingEmpty(RunPieces(s))
  }

  /** `String.join(" ", tokens)`. */
  function JoinWithSpaces(tokens: seq<string>): string
    requires tokens != []
    decreases |tokens|
  {
    if |tokens| == 1 then tokens[0] else tokens[0] + " " + JoinWithSpaces(tokens[1..])
  }

  /** A token without separator characters glues onto the first piece of what follows it. */
  lemma {:induction false} CharPiecesPrefix(t: string, s: string, d: char)
    requires d !in t
    ensures CharPieces(t + s, d) == [t + CharPieces(s, d)[0]] + CharPieces(s, d)[1..]
    decreases |t|
  {
    if t != [] {
      assert (t + s)[0] == t[0] && t[0] != d;
      assert (t + s)[1..] == t[1..] + s;
      CharPiecesPrefix(t[1..], s, d);
      var rest, p := CharPieces(t[1..] + s, d), CharPieces(s, d);
      assert CharPieces(t + s, d) == [[t[0]] + rest[0]] + rest[1..];
      assert rest[0] == t[1..] + p[0] && rest[1..] == p[1..];
      assert [t[0]] + (t[1..] + CharPieces(s, d)[0]) == t + CharPieces(s, d)[0];
    } else {
      assert t + s == s && t + CharPieces(s, d)[0] == CharPieces(s, d)[0];
    }
  }

  /** Splitting `a` + separator + `b` yields `a` followed by the pieces of `b`. */
  lemma CharPiecesCons(a: string, d: char, b: string)
    requires d !in a
    ensures CharPieces(a + [d] + b, d) == [a] + CharPieces(b, d)
  {
    CharPiecesPrefix(a, [d] + b, d);
    assert a + [d] + b == a + ([d] + b);
    assert ([d] + b)[0] == d && ([d] + b)[1..] == b;
    var p := CharPieces([d] + b, d);
    assert p == [""] + CharPieces(b, d);
    assert a + p[0] == a && p[1..] == CharPieces(b, d);
  }

  /** Likewise for runs of `\s`: a token without spaces glues onto the first piece. */
  lemma {:induction false} RunPiecesPrefix(t: string, s: string)
    requires NoRegexSpace(t)
    ensures RunPieces(t + s) == [t + RunPieces(s)[0]] + RunPieces(s)[1..]
    decreases |t|
  {
    if t != [] {
      assert (t + s)[0] == t[0] && !IsRegexSpace(t[0]);
      assert (t + s)[1..] == t[1..] + s;
      RunPiecesPrefix(t[1..], s);
      var rest, p := RunPieces(t[1..] + s), RunPieces(s);
      assert RunPieces(t + s) == [[t[0]] + rest[0]] + rest[1..];
      assert rest[0] == t[1..] + p[0] && rest[1..] == p[1..];
      assert [t[0]] + (t[1..] + RunPieces(s)[0]) == t + RunPieces(s)[0];
    } else {
      assert t + s == s && t + RunPieces(s)[0] == RunPieces(s)[0];
    }
  }

  /** The pieces of a space-joined list of space-free, non-empty tokens are the tokens. */
  lemma {:induction false} RunPiecesOfJoin(tokens: seq<string>)
    requires tokens != []
    requires forall i :: 0 <= i < |tokens| ==> tokens[i] != "" && NoRegexSpace(tokens[i])
    ensures RunPieces(JoinWithSpaces(tokens)) == tokens
    decreases |tokens|
  {
    if |tokens| == 1 {
      RunPiecesPrefix(tokens[0], "");
      assert tokens[0] + "" == tokens[0];
    } else {
      var rest := JoinWithSpaces(tokens[1..]);
      RunPiecesOfJoin(tokens[1..]);
      JoinStartsWith(tokens[1..]);
      var tail := " " + rest;
      assert tail[1..] == rest;
      assert RunPieces(tail) == [""] + tokens[1..];
      RunPiecesPrefix(tokens[0], tail);
      assert tokens[0] + " " + rest == tokens[0] + tail;
      assert tokens[0] + "" == tokens[0];
      assert [tokens[0]] + tokens[1..] == tokens;
    }
  }

  lemma {:induction false} JoinStartsWith(tokens: seq<string>)
    requires tokens != [] && tokens[0] != ""
    ensures JoinWithSpaces(tokens) != [] && JoinWithSpaces(tokens)[0] == tokens[0][0]
  {
  }

  /** The last character of a join is the last character of the last token. */
  lemma {:induction false} JoinEndsWith(tokens: seq<string>)
    requires tokens != [] && tokens[|tokens| - 1] != ""
    ensures JoinWithSpaces(tokens) != []
    ensures JoinWithSpaces(tokens)[|JoinWithSpaces(tokens)| - 1] == tokens[|tokens| - 1][|tokens[|tokens| - 1]| - 1]
    decreases |tokens|
  {
    if |tokens| > 1 {
      JoinEndsWith(tokens[1..]);
    }
  }

  /** Splitting a space-joined list of non-empty, space-free tokens on `\s+` gives them back. */
  lemma SplitJoin(tokens: seq<string>)
    requires tokens != []
    requires forall i :: 0 <= i < |tokens| ==> tokens[i] != "" && NoRegexSpace(tokens[i])
    ensures SplitOnSpaceRuns(JoinWithSpaces(tokens)) == tokens
  {
    if |tokens| > 1 {
      JoinHasSpace(tokens);
      RunPiecesOfJoin(tokens);
      assert tokens[|tokens| - 1] != "";
    }
  }

  /** Joining two or more tokens puts a space between the first and the second. */
  lemma JoinHasSpace(tokens: seq<string>)
    requires |tokens| > 1
    ensures !NoRegexSpace(JoinWithSpaces(tokens))
  {
    var s := JoinWithSpaces(tokens);
    assert s == tokens[0] + " " + JoinWithSpaces(tokens[1..]);
    assert s[|tokens[0]|] == ' ';
  }

  /** Pieces none of which holds a space, only the first of which may be empty, and the
      last of which ends in `c`. */
  predicate SpaceFreePieces(r: seq<string>, c: char) {
    && r != []
    && (forall i :: 0 <= i < |r| ==> NoRegexSpace(r[i]))
    && (forall i :: 1 <= i < |r| ==> r[i] != "")
    && r[|r| - 1] != "" && r[|r| - 1][|r[|r| - 1]| - 1] == c
  }

  /** Shape of the run pieces of a string that does not end in a space: no piece holds a
      space, only the first may be empty, and the last ends where the string ends. */
  lemma {:induction false} RunPiecesShape(s: string)
    requires s != [] && !IsRegexSpace(s[|s| - 1])
    ensures SpaceFreePieces(RunPieces(s), s[|s| - 1])
    ensures !IsRegexSpace(s[0]) ==> RunPieces(s)[0] != ""
    decreases |s|
  {
    if |s| == 1 {
      assert s[1..] == [] && RunPieces(s[1..]) == [""];
      assert [s[0]] + "" == [s[0]] && [""][1..] == [];
      assert RunPieces(s) == [[s[0]]];
    } else {
      var t := s[1..];
      assert t[|t| - 1] == s[|s| - 1] && t[0] == s[1];
      RunPiecesShape(t);
      var rest := RunPieces(t);
      if IsRegexSpace(s[0]) {
        if IsRegexSpace(s[1]) {
          assert RunPieces(s) == rest;
        } else {
          assert RunPieces(s) == [""] + rest;
          PrependEmptyPiece(rest, s[|s| - 1]);
        }
      } else {
        assert RunPieces(s) == [[s[0]] + rest[0]] + rest[1..];
        GluePiece(s[0], rest, s[|s| - 1]);
      }
    }
  }

  lemma PrependEmptyPiece(rest: seq<string>, c: char)
    requires SpaceFreePieces(rest, c) && rest[0] != ""
    ensures SpaceFreePieces([""] + rest, c)
  {
    var r := [""] + rest;
    assert forall i :: 1 <= i < |r| ==> r[i] == rest[i - 1];
  }

  lemma GluePiece(ch: char, rest: seq<string>, c: char)
    requires !IsRegexSpace(ch) && SpaceFreePieces(rest, c)
    ensures SpaceFreePieces([[ch] + rest[0]] + rest[1..], c)
    ensures ([[ch] + rest[0]] + rest[1..])[0] != ""
  {
    var first := [ch] + rest[0];
    var r := [first] + rest[1..];
    assert forall i :: 1 <= i < |r| ==> r[i] == rest[i];
    assert NoRegexSpace(first) by {
      forall i | 0 <= i < |first| ensures !IsRegexSpace(first[i]) {
        if i > 0 { assert first[i] == rest[0][i - 1]; }
      }
    }
    if |rest| == 1 {
      assert r[|r| - 1] == first;
      assert first[|first| - 1] == rest[0][|rest[0]| - 1];
    }
  }

  /** The fields of a trimmed, non-empty line: each is non-empty and free of `\s`, and
      the last one ends in a character above U+0020. */
  lemma SplitTrimmedShape(s: string)
    requires s != [] && !IsTrimSpace(s[0]) && !IsTrimSpace(s[|s| - 1])
    ensures var f := SplitOnSpaceRuns(s);
      && f != []
      && (forall i :: 0 <= i < |f| ==> f[i] != "" && NoRegexSpace(f[i]))
      && !IsTrimSpace(f[|f| - 1][|f[|f| - 1]| - 1])
  {
    if NoRegexSpace(s) {
      assert SplitOnSpaceRuns(s) == [s];
    } else {
      SplitSpacedShape(s);
      var f := RunPieces(s);
      assert forall i :: 0 <= i < |f| ==> f[i] != "" by {
        assert f[0] != "";
      }
    }
  }

  lemma SplitSpacedShape(s: string)
    requires s != [] && !IsTrimSpace(s[0]) && !IsTrimSpace(s[|s| - 1]) && !NoRegexSpace(s)
    ensures SplitOnSpaceRuns(s) == RunPieces(s)
    ensures SpaceFreePieces(RunPieces(s), s[|s| - 1]) && RunPieces(s)[0] != ""
  {
    assert !IsRegexSpace(s[0]) && !IsRegexSpace(s[|s| - 1]);
    RunPiecesShape(s);
    var r := RunPieces(s);
    assert r[|r| - 1] != "";
    assert DropTrailingEmpty(r) == r;
  }

  // ---------------------------------------------------------------------------
  // String.toLowerCase (ASCII letters only)

  function ToLower(s: string): (r: string)
    ensures |r| == |s|
    ensures forall i :: 0 <= i < |s| ==> r[i] == LowerChar(s[i])
    ensures NoUpper(r)
  {
    seq(|s|, i requires 0 <= i < |s| => LowerChar(s[i]))
  }

  /** Lowercasing a string that has no upper-case letters leaves it unchanged. */
  lemma ToLowerNoUpper(s: string)
    requires NoUpper(s)
    ensures ToLower(s) == s
  {
  }

  // ---------------------------------------------------------------------------
  // Integer.parseInt, Long.parseLong, String.valueOf

  predicate AllDigits(s: string) {
    forall i :: 0 <= i < |s| ==> IsDigit(s[i])
  }

  function DigitValue(c: char): nat
    requires IsDigit(c)
  {
    c as int - '0' as int
  }

  function DigitChar(d: nat): char
    requires d < 10
  {
    ('0' as int + d) as char
  }

  /** The value of a string of decimal digits, most significant first. */
  function DigitsValue(s: string): nat
    requires AllDigits(s)
    decreases |s|
  {
    if s == [] then 0 else DigitsValue(s[..|s| - 1]) * 10 + DigitValue(s[|s| - 1])
  }

  /** The number a string spells in Java's integer syntax: an optional `+` or `-`
      followed by at least one digit; anything else is a NumberFormatException (`None`). */
  function ParseDecimal(s: string): (r: Option<int>)
    ensures r.Some? <==> s != [] && (if s[0] == '-' || s[0] == '+' then |s| > 1 && AllDigits(s[1..]) else AllDigits(s))
    ensures r.Some? && s[0] == '-' ==> AllDigits(s[1..]) && r.value == -(DigitsValue(s[1..]) as int)
    ensures r.Some? && s[0] == '+' ==> AllDigits(s[1..]) && r.value == DigitsValue(s[1..])
    ensures r.Some? && s[0] != '-' && s[0] != '+' ==> AllDigits(s) && r.value == DigitsValue(s)
    ensures r.Some? ==> exists i :: 0 <= i < |s| && IsDigit(s[i])
  {
    if s == [] then None
    else if s[0] == '-' || s[0] == '+' then
      var digits := s[1..];
      if digits != [] && AllDigits(digits) then
        assert IsDigit(s[1]);
        var magnitude: int := DigitsValue(digits);
        Some(if s[0] == '-' then -magnitude else magnitude)
      else None
    else if AllDigits(s) then Some(DigitsValue(s))
    else None
  }

  /** `Integer.parseInt`: out-of-range values fail like malformed ones. */
  function ParseInt(s: string): (r: Option<Int32>)
    ensures r.Some? <==> ParseDecimal(s).Some? && MinInt <= ParseDecimal(s).value <= MaxInt
    ensures r.Some? ==> r.value == ParseDecimal(s).value
  {
    match ParseDecimal(s)
    case Some(v) => if MinInt <= v <= MaxInt then Some(v) else None
    case None => None
  }

  /** `Long.parseLong`. */
  function ParseLong(s: string): (r: Option<Int64>)
    ensures r.Some? <==> ParseDecimal(s).Some? && MinLong <= ParseDecimal(s).value <= MaxLong
    ensures r.Some? ==> r.value == ParseDecimal(s).value
  {
    match ParseDecimal(s)
    case Some(v) => if MinLong <= v <= MaxLong then Some(v) else None
    case None => None
  }

  function NatToString(n: nat): (r: string)
    ensures r != [] && AllDigits(r)
    decreases n
  {
    if n < 10 then [DigitChar(n)] else NatToString(n / 10) + [DigitChar(n % 10)]
  }

  /** `String.valueOf(int)` / `Long.toString`: a minus sign exactly for negative numbers,
      then decimal digits. */
  function IntToString(n: int): (r: string)
    ensures r != [] && (r[0] == '-' <==> n < 0)
  {
    if n < 0 then "-" + NatToString(-n) else NatToString(n)
  }

  /** After the optional sign a written number holds only digits. */
  lemma IntToStringChars(n: int)
    ensures var r := IntToString(n);
      forall i :: 0 <= i < |r| ==> IsDigit(r[i]) || (i == 0 && r[i] == '-')
  {
  }

  lemma {:induction false} DigitsValueOfNatToString(n: nat)
    ensures DigitsValue(NatToString(n)) == n
    decreases n
  {
    if n >= 10 {
      DigitsValueOfNatToString(n / 10);
      var s := NatToString(n);
      assert s[..|s| - 1] == NatToString(n / 10);
    }
  }

  /** Reading back a number written by `String.valueOf` gives the number. */
  lemma ParseDecimalOfIntToString(n: int)
    ensures ParseDecimal(IntToString(n)) == Some(n)
  {
    if n < 0 {
      ParseDecimalOfNegative(-n);
      assert IntToString(n) == "-" + NatToString(-n);
    } else {
      ParseDecimalOfNatToString(n);
    }
  }

  lemma ParseDecimalOfNatToString(n: nat)
    ensures ParseDecimal(NatToString(n)) == Some(n)
  {
    var s := NatToString(n);
    DigitsValueOfNatToString(n);
    assert IsDigit(s[0]);
  }

  lemma ParseDecimalOfNegative(n: nat)
    requires n > 0
    ensures ParseDecimal("-" + NatToString(n)) == Some(-(n as int))
  {
    var s := "-" + NatToString(n);
    DigitsValueOfNatToString(n);
    assert s[0] == '-' && s[1..] == NatToString(n);
  }

  lemma ParseIntOfIntToString(n: Int32)
    ensures ParseInt(IntToString(n)) == Some(n)
  {
    ParseDecimalOfIntToString(n);
  }

  lemma ParseLongOfIntToString(n: Int64)
    ensures ParseLong(IntToString(n)) == Some(n)
  {
    ParseDecimalOfIntToString(n);
  }

  /** A written number has neither upper-case letters, spaces, commas nor dots, and is never
      a lone dash. */
  lemma IntToStringPlain(n: int)
    ensures NoUpper(IntToString(n)) && NoRegexSpace(IntToString(n))
    ensures ',' !in IntToString(n) && '.' !in IntToString(n)
    ensures IntToString(n) != "-"
  {
    var s := IntToString(n);
    IntToStringChars(n);
    assert forall i :: 0 <= i < |s| ==> IsDigit(s[i]) || s[i] == '-';
    if n < 0 {
      assert |s| >= 2;
    }
  }

  // ---------------------------------------------------------------------------
  // 32-bit arithmetic and String.hashCode

  /** `a` and `b` agree modulo 2^32, the width of a Java `int`. */
  predicate Congruent32(a: int, b: int) {
    (a - b) % 0x1_0000_0000 == 0
  }

  lemma {:induction false} CongruentScale(a: int, b: int, c: int)
    requires Congruent32(a, b)
    ensures Congruent32(c * a, c * b)
  {
    var q := (a - b) / 0x1_0000_0000;
    assert a - b == q * 0x1_0000_0000;
    assert c * a - c * b == c * (a - b);
    assert c * (q * 0x1_0000_0000) == (c * q) * 0x1_0000_0000;
  }

  lemma {:induction false} CongruentTrans(a: int, b: int, c: int)
    requires Congruent32(a, b) && Congruent32(b, c)
    ensures Congruent32(a, c)
  {
    var p, q := (a - b) / 0x1_0000_0000, (b - c) / 0x1_0000_0000;
    assert a - b == p * 0x1_0000_0000 && b - c == q * 0x1_0000_0000;
    assert a - c == (p + q) * 0x1_0000_0000;
  }

  /** One Horner step `31 * h + c` respects agreement modulo 2^32 in both operands. */
  lemma {:induction false} HashStep(x: int, xs: int, y: int, ys: int)
    requires Congruent32(x, xs) && Congruent32(y, ys)
    ensures Congruent32(31 * x + y, 31 * xs + ys)
  {
    CongruentScale(x, xs, 31);
    var p, q := (31 * x - 31 * xs) / 0x1_0000_0000, (y - ys) / 0x1_0000_0000;
    assert 31 * x - 31 * xs == p * 0x1_0000_0000 && y - ys == q * 0x1_0000_0000;
    assert (31 * x + y) - (31 * xs + ys) == (p + q) * 0x1_0000_0000;
  }

  /** The `int` a Java computation produces for the mathematical value `x`. */
  function Wrap32(x: int): (r: Int32)
    ensures MinInt <= x <= MaxInt ==> r == x
    ensures Congruent32(r, x)
  {
    (x - MinInt) % 0x1_0000_0000 + MinInt
  }

  /** The exact value of the hash polynomial s[0]*31^(n-1) + ... + s[n-1], written in
      Horner form. */
  function HashPolynomial(s: string): int
    decreases |s|
  {
    if s == [] then 0 else 31 * HashPolynomial(s[..|s| - 1]) + s[|s| - 1] as int
  }

  /** `String.hashCode`: h = 31 * h + c over the characters, in `int` arithmetic, which is
      the hash polynomial reduced to 32 bits. */
  function StringHash(s: string): (h: Int32)
    ensures Congruent32(h, HashPolynomial(s))
    decreases |s|
  {
    if s == [] then 0
    else
      var init, c := s[..|s| - 1], s[|s| - 1] as int;
      var h := Wrap32(31 * StringHash(init) + c);
      HashStep(StringHash(init), HashPolynomial(init), c, c);
      CongruentTrans(h, 31 * StringHash(init) + c, HashPolynomial(s));
      h
  }
}
