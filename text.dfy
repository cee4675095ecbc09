/**
 * The few QString operations the resolution engine relies on, over Dafny
 * strings (sequences of characters): splitting on the token delimiters,
 * taking the text before a separator, prefixes, ASCII case mapping,
 * QString::toInt, QString::number and QString::replace.
 */
module Text {

  // ---------------------------------------------------------------------
  // Splitting a resolution token on the character class [x@\-\/]
  // ---------------------------------------------------------------------

  /** A character of the class [x@\-\/] that tokens are split on. */
  predicate IsDelimiter(c: char) {
    c == 'x' || c == '@' || c == '-' || c == '/'
  }

  predicate NoDelimiter(s: string) {
    forall i :: 0 <= i < |s| ==> !IsDelimiter(s[i])
  }

  function DelimiterCount(s: string): nat {
    if s == [] then 0 else (if IsDelimiter(s[0]) then 1 else 0) + DelimiterCount(s[1..])
  }

  /**
   * QString::split with a regular expression, keeping empty parts: one field
   * more than there are delimiters, and no field contains a delimiter.
   */
  function Split(s: string): (r: seq<string>)
    ensures |r| == DelimiterCount(s) + 1
    ensures forall i :: 0 <= i < |r| ==> NoDelimiter(r[i])
  {
    if s == [] then [""]
    else
      var rest := Split(s[1..]);
      if IsDelimiter(s[0]) then [""] + rest
      else [[s[0]] + rest[0]] + rest[1..]
  }

  /** A string without delimiters is a single field. */
  lemma {:induction false} SplitSingle(a: string)
    requires NoDelimiter(a)
    ensures Split(a) == [a]
  {
    if a != [] {
      SplitSingle(a[1..]);
      assert [a[0]] + a[1..] == a;
    }
  }

  /** A delimiter-free field followed by a delimiter is split off as the first field. */
  lemma {:induction false} SplitField(a: string, c: char, b: string)
    requires NoDelimiter(a) && IsDelimiter(c)
    ensures Split(a + [c] + b) == [a] + Split(b)
  {
    if a == [] {
      assert a + [c] + b == [c] + b;
      assert ([c] + b)[1..] == b;
    } else {
      var s := a + [c] + b;
      assert s[0] == a[0];
      assert s[1..] == a[1..] + [c] + b;
      SplitField(a[1..], c, b);
      assert [a[0]] + a[1..] == a;
    }
  }

  // ---------------------------------------------------------------------
  // Prefixes, the text before a separator, case mapping
  // ---------------------------------------------------------------------

  /** QString::startsWith (case-sensitive). */
  predicate StartsWith(s: string, p: string)
    ensures StartsWith(s, p) <==> |p| <= |s| && s[..|p|] == p
  {
    p <= s
  }

  /**
   * The first part of QString::split(sep): the text before the first `sep`,
   * or the whole string when there is none.
   */
  function BeforeFirst(s: string, sep: char): (r: string)
    ensures r <= s
    ensures sep !in r
    ensures |r| < |s| ==> s[|r|] == sep
  {
    if s == [] then []
    else if s[0] == sep then []
    else [s[0]] + BeforeFirst(s[1..], sep)
  }

  /** QString::left: the first `n` characters, or the whole string when it is shorter. */
  function Left(s: string, n: nat): (r: string)
    ensures r <= s
    ensures |r| == if |s| < n then |s| else n
  {
    if |s| <= n then s else s[..n]
  }

  function UpperChar(c: char): char {
    if 'a' <= c <= 'z' then (c as int - 'a' as int + 'A' as int) as char else c
  }

  function LowerChar(c: char): char {
    if 'A' <= c <= 'Z' then (c as int - 'A' as int + 'a' as int) as char else c
  }

  /** QString::toUpper, for ASCII letters. */
  function Upper(s: string): (r: string)
    ensures |r| == |s|
    ensures forall i :: 0 <= i < |s| ==> r[i] == UpperChar(s[i])
  {
    seq(|s|, i requires 0 <= i < |s| => UpperChar(s[i]))
  }

  /** QString::toLower, for ASCII letters. */
  function Lower(s: string): (r: string)
    ensures |r| == |s|
    ensures forall i :: 0 <= i < |s| ==> r[i] == LowerChar(s[i])
  {
    seq(|s|, i requires 0 <= i < |s| => LowerChar(s[i]))
  }

  // ---------------------------------------------------------------------
  // QString::toInt and QString::number
  // ---------------------------------------------------------------------

  const IntMin: int := -0x8000_0000
  const IntMax: int := 0x7fff_ffff

  predicate IsDigit(c: char) {
    '0' <= c <= '9'
  }

  /** A non-empty run of decimal digits. */
  predicate IsDigits(s: string) {
    |s| > 0 && forall i :: 0 <= i < |s| ==> IsDigit(s[i])
  }

  function DigitsValue(s: string): nat
    requires forall i :: 0 <= i < |s| ==> IsDigit(s[i])
  {
    if s == [] then 0
    else
      assert IsDigit(s[|s| - 1]);
      DigitsValue(s[..|s| - 1]) * 10 + (s[|s| - 1] as int - '0' as int)
  }

  /**
   * QString::toInt in base 10: an optional sign and decimal digits whose
   * value fits a 32-bit int; anything else yields 0.
   */
  function ToInt(s: string): (r: int)
    ensures IntMin <= r <= IntMax
  {
    if IsDigits(s) then
      if DigitsValue(s) <= IntMax then DigitsValue(s) else 0
    else if |s| > 1 && (s[0] == '-' || s[0] == '+') && IsDigits(s[1..]) then
      var v: int := if s[0] == '-' then -(DigitsValue(s[1..]) as int) else DigitsValue(s[1..]);
      if IntMin <= v <= IntMax then v else 0
    else 0
  }

  /**
   * The value `toInt` reads: digits, with an optional sign, give their value
   * when it fits 32 bits and 0 when it does not; any other text gives 0.
   */
  lemma ToIntValue(s: string)
    ensures IsDigits(s) ==> ToInt(s) == (if DigitsValue(s) <= IntMax then DigitsValue(s) else 0)
    ensures |s| > 1 && s[0] == '-' && IsDigits(s[1..]) ==>
      ToInt(s) == (if DigitsValue(s[1..]) <= -IntMin then -(DigitsValue(s[1..]) as int) else 0)
    ensures |s| > 1 && s[0] == '+' && IsDigits(s[1..]) ==>
      ToInt(s) == (if DigitsValue(s[1..]) <= IntMax then DigitsValue(s[1..]) else 0)
    ensures !IsDigits(s) && !(|s| > 1 && (s[0] == '-' || s[0] == '+') && IsDigits(s[1..])) ==> ToInt(s) == 0
  {
  }

  function DigitChar(d: nat): char
    requires d < 10
  {
    ('0' as int + d) as char
  }

  function NaturalDigits(n: nat): (r: string)
    ensures IsDigits(r) && NoDelimiter(r)
  {
    if n < 10 then [DigitChar(n)] else NaturalDigits(n / 10) + [DigitChar(n % 10)]
  }

  /** QString::number for an int: decimal digits, with a leading '-' when negative. */
  function Number(n: int): (r: string)
    ensures |r| > 0
    ensures n >= 0 ==> NoDelimiter(r)
  {
    if n < 0 then "-" + NaturalDigits(-n) else NaturalDigits(n)
  }

  lemma {:induction false} NaturalDigitsValue(n: nat)
    ensures DigitsValue(NaturalDigits(n)) == n
  {
    if n >= 10 {
      NaturalDigitsValue(n / 10);
      var d := NaturalDigits(n / 10);
      var s := d + [DigitChar(n % 10)];
      assert s[..|s| - 1] == d;
    }
  }

  /** Reading back a number written by QString::number gives the number again. */
  lemma ToIntNumber(n: int)
    requires IntMin <= n <= IntMax
    ensures ToInt(Number(n)) == n
  {
    if n < 0 {
      NaturalDigitsValue(-n);
      assert Number(n)[1..] == NaturalDigits(-n);
    } else {
      NaturalDigitsValue(n);
    }
  }

  /** A field cut out between delimiters holds no '-', so it never reads as negative. */
  lemma ToIntNonNegative(s: string)
    requires NoDelimiter(s)
    ensures ToInt(s) >= 0
  {
    if |s| > 0 {
      assert !IsDelimiter(s[0]);
    }
  }

  // ---------------------------------------------------------------------
  // QString::replace(before, after): every occurrence, left to right
  // ---------------------------------------------------------------------

  predicate OccursAt(s: string, k: string, i: nat) {
    i + |k| <= |s| && s[i..i + |k|] == k
  }

  predicate Contains(s: string, k: string) {
    exists i: nat | i <= |s| :: OccursAt(s, k, i)
  }

  /** Replaces every occurrence of `k` by `v`, scanning left to right without overlap. */
  function ReplaceAll(s: string, k: string, v: string): (r: string)
    requires |k| > 0
    ensures v == k ==> r == s
    decreases |s|
  {
    if |s| < |k| then s
    else if s[..|k|] == k then
      assert s == s[..|k|] + s[|k|..];
      v + ReplaceAll(s[|k|..], k, v)
    else [s[0]] + ReplaceAll(s[1..], k, v)
  }

  /** The text between the occurrences of `k` found by the same left-to-right scan. */
  function Pieces(s: string, k: string): (r: seq<string>)
    requires |k| > 0
    ensures |r| > 0
    decreases |s|
  {
    if |s| < |k| then [s]
    else if s[..|k|] == k then [""] + Pieces(s[|k|..], k)
    else
      var p := Pieces(s[1..], k);
      [[s[0]] + p[0]] + p[1..]
  }

  function Join(parts: seq<string>, sep: string): string
    requires |parts| > 0
  {
    if |parts| == 1 then parts[0] else parts[0] + sep + Join(parts[1..], sep)
  }

  /** Joining the pieces with `k` gives back the original text. */
  lemma {:induction false} PiecesJoin(s: string, k: string)
    requires |k| > 0
    ensures Join(Pieces(s, k), k) == s
    decreases |s|
  {
    if |s| >= |k| {
      if s[..|k|] == k {
        PiecesJoin(s[|k|..], k);
        PiecesJoinMatch(s, k);
      } else {
        PiecesJoin(s[1..], k);
        PiecesJoinSkip(s, k);
      }
    }
  }

  /** PiecesJoin when the text starts with `k`. */
  lemma PiecesJoinMatch(s: string, k: string)
    requires |k| > 0 && |s| >= |k| && s[..|k|] == k
    requires Join(Pieces(s[|k|..], k), k) == s[|k|..]
    ensures Join(Pieces(s, k), k) == s
  {
    var rest := s[|k|..];
    var p := Pieces(rest, k);
    assert Pieces(s, k) == [""] + p;
    JoinCons("", p, k);
    assert "" + k + Join(p, k) == k + rest;
    assert s == s[..|k|] + rest;
  }

  /** PiecesJoin when the text does not start with `k`. */
  lemma PiecesJoinSkip(s: string, k: string)
    requires |k| > 0 && |s| >= |k| && s[..|k|] != k
    requires Join(Pieces(s[1..], k), k) == s[1..]
    ensures Join(Pieces(s, k), k) == s
  {
    var rest := s[1..];
    JoinGlue(s[0], Pieces(rest, k), k);
    assert s == [s[0]] + rest;
  }

  lemma JoinCons(a: string, parts: seq<string>, sep: string)
    requires |parts| > 0
    ensures Join([a] + parts, sep) == a + sep + Join(parts, sep)
  {
    assert ([a] + parts)[1..] == parts;
  }

  /** Gluing a character onto the first part glues it onto the joined text. */
  lemma JoinGlue(c: char, parts: seq<string>, sep: string)
    requires |parts| > 0
    ensures Join([[c] + parts[0]] + parts[1..], sep) == [c] + Join(parts, sep)
  {
    var q := [[c] + parts[0]] + parts[1..];
    if |parts| > 1 {
      var tail := Join(parts[1..], sep);
      assert q[1..] == parts[1..];
      assert ([c] + parts[0]) + sep + tail == [c] + (parts[0] + sep + tail);
    }
  }

  /** No piece contains `k`: the scan finds every occurrence. */
  lemma {:induction false} PiecesFree(s: string, k: string)
    requires |k| > 0
    ensures forall j :: 0 <= j < |Pieces(s, k)| ==> !Contains(Pieces(s, k)[j], k)
    decreases |s|
  {
    if |s| < |k| {
      assert !Contains(s, k);
    } else if s[..|k|] == k {
      var p := Pieces(s[|k|..], k);
      PiecesFree(s[|k|..], k);
      assert !Contains("", k);
      assert Pieces(s, k) == [""] + p;
    } else {
      var p := Pieces(s[1..], k);
      PiecesFree(s[1..], k);
      PiecesJoin(s[1..], k);
      JoinFirst(p, k);
      GlueFree(s, p[0], k);
      assert Pieces(s, k) == [[s[0]] + p[0]] + p[1..];
    }
  }

  lemma JoinFirst(parts: seq<string>, sep: string)
    requires |parts| > 0
    ensures parts[0] <= Join(parts, sep)
  {
  }

  /**
   * A text that does not start with `k` keeps a `k`-free piece `k`-free when
   * its first character is glued onto it.
   */
  lemma GlueFree(s: string, piece: string, k: string)
    requires |k| > 0 && |s| >= |k| && s[..|k|] != k
    requires piece <= s[1..] && !Contains(piece, k)
    ensures !Contains([s[0]] + piece, k)
  {
    var first := [s[0]] + piece;
    assert first <= s;
    forall i: nat | OccursAt(first, k, i) ensures false {
      if i > 0 {
        assert first[i..i + |k|] == piece[i - 1..i - 1 + |k|];
        assert OccursAt(piece, k, i - 1);
      }
    }
  }

  /** Replacing is splitting at the occurrences of `k` and joining with `v`. */
  lemma {:induction false} ReplaceAllIsJoin(s: string, k: string, v: string)
    requires |k| > 0
    ensures ReplaceAll(s, k, v) == Join(Pieces(s, k), v)
    decreases |s|
  {
    if |s| < |k| {
    } else if s[..|k|] == k {
      ReplaceAllIsJoin(s[|k|..], k, v);
      assert Join([""] + Pieces(s[|k|..], k), v) == "" + v + Join(Pieces(s[|k|..], k), v);
    } else {
      ReplaceAllIsJoin(s[1..], k, v);
      var p := Pieces(s[1..], k);
      if |p| > 1 {
        assert Join(p, v) == p[0] + v + Join(p[1..], v);
        assert ([s[0]] + p[0]) + v + Join(p[1..], v) == [s[0]] + (p[0] + v + Join(p[1..], v));
      }
    }
  }

  /** A line without an occurrence of `k` is left as it is. */
  lemma {:induction false} ReplaceAllAbsent(s: string, k: string, v: string)
    requires |k| > 0 && !Contains(s, k)
    ensures ReplaceAll(s, k, v) == s
    decreases |s|
  {
    if |s| >= |k| {
      assert !OccursAt(s, k, 0);
      forall i: nat | OccursAt(s[1..], k, i) ensures OccursAt(s, k, i + 1) {
        assert s[i + 1..i + 1 + |k|] == s[1..][i..i + |k|];
      }
      ReplaceAllAbsent(s[1..], k, v);
      assert s == [s[0]] + s[1..];
    }
  }
}
