/**
 * One resolution token of a capture group, as the camhw generator reads it:
 * the fields it is split into, the frame rate of a video mode, the screen-fit
 * filter for viewfinder modes, the aspect filter and the placeholder key the
 * token is a candidate for.
 */
module Resolution {
  import opened Wrappers
  import opened Text

  /** A camera as enumerated: its name and its index. */
  datatype Camera = Camera(name: string, index: int)

  /** A capture group: its raw type label (e.g. "image-...") and its resolution tokens. */
  datatype Group = Group(kind: string, tokens: seq<string>)

  /** The capture type, dispatched on the case-sensitive prefix of a group's label. */
  datatype Kind = Viewfinder | Image | Video | Unknown

  function KindOf(typeName: string): (r: Kind)
    ensures r == Viewfinder <==> StartsWith(typeName, "viewfinder")
    ensures r == Image <==> StartsWith(typeName, "image")
    ensures r == Video <==> StartsWith(typeName, "video")
  {
    PrefixesExclusive(typeName);
    if StartsWith(typeName, "viewfinder") then Viewfinder
    else if StartsWith(typeName, "image") then Image
    else if StartsWith(typeName, "video") then Video
    else Unknown
  }

  /** No label starts with two of the three type prefixes, so the order of the tests does not matter. */
  lemma PrefixesExclusive(s: string)
    ensures !(StartsWith(s, "viewfinder") && StartsWith(s, "image"))
    ensures !(StartsWith(s, "viewfinder") && StartsWith(s, "video"))
    ensures !(StartsWith(s, "image") && StartsWith(s, "video"))
  {
    if StartsWith(s, "viewfinder") {
      assert s[0] == 'v' && s[2] == 'e';
    } else if StartsWith(s, "image") {
      assert s[0] == 'i';
    }
  }

  /** The width and height of the screen geometry rectangle. */
  datatype Screen = Screen(width: int, height: int)

  function Min(a: int, b: int): int { if a < b then a else b }

  function Max(a: int, b: int): int { if a < b then b else a }

  /**
   * The viewfinder screen-fit test: the mode's smaller side is at most the
   * screen's smaller side and its larger side at most the screen's larger
   * side, which is the same as fitting the screen upright or rotated.
   */
  predicate FitsScreen(w: int, h: int, screen: Screen)
    ensures FitsScreen(w, h, screen) <==>
      (w <= screen.width && h <= screen.height) || (w <= screen.height && h <= screen.width)
  {
    Min(screen.height, screen.width) >= Min(w, h) && Max(screen.height, screen.width) >= Max(w, h)
  }

  // ---------------------------------------------------------------------
  // Frame rates
  // ---------------------------------------------------------------------

  function Abs(a: int): nat { if a < 0 then -a else a }

  /** C++ division of ints: the quotient truncated toward zero. */
  function TruncDiv(a: int, b: int): (q: int)
    requires b != 0
    ensures Abs(a - b * q) < Abs(b)
    ensures a - b * q == 0 || (a - b * q < 0 <==> a < 0)
    ensures Abs(q) <= Abs(a)
  {
    var m := Abs(a) / Abs(b);
    var q := if (a < 0) == (b < 0) then m else -(m as int);
    TruncDivFacts(a, b, q, m);
    q
  }

  lemma TruncDivFacts(a: int, b: int, q: int, m: nat)
    requires b != 0 && m == Abs(a) / Abs(b)
    requires q == if (a < 0) == (b < 0) then m else -(m as int)
    ensures Abs(a - b * q) < Abs(b)
    ensures a - b * q == 0 || (a - b * q < 0 <==> a < 0)
    ensures Abs(q) <= Abs(a)
  {
    var bb: int := Abs(b);
    var r := Abs(a) % Abs(b);
    EuclidNat(Abs(a), Abs(b));
    SignedProduct(a, b, q, m);
    var p := bb * m;
    assert Abs(a) == p + r;
    assert a - b * q == if a < 0 then -r else r;
  }

  /** A defined division of a 32-bit int stays within the 32-bit range. */
  lemma TruncDivInRange(a: int, b: int)
    requires DivDefined(a, b) && IntMin <= a <= IntMax
    ensures IntMin <= TruncDiv(a, b) <= IntMax
  {
    var m := Abs(a) / Abs(b);
    QuotientBounds(Abs(a), Abs(b));
    assert TruncDiv(a, b) == if (a < 0) == (b < 0) then m else -(m as int);
  }

  /** Dividing by one keeps the dividend; dividing by two or more at least halves it. */
  lemma QuotientBounds(x: nat, y: nat)
    requires y > 0
    ensures y == 1 ==> x / y == x
    ensures y >= 2 ==> 2 * (x / y) <= x
  {
    var m := x / y;
    EuclidNat(x, y);
    if y >= 2 {
      MulAtLeast(y - 1, m);
      assert y * m == (y - 1) * m + m;
    }
  }

  /** Division of naturals: quotient and remainder, and a quotient no larger than the dividend. */
  lemma EuclidNat(x: nat, y: nat)
    requires y > 0
    ensures y * (x / y) + x % y == x && 0 <= x % y < y
    ensures x / y <= x
  {
    var m := x / y;
    MulAtLeast(y, m);
  }

  lemma {:induction false} MulAtLeast(y: nat, m: nat)
    requires y > 0
    ensures m <= y * m
  {
    if y > 1 {
      MulAtLeast(y - 1, m);
      assert y * m == (y - 1) * m + m;
    }
  }

  /** The product b * q, for q = +-(|a| / |b|), is the signed product |b| * m. */
  lemma SignedProduct(a: int, b: int, q: int, m: nat)
    requires b != 0
    requires q == if (a < 0) == (b < 0) then m else -(m as int)
    ensures b * q == if a < 0 then -((Abs(b) as int) * m) else (Abs(b) as int) * m
  {
    var bb: int := Abs(b);
    var p := bb * m;
    if b < 0 {
      assert b * (m as int) == -p;
      assert b * (-(m as int)) == p;
    } else {
      assert b * (m as int) == p;
      assert b * (-(m as int)) == -p;
    }
  }

  /** The division neither divides by zero nor overflows a 32-bit int. */
  predicate DivDefined(a: int, b: int) {
    b != 0 && !(a == IntMin && b == -1)
  }

  /** The frame-rate division a video token's field count leads to is defined. */
  predicate RateDefined(bits: seq<string>) {
    && (|bits| == 4 ==> DivDefined(ToInt(bits[2]), ToInt(bits[3])))
    && (|bits| == 6 ==> DivDefined(ToInt(bits[4]), ToInt(bits[5])))
  }

  /**
   * The frame rate of a video token's fields: N/D for four fields, the top
   * of the range N2/D2 for six, and none for any other count.
   */
  function FrameRate(bits: seq<string>): (r: Option<int>)
    requires RateDefined(bits)
    ensures r.Some? <==> |bits| == 4 || |bits| == 6
    ensures r.Some? ==> IntMin <= r.value <= IntMax
  {
    if |bits| == 4 then
      TruncDivInRange(ToInt(bits[2]), ToInt(bits[3]));
      Some(TruncDiv(ToInt(bits[2]), ToInt(bits[3])))
    else if |bits| == 6 then
      TruncDivInRange(ToInt(bits[4]), ToInt(bits[5]));
      Some(TruncDiv(ToInt(bits[4]), ToInt(bits[5])))
    else None
  }

  // ---------------------------------------------------------------------
  // Token shapes
  // ---------------------------------------------------------------------

  /** Fields glued together with one delimiter between each pair. */
  function Glue(fields: seq<string>, seps: seq<char>): string
    requires |fields| == |seps| + 1
  {
    if |seps| == 0 then fields[0] else fields[0] + [seps[0]] + Glue(fields[1..], seps[1..])
  }

  /** Splitting undoes gluing delimiter-free fields with delimiters. */
  lemma {:induction false} SplitGlue(fields: seq<string>, seps: seq<char>)
    requires |fields| == |seps| + 1
    requires forall i :: 0 <= i < |fields| ==> NoDelimiter(fields[i])
    requires forall i :: 0 <= i < |seps| ==> IsDelimiter(seps[i])
    ensures Split(Glue(fields, seps)) == fields
  {
    if |seps| == 0 {
      SplitSingle(fields[0]);
    } else {
      SplitGlue(fields[1..], seps[1..]);
      SplitField(fields[0], seps[0], Glue(fields[1..], seps[1..]));
      assert fields == [fields[0]] + fields[1..];
    }
  }

  /** "WxH": two fields, and no frame rate. */
  lemma PlainToken(w: string, h: string)
    requires NoDelimiter(w) && NoDelimiter(h)
    ensures Split(w + "x" + h) == [w, h]
    ensures FrameRate(Split(w + "x" + h)).None?
  {
    SplitGlue([w, h], ['x']);
  }

  /** "WxH@N/D": four fields, and the frame rate N/D. */
  lemma SingleRateToken(w: string, h: string, n: string, d: string)
    requires NoDelimiter(w) && NoDelimiter(h) && NoDelimiter(n) && NoDelimiter(d)
    ensures Split(w + "x" + h + "@" + n + "/" + d) == [w, h, n, d]
    ensures DivDefined(ToInt(n), ToInt(d)) ==>
      FrameRate(Split(w + "x" + h + "@" + n + "/" + d)) == Some(TruncDiv(ToInt(n), ToInt(d)))
  {
    SplitGlue([w, h, n, d], ['x', '@', '/']);
    SingleGlue(w, h, n, d);
  }

  lemma SingleGlue(w: string, h: string, n: string, d: string)
    ensures Glue([w, h, n, d], ['x', '@', '/']) == w + "x" + h + "@" + n + "/" + d
  {
    var fields := [w, h, n, d];
    var g2 := n + "/" + d;
    assert Glue(fields[2..], ['/']) == g2 by {
      assert Glue(fields[3..], []) == d;
    }
    var g1 := h + "@" + g2;
    assert Glue(fields[1..], ['@', '/']) == g1;
    assert w + "x" + g1 == w + "x" + h + "@" + n + "/" + d;
  }

  /** Neither field of a frame rate read from delimiter-free text is negative, so neither is the rate. */
  lemma RateNonNegative(bits: seq<string>)
    requires forall i :: 0 <= i < |bits| ==> NoDelimiter(bits[i])
    ensures RateDefined(bits) && FrameRate(bits).Some? ==> FrameRate(bits).value >= 0
  {
    if |bits| == 4 {
      ToIntNonNegative(bits[2]);
      ToIntNonNegative(bits[3]);
      if ToInt(bits[3]) != 0 {
        TruncDivNonNegative(ToInt(bits[2]), ToInt(bits[3]));
      }
    } else if |bits| == 6 {
      ToIntNonNegative(bits[4]);
      ToIntNonNegative(bits[5]);
      if ToInt(bits[5]) != 0 {
        TruncDivNonNegative(ToInt(bits[4]), ToInt(bits[5]));
      }
    }
  }

  /** The area of a token's width and height fields is never negative. */
  lemma AreaNonNegative(wf: string, hf: string)
    requires NoDelimiter(wf) && NoDelimiter(hf)
    ensures ToInt(wf) * ToInt(hf) >= 0
  {
    ToIntNonNegative(wf);
    ToIntNonNegative(hf);
  }

  lemma TruncDivNonNegative(a: nat, b: nat)
    requires b > 0
    ensures TruncDiv(a, b) >= 0
  {
    assert TruncDiv(a, b) == Abs(a) / Abs(b);
  }

  /** "WxH@N1/D1-N2/D2": six fields, and the frame rate of the top of the range. */
  lemma RangeRateToken(w: string, h: string, n1: string, d1: string, n2: string, d2: string)
    requires NoDelimiter(w) && NoDelimiter(h) && NoDelimiter(n1) && NoDelimiter(d1)
    requires NoDelimiter(n2) && NoDelimiter(d2)
    ensures Split(w + "x" + h + "@" + n1 + "/" + d1 + "-" + n2 + "/" + d2) == [w, h, n1, d1, n2, d2]
    ensures DivDefined(ToInt(n2), ToInt(d2)) ==>
      FrameRate(Split(w + "x" + h + "@" + n1 + "/" + d1 + "-" + n2 + "/" + d2))
        == Some(TruncDiv(ToInt(n2), ToInt(d2)))
  {
    SplitGlue([w, h, n1, d1, n2, d2], ['x', '@', '/', '-', '/']);
    RangeGlue(w, h, n1, d1, n2, d2);
  }

  lemma RangeGlue(w: string, h: string, n1: string, d1: string, n2: string, d2: string)
    ensures Glue([w, h, n1, d1, n2, d2], ['x', '@', '/', '-', '/'])
         == w + "x" + h + "@" + n1 + "/" + d1 + "-" + n2 + "/" + d2
  {
    var fields := [w, h, n1, d1, n2, d2];
    var g4 := n2 + "/" + d2;
    assert Glue(fields[4..], ['/']) == g4 by {
      assert Glue(fields[5..], []) == d2;
    }
    var g3 := d1 + "-" + g4;
    assert Glue(fields[3..], ['-', '/']) == g3;
    var g2 := n1 + "/" + g3;
    assert Glue(fields[2..], ['/', '-', '/']) == g2;
    var g1 := h + "@" + g2;
    assert Glue(fields[1..], ['@', '/', '-', '/']) == g1;
    assert w + "x" + g1 == w + "x" + h + "@" + n1 + "/" + d1 + "-" + n2 + "/" + d2;
  }

  // ---------------------------------------------------------------------
  // Placeholder keys
  // ---------------------------------------------------------------------

  /** The camera part of a key: the first three characters of the camera name, upper-cased. */
  function CamKey(cameraName: string): (r: string)
    ensures |r| == Min(3, |cameraName|)
    ensures forall i :: 0 <= i < |r| ==> r[i] == UpperChar(cameraName[i])
  {
    Upper(Left(cameraName, 3))
  }

  /** The capture type's tag in a key. */
  function Tag(kind: Kind): (r: string)
    requires kind != Unknown
    ensures r == "VF" <==> kind == Viewfinder
    ensures r == "IMAGE" <==> kind == Image
    ensures r == "VIDEO" <==> kind == Video
  {
    match kind
    case Viewfinder => "VF"
    case Image => "IMAGE"
    case Video => "VIDEO"
  }

  /** The bucket part of a key: '@', the camera key, and the capture type's tag. */
  function Prefix(camKey: string, kind: Kind): (r: string)
    requires kind != Unknown
    ensures |r| > |camKey| + 1 && r[..|camKey| + 1] == "@" + camKey
    ensures r[|camKey| + 1..] in {"VF", "IMAGE", "VIDEO"}
    ensures r[|camKey| + 1..] == "VIDEO" <==> kind == Video
    ensures r[|camKey| + 1..] == "VF" <==> kind == Viewfinder
  {
    "@" + camKey + Tag(kind)
  }

  /** The aspect part of a key: "43", "169", and nothing for a video bucket. */
  function Suffix(kind: Kind, aspectName: string): (r: string)
    ensures r == "43" <==> aspectName == "4:3"
    ensures r == "" <==> kind == Video && aspectName != "4:3"
    ensures r == "169" <==> kind != Video && aspectName != "4:3"
  {
    if aspectName == "4:3" then "43" else if kind == Video then "" else "169"
  }

  /** The frame-rate key of a camera's video bucket. */
  function FpsKey(camKey: string): (r: string)
    ensures r == "@" + camKey + "VIDEOFPS@"
  {
    Prefix(camKey, Video) + "FPS@"
  }

  /** A resolution key and a frame-rate key never coincide. */
  lemma ResKeyNotFpsKey(p: string, camKey: string)
    ensures p + "RES@" != FpsKey(camKey)
  {
    var a, b := p + "RES@", FpsKey(camKey);
    if |a| == |b| {
      assert a[|a| - 4] == 'R' && b[|b| - 4] == 'F';
    }
  }

  // ---------------------------------------------------------------------
  // Admitting a token as a candidate for a key
  // ---------------------------------------------------------------------

  /** A token that passes the filters: its key, the "WxH" value, its area and frame rate. */
  datatype Candidate = Candidate(key: string, value: string, size: int, rate: int)

  /**
   * What the generator needs of a token to get through it without
   * undefined behaviour: at least two fields, and, where the frame-rate
   * division is reached (a 16:9 video token), a defined division.
   */
  predicate TokenSafe(kind: Kind, token: string, aspect: string -> string) {
    var bits := Split(token);
    |bits| >= 2 && (kind == Video && aspect(token) == "16:9" ==> RateDefined(bits))
  }

  /**
   * The filters a token of a group of the given kind goes through, and the
   * candidate it becomes: the screen fit for viewfinders, the aspect label
   * ("4:3" except for video, or "16:9"), a frame rate for video.
   */
  function Admit(camKey: string, kind: Kind, token: string, screen: Screen, aspect: string -> string): (r: Option<Candidate>)
    requires kind != Unknown && TokenSafe(kind, token, aspect)
    ensures r.Some? <==>
      && (kind == Viewfinder ==> FitsScreen(ToInt(Split(token)[0]), ToInt(Split(token)[1]), screen))
      && ((aspect(token) == "4:3" && kind != Video) || aspect(token) == "16:9")
      && (kind == Video ==> |Split(token)| == 4 || |Split(token)| == 6)
    ensures r.Some? ==>
      && r.value.key == "@" + camKey + Tag(kind)
           + (if kind == Video then "" else if aspect(token) == "4:3" then "43" else "169") + "RES@"
      && r.value.value == Split(token)[0] + "x" + Split(token)[1]
      && r.value.size == ToInt(Split(token)[0]) * ToInt(Split(token)[1])
      && r.value.rate == (if kind == Video then FrameRate(Split(token)).value else 0)
    ensures r.Some? ==> r.value.key != FpsKey(camKey)
    ensures r.Some? ==> r.value.size >= 0 && r.value.rate >= 0
  {
    var bits := Split(token);
    var w, h := ToInt(bits[0]), ToInt(bits[1]);
    var ratio := aspect(token);
    if kind == Viewfinder && !FitsScreen(w, h, screen) then None
    else if ratio == "4:3" && kind == Video then None
    else if ratio != "4:3" && ratio != "16:9" then None
    else
      var rate := if kind == Video then FrameRate(bits) else Some(0);
      if rate.None? then None
      else
        ResKeyNotFpsKey(Prefix(camKey, kind) + Suffix(kind, ratio), camKey);
        AreaNonNegative(bits[0], bits[1]);
        RateNonNegative(bits);
        Some(Candidate(Prefix(camKey, kind) + Suffix(kind, ratio) + "RES@", bits[0] + "x" + bits[1], w * h, rate.value))
  }
}
