/** The text form of the video rectangle: getVideoRectangle prints it with "%u,%u,%u,%u" and
    setVideoRectangle scans it with the same format
    (source/GStreamerMSEMediaPlayerClient.cpp). */
module VideoRectangles {
  import opened Common

  datatype Rectangle = Rectangle(x: nat, y: nat, width: nat, height: nat)

  predicate Fits32(r: Rectangle) {
    r.x < TWO_TO_THE_32 && r.y < TWO_TO_THE_32 && r.width < TWO_TO_THE_32 && r.height < TWO_TO_THE_32
  }

  predicate IsDigit(c: char) {
    '0' <= c <= '9'
  }

  function DigitValue(c: char): (d: nat)
    requires IsDigit(c)
    ensures d < 10
  {
    c as int - '0' as int
  }

  function DigitChar(d: nat): (c: char)
    requires d < 10
    ensures IsDigit(c) && DigitValue(c) == d
  {
    (d + '0' as int) as char
  }

  /** %u of printf. */
  function PrintNumber(n: nat): (s: string)
    ensures s != [] && forall c | c in s :: IsDigit(c)
  {
    if n < 10 then [DigitChar(n)] else PrintNumber(n / 10) + [DigitChar(n % 10)]
  }

  function Print(r: Rectangle): string {
    PrintNumber(r.x) + "," + PrintNumber(r.y) + "," + PrintNumber(r.width) + "," + PrintNumber(r.height)
  }

  // ----- scanning

  predicate IsSpace(c: char) {
    c == ' ' || c == '\t' || c == '\n' || c == '\r' || c as int == 11 || c as int == 12
  }

  function SkipSpaces(s: string): string {
    if s != [] && IsSpace(s[0]) then SkipSpaces(s[1..]) else s
  }

  /** How many digits `s` starts with. */
  function DigitCount(s: string): (n: nat)
    ensures n <= |s|
    ensures forall i | 0 <= i < n :: IsDigit(s[i])
    ensures n < |s| ==> !IsDigit(s[n])
  {
    if s != [] && IsDigit(s[0]) then 1 + DigitCount(s[1..]) else 0
  }

  function Value(digits: string): nat
    requires forall c | c in digits :: IsDigit(c)
  {
    if digits == [] then 0
    else 10 * Value(digits[..|digits| - 1]) + DigitValue(digits[|digits| - 1])
  }

  const ULONG_MAX: int := 0xFFFF_FFFF_FFFF_FFFF

  /** %u of scanf: spaces, an optional sign and digits, converted like strtoul to 64 bits and
      stored in 32; with what follows. */
  function ScanNumber(s: string): Option<(nat, string)> {
    ScanSigned(SkipSpaces(s))
  }

  function ScanSigned(t: string): Option<(nat, string)> {
    if t != [] && (t[0] == '+' || t[0] == '-') then ScanDigits(t[1..], t[0] == '-')
    else ScanDigits(t, false)
  }

  function ScanDigits(u: string, minus: bool): Option<(nat, string)> {
    var n := DigitCount(u);
    if n == 0 then None
    else
      var v: int := Value(u[..n]);
      var long := if v > ULONG_MAX then ULONG_MAX else if minus then -v else v;
      Some((U32(long), u[n..]))
  }

  function ScanComma(s: string): Option<string> {
    if s != [] && s[0] == ',' then Some(s[1..]) else None
  }

  /** A further number after a comma. */
  function ScanNext(s: string): Option<(nat, string)> {
    match ScanComma(s)
    case None => None
    case Some(t) => ScanNumber(t)
  }

  /** sscanf, which must match all four numbers; what follows them is ignored. */
  function Scan(s: string): Option<Rectangle> {
    match ScanNumber(s)
    case None => None
    case Some((x, s1)) =>
      match ScanNext(s1)
      case None => None
      case Some((y, s2)) =>
        match ScanNext(s2)
        case None => None
        case Some((width, s3)) =>
          match ScanNext(s3)
          case None => None
          case Some((height, _)) => Some(Rectangle(x, y, width, height))
  }

  // ----- round trip

  lemma {:induction false} ValuePrinted(n: nat)
    ensures Value(PrintNumber(n)) == n
  {
    if n >= 10 {
      ValuePrinted(n / 10);
      var s := PrintNumber(n);
      assert s[..|s| - 1] == PrintNumber(n / 10);
    }
  }

  lemma {:induction false} DigitCountOf(digits: string, rest: string)
    requires forall c | c in digits :: IsDigit(c)
    requires rest != [] ==> !IsDigit(rest[0])
    ensures DigitCount(digits + rest) == |digits|
  {
    if digits == [] {
      assert digits + rest == rest;
    } else {
      assert (digits + rest)[1..] == digits[1..] + rest;
      DigitCountOf(digits[1..], rest);
    }
  }

  lemma ScanPrinted(n: nat, rest: string)
    requires n < TWO_TO_THE_32 && (rest != [] ==> !IsDigit(rest[0]))
    ensures ScanNumber(PrintNumber(n) + rest) == Some((n, rest))
  {
    var d := PrintNumber(n);
    var s := d + rest;
    assert s[0] == d[0] && d[0] in d;
    DigitCountOf(d, rest);
    ValuePrinted(n);
    assert s[..|d|] == d && s[|d|..] == rest;
  }

  lemma ScanNextPrinted(n: nat, rest: string)
    requires n < TWO_TO_THE_32 && (rest != [] ==> !IsDigit(rest[0]))
    ensures ScanNext("," + (PrintNumber(n) + rest)) == Some((n, rest))
  {
    ScanPrinted(n, rest);
    assert ("," + (PrintNumber(n) + rest))[1..] == PrintNumber(n) + rest;
  }

  /** Scanning what was printed gives the same rectangle back. */
  lemma PrintScan(r: Rectangle)
    requires Fits32(r)
    ensures Scan(Print(r)) == Some(r)
  {
    var s3 := "," + (PrintNumber(r.height) + "");
    var s2 := "," + (PrintNumber(r.width) + s3);
    var s1 := "," + (PrintNumber(r.y) + s2);
    assert Print(r) == PrintNumber(r.x) + s1;
    ScanPrinted(r.x, s1);
    ScanNextPrinted(r.y, s2);
    ScanNextPrinted(r.width, s3);
    ScanNextPrinted(r.height, "");
  }

  // ----- which texts are scanned

  /** A number as scanf's %u reads it. */
  datatype Numeral = Numeral(spaces: string, sign: string, digits: string)

  predicate WellFormed(n: Numeral) {
    && (forall c | c in n.spaces :: IsSpace(c))
    && (n.sign == "" || n.sign == "+" || n.sign == "-")
    && n.digits != [] && forall c | c in n.digits :: IsDigit(c)
  }

  function Text(n: Numeral): string {
    n.spaces + (n.sign + n.digits)
  }

  /** What is stored: strtoul's value, which a minus sign negates, in 32 bits. */
  function Stored(n: Numeral): nat
    requires WellFormed(n)
  {
    StoredDigits(n.digits, n.sign == "-")
  }

  function StoredDigits(digits: string, minus: bool): nat
    requires forall c | c in digits :: IsDigit(c)
  {
    var v: int := Value(digits);
    if v > ULONG_MAX then TWO_TO_THE_32 - 1
    else if minus then U32(-v)
    else U32(v)
  }

  lemma MaxStored()
    ensures U32(ULONG_MAX) == TWO_TO_THE_32 - 1
  {
    assert ULONG_MAX == TWO_TO_THE_32 * TWO_TO_THE_32 - 1;
  }

  lemma {:induction false} SkipsSpaces(spaces: string, t: string)
    requires (forall c | c in spaces :: IsSpace(c)) && (t != [] ==> !IsSpace(t[0]))
    ensures SkipSpaces(spaces + t) == t
  {
    if spaces == [] {
      assert spaces + t == t;
    } else {
      assert (spaces + t)[1..] == spaces[1..] + t;
      SkipsSpaces(spaces[1..], t);
    }
  }

  lemma {:induction false} SpacesSkipped(s: string) returns (spaces: string)
    ensures s == spaces + SkipSpaces(s) && forall c | c in spaces :: IsSpace(c)
  {
    if s != [] && IsSpace(s[0]) {
      spaces := SpacesSkipped(s[1..]);
      spaces := [s[0]] + spaces;
    } else {
      spaces := [];
    }
  }

  lemma DigitsScanned(digits: string, rest: string, minus: bool)
    requires digits != [] && (forall c | c in digits :: IsDigit(c)) && (rest != [] ==> !IsDigit(rest[0]))
    ensures ScanDigits(digits + rest, minus) == Some((StoredDigits(digits, minus), rest))
  {
    var u := digits + rest;
    DigitCountOf(digits, rest);
    assert u[..|digits|] == digits && u[|digits|..] == rest;
    MaxStored();
  }

  lemma SignedScanned(sign: string, u: string)
    requires sign == "+" || sign == "-"
    ensures ScanSigned(sign + u) == ScanDigits(u, sign == "-") && sign + u != [] && (sign + u)[0] == sign[0]
  {
    assert (sign + u)[1..] == u;
  }

  lemma SignScanned(n: Numeral, rest: string)
    requires WellFormed(n)
    ensures ScanSigned(n.sign + (n.digits + rest)) == ScanDigits(n.digits + rest, n.sign == "-")
    ensures n.sign + (n.digits + rest) != [] && !IsSpace((n.sign + (n.digits + rest))[0])
  {
    var u := n.digits + rest;
    assert IsDigit(n.digits[0]) && u[0] == n.digits[0] by { assert n.digits[0] in n.digits; }
    if n.sign == "" {
      assert n.sign + u == u;
    } else {
      SignedScanned(n.sign, u);
    }
  }

  lemma ScanNumeral(n: Numeral, rest: string)
    requires WellFormed(n) && (rest != [] ==> !IsDigit(rest[0]))
    ensures ScanNumber(Text(n) + rest) == Some((Stored(n), rest))
  {
    Regroup(n, rest);
    SignScanned(n, rest);
    SkipsSpaces(n.spaces, n.sign + (n.digits + rest));
    DigitsScanned(n.digits, rest, n.sign == "-");
  }

  lemma Regroup(n: Numeral, rest: string)
    ensures Text(n) + rest == n.spaces + (n.sign + (n.digits + rest))
  {
    Associate(n.spaces, n.sign + n.digits, rest);
    Associate(n.sign, n.digits, rest);
  }

  lemma ScannedDigits(u: string, minus: bool) returns (digits: string)
    requires ScanDigits(u, minus).Some?
    ensures var (v, rest) := ScanDigits(u, minus).value;
      digits != [] && (forall c | c in digits :: IsDigit(c)) && u == digits + rest
      && v == StoredDigits(digits, minus) && (rest != [] ==> !IsDigit(rest[0]))
  {
    var k := DigitCount(u);
    digits := u[..k];
    assert u == u[..k] + u[k..];
    assert u[k..] != [] ==> u[k..][0] == u[k];
    MaxStored();
  }

  lemma NumeralScanned(s: string) returns (n: Numeral)
    requires ScanNumber(s).Some?
    ensures var (v, rest) := ScanNumber(s).value;
      WellFormed(n) && s == Text(n) + rest && v == Stored(n) && (rest != [] ==> !IsDigit(rest[0]))
  {
    var spaces := SpacesSkipped(s);
    var t := SkipSpaces(s);
    var signed := t != [] && (t[0] == '+' || t[0] == '-');
    var sign, u := if signed then [t[0]] else "", if signed then t[1..] else t;
    var digits := ScannedDigits(u, sign == "-");
    n := Numeral(spaces, sign, digits);
    assert t == sign + u;
    Regroup(n, ScanNumber(s).value.1);
  }

  /** Four numbers separated by single commas, with anything but a digit behind them. */
  ghost predicate FourNumbers(s: string, a: Numeral, b: Numeral, c: Numeral, d: Numeral, rest: string) {
    && WellFormed(a) && WellFormed(b) && WellFormed(c) && WellFormed(d) && (rest != [] ==> !IsDigit(rest[0]))
    && s == Text(a) + ("," + (Text(b) + ("," + (Text(c) + ("," + (Text(d) + rest))))))
  }

  lemma ScanNextNumeral(n: Numeral, rest: string)
    requires WellFormed(n) && (rest != [] ==> !IsDigit(rest[0]))
    ensures ScanNext("," + (Text(n) + rest)) == Some((Stored(n), rest))
  {
    ScanNumeral(n, rest);
    assert ("," + (Text(n) + rest))[1..] == Text(n) + rest;
  }

  lemma NextScanned(s: string) returns (n: Numeral)
    requires ScanNext(s).Some?
    ensures var (v, rest) := ScanNext(s).value;
      WellFormed(n) && s == "," + (Text(n) + rest) && v == Stored(n) && (rest != [] ==> !IsDigit(rest[0]))
  {
    n := NumeralScanned(s[1..]);
    assert s == "," + s[1..];
  }

  lemma ScanFour(s: string, a: Numeral, b: Numeral, c: Numeral, d: Numeral, rest: string)
    requires FourNumbers(s, a, b, c, d, rest)
    ensures Scan(s) == Some(Rectangle(Stored(a), Stored(b), Stored(c), Stored(d)))
  {
    var s3 := "," + (Text(d) + rest);
    var s2 := "," + (Text(c) + s3);
    var s1 := "," + (Text(b) + s2);
    ScanNumeral(a, s1);
    ScanNextNumeral(b, s2);
    ScanNextNumeral(c, s3);
    ScanNextNumeral(d, rest);
  }

  /** Exactly the texts with four numbers are scanned, all others are refused, and each number is
      stored as it stands, but for its sign and 32 bits. */
  lemma ScanExactly(s: string, r: Rectangle)
    ensures Scan(s) == Some(r) <==>
      exists a, b, c, d, rest :: FourNumbers(s, a, b, c, d, rest)
        && r == Rectangle(Stored(a), Stored(b), Stored(c), Stored(d))
  {
    if Scan(s) == Some(r) {
      var s1 := ScanNumber(s).value.1;
      var s2 := ScanNext(s1).value.1;
      var s3 := ScanNext(s2).value.1;
      var a := NumeralScanned(s);
      var b := NextScanned(s1);
      var c := NextScanned(s2);
      var d := NextScanned(s3);
      assert FourNumbers(s, a, b, c, d, ScanNext(s3).value.1);
    }
    forall a, b, c, d, rest | FourNumbers(s, a, b, c, d, rest)
      ensures Scan(s) == Some(Rectangle(Stored(a), Stored(b), Stored(c), Stored(d)))
    {
      ScanFour(s, a, b, c, d, rest);
    }
  }

  function Pow10(k: nat): nat {
    if k == 0 then 1 else 10 * Pow10(k - 1)
  }

  lemma {:induction false} PrintedLength(n: nat, k: nat)
    requires k > 0 && n < Pow10(k)
    ensures |PrintNumber(n)| <= k
  {
    if n >= 10 {
      PrintedLength(n / 10, k - 1);
    }
  }

  /** The text and its terminator fit the 64-byte buffer that sprintf writes to. */
  lemma PrintFits(r: Rectangle)
    requires Fits32(r)
    ensures |Print(r)| + 1 <= 64
  {
    assert Pow10(10) == 10_000_000_000;
    PrintedLength(r.x, 10);
    PrintedLength(r.y, 10);
    PrintedLength(r.width, 10);
    PrintedLength(r.height, 10);
  }

  // ----- the client's methods

  class RectangleClient {
    var videoRectangle: Rectangle
    var backendCreated: bool
    ghost var windows: seq<Rectangle>  // passed to the server's setVideoWindow

    ghost predicate Valid()
      reads this
    {
      Fits32(videoRectangle)
    }

    constructor ()
      ensures Valid() && videoRectangle == Rectangle(0, 0, 1920, 1080) && windows == [] && !backendCreated
    {
      videoRectangle, backendCreated, windows := Rectangle(0, 0, 1920, 1080), false, [];
    }

    method SetVideoRectangle(text: string)
      requires Valid()
      modifies this
      ensures Valid() && backendCreated == old(backendCreated)
      ensures backendCreated && text != [] && Scan(text).Some? ==>
        videoRectangle == Scan(text).value && windows == old(windows) + [Scan(text).value]
      ensures !(backendCreated && text != [] && Scan(text).Some?) ==>
        videoRectangle == old(videoRectangle) && windows == old(windows)
    {
      if !backendCreated {
        return;
      }
      if text == [] {
        return;
      }
      var scanned := Scan(text);
      if scanned.None? {
        return;
      }
      windows := windows + [scanned.value];
      videoRectangle := scanned.value;
    }

    method GetVideoRectangle() returns (text: string)
      requires Valid()
      ensures text == Print(videoRectangle) && |text| + 1 <= 64
      ensures Scan(text) == Some(videoRectangle)
    {
      PrintFits(videoRectangle);
      PrintScan(videoRectangle);
      text := Print(videoRectangle);
    }
  }
}
