/** The trade markers of the realtime script: each fill of the trade history
    becomes one chart marker whose side of the candle, shape, colour and text
    follow from the fill's role and side. The initial markers and the replayed
    ones are built by the same classification. */
module Markers {
  import opened Prelude

  /** One row of the fill history. `time` is the fill time in milliseconds,
      already timezone-naive; `side` and `role` are spelt as in the file; `tag`
      names the exit; `qty` is in hundredths and `price` in tenths, the
      precision the marker text shows them at. */
  datatype Fill = Fill(time: int, side: string, role: string, tag: string, qty: int, price: int)

  datatype Position = Above | Below

  datatype Shape = ArrowUp | ArrowDown | Circle

  /** The four kinds of trade the script tells apart. */
  datatype Kind = LongEntry | ShortEntry | LongExit | ShortExit

  /** The arguments of one `chart.marker(...)` call. */
  datatype Marker = Marker(time: int, position: Position, shape: Shape, color: string, text: string)

  /** An `open` role is an entry, and any other role an exit; an entry is long on
      `BUY` and short otherwise, an exit closes a long on `SELL` and a short
      otherwise. The strings are compared exactly. */
  function KindOf(role: string, side: string): Kind
  {
    if role == "open" then
      if side == "BUY" then LongEntry else ShortEntry
    else
      if side == "SELL" then LongExit else ShortExit
  }

  function PositionOf(k: Kind): Position
  {
    match k
    case LongEntry => Below
    case ShortEntry => Above
    case LongExit => Above
    case ShortExit => Below
  }

  function ShapeOf(k: Kind): Shape
  {
    match k
    case LongEntry => ArrowUp
    case ShortEntry => ArrowDown
    case LongExit => Circle
    case ShortExit => Circle
  }

  function ColorOf(k: Kind): string
  {
    match k
    case LongEntry => "#26a69a"
    case ShortEntry => "#ef5350"
    case LongExit => "#4caf50"
    case ShortExit => "#ff5252"
  }

  /** The words before the numbers in a marker's text. */
  function Prefix(k: Kind, tag: string): string
  {
    match k
    case LongEntry => "LONG "
    case ShortEntry => "SHORT "
    case LongExit => "EXIT " + tag + " "
    case ShortExit => "EXIT " + tag + " "
  }

  /** `f"{prefix}{qty:.2f}@{price:.1f}"` */
  function LabelText(k: Kind, tag: string, qty: int, price: int): string
  {
    Prefix(k, tag) + Fixed2(qty) + "@" + Fixed1(price)
  }

  /** The marker the script draws for a fill. */
  function MarkerOf(f: Fill): Marker
  {
    var k := KindOf(f.role, f.side);
    Marker(f.time, PositionOf(k), ShapeOf(k), ColorOf(k), LabelText(k, f.tag, f.qty, f.price))
  }

  /** The four branches of the classification, each as an if-and-only-if over
      every pair of role and side strings. */
  lemma KindCases(role: string, side: string)
    ensures KindOf(role, side) == LongEntry <==> role == "open" && side == "BUY"
    ensures KindOf(role, side) == ShortEntry <==> role == "open" && side != "BUY"
    ensures KindOf(role, side) == LongExit <==> role != "open" && side == "SELL"
    ensures KindOf(role, side) == ShortExit <==> role != "open" && side != "SELL"
  {
  }

  /** What the script draws for each kind of fill: where, which shape, which
      colour and which words. */
  lemma MarkerStyle(f: Fill)
    ensures var m := MarkerOf(f);
      var numbers := Fixed2(f.qty) + "@" + Fixed1(f.price);
      && m.time == f.time
      && (f.role == "open" && f.side == "BUY" ==>
            m.position == Below && m.shape == ArrowUp && m.color == "#26a69a" && m.text == "LONG " + numbers)
      && (f.role == "open" && f.side != "BUY" ==>
            m.position == Above && m.shape == ArrowDown && m.color == "#ef5350" && m.text == "SHORT " + numbers)
      && (f.role != "open" && f.side == "SELL" ==>
            m.position == Above && m.shape == Circle && m.color == "#4caf50" && m.text == "EXIT " + f.tag + " " + numbers)
      && (f.role != "open" && f.side != "SELL" ==>
            m.position == Below && m.shape == Circle && m.color == "#ff5252" && m.text == "EXIT " + f.tag + " " + numbers)
  {
    var numbers := Fixed2(f.qty) + "@" + Fixed1(f.price);
    var k := KindOf(f.role, f.side);
    assert LabelText(k, f.tag, f.qty, f.price) == Prefix(k, f.tag) + numbers;
  }

  /** Entries are arrows and exits are circles; every role but `open`, whatever
      its spelling, draws an exit. */
  lemma ExitsAreCircles(f: Fill)
    ensures MarkerOf(f).shape == Circle <==> f.role != "open"
    ensures MarkerOf(f).shape == ArrowUp <==> f.role == "open" && f.side == "BUY"
  {
  }

  /** The colours of the four kinds are distinct, so a drawn marker shows its
      kind. */
  lemma ColorIdentifiesKind(k1: Kind, k2: Kind)
    ensures ColorOf(k1) == ColorOf(k2) <==> k1 == k2
  {
  }

  /** Long entries and short exits sit below the candle, the other two above. */
  lemma PositionFollowsKind(f: Fill)
    ensures MarkerOf(f).position == Below <==>
      (f.role == "open" && f.side == "BUY") || (f.role != "open" && f.side != "SELL")
  {
  }

  // Fixed-point numbers as `:.2f` and `:.1f` print them.

  /** The decimal digits of `n`, without leading zeros. */
  function NatText(n: nat): (s: string)
    ensures |s| > 0
    ensures forall i :: 0 <= i < |s| ==> '0' <= s[i] <= '9'
    decreases n
  {
    if n < 10 then [Digit(n)] else NatText(n / 10) + [Digit(n % 10)]
  }

  /** The number a string of decimal digits spells. */
  function ParseNat(s: string): int
  {
    if s == [] then 0 else ParseNat(s[..|s| - 1]) * 10 + DigitValue(s[|s| - 1])
  }

  lemma ParseNatSnoc(s: string, c: char)
    ensures ParseNat(s + [c]) == ParseNat(s) * 10 + DigitValue(c)
  {
    assert (s + [c])[..|s|] == s;
  }

  /** Printing a natural number and reading it back gives the number. */
  lemma {:induction false} NatTextRoundTrip(n: nat)
    ensures ParseNat(NatText(n)) == n
    decreases n
  {
    if n >= 10 {
      NatTextRoundTrip(n / 10);
      ParseNatSnoc(NatText(n / 10), Digit(n % 10));
    }
  }

  function Sign(n: int): string
  {
    if n < 0 then "-" else ""
  }

  function Abs(n: int): nat
  {
    if n < 0 then -n else n
  }

  /** `x:.2f` for `x` = `n` hundredths. */
  function Fixed2(n: int): (s: string)
    ensures forall i :: 0 <= i < |s| ==> s[i] != '@' && s[i] != ' '
  {
    var a := Abs(n);
    Sign(n) + NatText(a / 100) + "." + [Digit(a / 10 % 10), Digit(a % 10)]
  }

  /** `x:.1f` for `x` = `n` tenths. */
  function Fixed1(n: int): (s: string)
    ensures forall i :: 0 <= i < |s| ==> s[i] != '@' && s[i] != ' '
  {
    var a := Abs(n);
    Sign(n) + NatText(a / 10) + "." + [Digit(a % 10)]
  }

  /** The exact texts of the four branches on sample fills: two decimals for
      the quantity, one for the price, `@` between them. */
  lemma LongLabelExample(f: Fill)
    requires f == Fill(0, "BUY", "open", "x", 100, 1000)
    ensures MarkerOf(f).text == "LONG 1.00@100.0"
  {
    NatTextExamples();
    Fixed2Parts(100, "1", '0', '0');
    Fixed1Parts(1000, "100", '0');
  }

  lemma ShortLabelExample(f: Fill)
    requires f == Fill(0, "SELL", "open", "x", 250, 475)
    ensures MarkerOf(f).text == "SHORT 2.50@47.5"
  {
    NatTextExamples();
    Fixed2Parts(250, "2", '5', '0');
    Fixed1Parts(475, "47", '5');
  }

  lemma ExitLongLabelExample(f: Fill)
    requires f == Fill(0, "SELL", "close", "tp1", 5, 12345)
    ensures MarkerOf(f).text == "EXIT tp1 0.05@1234.5"
  {
    NatTextExamples();
    Fixed2Parts(5, "0", '0', '5');
    Fixed1Parts(12345, "1234", '5');
  }

  lemma ExitShortLabelExample(f: Fill)
    requires f == Fill(0, "BUY", "close", "sl", 1234, 9)
    ensures MarkerOf(f).text == "EXIT sl 12.34@0.9"
  {
    NatTextExamples();
    Fixed2Parts(1234, "12", '3', '4');
    Fixed1Parts(9, "0", '9');
  }

  /** `Fixed2` of a non-negative count from its whole part and two decimals. */
  lemma Fixed2Parts(n: nat, whole: string, d1: char, d2: char)
    requires whole == NatText(n / 100) && d1 == Digit(n / 10 % 10) && d2 == Digit(n % 10)
    ensures Fixed2(n) == whole + "." + [d1, d2]
  {
    assert Sign(n) == [] && Abs(n) == n;
    assert [] + (whole + "." + [d1, d2]) == whole + "." + [d1, d2];
  }

  /** `Fixed1` of a non-negative count from its whole part and one decimal. */
  lemma Fixed1Parts(n: nat, whole: string, d: char)
    requires whole == NatText(n / 10) && d == Digit(n % 10)
    ensures Fixed1(n) == whole + "." + [d]
  {
    assert Sign(n) == [] && Abs(n) == n;
    assert [] + (whole + "." + [d]) == whole + "." + [d];
  }

  lemma NatTextExamples()
    ensures NatText(0) == "0" && NatText(1) == "1" && NatText(2) == "2" && NatText(12) == "12"
    ensures NatText(47) == "47" && NatText(100) == "100" && NatText(1234) == "1234"
  {
    assert NatText(4) == "4";
    assert NatText(10) == "10";
    assert NatText(123) == "123";
  }

  /** A negative quantity or price keeps its sign in front, as `:.2f` and
      `:.1f` print it. */
  lemma NegativeExamples()
    ensures Fixed2(-150) == "-1.50"
    ensures Fixed1(-5) == "-0.5"
  {
    assert NatText(1) == "1" && NatText(0) == "0";
  }

  /** Reads a fixed-point text with `places` decimals back as a count of units
      of the last decimal. */
  function ParseFixed(s: string, places: nat): int
  {
    var neg := |s| > 0 && s[0] == '-';
    var body := if neg then s[1..] else s;
    var value := if |body| <= places then 0 else ParseNat(body[..|body| - places - 1] + body[|body| - places..]);
    if neg then -value else value
  }

  /** A body of digits, a point and `places` decimals reads back as the number
      the digits spell without the point. */
  lemma ParseBody(body: string, places: nat, w: string, decimals: string)
    requires |decimals| == places && |w| > 0 && w[0] != '-'
    requires body == w + ['.'] + decimals
    ensures ParseFixed(body, places) == ParseNat(w + decimals)
  {
    Splice(w, '.', decimals);
  }

  /** A minus in front of a text that has none negates what it reads as. */
  lemma ParseMinus(body: string, places: nat)
    requires |body| == 0 || body[0] != '-'
    ensures ParseFixed("-" + body, places) == -ParseFixed(body, places)
  {
    var s := "-" + body;
    assert s[1..] == body;
  }

  /** A sign followed by such a body reads back as the signed number. */
  lemma ParseSigned(n: int, body: string, places: nat, w: string, decimals: string)
    requires |decimals| == places && |w| > 0 && w[0] != '-'
    requires body == w + ['.'] + decimals
    requires ParseNat(w + decimals) == Abs(n)
    ensures ParseFixed(Sign(n) + body, places) == n
  {
    ParseBody(body, places, w, decimals);
    if n < 0 {
      assert body[0] == w[0];
      ParseMinus(body, places);
    } else {
      assert Sign(n) + body == body;
    }
  }

  /** The parts around one element of a sequence are its slices. */
  lemma Splice<T>(a: seq<T>, x: T, b: seq<T>)
    ensures var s := a + [x] + b;
      && |s| == |a| + 1 + |b|
      && s[..|a|] == a && s[|a|] == x && s[|a| + 1..] == b
      && s[..|s| - |b| - 1] == a && s[|s| - |b|..] == b
  {
  }

  /** The whole part and the two decimals of `a` hundredths spell `a`. */
  lemma TwoDecimals(a: nat)
    ensures ParseNat(NatText(a / 100) + [Digit(a / 10 % 10), Digit(a % 10)]) == a
  {
    var w := NatText(a / 100);
    var d1, d2 := Digit(a / 10 % 10), Digit(a % 10);
    assert w + [d1, d2] == (w + [d1]) + [d2];
    NatTextRoundTrip(a / 100);
    ParseNatSnoc(w, d1);
    ParseNatSnoc(w + [d1], d2);
    assert a / 100 * 10 + a / 10 % 10 == a / 10;
    assert a / 10 * 10 + a % 10 == a;
  }

  /** The whole part and the decimal of `a` tenths spell `a`. */
  lemma OneDecimal(a: nat)
    ensures ParseNat(NatText(a / 10) + [Digit(a % 10)]) == a
  {
    NatTextRoundTrip(a / 10);
    ParseNatSnoc(NatText(a / 10), Digit(a % 10));
    assert a / 10 * 10 + a % 10 == a;
  }

  /** Printing with two decimals and reading back gives the number. */
  lemma Fixed2RoundTrip(n: int)
    ensures ParseFixed(Fixed2(n), 2) == n
  {
    var a := Abs(n);
    var w := NatText(a / 100);
    var decimals := [Digit(a / 10 % 10), Digit(a % 10)];
    TwoDecimals(a);
    assert Fixed2(n) == Sign(n) + (w + ['.'] + decimals);
    ParseSigned(n, w + ['.'] + decimals, 2, w, decimals);
  }

  /** Printing with one decimal and reading back gives the number. */
  lemma Fixed1RoundTrip(n: int)
    ensures ParseFixed(Fixed1(n), 1) == n
  {
    var a := Abs(n);
    var w := NatText(a / 10);
    var decimals := [Digit(a % 10)];
    OneDecimal(a);
    assert Fixed1(n) == Sign(n) + (w + ['.'] + decimals);
    ParseSigned(n, w + ['.'] + decimals, 1, w, decimals);
  }

  /** The position of the last `c` in `s`. */
  function LastIndex(s: string, c: char): (r: Option<nat>)
    ensures r.Some? ==> r.value < |s| && s[r.value] == c
  {
    if s == [] then None
    else if s[|s| - 1] == c then Some(|s| - 1)
    else LastIndex(s[..|s| - 1], c)
  }

  lemma {:induction false} LastIndexAt(a: string, c: char, b: string)
    requires forall i :: 0 <= i < |b| ==> b[i] != c
    ensures LastIndex(a + [c] + b, c) == Some(|a|)
    decreases |b|
  {
    var s := a + [c] + b;
    if b != [] {
      assert s[..|s| - 1] == a + [c] + b[..|b| - 1];
      LastIndexAt(a, c, b[..|b| - 1]);
    } else {
      assert s[|s| - 1] == c;
    }
  }

  /** Reads a marker text back into its words, quantity and price: the price
      follows the last `@`, the quantity sits between that `@` and the last
      space before it. */
  function DecodeLabel(text: string): Option<(string, int, int)>
  {
    match LastIndex(text, '@')
    case None => None
    case Some(at) =>
      match LastIndex(text[..at], ' ')
      case None => None
      case Some(sp) => Some((text[..sp + 1], ParseFixed(text[sp + 1..at], 2), ParseFixed(text[at + 1..], 1)))
  }

  /** A text made of words ending in a space, a quantity without spaces or `@`,
      an `@` and a price without `@` splits back into those three parts. */
  lemma DecodeParts(p: string, q: string, r: string)
    requires |p| > 0 && p[|p| - 1] == ' '
    requires forall i :: 0 <= i < |q| ==> q[i] != '@' && q[i] != ' '
    requires forall i :: 0 <= i < |r| ==> r[i] != '@'
    ensures DecodeLabel(p + q + "@" + r) == Some((p, ParseFixed(q, 2), ParseFixed(r, 1)))
  {
    var words := p + q;
    var text := words + ['@'] + r;
    assert p + q + "@" + r == text;
    Splice(words, '@', r);
    LastIndexAt(words, '@', r);
    var head := p[..|p| - 1];
    assert p == head + [' '];
    Splice(head, ' ', q);
    LastIndexAt(head, ' ', q);
    Halves(p, q);
    Nested(text, |p|, |words|);
  }

  /** The two halves of a concatenation are its slices. */
  lemma Halves<T>(a: seq<T>, b: seq<T>)
    ensures (a + b)[..|a|] == a && (a + b)[|a|..] == b
  {
  }

  /** Slicing a prefix is slicing the sequence. */
  lemma Nested<T>(s: seq<T>, i: nat, j: nat)
    requires i <= j <= |s|
    ensures s[..j][..i] == s[..i] && s[..j][i..] == s[i..j]
  {
  }

  /** Every marker text reads back to the words of its kind, its quantity and
      its price, whatever the exit tag holds. */
  lemma LabelRoundTrip(k: Kind, tag: string, qty: int, price: int)
    ensures DecodeLabel(LabelText(k, tag, qty, price)) == Some((Prefix(k, tag), qty, price))
  {
    DecodeParts(Prefix(k, tag), Fixed2(qty), Fixed1(price));
    Fixed2RoundTrip(qty);
    Fixed1RoundTrip(price);
  }
}
