/** JavaScript values as they occur in a WayForPay field set, their
    truthiness, and the string conversion that `Array.prototype.join`
    applies to each element. */
module JsValues {

  /** A JavaScript value. Numbers are integers here: the floating-point
      side of JS numbers (fractions, NaN, infinities) is not modelled. */
  datatype Value =
    | Undefined
    | Null
    | Bool(b: bool)
    | Num(n: int)
    | Str(s: string)
    | Arr(items: seq<Value>)

  /** JavaScript truthiness as `!x` tests it: `undefined`, `null`, `false`,
      `0` and `""` are falsy; every array, even an empty one, is truthy. */
  predicate Truthy(v: Value) {
    match v
    case Undefined => false
    case Null => false
    case Bool(b) => b
    case Num(n) => n != 0
    case Str(s) => s != ""
    case Arr(_) => true
  }

  predicate IsDigit(ch: char) {
    '0' <= ch <= '9'
  }

  function DigitChar(d: nat): (ch: char)
    requires d < 10
    ensures IsDigit(ch) && ch as int - '0' as int == d
  {
    ('0' as int + d) as char
  }

  /** Decimal rendering of a natural number, most significant digit first. */
  function NatToString(n: nat): (r: string)
    ensures |r| >= 1
    ensures forall i :: 0 <= i < |r| ==> IsDigit(r[i])
    decreases n
  {
    if n < 10 then [DigitChar(n)] else NatToString(n / 10) + [DigitChar(n % 10)]
  }

  /** Reads a string of decimal digits back as a number. */
  function DigitsValue(s: string): nat
    requires forall i :: 0 <= i < |s| ==> IsDigit(s[i])
  {
    if s == [] then 0
    else
      assert IsDigit(s[|s| - 1]);
      DigitsValue(s[..|s| - 1]) * 10 + (s[|s| - 1] as int - '0' as int)
  }

  /** The decimal rendering of a number is read back as that number. */
  lemma {:induction false} NatToStringRoundTrip(n: nat)
    ensures DigitsValue(NatToString(n)) == n
    decreases n
  {
    var r := NatToString(n);
    if n >= 10 {
      NatToStringRoundTrip(n / 10);
      assert r[..|r| - 1] == NatToString(n / 10);
    }
  }

  /** Decimal text of an integer: digits, with a leading "-" when negative. */
  predicate IsNumeral(s: string) {
    if |s| >= 1 && s[0] == '-' then
      |s| >= 2 && forall i :: 1 <= i < |s| ==> IsDigit(s[i])
    else
      |s| >= 1 && forall i :: 0 <= i < |s| ==> IsDigit(s[i])
  }

  /** Reads decimal text back as an integer. */
  function NumeralValue(s: string): int
    requires IsNumeral(s)
  {
    if s[0] == '-' then
      assert forall i :: 0 <= i < |s| - 1 ==> s[1..][i] == s[i + 1];
      -(DigitsValue(s[1..]) as int)
    else DigitsValue(s)
  }

  /** The text a number contributes to a join reads back as that number,
      negative numbers included. */
  lemma NumberStringRoundTrip(n: int)
    ensures IsNumeral(ElemString(Num(n)))
    ensures NumeralValue(ElemString(Num(n))) == n
  {
    if n < 0 {
      NatToStringRoundTrip(-n);
      var t := NatToString(-n);
      assert ("-" + t)[1..] == t;
    } else {
      NatToStringRoundTrip(n);
    }
  }

  /** The string `Array.prototype.join` uses for one element: `undefined`
      and `null` become the empty string, a nested array is rendered by its
      own `toString`, which joins its elements with ",". */
  function ElemString(v: Value): string
    decreases v
  {
    match v
    case Undefined => ""
    case Null => ""
    case Bool(b) => if b then "true" else "false"
    case Num(n) => if n < 0 then "-" + NatToString(-n) else NatToString(n)
    case Str(s) => s
    case Arr(items) =>
      JoinStrings(seq(|items|, i requires 0 <= i < |items| => ElemString(items[i])), ",")
  }

  /** The element strings of a JS array, in order. */
  function ElemStrings(vs: seq<Value>): seq<string>
  {
    seq(|vs|, i requires 0 <= i < |vs| => ElemString(vs[i]))
  }

  /** Strings glued together with `sep` between neighbours. */
  function JoinStrings(ss: seq<string>, sep: string): string
  {
    if |ss| == 0 then ""
    else if |ss| == 1 then ss[0]
    else ss[0] + sep + JoinStrings(ss[1..], sep)
  }

  /** `vs.join(sep)` for a JS array `vs`. */
  function Join(vs: seq<Value>, sep: string): string
  {
    JoinStrings(ElemStrings(vs), sep)
  }

  /** `s.split(c)` for a one-character separator: always at least one piece. */
  function Split(s: string, c: char): (r: seq<string>)
    ensures |r| >= 1
  {
    if |s| == 0 then [""]
    else
      var rest := Split(s[1..], c);
      if s[0] == c then [""] + rest else [[s[0]] + rest[0]] + rest[1..]
  }

  lemma {:induction false} SplitNoSeparator(a: string, c: char)
    requires c !in a
    ensures Split(a, c) == [a]
  {
    if |a| > 0 {
      SplitNoSeparator(a[1..], c);
      assert [a[0]] + a[1..] == a;
    }
  }

  lemma {:induction false} SplitAtFirst(a: string, b: string, c: char)
    requires c !in a
    ensures Split(a + [c] + b, c) == [a] + Split(b, c)
  {
    var s := a + [c] + b;
    if |a| == 0 {
      assert s[1..] == b;
    } else {
      assert s[1..] == a[1..] + [c] + b;
      SplitAtFirst(a[1..], b, c);
      assert [a[0]] + a[1..] == a;
    }
  }

  /** Joining with a one-character separator that none of the pieces
      contains is undone by splitting on it: the joined string determines
      the pieces. */
  lemma {:induction false} SplitJoin(ss: seq<string>, c: char)
    requires |ss| >= 1
    requires forall i :: 0 <= i < |ss| ==> c !in ss[i]
    ensures Split(JoinStrings(ss, [c]), c) == ss
  {
    if |ss| == 1 {
      SplitNoSeparator(ss[0], c);
    } else {
      SplitJoin(ss[1..], c);
      SplitAtFirst(ss[0], JoinStrings(ss[1..], [c]), c);
      assert [ss[0]] + ss[1..] == ss;
    }
  }
}
