/**
 * The small part of JavaScript's value semantics the automation relies on:
 * truthiness (what `||` and `if (!x)` test), `String(x)`, `padStart`,
 * `padEnd` and `split` on a set of separator characters.
 *
 * Numbers are integers here; fractions and NaN are not part of this model.
 */
module Js {

  /** A spreadsheet cell or object property as JavaScript sees it. */
  datatype JsValue = Undefined | Null | Bool(b: bool) | Num(n: int) | Str(s: string)

  /** An optional argument: `None` is a property that was never set. */
  datatype Option<T> = None | Some(value: T)

  /** A spreadsheet row read as an object; an absent key reads as `undefined`. */
  type Row = map<string, JsValue>

  function Get(row: Row, key: string): JsValue
  {
    if key in row then row[key] else Undefined
  }

  /** JavaScript truthiness: `undefined`, `null`, `false`, `0` and `""` are falsy. */
  predicate Truthy(v: JsValue)
  {
    match v
    case Undefined => false
    case Null => false
    case Bool(b) => b
    case Num(n) => n != 0
    case Str(s) => s != ""
  }

  predicate IsDigit(c: char)
  {
    '0' <= c <= '9'
  }

  predicate AllDigits(s: string)
  {
    forall i :: 0 <= i < |s| ==> IsDigit(s[i])
  }

  function DigitChar(d: nat): (c: char)
    requires d < 10
    ensures IsDigit(c)
  {
    (('0' as int) + d) as char
  }

  function DigitValue(c: char): int
  {
    (c as int) - ('0' as int)
  }

  /** The decimal digits of a natural number, most significant first. */
  function Digits(n: nat): (s: string)
    ensures |s| >= 1 && AllDigits(s)
    ensures s[0] == '0' ==> n == 0
    decreases n
  {
    if n < 10 then [DigitChar(n)] else Digits(n / 10) + [DigitChar(n % 10)]
  }

  /** Reads a string of decimal digits back as a number. */
  function ParseDigits(s: string): int
  {
    if s == [] then 0 else ParseDigits(s[..|s| - 1]) * 10 + DigitValue(s[|s| - 1])
  }

  /** `String(n)` for an integer `n`. */
  function Decimal(n: int): string
  {
    if n < 0 then "-" + Digits(-n) else Digits(n)
  }

  /** `String(v)`; it is empty exactly for the empty string. */
  function ToJsString(v: JsValue): (r: string)
    ensures r == "" <==> v == Str("")
  {
    match v
    case Undefined => "undefined"
    case Null => "null"
    case Bool(b) => if b then "true" else "false"
    case Num(n) => Decimal(n)
    case Str(s) => s
  }

  function Repeat(c: char, n: nat): (r: string)
    ensures |r| == n
    ensures forall i :: 0 <= i < n ==> r[i] == c
  {
    seq(n, _ => c)
  }

  /** `s.padStart(width, fill)` with a one-character fill: never truncates. */
  function PadStart(s: string, width: int, fill: char): (r: string)
    ensures |r| == if width > |s| then width else |s|
    ensures r[|r| - |s|..] == s
    ensures forall i :: 0 <= i < |r| - |s| ==> r[i] == fill
  {
    if width <= |s| then s else Repeat(fill, width - |s|) + s
  }

  /** `s.padEnd(width, fill)` with a one-character fill: never truncates. */
  function PadEnd(s: string, width: int, fill: char): (r: string)
    ensures |r| == if width > |s| then width else |s|
    ensures r[..|s|] == s
    ensures forall i :: |s| <= i < |r| ==> r[i] == fill
  {
    if width <= |s| then s else s + Repeat(fill, width - |s|)
  }

  predicate NoneOf(s: string, seps: set<char>)
  {
    forall i :: 0 <= i < |s| ==> s[i] !in seps
  }

  /**
   * `s.split(re)` for a regular expression that is one character class:
   * the pieces between separators, empty pieces included.
   */
  function Split(s: string, seps: set<char>): (parts: seq<string>)
    ensures |parts| >= 1
    ensures forall k :: 0 <= k < |parts| ==> NoneOf(parts[k], seps)
  {
    if s == [] then [""]
    else
      var rest := Split(s[1..], seps);
      if s[0] in seps then [""] + rest
      else [[s[0]] + rest[0]] + rest[1..]
  }

  /** `parts.join(sep)` for a one-character separator. */
  function Join(parts: seq<string>, sep: char): string
    requires |parts| >= 1
  {
    if |parts| == 1 then parts[0] else parts[0] + [sep] + Join(parts[1..], sep)
  }

  /** Reading the digits of a number back gives the number. */
  lemma {:induction false} DigitsRoundTrip(n: nat)
    ensures ParseDigits(Digits(n)) == n
  {
    if n >= 10 {
      var s := Digits(n);
      assert s[..|s| - 1] == Digits(n / 10);
      DigitsRoundTrip(n / 10);
    }
  }

  /** The decimal form of a positive multiple of ten ends in a zero. */
  lemma DigitsOfMultipleOfTen(n: nat)
    requires n >= 10 && n % 10 == 0
    ensures Digits(n)[|Digits(n)| - 1] == '0'
  {
  }

  /** Digit strings contain none of a set of non-digit separators. */
  lemma DigitsHaveNoneOf(n: nat, seps: set<char>)
    requires forall c :: c in seps ==> !IsDigit(c)
    ensures NoneOf(Digits(n), seps)
  {
    var s := Digits(n);
    forall i | 0 <= i < |s| ensures s[i] !in seps {
      assert IsDigit(s[i]);
    }
  }

  /** Decimal numbers contain no separator other than a possible leading minus. */
  lemma DecimalHasNoneOf(n: int, seps: set<char>)
    requires forall c :: c in seps ==> !IsDigit(c) && c != '-'
    ensures NoneOf(Decimal(n), seps)
  {
    var s := Decimal(n);
    forall i | 0 <= i < |s| ensures s[i] !in seps {
      if n < 0 {
        assert i == 0 || IsDigit(Digits(-n)[i - 1]);
      } else {
        assert IsDigit(Digits(n)[i]);
      }
    }
  }

  /** A piece without separators splits to itself. */
  lemma {:induction false} SplitWhole(a: string, seps: set<char>)
    requires NoneOf(a, seps)
    ensures Split(a, seps) == [a]
  {
    if a != [] {
      SplitWhole(a[1..], seps);
      assert [a[0]] + a[1..] == a;
    }
  }

  /** Splitting stops at the first separator and carries on after it. */
  lemma {:induction false} SplitAfter(a: string, c: char, b: string, seps: set<char>)
    requires NoneOf(a, seps) && c in seps
    ensures Split(a + [c] + b, seps) == [a] + Split(b, seps)
  {
    var s := a + [c] + b;
    if a == [] {
      assert s[0] == c && s[1..] == b;
    } else {
      assert s[0] == a[0] && s[1..] == a[1..] + [c] + b;
      SplitAfter(a[1..], c, b, seps);
      assert [a[0]] + a[1..] == a;
    }
  }

  /** Splitting a join on one of the separators gives the pieces back. */
  lemma {:induction false} SplitJoin(parts: seq<string>, c: char, seps: set<char>)
    requires |parts| >= 1 && c in seps
    requires forall k :: 0 <= k < |parts| ==> NoneOf(parts[k], seps)
    ensures Split(Join(parts, c), seps) == parts
  {
    if |parts| == 1 {
      SplitWhole(parts[0], seps);
    } else {
      SplitJoin(parts[1..], c, seps);
      SplitAfter(parts[0], c, Join(parts[1..], c), seps);
      assert [parts[0]] + parts[1..] == parts;
    }
  }

  /** Padding at the front is idempotent. */
  lemma PadStartIdempotent(s: string, width: int, fill: char)
    ensures PadStart(PadStart(s, width, fill), width, fill) == PadStart(s, width, fill)
  {
  }
}
