/**
  Values that the two event loggers put into an event dictionary
  (`Dictionary<string, object>` in the source), the text `ToString()`
  gives for them, and the `string.Join` both loggers use to glue fields.
 */
module Values {

  datatype Option<+T> = None | Some(value: T)

  datatype Result<+R, +E> = Success(value: R) | Failure(error: E)

  /** A C# `int`: the loggers distinguish it from `long` and other
      integer types, which they treat as "any other object". */
  newtype int32 = x: int | -0x8000_0000 <= x < 0x8000_0000

  /** The run-time value of a dictionary entry.  `Other` stands for any
      object of another type (a `long`, a `Vector3`, ...) and carries the
      text its `ToString()` returns. */
  datatype Value =
    | Int(i: int32)
    | Float(f: real)
    | Double(d: real)
    | Bool(b: bool)
    | Str(s: string)
    | Null
    | Other(text: string)

  /** How the current culture prints a float or double; the model keeps
      it abstract. */
  type RealFormat = real -> string

  /** A C# string reference, which may be null. */
  function OfNullable(s: Option<string>): (v: Value)
    ensures s.None? <==> v == Null
    ensures s.Some? ==> v == Str(s.value)
  {
    match s
    case None => Null
    case Some(t) => Str(t)
  }

  predicate IsDigit(c: char) { '0' <= c <= '9' }

  function DigitChar(d: nat): (c: char)
    requires d < 10
    ensures IsDigit(c)
  {
    "0123456789"[d]
  }

  /** Decimal digits of a natural number, most significant first. */
  function Digits(n: nat): (r: string)
    ensures 1 <= |r|
    ensures forall k :: 0 <= k < |r| ==> IsDigit(r[k])
    decreases n
  {
    if n < 10 then [DigitChar(n)] else Digits(n / 10) + [DigitChar(n % 10)]
  }

  /** `int.ToString()`: an optional minus sign followed by decimal digits. */
  function IntText(i: int): (r: string)
    ensures 1 <= |r|
    ensures (r[0] == '-') <==> i < 0
    ensures forall k :: 0 < k < |r| ==> IsDigit(r[k])
  {
    if i < 0 then "-" + Digits(-i) else Digits(i)
  }

  /** The number a digit stands for. */
  function DigitValue(c: char): nat
    requires IsDigit(c)
  {
    c as int - '0' as int
  }

  /** The number a string of decimal digits denotes, most significant
      digit first. */
  function DecimalValue(s: string): nat
    requires forall k :: 0 <= k < |s| ==> IsDigit(s[k])
    decreases |s|
  {
    if s == [] then 0
    else DecimalValue(s[..|s| - 1]) * 10 + DigitValue(s[|s| - 1])
  }

  lemma DigitCharValue(d: nat)
    requires d < 10
    ensures DigitValue(DigitChar(d)) == d
  {
    assert "0123456789"[d] as int == '0' as int + d;
  }

  /** The digits denote the number, with no leading zero. */
  lemma {:induction false} DigitsValue(n: nat)
    ensures DecimalValue(Digits(n)) == n
    ensures Digits(n)[0] == '0' ==> n == 0
    decreases n
  {
    if n < 10 {
      DigitCharValue(n);
    } else {
      DigitsValue(n / 10);
      DigitCharValue(n % 10);
      var r := Digits(n);
      assert r[..|r| - 1] == Digits(n / 10);
    }
  }

  /** `int.ToString()` denotes the integer: the digits after an optional
      minus sign are its absolute value, written without leading zeros. */
  lemma IntTextValue(i: int)
    ensures var r := IntText(i);
      && (i >= 0 ==> DecimalValue(r) == i && (r[0] == '0' ==> r == "0"))
      && (i < 0 ==> |r| >= 2 && DecimalValue(r[1..]) == -i && r[1] != '0')
  {
    if i >= 0 {
      DigitsValue(i);
      assert Digits(0) == "0" by { DigitCharValue(0); }
    } else {
      DigitsValue(-i);
      assert IntText(i)[1..] == Digits(-i);
    }
  }

  /** `value.ToString()` as C# defines it for each kind of value; a null
      reference has no `ToString()` (calling it throws), which is `None`. */
  function ToText(v: Value, showReal: RealFormat): (r: Option<string>)
    ensures r.None? <==> v == Null
    ensures v.Bool? ==> r == Some(if v.b then "True" else "False")
    ensures v.Str? ==> r == Some(v.s)
  {
    match v
    case Int(i) => Some(IntText(i as int))
    case Float(f) => Some(showReal(f))
    case Double(d) => Some(showReal(d))
    case Bool(b) => Some(if b then "True" else "False")
    case Str(s) => Some(s)
    case Null => None
    case Other(t) => Some(t)
  }

  /** `string.Join(sep, parts)`. */
  function Join(sep: string, parts: seq<string>): string
  {
    if |parts| == 0 then ""
    else if |parts| == 1 then parts[0]
    else parts[0] + sep + Join(sep, parts[1..])
  }

  /** Joining a list that has a head and a non-empty tail puts exactly one
      separator between the head and the joined tail. */
  lemma JoinCons(sep: string, head: string, tail: seq<string>)
    requires |tail| >= 1
    ensures Join(sep, [head] + tail) == head + sep + Join(sep, tail)
  {
    assert ([head] + tail)[1..] == tail;
  }

  /** Number of occurrences of `c` in `s`. */
  function Count(c: char, s: string): (n: nat)
    ensures n <= |s|
    ensures n == 0 <==> c !in s
  {
    if s == [] then 0 else (if s[0] == c then 1 else 0) + Count(c, s[1..])
  }
}
