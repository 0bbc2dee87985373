/** The few Kotlin standard-library operations the app's logic is built from,
    with the exceptions they throw made explicit. */
module KotlinLib {

  datatype Option<+T> = None | Some(value: T)

  /** The exceptions the modelled code can raise. */
  datatype KtException =
    | IllegalArgument     // coerceIn on an empty range, Enum.valueOf on an unknown name
    | IndexOutOfBounds    // list indexing, destructuring a too-short list
    | NoSuchElement       // first()/last() of an empty list
    | NullPointer         // `!!` on null
    | NumberFormat        // String.toFloat()/toInt() on text that is not a number
    | ClassCast           // a SharedPreferences value of another type
    | Arithmetic          // integer division by zero

  /** The result of a Kotlin expression that either yields a value or throws. */
  datatype Outcome<+T> = Ok(value: T) | Throws(error: KtException)

  /** `x.coerceIn(lo, hi)`: throws when the range is empty. */
  function CoerceIn(x: int, lo: int, hi: int): (r: Outcome<int>)
    ensures r.Throws? <==> lo > hi
    ensures r.Ok? ==> lo <= r.value <= hi
    ensures r.Ok? && lo <= x <= hi ==> r.value == x
    ensures r.Ok? && x < lo ==> r.value == lo
    ensures r.Ok? && x > hi ==> r.value == hi
  {
    if lo > hi then Throws(IllegalArgument)
    else if x < lo then Ok(lo)
    else if x > hi then Ok(hi)
    else Ok(x)
  }

  /** `Float.roundToInt()`: the nearest integer, ties rounded towards +infinity. */
  function RoundToInt(x: real): (n: int)
    ensures n as real - 1.0 / 2.0 <= x < n as real + 1.0 / 2.0
  {
    (x + 1.0 / 2.0).Floor
  }

  /** `Float.toInt()`: truncation towards zero. */
  function ToInt(x: real): (n: int)
    ensures 0.0 <= x ==> 0 <= n && n as real <= x < n as real + 1.0
    ensures x < 0.0 ==> n <= 0 && n as real - 1.0 < x <= n as real
  {
    if x >= 0.0 then x.Floor else -((-x).Floor)
  }

  /** Kotlin's `Int` division `a / b`, which truncates towards zero: the quotient's magnitude
      is that of the magnitudes, its sign the product of the signs. */
  function IntDiv(a: int, b: int): (q: Outcome<int>)
    ensures q.Throws? <==> b == 0
    ensures q.Ok? ==> Abs(q.value) == Abs(a) / Abs(b)
    ensures q.Ok? && q.value != 0 ==> (q.value > 0 <==> (a > 0) == (b > 0))
  {
    if b == 0 then Throws(Arithmetic)
    else
      QuotientOfNaturals(Abs(a), Abs(b));
      if (a >= 0) == (b > 0) then Ok(Abs(a) / Abs(b))
      else Ok(-(Abs(a) / Abs(b)))
  }

  /** The quotient of two naturals is a natural. */
  lemma QuotientOfNaturals(x: nat, y: nat)
    requires y > 0
    ensures 0 <= x / y
  {
    var q, r := x / y, x % y;
    assert x == q * y + r && 0 <= r < y;
  }

  /** For a non-negative dividend and a positive divisor the quotient is the floor of a / b. */
  lemma IntDivBounds(a: nat, b: nat)
    requires b > 0
    ensures IntDiv(a, b).Ok? && 0 <= IntDiv(a, b).value
    ensures IntDiv(a, b).value * b <= a < (IntDiv(a, b).value + 1) * b
  {
    var q := IntDiv(a, b).value;
    assert q == a / b;
    assert a == q * b + a % b;
    assert (q + 1) * b == q * b + b;
  }

  /** `String.toFloat()` / `String.toInt()` of a label printed from a nullable number
      (None is the text "null"): it gives back the number, and "null" does not parse. */
  function ParseNumber<T>(text: Option<T>): (r: Outcome<T>)
    ensures r.Ok? <==> text.Some?
    ensures r.Ok? ==> text == Some(r.value)
    ensures r.Throws? ==> r.error == NumberFormat
  {
    if text.None? then Throws(NumberFormat) else Ok(text.value)
  }

  function Abs(x: int): nat { if x < 0 then -x else x }

  /** `indexOfFirst { p(it) }`: the first index whose element satisfies `p`, or -1. */
  function IndexOfFirst<T>(s: seq<T>, p: T -> bool): (k: int)
    ensures -1 <= k < |s|
    ensures k >= 0 ==> p(s[k]) && forall j :: 0 <= j < k ==> !p(s[j])
    ensures k == -1 <==> forall j :: 0 <= j < |s| ==> !p(s[j])
  {
    if |s| == 0 then -1
    else if p(s[0]) then 0
    else
      var k := IndexOfFirst(s[1..], p);
      if k < 0 then -1 else k + 1
  }

  /** `indexOf(x)`: the index of the first occurrence of `x`, or -1. */
  function IndexOf<T(==)>(s: seq<T>, x: T): (k: int)
    ensures -1 <= k < |s|
    ensures k >= 0 ==> s[k] == x && x !in s[..k]
    ensures k == -1 <==> x !in s
  {
    var k := IndexOfFirst(s, y => y == x);
    assert k >= 0 ==> forall j :: 0 <= j < k ==> s[..k][j] == s[j] != x;
    k
  }

  /** `find { p(it) }`: the first element satisfying `p`, or null. */
  function Find<T>(s: seq<T>, p: T -> bool): (r: Option<T>)
    ensures r.None? <==> forall j :: 0 <= j < |s| ==> !p(s[j])
    ensures r.Some? ==> exists k :: 0 <= k < |s| && s[k] == r.value && p(s[k])
                                   && forall j :: 0 <= j < k ==> !p(s[j])
  {
    var k := IndexOfFirst(s, p);
    if k < 0 then None else Some(s[k])
  }

  /** `s.split(sep)` for a one-character delimiter: every field, empty ones included. */
  function Split(s: string, sep: char): (parts: seq<string>)
    ensures |parts| >= 1
    ensures forall i :: 0 <= i < |parts| ==> sep !in parts[i]
  {
    if |s| == 0 then [""]
    else
      var rest := Split(s[1..], sep);
      if s[0] == sep then [""] + rest
      else [[s[0]] + rest[0]] + rest[1..]
  }

  /** The inverse of Split: the fields joined with the delimiter. */
  function Join(parts: seq<string>, sep: char): string
    requires |parts| >= 1
  {
    if |parts| == 1 then parts[0] else parts[0] + [sep] + Join(parts[1..], sep)
  }

  /** Joining the fields gives back the original text. */
  lemma {:induction false} JoinSplit(s: string, sep: char)
    ensures Join(Split(s, sep), sep) == s
  {
    if |s| > 0 {
      JoinSplit(s[1..], sep);
      var rest := Split(s[1..], sep);
      if s[0] != sep {
        if |rest| == 1 {
          assert Split(s, sep) == [[s[0]] + rest[0]];
        } else {
          assert Split(s, sep)[1..] == rest[1..];
          assert [s[0]] + rest[0] + [sep] + Join(rest[1..], sep) == [s[0]] + (rest[0] + [sep] + Join(rest[1..], sep));
        }
      } else {
        assert Split(s, sep)[1..] == rest;
        assert s == [sep] + s[1..];
      }
    }
  }

  /** Text without the delimiter is a single field. */
  lemma {:induction false} SplitNoDelimiter(s: string, sep: char)
    requires sep !in s
    ensures Split(s, sep) == [s]
  {
    if |s| > 0 {
      assert sep !in s[1..];
      SplitNoDelimiter(s[1..], sep);
      assert s[0] != sep;
      assert [s[0]] + s[1..] == s;
    }
  }

  /** A delimiter-free prefix followed by the delimiter is exactly the first field. */
  lemma {:induction false} SplitAtFirstDelimiter(a: string, sep: char, b: string)
    requires sep !in a
    ensures Split(a + [sep] + b, sep) == [a] + Split(b, sep)
  {
    if |a| == 0 {
      assert a + [sep] + b == [sep] + b;
      assert ([sep] + b)[1..] == b;
    } else {
      assert (a + [sep] + b)[1..] == a[1..] + [sep] + b;
      assert sep !in a[1..];
      SplitAtFirstDelimiter(a[1..], sep, b);
      assert [a[0]] + a[1..] == a;
    }
  }

  /** Text has more than one field exactly when it contains the delimiter. */
  lemma {:induction false} SplitCount(s: string, sep: char)
    ensures |Split(s, sep)| > 1 <==> sep in s
  {
    if |s| > 0 {
      SplitCount(s[1..], sep);
      assert sep in s <==> s[0] == sep || sep in s[1..];
    }
  }
}
