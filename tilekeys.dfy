/**
 * Map keys of the form `"a:b"`, built with a template string from two
 * integers and read back with `key.split(":").map(Number)`.
 *
 * The rest of the model keys its maps by the pair `Key(a, b)` itself;
 * `KeyRoundTrip` is what makes that exact: the string of a pair parses
 * back to the same pair, so two pairs share a string only if they are
 * equal.
 */
module TileKeys {
  import opened Wrappers

  datatype Key = Key(x: int, z: int)

  predicate IsDigit(c: char) {
    '0' <= c <= '9'
  }

  predicate AllDigits(s: string) {
    forall i :: 0 <= i < |s| ==> IsDigit(s[i])
  }

  function DigitChar(d: int): (c: char)
    requires 0 <= d < 10
    ensures IsDigit(c) && (c as int) - ('0' as int) == d
  {
    (d + '0' as int) as char
  }

  function DigitValue(c: char): int
    requires IsDigit(c)
  {
    (c as int) - ('0' as int)
  }

  /** Decimal digits of `n`, most significant first, no leading zero. */
  function NatString(n: nat): (s: string)
    ensures |s| > 0 && AllDigits(s)
  {
    if n < 10 then [DigitChar(n)] else NatString(n / 10) + [DigitChar(n % 10)]
  }

  /** `${i}` for an integer-valued number. */
  function IntString(i: int): string {
    if i < 0 then "-" + NatString(-i) else NatString(i)
  }

  /** `` `${k.x}:${k.z}` `` */
  function KeyString(k: Key): string {
    IntString(k.x) + ":" + IntString(k.z)
  }

  /** The value of a run of decimal digits. */
  function DigitsValue(s: string): nat
    requires AllDigits(s)
  {
    if s == [] then 0 else DigitsValue(s[..|s| - 1]) * 10 + DigitValue(s[|s| - 1])
  }

  /**
   * `Number(s)` on an optionally signed run of decimal digits; any other
   * string (JavaScript's NaN) is `None`.
   */
  function ParseNumber(s: string): Option<int> {
    if |s| > 1 && s[0] == '-' && AllDigits(s[1..]) then Some(-(DigitsValue(s[1..]) as int))
    else if |s| > 0 && AllDigits(s) then Some(DigitsValue(s))
    else None
  }

  /** Index of the first `c` in `s`, or `|s|` when there is none. */
  function IndexOf(s: string, c: char): (i: nat)
    ensures i <= |s|
    ensures i < |s| ==> s[i] == c
    ensures forall j :: 0 <= j < i ==> s[j] != c
  {
    if s == [] then 0 else if s[0] == c then 0 else 1 + IndexOf(s[1..], c)
  }

  /** `s.split(c)`. */
  function Split(s: string, c: char): (parts: seq<string>)
    ensures |parts| >= 1
    decreases |s|
  {
    var i := IndexOf(s, c);
    if i == |s| then [s] else [s[..i]] + Split(s[i + 1..], c)
  }

  /** `const [a, b] = key.split(":").map(Number)`; `None` when either is NaN. */
  function ParseKey(s: string): (r: Option<Key>)
    ensures ':' !in s ==> r.None?
    ensures r.Some? ==> IndexOf(s, ':') < |s| && ParseNumber(s[..IndexOf(s, ':')]) == Some(r.value.x)
  {
    var parts := Split(s, ':');
    if |parts| < 2 then None
    else match (ParseNumber(parts[0]), ParseNumber(parts[1]))
      case (Some(a), Some(b)) => Some(Key(a, b))
      case _ => None
  }

  lemma {:induction false} NatStringValue(n: nat)
    ensures DigitsValue(NatString(n)) == n
  {
    var s := NatString(n);
    if n >= 10 {
      NatStringValue(n / 10);
      assert s[..|s| - 1] == NatString(n / 10);
    }
  }

  lemma IntStringParses(i: int)
    ensures ParseNumber(IntString(i)) == Some(i)
    ensures ':' !in IntString(i)
  {
    if i < 0 {
      var s := IntString(i);
      assert s[1..] == NatString(-i);
      NatStringValue(-i);
      assert !IsDigit(':');
      assert forall j :: 0 <= j < |s| ==> s[j] == '-' || IsDigit(s[j]);
    } else {
      NatStringValue(i);
      assert !IsDigit(NatString(i)[0]) ==> false;
      assert !IsDigit(':');
    }
  }

  lemma SplitTwo(a: string, b: string, c: char)
    requires c !in a && c !in b
    ensures Split(a + [c] + b, c) == [a, b]
  {
    var s := a + [c] + b;
    assert s[|a|] == c;
    assert forall j :: 0 <= j < |a| ==> s[j] == a[j];
    assert IndexOf(s, c) == |a|;
    assert s[..|a|] == a && s[|a| + 1..] == b;
    assert IndexOf(b, c) == |b|;
  }

  /** Rendering a key and splitting it back gives the same two numbers. */
  lemma KeyRoundTrip(k: Key)
    ensures ParseKey(KeyString(k)) == Some(k)
  {
    IntStringParses(k.x);
    IntStringParses(k.z);
    SplitTwo(IntString(k.x), IntString(k.z), ':');
    assert KeyString(k) == IntString(k.x) + [':'] + IntString(k.z);
  }

  lemma KeyStringInjective(k1: Key, k2: Key)
    ensures KeyString(k1) == KeyString(k2) <==> k1 == k2
  {
    KeyRoundTrip(k1);
    KeyRoundTrip(k2);
  }

  /**
   * The two numbers `key.split(":").map(Number)` yields for the key of
   * `k`: by `KeyRoundTrip`, the pair the key was rendered from.
   */
  function KeyNumbers(k: Key): (int, int) {
    (k.x, k.z)
  }
}
