/** Shared vocabulary: identifiers, time, optional values and small sequence helpers. */
module Base {

  /** Primary keys of todos and of join rows. */
  type Id = nat

  /** Timestamps are whole seconds, so `1.days` is exactly this many. */
  const Day: int := 86400

  datatype Option<+T> = None | Some(value: T)

  datatype Result<+T, +E> = Success(value: T) | Failure(error: E)

  function Abs(x: int): nat
  {
    if x < 0 then -x else x
  }

  /** The debounce shared by every callback: `(delta.abs / 1.days) >= 1`. */
  predicate AtLeastADay(delta: int)
  {
    Abs(delta) >= Day
  }

  /** The debounce lets a change through iff it is a whole day or more, in either direction. */
  lemma DebounceBoundary(delta: int)
    ensures AtLeastADay(delta) <==> delta <= -Day || Day <= delta
    ensures AtLeastADay(delta) <==> AtLeastADay(-delta)
  {
  }

  predicate NoDuplicates<T(==)>(s: seq<T>)
  {
    forall i, j :: 0 <= i < j < |s| ==> s[i] != s[j]
  }

  /** A list with a new head repeats nothing iff the tail repeats nothing and lacks the head. */
  lemma NoDuplicatesCons<T>(x: T, s: seq<T>)
    ensures NoDuplicates([x] + s) <==> x !in s && NoDuplicates(s)
  {
    var t := [x] + s;
    assert forall k :: 0 <= k < |s| ==> t[k + 1] == s[k];
    if x in s {
      var k :| 0 <= k < |s| && s[k] == x;
      assert t[0] == t[k + 1];
    }
  }

  /** Ruby's `uniq`: the first occurrence of every element, in order. */
  function Dedup(s: seq<Id>): (r: seq<Id>)
    ensures forall x :: x in r <==> x in s
    ensures |r| <= |s|
    ensures s != [] ==> r != []
    ensures s != [] ==> r[0] == s[0]
  {
    if s == [] then []
    else
      var prefix := Dedup(s[..|s| - 1]);
      assert forall x :: x in s <==> x in s[..|s| - 1] || x == s[|s| - 1];
      if s[|s| - 1] in prefix then prefix else prefix + [s[|s| - 1]]
  }

  /** `uniq` keeps each element once. */
  lemma {:induction false} DedupDistinct(s: seq<Id>)
    ensures NoDuplicates(Dedup(s))
    decreases |s|
  {
    if s != [] {
      DedupDistinct(s[..|s| - 1]);
    }
  }

  /**
   * The characters `[[:space:]]` matches in Ruby's `blank?`: the Unicode
   * White_Space property.
   */
  predicate IsSpace(c: char)
  {
    || '\U{9}' <= c <= '\U{D}' || c == ' ' || c == '\U{85}' || c == '\U{A0}' || c == '\U{1680}'
    || '\U{2000}' <= c <= '\U{200A}' || c == '\U{2028}' || c == '\U{2029}' || c == '\U{202F}'
    || c == '\U{205F}' || c == '\U{3000}'
  }

  /** Ruby's `blank?` on a string: empty or white space only. */
  predicate Blank(s: string)
  {
    forall i :: 0 <= i < |s| ==> IsSpace(s[i])
  }

  /** Decimal digits of a natural number, most significant first (Ruby's `Integer#to_s`). */
  function DecimalString(n: nat): (r: string)
    ensures |r| > 0
    ensures forall i :: 0 <= i < |r| ==> '0' <= r[i] <= '9'
    ensures |r| > 1 ==> r[0] != '0'
    decreases n
  {
    if n < 10 then [Digit(n)] else DecimalString(n / 10) + [Digit(n % 10)]
  }

  function Digit(d: nat): (c: char)
    requires d < 10
    ensures '0' <= c <= '9'
  {
    ['0', '1', '2', '3', '4', '5', '6', '7', '8', '9'][d]
  }

  function DigitValue(c: char): nat
  {
    if '0' <= c <= '9' then (c as int - '0' as int) as nat else 0
  }

  /** Reads a string of decimal digits back as a number. */
  function ParseDecimal(s: string): nat
    decreases |s|
  {
    if s == [] then 0 else 10 * ParseDecimal(s[..|s| - 1]) + DigitValue(s[|s| - 1])
  }

  /** Printing a number in decimal loses nothing: different numbers print differently. */
  lemma {:induction false} DecimalStringRoundTrip(n: nat)
    ensures ParseDecimal(DecimalString(n)) == n
    decreases n
  {
    if n >= 10 {
      var r := DecimalString(n);
      assert r[..|r| - 1] == DecimalString(n / 10);
      DecimalStringRoundTrip(n / 10);
    }
  }

  lemma DecimalStringInjective(m: nat, n: nat)
    requires DecimalString(m) == DecimalString(n)
    ensures m == n
  {
    DecimalStringRoundTrip(m);
    DecimalStringRoundTrip(n);
  }
}
