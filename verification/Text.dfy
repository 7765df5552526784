/** The fragments of Go's `strings`, `strconv` and `fmt` that address printing and parsing rely on. */
module Text {

  datatype Option<+T> = None | Some(value: T)

  const INT64_MAX := 0x7FFF_FFFF_FFFF_FFFF
  const INT64_MIN := -0x8000_0000_0000_0000

  /** The values a Go `int` can take on a 64-bit platform. */
  predicate IsInt64(n: int) {
    INT64_MIN <= n <= INT64_MAX
  }

  // ---- runes ----

  /** Conversion of an integer to a Go `rune` (int32), which keeps the low 32 bits. */
  function Wrap32(n: int): int {
    (n + 0x8000_0000) % 0x1_0000_0000 - 0x8000_0000
  }

  /** `string(rune)`: surrogates and values outside Unicode become U+FFFD. */
  function RuneToChar(n: int): char {
    if 0 <= n < 0xD800 || 0xE000 <= n < 0x11_0000 then n as char else '\U{FFFD}'
  }

  // ---- decimal numbers ----

  predicate IsDigit(c: char) {
    '0' <= c <= '9'
  }

  predicate AllDigits(s: string) {
    forall i :: 0 <= i < |s| ==> IsDigit(s[i])
  }

  function DigitChar(d: nat): (c: char)
    requires d < 10
    ensures IsDigit(c) && c as int - '0' as int == d
  {
    (d + '0' as int) as char
  }

  /** The value of a string of decimal digits. */
  function Value(s: string): (n: int)
    requires AllDigits(s)
    ensures n >= 0
  {
    if s == [] then 0 else 10 * Value(s[..|s| - 1]) + (s[|s| - 1] as int - '0' as int)
  }

  function Digits(n: nat): (s: string)
    ensures s != [] && AllDigits(s)
  {
    if n < 10 then [DigitChar(n)] else Digits(n / 10) + [DigitChar(n % 10)]
  }

  lemma {:induction false} ValueOfDigits(n: nat)
    ensures Value(Digits(n)) == n
  {
    if n >= 10 {
      ValueOfDigits(n / 10);
      var s := Digits(n);
      assert s[..|s| - 1] == Digits(n / 10);
    }
  }

  /** A positive decimal as it is printed: no leading zero. */
  predicate Canonical(s: string) {
    s != [] && AllDigits(s) && s[0] != '0'
  }

  lemma {:induction false} DigitsAreCanonical(n: nat)
    requires n > 0
    ensures Canonical(Digits(n))
  {
    if n >= 10 {
      DigitsAreCanonical(n / 10);
      assert Digits(n)[0] == Digits(n / 10)[0];
    }
  }

  lemma {:induction false} DigitsOfValue(s: string)
    requires Canonical(s)
    ensures Value(s) > 0 && Digits(Value(s)) == s
  {
    var init, d := s[..|s| - 1], s[|s| - 1] as int - '0' as int;
    if init == [] {
      assert s == [s[0]];
    } else {
      DigitsOfValue(init);
      assert Value(s) == 10 * Value(init) + d && Value(s) / 10 == Value(init) && Value(s) % 10 == d;
      assert s == init + [s[|s| - 1]];
    }
  }

  /** `%d`. */
  function Itoa(n: int): (s: string)
    ensures s != [] && (s[0] == '-' <==> n < 0)
    ensures n >= 0 ==> AllDigits(s)
  {
    if n < 0 then "-" + Digits(-n) else Digits(n)
  }

  /** `strconv.Atoi`: an optional sign, at least one digit, and a value that fits an `int`. */
  function Atoi(s: string): Option<int> {
    var signed := s != [] && (s[0] == '+' || s[0] == '-');
    var body := if signed then s[1..] else s;
    if body == [] || !AllDigits(body) then None else
      var n := if signed && s[0] == '-' then -Value(body) else Value(body);
      if IsInt64(n) then Some(n) else None
  }

  lemma AtoiItoa(n: int)
    ensures Atoi(Itoa(n)) == if IsInt64(n) then Some(n) else None
  {
    ValueOfDigits(if n < 0 then -n else n);
    if n < 0 {
      assert Itoa(n)[1..] == Digits(-n);
    } else {
      assert IsDigit(Itoa(n)[0]);
    }
  }

  lemma ItoaInjective(m: int, n: int)
    requires Itoa(m) == Itoa(n)
    ensures m == n
  {
    ValueOfDigits(if m < 0 then -m else m);
    ValueOfDigits(if n < 0 then -n else n);
    if m < 0 && n < 0 {
      assert Itoa(m)[1..] == Digits(-m) && Itoa(n)[1..] == Digits(-n);
    }
  }

  lemma AppendInjective(a: string, b: string, back: string)
    requires a + back == b + back
    ensures a == b
  {
    assert |a + back| == |a| + |back| && |b + back| == |b| + |back|;
    assert (a + back)[..|a|] == a && (b + back)[..|b|] == b;
  }

  lemma PrependInjective(front: string, a: string, b: string)
    ensures front + a == front + b <==> a == b
  {
    assert (front + a)[|front|..] == a && (front + b)[|front|..] == b;
  }

  // ---- splitting and joining ----

  /** Index of the first `sep`, or the length of the string. */
  function IndexOf(s: string, sep: char): (i: nat)
    ensures i <= |s|
    ensures sep !in s[..i]
    ensures forall k :: 0 <= k < i ==> s[k] != sep
    ensures i < |s| ==> s[i] == sep
  {
    if s == [] || s[0] == sep then 0 else
      var i := 1 + IndexOf(s[1..], sep);
      assert s[..i] == [s[0]] + s[1..][..i - 1];
      i
  }

  /** `strings.Split` with a one-character separator. */
  function Split(s: string, sep: char): (parts: seq<string>)
    ensures |parts| >= 1
    decreases |s|
  {
    var i := IndexOf(s, sep);
    if i == |s| then [s] else [s[..i]] + Split(s[i + 1..], sep)
  }

  /** `strings.Join` with a one-character separator. */
  function Join(parts: seq<string>, sep: char): string {
    if parts == [] then ""
    else if |parts| == 1 then parts[0]
    else parts[0] + [sep] + Join(parts[1..], sep)
  }

  lemma {:induction false} IndexOfPrefix(a: string, sep: char, b: string)
    requires sep !in a
    ensures IndexOf(a + [sep] + b, sep) == |a|
  {
    var s := a + [sep] + b;
    if a != [] {
      assert s[0] == a[0];
      assert s[1..] == a[1..] + [sep] + b;
      IndexOfPrefix(a[1..], sep, b);
    }
  }

  /** Splitting off the first component of a string. */
  lemma SplitCons(a: string, sep: char, b: string)
    requires sep !in a
    ensures Split(a + [sep] + b, sep) == [a] + Split(b, sep)
  {
    IndexOfPrefix(a, sep, b);
    var s := a + [sep] + b;
    assert s[..|a|] == a;
    assert s[|a| + 1..] == b;
  }

  /** A string that splits is its first component, the separator and the rest. */
  lemma SplitHead(s: string, sep: char)
    requires |Split(s, sep)| >= 2
    ensures var head := Split(s, sep)[0];
            |head| < |s| && sep !in head && s == head + [sep] + s[|head| + 1..]
            && Split(s[|head| + 1..], sep) == Split(s, sep)[1..]
  {
    var i := IndexOf(s, sep);
    assert s == s[..i] + [sep] + s[i + 1..];
  }

  /** A character in front belongs to the first component. */
  lemma SplitAfterChar(c: char, s: string, sep: char)
    requires c != sep
    ensures Split([c] + s, sep) == [[c] + Split(s, sep)[0]] + Split(s, sep)[1..]
  {
    var t := [c] + s;
    assert t[0] == c && t[1..] == s;
    assert IndexOf(t, sep) == 1 + IndexOf(s, sep);
    var i := IndexOf(s, sep);
    assert t[..i + 1] == [c] + s[..i];
    if i < |s| {
      assert t[i + 2..] == s[i + 1..];
    } else {
      assert s[..i] == s;
    }
  }

  lemma SplitOne(a: string, sep: char)
    requires sep !in a
    ensures Split(a, sep) == [a]
  {
    var i := IndexOf(a, sep);
    assert i == |a|;
  }

  lemma SplitTwo(a: string, sep: char, b: string)
    requires sep !in a && sep !in b
    ensures Split(a + [sep] + b, sep) == [a, b]
  {
    SplitCons(a, sep, b);
    SplitOne(b, sep);
  }

  lemma SplitThree(a: string, sep: char, b: string, c: string)
    requires sep !in a && sep !in b && sep !in c
    ensures Split(a + [sep] + (b + [sep] + c), sep) == [a, b, c]
  {
    SplitCons(a, sep, b + [sep] + c);
    SplitTwo(b, sep, c);
  }

  /** No component of a split contains the separator. */
  lemma {:induction false} SplitPieces(s: string, sep: char)
    ensures forall k :: 0 <= k < |Split(s, sep)| ==> sep !in Split(s, sep)[k]
    decreases |s|
  {
    var i := IndexOf(s, sep);
    if i == |s| {
      assert s[..i] == s;
    } else {
      SplitPieces(s[i + 1..], sep);
    }
  }

  /** Splitting undoes joining whenever no part contains the separator. */
  lemma {:induction false} SplitJoin(parts: seq<string>, sep: char)
    requires parts != []
    requires forall k :: 0 <= k < |parts| ==> sep !in parts[k]
    ensures Split(Join(parts, sep), sep) == parts
  {
    if |parts| == 1 {
      SplitOne(parts[0], sep);
    } else {
      SplitJoin(parts[1..], sep);
      SplitCons(parts[0], sep, Join(parts[1..], sep));
    }
  }
}
