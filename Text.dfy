/** The string helpers the reporter takes from Go's `strings` and `fmt` packages. */
module Text {

  // ---------------------------------------------------------------------------
  // Case

  predicate IsUpper(c: char) { 'A' <= c <= 'Z' }

  function LowerChar(c: char): (d: char)
    ensures !IsUpper(d)
    ensures IsUpper(c) ==> d as int == c as int + 32
    ensures !IsUpper(c) ==> d == c
  {
    if IsUpper(c) then (c as int + 32) as char else c
  }

  /** `strings.ToLower`, restricted to the ASCII letters. */
  function ToLower(s: string): (r: string)
    ensures |r| == |s|
    ensures forall i :: 0 <= i < |s| ==> r[i] == LowerChar(s[i])
  {
    seq(|s|, i requires 0 <= i < |s| => LowerChar(s[i]))
  }

  /** A string that lower-casing leaves as it is. */
  predicate IsLower(s: string) {
    forall i :: 0 <= i < |s| ==> !IsUpper(s[i])
  }

  lemma ToLowerIsLower(s: string)
    ensures IsLower(ToLower(s))
    ensures ToLower(ToLower(s)) == ToLower(s)
  {
  }

  lemma ToLowerFixesLower(s: string)
    ensures ToLower(s) == s <==> IsLower(s)
  {
    if ToLower(s) == s {
      forall i | 0 <= i < |s| ensures !IsUpper(s[i]) {
        assert ToLower(s)[i] == s[i];
      }
    }
  }

  // ---------------------------------------------------------------------------
  // Prefixes and suffixes

  /** `strings.HasPrefix`. */
  predicate HasPrefix(s: string, p: string) {
    |p| <= |s| && s[..|p|] == p
  }

  predicate HasSuffix(s: string, p: string) {
    |p| <= |s| && s[|s| - |p|..] == p
  }

  // ---------------------------------------------------------------------------
  // Byte length

  /** Number of bytes of the UTF-8 encoding of `c`. */
  function RuneLen(c: char): (n: nat)
    ensures 1 <= n <= 4
    ensures n == 1 <==> c as int < 0x80
  {
    if c as int < 0x80 then 1
    else if c as int < 0x800 then 2
    else if c as int < 0x10000 then 3
    else 4
  }

  /** Go's `len` on a string: its length in bytes, not in characters. */
  function Utf8Len(s: string): (n: nat)
    ensures n >= |s|
    ensures n == |s| <==> forall i :: 0 <= i < |s| ==> s[i] as int < 0x80
  {
    if s == [] then 0 else RuneLen(s[0]) + Utf8Len(s[1..])
  }

  // ---------------------------------------------------------------------------
  // Splitting on a separator

  function Count(s: string, c: char): (n: nat)
    ensures n <= |s|
  {
    if s == [] then 0 else (if s[0] == c then 1 else 0) + Count(s[1..], c)
  }

  /** `c` occurs in `s` exactly when its count is positive. */
  lemma {:induction false} CountZero(s: string, c: char)
    ensures Count(s, c) == 0 <==> c !in s
    decreases |s|
  {
    if s != [] {
      CountZero(s[1..], c);
      assert s == [s[0]] + s[1..];
    }
  }

  /** `strings.Split(s, [sep])`: the pieces between the separators, empty pieces included. */
  function Split(s: string, sep: char): (parts: seq<string>)
    ensures |parts| == Count(s, sep) + 1
    ensures forall i :: 0 <= i < |parts| ==> sep !in parts[i]
    decreases |s|
  {
    if s == [] then [[]]
    else
      var rest := Split(s[1..], sep);
      if s[0] == sep then [[]] + rest
      else [[s[0]] + rest[0]] + rest[1..]
  }

  /** `strings.Join(parts, [sep])`. */
  function Join(parts: seq<string>, sep: char): (s: string)
    requires |parts| > 0
  {
    if |parts| == 1 then parts[0] else parts[0] + [sep] + Join(parts[1..], sep)
  }

  /** Joining the pieces back gives the string that was split. */
  lemma {:induction false} JoinSplit(s: string, sep: char)
    ensures Join(Split(s, sep), sep) == s
    decreases |s|
  {
    if s != [] {
      var rest := Split(s[1..], sep);
      JoinSplit(s[1..], sep);
      if s[0] == sep {
        assert Split(s, sep) == [[]] + rest;
        calc {
          Join(Split(s, sep), sep);
          [] + [sep] + Join(rest, sep);
          [sep] + s[1..];
        }
      } else {
        var parts := Split(s, sep);
        assert parts == [[s[0]] + rest[0]] + rest[1..];
        if |rest| == 1 {
          assert Join(parts, sep) == [s[0]] + rest[0];
        } else {
          assert parts[1..] == rest[1..];
          assert Join(rest, sep) == rest[0] + [sep] + Join(rest[1..], sep);
          calc {
            Join(parts, sep);
            ([s[0]] + rest[0]) + [sep] + Join(rest[1..], sep);
            [s[0]] + (rest[0] + [sep] + Join(rest[1..], sep));
            [s[0]] + s[1..];
          }
        }
      }
    }
  }

  /** Splitting a string that starts with a separator-free piece `a`. */
  lemma {:induction false} SplitFreePrefix(a: string, t: string, sep: char)
    requires sep !in a
    ensures Split(a + t, sep) == [a + Split(t, sep)[0]] + Split(t, sep)[1..]
    decreases |a|
  {
    if a == [] {
      var parts := Split(t, sep);
      assert a + t == t;
      assert a + parts[0] == parts[0];
      assert [parts[0]] + parts[1..] == parts;
    } else {
      var parts := Split(t, sep);
      var rest := Split(a[1..] + t, sep);
      assert a[0] != sep by { assert a[0] in a; }
      assert (a + t)[1..] == a[1..] + t;
      assert Split(a + t, sep) == [[a[0]] + rest[0]] + rest[1..];
      SplitFreePrefix(a[1..], t, sep);
      assert rest[0] == a[1..] + parts[0];
      assert rest[1..] == parts[1..];
      assert [a[0]] + (a[1..] + parts[0]) == a + parts[0];
    }
  }

  /** Splitting what was joined from separator-free pieces gives the pieces back. */
  lemma {:induction false} SplitJoin(parts: seq<string>, sep: char)
    requires |parts| > 0
    requires forall i :: 0 <= i < |parts| ==> sep !in parts[i]
    ensures Split(Join(parts, sep), sep) == parts
  {
    if |parts| == 1 {
      SplitFreePrefix(parts[0], [], sep);
      assert parts[0] + [] == parts[0];
    } else {
      var tail := Join(parts[1..], sep);
      SplitJoin(parts[1..], sep);
      SplitFreePrefix(parts[0], [sep] + tail, sep);
      assert parts[0] + [sep] + tail == parts[0] + ([sep] + tail);
      assert Split([sep] + tail, sep) == [[]] + Split(tail, sep) by {
        assert ([sep] + tail)[1..] == tail;
      }
      assert parts[0] + [] == parts[0];
    }
  }

  // ---------------------------------------------------------------------------
  // Decimal numerals, as `%d` prints them

  predicate IsDigit(c: char) { '0' <= c <= '9' }

  predicate AllDigits(s: string) {
    forall i :: 0 <= i < |s| ==> IsDigit(s[i])
  }

  function DigitChar(d: nat): (c: char)
    requires d < 10
    ensures IsDigit(c)
  {
    ('0' as int + d) as char
  }

  /** The `%d` rendering of a natural number: digits only, no leading zero. */
  function Decimal(n: nat): (s: string)
    ensures |s| > 0 && AllDigits(s)
    ensures s[0] == '0' ==> n == 0
    decreases n
  {
    if n < 10 then [DigitChar(n)] else Decimal(n / 10) + [DigitChar(n % 10)]
  }

  /** The value of a numeral. */
  function ParseDecimal(s: string): nat
    requires AllDigits(s)
  {
    if s == [] then 0
    else ParseDecimal(s[..|s| - 1]) * 10 + (s[|s| - 1] as int - '0' as int)
  }

  /** Reading back what `Decimal` wrote gives the number. */
  lemma {:induction false} ParseDecimalOfDecimal(n: nat)
    ensures ParseDecimal(Decimal(n)) == n
    decreases n
  {
    if n >= 10 {
      var s := Decimal(n);
      assert s[..|s| - 1] == Decimal(n / 10);
      ParseDecimalOfDecimal(n / 10);
    }
  }

  lemma DecimalInjective(m: nat, n: nat)
    requires Decimal(m) == Decimal(n)
    ensures m == n
  {
    ParseDecimalOfDecimal(m);
    ParseDecimalOfDecimal(n);
  }

  /** A run of digits followed by a non-digit can be split in one way only. */
  lemma DigitsThenOther(x: string, y: string, x': string, y': string)
    requires AllDigits(x) && AllDigits(x')
    requires |y| > 0 && |y'| > 0 && !IsDigit(y[0]) && !IsDigit(y'[0])
    requires x + y == x' + y'
    ensures x == x' && y == y'
  {
    var k := if |x| < |x'| then |x| else |x'|;
    assert IsDigit((x + y)[k]) <==> k < |x|;
    assert IsDigit((x' + y')[k]) <==> k < |x'|;
    assert |x| == |x'|;
    assert x == (x + y)[..|x|];
    assert x' == (x' + y')[..|x'|];
    assert y == (x + y)[|x|..];
    assert y' == (x' + y')[|x'|..];
  }
}
