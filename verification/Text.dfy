/** Strings as SQLite compares them, fixed-width numbers, and Python's `str.replace`. */
module Text {
  import opened Numerals

  /** Binary collation: the first differing character decides, and a proper prefix comes first. */
  predicate Less(a: string, b: string) {
    if b == "" then false
    else if a == "" then true
    else a[0] < b[0] || (a[0] == b[0] && Less(a[1..], b[1..]))
  }

  /** Some position decides: the texts agree before it, and there `a` ends or has the smaller character. */
  lemma {:induction false} LessIff(a: string, b: string)
    ensures Less(a, b) <==> exists k :: 0 <= k <= |a| && k < |b| && a[..k] == b[..k] && (k == |a| || a[k] < b[k])
  {
    if a != "" && b != "" && a[0] == b[0] {
      LessIff(a[1..], b[1..]);
      if k :| 0 <= k < |b[1..]| && k <= |a[1..]| && a[1..][..k] == b[1..][..k] && (k == |a[1..]| || a[1..][k] < b[1..][k]) {
        assert a[..k + 1] == [a[0]] + a[1..][..k] && b[..k + 1] == [b[0]] + b[1..][..k];
      }
      if k :| 0 <= k < |b| && k <= |a| && a[..k] == b[..k] && (k == |a| || a[k] < b[k]) {
        assert k > 0;
        assert a[1..][..k - 1] == a[..k][1..] && b[1..][..k - 1] == b[..k][1..];
      }
    } else if a == "" && b != "" {
      assert a[..0] == b[..0];
    } else if b != "" && a[0] < b[0] {
      assert a[..0] == b[..0];
    } else {
      forall k | 0 < k <= |a| && k < |b| ensures a[..k] != b[..k] {
        assert a[..k][0] == a[0] && b[..k][0] == b[0];
      }
    }
  }

  lemma {:induction false} LessIrreflexive(a: string)
    ensures !Less(a, a)
  {
    if a != "" {
      LessIrreflexive(a[1..]);
    }
  }

  lemma {:induction false} LessTransitive(a: string, b: string, c: string)
    requires Less(a, b) && Less(b, c)
    ensures Less(a, c)
  {
    if a != "" && a[0] == b[0] == c[0] {
      LessTransitive(a[1..], b[1..], c[1..]);
    }
  }

  lemma {:induction false} LessTotal(a: string, b: string)
    ensures a == b || Less(a, b) || Less(b, a)
  {
    if a != "" && b != "" && a[0] == b[0] {
      LessTotal(a[1..], b[1..]);
      assert a == [a[0]] + a[1..] && b == [b[0]] + b[1..];
    }
  }

  /** Fields of equal width are compared before what follows them. */
  lemma {:induction false} LessAfter(a: string, b: string, x: string, y: string)
    requires |a| == |b|
    ensures Less(a + x, b + y) <==> Less(a, b) || (a == b && Less(x, y))
  {
    if a == "" {
      assert a + x == x && b + y == y;
    } else {
      LessAfter(a[1..], b[1..], x, y);
      assert (a + x)[1..] == a[1..] + x && (b + y)[1..] == b[1..] + y;
      assert a == [a[0]] + a[1..] && b == [b[0]] + b[1..];
    }
  }

  function DigitChar(n: nat): char
    requires n < 10
  {
    ('0' as int + n) as char
  }

  predicate IsDigit(c: char) {
    '0' <= c <= '9'
  }

  /** `n` zero-padded on the left to `width` digits. */
  function Pad(n: nat, width: nat): (s: string)
    ensures |s| == width
    ensures forall i :: 0 <= i < width ==> IsDigit(s[i])
  {
    if width == 0 then "" else Pad(n / 10, width - 1) + [DigitChar(n % 10)]
  }

  /** Reads a string of digits; `-1` marks any other character. */
  function ReadDigits(s: string): (n: int)
    ensures n >= -1
  {
    if s == "" then 0
    else
      var front := ReadDigits(s[..|s| - 1]);
      var last := s[|s| - 1];
      if front < 0 || !IsDigit(last) then -1 else 10 * front + (last as int - '0' as int)
  }

  lemma {:induction false} ReadPad(n: nat, width: nat)
    requires n < Pow10(width)
    ensures ReadDigits(Pad(n, width)) == n
  {
    if width > 0 {
      ReadPad(n / 10, width - 1);
      var s := Pad(n, width);
      assert s[..|s| - 1] == Pad(n / 10, width - 1);
      assert s[|s| - 1] == DigitChar(n % 10);
    }
  }

  /** Only the padded number itself reads as that number at that width. */
  lemma {:induction false} PadRead(s: string)
    requires ReadDigits(s) >= 0
    ensures ReadDigits(s) < Pow10(|s|) && Pad(ReadDigits(s), |s|) == s
  {
    if s != "" {
      var front, last := s[..|s| - 1], s[|s| - 1];
      PadRead(front);
      var n := ReadDigits(s);
      assert n == 10 * ReadDigits(front) + (last as int - '0' as int);
      assert n / 10 == ReadDigits(front) && n % 10 == last as int - '0' as int;
      assert DigitChar(n % 10) == last;
      assert s == front + [last];
    }
  }

  /** Equal width makes string order numeric order. */
  lemma {:induction false} PadOrder(m: nat, n: nat, width: nat)
    requires m < Pow10(width) && n < Pow10(width)
    ensures Less(Pad(m, width), Pad(n, width)) <==> m < n
  {
    if width > 0 {
      PadOrder(m / 10, n / 10, width - 1);
      LessAfter(Pad(m / 10, width - 1), Pad(n / 10, width - 1), [DigitChar(m % 10)], [DigitChar(n % 10)]);
      var a, b := [DigitChar(m % 10)], [DigitChar(n % 10)];
      assert Less(a, b) <==> m % 10 < n % 10;
      if Pad(m / 10, width - 1) == Pad(n / 10, width - 1) {
        ReadPad(m / 10, width - 1);
        ReadPad(n / 10, width - 1);
      }
    }
  }

  /** A padded number followed by more text sorts by the number first. */
  lemma FieldOrder(m: nat, n: nat, width: nat, x: string, y: string)
    requires m < Pow10(width) && n < Pow10(width)
    ensures Less(Pad(m, width) + x, Pad(n, width) + y) <==> m < n || (m == n && Less(x, y))
  {
    LessAfter(Pad(m, width), Pad(n, width), x, y);
    PadOrder(m, n, width);
    PadOrder(n, m, width);
    ReadPad(m, width);
    ReadPad(n, width);
  }

  lemma SeparatorOrder(c: char, x: string, y: string)
    ensures Less([c] + x, [c] + y) <==> Less(x, y)
  {
  }

  /** Every non-overlapping occurrence of `was`, from the left, becomes `with`. */
  function Replace(s: string, was: string, with: string): string
    requires was != ""
  {
    if |s| < |was| then s
    else if s[..|was|] == was then with + Replace(s[|was|..], was, with)
    else [s[0]] + Replace(s[1..], was, with)
  }

  /** Text without the first character of `was` is copied. */
  lemma {:induction false} ReplaceSkips(p: string, q: string, was: string, with: string)
    requires was != "" && was[0] !in p
    ensures Replace(p + q, was, with) == p + Replace(q, was, with)
  {
    var s := p + q;
    if p == "" {
      assert s == q;
    } else {
      assert s[1..] == p[1..] + q;
      ReplaceSkips(p[1..], q, was, with);
      assert p == [p[0]] + p[1..];
      if |s| < |was| {
        assert Replace(s, was, with) == s && |q| < |was|;
      } else {
        assert s[..|was|][0] == p[0] != was[0];
      }
    }
  }
}
