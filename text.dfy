/** Text as the pipeline compares it: Python's `str.upper()` on the ASCII letters
    of a ticker, and SQLite's default BINARY collation for TEXT columns, which
    orders strings lexicographically by code point (UTF-8 byte order is code
    point order), a proper prefix first. */
module Text {

  function UpperChar(c: char): char
  {
    if 'a' <= c <= 'z' then (c as int - 32) as char else c
  }

  /** `s.upper()` restricted to ASCII letters. */
  function Upper(s: string): (r: string)
    ensures |r| == |s|
    ensures forall i :: 0 <= i < |s| ==> r[i] == UpperChar(s[i])
  {
    seq(|s|, i requires 0 <= i < |s| => UpperChar(s[i]))
  }

  /** Upper-casing twice is upper-casing once, so a row that carries
      `ticker.upper()` still matches `ticker` when compared case-insensitively. */
  lemma UpperIdempotent(s: string)
    ensures Upper(Upper(s)) == Upper(s)
  {
  }

  /** `a <= b` under SQLite's BINARY collation. */
  predicate LexLe(a: string, b: string)
  {
    |a| == 0 || (|b| > 0 && (a[0] < b[0] || (a[0] == b[0] && LexLe(a[1..], b[1..]))))
  }

  predicate LexLt(a: string, b: string)
  {
    LexLe(a, b) && a != b
  }

  lemma {:induction false} LexLeRefl(a: string)
    ensures LexLe(a, a)
  {
    if |a| > 0 {
      LexLeRefl(a[1..]);
    }
  }

  lemma {:induction false} LexLeTotal(a: string, b: string)
    ensures LexLe(a, b) || LexLe(b, a)
  {
    if |a| > 0 && |b| > 0 && a[0] == b[0] {
      LexLeTotal(a[1..], b[1..]);
    }
  }

  lemma {:induction false} LexLeTrans(a: string, b: string, c: string)
    requires LexLe(a, b) && LexLe(b, c)
    ensures LexLe(a, c)
  {
    if |a| > 0 && a[0] == b[0] && b[0] == c[0] {
      LexLeTrans(a[1..], b[1..], c[1..]);
    }
  }

  lemma {:induction false} LexLeAntisym(a: string, b: string)
    requires LexLe(a, b) && LexLe(b, a)
    ensures a == b
  {
    if |a| > 0 {
      LexLeAntisym(a[1..], b[1..]);
      assert a == [a[0]] + a[1..];
      assert b == [b[0]] + b[1..];
    }
  }

  lemma LexLtTrans(a: string, b: string, c: string)
    requires LexLt(a, b) && LexLe(b, c)
    ensures LexLt(a, c)
  {
    LexLeTrans(a, b, c);
    if a == c {
      LexLeAntisym(a, b);
    }
  }

  /** Comparing two strings that start with pieces of equal length compares the
      first pieces, and the rest only when the first pieces are equal. */
  lemma {:induction false} LexLeConcat(a1: string, a2: string, b1: string, b2: string)
    requires |a1| == |b1|
    ensures LexLe(a1 + a2, b1 + b2) <==> LexLt(a1, b1) || (a1 == b1 && LexLe(a2, b2))
  {
    if |a1| == 0 {
      assert a1 + a2 == a2 && b1 + b2 == b2;
    } else {
      assert (a1 + a2)[0] == a1[0] && (a1 + a2)[1..] == a1[1..] + a2;
      assert (b1 + b2)[0] == b1[0] && (b1 + b2)[1..] == b1[1..] + b2;
      assert a1 == [a1[0]] + a1[1..];
      assert b1 == [b1[0]] + b1[1..];
      LexLeConcat(a1[1..], a2, b1[1..], b2);
    }
  }

  // ISO 8601 calendar dates, the form the reporting periods take.

  function Digit(d: nat): char
    requires d < 10
  {
    ('0' as int + d) as char
  }

  function Pad2(n: nat): string
    requires n < 100
  {
    [Digit(n / 10), Digit(n % 10)]
  }

  function Pad4(n: nat): string
    requires n < 10000
  {
    Pad2(n / 100) + Pad2(n % 100)
  }

  ghost predicate CalendarDate(y: nat, m: nat, d: nat)
  {
    y < 10000 && 1 <= m <= 12 && 1 <= d <= 31
  }

  /** `YYYY-MM-DD` */
  function IsoDate(y: nat, m: nat, d: nat): (s: string)
    requires y < 10000 && m < 100 && d < 100
    ensures |s| == 10 && s[4] == '-' && s[7] == '-'
  {
    Pad4(y) + "-" + Pad2(m) + "-" + Pad2(d)
  }

  lemma Pad2Order(a: nat, b: nat)
    requires a < 100 && b < 100
    ensures LexLe(Pad2(a), Pad2(b)) <==> a <= b
  {
    var pa, pb := Pad2(a), Pad2(b);
    assert pa[1..][1..] == [] && pb[1..][1..] == [];
    assert LexLe(pa[1..], pb[1..]) <==> a % 10 <= b % 10;
  }

  lemma Pad4Order(a: nat, b: nat)
    requires a < 10000 && b < 10000
    ensures LexLe(Pad4(a), Pad4(b)) <==> a <= b
  {
    LexLeConcat(Pad2(a / 100), Pad2(a % 100), Pad2(b / 100), Pad2(b % 100));
    Pad2Order(a / 100, b / 100);
    Pad2Order(a % 100, b % 100);
    Pad2Order(b / 100, a / 100);
    if Pad2(a / 100) == Pad2(b / 100) {
      assert a / 100 == b / 100;
    }
  }

  /** Ordering quarter-end dates as text orders them chronologically. */
  lemma {:induction false} IsoDateOrder(y1: nat, m1: nat, d1: nat, y2: nat, m2: nat, d2: nat)
    requires CalendarDate(y1, m1, d1) && CalendarDate(y2, m2, d2)
    ensures LexLe(IsoDate(y1, m1, d1), IsoDate(y2, m2, d2))
        <==> y1 < y2 || (y1 == y2 && (m1 < m2 || (m1 == m2 && d1 <= d2)))
  {
    var r1 := "-" + Pad2(m1) + "-" + Pad2(d1);
    var r2 := "-" + Pad2(m2) + "-" + Pad2(d2);
    assert IsoDate(y1, m1, d1) == Pad4(y1) + r1;
    assert IsoDate(y2, m2, d2) == Pad4(y2) + r2;
    LexLeConcat(Pad4(y1), r1, Pad4(y2), r2);
    Pad4Order(y1, y2);
    Pad4Order(y2, y1);
    if Pad4(y1) == Pad4(y2) {
      assert y1 == y2;
    }
    var s1 := Pad2(m1) + ("-" + Pad2(d1));
    var s2 := Pad2(m2) + ("-" + Pad2(d2));
    assert r1 == "-" + s1 && r2 == "-" + s2;
    LexLeConcat("-", s1, "-", s2);
    LexLeConcat(Pad2(m1), "-" + Pad2(d1), Pad2(m2), "-" + Pad2(d2));
    Pad2Order(m1, m2);
    Pad2Order(m2, m1);
    if Pad2(m1) == Pad2(m2) {
      assert m1 == m2;
    }
    LexLeConcat("-", Pad2(d1), "-", Pad2(d2));
    Pad2Order(d1, d2);
  }
}
