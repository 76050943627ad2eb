/**
 * The parts of Python's `str` the core relies on: ordering (used by `sorted`), `find`,
 * `split`, `join`, decimal rendering of integers and the padding done by `str.format`.
 */
module Strings {

  /** Python's `a <= b` on strings: lexicographic by code point, a proper prefix first. */
  predicate Le(a: string, b: string)
    decreases |a|
  {
    |a| == 0 || (|b| > 0 && (a[0] < b[0] || (a[0] == b[0] && Le(a[1..], b[1..]))))
  }

  /** Python's `a < b` on strings. */
  predicate Lt(a: string, b: string)
  {
    Le(a, b) && a != b
  }

  lemma {:induction false} LeReflexive(a: string)
    ensures Le(a, a)
  {
    if |a| > 0 {
      LeReflexive(a[1..]);
    }
  }

  lemma {:induction false} LeTotal(a: string, b: string)
    ensures Le(a, b) || Le(b, a)
    decreases |a|
  {
    if |a| > 0 && |b| > 0 && a[0] == b[0] {
      LeTotal(a[1..], b[1..]);
    }
  }

  lemma {:induction false} LeAntisymmetric(a: string, b: string)
    requires Le(a, b) && Le(b, a)
    ensures a == b
    decreases |a|
  {
    if |a| > 0 {
      LeAntisymmetric(a[1..], b[1..]);
      assert a == [a[0]] + a[1..];
      assert b == [b[0]] + b[1..];
    }
  }

  lemma {:induction false} LeTransitive(a: string, b: string, c: string)
    requires Le(a, b) && Le(b, c)
    ensures Le(a, c)
    decreases |a|
  {
    if |a| > 0 && a[0] == b[0] && b[0] == c[0] {
      LeTransitive(a[1..], b[1..], c[1..]);
    }
  }

  /** Strictly ascending: what `sorted` produces from distinct strings. */
  predicate StrictlySorted(ks: seq<string>)
  {
    forall i, j :: 0 <= i < j < |ks| ==> Lt(ks[i], ks[j])
  }

  /** A finite non-empty set of strings has a least element. */
  lemma {:induction false} LeastOf(s: set<string>) returns (m: string)
    requires s != {}
    ensures m in s && forall x :: x in s ==> Le(m, x)
    decreases |s|
  {
    var y :| y in s;
    var rest := s - {y};
    if rest == {} {
      LeReflexive(y);
      m := y;
      forall x | x in s
        ensures Le(m, x)
      {
        assert x !in rest;
      }
    } else {
      var r := LeastOf(rest);
      LeTotal(y, r);
      if Le(y, r) {
        m := y;
        forall x | x in s
          ensures Le(m, x)
        {
          if x == y {
            LeReflexive(y);
          } else {
            LeTransitive(y, r, x);
          }
        }
      } else {
        m := r;
        forall x | x in s
          ensures Le(m, x)
        {
          if x == y {
            assert Le(r, y);
          } else {
            assert x in rest;
          }
        }
      }
    }
  }

  lemma MinExists(s: set<string>)
    requires s != {}
    ensures exists m :: m in s && forall x :: x in s ==> Le(m, x)
  {
    var m := LeastOf(s);
  }

  /** A set of strings has at most one least element. */
  lemma MinUnique(s: set<string>)
    ensures forall a, b :: a in s && b in s && (forall x :: x in s ==> Le(a, x)) && (forall x :: x in s ==> Le(b, x)) ==> a == b
  {
    forall a, b | a in s && b in s && (forall x :: x in s ==> Le(a, x)) && (forall x :: x in s ==> Le(b, x))
      ensures a == b
    {
      LeAntisymmetric(a, b);
    }
  }

  /** `min(s)`: the least string of a non-empty set. */
  function Least(s: set<string>): (m: string)
    requires s != {}
    ensures m in s && forall x :: x in s ==> Le(m, x)
  {
    MinExists(s);
    MinUnique(s);
    var m :| m in s && forall x :: x in s ==> Le(m, x);
    m
  }

  /** The elements of a finite set of strings in ascending order: `sorted(s)`. */
  function SortedSet(s: set<string>): (ks: seq<string>)
    ensures StrictlySorted(ks) && |ks| == |s|
    ensures forall k :: k in ks <==> k in s
    decreases |s|
  {
    if s == {} then []
    else
      var m := Least(s);
      var rest := SortedSet(s - {m});
      assert forall k :: k in rest ==> Lt(m, k);
      [m] + rest
  }

  /** Two strictly ascending sequences with the same elements are equal. */
  lemma {:induction false} SortedUnique(a: seq<string>, b: seq<string>)
    requires StrictlySorted(a) && StrictlySorted(b)
    requires forall k :: k in a <==> k in b
    ensures a == b
    decreases |a|
  {
    assert |a| > 0 ==> a[0] in a;
    assert |b| > 0 ==> b[0] in b;
    if a != [] {
      var j :| 0 <= j < |a| && a[j] == b[0];
      var k :| 0 <= k < |b| && b[k] == a[0];
      assert Le(a[0], b[0]) by {
        if j == 0 {
          LeReflexive(a[0]);
        } else {
          assert Lt(a[0], a[j]);
        }
      }
      assert Le(b[0], a[0]) by {
        if k == 0 {
          LeReflexive(b[0]);
        } else {
          assert Lt(b[0], b[k]);
        }
      }
      LeAntisymmetric(a[0], b[0]);
      assert a == [a[0]] + a[1..];
      assert b == [b[0]] + b[1..];
      forall x
        ensures x in a[1..] <==> x in b[1..]
      {
        if x in a[1..] {
          var i :| 1 <= i < |a| && a[i] == x;
          assert Lt(a[0], a[i]);
          assert x in b && x != b[0];
        }
        if x in b[1..] {
          var i :| 1 <= i < |b| && b[i] == x;
          assert Lt(b[0], b[i]);
          assert x in a && x != a[0];
        }
      }
      SortedUnique(a[1..], b[1..]);
    }
  }

  /** Inserts a new key into a strictly ascending sequence. */
  function Insert(k: string, ks: seq<string>): (r: seq<string>)
    requires StrictlySorted(ks) && k !in ks
    ensures StrictlySorted(r) && |r| == |ks| + 1
    ensures forall x :: x in r <==> x == k || x in ks
  {
    if ks == [] then [k]
    else if Le(k, ks[0]) then
      assert forall i :: 0 <= i < |ks| ==> Lt(k, ks[i]) by {
        forall i | 0 <= i < |ks|
          ensures Lt(k, ks[i])
        {
          assert k != ks[i];
          if i > 0 {
            LeTransitive(k, ks[0], ks[i]);
          }
        }
      }
      [k] + ks
    else
      LeTotal(k, ks[0]);
      var rest := Insert(k, ks[1..]);
      assert forall x :: x in rest ==> Lt(ks[0], x);
      [ks[0]] + rest
  }

  /**
   * `sorted(keys)` for the keys of a dictionary, computed by inserting the keys one at a time.
   */
  method SortKeys(s: set<string>) returns (ks: seq<string>)
    ensures ks == SortedSet(s)
  {
    ks := [];
    var todo := s;
    while todo != {}
      invariant todo <= s
      invariant StrictlySorted(ks)
      invariant forall k :: k in ks <==> k in s - todo
      decreases |todo|
    {
      var k :| k in todo;
      ks := Insert(k, ks);
      todo := todo - {k};
    }
    SortedUnique(ks, SortedSet(s));
  }

  /** `c * n` for a one-character string `c`. */
  function Repeat(c: char, n: nat): (r: string)
    ensures |r| == n && forall i :: 0 <= i < n ==> r[i] == c
  {
    if n == 0 then [] else [c] + Repeat(c, n - 1)
  }

  /** `str.format` with a width `w`: left-aligned, filled with spaces up to width w, never truncated. */
  function PadRight(s: string, w: nat): (r: string)
    ensures |r| == if |s| < w then w else |s|
    ensures r[..|s|] == s
    ensures forall i :: |s| <= i < |r| ==> r[i] == ' '
  {
    if |s| < w then s + Repeat(' ', w - |s|) else s
  }

  /** `'{0:0wd}'.format(n)` for the digits of a non-negative integer. */
  function ZeroPad(digits: string, w: nat): (r: string)
    ensures |r| == if |digits| < w then w else |digits|
    ensures r[|r| - |digits|..] == digits
    ensures forall i :: 0 <= i < |r| - |digits| ==> r[i] == '0'
  {
    if |digits| < w then Repeat('0', w - |digits|) + digits else digits
  }

  predicate IsDigit(c: char)
  {
    '0' <= c <= '9'
  }

  function DigitChar(d: nat): (c: char)
    requires d < 10
    ensures IsDigit(c)
  {
    (48 + d) as char
  }

  /** `str(n)` for a non-negative integer. */
  function Decimal(n: nat): (r: string)
    ensures |r| > 0
    ensures forall i :: 0 <= i < |r| ==> IsDigit(r[i])
    ensures |r| == 1 <==> n < 10
  {
    if n < 10 then [DigitChar(n)] else Decimal(n / 10) + [DigitChar(n % 10)]
  }

  lemma {:induction false} DecimalInjective(a: nat, b: nat)
    requires Decimal(a) == Decimal(b)
    ensures a == b
  {
    if a >= 10 {
      var da, db := Decimal(a), Decimal(b);
      assert da[..|da| - 1] == Decimal(a / 10);
      assert db[..|db| - 1] == Decimal(b / 10);
      DecimalInjective(a / 10, b / 10);
      assert DigitChar(a % 10) == da[|da| - 1] == DigitChar(b % 10);
    }
  }

  /** Every character is a decimal digit. */
  predicate AllDigits(s: string)
  {
    forall i :: 0 <= i < |s| ==> IsDigit(s[i])
  }

  /** `int(s)` for a run of decimal digits, leading zeros allowed; the empty run reads as 0. */
  function DigitsValue(s: string): (n: nat)
    requires AllDigits(s)
  {
    if s == [] then 0 else DigitsValue(s[..|s| - 1]) * 10 + (s[|s| - 1] as int - '0' as int)
  }

  /** Reading back the digits `str(n)` writes gives `n`. */
  lemma {:induction false} DigitsValueDecimal(n: nat)
    ensures AllDigits(Decimal(n)) && DigitsValue(Decimal(n)) == n
  {
    var d := Decimal(n);
    if n >= 10 {
      assert d[..|d| - 1] == Decimal(n / 10);
      DigitsValueDecimal(n / 10);
    } else {
      assert d[..0] == [];
    }
  }

  /** A leading zero does not change the number a run of digits denotes. */
  lemma {:induction false} DigitsValueLeadingZero(s: string)
    requires AllDigits(s)
    ensures AllDigits("0" + s) && DigitsValue("0" + s) == DigitsValue(s)
  {
    var z := "0" + s;
    if s == [] {
      assert z[..0] == [];
    } else {
      assert z[..|z| - 1] == "0" + s[..|s| - 1];
      DigitsValueLeadingZero(s[..|s| - 1]);
    }
  }

  /** A positive number is written without a leading zero. */
  lemma {:induction false} DecimalNoLeadingZero(n: nat)
    requires n >= 1
    ensures Decimal(n)[0] != '0'
  {
    if n >= 10 {
      DecimalNoLeadingZero(n / 10);
      assert Decimal(n)[0] == Decimal(n / 10)[0];
    }
  }

  /** Zero-padding to a common width keeps numbers without leading zeros apart. */
  lemma ZeroPadInjective(a: string, b: string, w: nat)
    requires a != [] && a[0] != '0' && b != [] && b[0] != '0'
    requires ZeroPad(a, w) == ZeroPad(b, w)
    ensures a == b
  {
    var r := ZeroPad(a, w);
    assert r[|r| - |a|] == a[0];
    assert r[|r| - |b|] == b[0];
    assert |a| == |b|;
    assert a == r[|r| - |a|..] == b;
  }

  /** `s.find(c)`: the first index of c, or -1. */
  function Find(s: string, c: char): (r: int)
    ensures -1 <= r < |s|
    ensures r == -1 <==> c !in s
    ensures r >= 0 ==> s[r] == c && c !in s[..r]
  {
    if |s| == 0 then -1
    else if s[0] == c then 0
    else
      var r := Find(s[1..], c);
      assert s[1..][..(if r >= 0 then r else 0)] == s[1..1 + (if r >= 0 then r else 0)];
      if r == -1 then -1 else 1 + r
  }

  /** `s.find(c)` is `k` exactly when `s[k]` is the first `c`. */
  lemma {:induction false} FindAt(s: string, c: char, k: nat)
    requires k < |s| && s[k] == c
    requires forall j :: 0 <= j < k ==> s[j] != c
    ensures Find(s, c) == k
  {
    if k > 0 {
      FindAt(s[1..], c, k - 1);
    }
  }

  /** `s.find(p)` for a substring: the lowest index where `p` occurs, or -1. */
  function FindSubstring(s: string, p: string): (r: int)
    ensures -1 <= r <= |s|
    ensures r == 0 <==> p <= s
    ensures r >= 0 ==> p <= s[r..]
    ensures r == -1 ==> !(p <= s)
  {
    if p <= s then 0
    else if |s| == 0 then -1
    else
      var r := FindSubstring(s[1..], p);
      if r == -1 then -1 else assert s[1..][r..] == s[r + 1..]; r + 1
  }

  /** Number of occurrences of c in s. */
  function Count(s: string, c: char): nat
  {
    if |s| == 0 then 0 else (if s[0] == c then 1 else 0) + Count(s[1..], c)
  }

  lemma {:induction false} CountZero(s: string, c: char)
    ensures Count(s, c) == 0 <==> c !in s
  {
    if |s| > 0 {
      CountZero(s[1..], c);
      assert s == [s[0]] + s[1..];
    }
  }

  lemma {:induction false} CountSplit(s: string, c: char, i: nat)
    requires i <= |s|
    ensures Count(s, c) == Count(s[..i], c) + Count(s[i..], c)
  {
    if i > 0 {
      CountSplit(s[1..], c, i - 1);
      assert s[1..][..i - 1] == s[..i][1..];
      assert s[1..][i - 1..] == s[i..];
    }
  }

  /** `s.split(c)`. */
  function Split(s: string, c: char): (parts: seq<string>)
    ensures |parts| > 0
    decreases |s|
  {
    var i := Find(s, c);
    if i < 0 then [s] else [s[..i]] + Split(s[i + 1..], c)
  }

  /** `sep.join(parts)` for a one-character separator. */
  function Join(parts: seq<string>, sep: char): string
  {
    if |parts| == 0 then ""
    else if |parts| == 1 then parts[0]
    else parts[0] + [sep] + Join(parts[1..], sep)
  }

  /** `s.split(c)` has one more piece than there are separators. */
  lemma {:induction false} SplitLength(s: string, c: char)
    ensures |Split(s, c)| == Count(s, c) + 1
    decreases |s|
  {
    var i := Find(s, c);
    if i < 0 {
      CountZero(s, c);
    } else {
      SplitLength(s[i + 1..], c);
      CountSplit(s, c, i);
      CountZero(s[..i], c);
      assert s[i..] == [c] + s[i + 1..];
    }
  }

  /** With exactly one separator, `s.split(c)` gives the text before and after it. */
  lemma SplitOnce(s: string, c: char)
    requires Count(s, c) == 1
    ensures Find(s, c) >= 0
    ensures Split(s, c) == [s[..Find(s, c)], s[Find(s, c) + 1..]]
  {
    var i := Find(s, c);
    assert i >= 0 by {
      CountZero(s, c);
    }
    assert c !in s[i + 1..] by {
      CountRest(s, c, i);
    }
    assert Find(s[i + 1..], c) == -1;
  }

  /** After the first `c` of a string holding one `c`, there is none. */
  lemma CountRest(s: string, c: char, i: nat)
    requires Count(s, c) == 1 && i < |s| && s[i] == c && c !in s[..i]
    ensures c !in s[i + 1..]
  {
    assert Count(s[..i], c) == 0 by {
      CountZero(s[..i], c);
    }
    assert Count(s[i..], c) == 1 + Count(s[i + 1..], c) by {
      assert s[i..][1..] == s[i + 1..];
    }
    assert Count(s, c) == Count(s[..i], c) + Count(s[i..], c) by {
      CountSplit(s, c, i);
    }
    CountZero(s[i + 1..], c);
  }


  /** Joining and splitting on a separator no piece contains is a round trip. */
  lemma {:induction false} SplitJoin(parts: seq<string>, sep: char)
    requires |parts| > 0
    requires forall p :: p in parts ==> sep !in p
    ensures Split(Join(parts, sep), sep) == parts
  {
    if |parts| == 1 {
      assert sep !in parts[0];
    } else {
      var head := parts[0];
      var rest := Join(parts[1..], sep);
      var s := Join(parts, sep);
      assert sep !in head;
      assert s == head + [sep] + rest;
      assert s[..|head|] == head;
      assert s[|head| + 1..] == rest;
      FindAt(s, sep, |head|);
      assert Split(s, sep) == [head] + Split(rest, sep);
      SplitJoin(parts[1..], sep);
      assert parts == [head] + parts[1..];
    }
  }

  /** Splitting then joining gives back the string. */
  lemma {:induction false} JoinSplit(s: string, c: char)
    ensures Join(Split(s, c), c) == s
    decreases |s|
  {
    var i := Find(s, c);
    if i >= 0 {
      JoinSplit(s[i + 1..], c);
      assert s == s[..i] + [c] + s[i + 1..];
    }
  }
}
