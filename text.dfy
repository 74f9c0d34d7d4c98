/** The string operations the LeftOver screen relies on: JavaScript's
    `s.split(sep).pop()` for a one-character separator, and the decimal
    rendering `n.toString()` of an integer group identifier. */
module Text {

  /** The suffix of `s` after its last `sep`, or all of `s` when `sep` does
      not occur in it: the value of `s.split(sep).pop()` (see
      SplitPopIsAfterLast, and AfterLastIsLastPiece for what it is). */
  function AfterLast(s: string, sep: char): (r: string)
    ensures sep !in r
    ensures |r| <= |s|
    ensures |r| < |s| ==> s[|s| - |r| - 1] == sep
    decreases |s|
  {
    if |s| == 0 then []
    else if s[|s| - 1] == sep then []
    else AfterLast(s[..|s| - 1], sep) + [s[|s| - 1]]
  }

  /** AfterLast is a separator-free suffix of `s` that is either all of `s`
      or starts right after an occurrence of `sep`. */
  lemma {:induction false} AfterLastIsLastPiece(s: string, sep: char)
    ensures sep !in AfterLast(s, sep)
    ensures |AfterLast(s, sep)| <= |s|
    ensures AfterLast(s, sep) == s[|s| - |AfterLast(s, sep)|..]
    ensures |AfterLast(s, sep)| == |s| || s[|s| - |AfterLast(s, sep)| - 1] == sep
    decreases |s|
  {
    if |s| > 0 && s[|s| - 1] != sep {
      var p, d := s[..|s| - 1], s[|s| - 1];
      var q := AfterLast(p, sep);
      AfterLastIsLastPiece(p, sep);
      assert AfterLast(s, sep) == q + [d];
      assert q + [d] == s[|s| - |q| - 1..] by {
        assert s == p + [d];
      }
      if |q| < |p| {
        assert s[|s| - |q| - 2] == p[|p| - |q| - 1];
      }
    }
  }

  /** Without any separator the last piece is the whole string. */
  lemma AfterLastWithoutSeparator(s: string, sep: char)
    requires sep !in s
    ensures AfterLast(s, sep) == s
  {
    AfterLastIsLastPiece(s, sep);
  }

  /** JavaScript's `s.split(sep)` for a one-character separator: the pieces
      between the occurrences of `sep`, empty pieces included. There is always
      at least one piece, so `pop()` never yields `undefined` and the
      `String(...)` the source wraps around it changes nothing. */
  function Split(s: string, sep: char): (r: seq<string>)
    ensures |r| >= 1
    decreases |s|
  {
    if |s| == 0 then [""]
    else
      var rest := Split(s[1..], sep);
      if s[0] == sep then [""] + rest
      else [[s[0]] + rest[0]] + rest[1..]
  }

  /** A split has a single piece exactly when there is no separator. */
  lemma {:induction false} SplitSingle(s: string, sep: char)
    ensures |Split(s, sep)| == 1 <==> sep !in s
    decreases |s|
  {
    if |s| > 0 {
      SplitSingle(s[1..], sep);
      assert sep in s <==> s[0] == sep || sep in s[1..] by {
        assert s == [s[0]] + s[1..];
      }
    }
  }

  /** JavaScript's `pieces.join(sep)`. */
  function Join(pieces: seq<string>, sep: char): string
    requires |pieces| >= 1
    decreases |pieces|
  {
    if |pieces| == 1 then pieces[0]
    else pieces[0] + [sep] + Join(pieces[1..], sep)
  }

  /** Splitting loses nothing: joining the pieces back gives the string. */
  lemma {:induction false} JoinSplit(s: string, sep: char)
    ensures Join(Split(s, sep), sep) == s
    decreases |s|
  {
    if |s| > 0 {
      var c, t := s[0], s[1..];
      var rest := Split(t, sep);
      JoinSplit(t, sep);
      assert s == [c] + t;
      if c == sep {
        JoinSeparatorFirst(rest, sep);
      } else if |rest| > 1 {
        JoinExtendFirst(c, rest, sep);
      }
    }
  }

  lemma JoinSeparatorFirst(rest: seq<string>, sep: char)
    requires |rest| >= 1
    ensures Join([""] + rest, sep) == [sep] + Join(rest, sep)
  {
  }

  lemma JoinExtendFirst(c: char, rest: seq<string>, sep: char)
    requires |rest| >= 2
    ensures Join([[c] + rest[0]] + rest[1..], sep) == [c] + Join(rest, sep)
  {
  }

  /** No piece of a split contains the separator. */
  lemma {:induction false} SplitPiecesAreSeparatorFree(s: string, sep: char, k: nat)
    requires k < |Split(s, sep)|
    ensures sep !in Split(s, sep)[k]
    decreases |s|
  {
    if |s| > 0 {
      if s[0] == sep {
        if k > 0 { SplitPiecesAreSeparatorFree(s[1..], sep, k - 1); }
      } else {
        SplitPiecesAreSeparatorFree(s[1..], sep, k);
      }
    }
  }

  /** How AfterLast relates a string to the same string without its first
      character. */
  lemma {:induction false} AfterLastFront(s: string, sep: char)
    requires |s| > 0
    ensures AfterLast(s, sep) ==
      if sep in s[1..] then AfterLast(s[1..], sep)
      else if s[0] == sep then s[1..]
      else s
    decreases |s|
  {
    if |s| > 1 {
      var p, d := s[..|s| - 1], s[|s| - 1];
      assert p[0] == s[0];
      assert s[1..] == p[1..] + [d];
      assert sep in s[1..] <==> sep in p[1..] || d == sep;
      if d != sep {
        AfterLastFront(p, sep);
        assert s[1..][..|s[1..]| - 1] == p[1..];
        assert p + [d] == s;
      }
    }
  }

  /** The model's AfterLast is what the source computes with
      `s.split(sep).pop()`: the last piece of the split. */
  lemma {:induction false} SplitPopIsAfterLast(s: string, sep: char)
    ensures Split(s, sep)[|Split(s, sep)| - 1] == AfterLast(s, sep)
    decreases |s|
  {
    if |s| > 0 {
      var t := s[1..];
      var rest := Split(t, sep);
      SplitPopIsAfterLast(t, sep);
      AfterLastFront(s, sep);
      SplitSingle(t, sep);
      if s[0] == sep {
        if sep !in t {
          AfterLastWithoutSeparator(t, sep);
        }
      } else if |rest| == 1 {
        JoinSplit(t, sep);
        assert [s[0]] + t == s;
      }
    }
  }

  /** When the suffix after the last `a` still contains a `b`, the suffix after
      the last `b` of the whole string lies inside it. */
  lemma {:induction false} AfterLastNested(s: string, a: char, b: char)
    requires a != b && b in AfterLast(s, a)
    ensures AfterLast(s, b) == AfterLast(AfterLast(s, a), b)
    decreases |s|
  {
    var s', d := s[..|s| - 1], s[|s| - 1];
    if d != a && d != b {
      var inner := AfterLast(s', a);
      assert AfterLast(s, a) == inner + [d];
      assert b in inner by {
        var k :| 0 <= k < |inner + [d]| && (inner + [d])[k] == b;
        assert k < |inner| && inner[k] == b;
      }
      AfterLastNested(s', a, b);
      assert (inner + [d])[..|inner|] == inner;
    }
  }

  /** When the suffix after the last `a` has no `b` but `s` does, the suffix
      after the last `b` reaches back over an `a`. */
  lemma {:induction false} AfterLastCrossesSeparator(s: string, a: char, b: char)
    requires a != b && b in s && b !in AfterLast(s, a)
    ensures a in AfterLast(s, b)
    decreases |s|
  {
    var s', d := s[..|s| - 1], s[|s| - 1];
    assert s == s' + [d];
    if d == a {
      assert AfterLast(s, b) == AfterLast(s', b) + [d];
    } else if d != b {
      var inner := AfterLast(s', a);
      assert AfterLast(s, a) == inner + [d];
      assert b in s' by {
        var k :| 0 <= k < |s| && s[k] == b;
        assert k < |s'| && s'[k] == b;
      }
      AfterLastCrossesSeparator(s', a, b);
      assert AfterLast(s, b) == AfterLast(s', b) + [d];
    }
  }

  predicate IsDigit(c: char) { '0' <= c <= '9' }

  predicate IsDigits(s: string) { forall i :: 0 <= i < |s| ==> IsDigit(s[i]) }

  function DigitChar(d: nat): (c: char)
    requires d < 10
    ensures IsDigit(c)
  {
    "0123456789"[d]
  }

  function DigitValue(c: char): (d: nat)
    requires IsDigit(c)
    ensures d < 10
  {
    (c as int) - ('0' as int)
  }

  /** The decimal digits of `n`, most significant first. */
  function NatToString(n: nat): string
    decreases n
  {
    if n < 10 then [DigitChar(n)]
    else NatToString(n / 10) + [DigitChar(n % 10)]
  }

  /** The rendering of a natural number is a non-empty run of digits with no
      leading zero. */
  lemma {:induction false} NatToStringIsDigits(n: nat)
    ensures |NatToString(n)| >= 1 && IsDigits(NatToString(n))
    ensures NatToString(n)[0] == '0' ==> n == 0
    decreases n
  {
    if n >= 10 {
      NatToStringIsDigits(n / 10);
      var prefix := NatToString(n / 10);
      assert NatToString(n) == prefix + [DigitChar(n % 10)];
      assert NatToString(n)[0] == prefix[0];
    }
  }

  /** JavaScript's `n.toString()` for an integer `n`. */
  function IntToString(n: int): (r: string)
    ensures |r| >= 1
    ensures r[0] == '-' <==> n < 0
  {
    NatToStringIsDigits(if n < 0 then -n else n);
    if n < 0 then "-" + NatToString(-n) else NatToString(n)
  }

  /** An optionally signed, non-empty run of decimal digits. */
  predicate IsIntLiteral(s: string) {
    |s| >= 1 && IsDigits(if s[0] == '-' then s[1..] else s)
  }

  /** The value of a string of decimal digits. */
  function ParseNat(s: string): nat
    requires IsDigits(s)
    decreases |s|
  {
    if s == [] then 0
    else 10 * ParseNat(s[..|s| - 1]) + DigitValue(s[|s| - 1])
  }

  /** The value of an optionally signed decimal literal: the inverse of IntToString. */
  function ParseInt(s: string): int
    requires IsIntLiteral(s)
  {
    var magnitude: int := if s[0] == '-' then ParseNat(s[1..]) else ParseNat(s);
    if s[0] == '-' then -magnitude else magnitude
  }

  lemma {:induction false} ParseNatToString(n: nat)
    ensures IsDigits(NatToString(n)) && ParseNat(NatToString(n)) == n
    decreases n
  {
    NatToStringIsDigits(n);
    if n >= 10 {
      var prefix := NatToString(n / 10);
      var s := prefix + [DigitChar(n % 10)];
      assert s[..|s| - 1] == prefix;
      ParseNatToString(n / 10);
    }
  }

  /** Reading back the rendering of an integer gives that integer. */
  lemma ParseIntToString(n: int)
    ensures IsIntLiteral(IntToString(n)) && ParseInt(IntToString(n)) == n
  {
    var s := IntToString(n);
    if n < 0 {
      var m: nat := -n;
      assert s[1..] == NatToString(m);
      ParseNatToString(m);
      assert ParseNat(s[1..]) == m;
    } else {
      var m: nat := n;
      assert s == NatToString(m);
      NatToStringIsDigits(m);
      ParseNatToString(m);
      assert s[0] != '-';
    }
  }

  /** Two integers with the same rendering are equal: comparing the strings
      `id.toString()` compares the identifiers. */
  lemma IntToStringInjective(a: int, b: int)
    ensures IntToString(a) == IntToString(b) <==> a == b
  {
    ParseIntToString(a);
    ParseIntToString(b);
  }
}
