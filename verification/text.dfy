/** The string operations of Python that the endpoints and services rely on:
    `sep.join`, `str.split`, `str.lower` and `str(int)`. */
module Text {
  import opened Seqs

  /** `sep.join(parts)`: the parts in order with `sep` between neighbours. */
  function Join(parts: seq<string>, sep: string): string
    decreases |parts|
  {
    if |parts| == 0 then ""
    else if |parts| == 1 then parts[0]
    else Join(parts[..|parts| - 1], sep) + sep + parts[|parts| - 1]
  }

  /** Joining a concatenation puts one separator at the seam. */
  lemma {:induction false} JoinAppend(a: seq<string>, b: seq<string>, sep: string)
    requires |a| > 0 && |b| > 0
    ensures Join(a + b, sep) == Join(a, sep) + sep + Join(b, sep)
    decreases |b|
  {
    if |b| == 1 {
      assert (a + b)[..|a + b| - 1] == a;
    } else {
      var b' := b[..|b| - 1];
      assert (a + b)[..|a + b| - 1] == a + b';
      JoinAppend(a, b', sep);
    }
  }

  /** Each list joined on its own. */
  function JoinEach(xss: seq<seq<string>>, sep: string): (r: seq<string>)
    ensures |r| == |xss|
    ensures forall i :: 0 <= i < |xss| ==> r[i] == Join(xss[i], sep)
  {
    seq(|xss|, i requires 0 <= i < |xss| => Join(xss[i], sep))
  }

  /** Joining all the pieces at once equals joining each group and then joining the
      groups, provided no group is empty (an empty group would add a separator). */
  lemma {:induction false} JoinFlatten(xss: seq<seq<string>>, sep: string)
    requires forall i :: 0 <= i < |xss| ==> |xss[i]| > 0
    ensures Join(Flatten(xss), sep) == Join(JoinEach(xss, sep), sep)
    decreases |xss|
  {
    if |xss| > 0 {
      var init := xss[..|xss| - 1];
      var last := xss[|xss| - 1];
      JoinFlatten(init, sep);
      assert JoinEach(xss, sep)[..|xss| - 1] == JoinEach(init, sep);
      if |init| == 0 {
        assert Flatten(xss) == last;
      } else {
        assert |Flatten(init)| > 0 by {
          assert Flatten(init) == Flatten(init[..|init| - 1]) + init[|init| - 1];
        }
        JoinAppend(Flatten(init), last, sep);
      }
    }
  }

  /** `s.split(c)` for a one-character separator: the maximal runs between separators,
      always at least one piece (`"".split(".") == [""]`). */
  function Split(s: string, c: char): (parts: seq<string>)
    ensures |parts| >= 1
    decreases |s|
  {
    if |s| == 0 then [""]
    else
      var init := Split(s[..|s| - 1], c);
      if s[|s| - 1] == c then init + [""]
      else init[..|init| - 1] + [init[|init| - 1] + [s[|s| - 1]]]
  }

  /** No piece of a split holds the separator. */
  lemma {:induction false} SplitPiecesFree(s: string, c: char)
    ensures forall i :: 0 <= i < |Split(s, c)| ==> c !in Split(s, c)[i]
    decreases |s|
  {
    if |s| > 0 {
      var s' := s[..|s| - 1];
      SplitPiecesFree(s', c);
      var init := Split(s', c);
      var parts := Split(s, c);
      if s[|s| - 1] != c {
        forall i | 0 <= i < |parts| ensures c !in parts[i] {
          if i < |parts| - 1 {
            assert parts[i] == init[i];
          } else {
            assert parts[i] == init[|init| - 1] + [s[|s| - 1]];
          }
        }
      }
    }
  }

  /** The last piece of a split is the suffix of `s` after the last separator. */
  lemma {:induction false} SplitLastPiece(s: string, c: char)
    ensures var last := Split(s, c)[|Split(s, c)| - 1];
      && |last| <= |s|
      && last == s[|s| - |last|..]
      && (|last| < |s| ==> s[|s| - |last| - 1] == c)
    decreases |s|
  {
    if |s| > 0 {
      var s' := s[..|s| - 1];
      SplitLastPiece(s', c);
      var init := Split(s', c);
      var parts := Split(s, c);
      if s[|s| - 1] != c {
        var l' := init[|init| - 1];
        var last := parts[|parts| - 1];
        assert last == l' + [s[|s| - 1]];
        assert s == s' + [s[|s| - 1]];
        assert s[|s| - |last|..] == s'[|s'| - |l'|..] + [s[|s| - 1]];
        if |last| < |s| {
          assert s[|s| - |last| - 1] == s'[|s'| - |l'| - 1];
        }
      }
    }
  }

  /** Joining the pieces of a split with the separator gives the string back. */
  lemma {:induction false} JoinSplit(s: string, c: char)
    ensures Join(Split(s, c), [c]) == s
    decreases |s|
  {
    if |s| > 0 {
      var s', ch := s[..|s| - 1], s[|s| - 1];
      JoinSplit(s', c);
      JoinSplitStep(s, s', ch, c);
    }
  }

  /** One step of `JoinSplit`: appending a character to the string appends it to the
      join of its split. */
  lemma JoinSplitStep(s: string, s': string, ch: char, c: char)
    requires s == s' + [ch]
    requires Join(Split(s', c), [c]) == s'
    ensures Join(Split(s, c), [c]) == s
  {
    assert s[..|s| - 1] == s';
    var init := Split(s', c);
    if ch == c {
      var parts := init + [""];
      assert Split(s, c) == parts;
      assert parts[..|parts| - 1] == init;
      assert Join(parts, [c]) == Join(init, [c]) + [c] + "";
    } else {
      assert Split(s, c) == init[..|init| - 1] + [init[|init| - 1] + [ch]];
      JoinExtendLast(init, [c], ch);
    }
  }

  /** Extending the last part extends the join by the same characters. */
  lemma JoinExtendLast(parts: seq<string>, sep: string, ch: char)
    requires |parts| >= 1
    ensures Join(parts[..|parts| - 1] + [parts[|parts| - 1] + [ch]], sep) == Join(parts, sep) + [ch]
  {
    var extended := parts[..|parts| - 1] + [parts[|parts| - 1] + [ch]];
    assert extended[..|extended| - 1] == parts[..|parts| - 1];
    if |parts| > 1 {
      assert Join(extended, sep) == Join(parts[..|parts| - 1], sep) + sep + (parts[|parts| - 1] + [ch]);
      assert Join(parts, sep) == Join(parts[..|parts| - 1], sep) + sep + parts[|parts| - 1];
    }
  }

  /** Splitting a join of separator-free pieces gives the pieces back. */
  lemma {:induction false} SplitJoin(parts: seq<string>, c: char)
    requires |parts| >= 1
    requires forall i :: 0 <= i < |parts| ==> c !in parts[i]
    ensures Split(Join(parts, [c]), c) == parts
    decreases |parts|
  {
    if |parts| == 1 {
      SplitFree(parts[0], c);
    } else {
      var init := parts[..|parts| - 1];
      var last := parts[|parts| - 1];
      assert forall i :: 0 <= i < |init| ==> init[i] == parts[i];
      SplitJoin(init, c);
      assert Join(parts, [c]) == Join(init, [c]) + [c] + last;
      SplitAfterSeparator(Join(init, [c]), last, c);
      assert init + [last] == parts;
    }
  }

  /** A string without the separator splits into itself. */
  lemma {:induction false} SplitFree(v: string, c: char)
    requires c !in v
    ensures Split(v, c) == [v]
    decreases |v|
  {
    if |v| > 0 {
      var v' := v[..|v| - 1];
      assert c !in v' by {
        forall i | 0 <= i < |v'| ensures v'[i] != c { assert v'[i] == v[i]; }
      }
      SplitFree(v', c);
      assert v' + [v[|v| - 1]] == v;
    }
  }

  /** What follows the last separator becomes one more, final piece. */
  lemma {:induction false} SplitAfterSeparator(u: string, v: string, c: char)
    requires c !in v
    ensures Split(u + [c] + v, c) == Split(u, c) + [v]
    decreases |v|
  {
    if |v| == 0 {
      assert (u + [c] + v)[..|u + [c] + v| - 1] == u;
    } else {
      var v' := v[..|v| - 1];
      assert c !in v' by {
        forall i | 0 <= i < |v'| ensures v'[i] != c { assert v'[i] == v[i]; }
      }
      SplitAfterSeparator(u, v', c);
      var w := u + [c] + v;
      assert w[..|w| - 1] == u + [c] + v';
      assert w[|w| - 1] == v[|v| - 1];
      assert v' + [v[|v| - 1]] == v;
    }
  }

  /** `s.split(c)[-1]`: the text after the last separator, or all of `s` without one. */
  function LastPiece(s: string, c: char): (r: string)
    ensures c !in r
    ensures |r| <= |s| && r == s[|s| - |r|..]
    ensures c !in s ==> r == s
    ensures c in s ==> |r| < |s| && s[|s| - |r| - 1] == c
  {
    var parts := Split(s, c);
    SplitPiecesFree(s, c);
    SplitLastPiece(s, c);
    parts[|parts| - 1]
  }

  predicate IsUpper(ch: char) {
    'A' <= ch <= 'Z'
  }

  /** `str.lower` on one character, for the ASCII letters. */
  function LowerChar(ch: char): (r: char)
    ensures !IsUpper(r)
    ensures !IsUpper(ch) ==> r == ch
    ensures IsUpper(ch) ==> r as int - ch as int == 'a' as int - 'A' as int
  {
    if IsUpper(ch) then (ch as int - 'A' as int + 'a' as int) as char else ch
  }

  /** `str.lower`, character by character. */
  function Lower(s: string): (r: string)
    ensures |r| == |s|
    ensures forall i :: 0 <= i < |s| ==> r[i] == LowerChar(s[i])
  {
    seq(|s|, i requires 0 <= i < |s| => LowerChar(s[i]))
  }

  lemma LowerIdempotent(s: string)
    ensures Lower(Lower(s)) == Lower(s)
  {
  }

  predicate IsDigit(ch: char) {
    '0' <= ch <= '9'
  }

  predicate AllDigits(s: string) {
    forall i :: 0 <= i < |s| ==> IsDigit(s[i])
  }

  function DigitChar(d: nat): (ch: char)
    requires d < 10
    ensures IsDigit(ch) && ch as int - '0' as int == d
  {
    (d + '0' as int) as char
  }

  /** The number a string of decimal digits denotes. */
  function DigitsValue(s: string): nat
    requires AllDigits(s)
    decreases |s|
  {
    if |s| == 0 then 0
    else DigitsValue(s[..|s| - 1]) * 10 + (s[|s| - 1] as int - '0' as int)
  }

  /** `str(n)` for a natural number: decimal digits, no leading zero. */
  function NatToString(n: nat): (s: string)
    ensures |s| >= 1 && AllDigits(s)
    ensures s[0] == '0' ==> n == 0
    decreases n
  {
    if n < 10 then [DigitChar(n)] else NatToString(n / 10) + [DigitChar(n % 10)]
  }

  /** The digits of `str(n)` spell `n`. */
  lemma {:induction false} NatToStringValue(n: nat)
    ensures DigitsValue(NatToString(n)) == n
    decreases n
  {
    if n >= 10 {
      NatToStringValue(n / 10);
      var s := NatToString(n);
      assert s[..|s| - 1] == NatToString(n / 10);
    }
  }

  /** `str(i)` for any integer. */
  function IntToString(i: int): (s: string)
    ensures i < 0 <==> (|s| > 0 && s[0] == '-')
    ensures i < 0 ==> AllDigits(s[1..]) && DigitsValue(s[1..]) == -i
    ensures i >= 0 ==> AllDigits(s) && DigitsValue(s) == i
  {
    if i < 0 then
      NatToStringValue(-i);
      assert ("-" + NatToString(-i))[1..] == NatToString(-i);
      "-" + NatToString(-i)
    else
      NatToStringValue(i);
      NatToString(i)
  }

  /** Different integers print differently. */
  lemma IntToStringInjective(i: int, j: int)
    requires IntToString(i) == IntToString(j)
    ensures i == j
  {
  }
}
