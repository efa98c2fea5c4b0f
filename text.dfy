/**
 * The string operations the ingestion and aggregation code relies on:
 * JavaScript's `trim`, `split('\n')`, the decimal rendering of a line
 * number, and the code-unit-wise comparison behind `<`/`>` on strings.
 */
module Text {

  /** The characters `String.prototype.trim` removes: WhiteSpace and LineTerminator. */
  predicate IsJsSpace(c: char)
  {
    || c == '\t' || c == '\n' || c == '\U{B}' || c == '\U{C}' || c == '\r' || c == ' '
    || c == '\U{A0}' || c == '\U{1680}' || ('\U{2000}' <= c <= '\U{200A}')
    || c == '\U{2028}' || c == '\U{2029}' || c == '\U{202F}' || c == '\U{205F}'
    || c == '\U{3000}' || c == '\U{FEFF}'
  }

  predicate AllSpace(s: string)
  {
    forall k :: 0 <= k < |s| ==> IsJsSpace(s[k])
  }

  /** Number of whitespace characters at the front of `s`. */
  function LeadingSpaces(s: string): (n: nat)
    ensures n <= |s|
    ensures forall k :: 0 <= k < n ==> IsJsSpace(s[k])
    ensures n < |s| ==> !IsJsSpace(s[n])
  {
    if s == [] || !IsJsSpace(s[0]) then 0 else 1 + LeadingSpaces(s[1..])
  }

  /** Number of whitespace characters at the back of `s`. */
  function TrailingSpaces(s: string): (n: nat)
    ensures n <= |s|
    ensures forall k :: |s| - n <= k < |s| ==> IsJsSpace(s[k])
    ensures n < |s| ==> !IsJsSpace(s[|s| - n - 1])
  {
    if s == [] || !IsJsSpace(s[|s| - 1]) then 0 else 1 + TrailingSpaces(s[..|s| - 1])
  }

  /**
   * `s.trim()`: the slice of `s` left when the whitespace at both ends is
   * cut off.  Everything cut is whitespace, and what is kept either is empty
   * or starts and ends with a non-whitespace character.
   */
  function Trim(s: string): (r: string)
    ensures exists lo, hi :: 0 <= lo <= hi <= |s| && r == s[lo..hi]
                              && AllSpace(s[..lo]) && AllSpace(s[hi..])
    ensures r == [] || (!IsJsSpace(r[0]) && !IsJsSpace(r[|r| - 1]))
  {
    var lo := LeadingSpaces(s);
    var hi := |s| - TrailingSpaces(s[lo..]);
    assert AllSpace(s[hi..]) by {
      forall k | 0 <= k < |s[hi..]| ensures IsJsSpace(s[hi..][k]) {
        assert s[hi..][k] == s[lo..][k + hi - lo];
      }
    }
    s[lo..hi]
  }

  /** Trimming keeps a string empty exactly when it held only whitespace. */
  lemma TrimEmptyIffAllSpace(s: string)
    ensures Trim(s) == [] <==> AllSpace(s)
  {
    var lo, hi :| 0 <= lo <= hi <= |s| && Trim(s) == s[lo..hi] && AllSpace(s[..lo]) && AllSpace(s[hi..]);
    if Trim(s) == [] {
      forall k | 0 <= k < |s| ensures IsJsSpace(s[k]) {
        if k < lo { assert s[..lo][k] == s[k]; } else { assert s[hi..][k - hi] == s[k]; }
      }
    } else {
      assert Trim(s)[0] == s[lo];
    }
  }

  /** `s.split('\n')`: the pieces between line feeds, at least one. */
  function Split(s: string): (r: seq<string>)
    ensures |r| >= 1
    ensures forall i :: 0 <= i < |r| ==> '\n' !in r[i]
  {
    if s == [] then [""]
    else
      var rest := Split(s[1..]);
      if s[0] == '\n' then [""] + rest
      else [[s[0]] + rest[0]] + rest[1..]
  }

  /** `pieces.join('\n')`. */
  function Join(pieces: seq<string>): string
    requires |pieces| >= 1
  {
    if |pieces| == 1 then pieces[0] else pieces[0] + "\n" + Join(pieces[1..])
  }

  /** Joining the pieces of a split gives the text back. */
  lemma {:induction false} JoinSplit(s: string)
    ensures Join(Split(s)) == s
    decreases |s|
  {
    if s != [] {
      var rest := Split(s[1..]);
      JoinSplit(s[1..]);
      if s[0] == '\n' {
        assert Split(s) == [""] + rest;
        assert Split(s)[1..] == rest;
      } else {
        var r := Split(s);
        assert r == [[s[0]] + rest[0]] + rest[1..];
        if |rest| == 1 {
          assert |r| == 1;
        } else {
          assert r[1..] == rest[1..];
          assert Join(rest) == rest[0] + "\n" + Join(rest[1..]);
        }
      }
    }
  }

  /** Splitting a join of line-feed-free pieces gives the pieces back. */
  lemma {:induction false} SplitJoin(pieces: seq<string>)
    requires |pieces| >= 1
    requires forall i :: 0 <= i < |pieces| ==> '\n' !in pieces[i]
    ensures Split(Join(pieces)) == pieces
    decreases |pieces|, |pieces[0]|
  {
    var p := pieces[0];
    if p == [] {
      if |pieces| > 1 {
        SplitJoin(pieces[1..]);
        assert Join(pieces) == "\n" + Join(pieces[1..]);
        assert ("\n" + Join(pieces[1..]))[1..] == Join(pieces[1..]);
        assert [""] + pieces[1..] == pieces;
      }
    } else {
      var shorter := [p[1..]] + pieces[1..];
      forall i | 0 <= i < |shorter| ensures '\n' !in shorter[i] {
        if i == 0 {
          assert forall c :: c in p[1..] ==> c in p;
        } else {
          assert shorter[i] == pieces[i];
        }
      }
      SplitJoin(shorter);
      var s := Join(pieces);
      if |pieces| == 1 {
        assert s == p;
        assert Join(shorter) == p[1..];
      } else {
        assert s == p + "\n" + Join(pieces[1..]);
        assert Join(shorter) == p[1..] + "\n" + Join(pieces[1..]);
      }
      assert s[0] == p[0] && s[1..] == Join(shorter);
      assert p[0] != '\n' by { assert p[0] in p; }
      assert Split(s) == [[p[0]] + shorter[0]] + shorter[1..];
      assert [p[0]] + p[1..] == p;
    }
  }

  /** A character of the joined text that is not a line feed lies in some piece. */
  lemma {:induction false} JoinMember(pieces: seq<string>, k: nat)
    requires |pieces| >= 1
    requires k < |Join(pieces)| && Join(pieces)[k] != '\n'
    ensures exists i :: 0 <= i < |pieces| && Join(pieces)[k] in pieces[i]
    decreases |pieces|
  {
    if |pieces| > 1 {
      var tail := Join(pieces[1..]);
      assert Join(pieces) == pieces[0] + "\n" + tail;
      if k < |pieces[0]| {
        assert Join(pieces)[k] == pieces[0][k];
      } else {
        assert k > |pieces[0]|;
        assert Join(pieces)[k] == tail[k - |pieces[0]| - 1];
        JoinMember(pieces[1..], k - |pieces[0]| - 1);
        var i :| 0 <= i < |pieces[1..]| && tail[k - |pieces[0]| - 1] in pieces[1..][i];
        assert pieces[1..][i] == pieces[i + 1];
      }
    }
  }

  /** Lexicographic order by character code, as JavaScript's `<` on strings. */
  predicate Less(a: string, b: string)
    decreases |a|
  {
    if a == [] then b != []
    else b != [] && (a[0] < b[0] || (a[0] == b[0] && Less(a[1..], b[1..])))
  }

  /** `a` does not come after `b`: the comparator `a.localeCompare(b) <= 0`. */
  predicate NotAfter(a: string, b: string)
  {
    !Less(b, a)
  }

  lemma {:induction false} LessIrreflexive(a: string)
    ensures !Less(a, a)
    decreases |a|
  {
    if a != [] { LessIrreflexive(a[1..]); }
  }

  lemma {:induction false} LessTransitive(a: string, b: string, c: string)
    requires Less(a, b) && Less(b, c)
    ensures Less(a, c)
    decreases |a|
  {
    if a != [] && a[0] == b[0] && b[0] == c[0] {
      LessTransitive(a[1..], b[1..], c[1..]);
    }
  }

  lemma {:induction false} LessTrichotomy(a: string, b: string)
    ensures a == b || Less(a, b) || Less(b, a)
    ensures !(Less(a, b) && Less(b, a))
    decreases |a|
  {
    if a != [] && b != [] && a[0] == b[0] {
      LessTrichotomy(a[1..], b[1..]);
      if a[1..] == b[1..] {
        assert a == [a[0]] + a[1..] && b == [b[0]] + b[1..];
      }
    }
  }

  /** `Less` is a strict total order, stated for every string at once. */
  lemma LessIsStrictTotalOrder()
    ensures forall a :: !Less(a, a)
    ensures forall a, b :: a == b || Less(a, b) || Less(b, a)
    ensures forall a, b :: Less(a, b) ==> !Less(b, a)
    ensures forall a, b, c :: Less(a, b) && Less(b, c) ==> Less(a, c)
  {
    forall a { LessIrreflexive(a); }
    forall a, b { LessTrichotomy(a, b); }
    forall a, b, c | Less(a, b) && Less(b, c) { LessTransitive(a, b, c); }
  }

  /** `NotAfter` is a total preorder: the shape a stable sort needs. */
  lemma NotAfterIsTotalPreorder()
    ensures forall a :: NotAfter(a, a)
    ensures forall a, b :: NotAfter(a, b) || NotAfter(b, a)
    ensures forall a, b, c :: NotAfter(a, b) && NotAfter(b, c) ==> NotAfter(a, c)
    ensures forall a, b :: NotAfter(a, b) && NotAfter(b, a) ==> a == b
  {
    LessIsStrictTotalOrder();
  }

  /** Decimal digits of `n`, as a template literal renders a number. */
  function NatToString(n: nat): (s: string)
    ensures |s| >= 1
    ensures forall k :: 0 <= k < |s| ==> '0' <= s[k] <= '9'
    ensures s[0] == '0' ==> n == 0
  {
    if n < 10 then [DigitChar(n)] else NatToString(n / 10) + [DigitChar(n % 10)]
  }

  function DigitChar(d: nat): (c: char)
    requires d < 10
  {
    (d + '0' as int) as char
  }

  /** Reads a string of decimal digits back into a number. */
  function DecimalValue(s: string): nat
    requires forall k :: 0 <= k < |s| ==> '0' <= s[k] <= '9'
  {
    if s == [] then 0
    else DecimalValue(s[..|s| - 1]) * 10 + (s[|s| - 1] as int - '0' as int)
  }

  /** Reading the decimal rendering gives the number back. */
  lemma {:induction false} DecimalRoundTrip(n: nat)
    ensures DecimalValue(NatToString(n)) == n
  {
    if n >= 10 {
      var s := NatToString(n);
      assert s[..|s| - 1] == NatToString(n / 10);
      DecimalRoundTrip(n / 10);
    }
  }

  /** Distinct numbers render as distinct strings. */
  lemma NatToStringInjective(m: nat, n: nat)
    requires NatToString(m) == NatToString(n)
    ensures m == n
  {
    DecimalRoundTrip(m);
    DecimalRoundTrip(n);
  }
}
