/**
 * Models of the JavaScript built-ins the player relies on: `String.prototype.split`,
 * `Array.prototype.join`, `indexOf`, `endsWith`, `includes`, `padStart` and the decimal
 * `toString` of a non-negative integer.
 */
module JsBuiltins {
  import opened Wrappers

  /** `sep` occurs in `s` starting at index `i`. */
  ghost predicate OccursAt(s: string, sep: string, i: int)
  {
    0 <= i && i + |sep| <= |s| && s[i..i + |sep|] == sep
  }

  /** `i` is the first index at which `sep` occurs in `s`. */
  ghost predicate FirstOccurrence(s: string, sep: string, i: int)
  {
    OccursAt(s, sep, i) && forall j :: 0 <= j < i ==> !OccursAt(s, sep, j)
  }

  /** Occurrences in a suffix are the occurrences of the whole shifted by the cut. */
  lemma OccursShift(s: string, sep: string, m: nat, j: nat)
    requires m <= |s|
    ensures OccursAt(s[m..], sep, j) <==> OccursAt(s, sep, m + j)
  {
    if 0 <= j && j + |sep| <= |s| - m {
      assert s[m..][j..j + |sep|] == s[m + j..m + j + |sep|];
    }
  }

  /** An occurrence inside a prefix is an occurrence of the whole. */
  lemma OccursInPrefix(s: string, sep: string, k: nat, j: int)
    requires k <= |s|
    ensures OccursAt(s[..k], sep, j) ==> OccursAt(s, sep, j)
  {
    if OccursAt(s[..k], sep, j) {
      assert s[..k][j..j + |sep|] == s[j..j + |sep|];
    }
  }

  /** A one-character separator occurs exactly where that character stands. */
  lemma OccursAtChar(s: string, c: char, j: int)
    ensures OccursAt(s, [c], j) <==> 0 <= j < |s| && s[j] == c
  {
    if 0 <= j < |s| {
      assert s[j..j + 1] == [s[j]];
    }
  }

  /** The index of the first occurrence of `sep` in `s`, the search behind `split`, `includes`. */
  function Find(s: string, sep: string): (r: Option<nat>)
    ensures r.Some? ==> FirstOccurrence(s, sep, r.value)
    ensures r.None? ==> forall j :: !OccursAt(s, sep, j)
    decreases |s|
  {
    if |s| < |sep| then None
    else if s[..|sep|] == sep then Some(0)
    else
      var rest := Find(s[1..], sep);
      assert forall j :: 1 <= j ==> (OccursAt(s, sep, j) <==> OccursAt(s[1..], sep, j - 1)) by {
        forall j | 1 <= j ensures OccursAt(s, sep, j) <==> OccursAt(s[1..], sep, j - 1) {
          OccursShift(s, sep, 1, j - 1);
        }
      }
      match rest
      case None => None
      case Some(i) => Some(i + 1)
  }

  /** `s.includes(sub)`: `sub` occurs somewhere in `s`. */
  function Includes(s: string, sub: string): (b: bool)
    ensures b <==> exists j :: OccursAt(s, sub, j)
  {
    Find(s, sub).Some?
  }

  /** `s.endsWith(suffix)`. */
  predicate EndsWith(s: string, suffix: string)
  {
    |suffix| <= |s| && s[|s| - |suffix|..] == suffix
  }

  /** `parts.join(sep)`. */
  function Join(parts: seq<string>, sep: string): string
    decreases |parts|
  {
    if |parts| == 0 then ""
    else if |parts| == 1 then parts[0]
    else parts[0] + sep + Join(parts[1..], sep)
  }

  /** Joining a list with a last element appended puts a separator before that element. */
  lemma {:induction false} JoinSnoc(parts: seq<string>, x: string, sep: string)
    requires |parts| >= 1
    ensures Join(parts + [x], sep) == Join(parts, sep) + sep + x
    decreases |parts|
  {
    if |parts| == 1 {
      assert (parts + [x])[1..] == [x];
    } else {
      assert (parts + [x])[1..] == parts[1..] + [x];
      JoinSnoc(parts[1..], x, sep);
    }
  }

  /**
   * `s.split(sep)` for a non-empty separator: the pieces between consecutive
   * non-overlapping occurrences, found from the left. Joining them back with `sep`
   * gives `s`, and no piece contains `sep`.
   */
  function Split(s: string, sep: string): (parts: seq<string>)
    requires |sep| > 0
    ensures |parts| >= 1
    ensures Join(parts, sep) == s
    ensures forall k :: 0 <= k < |parts| ==> Find(parts[k], sep).None?
    decreases |s|
  {
    match Find(s, sep)
    case None => [s]
    case Some(i) =>
      var rest := Split(s[i + |sep|..], sep);
      var parts := [s[..i]] + rest;
      assert s == s[..i] + sep + s[i + |sep|..] by {
        assert s[i..i + |sep|] == sep;
      }
      assert Find(s[..i], sep).None? by {
        forall j ensures !OccursAt(s[..i], sep, j) {
          OccursInPrefix(s, sep, i, j);
        }
      }
      parts
  }

  /**
   * Every cut of `split` is at the leftmost occurrence of `sep` in what remains
   * from the start of its piece on. With `Split`'s own contract this determines
   * the pieces: an overlapping separator is cut where it first starts.
   */
  lemma {:induction false} SplitCutsLeftmost(s: string, sep: string)
    requires |sep| > 0
    ensures LeftmostCuts(Split(s, sep), sep)
    decreases |s|
  {
    match Find(s, sep)
    case None =>
    case Some(i) =>
      var rest := Split(s[i + |sep|..], sep);
      assert Split(s, sep) == [s[..i]] + rest;
      SplitCutsLeftmost(s[i + |sep|..], sep);
      ConsCuts(s[..i], rest, sep);
  }

  /** Each piece but the last is followed by the leftmost occurrence of `sep` in what remains. */
  ghost predicate LeftmostCuts(parts: seq<string>, sep: string)
  {
    forall k :: 0 <= k < |parts| - 1 ==> Find(Join(parts[k..], sep), sep) == Some(|parts[k]|)
  }

  /** A piece cut at the leftmost occurrence, in front of pieces cut so, keeps them cut so. */
  lemma ConsCuts(x: string, rest: seq<string>, sep: string)
    requires LeftmostCuts(rest, sep)
    requires |rest| > 0 ==> Find(Join([x] + rest, sep), sep) == Some(|x|)
    ensures LeftmostCuts([x] + rest, sep)
  {
    var parts := [x] + rest;
    forall k | 0 <= k < |parts| - 1
      ensures Find(Join(parts[k..], sep), sep) == Some(|parts[k]|)
    {
      if k == 0 {
        assert parts[0..] == parts;
      } else {
        assert parts[k..] == rest[k - 1..];
      }
    }
  }

  /** Splitting on a one-character separator that `a` lacks separates `a` off first. */
  lemma SplitAfterFirstChar(a: string, c: char, b: string)
    requires c !in a
    ensures Split(a + [c] + b, [c]) == [a] + Split(b, [c])
  {
    var s := a + [c] + b;
    OccursAtChar(s, c, |a|);
    forall j | 0 <= j < |a| ensures !OccursAt(s, [c], j) {
      OccursAtChar(s, c, j);
    }
    assert Find(s, [c]) == Some(|a|);
    assert s[..|a|] == a && s[|a| + 1..] == b;
  }

  /** A string without the one-character separator splits into itself alone. */
  lemma SplitWithoutChar(s: string, c: char)
    requires c !in s
    ensures Split(s, [c]) == [s]
  {
    forall j ensures !OccursAt(s, [c], j) {
      OccursAtChar(s, c, j);
    }
  }

  /** Splitting on a one-character separator first found at `i` separates `q[..i]` off. */
  lemma SplitAtFirstChar(q: string, c: char, i: nat)
    requires i < |q| && q[i] == c
    requires forall j :: 0 <= j < i ==> q[j] != c
    ensures Split(q, [c]) == [q[..i]] + Split(q[i + 1..], [c])
  {
    assert q == q[..i] + [c] + q[i + 1..];
    assert c !in q[..i] by {
      forall j | 0 <= j < i ensures q[..i][j] != c {
      }
    }
    SplitAfterFirstChar(q[..i], c, q[i + 1..]);
  }

  /** Slicing `q + [c]` around an index of `q`. */
  lemma AppendSlices(q: string, c: char, i: nat)
    requires i < |q|
    ensures (q + [c])[..i] == q[..i] && (q + [c])[i + 1..] == q[i + 1..] + [c] && (q + [c])[i] == q[i]
  {
  }

  /** Putting an element in front and one at the back can be done in either order. */
  lemma ConsSnoc<T>(x: T, r: seq<T>, y: T)
    ensures [x] + (r + [y]) == ([x] + r) + [y]
  {
  }

  /** A trailing one-character separator adds one empty piece at the end. */
  lemma {:induction false} SplitTrailingChar(q: string, c: char)
    ensures Split(q + [c], [c]) == Split(q, [c]) + [""]
    decreases |q|
  {
    var s := q + [c];
    if c in q {
      var k :| 0 <= k < |q| && q[k] == c;
      var i := FirstCharIndex(q, c, k);
      var a, b := q[..i], q[i + 1..];
      var rest := Split(b, [c]);
      assert Split(q, [c]) == [a] + rest by {
        SplitAtFirstChar(q, c, i);
      }
      assert Split(s, [c]) == [a] + Split(b + [c], [c]) by {
        AppendSlices(q, c, i);
        SplitAtFirstChar(s, c, i);
      }
      SplitTrailingChar(b, c);
      ConsSnoc(a, rest, "");
    } else {
      assert s == q + [c] + "";
      SplitAfterFirstChar(q, c, "");
      SplitWithoutChar("", c);
      SplitWithoutChar(q, c);
    }
  }

  /** Some index of `c` in `q` below `k`, or `k`, that no earlier index of `c` precedes. */
  ghost function FirstCharIndex(q: string, c: char, k: nat): (i: nat)
    requires k < |q| && q[k] == c
    ensures i <= k && q[i] == c && forall j :: 0 <= j < i ==> q[j] != c
  {
    if exists j :: 0 <= j < k && q[j] == c then
      var j :| 0 <= j < k && q[j] == c; FirstCharIndex(q, c, j)
    else k
  }

  /** The last piece of `s.split(c)`: `s.split(c).pop()`. */
  function LastPiece(s: string, c: char): (r: string)
    ensures c !in r
    ensures EndsWith(s, r)
    ensures |r| == |s| || s[|s| - |r| - 1] == c
  {
    var parts := Split(s, [c]);
    var r := parts[|parts| - 1];
    assert c !in r by {
      forall j | 0 <= j < |r| ensures r[j] != c {
        OccursAtChar(r, c, j);
      }
    }
    if |parts| == 1 then r
    else
      var init := parts[..|parts| - 1];
      assert parts == init + [r];
      JoinSnoc(init, r, [c]);
      assert s == Join(init, [c]) + [c] + r;
      r
  }

  /** The last piece after a separator and a separator-free tail is that tail. */
  lemma LastPieceOfTail(a: string, c: char, x: string)
    requires c !in x
    ensures LastPiece(a + [c] + x, c) == x
  {
    var s := a + [c] + x;
    var r := LastPiece(s, c);
    assert s[|a|] == c;
    assert s[|s| - |x|..] == x;
  }

  /** `s.indexOf(x)`: the first index holding `x`, or -1. */
  function IndexOf<T(==)>(s: seq<T>, x: T): (i: int)
    ensures -1 <= i < |s|
    ensures i == -1 <==> x !in s
    ensures 0 <= i ==> s[i] == x && forall j :: 0 <= j < i ==> s[j] != x
    decreases |s|
  {
    if |s| == 0 then -1
    else if s[0] == x then 0
    else
      var k := IndexOf(s[1..], x);
      if k == -1 then -1 else k + 1
  }

  /** Every character of `t` is `c`. */
  ghost predicate Filled(t: string, c: char)
  {
    forall j :: 0 <= j < |t| ==> t[j] == c
  }

  /** `s.padStart(width, fill)`: `s` preceded by as many `fill` as bring it to `width`. */
  function PadStart(s: string, width: nat, fill: char): (r: string)
    ensures |r| == if |s| >= width then |s| else width
    ensures EndsWith(r, s)
    ensures Filled(r[..|r| - |s|], fill)
  {
    if |s| >= width then s else seq(width - |s|, _ => fill) + s
  }

  predicate IsDigit(c: char)
  {
    '0' <= c <= '9'
  }

  predicate AllDigits(s: string)
  {
    forall j :: 0 <= j < |s| ==> IsDigit(s[j])
  }

  function DigitChar(d: nat): (c: char)
    requires d < 10
    ensures IsDigit(c) && c as int - '0' as int == d
  {
    ['0', '1', '2', '3', '4', '5', '6', '7', '8', '9'][d]
  }

  /** The value of a string of decimal digits. */
  function DigitsValue(s: string): nat
    requires AllDigits(s)
    decreases |s|
  {
    if |s| == 0 then 0
    else DigitsValue(s[..|s| - 1]) * 10 + (s[|s| - 1] as int - '0' as int)
  }

  /** Leading zeros do not change the value of a digit string. */
  lemma {:induction false} LeadingZeros(k: nat, s: string)
    requires AllDigits(s)
    ensures AllDigits(seq(k, _ => '0') + s)
    ensures DigitsValue(seq(k, _ => '0') + s) == DigitsValue(s)
    decreases |s|
  {
    var z: string := seq(k, _ => '0');
    if |s| == 0 {
      assert z + s == z;
      ZerosValue(k);
    } else {
      var init := s[..|s| - 1];
      assert (z + s)[..|z + s| - 1] == z + init;
      LeadingZeros(k, init);
    }
  }

  lemma {:induction false} ZerosValue(k: nat)
    ensures AllDigits(seq(k, _ => '0'))
    ensures DigitsValue(seq(k, _ => '0')) == 0
  {
    if k > 0 {
      assert seq(k, _ => '0')[..k - 1] == seq(k - 1, _ => '0');
      ZerosValue(k - 1);
    }
  }

  /**
   * `n.toString()` for a non-negative integer: its decimal digits, without a leading
   * zero; one digit below 10, at most two below 100.
   */
  function NatToString(n: nat): (r: string)
    ensures AllDigits(r) && DigitsValue(r) == n
    ensures |r| >= 1 && (|r| > 1 ==> r[0] != '0')
    ensures (|r| == 1) == (n < 10)
    ensures (|r| <= 2) == (n < 100)
    decreases n
  {
    if n < 10 then [DigitChar(n)]
    else
      var init := NatToString(n / 10);
      var r := init + [DigitChar(n % 10)];
      assert r[..|r| - 1] == init;
      r
  }
}
