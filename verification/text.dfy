/** The string operations the source uses: `toLowerCase`, `trim`,
    `includes`, `startsWith`, `padEnd`, `padStart`, `repeat`, `join` and
    decimal rendering of a whole number; `split` is here only as the inverse
    of `join`, to read a table back into its lines. */
module Text {
  import opened Wrappers
  import Seqs

  /** ECMAScript white space and line terminators: the characters `trim`
      removes. */
  predicate IsSpace(c: char) {
    || c == '\t' || c == '\n' || c == '\U{000B}' || c == '\U{000C}' || c == '\r'
    || c == ' ' || c == '\U{00A0}' || c == '\U{1680}' || ('\U{2000}' <= c <= '\U{200A}')
    || c == '\U{2028}' || c == '\U{2029}' || c == '\U{202F}' || c == '\U{205F}'
    || c == '\U{3000}' || c == '\U{FEFF}'
  }

  predicate AllSpace(s: string) {
    forall i | 0 <= i < |s| :: IsSpace(s[i])
  }

  /** Lower-casing of one character (ASCII letters only). */
  function LowerChar(c: char): char {
    if 'A' <= c <= 'Z' then (c as int + 32) as char else c
  }

  /** `s.toLowerCase()` */
  function Lower(s: string): string {
    seq(|s|, i requires 0 <= i < |s| => LowerChar(s[i]))
  }

  lemma LowerConcat(a: string, b: string)
    ensures Lower(a + b) == Lower(a) + Lower(b)
  {
  }

  /** Lower-casing leaves white space alone, so it does not change what
      `trim` removes. */
  lemma LowerKeepsSpace(s: string)
    ensures AllSpace(Lower(s)) <==> AllSpace(s)
  {
    forall i | 0 <= i < |s|
      ensures IsSpace(Lower(s)[i]) <==> IsSpace(s[i])
    {
      if 'A' <= s[i] <= 'Z' {
        assert 'a' <= Lower(s)[i] <= 'z';
      }
    }
  }

  /** `s.trimStart()`: the suffix of `s` left after its leading white space. */
  function TrimStart(s: string): (r: string)
    ensures |r| <= |s| && r == s[|s| - |r|..]
    ensures AllSpace(s[..|s| - |r|])
    ensures |r| > 0 ==> !IsSpace(r[0])
  {
    if |s| > 0 && IsSpace(s[0]) then TrimStart(s[1..]) else s
  }

  /** `s.trimEnd()`: the prefix of `s` left after its trailing white space. */
  function TrimEnd(s: string): (r: string)
    ensures |r| <= |s| && r == s[..|r|]
    ensures AllSpace(s[|r|..])
    ensures |r| > 0 ==> !IsSpace(r[|r| - 1])
  {
    if |s| > 0 && IsSpace(s[|s| - 1]) then TrimEnd(s[..|s| - 1]) else s
  }

  /** `s.trim()` */
  function Trim(s: string): string {
    TrimEnd(TrimStart(s))
  }

  /** A string is all white space when its first character is and the
      rest is. */
  lemma AllSpaceTail(s: string)
    requires |s| > 0
    ensures AllSpace(s) <==> IsSpace(s[0]) && AllSpace(s[1..])
  {
    assert forall i | 1 <= i < |s| :: s[i] == s[1..][i - 1];
  }

  lemma {:induction false} TrimStartConcat(s: string, t: string)
    ensures TrimStart(s + t) == if AllSpace(s) then TrimStart(t) else TrimStart(s) + t
  {
    if |s| == 0 {
      assert s + t == t;
    } else {
      var st := s + t;
      assert st[0] == s[0];
      if IsSpace(s[0]) {
        assert st[1..] == s[1..] + t;
        assert TrimStart(st) == TrimStart(s[1..] + t);
        assert TrimStart(s) == TrimStart(s[1..]);
        TrimStartConcat(s[1..], t);
        AllSpaceTail(s);
      } else {
        assert !AllSpace(s);
        assert TrimStart(st) == st;
        assert TrimStart(s) == s;
      }
    }
  }

  lemma {:induction false} TrimEndSpaces(s: string, b: string)
    requires AllSpace(b)
    ensures TrimEnd(s + b) == TrimEnd(s)
  {
    if |b| > 0 {
      assert (s + b)[..|s + b| - 1] == s + b[..|b| - 1];
      TrimEndSpaces(s, b[..|b| - 1]);
    } else {
      assert s + b == s;
    }
  }

  /** White space around a string does not survive `trim`. */
  lemma {:induction false} TrimSurrounding(a: string, s: string, b: string)
    requires AllSpace(a) && AllSpace(b)
    ensures Trim(a + s + b) == Trim(s)
  {
    var whole := a + s + b;
    assert whole == a + (s + b);
    TrimStartConcat(a, s + b);
    assert TrimStart(whole) == TrimStart(s + b);
    TrimStartConcat(s, b);
    if AllSpace(s) {
      TrimStartConcat(b, []);
      assert b + [] == b;
      TrimStartConcat(s, []);
      assert s + [] == s;
      assert TrimStart(whole) == [] && TrimStart(s) == [];
    } else {
      assert TrimStart(whole) == TrimStart(s) + b;
      TrimEndSpaces(TrimStart(s), b);
    }
  }

  /** `s.includes(q)`: `q` occurs in `s` at some position; the empty string
      occurs everywhere. */
  predicate Contains(s: string, q: string) {
    exists i | 0 <= i <= |s| - |q| :: OccursAt(s, q, i)
  }

  predicate OccursAt(s: string, q: string, i: nat) {
    i + |q| <= |s| && s[i..i + |q|] == q
  }

  /** `s.startsWith(p)` */
  predicate StartsWith(s: string, p: string) {
    |p| <= |s| && s[..|p|] == p
  }

  /** `c.repeat(n)` for a one-character string `c`. */
  function Repeat(c: char, n: nat): (r: string)
    ensures |r| == n
    ensures forall i | 0 <= i < n :: r[i] == c
  {
    seq(n, _ => c)
  }

  /** `s.padEnd(n)`: `s` followed by spaces up to width `n`. */
  function PadEnd(s: string, n: int): (r: string)
    ensures |r| == if |s| < n then n else |s|
    ensures r[..|s|] == s
    ensures forall i | |s| <= i < |r| :: r[i] == ' '
  {
    if |s| < n then s + Repeat(' ', n - |s|) else s
  }

  /** `s.padStart(n)`: spaces up to width `n`, then `s`. */
  function PadStart(s: string, n: int): (r: string)
    ensures |r| == if |s| < n then n else |s|
    ensures r[|r| - |s|..] == s
    ensures forall i | 0 <= i < |r| - |s| :: r[i] == ' '
  {
    if |s| < n then Repeat(' ', n - |s|) + s else s
  }

  /** `parts.join(sep)` */
  function Join(parts: seq<string>, sep: string): string {
    if |parts| == 0 then ""
    else if |parts| == 1 then parts[0]
    else parts[0] + sep + Join(parts[1..], sep)
  }

  /** `Join` yields the empty string exactly for no parts, or for a single
      empty part. */
  lemma JoinEmpty(parts: seq<string>, sep: string)
    requires |sep| > 0
    ensures Join(parts, sep) == "" <==> parts == [] || parts == [""]
  {
    if |parts| >= 2 {
      assert |Join(parts, sep)| >= |sep|;
    }
  }

  /** The position of the first `c` in `s`. */
  function IndexOf(s: string, c: char): Option<nat> {
    Seqs.FindFirst(s, x => x == c)
  }

  /** `s.split(c)` for a one-character separator. */
  function Split(s: string, c: char): (r: seq<string>)
    ensures |r| > 0
    decreases |s|
  {
    match IndexOf(s, c)
    case None => [s]
    case Some(i) => [s[..i]] + Split(s[i + 1..], c)
  }

  /** Splitting a joined list gives the list back when no part contains the
      separator. */
  lemma {:induction false} SplitJoin(parts: seq<string>, c: char)
    requires |parts| > 0
    requires forall k | 0 <= k < |parts| :: c !in parts[k]
    ensures Split(Join(parts, [c]), c) == parts
  {
    if |parts| == 1 {
      assert IndexOf(parts[0], c).None?;
    } else {
      var a, b := parts[0], Join(parts[1..], [c]);
      var s := a + [c] + b;
      assert s[|a|] == c;
      match IndexOf(s, c)
      case None =>
        assert false;
      case Some(i) =>
        assert i == |a|;
        assert s[..i] == a;
        assert s[i + 1..] == b;
        SplitJoin(parts[1..], c);
    }
  }

  function DigitChar(d: nat): char
    requires d < 10
  {
    "0123456789"[d]
  }

  predicate IsDigit(c: char) {
    '0' <= c <= '9'
  }

  /** The decimal rendering of `n`, as a template literal produces it. */
  function NatToString(n: nat): string
    decreases n
  {
    if n < 10 then [DigitChar(n)] else NatToString(n / 10) + [DigitChar(n % 10)]
  }

  /** The number a string of decimal digits denotes. */
  function DecimalValue(s: string): nat
    requires forall i | 0 <= i < |s| :: IsDigit(s[i])
  {
    if |s| == 0 then 0
    else
      var last := s[|s| - 1];
      assert IsDigit(last);
      DecimalValue(s[..|s| - 1]) * 10 + (last as int - '0' as int)
  }

  /** Rendering a number in decimal and reading it back gives the number. */
  lemma {:induction false} DecimalRoundTrip(n: nat)
    ensures forall i | 0 <= i < |NatToString(n)| :: IsDigit(NatToString(n)[i])
    ensures DecimalValue(NatToString(n)) == n
    decreases n
  {
    if n >= 10 {
      DecimalRoundTrip(n / 10);
      var s := NatToString(n);
      assert s[..|s| - 1] == NatToString(n / 10);
    }
  }

  function Pow10(k: nat): nat {
    if k == 0 then 1 else 10 * Pow10(k - 1)
  }

  /** A number takes at most `k` decimal digits exactly when it is below
      `10^k`. */
  lemma {:induction false} DecimalWidth(n: nat, k: nat)
    requires k >= 1
    ensures |NatToString(n)| <= k <==> n < Pow10(k)
    decreases n
  {
    if n >= 10 {
      if k == 1 {
        assert Pow10(1) == 10;
        assert |NatToString(n)| >= 2;
      } else {
        DecimalWidth(n / 10, k - 1);
      }
    } else {
      assert Pow10(k) >= 10 by {
        if k > 1 {
          Pow10Grows(k - 1);
        }
      }
    }
  }

  lemma {:induction false} Pow10Grows(k: nat)
    ensures Pow10(k) >= 1
  {
    if k > 0 {
      Pow10Grows(k - 1);
    }
  }
}
