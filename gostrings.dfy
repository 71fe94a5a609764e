/** The parts of Go's runtime and standard library that the renderer relies on:
    integer division on `int`, `strings.Repeat`, the `%*s` verb of `fmt.Sprintf`,
    and (as reference definitions for the properties) trimming and counting.
    Strings are `seq<char>` holding ASCII text, so Go's `len` (bytes) is `|s|`. */
module GoStrings {
  import opened Wrappers

  /** Go's `/` on `int`: the quotient is truncated toward zero. */
  function Quo(a: int, b: int): (q: int)
    requires b != 0
    ensures 0 <= a && 0 < b ==> q == a / b
  {
    if a >= 0 then (if b > 0 then a / b else -(a / -b))
    else (if b > 0 then -((-a) / b) else (-a) / (-b))
  }

  /** Go's `%` on `int`: the remainder has the sign of the dividend. */
  function Rem(a: int, b: int): (r: int)
    requires b != 0
    ensures 0 <= a && 0 < b ==> r == a % b
  {
    a - b * Quo(a, b)
  }

  function Abs(n: int): nat
  {
    if n < 0 then -n else n
  }

  /** Truncated division: the quotient and remainder rebuild the dividend,
      the remainder is smaller than the divisor and takes the dividend's sign,
      and negating the dividend negates the quotient. */
  lemma TruncatedDivision(a: int, b: int)
    requires b != 0
    ensures a == b * Quo(a, b) + Rem(a, b)
    ensures Abs(Rem(a, b)) < Abs(b)
    ensures 0 <= a ==> 0 <= Rem(a, b)
    ensures a <= 0 ==> Rem(a, b) <= 0
    ensures Quo(-a, b) == -Quo(a, b)
  {
  }

  /** The test `padding%2 == 1` holds exactly for positive odd paddings; a
      negative odd padding leaves the remainder -1. */
  lemma RemTwo(a: int)
    ensures Rem(a, 2) == 1 <==> 0 < a && a % 2 == 1
    ensures Rem(a, 2) == -1 <==> a < 0 && a % 2 == 1
  {
  }

  /** `n` copies of `c`. */
  function Run(c: char, n: nat): (r: string)
    ensures |r| == n
    ensures forall i :: 0 <= i < n ==> r[i] == c
  {
    seq(n, _ => c)
  }

  /** `strings.Repeat` on a one-character string: a negative count panics. */
  function Repeat(c: char, count: int): (r: Option<string>)
    ensures r.Some? <==> count >= 0
    ensures count >= 0 ==> r == Some(Run(c, count))
  {
    if count < 0 then None else Some(Run(c, count))
  }

  /** The largest width `fmt` accepts from a `*` argument, and what it writes
      in place of one beyond it. */
  const MaxWidth := 1000000
  const BadWidth := "%!(BADWIDTH)"

  predicate WidthTooLarge(width: int)
  {
    width > MaxWidth || width < -MaxWidth
  }

  /** The `%*s` verb of `fmt.Sprintf`: `s` right-justified in a field of
      `width` characters; a negative width left-justifies, as the `-` flag does.
      A width beyond a million is refused: the verb writes `BadWidth` and then
      `s` without padding. */
  function FormatWidth(s: string, width: int): (r: string)
    ensures WidthTooLarge(width) ==> r == BadWidth + s
    ensures !WidthTooLarge(width) && -|s| <= width <= |s| ==> r == s
    ensures !WidthTooLarge(width) ==>
      |r| == if width >= 0 then (if |s| < width then width else |s|)
             else (if |s| < -width then -width else |s|)
  {
    if WidthTooLarge(width) then BadWidth + s
    else if width >= 0 then (if |s| < width then Run(' ', width - |s|) + s else s)
    else (if |s| < -width then s + Run(' ', -width - |s|) else s)
  }

  /** `s` without its leading blanks. */
  function TrimLeft(s: string): (r: string)
    ensures r == [] || r[0] != ' '
  {
    if s != [] && s[0] == ' ' then TrimLeft(s[1..]) else s
  }

  /** `s` without its trailing blanks. */
  function TrimRight(s: string): (r: string)
    ensures r == [] || r[|r| - 1] != ' '
  {
    if s != [] && s[|s| - 1] == ' ' then TrimRight(s[..|s| - 1]) else s
  }

  /** `strings.Trim(s, " ")`: `s` without its leading and trailing blanks. */
  function TrimBlanks(s: string): string
  {
    TrimRight(TrimLeft(s))
  }

  /** True when `s` neither starts nor ends with a blank. */
  predicate NoOuterBlanks(s: string)
  {
    s == [] || (s[0] != ' ' && s[|s| - 1] != ' ')
  }

  lemma {:induction false} TrimLeftRun(n: nat, t: string)
    requires t == [] || t[0] != ' '
    ensures TrimLeft(Run(' ', n) + t) == t
  {
    if n > 0 {
      assert (Run(' ', n) + t)[1..] == Run(' ', n - 1) + t;
      TrimLeftRun(n - 1, t);
    } else {
      assert Run(' ', n) + t == t;
    }
  }

  lemma {:induction false} TrimRightRun(t: string, n: nat)
    requires t == [] || t[|t| - 1] != ' '
    ensures TrimRight(t + Run(' ', n)) == t
  {
    if n > 0 {
      assert (t + Run(' ', n))[..|t| + n - 1] == t + Run(' ', n - 1);
      TrimRightRun(t, n - 1);
    } else {
      assert t + Run(' ', n) == t;
    }
  }

  /** Trimming `a` blanks, then `s`, then `b` blanks gives back `s`. */
  lemma TrimBlanksPadded(a: nat, s: string, b: nat)
    requires NoOuterBlanks(s)
    ensures TrimBlanks(Run(' ', a) + s + Run(' ', b)) == s
  {
    if s == [] {
      assert Run(' ', a) + s + Run(' ', b) == Run(' ', a + b) + [];
      TrimLeftRun(a + b, []);
    } else {
      assert Run(' ', a) + s + Run(' ', b) == Run(' ', a) + (s + Run(' ', b));
      TrimLeftRun(a, s + Run(' ', b));
      TrimRightRun(s, b);
    }
  }

  /** `strings.Count` for a one-character separator. */
  function Count(c: char, s: string): (n: nat)
    ensures n <= |s|
  {
    if s == [] then 0 else (if s[0] == c then 1 else 0) + Count(c, s[1..])
  }

  lemma {:induction false} CountConcat(c: char, a: string, b: string)
    ensures Count(c, a + b) == Count(c, a) + Count(c, b)
  {
    if a != [] {
      assert (a + b)[1..] == a[1..] + b;
      CountConcat(c, a[1..], b);
    } else {
      assert a + b == b;
    }
  }

  lemma {:induction false} CountAbsent(c: char, s: string)
    requires forall i :: 0 <= i < |s| ==> s[i] != c
    ensures Count(c, s) == 0
  {
    if s != [] {
      CountAbsent(c, s[1..]);
    }
  }
}
