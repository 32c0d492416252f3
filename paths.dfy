/** Path strings as Python builds them: `posixpath.join` and the decimal
    rendering of an integer inside an f-string. */
module Paths {

  predicate StartsWithSlash(s: string) {
    |s| > 0 && s[0] == '/'
  }

  predicate NoSlash(s: string) {
    forall k :: 0 <= k < |s| ==> s[k] != '/'
  }

  /** The separator `posixpath.join` puts after `a`: none when `a` is empty or
      already ends with a slash. */
  function Sep(a: string): string {
    if a == [] || a[|a| - 1] == '/' then "" else "/"
  }

  /** `os.path.join(a, b)` on POSIX: an absolute `b` discards `a`. */
  function Join(a: string, b: string): string {
    if StartsWithSlash(b) then b else a + Sep(a) + b
  }

  predicate IsDigit(c: char) {
    '0' <= c <= '9'
  }

  function Digit(d: nat): (c: char)
    requires d < 10
    ensures IsDigit(c)
  {
    "0123456789"[d]
  }

  /** The decimal text of `n`, as `f"{n}"` prints a non-negative int. */
  function NatToString(n: nat): (s: string)
    ensures |s| >= 1 && (n >= 10 ==> |s| >= 2)
    ensures forall k :: 0 <= k < |s| ==> IsDigit(s[k])
  {
    if n < 10 then [Digit(n)] else NatToString(n / 10) + [Digit(n % 10)]
  }

  /** `f"{i}"` for any int: a minus sign before the digits of a negative. */
  function IntToString(i: int): (s: string)
    ensures NoSlash(s)
    ensures |s| >= 1 && (s[0] == '-' <==> i < 0)
  {
    if i < 0 then "-" + NatToString(-i) else NatToString(i)
  }

  lemma DigitInjective(a: nat, b: nat)
    requires a < 10 && b < 10 && Digit(a) == Digit(b)
    ensures a == b
  {
  }

  /** Distinct numbers have distinct decimal texts. */
  lemma {:induction false} NatToStringInjective(a: nat, b: nat)
    requires NatToString(a) == NatToString(b)
    ensures a == b
  {
    var s := NatToString(a);
    if a < 10 && b < 10 {
      DigitInjective(a, b);
    } else if a >= 10 && b >= 10 {
      assert s[|s| - 1] == Digit(a % 10) && s[|s| - 1] == Digit(b % 10);
      DigitInjective(a % 10, b % 10);
      assert s[..|s| - 1] == NatToString(a / 10);
      assert s[..|s| - 1] == NatToString(b / 10);
      NatToStringInjective(a / 10, b / 10);
    }
  }

  /** Distinct ints have distinct f-string texts, negatives included. */
  lemma {:induction false} IntToStringInjective(i: int, j: int)
    requires IntToString(i) == IntToString(j)
    ensures i == j
  {
    if i < 0 && j < 0 {
      DigitsOfNegative(i);
      DigitsOfNegative(j);
      NatToStringInjective(-i, -j);
    } else if i >= 0 && j >= 0 {
      NatToStringInjective(i, j);
    }
  }

  lemma DigitsOfNegative(i: int)
    ensures i < 0 ==> IntToString(i)[1..] == NatToString(-i)
  {
  }

  /** Joining a relative name after a directory whose last component is
      `seg` puts exactly one slash between them. */
  lemma JoinBelow(dir: string, seg: string, file: string)
    requires |seg| > 0 && seg[|seg| - 1] != '/'
    requires !StartsWithSlash(seg) && !StartsWithSlash(file)
    ensures Join(Join(dir, seg), file) == dir + Sep(dir) + seg + "/" + file
  {
    var d := Join(dir, seg);
    assert d == dir + Sep(dir) + seg;
    assert d[|d| - 1] == seg[|seg| - 1];
  }

  /** Two paths that agree up to a slash-free component, then continue
      after a slash, have the same component. */
  lemma {:induction false} ComponentDetermined(p: string, x: string, y: string, f: string, g: string)
    requires NoSlash(x) && NoSlash(y)
    requires p + x + "/" + f == p + y + "/" + g
    ensures x == y
  {
    var s, t := p + x + "/" + f, p + y + "/" + g;
    if |x| < |y| {
      CharOfPath(p, x, f, |x|);
      CharOfPath(p, y, g, |x|);
      assert false;
    } else if |y| < |x| {
      CharOfPath(p, x, f, |y|);
      CharOfPath(p, y, g, |y|);
      assert false;
    }
    assert x == s[|p|..|p| + |x|];
    assert y == t[|p|..|p| + |y|];
  }

  /** A file below a directory component `pre + x` of `dir`: the path
      determines the slash-free `x` and the file name. */
  lemma NestedJoinKeyed(dir: string, pre: string, x: string, y: string, f: string, g: string)
    requires |pre| > 0 && pre[0] != '/'
    requires |x| > 0 && |y| > 0 && NoSlash(x) && NoSlash(y)
    requires !StartsWithSlash(f) && !StartsWithSlash(g)
    requires Join(Join(dir, pre + x), f) == Join(Join(dir, pre + y), g)
    ensures x == y && f == g
  {
    var p := dir + Sep(dir) + pre;
    assert p + x + "/" + f == p + y + "/" + g by {
      JoinBelow(dir, pre + x, f);
      JoinBelow(dir, pre + y, g);
      assert dir + Sep(dir) + (pre + x) == p + x;
      assert dir + Sep(dir) + (pre + y) == p + y;
    }
    ComponentDetermined(p, x, y, f, g);
    var q := p + x + "/";
    assert f == (q + f)[|q|..];
    assert g == (q + g)[|q|..];
  }

  /** Two joins below the same directory with the same relative prefix
      agree exactly when what follows the prefix agrees. */
  lemma JoinKeyed(dir: string, pre: string, x: string, y: string)
    requires |pre| > 0 && pre[0] != '/'
    requires Join(dir, pre + x) == Join(dir, pre + y)
    ensures x == y
  {
    var p := dir + Sep(dir) + pre;
    assert Join(dir, pre + x) == p + x;
    assert Join(dir, pre + y) == p + y;
    assert x == (p + x)[|p|..];
    assert y == (p + y)[|p|..];
  }

  lemma CharOfPath(p: string, x: string, f: string, k: nat)
    ensures k < |x| ==> (p + x + "/" + f)[|p| + k] == x[k]
    ensures k == |x| ==> (p + x + "/" + f)[|p| + k] == '/'
  {
  }

  lemma NatToStringNoSlash(n: nat)
    ensures NoSlash(NatToString(n))
  {
  }
}
