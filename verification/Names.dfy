/** Numbers and separators inside generated names, and names that several components spell alike. */
module Names {

  /** Namespace and name, as a key. */
  function Qualified(namespace: string, name: string): string {
    namespace + ":" + name
  }

  /** The name an EDS cluster is looked up under: its service name, or else its own. */
  function EdsName(name: string, serviceName: string): string {
    if serviceName == "" then name else serviceName
  }

  function Digit(d: nat): char
    requires d < 10
  {
    '0' + d as char
  }

  /** The %d form of a natural number. */
  function Dec(n: nat): (s: string)
    ensures s != []
  {
    if n < 10 then [Digit(n)] else Dec(n / 10) + [Digit(n % 10)]
  }

  lemma {:induction false} DecInjective(m: nat, n: nat)
    requires Dec(m) == Dec(n)
    ensures m == n
  {
    var x, y := Dec(m), Dec(n);
    assert x[|x| - 1] == Digit(m % 10) && y[|y| - 1] == Digit(n % 10);
    assert m % 10 == n % 10;
    if m >= 10 && n >= 10 {
      assert x[..|x| - 1] == Dec(m / 10) && y[..|y| - 1] == Dec(n / 10);
      DecInjective(m / 10, n / 10);
    }
  }

  predicate Free(c: char, s: string) {
    forall i :: 0 <= i < |s| ==> s[i] != c
  }

  lemma {:induction false} DecFree(c: char, n: nat)
    requires !('0' <= c <= '9')
    ensures Free(c, Dec(n))
  {
    if n >= 10 {
      DecFree(c, n / 10);
    }
  }

  /** A text splits in one way at its last separator. */
  lemma LastSeparator(c: char, a: string, x: string, b: string, y: string)
    requires a + [c] + x == b + [c] + y && Free(c, x) && Free(c, y)
    ensures a == b && x == y
  {
    var s, t := a + [c] + x, b + [c] + y;
    assert s[|a|] == c && t[|b|] == c;
    assert forall i :: |a| < i < |s| ==> s[i] == x[i - |a| - 1];
    assert forall i :: |b| < i < |t| ==> t[i] == y[i - |b| - 1];
    assert |a| == |b|;
    assert a == s[..|a|] && b == t[..|b|];
    assert x == s[|a| + 1..] && y == t[|b| + 1..];
  }

  /** A text splits in one way at its first separator. */
  lemma FirstSeparator(c: char, a: string, x: string, b: string, y: string)
    requires a + [c] + x == b + [c] + y && Free(c, a) && Free(c, b)
    ensures a == b && x == y
  {
    var s, t := a + [c] + x, b + [c] + y;
    assert s[|a|] == c && t[|b|] == c;
    assert forall i :: 0 <= i < |a| ==> s[i] == a[i];
    assert forall i :: 0 <= i < |b| ==> t[i] == b[i];
    assert |a| == |b|;
    assert a == s[..|a|] && b == t[..|b|];
    assert x == s[|a| + 1..] && y == t[|b| + 1..];
  }
}
