/** Character classes and small string operations shared by both calculators. */
module Text {

  predicate IsDigit(c: char) {
    '0' <= c <= '9'
  }

  /** A keypad digit. */
  type Digit = c: char | IsDigit(c) witness '0'

  /** The four characters the expression service treats as operators. */
  predicate IsOperatorChar(c: char) {
    c == '+' || c == '-' || c == '*' || c == '/'
  }

  /** Number of occurrences of `c` in `s`. */
  function Count(s: string, c: char): (n: nat)
    ensures n <= |s|
    ensures n == 0 <==> c !in s
  {
    if s == [] then 0 else (if s[0] == c then 1 else 0) + Count(s[1..], c)
  }

  lemma {:induction false} CountAppend(a: string, b: string, c: char)
    ensures Count(a + b, c) == Count(a, c) + Count(b, c)
  {
    if a == [] {
      assert a + b == b;
    } else {
      assert (a + b)[1..] == a[1..] + b;
      CountAppend(a[1..], b, c);
    }
  }

  /** `s.slice(0, -1)`: all but the last character; the empty string stays empty. */
  function DropLast(s: string): (r: string)
    ensures |s| > 0 ==> r + [s[|s| - 1]] == s
    ensures |s| == 0 ==> r == s
  {
    if |s| == 0 then s else s[..|s| - 1]
  }

  /** `s.slice(-1)` is one of `+ - * /`. */
  predicate EndsWithOperator(s: string) {
    |s| > 0 && IsOperatorChar(s[|s| - 1])
  }

  /** No two operator characters stand next to each other. */
  predicate NoAdjacentOperators(s: string) {
    forall i :: 0 < i < |s| ==> !(IsOperatorChar(s[i - 1]) && IsOperatorChar(s[i]))
  }

  lemma DropLastKeepsNoAdjacent(s: string)
    requires NoAdjacentOperators(s)
    ensures NoAdjacentOperators(DropLast(s))
  {
  }

  /** Joining two operator-clean strings creates no adjacent pair unless an operator meets an operator at the seam. */
  lemma ConcatKeepsNoAdjacent(s: string, t: string)
    requires NoAdjacentOperators(s) && NoAdjacentOperators(t)
    requires !(EndsWithOperator(s) && |t| > 0 && IsOperatorChar(t[0]))
    ensures NoAdjacentOperators(s + t)
  {
    var u := s + t;
    forall i | 0 < i < |u|
      ensures !(IsOperatorChar(u[i - 1]) && IsOperatorChar(u[i]))
    {
      if i < |s| {
        assert u[i - 1] == s[i - 1] && u[i] == s[i];
      } else if i == |s| {
        assert u[i - 1] == s[|s| - 1] && u[i] == t[0];
      } else {
        assert u[i - 1] == t[i - 1 - |s|] && u[i] == t[i - |s|];
      }
    }
  }
}
