/** Letter case, string order and the names App Runner accepts (all ASCII). */
module Text {
  function LowerChar(c: char): char {
    if 'A' <= c <= 'Z' then (c as int + 32) as char else c
  }

  function Lower(s: string): (r: string)
    ensures |r| == |s|
    ensures forall i :: 0 <= i < |s| ==> r[i] == LowerChar(s[i])
  {
    seq(|s|, i requires 0 <= i < |s| => LowerChar(s[i]))
  }

  predicate EqualFold(a: string, b: string) {
    Lower(a) == Lower(b)
  }

  lemma LowerIdempotent(s: string)
    ensures Lower(Lower(s)) == Lower(s)
  {
  }

  predicate AlphaNumeric(c: char) {
    'a' <= c <= 'z' || 'A' <= c <= 'Z' || '0' <= c <= '9'
  }

  /** A name for a Linux network interface (internal/validate/validate.go:26-38). */
  predicate InterfaceName(name: string) {
    && 1 <= |name| <= 15 && AlphaNumeric(name[0]) && name != "lo"
    && forall i :: 0 <= i < |name| ==> AlphaNumeric(name[i]) || name[i] in "_.-"
  }

  /** A DNS hostname label (internal/validate/validate.go:42-57). */
  predicate DnsLabel(name: string) {
    && 1 <= |name| <= 63 && name[0] != '-' && name[|name| - 1] != '-'
    && forall i :: 0 <= i < |name| ==> AlphaNumeric(name[i]) || name[i] == '-'
  }

  lemma LowerIsLabel(name: string)
    requires DnsLabel(name)
    ensures DnsLabel(Lower(name))
  {
    var lower := Lower(name);
    forall i | 0 <= i < |lower|
      ensures AlphaNumeric(lower[i]) || lower[i] == '-'
    {
      assert lower[i] == LowerChar(name[i]);
    }
  }

  /** Go's order on strings. */
  predicate Before(a: string, b: string) {
    if b == [] then false
    else if a == [] then true
    else a[0] < b[0] || (a[0] == b[0] && Before(a[1..], b[1..]))
  }

  lemma {:induction false} BeforeTrichotomy(a: string, b: string)
    ensures Before(a, b) || Before(b, a) || a == b
    ensures !(Before(a, b) && Before(b, a)) && !Before(a, a)
    decreases |a|
  {
    if a != [] {
      BeforeTrichotomy(a[1..], a[1..]);
      if b != [] {
        BeforeTrichotomy(a[1..], b[1..]);
        if a[0] == b[0] && a[1..] == b[1..] {
          assert a == [a[0]] + a[1..] && b == [b[0]] + b[1..];
        }
      }
    }
  }

  lemma {:induction false} BeforeTransitive(a: string, b: string, c: string)
    requires Before(a, b) && Before(b, c)
    ensures Before(a, c)
    decreases |a|
  {
    if a != [] && a[0] == b[0] && b[0] == c[0] {
      BeforeTransitive(a[1..], b[1..], c[1..]);
    }
  }
}
