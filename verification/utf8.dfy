/** Well-formed UTF-8 (table 3-7 of the Unicode standard), as the line reader checks it. */
module Utf8 {
  type Byte = b: int | 0 <= b < 256

  predicate Cont(b: Byte) {
    0x80 <= b < 0xC0
  }

  predicate SecondOk(lead: Byte, b: Byte) {
    if lead == 0xE0 then 0xA0 <= b < 0xC0
    else if lead == 0xED then 0x80 <= b < 0xA0
    else if lead == 0xF0 then 0x90 <= b < 0xC0
    else if lead == 0xF4 then 0x80 <= b < 0x90
    else Cont(b)
  }

  /** The length of the well-formed character in front, or 0 when there is none. */
  function FirstChar(s: seq<Byte>): (n: nat)
    ensures n <= 4 && n <= |s|
    ensures n > 0 ==> !Cont(s[0]) && forall i | 0 < i < n :: Cont(s[i])
  {
    if s == [] then 0
    else if s[0] < 0x80 then 1
    else if 0xC2 <= s[0] < 0xE0 then if |s| >= 2 && Cont(s[1]) then 2 else 0
    else if 0xE0 <= s[0] < 0xF0 then if |s| >= 3 && SecondOk(s[0], s[1]) && Cont(s[2]) then 3 else 0
    else if 0xF0 <= s[0] < 0xF5 then
      if |s| >= 4 && SecondOk(s[0], s[1]) && Cont(s[2]) && Cont(s[3]) then 4 else 0
    else 0
  }

  predicate Text(s: seq<Byte>) {
    s == [] || (FirstChar(s) > 0 && Text(s[FirstChar(s)..]))
  }

  /** A position between two characters of a text. */
  predicate Boundary(s: seq<Byte>, k: nat)
    requires k <= |s|
  {
    k == |s| || !Cont(s[k])
  }

  lemma FirstCharOf(a: seq<Byte>, b: seq<Byte>)
    requires FirstChar(a) > 0
    ensures FirstChar(a + b) == FirstChar(a)
    ensures (a + b)[FirstChar(a)..] == a[FirstChar(a)..] + b
  {
  }

  lemma {:induction false} TextPrefix(a: seq<Byte>, b: seq<Byte>)
    requires Text(a)
    ensures Text(a + b) <==> Text(b)
  {
    if a == [] {
      assert a + b == b;
    } else {
      TextPrefix(a[FirstChar(a)..], b);
      FirstCharOf(a, b);
    }
  }

  /** A text cut short is still a text exactly when the cut falls between characters. */
  lemma {:induction false} CutText(s: seq<Byte>, k: nat)
    requires Text(s) && k <= |s|
    ensures Text(s[..k]) <==> Boundary(s, k)
  {
    if k > 0 {
      var n := FirstChar(s);
      if n <= k {
        CutText(s[n..], k - n);
        assert s[n..][..k - n] == s[..k][n..];
        assert FirstChar(s[..k]) == n;
        assert k < |s| ==> s[n..][k - n] == s[k];
      } else {
        assert FirstChar(s[..k]) == 0;
      }
    } else {
      assert s[..k] == [];
    }
  }
}
