/** The text helpers that validation code shares. */
module Text {

  predicate IsSpace(c: char) {
    c == ' ' || '\t' <= c <= '\r' || '\U{1C}' <= c <= '\U{1F}'
  }

  function TrimLeft(s: string): string {
    if s != "" && IsSpace(s[0]) then TrimLeft(s[1..]) else s
  }

  function TrimRight(s: string): string {
    if s != "" && IsSpace(s[|s| - 1]) then TrimRight(s[..|s| - 1]) else s
  }

  /** `str.strip`, on ASCII white space. */
  function Strip(s: string): string {
    TrimRight(TrimLeft(s))
  }

  predicate Blank(s: string) {
    Strip(s) == ""
  }

  predicate AllSpace(s: string) {
    forall c <- s :: IsSpace(c)
  }

  lemma {:induction false} TrimLeftTrims(s: string) returns (left: string)
    ensures s == left + TrimLeft(s) && AllSpace(left)
    ensures TrimLeft(s) != "" ==> !IsSpace(TrimLeft(s)[0])
    decreases |s|
  {
    left := "";
    if s != "" && IsSpace(s[0]) {
      var more := TrimLeftTrims(s[1..]);
      left := [s[0]] + more;
    }
  }

  lemma {:induction false} TrimRightTrims(s: string) returns (right: string)
    ensures s == TrimRight(s) + right && AllSpace(right)
    ensures TrimRight(s) != "" ==> !IsSpace(TrimRight(s)[|TrimRight(s)| - 1])
    decreases |s|
  {
    right := "";
    if s != "" && IsSpace(s[|s| - 1]) {
      var more := TrimRightTrims(s[..|s| - 1]);
      right := more + [s[|s| - 1]];
    }
  }

  /** Stripping takes off white space at both ends, and all of it. */
  lemma StripTrims(s: string) returns (left: string, right: string)
    ensures s == left + Strip(s) + right && AllSpace(left) && AllSpace(right)
    ensures Strip(s) != "" ==> !IsSpace(Strip(s)[0]) && !IsSpace(Strip(s)[|Strip(s)| - 1])
  {
    hide IsSpace, TrimLeft, TrimRight;
    left := TrimLeftTrims(s);
    right := TrimRightTrims(TrimLeft(s));
    var t := TrimLeft(s);
    assert Strip(s) != "" ==> Strip(s)[0] == t[0];
  }

  /** A text is blank iff it is all white space. */
  lemma BlankIff(s: string)
    ensures Blank(s) <==> AllSpace(s)
  {
    hide IsSpace, Strip;
    var left, right := StripTrims(s);
    if !Blank(s) { assert Strip(s)[0] in s; }
  }
}
