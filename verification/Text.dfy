/** The ASCII part of Python's text handling that the model needs: decimal printing and parsing, `strip`, `lower`. */
module Text {

  predicate IsDigit(c: char) {
    '0' <= c <= '9'
  }

  /** `str.isdigit`. */
  predicate IsDigits(s: string) {
    s != [] && forall i :: 0 <= i < |s| ==> IsDigit(s[i])
  }

  function Digit(d: nat): (c: char)
    requires d < 10
    ensures IsDigit(c) && c == "0123456789"[d]
  {
    ('0' as int + d) as char
  }

  /** `str(n)`. */
  function Show(n: nat): string {
    if n < 10 then [Digit(n)] else Show(n / 10) + [Digit(n % 10)]
  }

  function ShowInt(z: int): string {
    if z < 0 then "-" + Show(-z) else Show(z)
  }

  /** `int(s)` on digits. */
  function Read(s: string): nat
    requires IsDigits(s)
  {
    var last := s[|s| - 1] as int - '0' as int;
    if |s| == 1 then last else Read(s[..|s| - 1]) * 10 + last
  }

  /** Reading undoes printing. */
  lemma {:induction false} ReadShow(n: nat)
    ensures IsDigits(Show(n)) && Read(Show(n)) == n
  {
    if n >= 10 {
      ReadShow(n / 10);
      var s := Show(n);
      assert s[..|s| - 1] == Show(n / 10);
    }
  }

  lemma ShowExample()
    ensures Show(120) == "120" && Read("120") == 120 && ShowInt(-7) == "-7"
  {
    assert Show(12) == Show(1) + [Digit(2)] == "12";
    assert Show(120) == Show(12) + [Digit(0)];
    ReadShow(120);
  }

  lemma ShowInjective(m: nat, n: nat)
    requires Show(m) == Show(n)
    ensures m == n
  {
    ReadShow(m);
    ReadShow(n);
  }

  predicate IsSpace(c: char) {
    c == ' ' || '\t' <= c <= '\r' || '\U{1C}' <= c <= '\U{1F}'
  }

  function StripLeft(s: string): string {
    if s != [] && IsSpace(s[0]) then StripLeft(s[1..]) else s
  }

  function StripRight(s: string): string {
    if s != [] && IsSpace(s[|s| - 1]) then StripRight(s[..|s| - 1]) else s
  }

  /** `str.strip`. */
  function Strip(s: string): string {
    StripRight(StripLeft(s))
  }

  function LowerChar(c: char): (l: char)
    ensures 'A' <= c <= 'Z' ==> l == "abcdefghijklmnopqrstuvwxyz"[c as int - 'A' as int]
  {
    if 'A' <= c <= 'Z' then (c as int + 32) as char else c
  }

  /** `str.lower`. */
  function Lower(s: string): (r: string)
    ensures |r| == |s| && forall i :: 0 <= i < |s| ==> r[i] == LowerChar(s[i])
  {
    seq(|s|, i requires 0 <= i < |s| => LowerChar(s[i]))
  }

  /** `str(...).strip().lower()`. */
  function Clean(s: string): string {
    Lower(Strip(s))
  }

  /** No space at either end and no upper-case letter: what cleaning produces and leaves alone. */
  predicate IsClean(s: string) {
    && (s != [] ==> !IsSpace(s[0]) && !IsSpace(s[|s| - 1]))
    && forall i :: 0 <= i < |s| ==> !('A' <= s[i] <= 'Z')
  }

  lemma {:induction false} StripRightKeepsHead(s: string)
    requires s != [] ==> !IsSpace(s[0])
    ensures var r := StripRight(s); r != [] ==> !IsSpace(r[0]) && !IsSpace(r[|r| - 1])
    decreases |s|
  {
    if s != [] && IsSpace(s[|s| - 1]) {
      StripRightKeepsHead(s[..|s| - 1]);
    }
  }

  lemma {:induction false} StripLeftHead(s: string)
    ensures var r := StripLeft(s); r != [] ==> !IsSpace(r[0])
    decreases |s|
  {
    if s != [] && IsSpace(s[0]) {
      StripLeftHead(s[1..]);
    }
  }

  ghost predicate AllSpace(s: string) {
    forall i :: 0 <= i < |s| ==> IsSpace(s[i])
  }

  lemma {:induction false} StripLeftParts(s: string) returns (left: string)
    ensures s == left + StripLeft(s) && AllSpace(left)
    decreases |s|
  {
    if s != [] && IsSpace(s[0]) {
      var rest := StripLeftParts(s[1..]);
      left := [s[0]] + rest;
    } else {
      left := [];
    }
  }

  lemma {:induction false} StripRightParts(s: string) returns (right: string)
    ensures s == StripRight(s) + right && AllSpace(right)
    decreases |s|
  {
    if s != [] && IsSpace(s[|s| - 1]) {
      var n := |s| - 1;
      var rest := StripRightParts(s[..n]);
      right := rest + [s[n]];
    } else {
      right := [];
    }
  }

  /** Stripping removes spaces at the two ends, all of them, and nothing else. */
  lemma StripParts(s: string) returns (left: string, right: string)
    ensures s == left + Strip(s) + right && AllSpace(left) && AllSpace(right)
    ensures Strip(s) != [] ==> !IsSpace(Strip(s)[0]) && !IsSpace(Strip(s)[|Strip(s)| - 1])
  {
    left := StripLeftParts(s);
    right := StripRightParts(StripLeft(s));
    StripLeftHead(s);
    StripRightKeepsHead(StripLeft(s));
  }

  lemma CleanIsClean(s: string)
    ensures IsClean(Clean(s))
  {
    StripLeftHead(s);
    StripRightKeepsHead(StripLeft(s));
  }

  lemma CleanFixed(s: string)
    requires IsClean(s)
    ensures Clean(s) == s
  {
    assert Strip(s) == s;
    assert Lower(s) == s;
  }

  lemma ShowIsClean(z: int)
    ensures IsClean(ShowInt(z)) && ShowInt(z) != []
    ensures IsDigits(ShowInt(z)) <==> z >= 0
  {
    ReadShow(if z < 0 then -z else z);
    if z < 0 {
      var s := ShowInt(z);
      assert s[1..] == Show(-z);
      assert s[0] == '-';
      forall i | 0 <= i < |s| ensures !('A' <= s[i] <= 'Z') {
        assert i == 0 || s[i] == s[1..][i - 1];
      }
      assert s[|s| - 1] == s[1..][|s| - 2];
    }
  }
}
