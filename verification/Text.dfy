/** White-space trimming: `strings.TrimSpace` of Go and `str.strip` of Python are one
    function over two white-space sets. */
module Text {

  /** The characters `strings.TrimSpace` removes. */
  predicate IsSpace(c: char) {
    || '\t' <= c <= '\r' || c == ' '
    || c == '\U{0085}' || c == '\U{00A0}' || c == '\U{1680}' || '\U{2000}' <= c <= '\U{200A}'
    || c == '\U{2028}' || c == '\U{2029}' || c == '\U{202F}' || c == '\U{205F}' || c == '\U{3000}'
  }

  /** The characters `str.strip` removes: Python counts four separators more. */
  predicate IsPythonSpace(c: char) {
    IsSpace(c) || '\U{001C}' <= c <= '\U{001F}'
  }

  function TrimLeft(space: char -> bool, s: string): (r: string) {
    if s != [] && space(s[0]) then TrimLeft(space, s[1..]) else s
  }

  function TrimRight(space: char -> bool, s: string): (r: string) {
    if s != [] && space(s[|s| - 1]) then TrimRight(space, s[..|s| - 1]) else s
  }

  function Trim(space: char -> bool, s: string): (r: string) {
    TrimRight(space, TrimLeft(space, s))
  }

  function TrimSpace(s: string): string { Trim(IsSpace, s) }

  function Strip(s: string): string { Trim(IsPythonSpace, s) }

  lemma {:induction false} TrimLeftShape(space: char -> bool, s: string)
    ensures var r := TrimLeft(space, s); |r| <= |s| && r == s[|s| - |r|..] && (r == [] || !space(r[0]))
  {
    if s != [] && space(s[0]) { TrimLeftShape(space, s[1..]); }
  }

  lemma {:induction false} TrimRightShape(space: char -> bool, s: string)
    ensures var r := TrimRight(space, s); |r| <= |s| && r == s[..|r|] && (r == [] || !space(r[|r| - 1]))
  {
    if s != [] && space(s[|s| - 1]) { TrimRightShape(space, s[..|s| - 1]); }
  }

  /** Trimming twice is trimming once, and a trimmed text is a part of the original. */
  lemma TrimIdempotent(space: char -> bool, s: string)
    ensures Trim(space, Trim(space, s)) == Trim(space, s)
    ensures forall c | c in Trim(space, s) :: c in s
  {
    TrimLeftShape(space, s);
    TrimRightShape(space, TrimLeft(space, s));
    var r := Trim(space, s);
    assert r == [] || (!space(r[0]) && !space(r[|r| - 1]));
    assert TrimLeft(space, r) == r;
    assert TrimRight(space, r) == r;
  }

  /** Trimming cuts white space, and only that, off both ends, until there is none. */
  lemma TrimExactly(space: char -> bool, s: string) returns (i: nat, j: nat)
    ensures i <= j <= |s| && Trim(space, s) == s[i..j]
    ensures forall k | 0 <= k < i || j <= k < |s| :: space(s[k])
    ensures i < j ==> !space(s[i]) && !space(s[j - 1])
  {
    i := TrimLeftCuts(space, s);
    var left := TrimLeft(space, s);
    var n := TrimRightCuts(space, left);
    j := i + n;
    assert s[i..][..n] == s[i..j];
    forall k | j <= k < |s| ensures space(s[k]) { assert s[k] == left[k - i]; }
    assert i < j ==> left[0] == s[i] && left[n - 1] == s[j - 1];
    TrimLeftShape(space, s);
  }

  lemma {:induction false} TrimLeftCuts(space: char -> bool, s: string) returns (i: nat)
    ensures i <= |s| && TrimLeft(space, s) == s[i..] && forall k | 0 <= k < i :: space(s[k])
  {
    if s != [] && space(s[0]) {
      var rest := TrimLeftCuts(space, s[1..]);
      i := rest + 1;
      assert s[1..][rest..] == s[i..];
      forall k | 0 <= k < i ensures space(s[k]) { if k > 0 { assert s[k] == s[1..][k - 1]; } }
    } else {
      i := 0;
    }
  }

  lemma {:induction false} TrimRightCuts(space: char -> bool, s: string) returns (n: nat)
    ensures n <= |s| && TrimRight(space, s) == s[..n] && forall k | n <= k < |s| :: space(s[k])
    ensures n > 0 ==> !space(s[n - 1])
  {
    if s != [] && space(s[|s| - 1]) {
      var rest := s[..|s| - 1];
      n := TrimRightCuts(space, rest);
      assert rest[..n] == s[..n];
      forall k | n <= k < |s| ensures space(s[k]) { if k < |s| - 1 { assert s[k] == rest[k]; } }
    } else {
      n := |s|;
      assert s[..n] == s;
    }
  }

  /** The two white-space sets by code: Unicode's White_Space, and four separators more. */
  lemma SpacesExactly(c: char)
    ensures IsSpace(c) <==>
              var n := c as int;
              n in {9, 10, 11, 12, 13, 32, 133, 160, 5760, 8232, 8233, 8239, 8287, 12288} || 8192 <= n <= 8202
    ensures IsPythonSpace(c) <==> IsSpace(c) || c as int in {28, 29, 30, 31}
  {
  }
}
