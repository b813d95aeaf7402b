/** Python's notion of white space, str.strip and str.startswith. */
module Text {
  predicate IsSpace(c: char) {
    var n := c as int;
    || 0x09 <= n <= 0x0D || 0x1C <= n <= 0x20 || n == 0x85 || n == 0xA0 || n == 0x1680
    || 0x2000 <= n <= 0x200A || n == 0x2028 || n == 0x2029 || n == 0x202F || n == 0x205F || n == 0x3000
  }

  function StripLeft(s: string): string {
    if s != "" && IsSpace(s[0]) then StripLeft(s[1..]) else s
  }

  function StripRight(s: string): string {
    if s != "" && IsSpace(s[|s| - 1]) then StripRight(s[..|s| - 1]) else s
  }

  function Strip(s: string): string { StripRight(StripLeft(s)) }

  /** not s.strip() */
  predicate Blank(s: string) { forall c :: c in s ==> IsSpace(c) }

  predicate StartsWith(t: string, prefix: string) {
    |prefix| <= |t| && t[..|prefix|] == prefix
  }

  lemma {:induction false} StripLeftEmpty(s: string)
    ensures StripLeft(s) == "" <==> Blank(s)
    ensures StripLeft(s) != "" ==> !IsSpace(StripLeft(s)[0])
  {
    if s != "" && IsSpace(s[0]) {
      StripLeftEmpty(s[1..]);
      assert s == [s[0]] + s[1..];
    } else if s != "" {
      assert s[0] in s;
    }
  }

  lemma {:induction false} StripRightKeepsFirst(s: string)
    requires s != "" && !IsSpace(s[0])
    ensures StripRight(s) != "" && StripRight(s)[0] == s[0]
  {
    if IsSpace(s[|s| - 1]) {
      StripRightKeepsFirst(s[..|s| - 1]);
    }
  }

  /** Stripping leaves nothing exactly of blank text. */
  lemma StripBlank(s: string)
    ensures Strip(s) == "" <==> Blank(s)
  {
    StripLeftEmpty(s);
    if !Blank(s) {
      StripRightKeepsFirst(StripLeft(s));
    }
  }

  /** t is s without the white space at its ends. */
  ghost predicate Trimmed(s: string, t: string) {
    && (exists i, j :: TrimAt(s, t, i, j))
    && (t != "" ==> !IsSpace(t[0]) && !IsSpace(t[|t| - 1]))
  }

  lemma {:induction false} StripLeftAt(s: string) returns (i: nat)
    ensures i <= |s| && StripLeft(s) == s[i..] && Blank(s[..i])
  {
    if s != "" && IsSpace(s[0]) {
      var k := StripLeftAt(s[1..]);
      i := k + 1;
      assert s[..i] == [s[0]] + s[1..][..k];
    } else {
      i := 0;
    }
  }

  lemma {:induction false} StripRightAt(s: string) returns (j: nat)
    ensures j <= |s| && StripRight(s) == s[..j] && Blank(s[j..])
    ensures j > 0 ==> !IsSpace(s[j - 1])
  {
    if s != "" && IsSpace(s[|s| - 1]) {
      var n := |s| - 1;
      j := StripRightAt(s[..n]);
      assert s[j..] == s[..n][j..] + [s[n]];
      assert s[..n][..j] == s[..j];
    } else {
      j := |s|;
      assert s[..j] == s;
    }
  }

  /** Stripping takes the white space off both ends, and nothing else. */
  lemma StripTrims(s: string)
    ensures Trimmed(s, Strip(s))
  {
    var i := StripLeftAt(s);
    var t := s[i..];
    var j := StripRightAt(t);
    assert Strip(s) == t[..j] == s[i..i + j];
    assert s[i + j..] == t[j..];
    assert TrimAt(s, Strip(s), i, i + j);
    StripLeftEmpty(s);
  }

  lemma BlankEnds(s: string, i: nat, j: nat, k: nat)
    requires i <= j <= |s| && k < |s| && Blank(s[..i]) && Blank(s[j..]) && !IsSpace(s[k])
    ensures i <= k < j
  {
    assert forall m :: 0 <= m < i ==> IsSpace(s[m]) by {
      forall m | 0 <= m < i ensures IsSpace(s[m]) { assert s[..i][m] == s[m]; }
    }
    assert forall m :: j <= m < |s| ==> IsSpace(s[m]) by {
      forall m | j <= m < |s| ensures IsSpace(s[m]) { assert s[j..][m - j] == s[m]; }
    }
  }

  ghost predicate TrimAt(s: string, t: string, i: int, j: int) {
    0 <= i <= j <= |s| && t == s[i..j] && Blank(s[..i]) && Blank(s[j..])
  }

  lemma TrimmedBlank(s: string, t: string)
    requires Trimmed(s, t)
    ensures t == "" <==> Blank(s)
  {
    var i, j :| TrimAt(s, t, i, j);
    assert s == s[..i] + s[i..j] + s[j..];
    if t != "" { assert t[0] in s; }
  }

  lemma TrimmedAt(s: string, t: string, i: int, j: int, u: string, k: int, l: int)
    requires TrimAt(s, t, i, j) && TrimAt(s, u, k, l) && i < j && k < l
    requires !IsSpace(t[0]) && !IsSpace(t[|t| - 1]) && !IsSpace(u[0]) && !IsSpace(u[|u| - 1])
    ensures t == u
  {
    assert t[0] == s[i] && t[|t| - 1] == s[j - 1] && u[0] == s[k] && u[|u| - 1] == s[l - 1];
    BlankEnds(s, i, j, k);
    BlankEnds(s, i, j, l - 1);
    BlankEnds(s, k, l, i);
    BlankEnds(s, k, l, j - 1);
  }

  /** There is one way to trim. */
  lemma TrimmedOnce(s: string, t: string, u: string)
    requires Trimmed(s, t) && Trimmed(s, u)
    ensures t == u
  {
    TrimmedBlank(s, t);
    TrimmedBlank(s, u);
    if t != "" {
      var i, j :| TrimAt(s, t, i, j);
      var k, l :| TrimAt(s, u, k, l);
      TrimmedAt(s, t, i, j, u, k, l);
    }
  }
}
