/** Text shared by several modules: white space, and the size of a text in UTF-8. A string here is a
    text of Unicode code points; a limit that the program sets on len(s) is a limit on its size. */
module Text {

  /** White space as strings.TrimSpace sees it. */
  predicate IsSpace(c: char) {
    || c in {'\t', '\n', '\U{0B}', '\U{0C}', '\r', ' ', '\U{85}', '\U{A0}', '\U{1680}'}
    || '\U{2000}' <= c <= '\U{200A}'
    || c in {'\U{2028}', '\U{2029}', '\U{202F}', '\U{205F}', '\U{3000}'}
  }

  function TrimLeft(s: string): string {
    if s != [] && IsSpace(s[0]) then TrimLeft(s[1..]) else s
  }

  function TrimRight(s: string): string {
    if s != [] && IsSpace(s[|s| - 1]) then TrimRight(s[..|s| - 1]) else s
  }

  function Trim(s: string): string {
    TrimRight(TrimLeft(s))
  }

  predicate Trimmed(s: string) {
    s == [] || (!IsSpace(s[0]) && !IsSpace(s[|s| - 1]))
  }

  lemma {:induction false} TrimLeftCuts(s: string) returns (i: nat)
    ensures i <= |s| && TrimLeft(s) == s[i..] && (TrimLeft(s) != [] ==> !IsSpace(TrimLeft(s)[0]))
    ensures forall k :: 0 <= k < i ==> IsSpace(s[k])
  {
    if s != [] && IsSpace(s[0]) {
      i := TrimLeftCuts(s[1..]);
      assert forall k :: 0 < k <= i ==> s[k] == s[1..][k - 1];
      i := i + 1;
    } else {
      i := 0;
    }
  }

  lemma {:induction false} TrimRightCuts(s: string) returns (j: nat)
    ensures j <= |s| && TrimRight(s) == s[..j] && (j > 0 ==> !IsSpace(s[j - 1]))
    ensures forall k :: j <= k < |s| ==> IsSpace(s[k])
    decreases |s|
  {
    if s != [] && IsSpace(s[|s| - 1]) {
      j := TrimRightCuts(s[..|s| - 1]);
    } else {
      j := |s|;
    }
  }

  /** White space by code point: tab to carriage return, the blank, and the Unicode blanks. */
  lemma SpacesAre(c: char)
    ensures var n := c as int;
      IsSpace(c) <==> (9 <= n <= 13 || n == 0x20 || n == 0x85 || n == 0xA0 || n == 0x1680
        || 0x2000 <= n <= 0x200A || n in {0x2028, 0x2029, 0x202F, 0x205F, 0x3000})
  {
  }

  /** Trimming yields a trimmed part of the string, and only white space goes. */
  lemma TrimCuts(s: string) returns (i: nat, j: nat)
    ensures i <= j <= |s| && Trim(s) == s[i..j] && Trimmed(Trim(s))
    ensures forall k :: 0 <= k < i || j <= k < |s| ==> IsSpace(s[k])
  {
    i := TrimLeftCuts(s);
    var t := TrimLeft(s);
    var n := TrimRightCuts(t);
    j := i + n;
    forall k | j <= k < |s| ensures IsSpace(s[k]) {
      assert s[k] == t[k - i];
    }
  }

  lemma TrimmedStays(s: string)
    requires Trimmed(s)
    ensures Trim(s) == s
  {
  }

  /** White space at the end makes no difference. */
  lemma {:induction false} TrimIgnoresTrailingSpace(s: string, c: char)
    requires IsSpace(c)
    ensures Trim(s + [c]) == Trim(s)
    decreases |s|
  {
    if s == [] {
      assert TrimLeft(s + [c]) == TrimLeft([c][1..]) == [];
    } else if IsSpace(s[0]) {
      assert (s + [c])[1..] == s[1..] + [c];
      TrimIgnoresTrailingSpace(s[1..], c);
    } else {
      assert (s + [c])[..|s|] == s;
    }
  }

  // ---------------------------------------------------------------- sizes

  /** Bytes of one code point in UTF-8. */
  function Size(c: char): nat {
    var n := c as int;
    if n < 0x80 then 1 else if n < 0x800 then 2 else if n < 0x1_0000 then 3 else 4
  }

  function Utf8Size(s: string): nat {
    if s == [] then 0 else Size(s[0]) + Utf8Size(s[1..])
  }

  lemma {:induction false} SizeAppends(s: string, t: string)
    ensures Utf8Size(s + t) == Utf8Size(s) + Utf8Size(t)
  {
    if s == [] {
      assert s + t == t;
    } else {
      assert (s + t)[1..] == s[1..] + t;
      SizeAppends(s[1..], t);
    }
  }

  /** A text is as large as its part before `i` and its part from `i` on. */
  lemma SizeSplits(s: string, i: nat)
    requires i <= |s|
    ensures Utf8Size(s) == Utf8Size(s[..i]) + Utf8Size(s[i..])
  {
    var front, back := s[..i], s[i..];
    assert s == front + back;
    SizeAppends(front, back);
  }

  /** Trimming does not make a text larger. */
  lemma TrimShrinks(s: string)
    ensures Utf8Size(Trim(s)) <= Utf8Size(s)
  {
    var i := TrimLeftCuts(s);
    SizeSplits(s, i);
    var t := TrimLeft(s);
    var j := TrimRightCuts(t);
    SizeSplits(t, j);
  }
}
