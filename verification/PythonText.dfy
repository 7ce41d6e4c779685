/** The string operations of Python that the audit tool uses. */
module PythonText {

  /** The characters that `str.strip` removes. */
  predicate IsSpace(c: char) {
    || '\U{0009}' <= c <= '\U{000D}' || '\U{001C}' <= c <= '\U{0020}' || c == '\U{0085}' || c == '\U{00A0}'
    || c == '\U{1680}' || '\U{2000}' <= c <= '\U{200A}' || c == '\U{2028}' || c == '\U{2029}' || c == '\U{202F}'
    || c == '\U{205F}' || c == '\U{3000}'
  }

  /** They are the ASCII controls 9 to 13 and 28 to 31, the space, and the Unicode spaces and separators. */
  lemma SpacesAre(c: char)
    ensures IsSpace(c) <==> c as int in {9, 10, 11, 12, 13, 28, 29, 30, 31, 32, 133, 160, 5760, 8192, 8193, 8194, 8195, 8196,
                                         8197, 8198, 8199, 8200, 8201, 8202, 8232, 8233, 8239, 8287, 12288}
  {
  }

  predicate AllSpace(s: string) {
    forall i :: 0 <= i < |s| ==> IsSpace(s[i])
  }

  function StripLeft(s: string): string {
    if s != "" && IsSpace(s[0]) then StripLeft(s[1..]) else s
  }

  function StripRight(s: string): string {
    if s != "" && IsSpace(s[|s|-1]) then StripRight(s[..|s|-1]) else s
  }

  function Strip(s: string): string {
    StripRight(StripLeft(s))
  }

  /** Text that starts and ends with a character that is not removed. */
  predicate Trimmed(s: string) {
    s == "" || (!IsSpace(s[0]) && !IsSpace(s[|s|-1]))
  }

  predicate StartsWith(s: string, prefix: string) {
    prefix <= s
  }

  lemma {:induction false} StripLeftPad(left: string, s: string)
    requires AllSpace(left) && s != "" && !IsSpace(s[0])
    ensures StripLeft(left + s) == s
  {
    if left == "" {
      assert left + s == s;
    } else {
      assert (left + s)[1..] == left[1..] + s;
      StripLeftPad(left[1..], s);
    }
  }

  lemma {:induction false} StripRightPad(s: string, right: string)
    requires AllSpace(right) && s != "" && !IsSpace(s[|s|-1])
    ensures StripRight(s + right) == s
  {
    if right == "" {
      assert s + right == s;
    } else {
      assert (s + right)[..|s + right|-1] == s + right[..|right|-1];
      StripRightPad(s, right[..|right|-1]);
    }
  }

  /** Stripping removes exactly the padding. */
  lemma StripPadded(left: string, s: string, right: string)
    requires AllSpace(left) && AllSpace(right) && Trimmed(s) && s != ""
    ensures Strip(left + s + right) == s
  {
    assert left + s + right == left + (s + right);
    StripLeftPad(left, s + right);
    StripRightPad(s, right);
  }

  lemma {:induction false} StripLeftTrims(s: string)
    ensures var r := StripLeft(s);
            && (r == "" || !IsSpace(r[0]))
            && |r| <= |s| && r == s[|s|-|r|..]
            && AllSpace(s[..|s|-|r|])
  {
    if s != "" && IsSpace(s[0]) {
      StripLeftTrims(s[1..]);
      var r := StripLeft(s[1..]);
      assert s[..|s|-|r|] == [s[0]] + s[1..][..|s|-1-|r|];
    }
  }

  lemma {:induction false} StripRightTrims(s: string)
    ensures var r := StripRight(s);
            && (r == "" || !IsSpace(r[|r|-1]))
            && r <= s && AllSpace(s[|r|..])
  {
    if s != "" && IsSpace(s[|s|-1]) {
      StripRightTrims(s[..|s|-1]);
      var r := StripRight(s[..|s|-1]);
      assert s[|r|..] == s[..|s|-1][|r|..] + [s[|s|-1]];
    }
  }

  lemma StripTrims(s: string)
    ensures Trimmed(Strip(s))
    ensures Strip(s) == "" ==> AllSpace(s)
  {
    StripLeftTrims(s);
    StripRightTrims(StripLeft(s));
    var l := StripLeft(s);
    assert s == s[..|s|-|l|] + l;
    assert Strip(s) == "" ==> l == l[0..];
  }
}
