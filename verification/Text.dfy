/** The few string functions of the standard library that the panel leans on. */
module Text {
  predicate Blank(c: char) {
    c == ' ' || c == '\t' || c == '\n' || c == '\U{0B}' || c == '\U{0C}' || c == '\r'
  }

  function TrimLeft(s: string): string {
    if s != "" && Blank(s[0]) then TrimLeft(s[1..]) else s
  }

  function TrimRight(s: string): string {
    if s != "" && Blank(s[|s| - 1]) then TrimRight(s[..|s| - 1]) else s
  }

  function TrimSpace(s: string): string { TrimRight(TrimLeft(s)) }

  /** strings.TrimRight with a one-character cutset. */
  function TrimRightOf(s: string, c: char): string {
    if s != "" && s[|s| - 1] == c then TrimRightOf(s[..|s| - 1], c) else s
  }

  function ReplaceAll(s: string, a: char, b: char): (r: string)
    ensures |r| == |s|
    ensures forall i :: 0 <= i < |s| ==> r[i] == if s[i] == a then b else s[i]
  {
    seq(|s|, i requires 0 <= i < |s| => if s[i] == a then b else s[i])
  }

  function UpperChar(c: char): char {
    if 'a' <= c <= 'z' then c - 'a' + 'A' else c
  }

  /** SQL's UPPER, which folds ASCII letters. */
  function Upper(s: string): string {
    seq(|s|, i requires 0 <= i < |s| => UpperChar(s[i]))
  }

  lemma {:induction false} TrimNothing(s: string)
    requires s != "" ==> !Blank(s[0]) && !Blank(s[|s| - 1])
    ensures TrimSpace(s) == s
  {}

  /** What has been trimmed has nothing left to trim. */
  lemma {:induction false} TrimTwice(s: string)
    ensures TrimSpace(TrimSpace(s)) == TrimSpace(s)
  {
    TrimLeftEnds(s);
    TrimRightEnds(TrimLeft(s));
    TrimNothing(TrimSpace(s));
  }

  lemma {:induction false} TrimLeftEnds(s: string)
    ensures TrimLeft(s) != "" ==> !Blank(TrimLeft(s)[0])
  {
    if s != "" && Blank(s[0]) { TrimLeftEnds(s[1..]); }
  }

  lemma {:induction false} TrimRightEnds(s: string)
    ensures var t := TrimRight(s); t <= s && (t != "" ==> !Blank(t[|t| - 1]))
    decreases |s|
  {
    if s != "" && Blank(s[|s| - 1]) { TrimRightEnds(s[..|s| - 1]); }
  }

  /** White space around a text goes, whatever is inside stays. */
  lemma {:induction false} TrimIsCore(before: string, s: string, after: string)
    requires forall i :: 0 <= i < |before| ==> Blank(before[i])
    requires forall i :: 0 <= i < |after| ==> Blank(after[i])
    requires s != "" && !Blank(s[0]) && !Blank(s[|s| - 1])
    ensures TrimSpace(before + s + after) == s
  {
    TrimLeftCore(before, s + after);
    assert before + (s + after) == before + s + after;
    TrimRightCore(s, after);
  }

  lemma {:induction false} TrimLeftCore(before: string, s: string)
    requires forall i :: 0 <= i < |before| ==> Blank(before[i])
    requires s != "" && !Blank(s[0])
    ensures TrimLeft(before + s) == s
  {
    if before == "" {
      assert before + s == s;
    } else {
      TrimLeftCore(before[1..], s);
      assert (before + s)[1..] == before[1..] + s;
    }
  }

  lemma {:induction false} TrimRightCore(s: string, after: string)
    requires forall i :: 0 <= i < |after| ==> Blank(after[i])
    requires s != "" && !Blank(s[|s| - 1])
    ensures TrimRight(s + after) == s
    decreases |after|
  {
    if after == "" {
      assert s + after == s;
    } else {
      var n := |after| - 1;
      TrimRightCore(s, after[..n]);
      assert (s + after)[..|s + after| - 1] == s + after[..n];
    }
  }

  predicate OnlyCase(c: char, d: char) {
    || c == d
    || ('a' <= c <= 'z' && c - 'a' + 'A' == d)
    || ('a' <= d <= 'z' && d - 'a' + 'A' == c)
  }

  /** Two texts are alike in capitals exactly if they differ in the case of ASCII letters only. */
  lemma {:induction false} UpperIgnoresCase(s: string, t: string)
    ensures Upper(s) == Upper(t) <==> |s| == |t| && forall i :: 0 <= i < |s| ==> OnlyCase(s[i], t[i])
  {
    if Upper(s) == Upper(t) {
      assert |s| == |Upper(s)| == |t|;
      forall i | 0 <= i < |s| ensures UpperChar(s[i]) == UpperChar(t[i]) {
        assert Upper(s)[i] == Upper(t)[i];
      }
    }
  }
}
