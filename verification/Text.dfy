// Whitespace handling of Python strings.
module Text {

  // `str.isspace` for one character, which is also what `\s` matches.
  predicate IsSpace(c: char) {
    var n := c as int;
    || 0x09 <= n <= 0x0D || 0x1C <= n <= 0x20 || n == 0x85 || n == 0xA0 || n == 0x1680
    || 0x2000 <= n <= 0x200A || n == 0x2028 || n == 0x2029 || n == 0x202F || n == 0x205F || n == 0x3000
  }

  function StripLeft(s: string): (r: string)
    ensures |r| <= |s| && (s != "" && IsSpace(s[0]) ==> |r| < |s|)
  {
    if s != "" && IsSpace(s[0]) then StripLeft(s[1..]) else s
  }

  function StripRight(s: string): string {
    if s != "" && IsSpace(s[|s| - 1]) then StripRight(s[..|s| - 1]) else s
  }

  // `s.strip()`
  function Strip(s: string): string {
    StripRight(StripLeft(s))
  }

  // What `strip` leaves: a part of the text with the blanks at both ends gone and nothing else.
  lemma {:induction false} StripLeftPart(s: string)
    ensures |StripLeft(s)| <= |s| && StripLeft(s) == s[|s| - |StripLeft(s)|..]
    ensures forall i | 0 <= i < |s| - |StripLeft(s)| :: IsSpace(s[i])
    ensures StripLeft(s) != "" ==> !IsSpace(StripLeft(s)[0])
  {
    if s != "" && IsSpace(s[0]) {
      StripLeftPart(s[1..]);
      forall i | 0 <= i < |s| - |StripLeft(s)| ensures IsSpace(s[i]) {
        if i > 0 { assert s[i] == s[1..][i - 1]; }
      }
    }
  }

  lemma {:induction false} StripRightPart(s: string)
    ensures |StripRight(s)| <= |s| && StripRight(s) == s[..|StripRight(s)|]
    ensures forall i | |StripRight(s)| <= i < |s| :: IsSpace(s[i])
    ensures StripRight(s) != "" ==> !IsSpace(StripRight(s)[|StripRight(s)| - 1])
  {
    if s != "" && IsSpace(s[|s| - 1]) { StripRightPart(s[..|s| - 1]); }
  }

  lemma StripPart(s: string) returns (a: nat, b: nat)
    ensures a <= b <= |s| && Strip(s) == s[a..b]
    ensures forall i | 0 <= i < a :: IsSpace(s[i])
    ensures forall i | b <= i < |s| :: IsSpace(s[i])
    ensures a < b ==> !IsSpace(s[a]) && !IsSpace(s[b - 1])
    ensures a == b ==> forall i | 0 <= i < |s| :: IsSpace(s[i])
  {
    StripLeftPart(s);
    var t := StripLeft(s);
    StripRightPart(t);
    a := |s| - |t|;
    b := a + |StripRight(t)|;
    assert Strip(s) == s[a..b];
    forall i | b <= i < |s| ensures IsSpace(s[i]) { assert s[i] == t[i - a]; }
    if a < b {
      assert s[a] == t[0] && s[b - 1] == t[b - 1 - a];
    }
  }

  lemma StripOfPadded(left: string, text: string, right: string)
    requires text != "" && !IsSpace(text[0]) && !IsSpace(text[|text| - 1])
    requires (forall i | 0 <= i < |left| :: IsSpace(left[i])) && forall i | 0 <= i < |right| :: IsSpace(right[i])
    ensures Strip(left + text + right) == text
  {
    var s := left + text + right;
    var a, b := StripPart(s);
    assert s[|left|] == text[0] && s[|left| + |text| - 1] == text[|text| - 1];
    assert forall i | |left| + |text| <= i < |s| :: s[i] == right[i - |left| - |text|];
    assert forall i | 0 <= i < |left| :: s[i] == left[i];
    hide IsSpace, Strip;
    assert a == |left| && b == |left| + |text|;
    assert s[a..b] == text;
  }

  // A word ends at position `i`.
  predicate WordEnd(s: string, i: int) {
    0 <= i < |s| && !IsSpace(s[i]) && (i == |s| - 1 || IsSpace(s[i + 1]))
  }

  // `len(s.split())`: the number of maximal runs of non-space characters.
  function WordCount(s: string): nat {
    |WordEnds(s)|
  }

  function WordEnds(s: string): set<int> {
    set i | 0 <= i < |s| && WordEnd(s, i)
  }

  lemma WordsOfNothing()
    ensures WordCount("") == 0
  {
    assert WordEnds("") == {};
  }

  // A text without white space is one word.
  lemma OneWord(s: string)
    requires s != "" && forall i | 0 <= i < |s| :: !IsSpace(s[i])
    ensures WordCount(s) == 1
  {
    assert WordEnds(s) == {|s| - 1};
  }

  // A further character begins a word unless it is white space or goes on with one.
  lemma OneMoreCharacter(s: string, c: char)
    ensures WordCount(s + [c]) == WordCount(s) + if !IsSpace(c) && (s == "" || IsSpace(s[|s| - 1])) then 1 else 0
  {
    var n, before, after := |s|, WordEnds(s), WordEnds(s + [c]);
    EndsOfMore(s, c);
    hide WordEnds, IsSpace;
    SameBut(before, after, n);
  }

  lemma SameBut(before: set<int>, after: set<int>, n: int)
    requires forall i | i < n - 1 :: i in after <==> i in before
    requires (forall i | i >= n :: i !in before) && forall i | i > n :: i !in after
    ensures |after| == |before| - (if n - 1 in before && n - 1 !in after then 1 else 0)
      + (if n - 1 in after && n - 1 !in before then 1 else 0) + (if n in after then 1 else 0)
  {
    var fewer, rest := before - {n - 1}, after - {n - 1} - {n};
    forall i ensures i in rest <==> i in fewer {}
    assert rest == fewer;
    Without(before, n - 1);
    Without(after, n - 1);
    Without(after - {n - 1}, n);
  }

  lemma Without(s: set<int>, x: int)
    ensures |s - {x}| == |s| - if x in s then 1 else 0
  {
    if x in s { assert s == s - {x} + {x}; } else { assert s - {x} == s; }
  }

  lemma EndsOfMore(s: string, c: char)
    ensures var n, before, after := |s|, WordEnds(s), WordEnds(s + [c]);
      && (forall i | i < n - 1 :: i in after <==> i in before) && (forall i | i >= n :: i !in before)
      && (n == 0 ==> n - 1 !in before && n - 1 !in after)
      && (n > 0 ==> (n - 1 in before <==> !IsSpace(s[n - 1])))
      && (n > 0 ==> (n - 1 in after <==> !IsSpace(s[n - 1]) && IsSpace(c)))
      && (n in after <==> !IsSpace(c)) && (forall i | i > n :: i !in after)
  {
    hide IsSpace;
  }

  // White space separates words and adds none.
  lemma {:induction false} WordsAcrossSpace(s: string, c: char, t: string)
    requires IsSpace(c)
    ensures WordCount(s + [c] + t) == WordCount(s) + WordCount(t)
    decreases |t|
  {
    if t == "" {
      OneMoreCharacter(s, c);
      WordsOfNothing();
      assert s + [c] + t == s + [c];
    } else {
      var init, last := t[..|t| - 1], t[|t| - 1];
      hide WordCount, IsSpace;
      WordsAcrossSpace(s, c, init);
      OneMoreCharacter(init, last);
      OneMoreCharacter(s + [c] + init, last);
      assert s + [c] + t == s + [c] + init + [last] && t == init + [last];
    }
  }
}
