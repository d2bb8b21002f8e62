// `chunk_text`: overlapping windows over the whitespace-normalised text.
module Chunking {
  import opened Text
  import opened Arithmetic

  // `re.sub(r"\s+", " ", s)`
  function Collapse(s: string): string
    decreases |s|
  {
    if s == "" then ""
    else if IsSpace(s[0]) then " " + Collapse(StripLeft(s))
    else [s[0]] + Collapse(s[1..])
  }

  function Normalize(s: string): string {
    Strip(Collapse(s))
  }

  // The only white space is single blanks between other characters.
  ghost predicate SingleSpaced(s: string) {
    forall i | 0 <= i < |s| && IsSpace(s[i]) :: s[i] == ' ' && (i + 1 < |s| ==> !IsSpace(s[i + 1]))
  }

  ghost predicate Normal(s: string) {
    SingleSpaced(s) && (s != "" ==> !IsSpace(s[0]) && !IsSpace(s[|s| - 1]))
  }

  lemma {:induction false} CollapseIsSingleSpaced(s: string)
    ensures SingleSpaced(Collapse(s))
    ensures Collapse(s) != "" ==> s != "" && (IsSpace(Collapse(s)[0]) <==> IsSpace(s[0]))
    ensures Collapse(s) != "" ==> IsSpace(Collapse(s)[0]) || Collapse(s)[0] == s[0]
    decreases |s|
  {
    if s != "" {
      if IsSpace(s[0]) {
        StripLeftPart(s);
        CollapseIsSingleSpaced(StripLeft(s));
      } else {
        CollapseIsSingleSpaced(s[1..]);
      }
    }
  }

  lemma NormalizeIsNormal(s: string)
    ensures Normal(Normalize(s))
  {
    var c := Collapse(s);
    CollapseIsSingleSpaced(s);
    var a, b := StripPart(c);
    var t := c[a..b];
    forall i | 0 <= i < |t| && IsSpace(t[i]) ensures t[i] == ' ' && (i + 1 < |t| ==> !IsSpace(t[i + 1])) {
      assert t[i] == c[a + i];
    }
  }

  ghost predicate NonSpace(text: string, i: int, j: int) {
    0 <= i <= j <= |text| && forall m | i <= m < j :: !IsSpace(text[m])
  }

  // `c` repeats `s[i..j]` from position `at`, between the same neighbours or between blanks.
  ghost predicate Repeats(s: string, i: int, j: int, c: string, at: int) {
    && 0 <= i < j <= |s| && 0 <= at <= at + (j - i) <= |c| && c[at..at + (j - i)] == s[i..j]
    && (at == 0 || IsSpace(c[at - 1]) || (i > 0 && c[at - 1] == s[i - 1]))
    && (at + (j - i) == |c| || IsSpace(c[at + (j - i)]) || (j < |s| && c[at + (j - i)] == s[j]))
  }

  lemma {:induction false} CollapseRepeats(s: string, i: int, j: int) returns (at: int)
    requires i < j && NonSpace(s, i, j)
    ensures Repeats(s, i, j, Collapse(s), at) && at >= 0 && (i == 0 <==> at == 0)
    decreases |s|, 1
  {
    hide *;
    InBounds(s, i, j);
    if IsSpace(s[0]) {
      var d := |s| - |StripLeft(s)|;
      TailIsNonSpace(s, i, j);
      at := CollapseRepeats(s[d..], i - d, j - d);
      CollapseBlank(s);
      Shift(s, d, i, j, Collapse(s[d..]), at, ' ');
      at := at + 1;
    } else {
      CollapseHead(s);
      at := HeadRepeats(s, i, j);
    }
  }

  lemma InBounds(s: string, i: int, j: int)
    requires i < j && NonSpace(s, i, j)
    ensures 0 <= i < j <= |s|
  {
  }

  lemma {:induction false} HeadRepeats(s: string, i: int, j: int) returns (at: int)
    requires i < j && NonSpace(s, i, j) && s != "" && !IsSpace(s[0])
    ensures Repeats(s, i, j, [s[0]] + Collapse(s[1..]), at) && at >= 0 && (i == 0 <==> at == 0)
    decreases |s|, 0
  {
    if i > 0 {
      assert NonSpace(s[1..], i - 1, j - 1);
      hide *;
      at := CollapseRepeats(s[1..], i - 1, j - 1);
      Shift(s, 1, i, j, Collapse(s[1..]), at, s[0]);
      at := at + 1;
    } else if j > 1 {
      assert NonSpace(s[1..], 0, j - 1);
      hide *;
      at := CollapseRepeats(s[1..], 0, j - 1);
      Grow(s, j, Collapse(s[1..]));
    } else {
      at := 0;
      hide *;
      CollapseIsSingleSpaced(s[1..]);
      FirstRepeats(s, Collapse(s[1..]));
    }
  }

  lemma CollapseBlank(s: string)
    requires s != "" && IsSpace(s[0])
    ensures Collapse(s) == [' '] + Collapse(StripLeft(s)) && IsSpace(' ')
  {
  }

  lemma CollapseHead(s: string)
    requires s != "" && !IsSpace(s[0])
    ensures Collapse(s) == [s[0]] + Collapse(s[1..])
  {
  }

  lemma FirstRepeats(s: string, c: string)
    requires s != "" && (c != "" ==> |s| > 1 && (IsSpace(c[0]) || c[0] == s[1]))
    ensures Repeats(s, 0, 1, [s[0]] + c, 0)
  {
  }

  lemma TailIsNonSpace(s: string, i: int, j: int)
    requires i < j && NonSpace(s, i, j)
    ensures var d := |s| - |StripLeft(s)|;
      (IsSpace(s[0]) ==> 0 < d) && d <= i && StripLeft(s) == s[d..] && NonSpace(s[d..], i - d, j - d)
  {
    StripLeftPart(s);
    hide IsSpace;
    assert !IsSpace(s[i]);
  }

  lemma Shift(s: string, d: int, i: int, j: int, c: string, at: int, head: char)
    requires 0 < d <= i && d <= |s| && Repeats(s[d..], i - d, j - d, c, at) && (at == 0 ==> i == d)
    requires IsSpace(head) || (d == 1 && head == s[0])
    ensures Repeats(s, i, j, [head] + c, at + 1)
  {
    var n := j - i;
    assert ([head] + c)[at + 1..at + 1 + n] == c[at..at + n];
    assert s[d..][i - d..j - d] == s[i..j];
    assert i > d ==> s[d..][i - d - 1] == s[i - 1];
    assert at > 0 ==> ([head] + c)[at] == c[at - 1];
  }

  lemma Grow(s: string, j: int, c: string)
    requires 1 < j <= |s| && Repeats(s[1..], 0, j - 1, c, 0)
    ensures Repeats(s, 0, j, [s[0]] + c, 0)
  {
    assert ([s[0]] + c)[..j] == [s[0]] + c[..j - 1];
    assert s[..j] == [s[0]] + s[1..][..j - 1];
  }

  // Every run of non-space characters is also one of the normalised text.
  lemma NormalizeRepeats(s: string, i: int, j: int) returns (at: int)
    requires i < j && NonSpace(s, i, j)
    ensures Repeats(s, i, j, Normalize(s), at)
  {
    var c := Collapse(s);
    at := CollapseRepeats(s, i, j);
    var a, b := StripPart(c);
    EndsAreCopied(s, i, j, c, at);
    WithinPart(c, a, b, at);
    WithinPart(c, a, b, at + (j - i) - 1);
    hide NonSpace;
    RepeatsInPart(s, i, j, c, at, a, b);
    at := at - a;
  }

  lemma EndsAreCopied(s: string, i: int, j: int, c: string, at: int)
    requires Repeats(s, i, j, c, at)
    ensures c[at] == s[i] && c[at + (j - i) - 1] == s[j - 1]
  {
  }

  lemma RepeatsInPart(s: string, i: int, j: int, c: string, at: int, a: nat, b: nat)
    requires Repeats(s, i, j, c, at) && a <= at && at + (j - i) <= b <= |c|
    ensures Repeats(s, i, j, c[a..b], at - a)
  {
    PartOfPart(c, a, b, at, at + (j - i));
  }

  // ---- Windows -----------------------------------------------------------------------------------------------

  // `text.rfind(" ", lo, hi)`
  function LastBlank(text: string, lo: nat, hi: nat): (r: int)
    requires lo <= hi <= |text|
    ensures r == -1 || (lo <= r < hi && text[r] == ' ')
    ensures forall i | lo <= i < hi && i > r :: text[i] != ' '
    decreases hi
  {
    if lo == hi then -1 else if text[hi - 1] == ' ' then hi - 1 else LastBlank(text, lo, hi - 1)
  }

  // Where the window that begins at `start` ends: at the last blank in its second half, if any.
  function End(text: string, start: nat, target: nat): (end: nat)
    requires start < |text| && target > 0
    ensures start < end <= |text| && end <= start + target
    ensures end < |text| ==> end > start + target / 2
  {
    if start + target >= |text| then |text|
    else
      var boundary := LastBlank(text, start, start + target);
      if boundary > start + target / 2 then boundary else start + target
  }

  function NextStart(start: nat, end: nat, overlap: int): (next: nat)
    ensures next > start
  {
    if end - overlap > start + 1 then end - overlap else start + 1
  }

  datatype Window = Window(start: nat, end: nat)

  function Windows(text: string, start: nat, target: nat, overlap: int): seq<Window>
    requires target > 0
    decreases |text| - start
  {
    if start >= |text| then []
    else
      var end := End(text, start, target);
      [Window(start, end)]
      + if end == |text| then [] else Windows(text, NextStart(start, end, overlap), target, overlap)
  }

  function ChunkAt(text: string, w: Window): string {
    if w.start <= w.end <= |text| then Strip(text[w.start..w.end]) else ""
  }

  function Chunks(text: string, windows: seq<Window>): (chunks: seq<string>)
    ensures |chunks| == |windows| && forall i | 0 <= i < |windows| :: chunks[i] == ChunkAt(text, windows[i])
  {
    seq(|windows|, i requires 0 <= i < |windows| => ChunkAt(text, windows[i]))
  }

  function ChunksOf(text: string, target: nat, overlap: int): seq<string>
    requires target > 0
  {
    Chunks(Normalize(text), Windows(Normalize(text), 0, target, overlap))
  }

  method ChunkText(text: string, target: nat, overlap: int) returns (out: seq<string>)
    requires target > 0
    ensures out == ChunksOf(text, target, overlap)
  {
    var t := Normalize(text);
    hide Normalize;
    if t == "" { return []; }
    out := [];
    var start: nat := 0;
    ghost var done: seq<Window> := [];
    while start < |t|
      invariant out == Chunks(t, done)
      invariant done + Windows(t, start, target, overlap) == Windows(t, 0, target, overlap)
      decreases |t| - start
    {
      var end := if |t| < start + target then |t| else start + target;
      if end < |t| {
        var boundary := LastBlank(t, start, end);
        if boundary > start + target / 2 { end := boundary; }
      }
      hide Strip, LastBlank;
      assert end == End(t, start, target);
      out := out + [Strip(t[start..end])];
      WindowsStep(t, start, target, overlap, done);
      done := done + [Window(start, end)];
      if end == |t| { break; }
      start := NextStart(start, end, overlap);
    }
  }

  lemma WindowsStep(t: string, start: nat, target: nat, overlap: int, done: seq<Window>)
    requires start < |t| && target > 0
    ensures var end := End(t, start, target);
      var rest := if end == |t| then [] else Windows(t, NextStart(start, end, overlap), target, overlap);
      && done + Windows(t, start, target, overlap) == done + [Window(start, end)] + rest
      && Chunks(t, done + [Window(start, end)]) == Chunks(t, done) + [Strip(t[start..end])]
  {
    hide Strip, End, NextStart;
  }

  // ---- What the windows have in common -------------------------------------------------------------------------

  // A window ends where `End` says and its start follows from the window before.
  ghost predicate LinkedAt(text: string, ws: seq<Window>, target: nat, overlap: int, k: int)
    requires target > 0 && 0 <= k < |ws|
  {
    && ws[k].start < |text| && ws[k].end == End(text, ws[k].start, target)
    && (k > 0 ==> ws[k - 1].end < |text| && ws[k].start == NextStart(ws[k - 1].start, ws[k - 1].end, overlap))
  }

  ghost predicate Linked(text: string, ws: seq<Window>, target: nat, overlap: int)
    requires target > 0
  {
    forall k | 0 <= k < |ws| :: LinkedAt(text, ws, target, overlap, k)
  }

  lemma {:induction false} WindowsAreLinked(text: string, start: nat, target: nat, overlap: int)
    requires target > 0 && overlap >= 0 && start < |text|
    ensures var ws := Windows(text, start, target, overlap);
      && ws != [] && ws[0].start == start && ws[|ws| - 1].end == |text|
      && Linked(text, ws, target, overlap)
    decreases |text| - start
  {
    var ws := Windows(text, start, target, overlap);
    var end := End(text, start, target);
    hide End;
    if end < |text| {
      var next := NextStart(start, end, overlap);
      var rest := Windows(text, next, target, overlap);
      assert ws == [Window(start, end)] + rest;
      WindowsAreLinked(text, next, target, overlap);
      hide Windows;
      forall k | 0 <= k < |ws| ensures LinkedAt(text, ws, target, overlap, k) {
        if k > 0 {
          assert ws[k] == rest[k - 1];
          assert LinkedAt(text, rest, target, overlap, k - 1);
          if k > 1 { assert ws[k - 1] == rest[k - 2]; }
        }
      }
    }
  }

  // A non-last window advances by more than half the target, less the overlap.
  lemma WindowAdvances(text: string, ws: seq<Window>, target: nat, overlap: int, k: int)
    requires target > 0 && 0 <= overlap <= target / 2
    requires Linked(text, ws, target, overlap) && 0 < k < |ws|
    ensures ws[k].start == ws[k - 1].end - overlap
    ensures ws[k].start >= ws[k - 1].start + (target / 2 + 1 - overlap)
  {
    assert LinkedAt(text, ws, target, overlap, k) && LinkedAt(text, ws, target, overlap, k - 1);
  }

  lemma {:induction false} StartsAreFar(text: string, ws: seq<Window>, target: nat, overlap: int, k: int, step: int)
    requires target > 0 && 0 <= overlap <= target / 2 && step == target / 2 + 1 - overlap
    requires Linked(text, ws, target, overlap) && 0 <= k < |ws|
    ensures ws[k].start >= step * k
  {
    hide Linked;
    if k > 0 {
      StartsAreFar(text, ws, target, overlap, k - 1, step);
      WindowAdvances(text, ws, target, overlap, k);
      assert step * k == step * (k - 1) + step;
    }
  }

  // Main result: with an overlap of at most half the target, `k` chunks need a text of more than
  // `(target / 2 + 1 - overlap) * (k - 1)` characters.
  lemma ChunkCount(text: string, target: nat, overlap: int, step: int)
    requires target > 0 && 0 <= overlap <= target / 2 && Normalize(text) != ""
    requires step == target / 2 + 1 - overlap
    ensures step * (|ChunksOf(text, target, overlap)| - 1) < |Normalize(text)|
  {
    LastStart(Normalize(text), target, overlap, step);
    hide Windows, Normalize;
  }

  lemma LastStart(t: string, target: nat, overlap: int, step: int)
    requires target > 0 && 0 <= overlap <= target / 2 && t != "" && step == target / 2 + 1 - overlap
    ensures step * (|Windows(t, 0, target, overlap)| - 1) < |t|
  {
    WindowsAreLinked(t, 0, target, overlap);
    var ws := Windows(t, 0, target, overlap);
    assert LinkedAt(t, ws, target, overlap, |ws| - 1);
    hide Windows, LinkedAt, Linked;
    StartsAreFar(t, ws, target, overlap, |ws| - 1, step);
  }

  // ---- Chunks lose nothing ------------------------------------------------------------------------------------------

  // The chunk is the part of the text that begins at `lo`, and all of `text[i..j]` is inside it.
  ghost predicate Covers(chunk: string, text: string, lo: int, i: int, j: int) {
    0 <= lo <= i <= j <= lo + |chunk| <= |text| && chunk == text[lo..lo + |chunk|]
  }

  lemma CoveredAppears(chunk: string, text: string, lo: int, i: int, j: int)
    requires Covers(chunk, text, lo, i, j)
    ensures chunk[i - lo..j - lo] == text[i..j]
  {
    PartOfPart(text, lo, lo + |chunk|, i, j);
  }

  // A part of a window that begins and ends on a non-space survives the stripping.
  lemma SurvivesStrip(text: string, w: Window, i: int, j: int) returns (lo: int)
    requires w.start <= i < j <= w.end <= |text| && !IsSpace(text[i]) && !IsSpace(text[j - 1])
    ensures Covers(ChunkAt(text, w), text, lo, i, j)
  {
    var body := text[w.start..w.end];
    var a, b := StripPart(body);
    hide IsSpace, Strip;
    assert body[i - w.start] == text[i] && body[j - 1 - w.start] == text[j - 1];
    WithinPart(body, a, b, i - w.start);
    WithinPart(body, a, b, j - 1 - w.start);
    lo := w.start + a;
    PartOfPart(text, w.start, w.end, lo, w.start + b);
    assert ChunkAt(text, w) == text[lo..lo + (b - a)];
  }

  lemma WithinPart(s: string, a: nat, b: nat, p: int)
    requires a <= b <= |s| && 0 <= p < |s| && !IsSpace(s[p])
    requires forall i | 0 <= i < a :: IsSpace(s[i])
    requires forall i | b <= i < |s| :: IsSpace(s[i])
    ensures a <= p < b
  {
  }

  lemma PartOfPart(s: string, a: nat, b: nat, p: int, q: int)
    requires a <= p <= q <= b <= |s|
    ensures s[a..b][p - a..q - a] == s[p..q]
  {
    forall m | 0 <= m < q - p ensures s[a..b][p - a..q - a][m] == s[p..q][m] {
      assert s[a..b][p - a + m] == s[p + m];
    }
  }

  // The first window that ends at or after `j`.
  lemma {:induction false} FirstReaching(text: string, ws: seq<Window>, j: int) returns (k: int)
    requires ws != [] && j <= ws[|ws| - 1].end
    ensures 0 <= k < |ws| && j <= ws[k].end && (k > 0 ==> ws[k - 1].end < j)
  {
    k := |ws| - 1;
    if k > 0 && j <= ws[k - 1].end {
      k := FirstReaching(text, ws[..k], j);
    }
  }

  // Main result: every phrase of at most `overlap + 1` characters appears whole in some chunk.
  lemma PhraseIsKept(text: string, target: nat, overlap: int, i: int, j: int) returns (k: int, lo: int)
    requires target > 0 && 0 <= overlap <= target / 2
    requires 0 <= i < j <= |Normalize(text)| && j - i <= overlap + 1
    requires !IsSpace(Normalize(text)[i]) && !IsSpace(Normalize(text)[j - 1])
    ensures 0 <= k < |ChunksOf(text, target, overlap)|
    ensures Covers(ChunksOf(text, target, overlap)[k], Normalize(text), lo, i, j)
  {
    var t := Normalize(text);
    hide Normalize;
    WindowsAreLinked(t, 0, target, overlap);
    var ws := Windows(t, 0, target, overlap);
    k := FirstReaching(t, ws, j);
    assert LinkedAt(t, ws, target, overlap, k);
    if k > 0 { WindowAdvances(t, ws, target, overlap, k); }
    hide Windows, Linked, LinkedAt;
    lo := SurvivesStrip(t, ws[k], i, j);
  }

  // A whole word: a run of non-space characters between blanks or the ends of the text.
  ghost predicate IsWord(text: string, i: int, j: int) {
    i < j && NonSpace(text, i, j) && (i == 0 || IsSpace(text[i - 1])) && (j == |text| || IsSpace(text[j]))
  }

  lemma RepeatedWord(s: string, i: int, j: int, c: string, at: int)
    requires IsWord(s, i, j) && Repeats(s, i, j, c, at)
    ensures IsWord(c, at, at + (j - i))
  {
    forall m | at <= m < at + (j - i) ensures !IsSpace(c[m]) {
      assert c[m] == c[at..at + (j - i)][m - at] && s[i..j][m - at] == s[i + (m - at)];
    }
  }

  // A window that is not the last ends on a blank, or its second half holds none.
  lemma WhereWindowsEnd(text: string, start: nat, target: nat)
    requires start < |text| && target > 0 && Normal(text) && End(text, start, target) < |text|
    ensures var end := End(text, start, target);
      text[end] == ' ' || (end == start + target && NonSpace(text, start + target / 2 + 1, end))
  {
    var lo, hi := start + target / 2 + 1, start + target;
    if LastBlank(text, start, hi) <= start + target / 2 {
      forall m | lo <= m < hi ensures !IsSpace(text[m]) { assert text[m] != ' '; }
    }
  }

  // The longest word that no window boundary can split.
  function WordLimit(target: nat): int { target - target / 2 - 1 }

  // Main result: every word of at most `WordLimit` characters lies whole in some chunk, whatever
  // the other words of the text.
  lemma WordIsKept(text: string, target: nat, overlap: int, i: int, j: int) returns (k: int, lo: int)
    requires target > 0 && overlap >= 0
    requires IsWord(Normalize(text), i, j) && j - i <= WordLimit(target)
    ensures 0 <= k < |ChunksOf(text, target, overlap)|
    ensures Covers(ChunksOf(text, target, overlap)[k], Normalize(text), lo, i, j)
  {
    var t := Normalize(text);
    NormalizeIsNormal(text);
    hide Normalize;
    WindowsAreLinked(t, 0, target, overlap);
    var ws := Windows(t, 0, target, overlap);
    k := FirstReaching(t, ws, j);
    assert LinkedAt(t, ws, target, overlap, k);
    if k > 0 { StartsBeforeWord(t, ws, target, overlap, k, i, j); }
    hide Windows, Linked, LinkedAt;
    lo := SurvivesStrip(t, ws[k], i, j);
  }

  lemma StartsBeforeWord(t: string, ws: seq<Window>, target: nat, overlap: int, k: int, i: int, j: int)
    requires target > 0 && overlap >= 0 && Normal(t) && IsWord(t, i, j) && j - i <= WordLimit(target)
    requires Linked(t, ws, target, overlap) && 0 < k < |ws| && ws[k - 1].end < j
    ensures ws[k].start <= i
  {
    assert LinkedAt(t, ws, target, overlap, k) && LinkedAt(t, ws, target, overlap, k - 1);
    var start, end := ws[k - 1].start, ws[k - 1].end;
    WhereWindowsEnd(t, start, target);
    hide Linked, LinkedAt, End, Normal;
    if t[end] == ' ' {
      assert IsSpace(t[end]);
    } else {
      assert i > start + target / 2 + 1;
    }
  }

  // ---- What longer words lose ------------------------------------------------------------------------------------

  predicate OccursAt(chunk: string, part: string, at: int) {
    0 <= at <= |chunk| - |part| && chunk[at..at + |part|] == part
  }

  ghost predicate Contains(chunk: string, part: string) {
    exists at :: OccursAt(chunk, part, at)
  }

  ghost predicate SomeChunkContains(text: string, target: nat, overlap: int, part: string)
    requires target > 0
  {
    exists k :: 0 <= k < |ChunksOf(text, target, overlap)| && Contains(ChunksOf(text, target, overlap)[k], part)
  }

  function Repeat(ch: char, n: nat): (s: string)
    ensures |s| == n && forall i | 0 <= i < n :: s[i] == ch
  {
    seq(n, _ => ch)
  }

  // A word that begins at `i`, after one of `i - 1` other letters and a blank, and that holds `n`
  // letters between `x` hyphens and `y` hyphens.
  function LateToken(i: nat, x: nat, n: nat, y: nat): (text: string)
    requires i > 1
    ensures |text| == i + x + n + y && text[i - 1] == ' '
    ensures text[i + x..i + x + n] == Repeat('b', n)
    ensures forall m | 0 <= m < i - 1 :: text[m] == 'a'
    ensures forall m | i + x <= m < i + x + n :: text[m] == 'b'
    ensures forall m | i <= m < |text| && !(i + x <= m < i + x + n) :: text[m] == '-'
  {
    Repeat('a', i - 1) + " " + Repeat('-', x) + Repeat('b', n) + Repeat('-', y)
  }

  lemma NormalizeKeepsNormal(s: string)
    requires Normal(s)
    ensures Normalize(s) == s
  {
    CollapseKeepsNormal(s);
    var a, b := StripPart(s);
  }

  lemma {:induction false} CollapseKeepsNormal(s: string)
    requires SingleSpaced(s)
    ensures Collapse(s) == s
  {
    if s != "" {
      assert SingleSpaced(s[1..]);
      CollapseKeepsNormal(s[1..]);
      if IsSpace(s[0]) { assert StripLeft(s) == s[1..]; }
    }
  }

  lemma LateTokenIsNormal(i: nat, x: nat, n: nat, y: nat)
    requires i > 1 && n > 0
    ensures Normalize(LateToken(i, x, n, y)) == LateToken(i, x, n, y)
    ensures IsWord(LateToken(i, x, n, y), i, i + x + n + y)
  {
    var text := LateToken(i, x, n, y);
    BlankIsSpace();
    assert forall m | 0 <= m < |text| :: m == i - 1 || !IsSpace(text[m]);
    hide IsSpace, LateToken;
    assert SingleSpaced(text);
    NormalizeKeepsNormal(text);
  }

  lemma BlankIsSpace()
    ensures IsSpace(' ') && !IsSpace('a') && !IsSpace('b') && !IsSpace('-')
  {
  }

  // Only a window that holds all of the letters holds as many of them in a row.
  lemma OnlyWholeToken(i: nat, x: nat, n: nat, y: nat, w: Window, at: int)
    requires i > 1 && n > 0 && w.start <= w.end <= i + x + n + y
    requires OccursAt(ChunkAt(LateToken(i, x, n, y), w), Repeat('b', n), at)
    ensures w.start <= i + x && i + x + n <= w.end
  {
    var text, part := LateToken(i, x, n, y), Repeat('b', n);
    var body := text[w.start..w.end];
    var a, b := StripPart(body);
    var chunk := ChunkAt(text, w);
    hide Strip, IsSpace;
    assert chunk[at] == part[0] && body[a + at] == chunk[at] && text[w.start + a + at] == 'b';
    assert chunk[at + n - 1] == part[n - 1] && body[a + at + n - 1] == chunk[at + n - 1];
  }

  lemma FirstWindow(i: nat, x: nat, n: nat, y: nat, target: nat)
    requires i > 1 && i - 1 <= target / 2 && target < i + x + n
    ensures End(LateToken(i, x, n, y), 0, target) == target
  {
    var boundary := LastBlank(LateToken(i, x, n, y), 0, target);
  }

  lemma {:induction false} StartsAfter(text: string, ws: seq<Window>, target: nat, overlap: int, k: int)
    requires target > 0 && Linked(text, ws, target, overlap) && 0 < k < |ws|
    ensures ws[k].start >= NextStart(ws[0].start, ws[0].end, overlap)
  {
    assert LinkedAt(text, ws, target, overlap, k);
    if k > 1 { StartsAfter(text, ws, target, overlap, k - 1); }
  }

  // The first window ends within the letters, and the second begins within them.
  lemma LateTokenIsLost(i: nat, x: nat, n: nat, y: nat, target: nat, overlap: int)
    requires n > 0 && overlap >= 0 && i > 1 && i + x < target - overlap && i - 1 <= target / 2 && target < i + x + n
    ensures !SomeChunkContains(LateToken(i, x, n, y), target, overlap, Repeat('b', n))
  {
    var text := LateToken(i, x, n, y);
    LateTokenIsNormal(i, x, n, y);
    FirstWindow(i, x, n, y, target);
    hide Normalize, IsWord, LateToken;
    WindowsAreLinked(text, 0, target, overlap);
    var ws := Windows(text, 0, target, overlap);
    hide Windows;
    forall k | 0 <= k < |ws| ensures !Contains(ChunkAt(text, ws[k]), Repeat('b', n)) {
      assert LinkedAt(text, ws, target, overlap, k);
      assert LinkedAt(text, ws, target, overlap, 0);
      if k > 0 { StartsAfter(text, ws, target, overlap, k); }
      hide Linked, LinkedAt, ChunkAt;
      if at :| OccursAt(ChunkAt(text, ws[k]), Repeat('b', n), at) { OnlyWholeToken(i, x, n, y, ws[k], at); }
    }
  }

  // `text[i..j]` is a part of `n` characters of a word of `w` characters.
  ghost predicate IsPart(text: string, wi: int, wj: int, i: int, j: int, n: nat, w: nat) {
    IsWord(text, wi, wj) && wj - wi == w && wi <= i <= j <= wj && j - i == n
  }

  // Every such part, in any text, is found in some chunk.
  ghost predicate PartsAreKept(n: nat, w: nat, target: nat, overlap: int)
    requires target > 0
  {
    forall text, wi, wj, i, j | IsPart(Normalize(text), wi, wj, i, j, n, w) ::
      SomeChunkContains(text, target, overlap, Normalize(text)[i..j])
  }

  // Where the letters of the losing text begin: as late as the second window allows.
  function LostAt(n: nat, w: nat, target: nat, overlap: int): (p: (int, int)) {
    var i := Min(target / 2 + 1, target - overlap - 1);
    (i, Min(w - n, target - overlap - 1 - i))
  }

  lemma LostAtFits(n: nat, w: nat, target: nat, overlap: int)
    requires n <= w && 0 <= overlap <= target / 2 && overlap + 3 <= target
    requires n > overlap + 1 && w > WordLimit(target)
    ensures var (i, x) := LostAt(n, w, target, overlap);
      i > 1 && 0 <= x <= w - n && i + x < target - overlap && i - 1 <= target / 2 && target < i + x + n
  {
  }

  // Main result: exactly which parts of words are sure to be found whole in a chunk: those of at
  // most 151 characters, and those of words of at most 599, with the defaults. For `n == w` the parts
  // are the words themselves.
  lemma PartsAreKeptExactly(n: nat, w: nat, target: nat, overlap: int)
    requires 0 < n <= w && 0 <= overlap <= target / 2 && overlap + 3 <= target
    ensures PartsAreKept(n, w, target, overlap) <==> n <= overlap + 1 || w <= WordLimit(target)
  {
    if n <= overlap + 1 || w <= WordLimit(target) {
      forall text, wi, wj, i, j | IsPart(Normalize(text), wi, wj, i, j, n, w)
        ensures SomeChunkContains(text, target, overlap, Normalize(text)[i..j])
      {
        PartIsKept(text, target, overlap, wi, wj, i, j);
      }
    } else {
      LostAtFits(n, w, target, overlap);
      var (i, x) := LostAt(n, w, target, overlap);
      var text := LateToken(i, x, n, w - n - x);
      LateTokenIsNormal(i, x, n, w - n - x);
      LateTokenIsLost(i, x, n, w - n - x, target, overlap);
      hide Normalize, SomeChunkContains, IsWord;
      assert IsPart(Normalize(text), i, i + w, i + x, i + x + n, n, w);
      assert Normalize(text)[i + x..i + x + n] == Repeat('b', n);
    }
  }

  lemma PartIsKept(text: string, target: nat, overlap: int, wi: int, wj: int, i: int, j: int)
    requires target > 0 && 0 <= overlap <= target / 2
    requires IsWord(Normalize(text), wi, wj) && wi <= i < j <= wj
    requires j - i <= overlap + 1 || wj - wi <= WordLimit(target)
    ensures SomeChunkContains(text, target, overlap, Normalize(text)[i..j])
  {
    var k, lo;
    if j - i <= overlap + 1 {
      k, lo := PhraseIsKept(text, target, overlap, i, j);
    } else {
      k, lo := WordIsKept(text, target, overlap, wi, wj);
    }
    hide Normalize, ChunksOf;
    CoveredAppears(ChunksOf(text, target, overlap)[k], Normalize(text), lo, i, j);
    assert OccursAt(ChunksOf(text, target, overlap)[k], Normalize(text)[i..j], i - lo);
  }

  // Main result: every chunk is non-empty, within the target, and begins and ends on a non-space.
  lemma ChunkShape(text: string, target: nat, overlap: int, k: int)
    requires target >= 2 && overlap >= 0
    requires 0 <= k < |ChunksOf(text, target, overlap)|
    ensures var chunk := ChunksOf(text, target, overlap)[k];
      0 < |chunk| <= target && !IsSpace(chunk[0]) && !IsSpace(chunk[|chunk| - 1])
  {
    NormalizeIsNormal(text);
    var w := WindowOf(text, target, overlap, k);
    hide Normalize, ChunksOf, End;
    WindowHoldsText(Normalize(text), w, target);
    StripShape(Normalize(text)[w.start..w.end]);
  }

  // The window that a chunk was cut from.
  lemma WindowOf(text: string, target: nat, overlap: int, k: int) returns (w: Window)
    requires target > 0 && overlap >= 0 && 0 <= k < |ChunksOf(text, target, overlap)|
    ensures w.start < |Normalize(text)| && w.end == End(Normalize(text), w.start, target)
    ensures ChunksOf(text, target, overlap)[k] == Strip(Normalize(text)[w.start..w.end])
  {
    hide Normalize, Strip;
    var t := Normalize(text);
    WindowsAreLinked(t, 0, target, overlap);
    var ws := Windows(t, 0, target, overlap);
    assert LinkedAt(t, ws, target, overlap, k);
    w := ws[k];
  }

  lemma StripShape(body: string)
    requires exists m :: 0 <= m < |body| && !IsSpace(body[m])
    ensures var chunk := Strip(body); 0 < |chunk| <= |body| && !IsSpace(chunk[0]) && !IsSpace(chunk[|chunk| - 1])
  {
    var a, b := StripPart(body);
  }

  // A window is never blank: it holds two neighbouring characters, or the last one.
  lemma WindowHoldsText(t: string, w: Window, target: nat)
    requires target >= 2 && Normal(t) && w.start < |t| && w.end == End(t, w.start, target)
    ensures var body := t[w.start..w.end]; exists m :: 0 <= m < |body| && !IsSpace(body[m])
  {
    var body := t[w.start..w.end];
    if w.end == |t| {
      assert !IsSpace(body[|body| - 1]);
    } else {
      assert body[0] == t[w.start] && body[1] == t[w.start + 1];
      assert !IsSpace(body[0]) || !IsSpace(body[1]);
    }
  }

  // What the windows say together: each adds what lies beyond the text gathered so far.
  function Gathered(text: string, ws: seq<Window>): string {
    if ws == [] then ""
    else
      var before := Gathered(text, ws[..|ws| - 1]);
      var w := ws[|ws| - 1];
      if w.start <= |before| && w.start <= w.end <= |text| then before[..w.start] + text[w.start..w.end] else before
  }

  lemma {:induction false} GatheredIsPrefix(text: string, ws: seq<Window>, target: nat, overlap: int)
    requires target > 0 && overlap >= 0 && Linked(text, ws, target, overlap) && ws != [] && ws[0].start == 0
    ensures ws[|ws| - 1].end <= |text| && Gathered(text, ws) == text[..ws[|ws| - 1].end]
  {
    var n := |ws| - 1;
    assert LinkedAt(text, ws, target, overlap, n);
    if n > 0 {
      PrefixIsLinked(text, ws, target, overlap, n);
      assert LinkedAt(text, ws, target, overlap, n - 1);
      assert ws[n].start <= ws[n - 1].end && ws[n].start <= ws[n].end <= |text|;
      hide Linked, LinkedAt, End;
      GatheredIsPrefix(text, ws[..n], target, overlap);
      Extend(text, ws[n - 1].end, ws[n].start, ws[n].end);
    } else {
      assert Gathered(text, ws[..0]) == "";
      assert "" + text[0..ws[0].end] == text[..ws[0].end];
    }
  }

  lemma PrefixIsLinked(text: string, ws: seq<Window>, target: nat, overlap: int, n: int)
    requires target > 0 && Linked(text, ws, target, overlap) && 0 < n <= |ws|
    ensures Linked(text, ws[..n], target, overlap) && ws[..n][0] == ws[0] && ws[..n][n - 1] == ws[n - 1]
  {
    forall k | 0 <= k < n
      ensures LinkedAt(text, ws[..n], target, overlap, k)
    {
      assert LinkedAt(text, ws, target, overlap, k);
    }
  }

  lemma Extend(text: string, end: nat, start: nat, newEnd: nat)
    requires start <= end <= |text| && start <= newEnd <= |text|
    ensures text[..end][..start] + text[start..newEnd] == text[..newEnd]
  {
  }

  // Main result: the windows laid over one another rebuild the normalised text.
  lemma WindowsRebuildText(text: string, target: nat, overlap: int)
    requires target > 0 && overlap >= 0 && text != ""
    ensures Gathered(text, Windows(text, 0, target, overlap)) == text
  {
    WindowsAreLinked(text, 0, target, overlap);
    GatheredIsPrefix(text, Windows(text, 0, target, overlap), target, overlap);
    assert text[..|text|] == text;
  }
}
