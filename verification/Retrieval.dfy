// `lexical_score` and the ranking of `retrieve_for_conversation`.
module Retrieval {
  import opened Scoring
  import opened Arithmetic

  // ---- Lexical scores ----------------------------------------------------------------------------------------

  // What `\w` matches and what `lower` does.
  datatype Language = Language(isWord: char -> bool, lower: string -> string)

  // `s[i..j]` is a maximal run of word characters.
  predicate IsToken(lang: Language, s: string, i: int, j: int) {
    && 0 <= i < j <= |s|
    && (forall m | i <= m < j :: lang.isWord(s[m]))
    && (i == 0 || !lang.isWord(s[i - 1]))
    && (j == |s| || !lang.isWord(s[j]))
  }

  // `re.findall(r"\w+", s)`, as a set.
  function Tokens(lang: Language, s: string): set<string> {
    set i, j | 0 <= i < j <= |s| && IsToken(lang, s, i, j) :: s[i..j]
  }

  function QueryTerms(lang: Language, query: string): set<string> {
    set t | t in Tokens(lang, query) && |t| > 2 :: lang.lower(t)
  }

  function TextTerms(lang: Language, text: string): set<string> {
    set t | t in Tokens(lang, text) :: lang.lower(t)
  }

  function LexicalScore(lang: Language, query: string, text: string): (score: real)
    ensures 0.0 <= score <= 1.0
    ensures score > 0.0 <==> QueryTerms(lang, query) * TextTerms(lang, text) != {}
  {
    var q := QueryTerms(lang, query);
    var common := q * TextTerms(lang, text);
    SubsetSize(common, q);
    Fraction(|common|, |q|);
    |common| as real / (if |q| > 1 then |q| else 1) as real
  }

  lemma {:induction false} SubsetSize(a: set<string>, b: set<string>)
    requires a <= b
    ensures |a| <= |b|
  {
    if a != {} {
      var x :| x in a;
      SubsetSize(a - {x}, b - {x});
    }
  }

  lemma Fraction(a: nat, b: nat)
    requires a <= b
    ensures 0.0 <= a as real / (if b > 1 then b else 1) as real <= 1.0
    ensures a as real / (if b > 1 then b else 1) as real > 0.0 <==> a > 0
  {
  }

  // How many of the query's terms a text meets.
  function TermsMet(lang: Language, query: string, text: string): nat {
    |QueryTerms(lang, query) * TextTerms(lang, text)|
  }

  // Main result: texts score as they meet terms of the query, 1 for all of them; and a query without
  // terms scores nothing.
  lemma ScoresByTermsMet(lang: Language, query: string, a: string, b: string)
    ensures TermsMet(lang, query, a) < TermsMet(lang, query, b) <==>
      LexicalScore(lang, query, a) < LexicalScore(lang, query, b)
    ensures QueryTerms(lang, query) != {} ==>
      (LexicalScore(lang, query, a) == 1.0 <==> QueryTerms(lang, query) <= TextTerms(lang, a))
    ensures QueryTerms(lang, query) == {} ==> LexicalScore(lang, query, a) == 0.0
  {
    var q := QueryTerms(lang, query);
    var n := if |q| > 1 then |q| else 1;
    var met, metOther := q * TextTerms(lang, a), q * TextTerms(lang, b);
    hide QueryTerms, TextTerms;
    SubsetSize(met, q);
    SubsetSize(metOther, q);
    FractionOrder(|met|, |metOther|, n);
    FractionOrder(|met|, |q|, n);
    assert q != {} ==> n == |q|;
    if |met| == |q| { SameSize(met, q); }
    assert q <= TextTerms(lang, a) ==> met == q;
  }

  lemma FractionOrder(a: nat, b: nat, n: nat)
    requires n > 0
    ensures a < b <==> a as real / n as real < b as real / n as real
    ensures a == b <==> a as real / n as real == b as real / n as real
    ensures n as real / n as real == 1.0
  {
    QuotientOrder(a as real, b as real, n as real);
    QuotientOrder(b as real, a as real, n as real);
  }

  lemma SameSize(a: set<string>, b: set<string>)
    requires a <= b && |a| == |b|
    ensures a == b
  {
    assert b == a + (b - a);
  }

  // The tokens of a text are its runs of word characters, as long as they go.
  lemma TokensExactly(lang: Language, before: string, token: string, after: string)
    requires token != "" && forall i | 0 <= i < |token| :: lang.isWord(token[i])
    requires before == "" || !lang.isWord(before[|before| - 1])
    requires after == "" || !lang.isWord(after[0])
    ensures token in Tokens(lang, before + token + after)
  {
    var s, i, j := before + token + after, |before|, |before| + |token|;
    assert s[i..j] == token;
    forall m | i <= m < j ensures lang.isWord(s[m]) { assert s[m] == token[m - i]; }
    assert i > 0 ==> s[i - 1] == before[|before| - 1];
    assert j < |s| ==> s[j] == after[0];
    assert IsToken(lang, s, i, j);
    hide IsToken;
  }

  lemma TokensAreRuns(lang: Language, s: string, token: string) returns (before: string, after: string)
    requires token in Tokens(lang, s)
    ensures s == before + token + after && token != "" && forall i | 0 <= i < |token| :: lang.isWord(token[i])
    ensures before == "" || !lang.isWord(before[|before| - 1])
    ensures after == "" || !lang.isWord(after[0])
  {
    var i, j :| 0 <= i < j <= |s| && IsToken(lang, s, i, j) && s[i..j] == token;
    before, after := s[..i], s[j..];
    forall m | 0 <= m < |token| ensures lang.isWord(token[m]) { assert token[m] == s[i + m]; }
  }

  // The terms of a text are its tokens in lower case.
  lemma TermsOfText(lang: Language, text: string, term: string)
    ensures term in TextTerms(lang, text) <==> exists token :: token in Tokens(lang, text) && lang.lower(token) == term
  {
  }

  // Words of one or two characters are not asked for.
  lemma ShortWordsAreIgnored(lang: Language, query: string, term: string)
    ensures term in QueryTerms(lang, query) <==>
      exists token :: token in Tokens(lang, query) && |token| > 2 && lang.lower(token) == term
    ensures (forall token | token in Tokens(lang, query) :: |token| <= 2) ==> QueryTerms(lang, query) == {}
  {
  }

  // ---- Ranking --------------------------------------------------------------------------------------------------

  // A fetched row and its score; `row` is its position in the fetched list.
  datatype Hit = Hit(score: real, row: nat)

  // By score, and in fetch order among equals.
  predicate Before(a: Hit, b: Hit) {
    a.score > b.score || (a.score == b.score && a.row < b.row)
  }

  ghost predicate Ordered(hits: seq<Hit>) {
    forall i, j | 0 <= i < j < |hits| :: Before(hits[i], hits[j])
  }

  // The fetched rows with their scores.
  function Hits(scores: seq<real>): (hits: seq<Hit>)
    ensures |hits| == |scores| && forall i | 0 <= i < |hits| :: hits[i] == Hit(scores[i], i)
  {
    seq(|scores|, i requires 0 <= i < |scores| => Hit(scores[i], i))
  }

  // `sorted(hits, key=score, reverse=True)`: an insertion sort that keeps the order of equals.
  function Sorted(hits: seq<Hit>): (r: seq<Hit>)
    ensures forall h :: h in r <==> h in hits
  {
    if hits == [] then []
    else
      assert forall h :: h in hits <==> h in hits[..|hits| - 1] || h == hits[|hits| - 1];
      Insert(Sorted(hits[..|hits| - 1]), hits[|hits| - 1])
  }

  // After every hit that scores at least as much.
  function Insert(sorted: seq<Hit>, x: Hit): (r: seq<Hit>)
    ensures forall h :: h in r <==> h == x || h in sorted
  {
    if sorted == [] then [x]
    else if sorted[|sorted| - 1].score >= x.score then sorted + [x]
    else
      assert forall h :: h in sorted <==> h in sorted[..|sorted| - 1] || h == sorted[|sorted| - 1];
      Insert(sorted[..|sorted| - 1], x) + [sorted[|sorted| - 1]]
  }

  lemma {:induction false} InsertKeepsOrder(sorted: seq<Hit>, x: Hit)
    requires Ordered(sorted) && forall h | h in sorted :: h.row < x.row
    ensures Ordered(Insert(sorted, x))
  {
    if sorted != [] {
      var init, last := sorted[..|sorted| - 1], sorted[|sorted| - 1];
      assert forall h | h in init :: h in sorted && Before(h, last);
      assert last in sorted;
      if last.score >= x.score {
        AppendKeepsOrder(sorted, x);
      } else {
        InsertKeepsOrder(init, x);
        AppendKeepsOrder(Insert(init, x), last);
      }
    }
  }

  lemma AppendKeepsOrder(hits: seq<Hit>, x: Hit)
    requires Ordered(hits) && forall h | h in hits :: Before(h, x)
    ensures Ordered(hits + [x])
  {
  }

  // Fetched rows are numbered upwards.
  ghost predicate Numbered(hits: seq<Hit>) {
    forall i, j | 0 <= i < j < |hits| :: hits[i].row < hits[j].row
  }

  // Main result: the sort lists exactly the fetched rows, higher scores first and ties in fetch order.
  lemma {:induction false} SortedIsOrdered(hits: seq<Hit>)
    requires Numbered(hits)
    ensures Ordered(Sorted(hits)) && forall h :: h in Sorted(hits) <==> h in hits
  {
    if hits != [] {
      SortedIsOrdered(hits[..|hits| - 1]);
      InsertKeepsOrder(Sorted(hits[..|hits| - 1]), hits[|hits| - 1]);
    }
  }

  // That order leaves no choice.
  lemma {:induction false} OrderIsUnique(a: seq<Hit>, b: seq<Hit>)
    requires Ordered(a) && Ordered(b) && forall h :: h in a <==> h in b
    ensures a == b
  {
    BothEmpty(a, b);
    if a != [] {
      assert a[0] in a && b[0] in b;
      HeadIsFirst(a);
      HeadIsFirst(b);
      OrderIsUnique(a[1..], b[1..]);
      assert a == [a[0]] + a[1..] && b == [b[0]] + b[1..];
    }
  }

  lemma BothEmpty(a: seq<Hit>, b: seq<Hit>)
    requires forall h :: h in a <==> h in b
    ensures a == [] <==> b == []
  {
    assert a != [] ==> a[0] in a;
    assert b != [] ==> b[0] in b;
  }

  lemma HeadIsFirst(a: seq<Hit>)
    requires Ordered(a) && a != []
    ensures Ordered(a[1..]) && forall h :: h in a[1..] <==> h in a && h != a[0]
    ensures forall h | h in a :: h == a[0] || Before(a[0], h)
  {
  }

  // ---- Citations ---------------------------------------------------------------------------------------------------

  function Take<T>(s: seq<T>, k: nat): seq<T> {
    if k < |s| then s[..k] else s
  }

  function Positive(hits: seq<Hit>): seq<Hit> {
    if hits == [] then []
    else Positive(hits[..|hits| - 1]) + if hits[|hits| - 1].score > 0.0 then [hits[|hits| - 1]] else []
  }

  // The first `k` of the sorted rows, less those that score nothing.
  function Cited(scores: seq<real>, k: nat): seq<Hit> {
    Positive(Take(Sorted(Hits(scores)), k))
  }

  // `p` is where the positive scores of an ordered list end.
  ghost predicate SplitsAt(hits: seq<Hit>, p: nat) {
    p <= |hits| && forall i | 0 <= i < |hits| :: hits[i].score > 0.0 <==> i < p
  }

  lemma {:induction false} PositiveIsPrefix(hits: seq<Hit>) returns (p: nat)
    requires Ordered(hits)
    ensures SplitsAt(hits, p) && Positive(hits) == hits[..p]
  {
    if hits == [] {
      p := 0;
    } else {
      var m := |hits| - 1;
      p := PositiveIsPrefix(hits[..m]);
      assert hits == hits[..m] + [hits[m]];
      assert p < m ==> Before(hits[p], hits[m]) && hits[..m][p] == hits[p];
      if hits[m].score > 0.0 { p := |hits|; }
    }
  }

  lemma TakeSplits(hits: seq<Hit>, k: nat, p: nat)
    requires SplitsAt(hits, p)
    ensures SplitsAt(Take(hits, k), Min(p, k)) && Take(hits, k)[..Min(p, k)] == hits[..Min(p, k)]
  {
  }

  lemma SplitIsUnique(hits: seq<Hit>, p: nat, q: nat)
    requires SplitsAt(hits, p) && SplitsAt(hits, q)
    ensures p == q
  {
    var least := Min(p, q);
    assert least < |hits| ==> (hits[least].score > 0.0 <==> least < p) && (hits[least].score > 0.0 <==> least < q);
  }

  // The citations are a prefix of the sorted rows, cut by the smaller of two limits.
  lemma CitedIsPrefix(scores: seq<real>, k: nat) returns (p: nat)
    ensures Ordered(Sorted(Hits(scores))) && SplitsAt(Sorted(Hits(scores)), p)
    ensures Cited(scores, k) == Sorted(Hits(scores))[..Min(p, k)]
    ensures Positive(Sorted(Hits(scores))) == Sorted(Hits(scores))[..p]
  {
    SortedIsOrdered(Hits(scores));
    var all := Sorted(Hits(scores));
    hide Sorted, Hits;
    p := PositiveIsPrefix(all);
    assert Ordered(Take(all, k));
    var q := PositiveIsPrefix(Take(all, k));
    TakeSplits(all, k, p);
    SplitIsUnique(Take(all, k), q, Min(p, k));
  }

  // Main result: filtering zero scores after the truncation is filtering them before it.
  lemma FilterCommutesWithTake(scores: seq<real>, k: nat)
    ensures Cited(scores, k) == Take(Positive(Sorted(Hits(scores))), k)
  {
    var p := CitedIsPrefix(scores, k);
    var all := Sorted(Hits(scores));
    assert all[..p][..Min(p, k)] == all[..Min(p, k)];
  }

  // Main result: the rows that score are cited unless `k` others come before them; so no row left
  // out beats a cited one, and ties keep the fetch order.
  lemma CitedExactly(scores: seq<real>, k: nat, row: nat)
    requires row < |scores|
    ensures Hit(scores[row], row) in Cited(scores, k) ==> scores[row] > 0.0
    ensures Hit(scores[row], row) !in Cited(scores, k) && scores[row] > 0.0 ==>
      |Cited(scores, k)| == k && forall c | c in Cited(scores, k) :: Before(c, Hit(scores[row], row))
  {
    var p := CitedIsPrefix(scores, k);
    var all, hit := Sorted(Hits(scores)), Hit(scores[row], row);
    assert Hits(scores)[row] == hit;
    SortedIsOrdered(Hits(scores));
    hide Sorted, Hits, Cited;
    PlaceOf(all, hit, p, k);
  }

  // Citations come with higher scores first, and in fetch order among equals.
  lemma CitedInOrder(scores: seq<real>, k: nat, i: nat, j: nat)
    requires i < j < |Cited(scores, k)|
    ensures var a, b := Cited(scores, k)[i], Cited(scores, k)[j];
      a.score > b.score || (a.score == b.score && a.row < b.row)
  {
    CitedIsOrdered(scores, k);
    hide Cited;
  }

  // Every citation is a fetched row with its score, and there are at most `k`.
  lemma CitedRows(scores: seq<real>, k: nat)
    ensures |Cited(scores, k)| <= k && forall c | c in Cited(scores, k) :: c.row < |scores| && c.score == scores[c.row]
  {
    var p := CitedIsPrefix(scores, k);
    var all := Sorted(Hits(scores));
    SortedIsOrdered(Hits(scores));
    assert forall c | c in Hits(scores) :: c.row < |scores| && c.score == scores[c.row];
    hide Sorted, Hits, Cited;
    assert forall c | c in all[..Min(p, k)] :: c in all;
  }

  lemma PlaceOf(all: seq<Hit>, hit: Hit, p: nat, k: nat)
    requires Ordered(all) && SplitsAt(all, p) && hit in all
    ensures var cited := all[..Min(p, k)];
      && (hit in cited ==> hit.score > 0.0)
      && (hit !in cited && hit.score > 0.0 ==> |cited| == k && forall c | c in cited :: Before(c, hit))
  {
  }

  // Main result: a larger limit extends the citations.
  lemma CitationsExtend(scores: seq<real>, k: nat, l: nat)
    requires k <= l
    ensures Cited(scores, k) <= Cited(scores, l)
  {
    var p := CitedIsPrefix(scores, k);
    var q := CitedIsPrefix(scores, l);
    SplitIsUnique(Sorted(Hits(scores)), p, q);
  }

  // ---- Confidence ---------------------------------------------------------------------------------------------------

  function Total(hits: seq<Hit>): real {
    if hits == [] then 0.0 else Total(hits[..|hits| - 1]) + hits[|hits| - 1].score
  }

  // `total / max(1, n)`
  function MeanOf(total: real, n: nat): real {
    total / (if n > 1 then n else 1) as real
  }

  // `min(1.0, mean * 2)`
  function ConfidenceOf(cited: seq<Hit>): real {
    var twice := MeanOf(Total(cited), |cited|) * 2.0;
    if 1.0 < twice then 1.0 else twice
  }

  // The confidence is twice the mean score of the citations, and at most 1.
  lemma ConfidenceIsTwiceTheMean(hits: seq<Hit>)
    requires hits != []
    ensures var n, total := |hits| as real, Total(hits);
      if 2.0 * total <= n then ConfidenceOf(hits) * n == 2.0 * total else ConfidenceOf(hits) == 1.0
  {
    TwiceMean(Total(hits), |hits|);
    hide Total, MeanOf;
  }

  lemma TwiceMean(total: real, n: nat)
    requires n > 0
    ensures MeanOf(total, n) * 2.0 * n as real == 2.0 * total
    ensures 1.0 < MeanOf(total, n) * 2.0 <==> n as real < 2.0 * total
  {
    var mean, half, m := MeanOf(total, n), 0.5 * n as real, n as real;
    assert mean == total / m;
    QuotientOrder(half, total, m);
    Cancel(0.5, m);
    Twice(mean, total, m);
  }

  lemma Twice(mean: real, total: real, m: real)
    requires m > 0.0 && mean == total / m
    ensures mean * 2.0 * m == 2.0 * total
  {
    assert mean * m == total;
    assert mean * 2.0 * m == 2.0 * (mean * m);
  }

  lemma {:induction false} TotalConcat(a: seq<Hit>, b: seq<Hit>)
    ensures Total(a + b) == Total(a) + Total(b)
    ensures Total([]) == 0.0 && forall h: Hit :: Total([h]) == h.score
  {
    forall h: Hit ensures Total([h]) == h.score { assert [h][..0] == []; }
    if b == [] {
      assert a + b == a;
    } else {
      assert (a + b)[..|a + b| - 1] == a + b[..|b| - 1];
      TotalConcat(a, b[..|b| - 1]);
    }
  }

  lemma {:induction false} TotalIsPositive(hits: seq<Hit>)
    requires forall h | h in hits :: h.score > 0.0
    ensures Total(hits) >= 0.0 && (hits != [] ==> Total(hits) > 0.0)
  {
    if hits != [] {
      assert hits[|hits| - 1] in hits;
      TotalIsPositive(hits[..|hits| - 1]);
    }
  }

  lemma CitedArePositive(scores: seq<real>, k: nat)
    ensures forall h | h in Cited(scores, k) :: h.score > 0.0
  {
    var p := CitedIsPrefix(scores, k);
    hide Sorted, Hits, Cited;
    var all := Sorted(Hits(scores));
    assert forall h | h in all[..Min(p, k)] :: h.score > 0.0;
  }

  // Main result: the confidence is a fraction, and zero exactly when nothing is cited.
  lemma ConfidenceIsFraction(scores: seq<real>, k: nat)
    ensures 0.0 <= ConfidenceOf(Cited(scores, k)) <= 1.0
    ensures ConfidenceOf(Cited(scores, k)) == 0.0 <==> Cited(scores, k) == []
  {
    CitedArePositive(scores, k);
    var cited := Cited(scores, k);
    hide Cited;
    TotalIsPositive(cited);
    var n := if |cited| > 1 then |cited| else 1;
    QuotientOrder(0.0, Total(cited), n as real);
    QuotientOrder(Total(cited), 0.0, n as real);
  }

  lemma {:induction false} AllAtLeast(hits: seq<Hit>, least: real)
    requires forall h | h in hits :: h.score >= least
    ensures Total(hits) >= Times(least, |hits| as real)
  {
    if hits != [] {
      assert hits[|hits| - 1] in hits;
      AllAtLeast(hits[..|hits| - 1], least);
      Distribute(least, (|hits| - 1) as real, 1.0);
    }
  }

  lemma MeanDrops(total: real, last: real, n: nat)
    requires n > 0 && total >= Times(last, n as real)
    ensures MeanOf(total + last, n + 1) <= MeanOf(total, n)
  {
    var mean := total / n as real;
    assert mean * n as real == total;
    if last > mean { ProductOrder(mean, last, n as real); }
    assert last <= mean;
    Distribute(mean, n as real, 1.0);
    QuotientOrder(total + last, mean * (n + 1) as real, (n + 1) as real);
    Cancel(mean, (n + 1) as real);
  }

  // The mean of an ordered list is at most that of any prefix.
  lemma {:induction false} PrefixMean(hits: seq<Hit>, n: nat)
    requires Ordered(hits) && 0 < n <= |hits|
    ensures MeanOf(Total(hits), |hits|) <= MeanOf(Total(hits[..n]), n)
  {
    hide MeanOf;
    if n == |hits| {
      assert hits[..n] == hits;
    } else {
      var init := hits[..|hits| - 1];
      PrefixMean(init, n);
      assert init[..n] == hits[..n];
      LastIsLeast(hits);
    }
  }

  lemma LastIsLeast(hits: seq<Hit>)
    requires Ordered(hits) && |hits| > 1
    ensures MeanOf(Total(hits), |hits|) <= MeanOf(Total(hits[..|hits| - 1]), |hits| - 1)
  {
    var init, last := hits[..|hits| - 1], hits[|hits| - 1];
    hide MeanOf, Times;
    assert forall h | h in init :: Before(h, last);
    AllAtLeast(init, last.score);
    MeanDrops(Total(init), last.score, |init|);
  }

  // Main result: a larger limit never raises the confidence (a plan's limit is at least 1).
  lemma ConfidenceDrops(scores: seq<real>, k: nat, l: nat)
    requires 0 < k <= l
    ensures ConfidenceOf(Cited(scores, l)) <= ConfidenceOf(Cited(scores, k))
  {
    CitationsExtend(scores, k, l);
    CitedIsOrdered(scores, l);
    FirstCited(scores, k, l);
    var few, many := Cited(scores, k), Cited(scores, l);
    hide Cited, Sorted, Hits;
    if few != [] {
      assert few == many[..|few|];
      PrefixConfidence(many, |few|);
    }
  }

  lemma CitedIsOrdered(scores: seq<real>, k: nat)
    ensures Ordered(Cited(scores, k))
  {
    var p := CitedIsPrefix(scores, k);
    hide Cited, Sorted, Hits;
  }

  lemma FirstCited(scores: seq<real>, k: nat, l: nat)
    requires k <= l
    ensures Cited(scores, k) == [] <==> k == 0 || Cited(scores, l) == []
  {
    var p := CitedIsPrefix(scores, k);
    var q := CitedIsPrefix(scores, l);
    hide Cited;
    SplitIsUnique(Sorted(Hits(scores)), p, q);
  }

  lemma PrefixConfidence(hits: seq<Hit>, n: nat)
    requires Ordered(hits) && 0 < n <= |hits|
    ensures ConfidenceOf(hits) <= ConfidenceOf(hits[..n])
  {
    PrefixMean(hits, n);
    hide MeanOf;
  }
}
