/**
 BM25 ranking: one definition, and the two index classes that compute it, the one of
 ui-ux-pro-max/scripts/core.py with term frequencies counted when fitting and the one
 of design-system/scripts/slide_search_core.py that counts them at each query.

 Numbers are exact; the logarithm of the inverse document frequency is a weight of the
 corpus size and the document frequency, and the tokenizer a function of the text.
 */
module Bm25 {
  type Term = string
  type Document = seq<Term>
  type Weight = (nat, nat) -> real
  type Tokenizer = string -> Document

  const K1 := 1.5
  const B := 0.75

  // ----- the definition -----

  function Frequency(doc: Document, term: Term): nat {
    multiset(doc)[term]
  }

  function DocumentFrequency(corpus: seq<Document>, term: Term): nat {
    if corpus == [] then 0
    else DocumentFrequency(corpus[..|corpus| - 1], term) + (if term in corpus[|corpus| - 1] then 1 else 0)
  }

  function TotalLength(corpus: seq<Document>): nat {
    if corpus == [] then 0 else TotalLength(corpus[..|corpus| - 1]) + |corpus[|corpus| - 1]|
  }

  function Average(corpus: seq<Document>): (r: real)
    requires corpus != []
    ensures TotalLength(corpus) > 0 ==> r > 0.0
    ensures TotalLength(corpus) == 0 ==> r == 0.0
  {
    TotalLength(corpus) as real / |corpus| as real
  }

  function Denominator(tf: nat, length: nat, average: real): (d: real)
    requires average > 0.0
    ensures d > 0.0
  {
    assert B * length as real / average >= 0.0;
    tf as real + K1 * (1.0 - B + B * length as real / average)
  }

  // Inverse document frequency times the saturated term frequency.
  function TermScore(idf: real, tf: nat, length: nat, average: real): real
    requires average > 0.0
  {
    idf * (tf as real * (K1 + 1.0)) / Denominator(tf, length, average)
  }

  // ----- what a term is worth -----

  lemma QuotientsCompare(a: real, b: real, c: real, d: real)
    requires b > 0.0 && d > 0.0 && a * d < c * b
    ensures a / b < c / d
  {
    var x, y := a / b, c / d;
    assert x * b == a && y * d == c;
    assert x * b * d < y * d * b;
    assert (y - x) * (b * d) > 0.0;
  }

  // One occurrence in a document of mean length is worth the weight itself, and no number
  // of occurrences as much as two and a half times the weight.
  lemma TermScoreRange(weight: real, tf: nat, length: nat, average: real)
    requires weight > 0.0 && average > 0.0
    ensures TermScore(weight, tf, length, average) >= 0.0
    ensures TermScore(weight, tf, length, average) == 0.0 <==> tf == 0
    ensures TermScore(weight, tf, length, average) < 2.5 * weight
    ensures tf == 1 && length as real == average ==> TermScore(weight, tf, length, average) == weight
  {
    TermScoreExactly(weight, tf, length, average);
    assert length as real / average >= 0.0;
    QuotientRange(TermScore(weight, tf, length, average), 2.5 * weight, tf as real,
                  tf as real + 0.375 + 1.125 * (length as real / average));
    if tf == 1 && length as real == average {
      assert length as real / average == 1.0;
    }
  }

  lemma QuotientRange(score: real, bound: real, part: real, whole: real)
    requires bound > 0.0 && 0.0 <= part < whole && score * whole == bound * part
    ensures 0.0 <= score < bound && (score == 0.0 <==> part == 0.0)
  {
    ScaleUp(part, whole, bound);
    ScaleDown(score, bound, whole);
    if part > 0.0 {
      ScaleUp(0.0, part, bound);
      ScaleDown(0.0, score, whole);
    } else {
      ScaleDown(-1.0, score, whole);
      assert score * whole == 0.0;
    }
  }

  lemma ScaleUp(a: real, b: real, d: real)
    requires d > 0.0 && a < b
    ensures d * a < d * b
  {
    assert d * (b - a) > 0.0;
  }

  lemma ScaleDown(a: real, b: real, d: real)
    requires d > 0.0 && a * d < b * d
    ensures a < b
  {
    assert (b - a) * d > 0.0;
  }

  // The share of the occurrences in what the length asks for: a quarter of the allowance
  // is fixed, three quarters of it go with the length relative to the mean.
  lemma TermScoreExactly(weight: real, tf: nat, length: nat, average: real)
    requires average > 0.0
    ensures TermScore(weight, tf, length, average) * (tf as real + 0.375 + 1.125 * (length as real / average)) ==
            2.5 * weight * tf as real
  {
    var share := length as real / average;
    assert B * length as real / average == B * share by {
      assert share * average == length as real;
      assert B * length as real == (B * share) * average;
    }
    var d := tf as real + 0.375 + 1.125 * share;
    assert Denominator(tf, length, average) == d;
    var n := weight * (tf as real * (K1 + 1.0));
    assert n / d * d == n;
  }

  lemma MoreOccurrencesScoreMore(weight: real, few: nat, many: nat, length: nat, average: real)
    requires weight > 0.0 && average > 0.0 && few < many
    ensures TermScore(weight, few, length, average) < TermScore(weight, many, length, average)
  {
    assert B * length as real / average >= 0.0;
    SharesRise(weight * (K1 + 1.0), few as real, many as real, K1 * (1.0 - B + B * length as real / average));
    assert weight * (few as real * (K1 + 1.0)) == weight * (K1 + 1.0) * few as real;
    assert weight * (many as real * (K1 + 1.0)) == weight * (K1 + 1.0) * many as real;
  }

  lemma SharesRise(k: real, f: real, m: real, c: real)
    requires k > 0.0 && c > 0.0 && 0.0 <= f < m
    ensures k * f / (f + c) < k * m / (m + c)
  {
    ScaleUp(f, m, c);
    assert f * (m + c) < m * (f + c);
    ScaleUp(f * (m + c), m * (f + c), k);
    QuotientsCompare(k * f, f + c, k * m, m + c);
  }

  lemma LongerDocumentsScoreLess(weight: real, tf: nat, short: nat, long: nat, average: real)
    requires weight > 0.0 && average > 0.0 && tf > 0 && short < long
    ensures TermScore(weight, tf, long, average) < TermScore(weight, tf, short, average)
  {
    assert B * short as real < B * long as real;
    QuotientsCompare(B * short as real, average, B * long as real, average);
    var n, d, e := weight * (tf as real * (K1 + 1.0)), Denominator(tf, short, average), Denominator(tf, long, average);
    assert d < e && n > 0.0;
    QuotientsCompare(n, e, n, d);
  }

  // Document frequency and mean length are what their names say.
  lemma {:induction false} CountsDocuments(corpus: seq<Document>, term: Term)
    ensures DocumentFrequency(corpus, term) == |set i | 0 <= i < |corpus| && term in corpus[i]|
  {
    var holding := set i | 0 <= i < |corpus| && term in corpus[i];
    if corpus == [] {
      assert holding == {};
    } else {
      var n := |corpus| - 1;
      CountsDocuments(corpus[..n], term);
      var before := set i | 0 <= i < n && term in corpus[..n][i];
      assert holding == before + (if term in corpus[n] then {n} else {});
    }
  }

  lemma {:induction false} TotalLengthAdds(corpus: seq<Document>, more: seq<Document>)
    ensures TotalLength(corpus + more) == TotalLength(corpus) + TotalLength(more)
  {
    if more == [] {
      assert corpus + more == corpus;
    } else {
      var n := |more| - 1;
      TotalLengthAdds(corpus, more[..n]);
      assert (corpus + more)[..|corpus| + n] == corpus + more[..n];
    }
  }

  lemma {:induction false} MeanIsWithin(corpus: seq<Document>, low: nat, high: nat)
    requires corpus != [] && forall d :: d in corpus ==> low <= |d| <= high
    ensures low as real <= Average(corpus) <= high as real
  {
    TotalIsWithin(corpus, low, high);
    Quotient(low, TotalLength(corpus), high, |corpus|);
  }

  lemma Quotient(low: nat, total: nat, high: nat, n: nat)
    requires n > 0 && low * n <= total <= high * n
    ensures low as real <= total as real / n as real <= high as real
  {
    var d, q := n as real, total as real / n as real;
    assert q * d == total as real;
    assert (low * n) as real == low as real * d && (high * n) as real == high as real * d;
    if q < low as real { ScaleUp(q, low as real, d); }
    if q > high as real { ScaleUp(high as real, q, d); }
  }

  lemma {:induction false} TotalIsWithin(corpus: seq<Document>, low: nat, high: nat)
    requires forall d :: d in corpus ==> low <= |d| <= high
    ensures low * |corpus| <= TotalLength(corpus) <= high * |corpus|
  {
    if corpus == [] {
    } else {
      var n := |corpus| - 1;
      TotalIsWithin(corpus[..n], low, high);
      assert low <= |corpus[n]| <= high;
      OneMore(low, n, |corpus|);
      OneMore(high, n, |corpus|);
    }
  }

  lemma OneMore(x: nat, n: nat, m: nat)
    requires m == n + 1
    ensures x * m == x * n + x
  {
  }

  lemma {:induction false} UsedTermsHaveLength(corpus: seq<Document>, term: Term)
    requires DocumentFrequency(corpus, term) > 0
    ensures corpus != [] && TotalLength(corpus) > 0
  {
    if term !in corpus[|corpus| - 1] {
      UsedTermsHaveLength(corpus[..|corpus| - 1], term);
    }
  }

  // A query term that no document holds adds nothing.
  function Contribution(corpus: seq<Document>, weight: Weight, idx: nat, term: Term): real
    requires idx < |corpus|
  {
    var df := DocumentFrequency(corpus, term);
    if df == 0 then 0.0
    else
      UsedTermsHaveLength(corpus, term);
      TermScore(weight(|corpus|, df), Frequency(corpus[idx], term), |corpus[idx]|, Average(corpus))
  }

  function ScoreOf(corpus: seq<Document>, weight: Weight, idx: nat, query: seq<Term>): real
    requires idx < |corpus|
  {
    if query == [] then 0.0
    else ScoreOf(corpus, weight, idx, query[..|query| - 1]) + Contribution(corpus, weight, idx, query[|query| - 1])
  }

  // ----- ranking -----

  datatype Entry = Entry(row: nat, score: real)

  function Scores(corpus: seq<Document>, weight: Weight, query: seq<Term>): (r: seq<Entry>)
    ensures |r| == |corpus| && forall i :: 0 <= i < |r| ==> r[i] == Entry(i, ScoreOf(corpus, weight, i, query))
  {
    seq(|corpus|, i requires 0 <= i < |corpus| => Entry(i, ScoreOf(corpus, weight, i, query)))
  }

  function InsertEntry(e: Entry, sorted: seq<Entry>): (r: seq<Entry>)
    ensures multiset(r) == multiset(sorted) + multiset{e}
  {
    if sorted == [] || sorted[0].score <= e.score then [e] + sorted
    else
      assert sorted == [sorted[0]] + sorted[1..];
      [sorted[0]] + InsertEntry(e, sorted[1..])
  }

  // A stable sort by falling score.
  function SortDescending(entries: seq<Entry>): (r: seq<Entry>)
    ensures multiset(r) == multiset(entries)
  {
    if entries == [] then []
    else
      assert entries == [entries[0]] + entries[1..];
      InsertEntry(entries[0], SortDescending(entries[1..]))
  }

  function Ranking(corpus: seq<Document>, weight: Weight, query: seq<Term>): seq<Entry> {
    SortDescending(Scores(corpus, weight, query))
  }

  // Higher scores first, equal scores in row order.
  predicate Before(a: Entry, b: Entry) {
    a.score > b.score || (a.score == b.score && a.row < b.row)
  }

  ghost predicate Ordered(entries: seq<Entry>) {
    forall i, j :: 0 <= i < j < |entries| ==> Before(entries[i], entries[j])
  }

  ghost predicate RowsRise(entries: seq<Entry>) {
    forall i, j :: 0 <= i < j < |entries| ==> entries[i].row < entries[j].row
  }

  lemma {:induction false} InsertKeepsOrdered(e: Entry, sorted: seq<Entry>)
    requires Ordered(sorted) && forall x :: x in sorted ==> e.row < x.row
    ensures Ordered(InsertEntry(e, sorted))
  {
    if sorted != [] && sorted[0].score > e.score {
      InsertKeepsOrdered(e, sorted[1..]);
      var tail := InsertEntry(e, sorted[1..]);
      forall j | 0 <= j < |tail| ensures Before(sorted[0], tail[j]) {
        assert tail[j] in multiset(tail);
        assert tail[j] == e || tail[j] in sorted[1..];
      }
    }
  }

  lemma {:induction false} SortIsOrdered(entries: seq<Entry>)
    requires RowsRise(entries)
    ensures Ordered(SortDescending(entries))
  {
    if entries != [] {
      SortIsOrdered(entries[1..]);
      var sorted := SortDescending(entries[1..]);
      forall x | x in sorted ensures entries[0].row < x.row {
        assert x in multiset(sorted);
        assert x in entries[1..];
      }
      InsertKeepsOrdered(entries[0], sorted);
    }
  }

  lemma HeadsAgree(x: seq<Entry>, y: seq<Entry>)
    requires Ordered(x) && Ordered(y) && x != [] && y != [] && x[0] in y && y[0] in x
    ensures x[0] == y[0]
  {
    var i :| 0 <= i < |x| && x[i] == y[0];
    var j :| 0 <= j < |y| && y[j] == x[0];
    assert i == 0 || Before(x[0], y[0]);
  }

  lemma TailOf(x: seq<Entry>)
    requires x != []
    ensures multiset(x[1..]) == multiset(x) - multiset{x[0]}
  {
    assert x == [x[0]] + x[1..];
  }

  lemma {:induction false} OrderedIsUnique(x: seq<Entry>, y: seq<Entry>)
    requires Ordered(x) && Ordered(y) && multiset(x) == multiset(y)
    ensures x == y
  {
    assert |multiset(x)| == |multiset(y)|;
    if x != [] {
      assert x[0] in multiset(y) && y[0] in multiset(x);
      HeadsAgree(x, y);
      TailOf(x);
      TailOf(y);
      OrderedIsUnique(x[1..], y[1..]);
      assert x == [x[0]] + x[1..] && y == [y[0]] + y[1..];
    }
  }

  // The ranking holds every row once with its score, by falling score, ties in row
  // order; and nothing else does.
  lemma RankingIsTheOnlyOne(corpus: seq<Document>, weight: Weight, query: seq<Term>, r: seq<Entry>)
    ensures r == Ranking(corpus, weight, query) <==>
              && (forall i, j :: 0 <= i < j < |r| ==>
                    r[i].score > r[j].score || (r[i].score == r[j].score && r[i].row < r[j].row))
              && multiset(r) == multiset(Scores(corpus, weight, query))
  {
    SortIsOrdered(Scores(corpus, weight, query));
    if Ordered(r) && multiset(r) == multiset(Scores(corpus, weight, query)) {
      OrderedIsUnique(r, Ranking(corpus, weight, query));
    }
  }

  // What the words of a query contribute adds up, in whatever groups they are taken.
  lemma {:induction false} ScoreAdds(corpus: seq<Document>, weight: Weight, idx: nat, query: seq<Term>, more: seq<Term>)
    requires idx < |corpus|
    ensures ScoreOf(corpus, weight, idx, query + more) ==
            ScoreOf(corpus, weight, idx, query) + ScoreOf(corpus, weight, idx, more)
  {
    if more == [] {
      assert query + more == query;
    } else {
      var n := |more| - 1;
      ScoreAdds(corpus, weight, idx, query, more[..n]);
      assert (query + more)[..|query| + n] == query + more[..n];
    }
  }

  lemma {:induction false} HeldTermsCount(corpus: seq<Document>, term: Term, idx: nat)
    requires idx < |corpus| && term in corpus[idx]
    ensures DocumentFrequency(corpus, term) > 0
  {
    if idx < |corpus| - 1 {
      HeldTermsCount(corpus[..|corpus| - 1], term, idx);
    }
  }

  lemma OneWordScore(corpus: seq<Document>, weight: Weight, term: Term, idx: nat)
    requires idx < |corpus| && exists k :: 0 <= k < |corpus| && term in corpus[k]
    ensures Average(corpus) > 0.0
    ensures ScoreOf(corpus, weight, idx, [term]) ==
            TermScore(weight(|corpus|, DocumentFrequency(corpus, term)), multiset(corpus[idx])[term], |corpus[idx]|,
                      Average(corpus))
  {
    var k :| 0 <= k < |corpus| && term in corpus[k];
    HeldTermsCount(corpus, term, k);
    UsedTermsHaveLength(corpus, term);
    assert [term][..0] == [];
  }

  lemma RankedEntries(corpus: seq<Document>, weight: Weight, query: seq<Term>)
    ensures var r := Ranking(corpus, weight, query);
            && Ordered(r) && |r| == |corpus|
            && forall e :: e in r ==> e.row < |corpus| && e.score == ScoreOf(corpus, weight, e.row, query)
  {
    var r, scores := Ranking(corpus, weight, query), Scores(corpus, weight, query);
    RankingIsTheOnlyOne(corpus, weight, query, r);
    assert |r| == |multiset(r)| == |multiset(scores)|;
    forall e | e in r ensures e in scores {
      assert e in multiset(r);
    }
  }

  // For one word of positive weight: documents with the word come before those without;
  // of equally many occurrences the shorter document comes first; of equal lengths the
  // one with more occurrences; and what is equal in both keeps its order.
  lemma OneWordRanking(corpus: seq<Document>, weight: Weight, term: Term, i: nat, j: nat)
    requires weight(|corpus|, |set k | 0 <= k < |corpus| && term in corpus[k]|) > 0.0
    requires i < j < |Ranking(corpus, weight, [term])|
    ensures var a, b := Ranking(corpus, weight, [term])[i].row, Ranking(corpus, weight, [term])[j].row;
            && a < |corpus| && b < |corpus| && a != b
            && (term in corpus[b] ==> term in corpus[a])
            && (term in corpus[b] && multiset(corpus[a])[term] == multiset(corpus[b])[term] ==>
                |corpus[a]| <= |corpus[b]|)
            && (|corpus[a]| == |corpus[b]| ==> multiset(corpus[a])[term] >= multiset(corpus[b])[term])
            && (|corpus[a]| == |corpus[b]| && multiset(corpus[a])[term] == multiset(corpus[b])[term] ==> a < b)
            && (term !in corpus[a] ==> a < b)
  {
    var r := Ranking(corpus, weight, [term]);
    RankedEntries(corpus, weight, [term]);
    assert r[i] in r && r[j] in r && Before(r[i], r[j]);
    hide Ranking, Ordered, ScoreOf;
    OneWordRows(corpus, weight, term, r[i].row, r[j].row);
  }

  lemma OneWordRows(corpus: seq<Document>, weight: Weight, term: Term, a: nat, b: nat)
    requires weight(|corpus|, |set k | 0 <= k < |corpus| && term in corpus[k]|) > 0.0
    requires a < |corpus| && b < |corpus|
    requires Before(Entry(a, ScoreOf(corpus, weight, a, [term])), Entry(b, ScoreOf(corpus, weight, b, [term])))
    ensures a != b && (term in corpus[b] ==> term in corpus[a]) && (term !in corpus[a] ==> a < b)
    ensures term in corpus[b] && multiset(corpus[a])[term] == multiset(corpus[b])[term] ==> |corpus[a]| <= |corpus[b]|
    ensures |corpus[a]| == |corpus[b]| ==> multiset(corpus[a])[term] >= multiset(corpus[b])[term]
    ensures |corpus[a]| == |corpus[b]| && multiset(corpus[a])[term] == multiset(corpus[b])[term] ==> a < b
  {
    CountsDocuments(corpus, term);
    if exists k :: 0 <= k < |corpus| && term in corpus[k] {
      hide TermScore, Average, ScoreOf, DocumentFrequency;
      OneWordScore(corpus, weight, term, a);
      OneWordScore(corpus, weight, term, b);
      RowsCompare(weight(|corpus|, DocumentFrequency(corpus, term)), corpus[a], corpus[b], term, Average(corpus));
    } else {
      assert (set k | 0 <= k < |corpus| && term in corpus[k]) == {};
      assert DocumentFrequency(corpus, term) == 0 && [term][..0] == [];
      assert ScoreOf(corpus, weight, a, [term]) == 0.0 == ScoreOf(corpus, weight, b, [term]);
    }
  }

  lemma RowsCompare(weight: real, first: Document, second: Document, term: Term, average: real)
    requires weight > 0.0 && average > 0.0
    requires TermScore(weight, multiset(first)[term], |first|, average) >=
             TermScore(weight, multiset(second)[term], |second|, average)
    ensures term in second ==> term in first
    ensures term !in first ==> TermScore(weight, multiset(first)[term], |first|, average) ==
                               TermScore(weight, multiset(second)[term], |second|, average)
    ensures term in second && multiset(first)[term] == multiset(second)[term] ==> |first| <= |second|
    ensures |first| == |second| ==> multiset(first)[term] >= multiset(second)[term]
  {
    var f, s := multiset(first)[term], multiset(second)[term];
    assert term in first <==> f > 0;
    assert term in second <==> s > 0;
    TermScoreRange(weight, f, |first|, average);
    TermScoreRange(weight, s, |second|, average);
    if f == s && s > 0 && |first| > |second| {
      LongerDocumentsScoreLess(weight, f, |second|, |first|, average);
    }
    if |first| == |second| && f < s {
      MoreOccurrencesScoreMore(weight, f, s, |first|, average);
    }
  }

  // ----- counting -----

  function Get(m: map<Term, nat>, term: Term): nat {
    if term in m then m[term] else 0
  }

  ghost predicate CountsTerms(m: map<Term, nat>, doc: Document) {
    forall t: Term :: Get(m, t) == Frequency(doc, t) && (t in m ==> m[t] > 0)
  }

  // The document frequencies of the corpus on top of those in `base`.
  ghost predicate Adds(base: map<Term, nat>, m: map<Term, nat>, corpus: seq<Document>) {
    forall t: Term :: Get(m, t) == Get(base, t) + DocumentFrequency(corpus, t) && (t in m ==> m[t] > 0)
  }

  ghost predicate Positive(m: map<Term, nat>) {
    forall t :: t in m ==> m[t] > 0
  }

  method CountTerms(doc: Document) returns (tf: map<Term, nat>)
    ensures CountsTerms(tf, doc)
  {
    tf := map[];
    for j := 0 to |doc|
      invariant CountsTerms(tf, doc[..j])
    {
      assert doc[..j + 1] == doc[..j] + [doc[j]];
      tf := tf[doc[j] := Get(tf, doc[j]) + 1];
    }
    assert doc[..|doc|] == doc;
  }

  ghost predicate Weighed(idf: map<Term, real>, corpus: seq<Document>, weight: Weight) {
    && (forall t: Term :: t in idf <==> DocumentFrequency(corpus, t) > 0)
    && (forall t :: t in idf ==> idf[t] == weight(|corpus|, DocumentFrequency(corpus, t)))
  }

  lemma OneMoreDocument(base: map<Term, nat>, was: map<Term, nat>, now: map<Term, nat>, corpus: seq<Document>, i: nat)
    requires i < |corpus| && Adds(base, was, corpus[..i])
    requires forall t: Term ::
               Get(now, t) == Get(was, t) + (if t in corpus[i] then 1 else 0) && (t in now ==> now[t] > 0)
    ensures Adds(base, now, corpus[..i + 1])
  {
    assert corpus[..i + 1][..i] == corpus[..i];
    forall t: Term ensures Get(now, t) == Get(base, t) + DocumentFrequency(corpus[..i + 1], t) {
      assert Get(was, t) == Get(base, t) + DocumentFrequency(corpus[..i], t);
    }
  }

  lemma AddsKeepsKeys(base: map<Term, nat>, m: map<Term, nat>, corpus: seq<Document>)
    requires Positive(base) && Adds(base, m, corpus)
    ensures base.Keys <= m.Keys && Positive(m)
  {
    forall t | t in base ensures t in m {
      assert Get(m, t) == Get(base, t) + DocumentFrequency(corpus, t);
    }
  }

  // Every counted term, and no other, has the weight of its count.
  ghost predicate WeighedBy(idf: map<Term, real>, frequencies: map<Term, nat>, n: nat, weight: Weight) {
    idf.Keys == frequencies.Keys && forall t :: t in idf ==> idf[t] == weight(n, frequencies[t])
  }

  // The loop over the document frequencies that ends both `fit` methods.
  method Weigh(frequencies: map<Term, nat>, before: map<Term, real>, n: nat, weight: Weight)
    returns (idf: map<Term, real>)
    requires before.Keys <= frequencies.Keys
    ensures WeighedBy(idf, frequencies, n, weight)
  {
    idf := before;
    var rest := frequencies.Keys;
    while rest != {}
      invariant rest <= frequencies.Keys && frequencies.Keys - rest <= idf.Keys <= frequencies.Keys
      invariant forall t :: t in frequencies && t !in rest ==> idf[t] == weight(n, frequencies[t])
      decreases |rest|
    {
      var word :| word in rest;
      idf := idf[word := weight(n, frequencies[word])];
      rest := rest - {word};
    }
  }

  lemma WeighedAnew(idf: map<Term, real>, frequencies: map<Term, nat>, corpus: seq<Document>, weight: Weight)
    requires Adds(map[], frequencies, corpus) && WeighedBy(idf, frequencies, |corpus|, weight)
    ensures Weighed(idf, corpus, weight)
  {
    forall t: Term ensures t in frequencies <==> DocumentFrequency(corpus, t) > 0 {
      assert Get(frequencies, t) == Get(map[], t) + DocumentFrequency(corpus, t);
    }
  }

  function Tokenized(tokenize: Tokenizer, documents: seq<string>): (r: seq<Document>)
    ensures |r| == |documents| && forall i :: 0 <= i < |documents| ==> r[i] == tokenize(documents[i])
  {
    seq(|documents|, i requires 0 <= i < |documents| => tokenize(documents[i]))
  }

  method Tokenize(tokenize: Tokenizer, documents: seq<string>) returns (corpus: seq<Document>)
    ensures corpus == Tokenized(tokenize, documents)
  {
    corpus := [];
    for i := 0 to |documents|
      invariant |corpus| == i && forall k :: 0 <= k < i ==> corpus[k] == tokenize(documents[k])
    {
      corpus := corpus + [tokenize(documents[i])];
    }
  }

  function Lengths(corpus: seq<Document>): (r: seq<nat>)
    ensures |r| == |corpus| && forall i :: 0 <= i < |r| ==> r[i] == |corpus[i]|
  {
    seq(|corpus|, i requires 0 <= i < |corpus| => |corpus[i]|)
  }

  method Sum(lengths: seq<nat>, ghost corpus: seq<Document>) returns (total: nat)
    requires lengths == Lengths(corpus)
    ensures total == TotalLength(corpus)
  {
    total := 0;
    for i := 0 to |lengths|
      invariant total == TotalLength(corpus[..i])
    {
      assert corpus[..i + 1][..i] == corpus[..i];
      total := total + lengths[i];
    }
    assert corpus[..|lengths|] == corpus;
  }

  method Mean(lengths: seq<nat>, ghost corpus: seq<Document>) returns (mean: real)
    requires corpus != [] && lengths == Lengths(corpus)
    ensures mean == Average(corpus)
  {
    var total := Sum(lengths, corpus);
    mean := total as real / |lengths| as real;
  }

  // ----- the index with precomputed term frequencies -----

  class TunedIndex {
    const tokenize: Tokenizer
    const weight: Weight
    var corpus: seq<Document>
    var docLengths: seq<nat>
    var average: real
    var idf: map<Term, real>
    var documentFrequencies: map<Term, nat>
    var n: nat
    var termFrequencies: seq<map<Term, nat>>

    constructor (tokenize: Tokenizer, weight: Weight)
      ensures this.tokenize == tokenize && this.weight == weight && Unfitted() && Valid() && FittedTo([])
    {
      this.tokenize, this.weight := tokenize, weight;
      corpus, docLengths, average, idf, documentFrequencies, n, termFrequencies := [], [], 0.0, map[], map[], 0, [];
    }

    ghost predicate Unfitted()
      reads this
    {
      corpus == [] && idf == map[] && documentFrequencies == map[] && n == 0
    }

    // What holds of every index.
    ghost predicate Valid()
      reads this
    {
      idf.Keys == documentFrequencies.Keys && Positive(documentFrequencies)
    }

    ghost predicate Measured()
      reads this
    {
      && n == |corpus| > 0 && docLengths == Lengths(corpus)
      && average == (if Average(corpus) == 0.0 then 1.0 else Average(corpus))
      && |termFrequencies| == n
      && forall i :: 0 <= i < n ==> CountsTerms(termFrequencies[i], corpus[i])
    }

    ghost predicate FittedTo(documents: seq<string>)
      reads this
    {
      && corpus == Tokenized(tokenize, documents)
      && n == |corpus|
      && (n > 0 ==> Measured() && Weighed(idf, corpus, weight))
    }

    // A second fit replaces the documents and adds to the document frequencies; fitting
    // to no documents leaves everything else as it was.
    method Fit(documents: seq<string>)
      requires Valid()
      modifies this
      ensures Valid() && corpus == Tokenized(tokenize, documents) && n == |corpus|
      ensures n == 0 ==> documentFrequencies == old(documentFrequencies) && idf == old(idf)
      ensures n == 0 ==>
                docLengths == old(docLengths) && average == old(average) && termFrequencies == old(termFrequencies)
      ensures n > 0 ==>
                && Measured() && Adds(old(documentFrequencies), documentFrequencies, corpus)
                && WeighedBy(idf, documentFrequencies, n, weight)
      ensures old(Unfitted()) ==> FittedTo(documents)
    {
      corpus := Tokenize(tokenize, documents);
      n := |corpus|;
      if n == 0 { return; }
      docLengths := Lengths(corpus);
      average := Mean(docLengths, corpus);
      if average == 0.0 { average := 1.0; }
      Count();
      idf := Weigh(documentFrequencies, idf, n, weight);
      if old(Unfitted()) { WeighedAnew(idf, documentFrequencies, corpus, weight); }
    }

    method Count()
      requires Valid()
      modifies this`termFrequencies, this`documentFrequencies
      ensures |termFrequencies| == |corpus|
      ensures forall i :: 0 <= i < |corpus| ==> CountsTerms(termFrequencies[i], corpus[i])
      ensures Adds(old(documentFrequencies), documentFrequencies, corpus)
      ensures old(documentFrequencies).Keys <= documentFrequencies.Keys
    {
      termFrequencies := [];
      for i := 0 to |corpus|
        invariant |termFrequencies| == i
        invariant forall k :: 0 <= k < i ==> CountsTerms(termFrequencies[k], corpus[k])
        invariant Adds(old(documentFrequencies), documentFrequencies, corpus[..i])
      {
        var tf := CountTerms(corpus[i]);
        termFrequencies := termFrequencies + [tf];
        documentFrequencies := AddDocument(documentFrequencies, tf, old(documentFrequencies), corpus, i);
      }
      assert corpus[..|corpus|] == corpus;
      AddsKeepsKeys(old(documentFrequencies), documentFrequencies, corpus);
    }

    method Score(query: string, ghost documents: seq<string>) returns (ranked: seq<Entry>)
      requires FittedTo(documents)
      ensures ranked == Ranking(Tokenized(tokenize, documents), weight, tokenize(query))
    {
      var tokens := tokenize(query);
      var scores: seq<Entry> := [];
      for idx := 0 to n
        invariant |scores| == idx && forall k :: 0 <= k < idx ==>
                  scores[k] == Entry(k, ScoreOf(corpus, weight, k, tokens))
      {
        var score := ScoreRow(idx, tokens, documents);
        scores := scores + [Entry(idx, score)];
      }
      assert scores == Scores(corpus, weight, tokens);
      ranked := SortDescending(scores);
    }

    method ScoreRow(idx: nat, tokens: seq<Term>, ghost documents: seq<string>) returns (score: real)
      requires FittedTo(documents) && idx < n
      ensures score == ScoreOf(corpus, weight, idx, tokens)
    {
      score := 0.0;
      var tf := termFrequencies[idx];
      for j := 0 to |tokens|
        invariant score == ScoreOf(corpus, weight, idx, tokens[..j])
      {
        assert tokens[..j + 1][..j] == tokens[..j];
        if tokens[j] in idf {
          UsedTermsHaveLength(corpus, tokens[j]);
          assert Get(tf, tokens[j]) == Frequency(corpus[idx], tokens[j]);
          assert average == Average(corpus);
          score := score + TermScore(idf[tokens[j]], Get(tf, tokens[j]), docLengths[idx], average);
        }
      }
      assert tokens[..|tokens|] == tokens;
    }
  }

  // Each term of a document once.
  method AddDocument(frequencies: map<Term, nat>, tf: map<Term, nat>,
                     ghost base: map<Term, nat>, ghost corpus: seq<Document>, ghost i: nat)
    returns (r: map<Term, nat>)
    requires i < |corpus| && CountsTerms(tf, corpus[i]) && Adds(base, frequencies, corpus[..i])
    ensures Adds(base, r, corpus[..i + 1])
  {
    r := frequencies;
    var rest := tf.Keys;
    while rest != {}
      invariant rest <= tf.Keys
      invariant forall t: Term ::
                  && Get(r, t) == Get(frequencies, t) + (if t in tf && t !in rest then 1 else 0)
                  && (t in r ==> r[t] > 0)
      decreases |rest|
    {
      var word :| word in rest;
      r := r[word := Get(r, word) + 1];
      rest := rest - {word};
    }
    assert forall t: Term :: t in tf <==> Get(tf, t) > 0;
    OneMoreDocument(base, frequencies, r, corpus, i);
  }

  // ----- the index that counts at every query -----

  class PlainIndex {
    const tokenize: Tokenizer
    const weight: Weight
    var corpus: seq<Document>
    var docLengths: seq<nat>
    var average: real
    var idf: map<Term, real>
    var documentFrequencies: map<Term, nat>
    var n: nat

    constructor (tokenize: Tokenizer, weight: Weight)
      ensures this.tokenize == tokenize && this.weight == weight && Unfitted() && Valid() && FittedTo([])
    {
      this.tokenize, this.weight := tokenize, weight;
      corpus, docLengths, average, idf, documentFrequencies, n := [], [], 0.0, map[], map[], 0;
    }

    ghost predicate Unfitted()
      reads this
    {
      corpus == [] && idf == map[] && documentFrequencies == map[] && n == 0
    }

    // What holds of every index.
    ghost predicate Valid()
      reads this
    {
      idf.Keys == documentFrequencies.Keys && Positive(documentFrequencies)
    }

    ghost predicate FittedTo(documents: seq<string>)
      reads this
    {
      && corpus == Tokenized(tokenize, documents)
      && n == |corpus|
      && (n > 0 ==> docLengths == Lengths(corpus) && average == Average(corpus) && Weighed(idf, corpus, weight))
    }

    method Fit(documents: seq<string>)
      requires Valid()
      modifies this
      ensures Valid() && corpus == Tokenized(tokenize, documents) && n == |corpus|
      ensures n == 0 ==> documentFrequencies == old(documentFrequencies) && idf == old(idf)
      ensures n == 0 ==> docLengths == old(docLengths) && average == old(average)
      ensures n > 0 ==>
                && docLengths == Lengths(corpus) && average == Average(corpus)
                && Adds(old(documentFrequencies), documentFrequencies, corpus)
                && WeighedBy(idf, documentFrequencies, n, weight)
      ensures old(Unfitted()) ==> FittedTo(documents)
    {
      corpus := Tokenize(tokenize, documents);
      n := |corpus|;
      if n == 0 { return; }
      docLengths := Lengths(corpus);
      average := Mean(docLengths, corpus);
      Count();
      idf := Weigh(documentFrequencies, idf, n, weight);
      if old(Unfitted()) { WeighedAnew(idf, documentFrequencies, corpus, weight); }
    }

    method Count()
      requires Valid()
      modifies this`documentFrequencies
      ensures Adds(old(documentFrequencies), documentFrequencies, corpus)
      ensures old(documentFrequencies).Keys <= documentFrequencies.Keys
    {
      for i := 0 to |corpus|
        invariant Adds(old(documentFrequencies), documentFrequencies, corpus[..i])
      {
        var seen: set<Term> := {};
        ghost var was := documentFrequencies;
        for j := 0 to |corpus[i]|
          invariant seen == set t | t in corpus[i][..j]
          invariant forall t: Term ::
                      && Get(documentFrequencies, t) == Get(was, t) + (if t in seen then 1 else 0)
                      && (t in documentFrequencies ==> documentFrequencies[t] > 0)
        {
          var word := corpus[i][j];
          if word !in seen {
            documentFrequencies := documentFrequencies[word := Get(documentFrequencies, word) + 1];
            seen := seen + {word};
          }
        }
        OneMoreDocument(old(documentFrequencies), was, documentFrequencies, corpus, i);
      }
      assert corpus[..|corpus|] == corpus;
      AddsKeepsKeys(old(documentFrequencies), documentFrequencies, corpus);
    }

    method Score(query: string, ghost documents: seq<string>) returns (ranked: seq<Entry>)
      requires FittedTo(documents)
      ensures ranked == Ranking(Tokenized(tokenize, documents), weight, tokenize(query))
    {
      var tokens := tokenize(query);
      var scores: seq<Entry> := [];
      for idx := 0 to n
        invariant |scores| == idx && forall k :: 0 <= k < idx ==>
                  scores[k] == Entry(k, ScoreOf(corpus, weight, k, tokens))
      {
        var score := ScoreRow(idx, tokens, documents);
        scores := scores + [Entry(idx, score)];
      }
      assert scores == Scores(corpus, weight, tokens);
      ranked := SortDescending(scores);
    }

    method ScoreRow(idx: nat, tokens: seq<Term>, ghost documents: seq<string>) returns (score: real)
      requires FittedTo(documents) && idx < n
      ensures score == ScoreOf(corpus, weight, idx, tokens)
    {
      score := 0.0;
      var tf := CountTerms(corpus[idx]);
      for j := 0 to |tokens|
        invariant score == ScoreOf(corpus, weight, idx, tokens[..j])
      {
        assert tokens[..j + 1][..j] == tokens[..j];
        if tokens[j] in idf {
          UsedTermsHaveLength(corpus, tokens[j]);
          assert Get(tf, tokens[j]) == Frequency(corpus[idx], tokens[j]);
          assert average == Average(corpus);
          score := score + TermScore(idf[tokens[j]], Get(tf, tokens[j]), docLengths[idx], average);
        }
      }
      assert tokens[..|tokens|] == tokens;
    }
  }

  // Under one tokenizer the two rank every corpus alike for every query.
  method SameRanking(tuned: TunedIndex, plain: PlainIndex, query: string, ghost documents: seq<string>)
    returns (a: seq<Entry>, b: seq<Entry>)
    requires tuned.tokenize == plain.tokenize && tuned.weight == plain.weight
    requires tuned.FittedTo(documents) && plain.FittedTo(documents)
    ensures a == b == Ranking(Tokenized(tuned.tokenize, documents), tuned.weight, tuned.tokenize(query))
    ensures Ordered(a) && |a| == |documents|
  {
    a := tuned.Score(query, documents);
    b := plain.Score(query, documents);
    RankingIsTheOnlyOne(Tokenized(tuned.tokenize, documents), tuned.weight, tuned.tokenize(query), a);
    assert |a| == |multiset(a)| ==
      |multiset(Scores(Tokenized(tuned.tokenize, documents), tuned.weight, tuned.tokenize(query)))|;
  }
}
