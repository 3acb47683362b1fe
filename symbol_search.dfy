/** Case-insensitive symbol and name search with relevance scoring
    (`filter_symbols_impl`, wasm/src/lib.rs). */
module SymbolSearch {
  import opened ChartTypes
  import opened Strings

  /** A matching entry together with its score. */
  datatype ScoredEntry = ScoredEntry(symbol: string, name: string, score: nat)

  /** Relevance of an entry for an already lower-cased query; the first rule
      that applies wins: exact symbol 100, symbol prefix 80, symbol substring
      60, name prefix 40, name substring 20, otherwise 0 (no match). */
  function Score(e: SymbolEntry, q: string): (score: nat)
    ensures score in {0, 20, 40, 60, 80, 100}
  {
    var sym := Lower(e.symbol);
    var name := Lower(e.name);
    if sym == q then 100
    else if IsPrefix(q, sym) then 80
    else if Contains(sym, q) then 60
    else if IsPrefix(q, name) then 40
    else if Contains(name, q) then 20
    else 0
  }

  /** Each score is given exactly when its own rule is the first that applies. */
  lemma ScoreLadder(e: SymbolEntry, q: string)
    ensures Score(e, q) == 100 <==> Lower(e.symbol) == q
    ensures Score(e, q) == 80 <==> Lower(e.symbol) != q && IsPrefix(q, Lower(e.symbol))
    ensures Score(e, q) == 60 <==> !IsPrefix(q, Lower(e.symbol)) && Contains(Lower(e.symbol), q)
    ensures Score(e, q) == 40 <==> !Contains(Lower(e.symbol), q) && IsPrefix(q, Lower(e.name))
    ensures Score(e, q) == 20 <==> !Contains(Lower(e.symbol), q) && !IsPrefix(q, Lower(e.name)) && Contains(Lower(e.name), q)
    ensures Score(e, q) == 0 <==> !Contains(Lower(e.symbol), q) && !Contains(Lower(e.name), q)
  {
    var sym := Lower(e.symbol);
    var name := Lower(e.name);
    if sym == q {
      assert IsPrefix(q, sym);
    }
    if IsPrefix(q, sym) {
      PrefixContained(q, sym);
    }
    if IsPrefix(q, name) {
      PrefixContained(q, name);
    }
  }

  /** Scoring depends only on the lower-cased symbol, name and query. */
  lemma ScoreCaseInsensitive(e1: SymbolEntry, e2: SymbolEntry, query1: string, query2: string)
    requires Lower(e1.symbol) == Lower(e2.symbol) && Lower(e1.name) == Lower(e2.name)
    requires Lower(query1) == Lower(query2)
    ensures Score(e1, Lower(query1)) == Score(e2, Lower(query2))
  {}

  /** The entries in order with their scores, leaving out those scoring 0. */
  function Matches(entries: seq<SymbolEntry>, q: string): (r: seq<ScoredEntry>)
    ensures |r| <= |entries|
    ensures forall j :: 0 <= j < |r| ==> r[j].score > 0
    decreases |entries|
  {
    if |entries| == 0 then []
    else
      var rest := Matches(entries[..|entries| - 1], q);
      var e := entries[|entries| - 1];
      var score := Score(e, q);
      if score == 0 then rest else rest + [ScoredEntry(e.symbol, e.name, score)]
  }

  /** Every match comes from an entry and carries that entry's score. */
  lemma {:induction false} MatchesFromEntries(entries: seq<SymbolEntry>, q: string)
    ensures forall m :: m in Matches(entries, q) ==>
              SymbolEntry(m.symbol, m.name) in entries && m.score == Score(SymbolEntry(m.symbol, m.name), q)
    decreases |entries|
  {
    if |entries| > 0 {
      MatchesFromEntries(entries[..|entries| - 1], q);
    }
  }

  /** Every entry that scores above 0 appears among the matches. */
  lemma {:induction false} MatchesComplete(entries: seq<SymbolEntry>, q: string)
    ensures forall e :: e in entries && Score(e, q) > 0 ==> ScoredEntry(e.symbol, e.name, Score(e, q)) in Matches(entries, q)
    decreases |entries|
  {
    if |entries| > 0 {
      var init := entries[..|entries| - 1];
      MatchesComplete(init, q);
      assert entries == init + [entries[|entries| - 1]];
    }
  }

  /** The order of the comparator: higher score first, then symbol ascending. */
  predicate Le(a: ScoredEntry, b: ScoredEntry) {
    a.score > b.score || (a.score == b.score && StrLe(a.symbol, b.symbol))
  }

  lemma LeTotal(a: ScoredEntry, b: ScoredEntry)
    ensures Le(a, b) || Le(b, a)
  {
    StrLeTotal(a.symbol, b.symbol);
  }

  lemma LeTransitive(a: ScoredEntry, b: ScoredEntry, c: ScoredEntry)
    requires Le(a, b) && Le(b, c)
    ensures Le(a, c)
  {
    if a.score == b.score && b.score == c.score {
      StrLeTransitive(a.symbol, b.symbol, c.symbol);
    }
  }

  /** No later element precedes an earlier one. */
  predicate Sorted(s: seq<ScoredEntry>) {
    forall i, j :: 0 <= i < j < |s| ==> Le(s[i], s[j])
  }

  /** Inserts x before the first element it does not follow. */
  function Insert(x: ScoredEntry, s: seq<ScoredEntry>): (r: seq<ScoredEntry>)
    ensures multiset(r) == multiset(s) + multiset{x}
    ensures |r| == |s| + 1
  {
    if |s| == 0 then [x]
    else if Le(x, s[0]) then [x] + s
    else
      assert s == [s[0]] + s[1..];
      [s[0]] + Insert(x, s[1..])
  }

  lemma {:induction false} InsertSorted(x: ScoredEntry, s: seq<ScoredEntry>)
    requires Sorted(s)
    ensures Sorted(Insert(x, s))
    decreases |s|
  {
    if |s| > 0 {
      if Le(x, s[0]) {
        forall j | 0 <= j < |s| ensures Le(x, s[j]) {
          if j > 0 {
            LeTransitive(x, s[0], s[j]);
          }
        }
      } else {
        LeTotal(x, s[0]);
        InsertSorted(x, s[1..]);
        var r := Insert(x, s[1..]);
        forall j | 0 <= j < |r| ensures Le(s[0], r[j]) {
          assert r[j] in multiset(r);
          assert r[j] == x || r[j] in multiset(s[1..]);
          if r[j] != x {
            var k :| 0 <= k < |s[1..]| && s[1..][k] == r[j];
            assert s[k + 1] == r[j];
          }
        }
      }
    }
  }

  /** `sort_by` with the comparator of `filter_symbols_impl`, as an insertion
      sort on values. */
  function SortEntries(s: seq<ScoredEntry>): (r: seq<ScoredEntry>)
    ensures multiset(r) == multiset(s)
    ensures |r| == |s|
  {
    if |s| == 0 then []
    else
      assert s == [s[0]] + s[1..];
      Insert(s[0], SortEntries(s[1..]))
  }

  /** The sorted sequence is sorted. */
  lemma {:induction false} SortEntriesSorted(s: seq<ScoredEntry>)
    ensures Sorted(SortEntries(s))
  {
    if |s| > 0 {
      SortEntriesSorted(s[1..]);
      InsertSorted(s[0], SortEntries(s[1..]));
    }
  }

  /** Drops the scores. */
  function Unscore(s: seq<ScoredEntry>): (r: seq<SymbolEntry>)
    ensures |r| == |s|
    ensures forall j :: 0 <= j < |s| ==> r[j] == SymbolEntry(s[j].symbol, s[j].name)
  {
    seq(|s|, j requires 0 <= j < |s| => SymbolEntry(s[j].symbol, s[j].name))
  }

  /** The ranked matches before truncation. */
  function Ranked(entries: seq<SymbolEntry>, query: string): seq<ScoredEntry> {
    SortEntries(Matches(entries, Lower(query)))
  }

  /** `filter_symbols_impl`: an empty query returns the first `maxResults`
      entries; otherwise the matches, ranked and cut to `maxResults`. */
  function FilterSymbols(entries: seq<SymbolEntry>, query: string, maxResults: nat): (r: seq<SymbolEntry>)
    ensures |r| <= maxResults
  {
    if |query| == 0 then entries[..Min(maxResults, |entries|)]
    else
      var ranked := Ranked(entries, query);
      Unscore(ranked[..Min(maxResults, |ranked|)])
  }

  /** An empty query returns the first `maxResults` entries in input order. */
  lemma FilterEmptyQuery(entries: seq<SymbolEntry>, maxResults: nat)
    ensures FilterSymbols(entries, "", maxResults) == entries[..Min(maxResults, |entries|)]
  {}

  /** Every ranked match is an input entry carrying its own positive score,
      and the ranking is sorted. */
  lemma RankedFacts(entries: seq<SymbolEntry>, query: string)
    ensures var ranked := Ranked(entries, query);
            forall j :: 0 <= j < |ranked| ==>
              var e := SymbolEntry(ranked[j].symbol, ranked[j].name);
              e in entries && ranked[j].score == Score(e, Lower(query)) && ranked[j].score > 0
    ensures Sorted(Ranked(entries, query))
  {
    var q := Lower(query);
    var ranked := Ranked(entries, query);
    SortEntriesSorted(Matches(entries, q));
    MatchesFromEntries(entries, q);
    forall j | 0 <= j < |ranked|
      ensures var e := SymbolEntry(ranked[j].symbol, ranked[j].name);
              e in entries && ranked[j].score == Score(e, q) && ranked[j].score > 0
    {
      assert ranked[j] in multiset(Matches(entries, q));
    }
  }

  /** A non-empty query returns min(maxResults, number of matches) entries,
      each an input entry matching the query, in ranked order: scores never
      increase and equal scores come in ascending symbol order. */
  lemma FilterRanked(entries: seq<SymbolEntry>, query: string, maxResults: nat)
    requires |query| > 0
    ensures |FilterSymbols(entries, query, maxResults)| == Min(maxResults, |Matches(entries, Lower(query))|)
    ensures var r := FilterSymbols(entries, query, maxResults);
            forall j :: 0 <= j < |r| ==> r[j] in entries && Score(r[j], Lower(query)) > 0
    ensures var r := FilterSymbols(entries, query, maxResults);
            forall i, j :: 0 <= i < j < |r| ==>
              Score(r[i], Lower(query)) > Score(r[j], Lower(query))
              || (Score(r[i], Lower(query)) == Score(r[j], Lower(query)) && StrLe(r[i].symbol, r[j].symbol))
  {
    var q := Lower(query);
    var ranked := Ranked(entries, query);
    var r := FilterSymbols(entries, query, maxResults);
    RankedFacts(entries, query);
    assert forall j :: 0 <= j < |r| ==> r[j] == SymbolEntry(ranked[j].symbol, ranked[j].name);
    forall i, j | 0 <= i < j < |r|
      ensures Score(r[i], q) > Score(r[j], q) || (Score(r[i], q) == Score(r[j], q) && StrLe(r[i].symbol, r[j].symbol))
    {
      assert Le(ranked[i], ranked[j]);
    }
  }

  /** Nothing is dropped for the wrong reason: every matching entry either
      appears in the result or is ranked no higher than everything kept, and
      then the result is full. */
  lemma FilterDropsOnlyLowerRanked(entries: seq<SymbolEntry>, query: string, maxResults: nat, e: SymbolEntry)
    requires |query| > 0 && e in entries && Score(e, Lower(query)) > 0
    ensures var r := FilterSymbols(entries, query, maxResults);
            var s := ScoredEntry(e.symbol, e.name, Score(e, Lower(query)));
            e in r || (|r| == maxResults && forall j :: 0 <= j < |r| ==>
                         Le(ScoredEntry(r[j].symbol, r[j].name, Score(r[j], Lower(query))), s))
  {
    var q := Lower(query);
    var ranked := Ranked(entries, query);
    var r := FilterSymbols(entries, query, maxResults);
    var s := ScoredEntry(e.symbol, e.name, Score(e, q));
    MatchesComplete(entries, q);
    MatchesFromEntries(entries, q);
    SortEntriesSorted(Matches(entries, q));
    assert s in multiset(ranked);
    var k :| 0 <= k < |ranked| && ranked[k] == s;
    if k < Min(maxResults, |ranked|) {
      assert r[k] == e;
    } else {
      forall j | 0 <= j < |r| ensures Le(ScoredEntry(r[j].symbol, r[j].name, Score(r[j], q)), s) {
        assert ranked[j] in multiset(Matches(entries, q));
        assert ScoredEntry(r[j].symbol, r[j].name, Score(r[j], q)) == ranked[j];
      }
    }
  }

  /** The scoring loop of `filter_symbols_impl`. */
  method ScoreEntries(entries: seq<SymbolEntry>, q: string) returns (scored: seq<ScoredEntry>)
    ensures scored == Matches(entries, q)
  {
    scored := [];
    for i := 0 to |entries|
      invariant scored == Matches(entries[..i], q)
    {
      var entry := entries[i];
      var sym := Lower(entry.symbol);
      var name := Lower(entry.name);
      var score := 0;
      if sym == q {
        score := 100;
      } else if IsPrefix(q, sym) {
        score := 80;
      } else if Contains(sym, q) {
        score := 60;
      } else if IsPrefix(q, name) {
        score := 40;
      } else if Contains(name, q) {
        score := 20;
      }
      assert entries[..i + 1][..i] == entries[..i];
      if score != 0 {
        scored := scored + [ScoredEntry(entry.symbol, entry.name, score)];
      }
    }
    assert entries[..|entries|] == entries;
  }

  /** `filter_symbols_impl`, with the scoring loop, the sort and the truncation. */
  method FilterSymbolsImpl(entries: seq<SymbolEntry>, query: string, maxResults: nat) returns (result: seq<SymbolEntry>)
    ensures result == FilterSymbols(entries, query, maxResults)
  {
    if |query| == 0 {
      return entries[..Min(maxResults, |entries|)];
    }
    var q := Lower(query);
    var scored := ScoreEntries(entries, q);
    scored := SortEntries(scored);
    if |scored| > maxResults {
      scored := scored[..maxResults];
    }
    result := Unscore(scored);
  }
}
