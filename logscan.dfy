/**
 * The log analyzer (`log_analyzer_1.py`, `analyze_logs`): every line of a log
 * file is checked against every keyword, case-insensitively; a counter keyed by
 * the keyword as given is bumped for each hit.  The counts become a summary of
 * count, percentage of the total and a `#` bar per keyword, which is optionally
 * appended to the history, mailed, and checked for alert keywords.
 */
module LogScan {
  import opened Wrappers
  import Text
  import Dict
  import History
  import Cli

  /** `keyword.lower() in line.lower()` */
  predicate Hits(line: string, keyword: string) {
    Text.Contains(Text.LowerStr(line), Text.LowerStr(keyword))
  }

  // ---------------------------------------------------------------------------
  // The scan, as a fold over lines and keywords

  /** `counts[k] += 1` on a counter. */
  function Bump(d: seq<(string, nat)>, k: string): seq<(string, nat)> {
    Dict.Put<string, nat>(d, k, Dict.Count(d, k) + 1)
  }

  /** One line checked against each keyword in turn. */
  function ScanLine(d: seq<(string, nat)>, line: string, kws: seq<string>): seq<(string, nat)> {
    if kws == [] then d
    else
      var before := ScanLine(d, line, kws[..|kws| - 1]);
      var k := kws[|kws| - 1];
      if Hits(line, k) then Bump(before, k) else before
  }

  /** Every line checked, in order. */
  function Scan(d: seq<(string, nat)>, lines: seq<string>, kws: seq<string>): seq<(string, nat)> {
    if lines == [] then d
    else ScanLine(Scan(d, lines[..|lines| - 1], kws), lines[|lines| - 1], kws)
  }

  // ---------------------------------------------------------------------------
  // What the scan counts

  /** How many times `k` appears in the keyword list. */
  function Occurrences(kws: seq<string>, k: string): (n: nat)
    ensures n <= |kws|
  {
    if kws == [] then 0
    else Occurrences(kws[..|kws| - 1], k) + (if kws[|kws| - 1] == k then 1 else 0)
  }

  /** How many lines `k` hits. */
  function MatchingLines(lines: seq<string>, k: string): (n: nat)
    ensures n <= |lines|
  {
    if lines == [] then 0
    else MatchingLines(lines[..|lines| - 1], k) + (if Hits(lines[|lines| - 1], k) then 1 else 0)
  }

  /** How many positions of the keyword list hit `line`. */
  function LineHits(line: string, kws: seq<string>): (n: nat)
    ensures n <= |kws|
  {
    if kws == [] then 0
    else LineHits(line, kws[..|kws| - 1]) + (if Hits(line, kws[|kws| - 1]) then 1 else 0)
  }

  /** The number of (line, keyword position) pairs that hit. */
  function AllPairs(lines: seq<string>, kws: seq<string>): nat {
    if lines == [] then 0
    else AllPairs(lines[..|lines| - 1], kws) + LineHits(lines[|lines| - 1], kws)
  }

  lemma {:induction false} OccurrencesPositive(kws: seq<string>, k: string)
    ensures Occurrences(kws, k) > 0 <==> k in kws
    ensures Dict.Distinct(kws) && k in kws ==> Occurrences(kws, k) == 1
  {
    if kws != [] {
      var init := kws[..|kws| - 1];
      OccurrencesPositive(init, k);
      assert kws == init + [kws[|kws| - 1]];
    }
  }

  lemma {:induction false} MatchingLinesPositive(lines: seq<string>, k: string)
    ensures MatchingLines(lines, k) > 0 <==> exists i :: 0 <= i < |lines| && Hits(lines[i], k)
  {
    if lines != [] {
      var init := lines[..|lines| - 1];
      MatchingLinesPositive(init, k);
      if exists i :: 0 <= i < |lines| && Hits(lines[i], k) {
        var i :| 0 <= i < |lines| && Hits(lines[i], k);
        if i < |init| {
          assert init[i] == lines[i];
        }
      }
      if exists i :: 0 <= i < |init| && Hits(init[i], k) {
        var i :| 0 <= i < |init| && Hits(init[i], k);
        assert lines[i] == init[i];
      }
    }
  }

  /** Scanning one line adds the keyword's occurrences to its count when it hits. */
  lemma {:induction false} ScanLineCount(d: seq<(string, nat)>, line: string, kws: seq<string>, k: string)
    ensures Dict.Count(ScanLine(d, line, kws), k) ==
      Dict.Count(d, k) + (if Hits(line, k) then Occurrences(kws, k) else 0)
  {
    if kws != [] {
      var init := kws[..|kws| - 1];
      var last := kws[|kws| - 1];
      var before := ScanLine(d, line, init);
      ScanLineCount(d, line, init, k);
      assert Occurrences(kws, k) == Occurrences(init, k) + (if last == k then 1 else 0);
      if !Hits(line, last) {
        assert ScanLine(d, line, kws) == before;
      } else if last == k {
        assert ScanLine(d, line, kws) == Bump(before, k);
      } else {
        assert ScanLine(d, line, kws) == Bump(before, last);
        Dict.PutOther<string, nat>(before, last, Dict.Count(before, last) + 1, k);
      }
    }
  }

  /** `counts[k]` after the scan: the lines `k` hits, times the times `k` was given. */
  lemma {:induction false} ScanCount(d: seq<(string, nat)>, lines: seq<string>, kws: seq<string>, k: string)
    ensures Dict.Count(Scan(d, lines, kws), k) ==
      Dict.Count(d, k) + MatchingLines(lines, k) * Occurrences(kws, k)
  {
    if lines != [] {
      var init := lines[..|lines| - 1];
      var last := lines[|lines| - 1];
      var before := Scan(d, init, kws);
      assert Scan(d, lines, kws) == ScanLine(before, last, kws);
      ScanCount(d, init, kws, k);
      ScanLineCount(before, last, kws, k);
      var m := MatchingLines(init, k);
      var o := Occurrences(kws, k);
      assert MatchingLines(lines, k) == m + (if Hits(last, k) then 1 else 0);
      if Hits(last, k) {
        OneMore(m, o);
      }
    }
  }

  lemma OneMore(m: nat, o: nat)
    ensures (m + 1) * o == m * o + o
  {
  }

  lemma {:induction false} ScanLineSum(d: seq<(string, nat)>, line: string, kws: seq<string>)
    ensures Dict.SumValues(ScanLine(d, line, kws)) == Dict.SumValues(d) + LineHits(line, kws)
  {
    if kws != [] {
      var init := kws[..|kws| - 1];
      var last := kws[|kws| - 1];
      var before := ScanLine(d, line, init);
      ScanLineSum(d, line, init);
      assert LineHits(line, kws) == LineHits(line, init) + (if Hits(line, last) then 1 else 0);
      if Hits(line, last) {
        assert ScanLine(d, line, kws) == Bump(before, last);
        Dict.SumAfterIncrement(before, last);
      } else {
        assert ScanLine(d, line, kws) == before;
      }
    }
  }

  /** The sum of all counts after the scan is the number of hitting pairs. */
  lemma {:induction false} ScanSum(d: seq<(string, nat)>, lines: seq<string>, kws: seq<string>)
    ensures Dict.SumValues(Scan(d, lines, kws)) == Dict.SumValues(d) + AllPairs(lines, kws)
  {
    if lines != [] {
      var init := lines[..|lines| - 1];
      ScanSum(d, init, kws);
      ScanLineSum(Scan(d, init, kws), lines[|lines| - 1], kws);
    }
  }

  /** At most one hit per line and keyword position. */
  lemma {:induction false} AllPairsBound(lines: seq<string>, kws: seq<string>)
    ensures AllPairs(lines, kws) <= |lines| * |kws|
  {
    if lines != [] {
      var n := |lines| - 1;
      AllPairsBound(lines[..n], kws);
      OneMore(n, |kws|);
    }
  }

  /** Counts of a scan from an empty counter over a list without repeats: each
      count is the number of lines the keyword hits, so at most the number of
      lines, and a keyword that was not given has count 0. */
  lemma CountBound(lines: seq<string>, kws: seq<string>, k: string)
    requires Dict.Distinct(kws)
    ensures Dict.Count(Scan([], lines, kws), k) == if k in kws then MatchingLines(lines, k) else 0
    ensures Dict.Count(Scan([], lines, kws), k) <= |lines|
  {
    ScanCount([], lines, kws, k);
    OccurrencesPositive(kws, k);
  }

  /** Adding a keyword at the end adds the lines it hits. */
  lemma {:induction false} AllPairsSnoc(lines: seq<string>, kws: seq<string>, x: string)
    ensures AllPairs(lines, kws + [x]) == AllPairs(lines, kws) + MatchingLines(lines, x)
  {
    if lines != [] {
      var n := |lines| - 1;
      AllPairsSnoc(lines[..n], kws, x);
      assert (kws + [x])[..|kws|] == kws;
    }
  }

  lemma {:induction false} AllPairsEmpty(lines: seq<string>)
    ensures AllPairs(lines, []) == 0
  {
    if lines != [] {
      AllPairsEmpty(lines[..|lines| - 1]);
    }
  }

  /** `counts[k]` summed over `ks`. */
  function CountSum(counts: seq<(string, nat)>, ks: seq<string>): nat {
    if ks == [] then 0 else CountSum(counts, ks[..|ks| - 1]) + Dict.Count(counts, ks[|ks| - 1])
  }

  /** Giving one more keyword `x` adds the lines `x` hits to the counts summed
      over distinct keys `ks`, when `x` is among them. */
  lemma {:induction false} CountSumSnoc(lines: seq<string>, kws: seq<string>, x: string, ks: seq<string>)
    requires Dict.Distinct(ks)
    ensures CountSum(Scan([], lines, kws + [x]), ks) ==
      CountSum(Scan([], lines, kws), ks) + (if x in ks then MatchingLines(lines, x) else 0)
  {
    if ks != [] {
      var init := ks[..|ks| - 1];
      var k := ks[|ks| - 1];
      assert Dict.Distinct(init);
      CountSumSnoc(lines, kws, x, init);
      assert ks == init + [k];
      assert x in ks <==> x in init || x == k;
      assert x == k ==> x !in init;
      CountAfterGiven(lines, kws, x, k);
    }
  }

  /** Giving one more keyword `x` adds the lines `x` hits to `counts[x]` and
      leaves every other count as it was. */
  lemma CountAfterGiven(lines: seq<string>, kws: seq<string>, x: string, k: string)
    ensures Dict.Count(Scan([], lines, kws + [x]), k) ==
      Dict.Count(Scan([], lines, kws), k) + (if x == k then MatchingLines(lines, k) else 0)
  {
    ScanCount([], lines, kws + [x], k);
    ScanCount([], lines, kws, k);
    assert (kws + [x])[..|kws|] == kws;
    var m := MatchingLines(lines, k);
    var o := Occurrences(kws, k);
    if x == k {
      assert Occurrences(kws + [x], k) == o + 1;
      MoreTimes(m, o);
    } else {
      assert Occurrences(kws + [x], k) == o;
    }
  }

  lemma MoreTimes(m: nat, o: nat)
    ensures m * (o + 1) == m * o + m
  {
  }

  /** The counts of the distinct keywords add up to the total, whether or not a
      keyword was given more than once. */
  lemma {:induction false} CountsAddUp(lines: seq<string>, kws: seq<string>)
    ensures CountSum(Scan([], lines, kws), Dict.Dedup(kws)) == AllPairs(lines, kws)
  {
    if kws == [] {
      AllPairsEmpty(lines);
    } else {
      var init := kws[..|kws| - 1];
      var x := kws[|kws| - 1];
      var d := Dict.Dedup(init);
      assert kws == init + [x];
      CountsAddUp(lines, init);
      AllPairsSnoc(lines, init, x);
      CountSumSnoc(lines, init, x, d);
      if x !in init {
        var d' := d + [x];
        assert d'[..|d'| - 1] == d;
        ScanCount([], lines, kws, x);
        OccurrencesPositive(init, x);
        assert Occurrences(kws, x) == 1;
      }
    }
  }

  // ---------------------------------------------------------------------------
  // The counter

  /** `collections.Counter()` over keyword strings: an insertion-ordered
      dictionary of counts in which a missing key reads as zero. */
  class Counter {
    var entries: seq<(string, nat)>

    /** No key is stored twice. */
    predicate Valid()
      reads this
    {
      Dict.Distinct(Dict.Keys(entries))
    }

    constructor ()
      ensures entries == [] && Valid()
    {
      entries := [];
    }

    /** `counts[k]` */
    function Get(k: string): nat
      reads this
    {
      Dict.Count(entries, k)
    }

    /** `counts[k] += 1` */
    method Increment(k: string)
      requires Valid()
      modifies this
      ensures entries == Bump(old(entries), k)
      ensures Valid()
    {
      Dict.PutKeepsKeysDistinct<string, nat>(entries, k, Dict.Count(entries, k) + 1);
      entries := Dict.Put<string, nat>(entries, k, Dict.Count(entries, k) + 1);
    }

    /** `sum(counts.values())` */
    method Total() returns (t: nat)
      ensures t == Dict.SumValues(entries)
    {
      t := 0;
      var i := 0;
      while i < |entries|
        invariant 0 <= i <= |entries|
        invariant t == Dict.SumValues(entries[..i])
      {
        assert entries[..i + 1] == entries[..i] + [entries[i]];
        Dict.SumValuesSnoc(entries[..i], entries[i]);
        t := t + entries[i].1;
        i := i + 1;
      }
      assert entries[..i] == entries;
    }
  }

  /** log_analyzer_1.py, lines 100-103: the nested loops over lines and keywords. */
  method CountKeywords(lines: seq<string>, keywords: seq<string>) returns (counts: Counter)
    ensures fresh(counts) && counts.Valid()
    ensures counts.entries == Scan([], lines, keywords)
  {
    counts := new Counter();
    var i := 0;
    while i < |lines|
      invariant 0 <= i <= |lines|
      invariant counts.Valid()
      invariant counts.entries == Scan([], lines[..i], keywords)
    {
      var line := lines[i];
      ghost var start := counts.entries;
      var j := 0;
      while j < |keywords|
        invariant 0 <= j <= |keywords|
        invariant counts.Valid()
        invariant counts.entries == ScanLine(start, line, keywords[..j])
      {
        var keyword := keywords[j];
        assert keywords[..j + 1][..j] == keywords[..j];
        if Text.Contains(Text.LowerStr(line), Text.LowerStr(keyword)) {
          counts.Increment(keyword);
        }
        j := j + 1;
      }
      assert keywords[..j] == keywords;
      assert lines[..i + 1][..i] == lines[..i];
      i := i + 1;
    }
    assert lines[..i] == lines;
  }

  // ---------------------------------------------------------------------------
  // The summary

  /** `((count / total) * 100) if total > 0 else 0`, in exact arithmetic. */
  function Percent(count: nat, total: nat): (p: real)
    ensures total == 0 ==> p == 0.0
    ensures total > 0 ==> p * total as real == (count * 100) as real
    ensures p >= 0.0
    ensures count <= total ==> p <= 100.0
  {
    if total > 0 then (count as real / total as real) * 100.0 else 0.0
  }

  /** Python's `int(x)` of a float: the integer part, rounded toward zero. */
  function Truncate(x: real): int {
    if x >= 0.0 then x.Floor else -((-x).Floor)
  }

  /** `int(percent) // 4`; Python's `//` rounds down, as Dafny's `/` does for a
      positive divisor. */
  function BarWidth(percent: real): int {
    Truncate(percent) / 4
  }

  /** `"#" * (int(percent) // 4)`; a negative repeat count gives the empty string. */
  function Bar(percent: real): (bar: string)
    ensures |bar| == if BarWidth(percent) > 0 then BarWidth(percent) else 0
    ensures forall i :: 0 <= i < |bar| ==> bar[i] == '#'
  {
    if BarWidth(percent) > 0 then Text.Repeat('#', BarWidth(percent)) else ""
  }

  /** The bar of a count reduces to integer arithmetic and has 0 to 25 marks. */
  lemma BarOfCount(count: nat, total: nat)
    requires count <= total
    ensures BarWidth(Percent(count, total)) == if total > 0 then (count * 100 / total) / 4 else 0
    ensures 0 <= BarWidth(Percent(count, total)) <= 25
    ensures |Bar(Percent(count, total))| == BarWidth(Percent(count, total))
  {
    var p := Percent(count, total);
    if total > 0 {
      ScaledPercent(count, total);
      FloorOfQuotient(count * 100, total);
      QuotientBound(count * 100, 100, total);
      assert Truncate(p) == count * 100 / total;
    }
  }

  lemma ScaledPercent(c: nat, t: nat)
    requires t > 0
    ensures (c as real / t as real) * 100.0 == (c * 100) as real / t as real
  {
  }

  /** Real division rounded down is integer division. */
  lemma FloorOfQuotient(n: nat, t: nat)
    requires t > 0
    ensures (n as real / t as real).Floor == n / t
  {
    var q := n / t;
    var r := n % t;
    ProductCast(q, t);
    assert n as real == q as real * t as real + r as real;
    QuotientSplit(q as real, t as real, r as real);
    var y := r as real / t as real;
    assert n as real / t as real == q as real + y;
    assert 0.0 <= y < 1.0;
  }

  lemma ProductCast(a: int, b: int)
    ensures (a * b) as real == a as real * b as real
  {
  }

  /** `(q * t + r) / t` is `q` plus a fraction below one when `0 <= r < t`. */
  lemma QuotientSplit(q: real, t: real, r: real)
    requires 0.0 <= r < t
    ensures (q * t + r) / t == q + r / t
    ensures 0.0 <= r / t < 1.0
  {
  }

  lemma QuotientBound(n: nat, m: nat, t: nat)
    requires t > 0 && n <= m * t
    ensures n / t <= m
  {
  }

  /** What the summary records for one keyword. */
  datatype KeywordStat = KeywordStat(count: nat, percent: real, bar: string)

  function Stat(counts: seq<(string, nat)>, total: nat, k: string): KeywordStat {
    var c := Dict.Count(counts, k);
    KeywordStat(c, Percent(c, total), Bar(Percent(c, total)))
  }

  /** `log_summary["summary"]` after the loop over `kws`. */
  function StatsOf(counts: seq<(string, nat)>, total: nat, kws: seq<string>): seq<(string, KeywordStat)> {
    if kws == [] then []
    else
      var k := kws[|kws| - 1];
      Dict.Put(StatsOf(counts, total, kws[..|kws| - 1]), k, Stat(counts, total, k))
  }

  /** The summary of a log: the scan's counts against their total. */
  function SummaryOf(lines: seq<string>, kws: seq<string>): seq<(string, KeywordStat)> {
    StatsOf(Scan([], lines, kws), AllPairs(lines, kws), kws)
  }

  /** The summary has one entry per distinct keyword, in first-given order,
      including the keywords that never matched. */
  lemma {:induction false} StatsKeys(counts: seq<(string, nat)>, total: nat, kws: seq<string>)
    ensures Dict.Keys(StatsOf(counts, total, kws)) == Dict.Dedup(kws)
  {
    if kws != [] {
      var init := kws[..|kws| - 1];
      var last := kws[|kws| - 1];
      StatsKeys(counts, total, init);
      Dict.PutKeys(StatsOf(counts, total, init), last, Stat(counts, total, last));
    }
  }

  /** Every given keyword's entry holds its count, percentage and bar. */
  lemma {:induction false} StatsFind(counts: seq<(string, nat)>, total: nat, kws: seq<string>, k: string)
    ensures Dict.Find(StatsOf(counts, total, kws), k) ==
      if k in kws then Some(Stat(counts, total, k)) else None
  {
    if kws != [] {
      var init := kws[..|kws| - 1];
      var last := kws[|kws| - 1];
      StatsFind(counts, total, init, k);
      assert kws == init + [last];
      if last != k {
        Dict.PutOther(StatsOf(counts, total, init), last, Stat(counts, total, last), k);
      }
    }
  }

  /** The percentages recorded in a summary, added up. */
  function PercentSum(stats: seq<(string, KeywordStat)>): real {
    if stats == [] then 0.0 else PercentSum(stats[..|stats| - 1]) + stats[|stats| - 1].1.percent
  }

  /** `counts[k] / total * 100` summed over `ks`. */
  function PercentOfSum(counts: seq<(string, nat)>, total: nat, ks: seq<string>): real {
    if ks == [] then 0.0
    else PercentOfSum(counts, total, ks[..|ks| - 1]) + Percent(Dict.Count(counts, ks[|ks| - 1]), total)
  }

  /** The recorded percentages add up to the percentages of the distinct
      keywords' counts: a repeated keyword is recorded once. */
  lemma {:induction false} StatsPercentSum(counts: seq<(string, nat)>, total: nat, kws: seq<string>)
    ensures PercentSum(StatsOf(counts, total, kws)) == PercentOfSum(counts, total, Dict.Dedup(kws))
  {
    if kws != [] {
      var init := kws[..|kws| - 1];
      var last := kws[|kws| - 1];
      var before := StatsOf(counts, total, init);
      var stat := Stat(counts, total, last);
      StatsPercentSum(counts, total, init);
      StatsKeys(counts, total, init);
      if last in init {
        StatsFind(counts, total, init, last);
        Dict.PutSameValue(before, last, stat);
      } else {
        Dict.PutNewKey(before, last, stat);
        var after := before + [(last, stat)];
        assert after[..|after| - 1] == before;
        var d := Dict.Dedup(init) + [last];
        assert d[..|d| - 1] == Dict.Dedup(init);
      }
    }
  }

  /** The percentages of several counts add up to the percentage of their sum. */
  lemma {:induction false} PercentOfSumIsPercentOfCountSum(counts: seq<(string, nat)>, total: nat, ks: seq<string>)
    ensures PercentOfSum(counts, total, ks) == Percent(CountSum(counts, ks), total)
  {
    if ks != [] {
      var init := ks[..|ks| - 1];
      PercentOfSumIsPercentOfCountSum(counts, total, init);
      PercentAdd(CountSum(counts, init), Dict.Count(counts, ks[|ks| - 1]), total);
    }
  }

  lemma PercentAdd(x: nat, c: nat, total: nat)
    ensures Percent(x, total) + Percent(c, total) == Percent(x + c, total)
  {
    if total > 0 {
      assert (x + c) as real == x as real + c as real;
      ShareAdd(x as real, c as real, total as real);
    }
  }

  lemma ShareAdd(a: real, b: real, t: real)
    requires t > 0.0
    ensures (a / t) * 100.0 + (b / t) * 100.0 == ((a + b) / t) * 100.0
  {
  }

  lemma PercentOfTotal(total: nat)
    requires total > 0
    ensures Percent(total, total) == 100.0
  {
    var t := total as real;
    assert t / t == 1.0;
  }

  /** With at least one hit, the recorded percentages add up to 100. */
  lemma PercentagesSumTo100(lines: seq<string>, kws: seq<string>)
    requires AllPairs(lines, kws) > 0
    ensures PercentSum(SummaryOf(lines, kws)) == 100.0
  {
    var counts := Scan([], lines, kws);
    var total := AllPairs(lines, kws);
    StatsPercentSum(counts, total, kws);
    PercentOfSumIsPercentOfCountSum(counts, total, Dict.Dedup(kws));
    CountsAddUp(lines, kws);
    PercentOfTotal(total);
  }

  /** Every recorded keyword holds its count and a bar of `(count * 100 div total)
      div 4` marks, never more than 25. */
  lemma SummaryBar(lines: seq<string>, kws: seq<string>, k: string)
    requires k in kws
    ensures Dict.Find(SummaryOf(lines, kws), k).Some?
    ensures Dict.Find(SummaryOf(lines, kws), k).value.count == Dict.Count(Scan([], lines, kws), k)
    ensures var total := AllPairs(lines, kws);
      |Dict.Find(SummaryOf(lines, kws), k).value.bar| ==
        if total > 0 then (Dict.Count(Scan([], lines, kws), k) * 100 / total) / 4 else 0
    ensures |Dict.Find(SummaryOf(lines, kws), k).value.bar| <= 25
  {
    var counts := Scan([], lines, kws);
    var total := AllPairs(lines, kws);
    StatsFind(counts, total, kws, k);
    ScanSum([], lines, kws);
    Dict.CountAtMostSum(counts, k);
    BarOfCount(Dict.Count(counts, k), total);
  }

  /** With no hit at all, every keyword is recorded with count 0, 0% and no bar. */
  lemma NoHits(lines: seq<string>, kws: seq<string>, k: string)
    requires AllPairs(lines, kws) == 0 && k in kws
    ensures Dict.Find(SummaryOf(lines, kws), k) == Some(KeywordStat(0, 0.0, ""))
  {
    var counts := Scan([], lines, kws);
    StatsFind(counts, 0, kws, k);
    ScanSum([], lines, kws);
    Dict.CountAtMostSum(counts, k);
  }

  /** log_analyzer_1.py, lines 115-123: the summary is filled keyword by keyword. */
  method Summarize(counts: Counter, total: nat, keywords: seq<string>)
    returns (summary: seq<(string, KeywordStat)>)
    ensures summary == StatsOf(counts.entries, total, keywords)
  {
    summary := [];
    var j := 0;
    while j < |keywords|
      invariant 0 <= j <= |keywords|
      invariant summary == StatsOf(counts.entries, total, keywords[..j])
    {
      var keyword := keywords[j];
      var count := counts.Get(keyword);
      var percent := Percent(count, total);
      var bar := Bar(percent);
      assert keywords[..j + 1][..j] == keywords[..j];
      summary := Dict.Put(summary, keyword, KeywordStat(count, percent, bar));
      j := j + 1;
    }
    assert keywords[..j] == keywords;
  }

  // ---------------------------------------------------------------------------
  // The beep

  const AlertKeywords: seq<string> := ["warn", "fail", "critical", "error"]

  /** The keywords used when none are given on the command line. */
  const DefaultKeywords: seq<string> := ["warn", "critical", "error", "fail"]

  /** `any(counts[k] > 0 for k in alert_keywords)` */
  predicate BeepDue(counts: seq<(string, nat)>) {
    exists i :: 0 <= i < |AlertKeywords| && Dict.Count(counts, AlertKeywords[i]) > 0
  }

  /** The beep is due exactly when some alert keyword was given, as written, and
      hits some line. */
  lemma BeepDueIff(lines: seq<string>, kws: seq<string>)
    ensures BeepDue(Scan([], lines, kws)) <==>
      exists i :: 0 <= i < |AlertKeywords| && AlertKeywords[i] in kws &&
        MatchingLines(lines, AlertKeywords[i]) > 0
  {
    forall i | 0 <= i < |AlertKeywords|
      ensures Dict.Count(Scan([], lines, kws), AlertKeywords[i]) > 0 <==>
        AlertKeywords[i] in kws && MatchingLines(lines, AlertKeywords[i]) > 0
    {
      ScanCount([], lines, kws, AlertKeywords[i]);
      OccurrencesPositive(kws, AlertKeywords[i]);
    }
  }

  /** Keywords given in upper case never beep, whatever the log says, although
      they match the same lines as their lower-case forms. */
  lemma UpperCaseNeverBeeps(lines: seq<string>)
    ensures !BeepDue(Scan([], lines, ["WARN", "ERROR"]))
  {
    var kws := ["WARN", "ERROR"];
    BeepDueIff(lines, kws);
    forall i | 0 <= i < |AlertKeywords| ensures AlertKeywords[i] !in kws {
      assert AlertKeywords[i][0] != 'W' && AlertKeywords[i][0] != 'E';
    }
  }

  /** With the default keywords the beep is due exactly when some line contains
      an alert keyword, in any case. */
  lemma DefaultBeep(lines: seq<string>)
    ensures BeepDue(Scan([], lines, DefaultKeywords)) <==>
      exists i, l :: 0 <= i < |AlertKeywords| && 0 <= l < |lines| && Hits(lines[l], AlertKeywords[i])
  {
    BeepDueIff(lines, DefaultKeywords);
    forall i | 0 <= i < |AlertKeywords|
      ensures AlertKeywords[i] in DefaultKeywords
      ensures MatchingLines(lines, AlertKeywords[i]) > 0 <==>
        exists l :: 0 <= l < |lines| && Hits(lines[l], AlertKeywords[i])
    {
      MatchingLinesPositive(lines, AlertKeywords[i]);
      assert AlertKeywords[i] == DefaultKeywords[[0, 3, 1, 2][i]];
    }
  }

  // ---------------------------------------------------------------------------
  // analyze_logs

  datatype LogRecord = LogRecord(timestamp: string, logFile: string, summary: seq<(string, KeywordStat)>)

  /** The mail handed to the mailer: the log file, the time, and the summary
      entries in order. */
  datatype LogEmail = LogEmail(
    subject: string, logFile: string, timestamp: string,
    items: seq<(string, KeywordStat)>, recipient: string)

  datatype LogOutcome =
    | Unreadable
    | Analyzed(record: LogRecord, email: Option<LogEmail>, beep: bool)

  const LogEmailSubject: string := "\U{1F6A8} Log Summary Report"

  /** One run of `analyze_logs`; `contents` is the file's lines, or None when it
      could not be read.  The history file is shared with the monitor script, so
      its element type `E` is left open; `encode` turns this script's record into
      an element. */
  method AnalyzeLogs<E>(
    history: History.HistoryFile<E>, encode: LogRecord -> E, flags: Cli.Flags, file: string,
    contents: Option<seq<string>>, keywords: seq<string>, timestamp: string)
    returns (outcome: LogOutcome)
    requires Cli.CheckArgs(flags).Ok?
    modifies history
    ensures contents.None? ==> outcome == Unreadable && history.stored == old(history.stored)
    ensures contents.Some? ==> outcome.Analyzed?
    ensures contents.Some? ==>
      outcome.record == LogRecord(timestamp, file, SummaryOf(contents.value, keywords))
    ensures contents.Some? && flags.saveSummary ==>
      history.stored == History.Persist(old(history.stored), encode(outcome.record))
    ensures contents.Some? && !flags.saveSummary ==> history.stored == old(history.stored)
    ensures contents.Some? && flags.getEmail ==>
      outcome.email == Some(LogEmail(LogEmailSubject, file, timestamp, outcome.record.summary, flags.recipient.value))
    ensures contents.Some? && !flags.getEmail ==> outcome.email == None
    ensures contents.Some? ==> (outcome.beep <==> flags.getBeep && BeepDue(Scan([], contents.value, keywords)))
  {
    if contents.None? {
      return Unreadable;
    }
    var lines := contents.value;
    var counts := CountKeywords(lines, keywords);
    var total := counts.Total();
    ScanSum([], lines, keywords);
    var summary := Summarize(counts, total, keywords);
    var tally := counts.entries;
    var record := LogRecord(timestamp, file, summary);
    assert record == LogRecord(timestamp, file, SummaryOf(lines, keywords));
    if flags.saveSummary {
      history.Save(encode(record));
    }
    var email: Option<LogEmail> :=
      if flags.getEmail then Some(LogEmail(LogEmailSubject, file, timestamp, summary, flags.recipient.value))
      else None;
    var beep := flags.getBeep && BeepDue(tally);
    outcome := Analyzed(record, email, beep);
  }
}
