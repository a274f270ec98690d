/** NPS arithmetic (Services/ScoringService.php, duplicated in Plugin.php): classification, the
    score of a set of responses, monthly trend windows and breakdowns by agent, team or category. */
module Scoring {
  import opened PhpValues
  import opened Responses

  datatype Class = Promoter | Passive | Detractor

  /** `ScoringService::classify($score)`. */
  function Classify(score: int): (c: Class)
    ensures c == Promoter <==> score >= 9
    ensures c == Passive <==> 7 <= score < 9
    ensures c == Detractor <==> score < 7
  {
    if score >= 9 then Promoter else if score >= 7 then Passive else Detractor
  }

  /** `(int) ($response['score'] ?? 0)`: a missing score counts as 0. */
  function ScoreOf(r: Response): int {
    OrElse(r.score, 0)
  }

  /** How many responses of rs fall in class c. */
  function Count(rs: seq<Response>, c: Class): (n: nat)
    ensures n <= |rs|
  {
    if rs == [] then 0
    else Count(rs[..|rs| - 1], c) + (if Classify(ScoreOf(rs[|rs| - 1])) == c then 1 else 0)
  }

  /** Every response falls in exactly one class. */
  lemma {:induction false} CountsCover(rs: seq<Response>)
    ensures Count(rs, Promoter) + Count(rs, Passive) + Count(rs, Detractor) == |rs|
  {
    if rs != [] { CountsCover(rs[..|rs| - 1]); }
  }

  /** When every response is in class c, all of them are counted there. */
  lemma {:induction false} CountAll(rs: seq<Response>, c: Class)
    requires forall i :: 0 <= i < |rs| ==> Classify(ScoreOf(rs[i])) == c
    ensures Count(rs, c) == |rs|
  {
    if rs != [] { CountAll(rs[..|rs| - 1], c); }
  }

  /** The result of `calculate`. Percentages are in tenths of a percent (333 stands for 33.3). */
  datatype NpsResult = NpsResult(
    score: int,
    total: nat,
    promoters: nat,
    passives: nat,
    detractors: nat,
    promoterPct: nat,
    passivePct: nat,
    detractorPct: nat)

  function Zero(): NpsResult {
    NpsResult(0, 0, 0, 0, 0, 0, 0, 0)
  }

  /** `a / d` rounded down, by repeated subtraction. */
  function Quotient(a: nat, d: nat): nat
    requires d > 0
    decreases a
  {
    if a < d then 0 else 1 + Quotient(a - d, d)
  }

  lemma {:induction false} QuotientMono(a: nat, b: nat, d: nat)
    requires d > 0 && a <= b
    ensures Quotient(a, d) <= Quotient(b, d)
    decreases a
  {
    if a >= d { QuotientMono(a - d, b - d, d); }
  }

  lemma {:induction false} QuotientOf(k: nat, d: nat, r: nat)
    requires d > 0 && r < d
    ensures Quotient(k * d + r, d) == k
  {
    if k > 0 {
      assert k * d + r - d == (k - 1) * d + r;
      QuotientOf(k - 1, d, r);
    }
  }

  /** `round($count / $total * 100, 1)` in tenths of a percent (halves round up). */
  function PercentTenths(count: nat, total: nat): (p: nat)
    requires 0 < total && count <= total
    ensures p <= 1000
    ensures count == total ==> p == 1000
    ensures count == 0 ==> p == 0
  {
    QuotientMono(2000 * count + total, 1000 * (2 * total) + total, 2 * total);
    QuotientOf(1000, 2 * total, total);
    QuotientOf(0, 2 * total, total);
    Quotient(2000 * count + total, 2 * total)
  }

  /** `round($tenths / 10)` with PHP's halves away from zero. */
  function RoundTenths(d: int): (n: int)
    ensures -1000 <= d <= 1000 ==> -100 <= n <= 100
    ensures d == 1000 ==> n == 100
    ensures d == -1000 ==> n == -100
  {
    if d >= 0 then (d + 5) / 10 else -((-d + 5) / 10)
  }

  /** The result `calculate` builds from the three counts. */
  function FromCounts(promoters: nat, passives: nat, detractors: nat): (r: NpsResult)
    ensures r.total == promoters + passives + detractors
    ensures r.promoters == promoters && r.passives == passives && r.detractors == detractors
    ensures -100 <= r.score <= 100
    ensures r.total == 0 ==> r == Zero()
  {
    var total := promoters + passives + detractors;
    if total == 0 then Zero()
    else
      var pp, pap, dp := PercentTenths(promoters, total), PercentTenths(passives, total), PercentTenths(detractors, total);
      NpsResult(RoundTenths(pp - dp), total, promoters, passives, detractors, pp, pap, dp)
  }

  /** `ScoringService::calculate($responses)`. */
  function Nps(rs: seq<Response>): (r: NpsResult)
    ensures r.total == |rs|
    ensures r.promoters == Count(rs, Promoter) && r.passives == Count(rs, Passive)
    ensures r.detractors == Count(rs, Detractor)
    ensures -100 <= r.score <= 100
    ensures |rs| == 0 ==> r == Zero()
  {
    CountsCover(rs);
    FromCounts(Count(rs, Promoter), Count(rs, Passive), Count(rs, Detractor))
  }

  /** Only promoters: the score is 100. */
  lemma AllPromoters(rs: seq<Response>)
    requires |rs| > 0 && forall i :: 0 <= i < |rs| ==> ScoreOf(rs[i]) >= 9
    ensures Nps(rs).score == 100
  {
    CountAll(rs, Promoter);
    CountsCover(rs);
  }

  /** Only detractors (a missing score is 0, a detractor): the score is -100. */
  lemma AllDetractors(rs: seq<Response>)
    requires |rs| > 0 && forall i :: 0 <= i < |rs| ==> ScoreOf(rs[i]) <= 6
    ensures Nps(rs).score == -100
  {
    CountAll(rs, Detractor);
    CountsCover(rs);
  }

  /** `ScoringService::calculate`, counting in one pass. */
  method Calculate(rs: seq<Response>) returns (r: NpsResult)
    ensures r == Nps(rs)
  {
    var promoters, passives, detractors := 0, 0, 0;
    var i := 0;
    while i < |rs|
      invariant 0 <= i <= |rs|
      invariant promoters == Count(rs[..i], Promoter)
      invariant passives == Count(rs[..i], Passive)
      invariant detractors == Count(rs[..i], Detractor)
    {
      var c := Classify(ScoreOf(rs[i]));
      if c == Promoter {
        promoters := promoters + 1;
      } else if c == Passive {
        passives := passives + 1;
      } else {
        detractors := detractors + 1;
      }
      assert rs[..i + 1][..i] == rs[..i];
      i := i + 1;
    }
    assert rs[..|rs|] == rs;
    r := FromCounts(promoters, passives, detractors);
  }

  // ---------------------------------------------------------------------------
  // Trend
  // ---------------------------------------------------------------------------

  /** A calendar month as `trend` computes it: `Y-m-01`, `Y-m-t` and the `M Y` label. */
  datatype Month = Month(first: string, last: string, caption: string)

  datatype TrendPoint = TrendPoint(
    month: string,
    caption: string,
    score: int,
    total: nat,
    promoters: nat,
    passives: nat,
    detractors: nat)

  /** `$created >= $monthStart && $created <= $monthEnd . ' 23:59:59'`, as string comparisons. */
  predicate InMonth(r: Response, m: Month) {
    StrLeq(m.first, CreatedKey(r)) && StrLeq(CreatedKey(r), m.last + " 23:59:59")
  }

  /** The responses of rs that fall in month m, in order (`array_filter` then `array_values`). */
  function InMonthOf(rs: seq<Response>, m: Month): seq<Response> {
    if rs == [] then []
    else (if InMonth(rs[0], m) then [rs[0]] else []) + InMonthOf(rs[1..], m)
  }

  /** The month window keeps exactly the responses created in the month, each as often as it
      occurs. */
  lemma {:induction false} InMonthOfExact(rs: seq<Response>, m: Month)
    ensures forall i :: 0 <= i < |InMonthOf(rs, m)| ==> InMonth(InMonthOf(rs, m)[i], m)
    ensures forall r :: multiset(InMonthOf(rs, m))[r] == if InMonth(r, m) then multiset(rs)[r] else 0
  {
    if rs != [] {
      InMonthOfExact(rs[1..], m);
      assert rs == [rs[0]] + rs[1..];
    }
  }

  function PointOf(m: Month, n: NpsResult): TrendPoint {
    TrendPoint(m.first, m.caption, n.score, n.total, n.promoters, n.passives, n.detractors)
  }

  /** The trend entry of month m: the score of the responses created in it. */
  function PointFor(rs: seq<Response>, m: Month): TrendPoint {
    PointOf(m, Nps(InMonthOf(rs, m)))
  }

  /** The trend over `months` months, oldest first; `calendar(i)` is the month i months ago. */
  function TrendOf(rs: seq<Response>, months: int, calendar: nat -> Month): (t: seq<TrendPoint>)
    ensures |t| == if months > 0 then months else 0
    ensures forall k :: 0 <= k < |t| ==> t[k] == PointFor(rs, calendar(months - 1 - k))
  {
    if months <= 0 then []
    else seq(months, k requires 0 <= k < months => PointFor(rs, calendar(months - 1 - k)))
  }

  /** A response stamped `YYYY-MM-DDTHH:MM:SSZ` on a month's last day falls outside that month's
      window, because 'T' sorts after ' '. */
  lemma LastDayDropped(r: Response, m: Month, time: string)
    requires CreatedKey(r) == m.last + "T" + time
    ensures !InMonth(r, m)
  {
    assert m.last + "T" + time == m.last + ("T" + time);
    StrLeqCommonPrefix(m.last, "T" + time, " 23:59:59");
  }

  /** `ScoringService::trend($months, $filters)`. */
  method Trend(records: seq<Response>, months: int, filters: Filters, calendar: nat -> Month,
               parse: string -> Option<int>) returns (trend: seq<TrendPoint>)
    ensures trend == TrendOf(Query(records, filters, parse), months, calendar)
  {
    trend := TrendOver(Query(records, filters, parse), months, calendar);
  }

  /** The month loop of `trend` over the queried responses, from the oldest month on. */
  method TrendOver(all: seq<Response>, months: int, calendar: nat -> Month) returns (trend: seq<TrendPoint>)
    ensures trend == TrendOf(all, months, calendar)
  {
    trend := [];
    var i := months - 1;
    while i >= 0
      invariant i <= months - 1
      invariant (months > 0 ==> -1 <= i) && (months <= 0 ==> i == months - 1)
      invariant |trend| == months - 1 - i
      invariant forall k :: 0 <= k < |trend| ==> trend[k] == PointFor(all, calendar(months - 1 - k))
    {
      var m := calendar(i);
      var nps := Calculate(InMonthOf(all, m));
      var point := PointOf(m, nps);
      ghost var k := |trend|;
      assert months - 1 - k == i;
      trend := trend + [point];
      i := i - 1;
    }
    assert |trend| == |TrendOf(all, months, calendar)|;
  }

  // ---------------------------------------------------------------------------
  // Breakdowns
  // ---------------------------------------------------------------------------

  datatype Dimension = ByAgent | ByTeam | ByCategory

  /** The group a response belongs to; a missing key goes to "unassigned" or "uncategorized". */
  function GroupKey(r: Response, dim: Dimension): string {
    match dim
    case ByAgent => OrElse(r.agentId, "unassigned")
    case ByTeam => OrElse(r.teamId, "unassigned")
    case ByCategory => OrElse(r.category, "uncategorized")
  }

  datatype BreakdownEntry = BreakdownEntry(key: string, nps: NpsResult)

  /** The group keys of rs in order of first appearance (the key order of the PHP array). */
  function GroupKeys(rs: seq<Response>, dim: Dimension): seq<string> {
    if rs == [] then []
    else
      var keys := GroupKeys(rs[..|rs| - 1], dim);
      var k := GroupKey(rs[|rs| - 1], dim);
      if k in keys then keys else keys + [k]
  }

  /** The keys are exactly the keys the responses carry, each listed once. */
  lemma {:induction false} GroupKeysExact(rs: seq<Response>, dim: Dimension)
    ensures forall k :: k in GroupKeys(rs, dim) <==> exists i :: 0 <= i < |rs| && GroupKey(rs[i], dim) == k
    ensures forall i, j :: 0 <= i < j < |GroupKeys(rs, dim)| ==> GroupKeys(rs, dim)[i] != GroupKeys(rs, dim)[j]
  {
    if rs != [] {
      var front := rs[..|rs| - 1];
      GroupKeysExact(front, dim);
      assert forall i :: 0 <= i < |front| ==> front[i] == rs[i];
    }
  }

  /** The responses of rs in group `key`, in order. */
  function Group(rs: seq<Response>, dim: Dimension, key: string): seq<Response> {
    if rs == [] then []
    else Group(rs[..|rs| - 1], dim, key) + (if GroupKey(rs[|rs| - 1], dim) == key then [rs[|rs| - 1]] else [])
  }

  /** A group holds exactly the responses with its key, each as often as rs does. */
  lemma {:induction false} GroupExact(rs: seq<Response>, dim: Dimension, key: string)
    ensures forall i :: 0 <= i < |Group(rs, dim, key)| ==> GroupKey(Group(rs, dim, key)[i], dim) == key
    ensures forall r :: multiset(Group(rs, dim, key))[r] == if GroupKey(r, dim) == key then multiset(rs)[r] else 0
  {
    if rs != [] {
      var front := rs[..|rs| - 1];
      GroupExact(front, dim, key);
      assert rs == front + [rs[|rs| - 1]];
    }
  }

  /** A key no response carries has an empty group. */
  lemma {:induction false} GroupEmpty(rs: seq<Response>, dim: Dimension, key: string)
    requires forall i :: 0 <= i < |rs| ==> GroupKey(rs[i], dim) != key
    ensures Group(rs, dim, key) == []
  {
    if rs != [] {
      var front := rs[..|rs| - 1];
      assert forall i :: 0 <= i < |front| ==> front[i] == rs[i];
      GroupEmpty(front, dim, key);
    }
  }

  /** A key that is not listed has an empty group. */
  lemma {:induction false} UnlistedGroupEmpty(rs: seq<Response>, dim: Dimension, key: string)
    requires key !in GroupKeys(rs, dim)
    ensures Group(rs, dim, key) == []
  {
    if rs != [] {
      UnlistedGroupEmpty(rs[..|rs| - 1], dim, key);
    }
  }

  /** One more response grows only its own group. */
  lemma GroupGrows(before: seq<Response>, r: Response, dim: Dimension, k: string)
    ensures Group(before + [r], dim, k) == Group(before, dim, k) + (if GroupKey(r, dim) == k then [r] else [])
  {
    assert (before + [r])[..|before|] == before;
  }

  /** One more response adds its key at the end, unless the key is already listed. */
  lemma GroupKeysGrow(before: seq<Response>, r: Response, dim: Dimension)
    ensures GroupKeys(before + [r], dim) ==
              if GroupKey(r, dim) in GroupKeys(before, dim) then GroupKeys(before, dim)
              else GroupKeys(before, dim) + [GroupKey(r, dim)]
  {
    assert (before + [r])[..|before|] == before;
  }

  /** One entry per key: the key and the score of its group. */
  function EntriesFor(keys: seq<string>, rs: seq<Response>, dim: Dimension): seq<BreakdownEntry> {
    if keys == [] then []
    else [BreakdownEntry(keys[0], Nps(Group(rs, dim, keys[0])))] + EntriesFor(keys[1..], rs, dim)
  }

  lemma {:induction false} EntriesForAppend(keys: seq<string>, k: string, rs: seq<Response>, dim: Dimension)
    ensures EntriesFor(keys + [k], rs, dim) == EntriesFor(keys, rs, dim) + [BreakdownEntry(k, Nps(Group(rs, dim, k)))]
  {
    if keys == [] {
      assert [k][1..] == [];
    } else {
      assert (keys + [k])[1..] == keys[1..] + [k];
      EntriesForAppend(keys[1..], k, rs, dim);
    }
  }

  lemma EntriesForPrefix(keys: seq<string>, j: nat, rs: seq<Response>, dim: Dimension)
    requires j < |keys|
    ensures EntriesFor(keys[..j + 1], rs, dim) == EntriesFor(keys[..j], rs, dim) + [BreakdownEntry(keys[j], Nps(Group(rs, dim, keys[j])))]
  {
    assert keys[..j + 1] == keys[..j] + [keys[j]];
    EntriesForAppend(keys[..j], keys[j], rs, dim);
  }

  /** Ordered by score, highest first. */
  predicate ByScoreDescending(es: seq<BreakdownEntry>) {
    forall i, j :: 0 <= i < j < |es| ==> es[j].nps.score <= es[i].nps.score
  }

  /** Puts e in front of the first entry whose score is not higher. */
  function InsertByScore(e: BreakdownEntry, es: seq<BreakdownEntry>): (t: seq<BreakdownEntry>)
    ensures |t| == |es| + 1
    ensures multiset(t) == multiset(es) + multiset{e}
  {
    if es == [] || es[0].nps.score <= e.nps.score then [e] + es
    else
      assert es == [es[0]] + es[1..];
      [es[0]] + InsertByScore(e, es[1..])
  }

  lemma {:induction false} InsertByScoreKeepsOrder(e: BreakdownEntry, es: seq<BreakdownEntry>)
    requires ByScoreDescending(es)
    ensures ByScoreDescending(InsertByScore(e, es))
  {
    if es != [] && es[0].nps.score > e.nps.score {
      var t := InsertByScore(e, es[1..]);
      InsertByScoreKeepsOrder(e, es[1..]);
      forall i | 0 <= i < |t| ensures t[i].nps.score <= es[0].nps.score {
        assert t[i] in multiset(t);
        if t[i] != e {
          assert t[i] in multiset(es[1..]);
          var k :| 0 <= k < |es[1..]| && es[1..][k] == t[i];
          assert es[k + 1] == t[i];
        }
      }
    }
  }

  /** The `usort` of the breakdowns: a stable sort by score, highest first. */
  function SortByScore(es: seq<BreakdownEntry>): (t: seq<BreakdownEntry>)
    ensures ByScoreDescending(t)
    ensures |t| == |es|
  {
    if es == [] then []
    else
      var rest := SortByScore(es[1..]);
      InsertByScoreKeepsOrder(es[0], rest);
      InsertByScore(es[0], rest)
  }

  /** Sorting a breakdown reorders its entries and nothing else. */
  lemma {:induction false} SortByScorePermutes(es: seq<BreakdownEntry>)
    ensures multiset(SortByScore(es)) == multiset(es)
  {
    if es != [] {
      SortByScorePermutes(es[1..]);
      assert es == [es[0]] + es[1..];
    }
  }

  /** A breakdown as the services compute it from the queried responses. */
  function BreakdownOf(rs: seq<Response>, dim: Dimension): seq<BreakdownEntry> {
    SortByScore(EntriesFor(GroupKeys(rs, dim), rs, dim))
  }

  /** Sum of the entries' response counts. */
  function SumTotals(es: seq<BreakdownEntry>): nat {
    if es == [] then 0 else es[0].nps.total + SumTotals(es[1..])
  }

  /** Sum of the sizes of the groups of `keys`. */
  function GroupSizes(keys: seq<string>, rs: seq<Response>, dim: Dimension): nat {
    if keys == [] then 0 else |Group(rs, dim, keys[0])| + GroupSizes(keys[1..], rs, dim)
  }

  lemma {:induction false} GroupSizesAppend(keys: seq<string>, k: string, rs: seq<Response>, dim: Dimension)
    ensures GroupSizes(keys + [k], rs, dim) == GroupSizes(keys, rs, dim) + |Group(rs, dim, k)|
  {
    if keys == [] {
      assert [k][1..] == [];
    } else {
      assert (keys + [k])[1..] == keys[1..] + [k];
      GroupSizesAppend(keys[1..], k, rs, dim);
    }
  }

  /** Adding one response grows exactly the group of its key, if that key is listed. */
  lemma {:induction false} GroupSizesStep(keys: seq<string>, p: seq<Response>, x: Response, dim: Dimension)
    requires forall i, j :: 0 <= i < j < |keys| ==> keys[i] != keys[j]
    ensures GroupSizes(keys, p + [x], dim) == GroupSizes(keys, p, dim) + (if GroupKey(x, dim) in keys then 1 else 0)
  {
    if keys != [] {
      GroupSizesStep(keys[1..], p, x, dim);
      assert (p + [x])[..|p + [x]| - 1] == p;
      assert GroupKey(x, dim) == keys[0] ==> GroupKey(x, dim) !in keys[1..];
      assert GroupKey(x, dim) in keys <==> GroupKey(x, dim) == keys[0] || GroupKey(x, dim) in keys[1..];
    }
  }

  /** The groups partition the responses: their sizes add up to the number of responses. */
  lemma {:induction false} GroupsPartition(rs: seq<Response>, dim: Dimension)
    ensures GroupSizes(GroupKeys(rs, dim), rs, dim) == |rs|
  {
    if rs != [] {
      var p, x := rs[..|rs| - 1], rs[|rs| - 1];
      GroupsPartition(p, dim);
      GroupKeysExact(p, dim);
      assert rs == p + [x];
      GroupSizesStep(GroupKeys(p, dim), p, x, dim);
      if GroupKey(x, dim) !in GroupKeys(p, dim) {
        GroupSizesAppend(GroupKeys(p, dim), GroupKey(x, dim), rs, dim);
        GroupEmpty(p, dim, GroupKey(x, dim));
      }
    }
  }

  lemma {:induction false} EntriesForTotals(keys: seq<string>, rs: seq<Response>, dim: Dimension)
    ensures SumTotals(EntriesFor(keys, rs, dim)) == GroupSizes(keys, rs, dim)
  {
    if keys != [] { EntriesForTotals(keys[1..], rs, dim); }
  }

  /** The entry of each key is its group's score. */
  lemma {:induction false} EntriesForAt(keys: seq<string>, rs: seq<Response>, dim: Dimension)
    ensures |EntriesFor(keys, rs, dim)| == |keys|
    ensures forall i :: 0 <= i < |keys| ==>
              EntriesFor(keys, rs, dim)[i] == BreakdownEntry(keys[i], Nps(Group(rs, dim, keys[i])))
  {
    if keys != [] { EntriesForAt(keys[1..], rs, dim); }
  }

  lemma {:induction false} InsertByScoreTotals(e: BreakdownEntry, es: seq<BreakdownEntry>)
    ensures SumTotals(InsertByScore(e, es)) == e.nps.total + SumTotals(es)
  {
    if es != [] && es[0].nps.score > e.nps.score {
      InsertByScoreTotals(e, es[1..]);
    }
  }

  lemma {:induction false} SortByScoreTotals(es: seq<BreakdownEntry>)
    ensures SumTotals(SortByScore(es)) == SumTotals(es)
  {
    if es != [] {
      SortByScoreTotals(es[1..]);
      InsertByScoreTotals(es[0], SortByScore(es[1..]));
    }
  }

  /** No two entries share a key. */
  predicate DistinctKeys(es: seq<BreakdownEntry>) {
    forall i, j :: 0 <= i < j < |es| ==> es[i].key != es[j].key
  }

  lemma {:induction false} InsertByScoreDistinct(e: BreakdownEntry, es: seq<BreakdownEntry>)
    requires DistinctKeys(es) && forall i :: 0 <= i < |es| ==> es[i].key != e.key
    ensures DistinctKeys(InsertByScore(e, es))
  {
    if es != [] && es[0].nps.score > e.nps.score {
      var t := InsertByScore(e, es[1..]);
      InsertByScoreDistinct(e, es[1..]);
      forall i | 0 <= i < |t| ensures t[i].key != es[0].key {
        assert t[i] in multiset(t);
        if t[i] != e {
          assert t[i] in multiset(es[1..]);
          var k :| 0 <= k < |es[1..]| && es[1..][k] == t[i];
          assert es[k + 1] == t[i];
        }
      }
    }
  }

  lemma {:induction false} SortByScoreDistinct(es: seq<BreakdownEntry>)
    requires DistinctKeys(es)
    ensures DistinctKeys(SortByScore(es))
  {
    if es != [] {
      var rest := SortByScore(es[1..]);
      SortByScoreDistinct(es[1..]);
      SortByScorePermutes(es[1..]);
      forall i | 0 <= i < |rest| ensures rest[i].key != es[0].key {
        assert rest[i] in multiset(es[1..]);
        var k :| 0 <= k < |es[1..]| && es[1..][k] == rest[i];
        assert es[k + 1] == rest[i];
      }
      InsertByScoreDistinct(es[0], rest);
    }
  }

  /** The counts of a breakdown add up to the number of responses. */
  lemma BreakdownTotals(rs: seq<Response>, dim: Dimension)
    ensures SumTotals(BreakdownOf(rs, dim)) == |rs|
  {
    GroupsPartition(rs, dim);
    EntriesForTotals(GroupKeys(rs, dim), rs, dim);
    SortByScoreTotals(EntriesFor(GroupKeys(rs, dim), rs, dim));
  }

  /** A breakdown lists each group once. */
  lemma BreakdownDistinct(rs: seq<Response>, dim: Dimension)
    ensures DistinctKeys(BreakdownOf(rs, dim))
  {
    var keys := GroupKeys(rs, dim);
    GroupKeysExact(rs, dim);
    EntriesForAt(keys, rs, dim);
    SortByScoreDistinct(EntriesFor(keys, rs, dim));
  }

  /** Each breakdown entry is the score of the group of its key, a key some response carries. */
  lemma BreakdownEntriesScored(rs: seq<Response>, dim: Dimension, e: BreakdownEntry)
    requires e in BreakdownOf(rs, dim)
    ensures e.nps == Nps(Group(rs, dim, e.key))
    ensures exists i :: 0 <= i < |rs| && GroupKey(rs[i], dim) == e.key
  {
    var keys := GroupKeys(rs, dim);
    var entries := EntriesFor(keys, rs, dim);
    GroupKeysExact(rs, dim);
    EntriesForAt(keys, rs, dim);
    SortByScorePermutes(entries);
    assert e in multiset(entries);
    var j :| 0 <= j < |entries| && entries[j] == e;
    assert keys[j] in keys;
  }

  /** Every response's group appears in the breakdown. */
  lemma BreakdownCoversResponses(rs: seq<Response>, dim: Dimension, i: nat)
    requires i < |rs|
    ensures exists e :: e in BreakdownOf(rs, dim) && e.key == GroupKey(rs[i], dim)
  {
    var keys := GroupKeys(rs, dim);
    var entries := EntriesFor(keys, rs, dim);
    GroupKeysExact(rs, dim);
    EntriesForAt(keys, rs, dim);
    var k := GroupKey(rs[i], dim);
    assert k in keys;
    var j :| 0 <= j < |keys| && keys[j] == k;
    SortByScorePermutes(entries);
    assert entries[j] in multiset(BreakdownOf(rs, dim));
  }

  /** `keys` lists the groups of rs in order of first appearance and `groups` maps each listed
      key, and only those, to its group. */
  ghost predicate GroupedAs(rs: seq<Response>, dim: Dimension, keys: seq<string>, groups: map<string, seq<Response>>) {
    keys == GroupKeys(rs, dim)
    && (forall k :: k in groups <==> k in keys)
    && (forall k :: k in groups ==> groups[k] == Group(rs, dim, k))
  }

  /** Filing one more response under its key keeps the grouping exact. */
  lemma GroupedStep(rs: seq<Response>, r: Response, dim: Dimension, keys: seq<string>, groups: map<string, seq<Response>>)
    requires GroupedAs(rs, dim, keys, groups)
    ensures var key := GroupKey(r, dim);
            var start := if key in groups then groups else groups[key := []];
            GroupedAs(rs + [r], dim, if key in groups then keys else keys + [key], start[key := start[key] + [r]])
  {
    var key := GroupKey(r, dim);
    GroupKeysGrow(rs, r, dim);
    if key !in groups {
      UnlistedGroupEmpty(rs, dim, key);
    }
    forall k ensures Group(rs + [r], dim, k) == Group(rs, dim, k) + (if key == k then [r] else []) {
      GroupGrows(rs, r, dim, k);
    }
  }

  /** The grouping loop of the breakdowns: the keys in order of first appearance and, under each
      key, its responses in order. */
  method GroupResponses(responses: seq<Response>, dim: Dimension)
    returns (keys: seq<string>, groups: map<string, seq<Response>>)
    ensures GroupedAs(responses, dim, keys, groups)
  {
    keys, groups := [], map[];
    var i := 0;
    while i < |responses|
      invariant 0 <= i <= |responses|
      invariant GroupedAs(responses[..i], dim, keys, groups)
    {
      var r := responses[i];
      var key := GroupKey(r, dim);
      GroupedStep(responses[..i], r, dim, keys, groups);
      if key !in groups {
        groups := groups[key := []];
        keys := keys + [key];
      }
      groups := groups[key := groups[key] + [r]];
      assert responses[..i + 1] == responses[..i] + [r];
      i := i + 1;
    }
    assert responses[..|responses|] == responses;
  }

  /** The scoring loop of the breakdowns: `calculate` on each group, in key order. */
  method ScoreGroups(keys: seq<string>, groups: map<string, seq<Response>>, ghost rs: seq<Response>, dim: Dimension)
    returns (entries: seq<BreakdownEntry>)
    requires forall k :: k in keys ==> k in groups && groups[k] == Group(rs, dim, k)
    ensures entries == EntriesFor(keys, rs, dim)
  {
    entries := [];
    var j := 0;
    while j < |keys|
      invariant 0 <= j <= |keys|
      invariant entries == EntriesFor(keys[..j], rs, dim)
    {
      var nps := Calculate(groups[keys[j]]);
      EntriesForPrefix(keys, j, rs, dim);
      entries := entries + [BreakdownEntry(keys[j], nps)];
      j := j + 1;
    }
    assert keys[..|keys|] == keys;
  }

  /** `ScoringService::breakdownByAgent/ByTeam/ByCategory($filters)`. */
  method Breakdown(records: seq<Response>, filters: Filters, dim: Dimension, parse: string -> Option<int>)
    returns (breakdown: seq<BreakdownEntry>)
    ensures breakdown == BreakdownOf(Query(records, filters, parse), dim)
  {
    var responses := Query(records, filters, parse);
    var keys, groups := GroupResponses(responses, dim);
    var entries := ScoreGroups(keys, groups, responses, dim);
    breakdown := SortByScore(entries);
  }
}
