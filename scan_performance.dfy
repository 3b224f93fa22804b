/** Performance data of the React Scan adapter: React Scan's report entries are
    grouped by component name into one record per component, sorted by total render
    time (slowest first), and summarised.

    React Scan's `Store.reportData` is an input (its values in insertion order).
    Times are JavaScript numbers, modelled as reals: the model states equalities of
    sums and quotients, and nothing about rounding. */
module ScanPerformance {
  import opened Common

  /** One value of `Store.reportData`; every field may be missing. */
  datatype ReportEntry = ReportEntry(componentName: Option<string>, count: Option<int>, time: Option<real>, unnecessary: Option<bool>)

  /** The running totals kept per component name. */
  datatype Stats = Stats(renderCount: int, totalTime: real, unnecessaryRenders: nat, lastRenderTime: Option<real>)

  /** ComponentPerformanceData */
  datatype PerfRecord = PerfRecord(componentName: string, renderCount: int, totalTime: real, averageTime: real, unnecessaryRenders: nat, lastRenderTime: Option<real>)

  /** PerformanceSummary */
  datatype Summary = Summary(totalRenders: int, totalComponents: nat, unnecessaryRenders: nat, averageRenderTime: real, slowestComponents: seq<PerfRecord>)

  const UnknownName := "Unknown"
  /** The number of records `slice(0, 10)` keeps in the summary. */
  const SlowestCount := 10

  /** `componentName || 'Unknown'`: a missing or empty name is `Unknown`. */
  function NameOf(e: ReportEntry): (n: string)
    ensures n != []
    ensures e.componentName.Some? && e.componentName.value != [] ==> n == e.componentName.value
  {
    if e.componentName.Some? && e.componentName.value != [] then e.componentName.value else UnknownName
  }

  /** `count || 0` */
  function CountOf(e: ReportEntry): int { e.count.GetOr(0) }
  /** `time || 0` */
  function TimeOf(e: ReportEntry): real { e.time.GetOr(0.0) }
  function UnnecessaryOf(e: ReportEntry): nat { if e.unnecessary == Some(true) then 1 else 0 }

  const Zero := Stats(0, 0.0, 0, None)

  /** The update of one component's totals by one of its entries. */
  function Step(s: Stats, e: ReportEntry): Stats {
    Stats(s.renderCount + CountOf(e), s.totalTime + TimeOf(e), s.unnecessaryRenders + UnnecessaryOf(e),
          if e.time.Some? then e.time else s.lastRenderTime)
  }

  /** The totals of a list of entries, starting from zero. */
  function Fold(es: seq<ReportEntry>): Stats
  {
    if es == [] then Zero else Step(Fold(es[..|es| - 1]), es[|es| - 1])
  }

  /** The entries of component `n`, in order. */
  function Group(es: seq<ReportEntry>, n: string): (g: seq<ReportEntry>)
    ensures |g| <= |es|
    ensures forall k :: 0 <= k < |g| ==> NameOf(g[k]) == n
  {
    if es == [] then []
    else Group(es[..|es| - 1], n) + (if NameOf(es[|es| - 1]) == n then [es[|es| - 1]] else [])
  }

  /** The keys of the name-to-totals map, in insertion (first appearance) order. */
  function Names(es: seq<ReportEntry>): seq<string>
  {
    if es == [] then []
    else
      var p := Names(es[..|es| - 1]);
      var n := NameOf(es[|es| - 1]);
      if n in p then p else p + [n]
  }

  /** The output record of component `n` with totals `s`; the average is 0 when
      nothing was rendered. */
  function ToRecord(n: string, s: Stats): (r: PerfRecord)
    ensures r.componentName == n && r.renderCount == s.renderCount && r.totalTime == s.totalTime
    ensures r.unnecessaryRenders == s.unnecessaryRenders && r.lastRenderTime == s.lastRenderTime
    ensures s.renderCount <= 0 ==> r.averageTime == 0.0
    ensures s.renderCount > 0 ==> r.averageTime * (s.renderCount as real) == s.totalTime
  {
    PerfRecord(n, s.renderCount, s.totalTime,
               if s.renderCount > 0 then s.totalTime / s.renderCount as real else 0.0,
               s.unnecessaryRenders, s.lastRenderTime)
  }

  /** The records of the names `ns`, in that order. */
  function RecordsFor(es: seq<ReportEntry>, ns: seq<string>): (rs: seq<PerfRecord>)
    ensures |rs| == |ns|
  {
    if ns == [] then []
    else RecordsFor(es, ns[..|ns| - 1]) + [ToRecord(ns[|ns| - 1], Fold(Group(es, ns[|ns| - 1])))]
  }

  /** The records before sorting: one per name, in first-appearance order. */
  function Unsorted(es: seq<ReportEntry>): seq<PerfRecord> {
    RecordsFor(es, Names(es))
  }

  // ---------------------------------------------------------------- sorting

  /** Non-increasing total time. */
  predicate SortedDesc(rs: seq<PerfRecord>) {
    forall i, j :: 0 <= i < j < |rs| ==> rs[i].totalTime >= rs[j].totalTime
  }

  /** Inserts `x` after every record at least as slow (so equal records keep their
      order). */
  function Insert(x: PerfRecord, ys: seq<PerfRecord>): (r: seq<PerfRecord>)
    ensures multiset(r) == multiset(ys) + multiset{x}
    ensures |r| == |ys| + 1
  {
    if ys == [] then [x]
    else if ys[0].totalTime >= x.totalTime then
      assert ys == [ys[0]] + ys[1..];
      [ys[0]] + Insert(x, ys[1..])
    else [x] + ys
  }

  /** Every record of the insertion is the inserted one or one of `ys`. */
  lemma {:induction false} InsertMembers(x: PerfRecord, ys: seq<PerfRecord>)
    ensures forall y :: y in Insert(x, ys) ==> y == x || y in ys
    decreases |ys|
  {
    if ys != [] && ys[0].totalTime >= x.totalTime {
      InsertMembers(x, ys[1..]);
      assert forall y :: y in ys[1..] ==> y in ys;
    }
  }

  lemma {:induction false} InsertSorted(x: PerfRecord, ys: seq<PerfRecord>)
    requires SortedDesc(ys)
    ensures SortedDesc(Insert(x, ys))
    decreases |ys|
  {
    if ys == [] {
    } else if ys[0].totalTime >= x.totalTime {
      var rest := Insert(x, ys[1..]);
      InsertSorted(x, ys[1..]);
      InsertMembers(x, ys[1..]);
      var r := [ys[0]] + rest;
      assert r == Insert(x, ys);
      forall i, j | 0 <= i < j < |r|
        ensures r[i].totalTime >= r[j].totalTime
      {
        assert r[j] == rest[j - 1];
        if i == 0 {
          assert rest[j - 1] in rest;
          if rest[j - 1] != x {
            var m :| 0 <= m < |ys[1..]| && ys[1..][m] == rest[j - 1];
            assert ys[m + 1] == rest[j - 1];
          }
        } else {
          assert r[i] == rest[i - 1];
        }
      }
    } else {
      var r := [x] + ys;
      forall i, j | 0 <= i < j < |r|
        ensures r[i].totalTime >= r[j].totalTime
      {
        assert r[j] == ys[j - 1];
        if i > 0 {
          assert r[i] == ys[i - 1];
        }
      }
    }
  }

  /** `sort((a, b) => b.totalTime - a.totalTime)`: the stable sort of the
      language, slowest first. */
  function SortByTotalTime(rs: seq<PerfRecord>): (r: seq<PerfRecord>)
    ensures multiset(r) == multiset(rs)
    ensures |r| == |rs|
  {
    if rs == [] then []
    else
      var p := rs[..|rs| - 1];
      assert rs == p + [rs[|rs| - 1]];
      Insert(rs[|rs| - 1], SortByTotalTime(p))
  }

  /** The sorted records are slowest first and are the same records. */
  lemma {:induction false} SortByTotalTimeSorted(rs: seq<PerfRecord>)
    ensures SortedDesc(SortByTotalTime(rs))
    ensures multiset(SortByTotalTime(rs)) == multiset(rs)
    decreases |rs|
  {
    if rs != [] {
      var p := rs[..|rs| - 1];
      SortByTotalTimeSorted(p);
      InsertSorted(rs[|rs| - 1], SortByTotalTime(p));
    }
  }

  // ---------------------------------------------------------------- extraction

  /** What `getInternals().Store` offers: no Store, a Store without reportData, or
      the report entries. */
  datatype StoreView = NoStore | NoReportData | Report(entries: seq<ReportEntry>)

  /** extractPerformanceData: the first loop fills the name-to-totals map, the
      second pushes one record per key in insertion order, then the list is sorted.
      Without a Store or reportData the result is empty. */
  method ExtractPerformanceData(store: StoreView) returns (data: seq<PerfRecord>)
    ensures !store.Report? ==> data == []
    ensures store.Report? ==> data == SortByTotalTime(Unsorted(store.entries))
  {
    if !store.Report? {
      return [];
    }
    var entries := store.entries;
    var stats: map<string, Stats> := map[];
    var keys: seq<string> := [];
    for i := 0 to |entries|
      invariant keys == Names(entries[..i])
      invariant forall n :: n in stats <==> n in keys
      invariant forall n :: n in stats ==> stats[n] == Fold(Group(entries[..i], n))
    {
      var e := entries[i];
      var name := NameOf(e);
      var existing := if name in stats then stats[name] else Zero;
      AggregateStepAt(entries, i, stats, keys);
      stats := stats[name := Step(existing, e)];
      if name !in keys {
        keys := keys + [name];
      }
    }
    assert entries[..|entries|] == entries;
    data := [];
    for i := 0 to |keys|
      invariant data == RecordsFor(entries, keys[..i])
    {
      RecordsForStep(entries, keys, i);
      data := data + [ToRecord(keys[i], stats[keys[i]])];
    }
    assert keys[..|keys|] == keys;
    data := SortByTotalTime(data);
  }

  /** The second loop's step: the record of the next key. */
  lemma RecordsForStep(es: seq<ReportEntry>, ns: seq<string>, i: nat)
    requires i < |ns|
    ensures RecordsFor(es, ns[..i + 1]) == RecordsFor(es, ns[..i]) + [ToRecord(ns[i], Fold(Group(es, ns[i])))]
  {
    assert ns[..i + 1][..i] == ns[..i];
  }

  /** The first loop's step: entry `i` updates the totals of its own name, which
      becomes a key if it was not one. */
  lemma AggregateStepAt(entries: seq<ReportEntry>, i: nat, stats: map<string, Stats>, keys: seq<string>)
    requires i < |entries|
    requires keys == Names(entries[..i])
    requires forall n :: n in stats <==> n in keys
    requires forall n :: n in stats ==> stats[n] == Fold(Group(entries[..i], n))
    ensures var name := NameOf(entries[i]);
      var stats' := stats[name := Step(if name in stats then stats[name] else Zero, entries[i])];
      var keys' := if name in keys then keys else keys + [name];
      keys' == Names(entries[..i + 1])
      && (forall n :: n in stats' <==> n in keys')
      && (forall n :: n in stats' ==> stats'[n] == Fold(Group(entries[..i + 1], n)))
  {
    PrefixSnoc(entries, i);
    AggregateStep(entries[..i], entries[i], stats, keys);
  }

  lemma PrefixSnoc(entries: seq<ReportEntry>, i: nat)
    requires i < |entries|
    ensures entries[..i + 1] == entries[..i] + [entries[i]]
  {
  }

  lemma AggregateStep(es: seq<ReportEntry>, e: ReportEntry, stats: map<string, Stats>, keys: seq<string>)
    requires keys == Names(es)
    requires forall n :: n in stats <==> n in keys
    requires forall n :: n in stats ==> stats[n] == Fold(Group(es, n))
    ensures var name := NameOf(e);
      var stats' := stats[name := Step(if name in stats then stats[name] else Zero, e)];
      var keys' := if name in keys then keys else keys + [name];
      keys' == Names(es + [e])
      && (forall n :: n in stats' <==> n in keys')
      && (forall n :: n in stats' ==> stats'[n] == Fold(Group(es + [e], n)))
  {
    GroupSnoc(es, e);
    AggregateTotals(es, e, stats, keys);
  }

  /** The totals part of the first loop's step. */
  lemma AggregateTotals(es: seq<ReportEntry>, e: ReportEntry, stats: map<string, Stats>, keys: seq<string>)
    requires keys == Names(es)
    requires forall n :: n in stats <==> n in keys
    requires forall n :: n in stats ==> stats[n] == Fold(Group(es, n))
    ensures var name := NameOf(e);
      var stats' := stats[name := Step(if name in stats then stats[name] else Zero, e)];
      forall n :: n in stats' ==> stats'[n] == Fold(Group(es + [e], n))
  {
    var name := NameOf(e);
    var stats' := stats[name := Step(if name in stats then stats[name] else Zero, e)];
    GroupSnoc(es, e);
    if name !in stats {
      NotInNamesEmptyGroup(es, name);
    }
    var g := Group(es, name);
    assert (g + [e])[..|g|] == g;
    assert Fold(Group(es + [e], name)) == Step(Fold(g), e);
    forall n | n in stats' && n != name
      ensures stats'[n] == Fold(Group(es + [e], n))
    {
      GroupOther(es, e, n);
    }
  }

  /** One more entry leaves the groups of other names alone. */
  lemma GroupOther(es: seq<ReportEntry>, e: ReportEntry, n: string)
    requires NameOf(e) != n
    ensures Group(es + [e], n) == Group(es, n)
  {
    GroupSnoc(es, e);
    assert Group(es, n) + [] == Group(es, n);
  }

  /** One more entry changes only its own component's group. */
  lemma GroupSnoc(es: seq<ReportEntry>, e: ReportEntry)
    ensures forall n :: Group(es + [e], n) == Group(es, n) + (if NameOf(e) == n then [e] else [])
    ensures Names(es + [e]) == if NameOf(e) in Names(es) then Names(es) else Names(es) + [NameOf(e)]
  {
    assert (es + [e])[..|es|] == es;
  }

  /** A name is a key exactly when some entry has it. */
  lemma {:induction false} NamesInEntries(es: seq<ReportEntry>, n: string)
    ensures n in Names(es) <==> exists k :: 0 <= k < |es| && NameOf(es[k]) == n
    decreases |es|
  {
    if es != [] {
      var p := es[..|es| - 1];
      NamesInEntries(p, n);
      if n in Names(p) {
        var k :| 0 <= k < |p| && NameOf(p[k]) == n;
        assert es[k] == p[k];
      }
      if exists k :: 0 <= k < |es| && NameOf(es[k]) == n {
        var k :| 0 <= k < |es| && NameOf(es[k]) == n;
        if k < |p| {
          assert p[k] == es[k];
        }
      }
    }
  }

  lemma {:induction false} NotInNamesEmptyGroup(es: seq<ReportEntry>, n: string)
    requires n !in Names(es)
    ensures Group(es, n) == []
    decreases |es|
  {
    if es != [] {
      var p := es[..|es| - 1];
      assert n !in Names(p);
      NotInNamesEmptyGroup(p, n);
    }
  }

  /** No name is a key twice. */
  lemma {:induction false} NamesDistinct(es: seq<ReportEntry>)
    ensures forall i, j :: 0 <= i < j < |Names(es)| ==> Names(es)[i] != Names(es)[j]
    decreases |es|
  {
    if es != [] {
      NamesDistinct(es[..|es| - 1]);
    }
  }

  /** The records before sorting list each component once, in first-appearance
      order, with the totals of exactly that component's entries. */
  lemma UnsortedMeaning(es: seq<ReportEntry>)
    ensures |Unsorted(es)| == |Names(es)|
    ensures forall i :: 0 <= i < |Names(es)| ==>
      Unsorted(es)[i] == ToRecord(Names(es)[i], Fold(Group(es, Names(es)[i])))
  {
    RecordsForMeaning(es, Names(es));
  }

  lemma {:induction false} RecordsForMeaning(es: seq<ReportEntry>, ns: seq<string>)
    ensures forall i :: 0 <= i < |ns| ==> RecordsFor(es, ns)[i] == ToRecord(ns[i], Fold(Group(es, ns[i])))
    decreases |ns|
  {
    if ns != [] {
      RecordsForMeaning(es, ns[..|ns| - 1]);
    }
  }

  /** Every component of the report has exactly one output record, and every output
      record is the record of a component of the report. */
  lemma ExtractedOnePerComponent(es: seq<ReportEntry>, n: string)
    ensures |SortByTotalTime(Unsorted(es))| == |Names(es)|
    ensures (exists k :: 0 <= k < |es| && NameOf(es[k]) == n) ==>
      multiset(SortByTotalTime(Unsorted(es)))[ToRecord(n, Fold(Group(es, n)))] >= 1
    ensures forall r :: r in SortByTotalTime(Unsorted(es)) ==>
      r.componentName in Names(es) && r == ToRecord(r.componentName, Fold(Group(es, r.componentName)))
  {
    NamesInEntries(es, n);
    UnsortedMeaning(es);
    var u := Unsorted(es);
    var sorted := SortByTotalTime(u);
    if n in Names(es) {
      var i :| 0 <= i < |Names(es)| && Names(es)[i] == n;
      assert u[i] in multiset(u);
    }
    forall r | r in sorted
      ensures r.componentName in Names(es) && r == ToRecord(r.componentName, Fold(Group(es, r.componentName)))
    {
      assert r in multiset(sorted);
      assert r in multiset(u);
      var i :| 0 <= i < |u| && u[i] == r;
    }
  }

  /** The last render time of a component is the time of its last entry that has
      one, and is null when none has. */
  lemma {:induction false} LastRenderTimeMeaning(es: seq<ReportEntry>)
    ensures Fold(es).lastRenderTime.None? <==> forall k :: 0 <= k < |es| ==> es[k].time.None?
    ensures Fold(es).lastRenderTime.Some? ==>
      exists k :: 0 <= k < |es| && es[k].time == Fold(es).lastRenderTime
                  && forall j :: k < j < |es| ==> es[j].time.None?
    decreases |es|
  {
    if es != [] {
      var p := es[..|es| - 1];
      LastRenderTimeMeaning(p);
      var last := es[|es| - 1];
      if last.time.None? {
        assert forall k :: 0 <= k < |p| ==> p[k] == es[k];
        if Fold(p).lastRenderTime.Some? {
          var k :| 0 <= k < |p| && p[k].time == Fold(p).lastRenderTime
                   && forall j :: k < j < |p| ==> p[j].time.None?;
          assert es[k] == p[k];
        }
      } else {
        assert es[|es| - 1].time == Fold(es).lastRenderTime;
      }
    }
  }

  // ---------------------------------------------------------------- summary

  function SumRenders(rs: seq<PerfRecord>): int {
    if rs == [] then 0 else rs[0].renderCount + SumRenders(rs[1..])
  }

  function SumUnnecessary(rs: seq<PerfRecord>): nat {
    if rs == [] then 0 else rs[0].unnecessaryRenders + SumUnnecessary(rs[1..])
  }

  function SumTime(rs: seq<PerfRecord>): real {
    if rs == [] then 0.0 else rs[0].totalTime + SumTime(rs[1..])
  }

  /** calculatePerformanceSummary: totals over the records, the overall average
      (0 without renders) and the first ten records. */
  function CalculatePerformanceSummary(data: seq<PerfRecord>): (s: Summary)
    ensures s.totalComponents == |data|
    ensures s.totalRenders == SumRenders(data) && s.unnecessaryRenders == SumUnnecessary(data)
    ensures |s.slowestComponents| == if |data| < SlowestCount then |data| else SlowestCount
    ensures s.slowestComponents <= data
    ensures s.totalRenders <= 0 ==> s.averageRenderTime == 0.0
    ensures s.totalRenders > 0 ==> s.averageRenderTime * (s.totalRenders as real) == SumTime(data)
  {
    var totalRenders := SumRenders(data);
    var totalTime := SumTime(data);
    Summary(totalRenders, |data|, SumUnnecessary(data),
            if totalRenders > 0 then totalTime / totalRenders as real else 0.0,
            data[..if |data| < SlowestCount then |data| else SlowestCount])
  }

  /** The entries' totals, without grouping. */
  function EntryRenders(es: seq<ReportEntry>): int {
    if es == [] then 0 else EntryRenders(es[..|es| - 1]) + CountOf(es[|es| - 1])
  }

  function EntryUnnecessary(es: seq<ReportEntry>): nat {
    if es == [] then 0 else EntryUnnecessary(es[..|es| - 1]) + UnnecessaryOf(es[|es| - 1])
  }

  lemma {:induction false} InsertSums(x: PerfRecord, ys: seq<PerfRecord>)
    ensures SumRenders(Insert(x, ys)) == x.renderCount + SumRenders(ys)
    ensures SumUnnecessary(Insert(x, ys)) == x.unnecessaryRenders + SumUnnecessary(ys)
    decreases |ys|
  {
    if ys != [] && ys[0].totalTime >= x.totalTime {
      InsertSums(x, ys[1..]);
      assert Insert(x, ys)[1..] == Insert(x, ys[1..]);
    }
  }

  lemma SumsSnoc(rs: seq<PerfRecord>, x: PerfRecord)
    ensures SumRenders(rs + [x]) == SumRenders(rs) + x.renderCount
    ensures SumUnnecessary(rs + [x]) == SumUnnecessary(rs) + x.unnecessaryRenders
    decreases |rs|
  {
    if rs != [] {
      assert (rs + [x])[1..] == rs[1..] + [x];
      SumsSnoc(rs[1..], x);
    }
  }

  lemma {:induction false} SortKeepsSums(rs: seq<PerfRecord>)
    ensures SumRenders(SortByTotalTime(rs)) == SumRenders(rs)
    ensures SumUnnecessary(SortByTotalTime(rs)) == SumUnnecessary(rs)
    decreases |rs|
  {
    if rs != [] {
      var p := rs[..|rs| - 1];
      var x := rs[|rs| - 1];
      SortKeepsSums(p);
      InsertSums(x, SortByTotalTime(p));
      SumsSnoc(p, x);
      SplitLast(rs);
    }
  }

  lemma {:induction false} SplitLast(rs: seq<PerfRecord>)
    requires rs != []
    ensures rs == rs[..|rs| - 1] + [rs[|rs| - 1]]
    ensures SortByTotalTime(rs) == Insert(rs[|rs| - 1], SortByTotalTime(rs[..|rs| - 1]))
  {
    assert rs == rs[..|rs| - 1] + [rs[|rs| - 1]];
  }

  /** The render and unnecessary-render totals of the names `ns`. */
  function RendersOver(es: seq<ReportEntry>, ns: seq<string>): int {
    if ns == [] then 0 else RendersOver(es, ns[..|ns| - 1]) + Fold(Group(es, ns[|ns| - 1])).renderCount
  }

  function UnnecessaryOver(es: seq<ReportEntry>, ns: seq<string>): nat {
    if ns == [] then 0 else UnnecessaryOver(es, ns[..|ns| - 1]) + Fold(Group(es, ns[|ns| - 1])).unnecessaryRenders
  }

  lemma {:induction false} RecordsForSums(es: seq<ReportEntry>, ns: seq<string>)
    ensures SumRenders(RecordsFor(es, ns)) == RendersOver(es, ns)
    ensures SumUnnecessary(RecordsFor(es, ns)) == UnnecessaryOver(es, ns)
    decreases |ns|
  {
    if ns != [] {
      var q := ns[..|ns| - 1];
      var n := ns[|ns| - 1];
      RecordsForSums(es, q);
      SumsSnoc(RecordsFor(es, q), ToRecord(n, Fold(Group(es, n))));
    }
  }

  /** One more entry adds to the totals of its own name only. */
  lemma FoldGroupSnoc(es: seq<ReportEntry>, e: ReportEntry, n: string)
    ensures Fold(Group(es + [e], n)) == if NameOf(e) == n then Step(Fold(Group(es, n)), e) else Fold(Group(es, n))
  {
    GroupSnoc(es, e);
    var g := Group(es, n);
    if NameOf(e) == n {
      assert (g + [e])[..|g|] == g;
    } else {
      assert g + [] == g;
    }
  }

  /** Extending the report by an entry adds its counts to the totals of distinct
      names `ns` exactly when its name is among them. */
  lemma {:induction false} OverSnoc(es: seq<ReportEntry>, e: ReportEntry, ns: seq<string>)
    requires forall i, j :: 0 <= i < j < |ns| ==> ns[i] != ns[j]
    ensures RendersOver(es + [e], ns) == RendersOver(es, ns) + (if NameOf(e) in ns then CountOf(e) else 0)
    ensures UnnecessaryOver(es + [e], ns) == UnnecessaryOver(es, ns) + (if NameOf(e) in ns then UnnecessaryOf(e) else 0)
    decreases |ns|
  {
    if ns != [] {
      var q := ns[..|ns| - 1];
      var n := ns[|ns| - 1];
      OverSnoc(es, e, q);
      FoldGroupSnoc(es, e, n);
      assert NameOf(e) in ns <==> NameOf(e) in q || NameOf(e) == n;
      assert NameOf(e) == n ==> NameOf(e) !in q;
    }
  }

  lemma {:induction false} TotalsOfNames(es: seq<ReportEntry>)
    ensures RendersOver(es, Names(es)) == EntryRenders(es)
    ensures UnnecessaryOver(es, Names(es)) == EntryUnnecessary(es)
    decreases |es|
  {
    if es != [] {
      var p := es[..|es| - 1];
      var e := es[|es| - 1];
      TotalsOfNames(p);
      TotalsStepAt(es);
    }
  }

  lemma LastEntrySplit(es: seq<ReportEntry>)
    requires es != []
    ensures es == es[..|es| - 1] + [es[|es| - 1]]
  {
  }

  lemma TotalsStepAt(es: seq<ReportEntry>)
    requires es != []
    ensures RendersOver(es, Names(es)) == RendersOver(es[..|es| - 1], Names(es[..|es| - 1])) + CountOf(es[|es| - 1])
    ensures UnnecessaryOver(es, Names(es))
      == UnnecessaryOver(es[..|es| - 1], Names(es[..|es| - 1])) + UnnecessaryOf(es[|es| - 1])
  {
    var p := es[..|es| - 1];
    LastEntrySplit(es);
    TotalsStep(p, es[|es| - 1]);
  }

  /** One more entry adds its counts to the totals over the names. */
  lemma TotalsStep(p: seq<ReportEntry>, e: ReportEntry)
    ensures RendersOver(p + [e], Names(p + [e])) == RendersOver(p, Names(p)) + CountOf(e)
    ensures UnnecessaryOver(p + [e], Names(p + [e])) == UnnecessaryOver(p, Names(p)) + UnnecessaryOf(e)
  {
    NamesDistinct(p);
    GroupSnoc(p, e);
    OverSnoc(p, e, Names(p));
    var n := NameOf(e);
    if n !in Names(p) {
      NotInNamesEmptyGroup(p, n);
      FoldGroupSnoc(p, e, n);
      var ns := Names(p) + [n];
      assert ns[..|ns| - 1] == Names(p);
    }
  }

  /** Grouping loses no render: the summary of the extracted data counts every
      entry's renders and unnecessary renders exactly once, and has one component
      per distinct name. */
  lemma SummaryOfReport(es: seq<ReportEntry>)
    ensures var s := CalculatePerformanceSummary(SortByTotalTime(Unsorted(es)));
      s.totalRenders == EntryRenders(es) && s.unnecessaryRenders == EntryUnnecessary(es)
      && s.totalComponents == |Names(es)|
  {
    SortKeepsSums(Unsorted(es));
    RecordsForSums(es, Names(es));
    TotalsOfNames(es);
  }
  /** On a slowest-first list the summary keeps the slowest records: its top list
      is still slowest first, and no record left out is slower than one kept. */
  lemma SummaryKeepsSlowest(data: seq<PerfRecord>)
    requires SortedDesc(data)
    ensures var top := CalculatePerformanceSummary(data).slowestComponents;
      SortedDesc(top)
      && multiset(top) <= multiset(data)
      && forall r :: r in multiset(data) - multiset(top) ==>
           forall i :: 0 <= i < |top| ==> top[i].totalTime >= r.totalTime
  {
    var top := CalculatePerformanceSummary(data).slowestComponents;
    var k := |top|;
    assert data == top + data[k..];
    assert multiset(data) == multiset(top) + multiset(data[k..]);
    forall r | r in multiset(data) - multiset(top)
      ensures forall i :: 0 <= i < |top| ==> top[i].totalTime >= r.totalTime
    {
      assert r in data[k..];
      var j :| 0 <= j < |data[k..]| && data[k..][j] == r;
      assert data[k + j] == r;
    }
  }

  /** The summary of a report lists, slowest first, records of that report, and
      every component it leaves out is at most as slow as each one it lists. */
  lemma SlowestOfReport(es: seq<ReportEntry>)
    ensures var top := CalculatePerformanceSummary(SortByTotalTime(Unsorted(es))).slowestComponents;
      SortedDesc(top)
      && multiset(top) <= multiset(Unsorted(es))
      && |top| == (if |Names(es)| < SlowestCount then |Names(es)| else SlowestCount)
      && forall r :: r in multiset(Unsorted(es)) - multiset(top) ==>
           forall i :: 0 <= i < |top| ==> top[i].totalTime >= r.totalTime
  {
    SortByTotalTimeSorted(Unsorted(es));
    SummaryKeepsSlowest(SortByTotalTime(Unsorted(es)));
  }
}
