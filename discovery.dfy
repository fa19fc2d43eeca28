/** The first phase of `NetflixScraper`: `FetchRow` and `FetchAll` as
    functions of what the browser shows. A row is read pass after pass; each
    pass counts the ids of the cards that are entirely displayed, and the row
    is left once the smallest count is exactly 2. The methods of
    `NetflixScraper.NetflixScraper` are proved equal to these functions. */
module Discovery {
  import opened Wrappers
  import opened Text

  /** Reading the provider id of one card: the first digit run of its link
      (empty when the link has none), or a WebDriverException, which the
      element-level wrapper rethrows because no handler is given. */
  datatype IdRead = Href(digits: string) | ReadFault

  /** One entirely displayed card: what the cancellation check just before it
      saw, and what reading its id gave. */
  datatype Sighting = Sighting(cancelled: bool, read: IdRead)

  /** One pass of the row loop: the entirely displayed cards in page order,
      whether the row's scroll handles are found when they are looked for,
      and what the cancellation check closing the pass saw. */
  datatype RowPass = RowPass(visible: seq<Sighting>, handlesFound: bool, cancelledAfter: bool)

  /** How `FetchRow` is left. `OutOfPasses`: the given passes are used up
      while the row is still being scrolled, so the source would go on
      looping. */
  datatype RowEnd = Converged | Cancelled | Faulted | OutOfPasses

  /** The per-row view counts (`rowIds`) and the discovered ids (`fetchSet`,
      in insertion order). */
  datatype Scan = Scan(counts: map<string, nat>, fetched: seq<string>)

  datatype PassResult = PassResult(stop: Option<RowEnd>, scan: Scan)

  /** How the row ended, what it left, and how often the arrow was clicked. */
  datatype RowResult = RowResult(end: RowEnd, scan: Scan, clicks: nat)

  /** One row of the catalog: the cancellation check made before it, then the
      passes `FetchRow` makes over it. */
  datatype RowInput = RowInput(cancelledBefore: bool, passes: seq<RowPass>)

  /** How `FetchAll` is left; `row` is the index of the row concerned. */
  datatype DiscoveryEnd =
    | AllRowsDone
    | CancelledBeforeRow(row: nat)
    | RowFaulted(row: nat)
    | RowUnfinished(row: nat)

  datatype Discovered = Discovered(end: DiscoveryEnd, fetched: seq<string>)

  ghost function Elems(s: seq<string>): set<string> {
    set x | x in s
  }

  /** Recording one sighting of a non-empty id. */
  function See(sc: Scan, id: string): Scan {
    if id in sc.counts then Scan(sc.counts[id := sc.counts[id] + 1], sc.fetched)
    else Scan(sc.counts[id := 1], if id in sc.fetched then sc.fetched else sc.fetched + [id])
  }

  /** The loop over the visible cards of one pass. */
  function ScanPass(sc: Scan, visible: seq<Sighting>): (r: PassResult)
    ensures r.stop.Some? ==> r.stop.value in {Cancelled, Faulted}
    decreases |visible|
  {
    if visible == [] then PassResult(None, sc)
    else if visible[0].cancelled then PassResult(Some(Cancelled), sc)
    else match visible[0].read
      case ReadFault => PassResult(Some(Faulted), sc)
      case Href(id) => ScanPass(if id == "" then sc else See(sc, id), visible[1..])
  }

  /** The row is fully read: at least one id, and the least count is 2. */
  predicate RowConverged(counts: map<string, nat>) {
    && |counts| > 0
    && (forall k | k in counts :: counts[k] >= 2)
    && (exists k | k in counts :: counts[k] == 2)
  }

  /** The row loop from a given state. `arrow`: the scroll arrow has been
      found earlier; it is then clicked after every pass that does not
      converge. */
  function RunRow(sc: Scan, arrow: bool, clicks: nat, passes: seq<RowPass>): RowResult
    decreases |passes|
  {
    if passes == [] then RowResult(OutOfPasses, sc, clicks)
    else
      var p := passes[0];
      var r := ScanPass(sc, p.visible);
      if r.stop.Some? then RowResult(r.stop.value, r.scan, clicks)
      else if RowConverged(r.scan.counts) then RowResult(Converged, r.scan, clicks)
      else
        var arrow' := arrow || p.handlesFound;
        var clicks' := if arrow' then clicks + 1 else clicks;
        if p.cancelledAfter then RowResult(Cancelled, r.scan, clicks')
        else RunRow(r.scan, arrow', clicks', passes[1..])
  }

  /** `FetchRow`: fresh counts, no arrow yet. */
  function FetchRow(fetched: seq<string>, passes: seq<RowPass>): RowResult {
    RunRow(Scan(map[], fetched), false, 0, passes)
  }

  /** The row loop of `FetchAll` from row `k` on. A row left by cancellation
      does not stop the loop: the check before the next row does. */
  function RunRows(fetched: seq<string>, rows: seq<RowInput>, k: nat): Discovered
    decreases |rows|
  {
    if rows == [] then Discovered(AllRowsDone, fetched)
    else if rows[0].cancelledBefore then Discovered(CancelledBeforeRow(k), fetched)
    else
      var r := FetchRow(fetched, rows[0].passes);
      match r.end
      case Faulted => Discovered(RowFaulted(k), r.scan.fetched)
      case OutOfPasses => Discovered(RowUnfinished(k), r.scan.fetched)
      case _ => RunRows(r.scan.fetched, rows[1..], k + 1)
  }

  /** `FetchAll`: the discovered set starts empty. `rows` is empty when the
      lookup of the row containers found nothing. */
  function FetchAll(rows: seq<RowInput>): Discovered {
    RunRows([], rows, 0)
  }

  // ----- What one pass records -----

  /** The non-empty ids read in one pass, in order, up to a cancellation or a
      fault. */
  function ReadIds(visible: seq<Sighting>): (ids: seq<string>)
    ensures "" !in ids
  {
    if visible == [] || visible[0].cancelled || visible[0].read.ReadFault? then []
    else
      var id := visible[0].read.digits;
      (if id == "" then [] else [id]) + ReadIds(visible[1..])
  }

  function CountOf(counts: map<string, nat>, k: string): nat {
    if k in counts then counts[k] else 0
  }

  /** A first sighting records 1 and every later sighting adds exactly 1: after
      a pass, the count of an id is its count before plus the number of times
      the pass read it. Empty ids are never counted. */
  lemma {:induction false} ScanPassCounts(sc: Scan, visible: seq<Sighting>, k: string)
    ensures var r := ScanPass(sc, visible).scan;
      && (k in r.counts <==> k in sc.counts || k in ReadIds(visible))
      && CountOf(r.counts, k) == CountOf(sc.counts, k) + multiset(ReadIds(visible))[k]
    decreases |visible|
  {
    if visible != [] && !visible[0].cancelled && visible[0].read.Href? {
      var id := visible[0].read.digits;
      var next := if id == "" then sc else See(sc, id);
      ScanPassCounts(next, visible[1..], k);
      assert ReadIds(visible) == (if id == "" then [] else [id]) + ReadIds(visible[1..]);
    }
  }

  /** What a scan keeps: ids are never forgotten and counts never decrease, the
      discovered ids only grow at the end, and they grow by exactly the ids
      first counted since. */
  ghost predicate Extends(a: Scan, b: Scan) {
    && a.fetched <= b.fetched
    && a.counts.Keys <= b.counts.Keys
    && (forall k :: k in a.counts ==> a.counts[k] <= b.counts[k])
    && Elems(b.fetched) == Elems(a.fetched) + (b.counts.Keys - a.counts.Keys)
  }

  /** No id discovered twice, and the empty id neither counted nor discovered. */
  ghost predicate WellFormed(sc: Scan) {
    NoDuplicates(sc.fetched) && "" !in sc.counts && "" !in sc.fetched
  }

  lemma ExtendsTransitive(a: Scan, b: Scan, c: Scan)
    requires Extends(a, b) && Extends(b, c)
    ensures Extends(a, c)
  {
  }

  lemma SeeExtends(sc: Scan, id: string)
    requires WellFormed(sc) && id != ""
    ensures Extends(sc, See(sc, id)) && WellFormed(See(sc, id))
  {
    var r := See(sc, id);
    if id !in sc.counts && id !in sc.fetched {
      assert Elems(r.fetched) == Elems(sc.fetched) + {id};
    }
  }

  lemma {:induction false} ScanPassExtends(sc: Scan, visible: seq<Sighting>)
    requires WellFormed(sc)
    ensures Extends(sc, ScanPass(sc, visible).scan) && WellFormed(ScanPass(sc, visible).scan)
    decreases |visible|
  {
    if visible != [] && !visible[0].cancelled && visible[0].read.Href? {
      var id := visible[0].read.digits;
      var next := if id == "" then sc else See(sc, id);
      if id != "" {
        SeeExtends(sc, id);
      }
      ScanPassExtends(next, visible[1..]);
      ExtendsTransitive(sc, next, ScanPass(next, visible[1..]).scan);
    }
  }

  /** Over a whole row: counts never decrease, the discovered ids are only
      appended to, keep no duplicate and no empty id, and gain exactly the ids
      first sighted in this row that were not discovered before. */
  lemma {:induction false} RunRowExtends(sc: Scan, arrow: bool, clicks: nat, passes: seq<RowPass>)
    requires WellFormed(sc)
    ensures Extends(sc, RunRow(sc, arrow, clicks, passes).scan)
    ensures WellFormed(RunRow(sc, arrow, clicks, passes).scan)
    ensures RunRow(sc, arrow, clicks, passes).clicks >= clicks
    decreases |passes|
  {
    if passes != [] {
      var p := passes[0];
      var r := ScanPass(sc, p.visible);
      ScanPassExtends(sc, p.visible);
      if r.stop.None? && !RowConverged(r.scan.counts) && !p.cancelledAfter {
        var arrow' := arrow || p.handlesFound;
        var clicks' := if arrow' then clicks + 1 else clicks;
        RunRowExtends(r.scan, arrow', clicks', passes[1..]);
        ExtendsTransitive(sc, r.scan, RunRow(r.scan, arrow', clicks', passes[1..]).scan);
      }
    }
  }

  /** An id enters the discovered set only on its first sighting in the row:
      every id `FetchRow` appends was counted in this row, was not discovered
      before, and appears once. */
  lemma FetchRowAppendsFirstSightings(fetched: seq<string>, passes: seq<RowPass>)
    requires NoDuplicates(fetched) && "" !in fetched
    ensures var r := FetchRow(fetched, passes).scan;
      && fetched <= r.fetched
      && NoDuplicates(r.fetched) && "" !in r.fetched
      && (forall x :: x in r.fetched[|fetched|..] <==> x in r.counts && x !in fetched)
  {
    var sc := Scan(map[], fetched);
    RunRowExtends(sc, false, 0, passes);
    var r := FetchRow(fetched, passes).scan;
    forall x
      ensures x in r.fetched[|fetched|..] <==> x in r.counts && x !in fetched
    {
      if x in r.fetched[|fetched|..] {
        var i :| 0 <= i < |r.fetched[|fetched|..]| && r.fetched[|fetched|..][i] == x;
        assert r.fetched[|fetched| + i] == x;
        assert x !in fetched;
        assert x in Elems(r.fetched);
      }
      if x in r.counts && x !in fetched {
        assert x in Elems(r.fetched);
        var i :| 0 <= i < |r.fetched| && r.fetched[i] == x;
        assert i >= |fetched|;
        assert r.fetched[|fetched|..][i - |fetched|] == x;
      }
    }
  }

  /** A row that is left normally has at least one id and every id it counted
      was seen at least twice; in particular every id it discovered. */
  lemma ConvergedRowSawEachTwice(fetched: seq<string>, passes: seq<RowPass>)
    requires NoDuplicates(fetched) && "" !in fetched
    requires FetchRow(fetched, passes).end == Converged
    ensures var r := FetchRow(fetched, passes).scan;
      && RowConverged(r.counts)
      && fetched <= r.fetched
      && (forall x :: x in r.fetched[|fetched|..] ==> x in r.counts && r.counts[x] >= 2)
  {
    ConvergedEnd(Scan(map[], fetched), false, 0, passes);
    FetchRowAppendsFirstSightings(fetched, passes);
  }

  lemma {:induction false} ConvergedEnd(sc: Scan, arrow: bool, clicks: nat, passes: seq<RowPass>)
    requires RunRow(sc, arrow, clicks, passes).end == Converged
    ensures RowConverged(RunRow(sc, arrow, clicks, passes).scan.counts)
    decreases |passes|
  {
    var p := passes[0];
    var r := ScanPass(sc, p.visible);
    if r.stop.None? && !RowConverged(r.scan.counts) && !p.cancelledAfter {
      var arrow' := arrow || p.handlesFound;
      ConvergedEnd(r.scan, arrow', if arrow' then clicks + 1 else clicks, passes[1..]);
    }
  }

  lemma {:induction false} NothingReadLeavesScan(sc: Scan, visible: seq<Sighting>)
    requires forall i :: 0 <= i < |visible| ==> visible[i].read == Href("")
    ensures ScanPass(sc, visible).scan == sc
    decreases |visible|
  {
    if visible != [] && !visible[0].cancelled {
      NothingReadLeavesScan(sc, visible[1..]);
    }
  }

  /** A row where no card with an id is ever entirely displayed never
      converges: without an arrow to scroll it, the source re-reads it until
      cancellation. */
  lemma {:induction false} EmptyRowNeverConverges(sc: Scan, arrow: bool, clicks: nat, passes: seq<RowPass>)
    requires sc.counts == map[]
    requires forall p, i :: p in passes && 0 <= i < |p.visible| ==> p.visible[i].read == Href("")
    ensures RunRow(sc, arrow, clicks, passes).end != Converged
    ensures RunRow(sc, arrow, clicks, passes).scan == sc
    ensures !arrow && (forall p :: p in passes ==> !p.handlesFound) ==> RunRow(sc, arrow, clicks, passes).clicks == clicks
    decreases |passes|
  {
    if passes != [] {
      var p := passes[0];
      NothingReadLeavesScan(sc, p.visible);
      var arrow' := arrow || p.handlesFound;
      EmptyRowNeverConverges(sc, arrow', if arrow' then clicks + 1 else clicks, passes[1..]);
    }
  }

  /** Discovery as a whole: the discovered ids hold no duplicate and no empty
      id, and every row only appends to them. */
  lemma {:induction false} RunRowsKeepsIds(fetched: seq<string>, rows: seq<RowInput>, k: nat)
    requires NoDuplicates(fetched) && "" !in fetched
    ensures var d := RunRows(fetched, rows, k);
      fetched <= d.fetched && NoDuplicates(d.fetched) && "" !in d.fetched
    decreases |rows|
  {
    if rows != [] && !rows[0].cancelledBefore {
      var r := FetchRow(fetched, rows[0].passes);
      FetchRowAppendsFirstSightings(fetched, rows[0].passes);
      if r.end != Faulted && r.end != OutOfPasses {
        RunRowsKeepsIds(r.scan.fetched, rows[1..], k + 1);
      }
    }
  }

  /** The first `c` rows are each entered and left normally or by
      cancellation inside the row. */
  ghost predicate RowsFinish(fetched: seq<string>, rows: seq<RowInput>, c: nat)
    requires c <= |rows|
    decreases c
  {
    c == 0 ||
      (&& !rows[0].cancelledBefore
       && FetchRow(fetched, rows[0].passes).end in {Converged, Cancelled}
       && RowsFinish(FetchRow(fetched, rows[0].passes).scan.fetched, rows[1..], c - 1))
  }

  /** The discovered ids after the first `c` rows. */
  ghost function FetchedAfter(fetched: seq<string>, rows: seq<RowInput>, c: nat): seq<string>
    requires c <= |rows|
    decreases c
  {
    if c == 0 then fetched
    else FetchedAfter(FetchRow(fetched, rows[0].passes).scan.fetched, rows[1..], c - 1)
  }

  /** Cancellation seen before a row: discovery returns what the earlier rows
      found, and nothing from that row or the rows after it. */
  lemma {:induction false} CancelBeforeRowKeepsEarlierRows(fetched: seq<string>, rows: seq<RowInput>, k: nat, c: nat)
    requires c < |rows| && rows[c].cancelledBefore
    requires RowsFinish(fetched, rows, c)
    ensures RunRows(fetched, rows, k) == Discovered(CancelledBeforeRow(k + c), FetchedAfter(fetched, rows, c))
    decreases c
  {
    if c > 0 {
      var r := FetchRow(fetched, rows[0].passes);
      assert rows[1..][c - 1] == rows[c];
      CancelBeforeRowKeepsEarlierRows(r.scan.fetched, rows[1..], k + 1, c - 1);
    }
  }
}
