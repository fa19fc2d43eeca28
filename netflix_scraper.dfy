/** `NetflixScraper`: the object that discovers the provider ids of the
    catalog and then scrapes each title into the shared media bag. Its fields
    are the ones its methods update: the discovered set and the bag. Every
    method is proved equal to the function of the same name in `Discovery`
    or `Extraction`. */
module Scraper {
  import opened Wrappers
  import opened Text
  import opened Media
  import opened MediaScrape
  import Discovery
  import Extraction

  class NetflixScraper {
    /** `fetchSet`: the discovered provider ids, in enumeration order. */
    var fetchSet: seq<string>
    /** `mediaBag`: the records kept so far, in the order they were added. */
    var mediaBag: seq<MediaRecord>

    constructor(bag: seq<MediaRecord>)
      ensures fetchSet == [] && mediaBag == bag
    {
      fetchSet := [];
      mediaBag := bag;
    }

    /** Reads one row pass after pass, counting the entirely displayed ids and
        adding the new ones to `fetchSet`. Returns how the row was left and
        how often the scroll arrow was clicked. */
    method FetchRow(passes: seq<Discovery.RowPass>) returns (end: Discovery.RowEnd, clicks: nat)
      modifies this
      ensures var r := Discovery.FetchRow(old(fetchSet), passes);
        end == r.end && fetchSet == r.scan.fetched && clicks == r.clicks
      ensures mediaBag == old(mediaBag)
    {
      var rowIds: map<string, nat> := map[];
      var arrow := false;
      clicks := 0;
      var j := 0;
      while j < |passes|
        invariant 0 <= j <= |passes|
        invariant Discovery.RunRow(Discovery.Scan(rowIds, fetchSet), arrow, clicks, passes[j..])
          == Discovery.FetchRow(old(fetchSet), passes)
        invariant mediaBag == old(mediaBag)
        decreases |passes| - j
      {
        var pass := passes[j];
        var stop;
        stop, rowIds := ScanCards(rowIds, pass.visible);
        assert passes[j..][0] == pass && passes[j..][1..] == passes[j + 1..];
        if stop.Some? {
          end := stop.value;
          return;
        }
        if Discovery.RowConverged(rowIds) {
          end := Discovery.Converged;
          return;
        }
        if !arrow && pass.handlesFound {
          arrow := true;
        }
        if arrow {
          clicks := clicks + 1;
        }
        if pass.cancelledAfter {
          end := Discovery.Cancelled;
          return;
        }
        j := j + 1;
      }
      end := Discovery.OutOfPasses;
    }

    /** The `foreach` over the cards visible in one pass: each card's id is
        counted for the row and, when new to the row and to the set, added to
        `fetchSet`; a cancellation or a failed read stops the pass. */
    method ScanCards(counts: map<string, nat>, visible: seq<Discovery.Sighting>)
      returns (stop: Option<Discovery.RowEnd>, rowIds: map<string, nat>)
      modifies `fetchSet
      ensures Discovery.ScanPass(Discovery.Scan(counts, old(fetchSet)), visible)
        == Discovery.PassResult(stop, Discovery.Scan(rowIds, fetchSet))
    {
      rowIds := counts;
      stop := None;
      var k := 0;
      while k < |visible|
        invariant 0 <= k <= |visible|
        invariant Discovery.ScanPass(Discovery.Scan(rowIds, fetchSet), visible[k..])
          == Discovery.ScanPass(Discovery.Scan(counts, old(fetchSet)), visible)
        decreases |visible| - k
      {
        var card := visible[k];
        ghost var before := Discovery.Scan(rowIds, fetchSet);
        assert visible[k..][0] == card && visible[k..][1..] == visible[k + 1..];
        if card.cancelled {
          stop := Some(Discovery.Cancelled);
          return;
        }
        match card.read {
          case ReadFault =>
            stop := Some(Discovery.Faulted);
            return;
          case Href(providerId) =>
            if providerId != "" {
              if providerId in rowIds {
                rowIds := rowIds[providerId := rowIds[providerId] + 1];
              } else {
                rowIds := rowIds[providerId := 1];
                if providerId !in fetchSet {
                  fetchSet := fetchSet + [providerId];
                }
              }
            }
            assert Discovery.Scan(rowIds, fetchSet)
              == if providerId == "" then before else Discovery.See(before, providerId);
        }
        k := k + 1;
      }
      assert visible[k..] == [];
    }

    /** Starts `fetchSet` afresh and reads the rows in order until one of them
        faults or does not finish, or cancellation is seen before a row. */
    method FetchAll(rows: seq<Discovery.RowInput>) returns (end: Discovery.DiscoveryEnd)
      modifies this
      ensures Discovery.FetchAll(rows) == Discovery.Discovered(end, fetchSet)
      ensures mediaBag == old(mediaBag)
    {
      fetchSet := [];
      var row := 0;
      while row < |rows|
        invariant 0 <= row <= |rows|
        invariant Discovery.RunRows(fetchSet, rows[row..], row) == Discovery.FetchAll(rows)
        invariant mediaBag == old(mediaBag)
        decreases |rows| - row
      {
        assert rows[row..][0] == rows[row] && rows[row..][1..] == rows[row + 1..];
        if rows[row].cancelledBefore {
          end := Discovery.CancelledBeforeRow(row);
          return;
        }
        var rowEnd, _ := FetchRow(rows[row].passes);
        if rowEnd == Discovery.Faulted {
          end := Discovery.RowFaulted(row);
          return;
        }
        if rowEnd == Discovery.OutOfPasses {
          end := Discovery.RowUnfinished(row);
          return;
        }
        row := row + 1;
      }
      end := Discovery.AllRowsDone;
    }

    /** Scrapes the title at position `i`, keeps the record when valid,
        removes its id and moves `i` on by one, wrapping to 0, until the set
        is empty or cancellation is seen. Also returns the ids attempted, in
        order. */
    method ScrapeAll(page: string -> DetailPage, cancelled: nat -> bool)
      returns (end: Extraction.ScrapeEnd, success: nat, attempted: seq<string>)
      modifies this
      ensures Extraction.ScrapeAll(old(fetchSet), old(mediaBag), page, cancelled)
        == Extraction.Extracted(end, mediaBag, success, fetchSet, attempted)
    {
      success := 0;
      attempted := [];
      if |fetchSet| == 0 {
        end := Extraction.ScrapeFaulted(OtherException("ArgumentOutOfRangeException"));
        return;
      }
      Extraction.ScrapedKeepsIds(page);
      var i := 0;
      while true
        invariant i < |fetchSet|
        invariant Extraction.RunScrape(fetchSet, i, mediaBag, success, attempted, Extraction.Scraped(page), cancelled)
          == Extraction.ScrapeAll(old(fetchSet), old(mediaBag), page, cancelled)
        decreases |fetchSet|
      {
        var providerId := fetchSet[i];
        assert Extraction.Scraped(page)(providerId) == Scrape(providerId, page(providerId));
        var scraped := Scrape(providerId, page(providerId));
        if scraped.Threw? {
          end := Extraction.ScrapeFaulted(scraped.error);
          return;
        }
        if scraped.value.None? {
          end := Extraction.ScrapeFaulted(NullReferenceException);
          return;
        }
        var media := scraped.value.value;
        if IsMediaValid(Some(media)) {
          mediaBag := mediaBag + [media];
          success := success + 1;
        }
        fetchSet := Extraction.Remove(fetchSet, media.providerId);
        attempted := attempted + [providerId];
        i := i + 1;
        if i >= |fetchSet| {
          i := 0;
        }
        if |fetchSet| == 0 {
          end := Extraction.Emptied;
          return;
        }
        if cancelled(|attempted|) {
          end := Extraction.CancelledScrape;
          return;
        }
      }
    }

    /** The scraper task's body once the catalog page is shown: discovery
        unless cancellation is already requested, then extraction unless
        cancellation is requested by then or nothing was discovered. The
        token never goes back, so a cancellation seen before discovery is
        still seen after it. */
    method Work(cancelledBeforeFetch: bool, rows: seq<Discovery.RowInput>, cancelledAfterFetch: bool,
                page: string -> DetailPage, cancelled: nat -> bool)
      returns (discovery: Option<Discovery.DiscoveryEnd>, extraction: Option<Extraction.ScrapeEnd>)
      modifies this
      ensures cancelledBeforeFetch ==>
        discovery == None && extraction == None && fetchSet == old(fetchSet) && mediaBag == old(mediaBag)
      ensures !cancelledBeforeFetch ==>
        var d := Discovery.FetchAll(rows);
        && discovery == Some(d.end)
        && (if d.end.RowFaulted? || d.end.RowUnfinished? || cancelledAfterFetch || d.fetched == [] then
              extraction == None && fetchSet == d.fetched && mediaBag == old(mediaBag)
            else
              var x := Extraction.ScrapeAll(d.fetched, old(mediaBag), page, cancelled);
              extraction == Some(x.end) && fetchSet == x.pending && mediaBag == x.bag)
    {
      discovery, extraction := None, None;
      if cancelledBeforeFetch {
        return;
      }
      var fetched := FetchAll(rows);
      discovery := Some(fetched);
      if fetched.RowFaulted? || fetched.RowUnfinished? {
        return;
      }
      if !cancelledAfterFetch && |fetchSet| > 0 {
        var scrapeEnd, _, _ := ScrapeAll(page, cancelled);
        extraction := Some(scrapeEnd);
      }
    }
  }

  /** End to end: whatever discovery found and however extraction ends, the
      bag only grows, every record added is valid and belongs to a discovered
      id, and the success counter equals the number of records added. */
  lemma BagGrowsByValidDiscoveredRecords(rows: seq<Discovery.RowInput>, bag: seq<MediaRecord>,
                                         page: string -> DetailPage, cancelled: nat -> bool)
    ensures var d := Discovery.FetchAll(rows);
      var x := Extraction.ScrapeAll(d.fetched, bag, page, cancelled);
      && bag <= x.bag
      && (forall k :: |bag| <= k < |x.bag| ==> IsMediaValid(Some(x.bag[k])))
      && (forall k :: |bag| <= k < |x.bag| ==> x.bag[k].providerId in d.fetched)
      && x.success == |x.bag| - |bag|
  {
    var d := Discovery.FetchAll(rows);
    Discovery.RunRowsKeepsIds([], rows, 0);
    if d.fetched != [] {
      Extraction.ScrapedKeepsIds(page);
      var o := Extraction.Scraped(page);
      Extraction.RunScrapeFillsBag(d.fetched, 0, bag, 0, [], o, cancelled);
      Extraction.RunScrapeBagFromPending(d.fetched, 0, bag, 0, o, cancelled);
    }
  }
}
