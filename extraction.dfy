/** The second phase of `NetflixScraper`: `ScrapeAll` as a function of what
    each title's detail view shows and of the cancellation checks. The
    pending ids are the discovered set in its enumeration order; the title at
    position `i` is scraped, removed, and `i` moves on by one, wrapping to 0.
    Because the removal already shifted the later ids down, every step skips
    one title, which the wrap-around picks up on a later round. */
module Extraction {
  import opened Wrappers
  import opened Text
  import opened Media
  import opened MediaScrape

  /** How `ScrapeAll` is left: the set was emptied, the check after an attempt
      saw cancellation, or an exception escaped. */
  datatype ScrapeEnd = Emptied | CancelledScrape | ScrapeFaulted(error: Exception)

  /** The end, the bag, the success counter, the ids still pending and the
      ids attempted, in order. */
  datatype Extracted = Extracted(
    end: ScrapeEnd,
    bag: seq<MediaRecord>,
    success: nat,
    pending: seq<string>,
    visited: seq<string>)

  /** `HashSet.Remove`: the set without `x`. */
  function Remove(s: seq<string>, x: string): (r: seq<string>)
    ensures x !in r
    ensures forall y :: y in r <==> y in s && y != x
    ensures x in s ==> |r| < |s|
    ensures x !in s ==> r == s
  {
    if s == [] then []
    else if s[0] == x then Remove(s[1..], x)
    else [s[0]] + Remove(s[1..], x)
  }

  /** In a set, removing the id at position `i` closes the gap: the ids after
      it move down by one and the others keep their order. */
  lemma {:induction false} RemoveAt(s: seq<string>, i: nat)
    requires NoDuplicates(s) && i < |s|
    ensures Remove(s, s[i]) == s[..i] + s[i + 1..]
  {
    if i == 0 {
      assert s[0] !in s[1..];
      assert s[..0] + s[1..] == s[1..];
    } else {
      assert s[1..][i - 1] == s[i];
      RemoveAt(s[1..], i - 1);
      assert s[1..][..i - 1] + s[1..][i..] == s[1..i] + s[i + 1..];
      assert [s[0]] + (s[1..i] + s[i + 1..]) == s[..i] + s[i + 1..];
    }
  }

  lemma NoDuplicatesCons(x: string, s: seq<string>)
    requires x !in s && NoDuplicates(s)
    ensures NoDuplicates([x] + s)
  {
    forall i, j | 0 <= i < j < |[x] + s|
      ensures ([x] + s)[i] != ([x] + s)[j]
    {
      if i > 0 {
        assert ([x] + s)[i] == s[i - 1] && ([x] + s)[j] == s[j - 1];
      } else {
        assert ([x] + s)[j] == s[j - 1];
      }
    }
  }

  lemma {:induction false} RemoveKeepsNoDuplicates(s: seq<string>, x: string)
    requires NoDuplicates(s)
    ensures NoDuplicates(Remove(s, x))
  {
    if s != [] {
      assert NoDuplicates(s[1..]) by {
        forall i, j | 0 <= i < j < |s[1..]|
          ensures s[1..][i] != s[1..][j]
        {
          assert s[1..][i] == s[i + 1] && s[1..][j] == s[j + 1];
        }
      }
      RemoveKeepsNoDuplicates(s[1..], x);
      if s[0] != x {
        assert s[0] !in s[1..] by {
          forall j | 0 <= j < |s[1..]|
            ensures s[1..][j] != s[0]
          {
            assert s[1..][j] == s[j + 1];
          }
        }
        NoDuplicatesCons(s[0], Remove(s[1..], x));
      }
    }
  }

  /** Removing the id at position `i` takes exactly that one id out. */
  lemma RemoveAtCounts(s: seq<string>, i: nat)
    requires NoDuplicates(s) && i < |s|
    ensures multiset(Remove(s, s[i])) + multiset{s[i]} == multiset(s)
    ensures NoDuplicates(Remove(s, s[i]))
  {
    RemoveAt(s, i);
    RemoveKeepsNoDuplicates(s, s[i]);
    SplitCount(s, i);
  }

  /** One attempt moves one id from pending to attempted. */
  lemma StepConserves(pending: seq<string>, i: nat, visited: seq<string>)
    requires NoDuplicates(pending) && i < |pending|
    ensures multiset(visited + [pending[i]]) + multiset(Remove(pending, pending[i]))
      == multiset(visited) + multiset(pending)
    ensures NoDuplicates(Remove(pending, pending[i]))
  {
    RemoveAtCounts(pending, i);
  }

  lemma SplitCount(s: seq<string>, i: nat)
    requires i < |s|
    ensures multiset(s[..i] + s[i + 1..]) + multiset{s[i]} == multiset(s)
  {
    assert s == s[..i] + [s[i]] + s[i + 1..];
  }

  /** What scraping each id gives: a record, the null record, or an
      exception. */
  type Outcomes = string -> Result<Option<MediaRecord>>

  /** A record scraped for an id carries that id. */
  ghost predicate KeepsIds(outcome: Outcomes) {
    forall id :: outcome(id).Ok? && outcome(id).value.Some? ==> outcome(id).value.value.providerId == id
  }

  /** `Scrape` on each title's detail view. */
  function Scraped(page: string -> DetailPage): Outcomes {
    id => Scrape(id, page(id))
  }

  lemma ScrapedKeepsIds(page: string -> DetailPage)
    ensures KeepsIds(Scraped(page))
  {
    forall id | Scraped(page)(id).Ok? && Scraped(page)(id).value.Some?
      ensures Scraped(page)(id).value.value.providerId == id
    {
      assert Scraped(page)(id) == Scrape(id, page(id));
    }
  }

  /** The loop of `ScrapeAll` from position `i` on. */
  function RunScrape(pending: seq<string>, i: nat, bag: seq<MediaRecord>, success: nat,
                     visited: seq<string>, outcome: Outcomes,
                     cancelled: nat -> bool): Extracted
    requires i < |pending| && KeepsIds(outcome)
    decreases |pending|
  {
    var id := pending[i];
    match outcome(id)
    case Threw(e) => Extracted(ScrapeFaulted(e), bag, success, pending, visited)
    case Ok(None) =>
      // a null record: reading its provider id raises
      Extracted(ScrapeFaulted(NullReferenceException), bag, success, pending, visited)
    case Ok(Some(m)) =>
      var valid := IsMediaValid(Some(m));
      var bag' := if valid then bag + [m] else bag;
      var success' := if valid then success + 1 else success;
      var pending' := Remove(pending, m.providerId);
      var visited' := visited + [id];
      var i' := if i + 1 >= |pending'| then 0 else i + 1;
      if |pending'| == 0 then Extracted(Emptied, bag', success', pending', visited')
      else if cancelled(|visited'|) then Extracted(CancelledScrape, bag', success', pending', visited')
      else RunScrape(pending', i', bag', success', visited', outcome, cancelled)
  }

  /** `ScrapeAll` on the discovered ids: `cancelled(n)` is what the check after
      the `n`-th attempt sees. On an empty set the first `ElementAt` throws. */
  function ScrapeAll(fetched: seq<string>, bag: seq<MediaRecord>, page: string -> DetailPage,
                     cancelled: nat -> bool): Extracted
  {
    if fetched == [] then Extracted(ScrapeFaulted(OtherException("ArgumentOutOfRangeException")), bag, 0, [], [])
    else
      ScrapedKeepsIds(page);
      RunScrape(fetched, 0, bag, 0, [], Scraped(page), cancelled)
  }

  /** The detail view of `id` yields a record. */
  predicate Yields(outcome: Outcomes, id: string) {
    outcome(id).Ok? && outcome(id).value.Some?
  }

  /** The loop reports an emptied set exactly when nothing is left
      pending. */
  lemma {:induction false} RunScrapeEmptied(pending: seq<string>, i: nat, bag: seq<MediaRecord>, success: nat,
                                            visited: seq<string>, outcome: Outcomes,
                                            cancelled: nat -> bool)
    requires i < |pending| && KeepsIds(outcome)
    ensures var r := RunScrape(pending, i, bag, success, visited, outcome, cancelled);
      r.end == Emptied <==> r.pending == []
    decreases |pending|
  {
    var id := pending[i];
    var s := outcome(id);
    if s.Ok? && s.value.Some? {
      var m := s.value.value;
      var valid := IsMediaValid(Some(m));
      var pending' := Remove(pending, id);
      if |pending'| != 0 && !cancelled(|visited| + 1) {
        var i' := if i + 1 >= |pending'| then 0 else i + 1;
        RunScrapeEmptied(pending', i', if valid then bag + [m] else bag, if valid then success + 1 else success,
                         visited + [id], outcome, cancelled);
      }
    }
  }

  /** What the loop keeps, however it ends: every id is either still pending
      or attempted, exactly once. */
  lemma {:induction false} RunScrapeConserves(pending: seq<string>, i: nat, bag: seq<MediaRecord>, success: nat,
                                              visited: seq<string>, outcome: Outcomes,
                                              cancelled: nat -> bool)
    requires i < |pending| && NoDuplicates(pending) && KeepsIds(outcome)
    ensures var r := RunScrape(pending, i, bag, success, visited, outcome, cancelled);
      && multiset(r.visited) + multiset(r.pending) == multiset(visited) + multiset(pending)
      && NoDuplicates(r.pending)
    decreases |pending|
  {
    var id := pending[i];
    var s := outcome(id);
    if s.Ok? && s.value.Some? {
      var m := s.value.value;
      var valid := IsMediaValid(Some(m));
      var pending' := Remove(pending, id);
      StepConserves(pending, i, visited);
      var visited' := visited + [id];
      var bag' := if valid then bag + [m] else bag;
      var success' := if valid then success + 1 else success;
      var i' := if i + 1 >= |pending'| then 0 else i + 1;
      if |pending'| != 0 && !cancelled(|visited'|) {
        var r := RunScrape(pending', i', bag', success', visited', outcome, cancelled);
        assert RunScrape(pending, i, bag, success, visited, outcome, cancelled) == r;
        RunScrapeConserves(pending', i', bag', success', visited', outcome, cancelled);
        calc {
          multiset(r.visited) + multiset(r.pending);
          multiset(visited') + multiset(pending');
          multiset(visited) + multiset(pending);
        }
      }
    }
  }

  /** The bag only grows, by valid records, and `success` counts exactly the
      records added. */
  lemma {:induction false} RunScrapeFillsBag(pending: seq<string>, i: nat, bag: seq<MediaRecord>, success: nat,
                                             visited: seq<string>, outcome: Outcomes,
                                             cancelled: nat -> bool)
    requires i < |pending| && KeepsIds(outcome)
    ensures var r := RunScrape(pending, i, bag, success, visited, outcome, cancelled);
      && bag <= r.bag
      && visited <= r.visited
      && (forall k :: |bag| <= k < |r.bag| ==> IsMediaValid(Some(r.bag[k])))
      && r.success == success + (|r.bag| - |bag|)
    decreases |pending|
  {
    var id := pending[i];
    var s := outcome(id);
    if s.Ok? && s.value.Some? {
      var m := s.value.value;
      var valid := IsMediaValid(Some(m));
      var pending' := Remove(pending, m.providerId);
      if |pending'| != 0 && !cancelled(|visited| + 1) {
        var i' := if i + 1 >= |pending'| then 0 else i + 1;
        var bag' := if valid then bag + [m] else bag;
        var success' := if valid then success + 1 else success;
        var r := RunScrape(pending', i', bag', success', visited + [id], outcome, cancelled);
        assert RunScrape(pending, i, bag, success, visited, outcome, cancelled) == r;
        RunScrapeFillsBag(pending', i', bag', success', visited + [id], outcome, cancelled);
        assert bag <= bag' && (valid ==> bag'[|bag|] == m);
      }
    }
  }

  /** Every record added to the bag is that of a title attempted by this
      loop. */
  lemma {:induction false} RunScrapeBagFromVisited(pending: seq<string>, i: nat, bag: seq<MediaRecord>, success: nat,
                                                   visited: seq<string>, outcome: Outcomes,
                                                   cancelled: nat -> bool)
    requires i < |pending| && KeepsIds(outcome)
    ensures var r := RunScrape(pending, i, bag, success, visited, outcome, cancelled);
      && visited <= r.visited
      && |bag| <= |r.bag|
      && (forall k :: |bag| <= k < |r.bag| ==> r.bag[k].providerId in r.visited[|visited|..])
    decreases |pending|
  {
    RunScrapeFillsBag(pending, i, bag, success, visited, outcome, cancelled);
    var id := pending[i];
    var s := outcome(id);
    if s.Ok? && s.value.Some? {
      var m := s.value.value;
      var valid := IsMediaValid(Some(m));
      var bag' := if valid then bag + [m] else bag;
      var pending' := Remove(pending, id);
      var visited' := visited + [id];
      if |pending'| != 0 && !cancelled(|visited'|) {
        var i' := if i + 1 >= |pending'| then 0 else i + 1;
        var success' := if valid then success + 1 else success;
        RunScrapeBagFromVisited(pending', i', bag', success', visited', outcome, cancelled);
        RunScrapeFillsBag(pending', i', bag', success', visited', outcome, cancelled);
        var r := RunScrape(pending', i', bag', success', visited', outcome, cancelled);
        assert RunScrape(pending, i, bag, success, visited, outcome, cancelled) == r;
        DropStep(visited, id, r.visited);
        forall k | |bag| <= k < |r.bag|
          ensures r.bag[k].providerId in r.visited[|visited|..]
        {
          if k < |bag'| {
            assert r.bag[k] == bag'[k] == m;
          } else {
            assert r.bag[k].providerId in r.visited[|visited'|..];
          }
        }
      }
    }
  }

  /** Run from the start, every record added to the bag belongs to an id
      that was pending. */
  lemma RunScrapeBagFromPending(pending: seq<string>, i: nat, bag: seq<MediaRecord>, success: nat,
                                outcome: Outcomes, cancelled: nat -> bool)
    requires i < |pending| && NoDuplicates(pending) && KeepsIds(outcome)
    ensures var r := RunScrape(pending, i, bag, success, [], outcome, cancelled);
      && |bag| <= |r.bag|
      && (forall k :: |bag| <= k < |r.bag| ==> r.bag[k].providerId in pending)
  {
    RunScrapeBagFromVisited(pending, i, bag, success, [], outcome, cancelled);
    RunScrapeConserves(pending, i, bag, success, [], outcome, cancelled);
    var r := RunScrape(pending, i, bag, success, [], outcome, cancelled);
    assert r.visited[0..] == r.visited;
    assert multiset(r.visited) + multiset(r.pending) == multiset(pending) by {
      var none: seq<string> := [];
      assert multiset(none) == multiset{};
    }
    forall k | |bag| <= k < |r.bag|
      ensures r.bag[k].providerId in pending
    {
      var id := r.bag[k].providerId;
      assert id in multiset(r.visited);
      assert id in multiset(pending);
    }
  }

  /** With no cancellation and every title yielding a record, the loop
      attempts each discovered id exactly once and empties the set. */
  lemma {:induction false} AllYieldEmpties(pending: seq<string>, i: nat, bag: seq<MediaRecord>, success: nat,
                                           visited: seq<string>, outcome: Outcomes,
                                           cancelled: nat -> bool)
    requires i < |pending| && NoDuplicates(pending) && KeepsIds(outcome)
    requires forall n :: !cancelled(n)
    requires forall id :: id in pending ==> Yields(outcome, id)
    ensures var r := RunScrape(pending, i, bag, success, visited, outcome, cancelled);
      && r.end == Emptied
      && r.pending == []
      && multiset(r.visited) == multiset(visited) + multiset(pending)
    decreases |pending|
  {
    RunScrapeConserves(pending, i, bag, success, visited, outcome, cancelled);
    RunScrapeEmptied(pending, i, bag, success, visited, outcome, cancelled);
    var id := pending[i];
    assert Yields(outcome, id);
    var m := outcome(id).value.value;
    var pending' := Remove(pending, m.providerId);
    if |pending'| != 0 {
      RemoveAtCounts(pending, i);
      var i' := if i + 1 >= |pending'| then 0 else i + 1;
      var valid := IsMediaValid(Some(m));
      AllYieldEmpties(pending', i', if valid then bag + [m] else bag, if valid then success + 1 else success,
                      visited + [id], outcome, cancelled);
    }
  }

  /** A title that yields a record is the next one attempted. */
  lemma AttemptedNext(pending: seq<string>, i: nat, bag: seq<MediaRecord>, success: nat,
                      visited: seq<string>, outcome: Outcomes, cancelled: nat -> bool)
    requires i < |pending| && KeepsIds(outcome) && Yields(outcome, pending[i])
    ensures var r := RunScrape(pending, i, bag, success, visited, outcome, cancelled);
      |r.visited| > |visited| && r.visited[|visited|] == pending[i]
  {
    var id := pending[i];
    var m := outcome(id).value.value;
    var pending' := Remove(pending, id);
    if |pending'| != 0 && !cancelled(|visited| + 1) {
      var valid := IsMediaValid(Some(m));
      var i' := if i + 1 >= |pending'| then 0 else i + 1;
      RunScrapeFillsBag(pending', i', if valid then bag + [m] else bag, if valid then success + 1 else success,
                        visited + [id], outcome, cancelled);
    }
  }

  /** The skip: after the first title is removed, the next one attempted is
      the third of the set, not the second. */
  lemma SecondAttemptSkipsOne(pending: seq<string>, bag: seq<MediaRecord>, outcome: Outcomes,
                              cancelled: nat -> bool)
    requires |pending| >= 3 && NoDuplicates(pending) && KeepsIds(outcome)
    requires Yields(outcome, pending[0]) && Yields(outcome, pending[2]) && !cancelled(1)
    ensures var r := RunScrape(pending, 0, bag, 0, [], outcome, cancelled);
      |r.visited| >= 2 && r.visited[0] == pending[0] && r.visited[1] == pending[2]
  {
    var id := pending[0];
    var m := outcome(id).value.value;
    RemoveAt(pending, 0);
    var pending' := Remove(pending, id);
    assert pending'[1] == pending[2] && |pending'| == |pending| - 1;
    assert m.providerId == id;
    assert [] + [id] == [id];
    var valid := IsMediaValid(Some(m));
    var bag' := if valid then bag + [m] else bag;
    var success' := if valid then 1 else 0;
    assert RunScrape(pending, 0, bag, 0, [], outcome, cancelled)
      == RunScrape(pending', 1, bag', success', [id], outcome, cancelled);
    AttemptedNext(pending', 1, bag', success', [id], outcome, cancelled);
    RunScrapeFillsBag(pending', 1, bag', success', [id], outcome, cancelled);
  }

  /** A title whose detail view is missing produces a null record; reading its
      provider id then raises, nothing is removed and the scrape stops. */
  lemma MissingDetailViewFaults(pending: seq<string>, i: nat, bag: seq<MediaRecord>, success: nat,
                                visited: seq<string>, page: string -> DetailPage,
                                cancelled: nat -> bool)
    requires i < |pending| && page(pending[i]) == NoModal
    requires KeepsIds(Scraped(page))
    ensures RunScrape(pending, i, bag, success, visited, Scraped(page), cancelled)
      == Extracted(ScrapeFaulted(NullReferenceException), bag, success, pending, visited)
  {
  }
}
