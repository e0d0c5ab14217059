/** When stopping early loses nothing: the loop of `JobHistory` compared with the plain definition
on the whole history.
*/
module EarlyStopping {
  import opened JobHistory
  import opened Options
  import opened Selections

  /** A history of n pages: every page but the last links to an older one. */
  predicate Ends(feed: nat -> Page, n: nat) {
    n > 0 && !feed(n - 1).hasOlder && forall k: nat :: k + 1 < n ==> feed(k).hasOlder
  }

  /** The loop stops after this many pages. */
  predicate FirstStop(q: Query, feed: nat -> Page, pages: nat) {
    pages > 0 && Stops(q, feed, pages) && forall k :: 0 < k < pages ==> !Stops(q, feed, k)
  }

  /** What the loop returns is what the whole history would give. */
  ghost predicate Refined(q: Query, feed: nat -> Page, n: nat) {
    forall pages: nat ::
      FirstStop(q, feed, pages) ==> Cut(q, Collected(q, feed, pages)) == Cut(q, Collected(q, feed, n))
  }

  /** When the last build of page k-1 started. */
  function PageEnd(feed: nat -> Page, k: nat): Option<int>
    requires k > 0
  {
    var bs := feed(k - 1).builds;
    if bs == [] then None else bs[|bs| - 1].started
  }

  /** Of the builds that appear first after page k, none started later than t. */
  predicate NoneLaterThan(feed: nat -> Page, k: nat, n: nat, t: int) {
    var all := Raw(feed, n);
    forall j: nat :: |Raw(feed, k)| <= j < |all| && Novel(all, j) && all[j].started.Some? ==> all[j].started.value <= t
  }

  predicate OrderlyAt(feed: nat -> Page, k: nat, n: nat)
    requires k > 0
  {
    && (Stale(feed, k) ==> Ids(Raw(feed, n)) == Ids(Raw(feed, k)))
    && (PageEnd(feed, k).Some? ==> NoneLaterThan(feed, k, n, PageEnd(feed, k).value))
  }

  /** After a page without a new ID no new ID comes, and after a page that ends at some time no new
      build of a later time.  Pages may overlap.
   */
  predicate Orderly(feed: nat -> Page, n: nat) {
    forall k :: 0 < k < n ==> OrderlyAt(feed, k, n)
  }

  /** The loop reads no page beyond the first at which it has enough builds, or finds no older link,
      and with fetchAll never more than 500.
   */
  lemma ReadsNoFurther(q: Query, feed: nat -> Page, pages: nat, k: nat)
    requires FirstStop(q, feed, pages) && k > 0
    ensures !q.fetchAll && q.limit.Some? && |Collected(q, feed, k)| >= q.limit.value ==> pages <= k
    ensures !feed(k - 1).hasOlder ==> pages <= k
    ensures q.fetchAll ==> pages <= 500
  {
    hide Collected, Stale, TooOld;
    assert k < pages ==> !Stops(q, feed, k);
    assert 500 < pages ==> !Stops(q, feed, 500);
  }

  // ---------------------------------------------------------------- what more pages add

  /** More pages only add to what was collected. */
  lemma {:induction false} CollectedGrows(q: Query, bs: seq<Build>, more: seq<Build>)
    ensures Matching(q, Dedup(bs)) <= Matching(q, Dedup(bs + more))
    ensures (forall b | b in more :: !Fits(q, b)) ==> Matching(q, Dedup(bs + more)) == Matching(q, Dedup(bs))
  {
    if more == [] {
      assert bs + more == bs;
    } else {
      var init, b := more[..|more| - 1], more[|more| - 1];
      CollectedGrows(q, bs, init);
      assert bs + more == bs + init + [b];
      AppendOne(q, bs + init, b);
    }
  }

  lemma {:induction false} RawPrefix(feed: nat -> Page, k: nat, n: nat) returns (more: seq<Build>)
    requires k <= n
    ensures Raw(feed, n) == Raw(feed, k) + more
  {
    if k == n {
      more := [];
    } else {
      more := RawPrefix(feed, k, n - 1);
      more := more + feed(n - 1).builds;
    }
  }

  /** No entry from this position on is both new and fitting. */
  predicate NothingNew(q: Query, all: seq<Build>, start: nat) {
    forall j: nat :: start <= j < |all| && Novel(all, j) ==> !Fits(q, all[j])
  }

  lemma NothingNewSnoc(q: Query, all: seq<Build>, b: Build, start: nat)
    requires start <= |all|
    ensures NothingNew(q, all + [b], start) <==>
              NothingNew(q, all, start) && !(b.id.Some? && b.id.value !in Ids(all) && Fits(q, b))
  {
    hide Ids, Fits, Novel;
    forall j: nat | j <= |all|
      ensures Novel(all + [b], j) <==> Novel(all, j) || (j == |all| && b.id.Some? && b.id.value !in Ids(all))
    {
      NovelStays(all, b, j);
    }
    NovelBound(all);
    if NothingNew(q, all + [b], start) {
      forall j: nat | start <= j < |all| && Novel(all, j) ensures !Fits(q, all[j]) {
        assert Novel(all + [b], j) && (all + [b])[j] == all[j];
      }
      assert (all + [b])[|all|] == b;
    }
  }

  lemma NovelBound(all: seq<Build>)
    ensures !Novel(all, |all|)
  {}

  /** Reading on adds nothing exactly when nothing new fits. */
  lemma {:induction false} GrowsExactlyWhen(q: Query, bs: seq<Build>, more: seq<Build>)
    ensures Matching(q, Dedup(bs + more)) == Matching(q, Dedup(bs)) <==> NothingNew(q, bs + more, |bs|)
  {
    hide Dedup, Matching, Ids, Fits, NothingNew;
    if more == [] {
      assert bs + more == bs;
      NothingAfterEnd(q, bs);
    } else {
      var init, b := more[..|more| - 1], more[|more| - 1];
      assert bs + more == bs + init + [b];
      GrowsExactlyWhen(q, bs, init);
      CollectedGrows(q, bs, init);
      AppendOne(q, bs + init, b);
      NothingNewSnoc(q, bs + init, b, |bs|);
    }
  }

  lemma NothingAfterEnd(q: Query, bs: seq<Build>)
    ensures NothingNew(q, bs, |bs|)
  {}

  const EVERYTHING := Query("ALL", None, None, None, false)

  /** No new ID comes exactly when nothing new comes. */
  lemma {:induction false} IdsGrowExactlyWhen(bs: seq<Build>, more: seq<Build>)
    ensures Ids(bs + more) == Ids(bs) <==> NothingNew(EVERYTHING, bs + more, |bs|)
    ensures Ids(bs) <= Ids(bs + more)
  {
    hide Ids, NothingNew;
    if more == [] {
      assert bs + more == bs;
      NothingAfterEnd(EVERYTHING, bs);
    } else {
      var init, b := more[..|more| - 1], more[|more| - 1];
      assert bs + more == bs + init + [b];
      IdsGrowExactlyWhen(bs, init);
      AppendOne(EVERYTHING, bs + init, b);
      NothingNewSnoc(EVERYTHING, bs + init, b, |bs|);
    }
  }

  // ---------------------------------------------------------------- orderly histories are enough

  /** A limit that is not negative, or none, and no more pages than the cap. */
  predicate InScope(q: Query, n: nat) {
    (q.fetchAll && n <= MAX_PAGES) || (!q.fetchAll && (q.limit.Some? ==> q.limit.value >= 0))
  }

  /** Early stopping is a refinement: on an orderly history the loop returns what the plain
      definition gives on all of it, whichever condition stopped it.
   */
  lemma EarlyStoppingRefines(q: Query, feed: nat -> Page, n: nat, pages: nat)
    requires Ends(feed, n) && Orderly(feed, n) && InScope(q, n) && FirstStop(q, feed, pages)
    ensures pages <= n
    ensures Cut(q, Collected(q, feed, pages)) == Cut(q, Collected(q, feed, n))
  {
    hide Dedup, Matching, Ids, NothingNew, OrderlyAt;
    assert Stops(q, feed, n);
    var more := RawPrefix(feed, pages, n);
    CollectedGrows(q, Raw(feed, pages), more);
    if LimitReached(q, feed, pages) || pages == n {
    } else {
      assert feed(pages - 1).hasOlder && OrderlyAt(feed, pages, n);
      if Stale(feed, pages) {
        StaleEndsIt(q, feed, pages, n, more);
      } else {
        RestIsTooOld(q, feed, pages, n);
      }
      GrowsExactlyWhen(q, Raw(feed, pages), more);
    }
  }

  lemma StaleEndsIt(q: Query, feed: nat -> Page, k: nat, n: nat, more: seq<Build>)
    requires k > 0 && OrderlyAt(feed, k, n) && Stale(feed, k) && Raw(feed, n) == Raw(feed, k) + more
    ensures NothingNew(q, Raw(feed, n), |Raw(feed, k)|)
  {
    hide Ids, Novel;
    IdsGrowExactlyWhen(Raw(feed, k), more);
  }

  lemma RestIsTooOld(q: Query, feed: nat -> Page, k: nat, n: nat)
    requires k > 0 && OrderlyAt(feed, k, n) && TooOld(q, feed, k)
    ensures NothingNew(q, Raw(feed, n), |Raw(feed, k)|)
  {
    hide Ids, Novel;
  }

  // ---------------------------------------------------------------- and needed

  /** The loop does stop, at the first page at which a stop condition holds. */
  lemma {:induction false} FirstStopExists(q: Query, feed: nat -> Page, k: nat) returns (pages: nat)
    requires k > 0 && Stops(q, feed, k)
    ensures pages <= k && FirstStop(q, feed, pages)
  {
    hide Stops;
    if j: nat :| 0 < j < k && Stops(q, feed, j) {
      pages := FirstStopExists(q, feed, j);
    } else {
      pages := k;
    }
  }

  /** A stop condition that holds although something new and fitting follows loses it. */
  lemma StopLoses(q: Query, feed: nat -> Page, k: nat, n: nat)
    requires 0 < k < n && Stops(q, feed, k) && !NothingNew(q, Raw(feed, n), |Raw(feed, k)|) && q.limit.None?
    ensures !Refined(q, feed, n)
  {
    hide Stops, Dedup, Matching, Novel, Fits;
    var pages := FirstStopExists(q, feed, k);
    var more := RawPrefix(feed, pages, n);
    var between := RawPrefix(feed, pages, k);
    GrowsExactlyWhen(q, Raw(feed, pages), more);
    assert Cut(q, Collected(q, feed, pages)) != Cut(q, Collected(q, feed, n));
  }

  lemma DisorderLoses(feed: nat -> Page, k: nat, n: nat) returns (q: Query)
    requires 0 < k < n && !OrderlyAt(feed, k, n)
    ensures InScope(q, n) && !Refined(q, feed, n)
  {
    hide Dedup, Matching, Ids, Refined, Raw;
    if Stale(feed, k) && Ids(Raw(feed, n)) != Ids(Raw(feed, k)) {
      q := EVERYTHING;
      var more := RawPrefix(feed, k, n);
      IdsGrowExactlyWhen(Raw(feed, k), more);
      StopLoses(q, feed, k, n);
    } else {
      var t := PageEnd(feed, k).value;
      q := Query("ALL", Some(t + 1), None, None, false);
      TooEarlyWindow(feed, k, n, t);
      StopLoses(q, feed, k, n);
    }
  }

  lemma TooEarlyWindow(feed: nat -> Page, k: nat, n: nat, t: int)
    requires !NoneLaterThan(feed, k, n, t)
    ensures !NothingNew(Query("ALL", Some(t + 1), None, None, false), Raw(feed, n), |Raw(feed, k)|)
  {
    hide Novel;
    var all := Raw(feed, n);
    var j: nat :| |Raw(feed, k)| <= j < |all| && Novel(all, j) && all[j].started.Some? && all[j].started.value > t;
    assert Fits(Query("ALL", Some(t + 1), None, None, false), all[j]);
  }

  /** A history is fetched faithfully, for every query in scope, exactly when it is orderly. */
  lemma EarlyStoppingRefinesExactlyWhen(feed: nat -> Page, n: nat)
    requires Ends(feed, n)
    ensures (forall q :: InScope(q, n) ==> Refined(q, feed, n)) <==> Orderly(feed, n)
  {
    hide Stops, Cut, Collected, OrderlyAt;
    if Orderly(feed, n) {
      forall q | InScope(q, n) ensures Refined(q, feed, n) {
        forall pages: nat | FirstStop(q, feed, pages)
          ensures Cut(q, Collected(q, feed, pages)) == Cut(q, Collected(q, feed, n))
        {
          EarlyStoppingRefines(q, feed, n, pages);
        }
      }
    } else {
      var k :| 0 < k < n && !OrderlyAt(feed, k, n);
      var q := DisorderLoses(feed, k, n);
    }
  }

  // ---------------------------------------------------------------- newest-first histories are orderly

  predicate NewestFirst(bs: seq<Build>) {
    forall i, j :: 0 <= i < j < |bs| && bs[i].started.Some? && bs[j].started.Some? ==>
      bs[j].started.value <= bs[i].started.value
  }

  /** Repeats agree on the start time. */
  predicate Consistent(bs: seq<Build>) {
    forall b, c | b in bs && c in bs && b.id == c.id && b.id.Some? :: b.started == c.started
  }

  /** No page ends with an entry that has a start time but no ID. */
  predicate EndsWithId(feed: nat -> Page, n: nat) {
    forall k: nat | k < n && feed(k).builds != [] ::
      var last := feed(k).builds[|feed(k).builds| - 1];
      last.started.Some? ==> last.id.Some?
  }

  lemma {:induction false} FirstWithId(bs: seq<Build>, i: nat) returns (f: nat)
    requires i < |bs| && bs[i].id.Some?
    ensures f <= i && Novel(bs, f) && bs[f].id == bs[i].id
  {
    if Novel(bs, i) {
      f := i;
    } else {
      var b :| b in bs[..i] && b.id.Some? && b.id.value == bs[i].id.value;
      var j :| 0 <= j < i && bs[j] == b;
      f := FirstWithId(bs, j);
    }
  }

  /** A history whose entries are newest first as they come, and whose pages each bring something
      new, is orderly; whatever their IDs.
   */
  lemma NewestFirstAsListedIsOrderly(feed: nat -> Page, n: nat)
    requires (forall k :: 0 < k < n ==> !Stale(feed, k)) && NewestFirst(Raw(feed, n))
    ensures Orderly(feed, n)
  {
    hide Stale, Ids, Novel;
    forall k | 0 < k < n && PageEnd(feed, k).Some? ensures NoneLaterThan(feed, k, n, PageEnd(feed, k).value) {
      var all, upTo, page := Raw(feed, n), Raw(feed, k), feed(k - 1).builds;
      var more := RawPrefix(feed, k, n);
      assert all[|upTo| - 1] == upTo[|upTo| - 1] == page[|page| - 1];
    }
  }

  /** A history whose de-duplicated builds are newest first, and whose pages each bring something
      new, is orderly, however much its pages overlap.  Entries without an ID, which the fetch
      skips, may be anywhere but at the end of a page.
   */
  lemma NewestFirstIsOrderly(feed: nat -> Page, n: nat)
    requires (forall k :: 0 < k < n ==> !Stale(feed, k)) && EndsWithId(feed, n)
    requires Consistent(Raw(feed, n)) && NewestFirst(Dedup(Raw(feed, n)))
    ensures Orderly(feed, n)
  {
    hide Stale, Ids, Raw, Dedup, NewestFirst, Consistent, EndsWithId;
    forall k | 0 < k < n ensures OrderlyAt(feed, k, n) {
      if PageEnd(feed, k).Some? {
        NewestFirstAt(feed, k, n);
      }
    }
  }

  lemma NewestFirstAt(feed: nat -> Page, k: nat, n: nat)
    requires 0 < k < n && PageEnd(feed, k).Some? && EndsWithId(feed, n)
    requires Consistent(Raw(feed, n)) && NewestFirst(Dedup(Raw(feed, n)))
    ensures NoneLaterThan(feed, k, n, PageEnd(feed, k).value)
  {
    hide Novel, Ids, Dedup;
    var all, upTo := Raw(feed, n), Raw(feed, k);
    var more := RawPrefix(feed, k, n);
    var page := feed(k - 1).builds;
    var last := |upTo| - 1;
    assert upTo[last] == page[|page| - 1] && all[last] == upTo[last];
    assert all[last] in all;
    var f := FirstWithId(all, last);
    assert all[f] in all && all[f].started == PageEnd(feed, k);
    forall j: nat | |upTo| <= j < |all| && Novel(all, j) && all[j].started.Some?
      ensures all[j].started.value <= PageEnd(feed, k).value
    {
      DedupOrdered(all, f, j);
    }
  }

  lemma DedupOrdered(all: seq<Build>, f: nat, j: nat)
    requires f < j < |all| && Novel(all, f) && Novel(all, j) && NewestFirst(Dedup(all))
    requires all[f].started.Some? && all[j].started.Some?
    ensures all[j].started.value <= all[f].started.value
  {
    hide Dedup, Novel;
    var d := Dedup(all);
    var at := DedupSelects(all);
    assert f in at && j in at;
    var a :| 0 <= a < |at| && at[a] == f;
    var b :| 0 <= b < |at| && at[b] == j;
    assert d[a] == all[f] && d[b] == all[j] && a < b;
  }

  // ---------------------------------------------------------------- limits

  function Name(i: nat): (r: string)
    ensures |r| == i
  {
    seq(i, _ => 'x')
  }

  /** Builds with different IDs and no start time. */
  function Distinct(m: nat): seq<Build> {
    seq(m, i requires 0 <= i < m => Build(Some(Name(i)), "", None))
  }

  lemma {:induction false} DistinctKept(q: Query, m: nat)
    requires q.result == "ALL" && q.since.None? && q.until.None?
    ensures Matching(q, Dedup(Distinct(m))) == Distinct(m)
    ensures forall x | x in Ids(Distinct(m)) :: |x| < m
  {
    hide Dedup, Matching, Ids;
    if m == 0 {
      NothingYet(q);
      assert Distinct(0) == [];
    } else {
      DistinctKept(q, m - 1);
      var b := Distinct(m)[m - 1];
      assert Distinct(m) == Distinct(m - 1) + [b];
      AppendOne(q, Distinct(m - 1), b);
    }
  }

  /** Two pages: one build, and as many more as a limit of -m drops. */
  function TwoPages(m: nat): nat -> Page {
    (k: nat) => if k == 0 then Page(Distinct(m + 1)[..1], true) else Page(Distinct(m + 1)[1..], false)
  }

  lemma TwoPagesRaw(m: nat)
    ensures Raw(TwoPages(m), 1) == Distinct(1) && Raw(TwoPages(m), 2) == Distinct(m + 1)
    ensures Ends(TwoPages(m), 2) && Orderly(TwoPages(m), 2)
  {
    var feed, all := TwoPages(m), Distinct(m + 1);
    RawGrows(feed, 0);
    RawGrows(feed, 1);
    assert all[..1] == Distinct(1) && all[..1] + all[1..] == all;
    assert all[0] in all[..1] && all[0].id.value in Ids(all[..1]);
  }

  lemma NegativeLimitLoses(limit: int)
    requires limit < 0
    ensures !Refined(Query("ALL", None, None, Some(limit), false), TwoPages(-limit), 2)
  {
    hide Dedup, Matching, Ids, Raw, Distinct;
    var q, feed := Query("ALL", None, None, Some(limit), false), TwoPages(-limit);
    TwoPagesRaw(-limit);
    DistinctKept(q, 1);
    DistinctKept(q, 1 - limit);
    DistinctSizes(1 - limit);
    assert FirstStop(q, feed, 1);
  }

  lemma DistinctSizes(m: nat)
    ensures |Distinct(1)| == 1 && |Distinct(m)| == m
  {}

  /** Which limits are safe: a setting refines every orderly history exactly when it fetches all,
      or has no limit, or one that is not negative.
   */
  lemma LimitRefinesExactlyWhen(limit: Option<int>, fetchAll: bool)
    ensures (forall q: Query, feed: nat -> Page, n: nat ::
               q.limit == limit && q.fetchAll == fetchAll && (fetchAll ==> n <= MAX_PAGES) && Ends(feed, n)
                   && Orderly(feed, n)
               ==> Refined(q, feed, n)) <==> fetchAll || limit.None? || limit.value >= 0
  {
    hide Refined, Orderly, Ends;
    if fetchAll || limit.None? || limit.value >= 0 {
      forall q: Query, feed: nat -> Page, n: nat |
        q.limit == limit && q.fetchAll == fetchAll && (fetchAll ==> n <= MAX_PAGES) && Ends(feed, n) && Orderly(feed, n)
        ensures Refined(q, feed, n)
      {
        EarlyStoppingRefinesExactlyWhen(feed, n);
      }
    } else {
      TwoPagesRaw(-limit.value);
      NegativeLimitLoses(limit.value);
    }
  }

  // ---------------------------------------------------------------- instances

  /** A page of repeats ends the fetch although an older page has a match. */
  lemma RepeatedPageHidesOlderBuilds(b1: Build, b2: Build)
    requires b1.id == Some("2") && b2.id == Some("1")
    ensures var q := Query("ALL", None, None, None, false);
            var feed := (k: nat) => if k < 2 then Page([b1], true) else Page([b2], false);
            !Stops(q, feed, 1) && Stops(q, feed, 2) && b2 !in Collected(q, feed, 2) && b2 in Collected(q, feed, 3)
  {
    hide Dedup, Matching, Ids;
    var q := Query("ALL", None, None, None, false);
    var feed := (k: nat) => if k < 2 then Page([b1], true) else Page([b2], false);
    assert Raw(feed, 1) == [] + [b1] == [b1] && Raw(feed, 2) == Raw(feed, 1) + [b1] == [b1, b1];
    assert Raw(feed, 3) == Raw(feed, 2) + [b2];
    NothingYet(q);
    AppendOne(q, [], b1);
    AppendOne(q, [b1], b1);
    AppendOne(q, [b1, b1], b2);
    assert [] + [b1] == [b1] && [b1] + [b1] == [b1, b1];
  }

  /** With start times out of order a page that ends before the window hides a later one inside it. */
  lemma UnorderedTimesHideBuilds(b1: Build, b2: Build)
    requires b1.id == Some("2") && b1.started == Some(1) && b2.id == Some("1") && b2.started == Some(3)
    ensures var q := Query("ALL", Some(2), None, None, false);
            var feed := (k: nat) => if k == 0 then Page([b1], true) else Page([b2], false);
            Stops(q, feed, 1) && b2 !in Collected(q, feed, 1) && b2 in Collected(q, feed, 2)
  {
    hide Dedup, Matching, Ids;
    var q := Query("ALL", Some(2), None, None, false);
    var feed := (k: nat) => if k == 0 then Page([b1], true) else Page([b2], false);
    assert Raw(feed, 1) == [] + [b1] == [b1] && Raw(feed, 2) == Raw(feed, 1) + [b2] == [b1, b2];
    NothingYet(q);
    AppendOne(q, [], b1);
    AppendOne(q, [b1], b2);
    assert [] + [b1] == [b1] && [b1] + [b2] == [b1, b2];
  }
}
