/** Paginated fetch of a job's build history, newest first, with a result filter, a time
window, a limit, early stopping and de-duplication.

The server is `feed`: the page that the k-th request gets, whatever link it followed and
whatever the server chose to answer, so cyclic or repeating "Older Runs" links are covered.
The loop is proved to give the plain definition on the pages it read: drop repeated builds,
keep those that match, cut at the limit.  `EarlyStopping` compares it with the whole history.
*/
module JobHistory {
  import opened Options
  import opened Selections

  /** One entry of the page; `result` in upper case, `started` absent when missing or unparsable. */
  datatype Build = Build(id: Option<string>, result: string, started: Option<int>)

  datatype Page = Page(builds: seq<Build>, hasOlder: bool)

  datatype Query = Query(result: string, since: Option<int>, until: Option<int>, limit: Option<int>, fetchAll: bool)

  const MAX_PAGES := 500

  /** _matches_filters */
  predicate Fits(q: Query, b: Build) {
    && (q.result == "ALL" || b.result == q.result)
    && (q.since.Some? ==> b.started.Some? && b.started.value >= q.since.value)
    && (q.until.Some? ==> b.started.Some? && b.started.value <= q.until.value)
  }

  // ---------------------------------------------------------------- the plain definition

  /** All entries of the first k pages. */
  function Raw(feed: nat -> Page, k: nat): seq<Build> {
    if k == 0 then [] else Raw(feed, k - 1) + feed(k - 1).builds
  }

  /** Drop entries without an ID and all but the first with each ID. */
  function Dedup(bs: seq<Build>): seq<Build> {
    if bs == [] then []
    else
      var rest, b := Dedup(bs[..|bs| - 1]), bs[|bs| - 1];
      if b.id.Some? && b.id.value !in Ids(bs[..|bs| - 1]) then rest + [b] else rest
  }

  function Ids(bs: seq<Build>): set<string> {
    set b | b in bs && b.id.Some? :: b.id.value
  }

  function Matching(q: Query, bs: seq<Build>): seq<Build> {
    if bs == [] then []
    else
      var rest, b := Matching(q, bs[..|bs| - 1]), bs[|bs| - 1];
      if Fits(q, b) then rest + [b] else rest
  }

  /** What is collected after k pages. */
  function Collected(q: Query, feed: nat -> Page, k: nat): seq<Build> {
    Matching(q, Dedup(Raw(feed, k)))
  }

  /** Python's s[:n], which for a negative n drops from the end. */
  function Slice<T>(s: seq<T>, n: int): seq<T> {
    if n >= 0 then (if n <= |s| then s[..n] else s)
    else if |s| + n >= 0 then s[..|s| + n] else []
  }

  function Cut(q: Query, bs: seq<Build>): seq<Build> {
    if !q.fetchAll && q.limit.Some? then Slice(bs, q.limit.value) else bs
  }

  // ---------------------------------------------------------------- when the loop stops

  predicate LimitReached(q: Query, feed: nat -> Page, k: nat) {
    !q.fetchAll && q.limit.Some? && |Collected(q, feed, k)| >= q.limit.value
  }

  /** Page k-1 brought no new ID. */
  predicate Stale(feed: nat -> Page, k: nat)
    requires k > 0
  {
    Ids(feed(k - 1).builds) <= Ids(Raw(feed, k - 1))
  }

  /** The last build of page k-1 is older than the window. */
  predicate TooOld(q: Query, feed: nat -> Page, k: nat)
    requires k > 0
  {
    var bs := feed(k - 1).builds;
    q.since.Some? && bs != [] && bs[|bs| - 1].started.Some? && bs[|bs| - 1].started.value < q.since.value
  }

  predicate Stops(q: Query, feed: nat -> Page, k: nat)
    requires k > 0
  {
    || LimitReached(q, feed, k)
    || Stale(feed, k)
    || TooOld(q, feed, k)
    || (q.fetchAll && k >= MAX_PAGES)
    || !feed(k - 1).hasOlder
  }

  // ---------------------------------------------------------------- the loop

  /** The inner loop over one page. */
  method ReadPage(q: Query, builds: seq<Build>, collected0: seq<Build>, seen0: set<string>, ghost past: seq<Build>)
    returns (collected: seq<Build>, seen: set<string>, newRaw: nat)
    requires collected0 == Matching(q, Dedup(past)) && seen0 == Ids(past)
    ensures collected == Matching(q, Dedup(past + builds)) && seen == Ids(past + builds)
    ensures newRaw == 0 <==> seen == seen0
  {
    hide Dedup, Matching, Ids;
    collected, seen, newRaw := collected0, seen0, 0;
    assert past + builds[..0] == past;
    for i := 0 to |builds|
      invariant collected == Matching(q, Dedup(past + builds[..i])) && seen == Ids(past + builds[..i])
      invariant seen0 <= seen && (newRaw == 0 <==> seen == seen0)
    {
      var b := builds[i];
      AppendOne(q, past + builds[..i], b);
      assert past + builds[..i + 1] == past + builds[..i] + [b];
      if b.id.Some? && b.id.value !in seen {
        seen := seen + {b.id.value};
        newRaw := newRaw + 1;
        if Fits(q, b) {
          collected := collected + [b];
        }
      }
    }
    assert builds[..|builds|] == builds;
  }

  lemma NothingYet(q: Query)
    ensures Matching(q, Dedup([])) == [] && Ids([]) == {}
  {}

  lemma AppendOne(q: Query, bs: seq<Build>, b: Build)
    ensures var novel := b.id.Some? && b.id.value !in Ids(bs);
            && Dedup(bs + [b]) == Dedup(bs) + (if novel then [b] else [])
            && Matching(q, Dedup(bs + [b])) == Matching(q, Dedup(bs)) + (if novel && Fits(q, b) then [b] else [])
            && Ids(bs + [b]) == Ids(bs) + (if b.id.Some? then {b.id.value} else {})
  {
    assert (bs + [b])[..|bs|] == bs;
    var d := Dedup(bs);
    assert (d + [b])[..|d|] == d;
  }

  /** fetch_filtered_builds, for any server at which some stop condition comes to hold; any other
      one would keep the loop running.  `SomethingStops` says which servers these are.
   */
  method FetchFilteredBuilds(q: Query, feed: nat -> Page, ghost bound: nat) returns (result: seq<Build>, pages: nat)
    requires bound > 0 && Stops(q, feed, bound)
    ensures 0 < pages <= bound
    ensures Stops(q, feed, pages) && (forall k :: 0 < k < pages ==> !Stops(q, feed, k))
    ensures result == Cut(q, Collected(q, feed, pages))
  {
    hide Dedup, Matching, Ids, Slice, Stops, Raw;
    NothingYet(q);
    RawGrows(feed, 0);
    var collected: seq<Build> := [];
    var seen: set<string> := {};
    var more, k := true, 0;
    pages := 0;
    while more
      invariant collected == Collected(q, feed, k) && seen == Ids(Raw(feed, k)) && k <= bound
      invariant forall j :: 0 < j < k ==> !Stops(q, feed, j)
      invariant more ==> k < bound && (k == 0 || !Stops(q, feed, k))
      invariant !more ==> k > 0 && Stops(q, feed, k)
      decreases bound - k
    {
      var page := feed(k);
      ghost var before := seen;
      var newRaw;
      collected, seen, newRaw := ReadPage(q, page.builds, collected, seen, Raw(feed, k));
      RawGrows(feed, k);
      k := k + 1;
      StopTest(q, feed, k, before, seen);
      if !q.fetchAll && q.limit.Some? && |collected| >= q.limit.value {
        break;
      }
      if newRaw == 0 {
        break;
      }
      if q.since.Some? && page.builds != [] {
        var oldest := page.builds[|page.builds| - 1].started;
        if oldest.Some? && oldest.value < q.since.value {
          break;
        }
      }
      if q.fetchAll && k >= MAX_PAGES {
        break;
      }
      more := page.hasOlder;
    }
    pages := k;
    result := collected;
    if !q.fetchAll && q.limit.Some? {
      result := Slice(collected, q.limit.value);
    }
  }

  lemma RawGrows(feed: nat -> Page, k: nat)
    ensures Raw(feed, 0) == [] && Raw(feed, k + 1) == Raw(feed, k) + feed(k).builds
  {}

  /** The stop condition in terms of what the loop has at hand. */
  lemma StopTest(q: Query, feed: nat -> Page, k: nat, seen0: set<string>, seen: set<string>)
    requires k > 0 && seen0 == Ids(Raw(feed, k - 1)) && seen == Ids(Raw(feed, k))
    ensures seen == seen0 + Ids(feed(k - 1).builds)
    ensures Stops(q, feed, k) <==>
              || LimitReached(q, feed, k)
              || seen == seen0
              || TooOld(q, feed, k)
              || (q.fetchAll && k >= MAX_PAGES)
              || !feed(k - 1).hasOlder
  {
    UnionIds(Raw(feed, k - 1), feed(k - 1).builds);
  }

  lemma UnionIds(a: seq<Build>, b: seq<Build>)
    ensures Ids(a + b) == Ids(a) + Ids(b)
  {}

  lemma SmallerSet(a: set<string>, b: set<string>)
    requires a < b
    ensures |a| < |b|
  {
    var x :| x in b && x !in a;
    assert a <= b - {x};
    SubsetSize(a, b - {x});
  }

  lemma {:induction false} SubsetSize(a: set<string>, b: set<string>)
    requires a <= b
    ensures |a| <= |b|
  {
    if a != {} {
      var x :| x in a;
      SubsetSize(a - {x}, b - {x});
    }
  }

  /** Every page that is not stale uses up an ID. */
  lemma {:induction false} EveryRoundUsesAnId(feed: nat -> Page, k: nat)
    requires forall j :: 0 < j <= k ==> !Stale(feed, j)
    ensures |Ids(Raw(feed, k))| >= k
  {
    if k > 0 {
      EveryRoundUsesAnId(feed, k - 1);
      var before, page := Raw(feed, k - 1), feed(k - 1).builds;
      UnionIds(before, page);
      assert !Stale(feed, k);
      SmallerSet(Ids(before), Ids(before + page));
    }
  }

  lemma {:induction false} IdsWithin(feed: nat -> Page, universe: set<string>, k: nat)
    requires forall j: nat :: Ids(feed(j).builds) <= universe
    ensures Ids(Raw(feed, k)) <= universe
  {
    if k > 0 {
      IdsWithin(feed, universe, k - 1);
      UnionIds(Raw(feed, k - 1), feed(k - 1).builds);
    }
  }

  /** The loop stops at every server with fetchAll, by the page cap; and without it, cap or not, at
      every server whose IDs come from a finite set, cyclic "Older Runs" links included, after at
      most one page more than there are IDs.
   */
  lemma SomethingStops(q: Query, feed: nat -> Page, universe: set<string>) returns (bound: nat)
    requires q.fetchAll || forall j: nat :: Ids(feed(j).builds) <= universe
    ensures bound > 0 && Stops(q, feed, bound)
    ensures bound <= if q.fetchAll then MAX_PAGES else |universe| + 1
  {
    hide Raw, Ids, Stale;
    if q.fetchAll {
      bound := MAX_PAGES;
    } else {
      var k := |universe| + 1;
      if forall j :: 0 < j <= k ==> !Stale(feed, j) {
        EveryRoundUsesAnId(feed, k);
        IdsWithin(feed, universe, k);
        SubsetSize(Ids(Raw(feed, k)), universe);
        assert false;
      }
      bound :| 0 < bound <= k && Stale(feed, bound);
    }
  }

  // ---------------------------------------------------------------- what every result satisfies

  /** The positions hold exactly the entries whose ID has not occurred before. */
  ghost predicate NovelAt(bs: seq<Build>, at: seq<nat>) {
    forall k: nat :: k in at <==> Novel(bs, k)
  }

  predicate Novel(bs: seq<Build>, k: nat) {
    k < |bs| && bs[k].id.Some? && bs[k].id.value !in Ids(bs[..k])
  }

  /** De-duplication keeps, in order, exactly the first entry of each ID. */
  lemma {:induction false} DedupSelects(bs: seq<Build>) returns (at: seq<nat>)
    ensures Picks(bs, at, Dedup(bs)) && NovelAt(bs, at)
  {
    hide Picks, Ids, NovelAt, Novel;
    if bs == [] {
      at := [];
      NothingPicked();
    } else {
      var init, last := bs[..|bs| - 1], bs[|bs| - 1];
      assert bs == init + [last];
      var at0 := DedupSelects(init);
      var keep := last.id.Some? && last.id.value !in Ids(init);
      at := if keep then at0 + [|init|] else at0;
      Snoc(init, at0, Dedup(init), last, keep);
      NovelSnoc(init, last, at0);
    }
  }

  lemma NothingPicked()
    ensures Picks([], [], Dedup([])) && NovelAt([], [])
  {}

  lemma NovelSnoc(bs: seq<Build>, b: Build, at: seq<nat>)
    requires NovelAt(bs, at)
    ensures NovelAt(bs + [b], if b.id.Some? && b.id.value !in Ids(bs) then at + [|bs|] else at)
  {
    hide Ids, Novel;
    forall k: nat ensures Novel(bs + [b], k) <==> Novel(bs, k) || (k == |bs| && b.id.Some? && b.id.value !in Ids(bs)) {
      NovelStays(bs, b, k);
    }
  }

  /** Whether an entry is the first with its ID does not depend on what follows. */
  lemma NovelStays(bs: seq<Build>, b: Build, k: nat)
    ensures Novel(bs + [b], k) <==> Novel(bs, k) || (k == |bs| && b.id.Some? && b.id.value !in Ids(bs))
  {
    hide Ids;
    if k <= |bs| {
      assert (bs + [b])[..k] == bs[..k];
    }
    assert bs[..|bs|] == bs;
  }

  /** The positions hold exactly the entries that fit. */
  ghost predicate FitsAt(q: Query, bs: seq<Build>, at: seq<nat>) {
    forall k: nat :: k in at <==> k < |bs| && Fits(q, bs[k])
  }

  /** Filtering keeps, in order, exactly the entries that fit. */
  lemma {:induction false} MatchingSelects(q: Query, bs: seq<Build>) returns (at: seq<nat>)
    ensures Picks(bs, at, Matching(q, bs)) && FitsAt(q, bs, at)
  {
    hide Picks, Fits, FitsAt;
    if bs == [] {
      at := [];
      NothingFits(q);
    } else {
      var init, last := bs[..|bs| - 1], bs[|bs| - 1];
      assert bs == init + [last];
      var at0 := MatchingSelects(q, init);
      at := if Fits(q, last) then at0 + [|init|] else at0;
      Snoc(init, at0, Matching(q, init), last, Fits(q, last));
      FitsSnoc(q, init, last, at0);
    }
  }

  lemma NothingFits(q: Query)
    ensures Picks([], [], Matching(q, [])) && FitsAt(q, [], [])
  {}

  lemma FitsSnoc(q: Query, bs: seq<Build>, b: Build, at: seq<nat>)
    requires FitsAt(q, bs, at)
    ensures FitsAt(q, bs + [b], if Fits(q, b) then at + [|bs|] else at)
  {
    hide Fits;
  }

  lemma DedupDistinct(bs: seq<Build>)
    ensures forall b | b in Dedup(bs) :: b.id.Some?
    ensures forall i, j :: 0 <= i < j < |Dedup(bs)| ==> Dedup(bs)[i].id != Dedup(bs)[j].id
  {
    hide Dedup, Ids;
    var d := Dedup(bs);
    var at := DedupSelects(bs);
    forall i | 0 <= i < |d| ensures d[i].id.Some? && d[i].id.value !in Ids(bs[..at[i]]) {
      assert at[i] in at && Novel(bs, at[i]);
    }
    forall i, j | 0 <= i < j < |d| ensures d[i].id != d[j].id {
      assert bs[..at[j]][at[i]] == d[i];
      IdOf(bs[..at[j]], d[i]);
    }
  }

  lemma IdOf(bs: seq<Build>, b: Build)
    requires b in bs && b.id.Some?
    ensures b.id.value in Ids(bs)
  {}

  /** What a query asks of a build: its result unless that is "ALL", and a start time inside the window. */
  predicate Asked(q: Query, b: Build) {
    && (q.result != "ALL" ==> b.result == q.result)
    && (q.since.Some? ==> b.started.Some? && q.since.value <= b.started.value)
    && (q.until.Some? ==> b.started.Some? && b.started.value <= q.until.value)
  }

  /** Entry j of the pages is the first with its ID and is asked for. */
  predicate Wanted(q: Query, raw: seq<Build>, j: nat) {
    Novel(raw, j) && Asked(q, raw[j])
  }

  lemma CollectedIsWanted(q: Query, raw: seq<Build>, b: Build) returns (j: nat)
    requires b in Matching(q, Dedup(raw))
    ensures Wanted(q, raw, j) && raw[j] == b
  {
    hide Dedup, Matching, Ids;
    var d := Dedup(raw);
    var first := DedupSelects(raw);
    var fit := MatchingSelects(q, d);
    var i :| 0 <= i < |Matching(q, d)| && Matching(q, d)[i] == b;
    assert fit[i] in fit && d[fit[i]] == b && Fits(q, b);
    j := first[fit[i]];
    assert j in first && raw[j] == b;
  }

  lemma WantedIsCollected(q: Query, raw: seq<Build>, j: nat)
    requires Wanted(q, raw, j)
    ensures raw[j] in Matching(q, Dedup(raw))
  {
    hide Dedup, Matching, Ids;
    var d := Dedup(raw);
    var first := DedupSelects(raw);
    var fit := MatchingSelects(q, d);
    assert j in first;
    var k :| 0 <= k < |first| && first[k] == j;
    assert d[k] == raw[j] && Fits(q, d[k]) && k in fit;
    var i :| 0 <= i < |fit| && fit[i] == k;
    assert Matching(q, d)[i] == raw[j];
  }

  /** What is collected from the pages are exactly the entries that appear there first with their ID
      and are asked for.
   */
  lemma CollectedExactly(q: Query, feed: nat -> Page, pages: nat, b: Build)
    ensures b in Collected(q, feed, pages) <==>
            exists j: nat :: Wanted(q, Raw(feed, pages), j) && Raw(feed, pages)[j] == b
  {
    hide Dedup, Matching;
    var raw := Raw(feed, pages);
    if b in Collected(q, feed, pages) {
      var j := CollectedIsWanted(q, raw, b);
      assert Wanted(q, Raw(feed, pages), j) && Raw(feed, pages)[j] == b;
    } else {
      forall j: nat | Wanted(q, raw, j) ensures raw[j] != b {
        WantedIsCollected(q, raw, j);
      }
    }
  }

  /** The result is what was collected, cut to the first `limit` builds if there is a limit that counts. */
  lemma CutIsPrefix(q: Query, bs: seq<Build>)
    ensures q.fetchAll || q.limit.None? ==> Cut(q, bs) == bs
    ensures !q.fetchAll && q.limit.Some? && q.limit.value >= 0 ==>
              Cut(q, bs) <= bs && |Cut(q, bs)| == if |bs| < q.limit.value then |bs| else q.limit.value
  {}

  /** For any server: results match the filter, have distinct IDs, and with a limit that is not
      negative number at most the limit.
   */
  lemma ResultsAreSound(q: Query, feed: nat -> Page, pages: nat)
    ensures var r := Cut(q, Collected(q, feed, pages));
            && (forall b | b in r :: Asked(q, b) && b.id.Some?)
            && (forall i, j :: 0 <= i < j < |r| ==> r[i].id != r[j].id)
            && (!q.fetchAll && q.limit.Some? && q.limit.value >= 0 ==> |r| <= q.limit.value)
  {
    var d := Dedup(Raw(feed, pages));
    DedupDistinct(Raw(feed, pages));
    var at := MatchingSelects(q, d);
    var r := Cut(q, Collected(q, feed, pages));
    forall i, j | 0 <= i < j < |r| ensures r[i].id != r[j].id {
      assert r[i] == d[at[i]] && r[j] == d[at[j]];
    }
    forall b | b in r ensures Asked(q, b) && b.id.Some? {
      var i :| 0 <= i < |r| && r[i] == b;
      assert r[i] == d[at[i]] && d[at[i]] in d && at[i] in at;
    }
  }
}
