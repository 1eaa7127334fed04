/** Fetching a library listing page by page (src/core/kodi_client.cpp: CallLibrary).

    `calls` is how Kodi answers request after request; the playback commands sent before each request
    and a stop both show as a Dead or StopRequested answer. */
module KodiLibraries {
  import opened Wrappers
  import opened KodiJson
  import opened KodiCalls

  const PAGE_SIZE := 500
  const MAX_ITEMS := 10000
  const MAX_REQUESTS := MAX_ITEMS / PAGE_SIZE

  datatype Request = Page(start: nat) | Unpaged

  /** What a listing comes to: a dead link, a merged list, the error text that stands for a timeout
      (always flagged truncated), or a reply passed on as it came. */
  datatype Listing = Fatal | Merged(items: seq<Json>, truncated: bool) | TimedOutText | AsIs(reply: Json)

  /** The number of items a reply says there are, negative for none given. */
  function TotalOf(reply: Json): (total: int)
    ensures total == Or(IntOf(In(In(Field(reply, "result"), "limits"), "total")), -1)
  {
    match Field(reply, "result")
    case None => -1
    case Some(result) =>
      match Field(result, "limits")
      case None => -1
      case Some(limits) => GetInt(limits, "total", -1)
  }

  predicate IsError(reply: Json) {
    Field(reply, "error").Some?
  }

  function Min(a: nat, b: nat): nat {
    if a < b then a else b
  }

  /** A timeout on an open link becomes the error text; anything else short of a reply is fatal. */
  function SurviveTimeout(c: CallResult): Listing {
    match c
    case Reply(reply) => AsIs(reply)
    case TimedOut => TimedOutText
    case _ => Fatal
  }

  function AppendPage(merged: seq<Json>, page: seq<Json>): seq<Json>
    requires |merged| <= MAX_ITEMS
  {
    merged + page[..Min(|page|, MAX_ITEMS - |merged|)]
  }

  /** Whether a page is the last: not a full one, or it reaches the total. */
  predicate IsLastPage(page: seq<Json>, reply: Json, end: nat) {
    |page| != PAGE_SIZE || 0 <= TotalOf(reply) <= end
  }

  /** The listing from request i on, with what is merged so far. */
  function Listed(calls: seq<CallResult>, key: string, i: nat, merged: seq<Json>): Listing
    requires i <= |calls| && |merged| <= MAX_ITEMS
    decreases |calls| - i
  {
    if |merged| == MAX_ITEMS then Merged(merged, true)
    else if i == |calls| then Fatal
    else
      match calls[i]
      case TimedOut => if merged == [] then TimedOutText else Merged(merged, true)
      case Reply(reply) =>
        (match ResultArray(reply, key)
         case None =>
           if i > 0 then Merged(merged, true)
           else if !IsError(reply) then AsIs(reply)
           else if |calls| == 1 then Fatal
           else SurviveTimeout(calls[1])
         case Some(page) =>
           if IsLastPage(page, reply, |merged| + |page|) then Merged(AppendPage(merged, page), false)
           else Listed(calls, key, i + 1, AppendPage(merged, page)))
      case _ => Fatal
  }

  /** The requests made for it: page after page, and one without pages when the first is answered by an
      error. */
  function Asked(calls: seq<CallResult>, key: string, i: nat, merged: seq<Json>): seq<Request>
    requires i <= |calls| && |merged| <= MAX_ITEMS
    decreases |calls| - i, 1
  {
    if |merged| == MAX_ITEMS then []
    else [Page(PAGE_SIZE * i)] + AskedNext(calls, key, i, merged)
  }

  function AskedNext(calls: seq<CallResult>, key: string, i: nat, merged: seq<Json>): seq<Request>
    requires i <= |calls| && |merged| <= MAX_ITEMS
    decreases |calls| - i, 0
  {
    if i == |calls| || !calls[i].Reply? then []
    else
      match ResultArray(calls[i].frame, key)
      case None => if i == 0 && IsError(calls[i].frame) then [Unpaged] else []
      case Some(page) =>
        if IsLastPage(page, calls[i].frame, |merged| + |page|) then []
        else Asked(calls, key, i + 1, AppendPage(merged, page))
  }

  /** No page came: the link is dead, the request timed out, or the reply holds no list. */
  method WithoutPage(calls: seq<CallResult>, key: string, i: nat, merged: seq<Json>)
    returns (listing: Listing, asked: seq<Request>)
    requires i <= |calls| && |merged| < MAX_ITEMS && (merged == [] <==> i == 0)
    requires i < |calls| && calls[i].Reply? ==> ResultArray(calls[i].frame, key).None?
    ensures listing == Listed(calls, key, i, merged) && asked == AskedNext(calls, key, i, merged)
  {
    asked := [];
    if i == |calls| {
      return Fatal, asked;
    }
    var answer := calls[i];
    if answer.TimedOut? {
      if merged == [] {
        return TimedOutText, asked;
      }
      return Merged(merged, true), asked;
    }
    if !answer.Reply? {
      return Fatal, asked;
    }
    if i > 0 {
      return Merged(merged, true), asked;
    }
    if IsError(answer.frame) {
      asked := [Unpaged];
      listing := if |calls| == 1 then Fatal else SurviveTimeout(calls[1]);
      return;
    }
    return AsIs(answer.frame), asked;
  }

  lemma {:induction false} AskedShape(calls: seq<CallResult>, key: string, i: nat, merged: seq<Json>)
    requires i <= |calls| && i <= MAX_REQUESTS && |merged| == PAGE_SIZE * i
    ensures var asked := Asked(calls, key, i, merged);
            && i + |asked| <= MAX_REQUESTS && i + |asked| <= |calls| + 1
            && forall k :: 0 <= k < |asked| ==>
                 asked[k] == if i + k == 1 && asked[k].Unpaged? then Unpaged else Page(PAGE_SIZE * (i + k))
    decreases |calls| - i
  {
    if i < MAX_REQUESTS && i < |calls| && calls[i].Reply? && ResultArray(calls[i].frame, key).Some? {
      var page := ResultArray(calls[i].frame, key).value;
      if !IsLastPage(page, calls[i].frame, |merged| + |page|) {
        AppendIsCut(merged, page);
        var later := Asked(calls, key, i + 1, AppendPage(merged, page));
        AskedShape(calls, key, i + 1, AppendPage(merged, page));
        assert Asked(calls, key, i, merged) == [Page(PAGE_SIZE * i)] + later;
        assert forall k :: 0 < k <= |later| ==> ([Page(PAGE_SIZE * i)] + later)[k] == later[k - 1];
      }
    }
  }

  /** The listing loop. `asked` is what was requested. */
  method PagedListing(calls: seq<CallResult>, key: string) returns (listing: Listing, asked: seq<Request>)
    ensures listing == Listed(calls, key, 0, []) && asked == Asked(calls, key, 0, [])
    ensures listing.Merged? ==> |listing.items| <= MAX_ITEMS
  {
    asked := [];
    var merged, start, i, truncated := [], 0, 0, false;
    while |merged| < MAX_ITEMS
      invariant i <= |calls| && i <= MAX_REQUESTS && |merged| == start == PAGE_SIZE * i
      invariant truncated <==> |merged| == MAX_ITEMS
      invariant Listed(calls, key, 0, []) == Listed(calls, key, i, merged)
      invariant Asked(calls, key, 0, []) == asked + Asked(calls, key, i, merged)
      decreases MAX_REQUESTS - i
    {
      ghost var next := AskedNext(calls, key, i, merged);
      Associative(asked, [Page(start)], next);
      asked := asked + [Page(start)];
      if i == |calls| || !calls[i].Reply? || ResultArray(calls[i].frame, key).None? {
        var more;
        listing, more := WithoutPage(calls, key, i, merged);
        return listing, asked + more;
      }
      var answer := calls[i];
      var page := ResultArray(answer.frame, key);
      merged := Take(merged, page.value);
      start := start + |page.value|;
      if |page.value| != PAGE_SIZE || (TotalOf(answer.frame) >= 0 && start >= TotalOf(answer.frame)) {
        assert asked + next == asked;
        return Merged(merged, false), asked;
      }
      truncated := |merged| >= MAX_ITEMS;
      i := i + 1;
    }
    assert asked + [] == asked;
    return Merged(merged, truncated), asked;
  }

  lemma Associative(a: seq<Request>, b: seq<Request>, c: seq<Request>)
    ensures a + (b + c) == a + b + c
  {
  }

  /** A listing that has no pages is one request; `asked` is what was requested. */
  method CallLibrary(calls: seq<CallResult>, key: Option<string>) returns (listing: Listing, asked: seq<Request>)
    ensures key.Some? ==> listing == Listed(calls, key.value, 0, [])
    ensures key.None? ==> listing == if calls == [] then Fatal else SurviveTimeout(calls[0])
    ensures asked == if key.None? then [Unpaged] else Asked(calls, key.value, 0, [])
    ensures |asked| <= MAX_REQUESTS && |asked| <= |calls| + 1
    ensures forall k :: 0 <= k < |asked| ==>
              asked[k] == if key.None? || (k == 1 && asked[k].Unpaged?) then Unpaged else Page(PAGE_SIZE * k)
    ensures listing.Merged? ==> |listing.items| <= MAX_ITEMS
  {
    if key.None? {
      asked := [Unpaged];
      listing := if calls == [] then Fatal else SurviveTimeout(calls[0]);
      return;
    }
    AskedShape(calls, key.value, 0, []);
    listing, asked := PagedListing(calls, key.value);
  }

  /** Copies a page item by item until the cap. */
  method Take(merged: seq<Json>, page: seq<Json>) returns (more: seq<Json>)
    requires |merged| <= MAX_ITEMS
    ensures more == AppendPage(merged, page)
  {
    more := merged;
    var k := 0;
    while k < |page| && |more| < MAX_ITEMS
      invariant k <= |page| && |merged| + k <= MAX_ITEMS
      invariant more == merged + page[..k]
    {
      more := more + [page[k]];
      k := k + 1;
    }
  }

  // ---- Against any server ----

  /** The items of the pages read from i up to n. */
  function PagesOf(calls: seq<CallResult>, key: string, i: nat, n: nat): seq<Json>
    requires i <= n <= |calls|
    decreases n - i
  {
    if i == n then []
    else
      PageIn(calls[i], key) + PagesOf(calls, key, i + 1, n)
  }

  /** l, the listing from request i on, is the first 10000 items of what was merged before and the pages read
      up to n. Unflagged, the last page read was the last by its size or its total. */
  ghost predicate IsReadTo(l: Listing, calls: seq<CallResult>, key: string, i: nat, merged: seq<Json>, n: nat)
    requires i <= n <= |calls| && l.Merged?
  {
    var all := merged + PagesOf(calls, key, i, n);
    && l.items == all[..Min(|all|, MAX_ITEMS)]
    && (!l.truncated ==>
          (n > i && EndsHere(calls[n - 1], key, PAGE_SIZE * (n - 1))
           && |all| == PAGE_SIZE * (n - 1) + |PageIn(calls[n - 1], key)|))
  }

  /** Whatever the replies, a merged listing is the first 10000 items of the pages read, of which there are
      at most twenty; unflagged only if the last one read was the last by its size or its total. */
  lemma {:induction false} AnyServer(calls: seq<CallResult>, key: string, i: nat, merged: seq<Json>) returns (n: nat)
    requires i <= |calls| && i <= MAX_REQUESTS && |merged| == PAGE_SIZE * i
    requires Listed(calls, key, i, merged).Merged?
    ensures i <= n <= |calls| && n <= MAX_REQUESTS && IsReadTo(Listed(calls, key, i, merged), calls, key, i, merged, n)
    decreases |calls| - i
  {
    n := i;
    if |merged| < MAX_ITEMS && calls[i].Reply? && ResultArray(calls[i].frame, key).Some? {
      var page := ResultArray(calls[i].frame, key).value;
      AppendIsCut(merged, page);
      if IsLastPage(page, calls[i].frame, |merged| + |page|) {
        n := i + 1;
        assert PagesOf(calls, key, i, n) == page + [] == page;
      } else {
        n := AnyServer(calls, key, i + 1, merged + page);
        MorePages(Listed(calls, key, i, merged), calls, key, i, merged, n);
      }
    } else {
      NoMorePages(merged);
    }
  }

  lemma MorePages(l: Listing, calls: seq<CallResult>, key: string, i: nat, merged: seq<Json>, n: nat)
    requires i < n <= |calls| && l.Merged?
    requires IsReadTo(l, calls, key, i + 1, merged + PageIn(calls[i], key), n)
    ensures IsReadTo(l, calls, key, i, merged, n)
  {
    var page, later := PageIn(calls[i], key), PagesOf(calls, key, i + 1, n);
    assert PagesOf(calls, key, i, n) == page + later;
    assert merged + (page + later) == merged + page + later;
  }

  lemma NoMorePages(merged: seq<Json>)
    requires |merged| <= MAX_ITEMS
    ensures (merged + [])[..Min(|merged + []|, MAX_ITEMS)] == merged
  {
  }

  lemma AppendIsCut(merged: seq<Json>, page: seq<Json>)
    requires |merged| <= MAX_ITEMS
    ensures AppendPage(merged, page) == (merged + page)[..Min(|merged + page|, MAX_ITEMS)]
    ensures |merged + page| <= MAX_ITEMS ==> AppendPage(merged, page) == merged + page
  {
  }

  /** A page after which more are asked for: as long as a page can be, and short of any total given. */
  predicate GoesOn(c: CallResult, key: string, start: nat) {
    && c.Reply? && ResultArray(c.frame, key).Some? && |PageIn(c, key)| == 500
    && !(0 <= TotalOf(c.frame) <= start + 500)
  }

  /** What a listing comes to at request n, with `all` merged before it: the cap, the end of the link, a timeout,
      a reply that is no page, or the last page. Only an error to the first request is asked again, without
      pages. */
  predicate EndsAt(calls: seq<CallResult>, key: string, n: nat, all: seq<Json>, l: Listing, asked: nat)
    requires n <= |calls|
  {
    if n == 20 then l == Merged(all, true) && asked == n
    else if n == |calls| then l == Fatal && asked == n + 1
    else
      match calls[n]
      case TimedOut => l == (if n == 0 then TimedOutText else Merged(all, true)) && asked == n + 1
      case Dead => l == Fatal && asked == n + 1
      case StopRequested => l == Fatal && asked == n + 1
      case Reply(reply) =>
        if ResultArray(reply, key).Some? then
          var page := ResultArray(reply, key).value;
          && (|page| != 500 || 0 <= TotalOf(reply) <= 500 * n + 500)
          && l == Merged((all + page)[..Min(|all + page|, 10000)], false) && asked == n + 1
        else if n > 0 then l == Merged(all, true) && asked == n + 1
        else if reply.JObj? && "error" in reply.fields then
          asked == 2 && (if |calls| == 1 then l == Fatal
                         else match calls[1]
                           case Reply(again) => l == AsIs(again)
                           case TimedOut => l == TimedOutText
                           case _ => l == Fatal)
        else l == AsIs(reply) && asked == 1
  }

  lemma {:induction false} EndsSomewhere(calls: seq<CallResult>, key: string, i: nat, merged: seq<Json>)
    returns (n: nat)
    requires i <= |calls| && i <= 20 && |merged| == 500 * i
    ensures i <= n <= |calls| && n <= 20
    ensures forall k :: i <= k < n ==> GoesOn(calls[k], key, 500 * k)
    ensures EndsAt(calls, key, n, merged + PagesOf(calls, key, i, n), Listed(calls, key, i, merged),
                   i + |Asked(calls, key, i, merged)|)
    decreases |calls| - i
  {
    n := i;
    assert merged + [] == merged;
    if i < 20 && i < |calls| && calls[i].Reply? && ResultArray(calls[i].frame, key).Some? {
      AppendIsCut(merged, PageIn(calls[i], key));
    }
    if i < 20 && i < |calls| && GoesOn(calls[i], key, 500 * i) {
      var page := PageIn(calls[i], key);
      n := EndsSomewhere(calls, key, i + 1, merged + page);
      assert merged + (page + PagesOf(calls, key, i + 1, n)) == merged + page + PagesOf(calls, key, i + 1, n);
    }
  }

  /** Whatever Kodi answers, a listing ends at the first request that does not bring a page to go on from, and
      comes to what that answer says; that many requests are made, and one more for an error to the first. */
  lemma ListingEndsAtTheFirst(calls: seq<CallResult>, key: string) returns (n: nat)
    ensures n <= |calls| && n <= 20
    ensures forall k :: 0 <= k < n ==> GoesOn(calls[k], key, 500 * k)
    ensures EndsAt(calls, key, n, PagesOf(calls, key, 0, n), Listed(calls, key, 0, []), |Asked(calls, key, 0, [])|)
  {
    n := EndsSomewhere(calls, key, 0, []);
    assert [] + PagesOf(calls, key, 0, n) == PagesOf(calls, key, 0, n);
  }

  /** An unflagged listing holds every item of the pages read exactly when the last page, beside the full
      ones before it, stays within the cap. */
  lemma UnflaggedIsWholeIff(calls: seq<CallResult>, key: string) returns (n: nat)
    requires Listed(calls, key, 0, []).Merged? && !Listed(calls, key, 0, []).truncated
    ensures 0 < n <= |calls| && n <= MAX_REQUESTS
    ensures EndsHere(calls[n - 1], key, PAGE_SIZE * (n - 1))
    ensures Listed(calls, key, 0, []).items == PagesOf(calls, key, 0, n)
            <==> PAGE_SIZE * (n - 1) + |PageIn(calls[n - 1], key)| <= MAX_ITEMS
  {
    n := AnyServer(calls, key, 0, []);
    var all := PagesOf(calls, key, 0, n);
    assert [] + all == all;
  }

  /** So a server whose pages never outgrow the page size loses nothing without the flag. */
  lemma SmallPagesAreComplete(calls: seq<CallResult>, key: string) returns (n: nat)
    requires Listed(calls, key, 0, []).Merged? && !Listed(calls, key, 0, []).truncated
    requires forall k :: 0 <= k < |calls| ==> |PageIn(calls[k], key)| <= PAGE_SIZE
    ensures 0 < n <= |calls| && EndsHere(calls[n - 1], key, PAGE_SIZE * (n - 1))
    ensures Listed(calls, key, 0, []).items == PagesOf(calls, key, 0, n)
  {
    n := UnflaggedIsWholeIff(calls, key);
  }

  /** The items of the page a reply carries. */
  function PageIn(c: CallResult, key: string): seq<Json> {
    if c.Reply? then Or(ResultArray(c.frame, key), []) else []
  }

  predicate EndsHere(c: CallResult, key: string, start: nat) {
    c.Reply? && ResultArray(c.frame, key).Some?
    && IsLastPage(ResultArray(c.frame, key).value, c.frame, start + |ResultArray(c.frame, key).value|)
  }

  // ---- Against a server that honours `limits` ----

  /** The reply to the page from `start`; `tells`: it reports how many items there are. */
  predicate HonestPage(reply: Json, key: string, items: seq<Json>, start: nat, tells: bool) {
    && start <= |items|
    && ResultArray(reply, key) == Some(items[start..Min(start + PAGE_SIZE, |items|)])
    && if tells then TotalOf(reply) == |items| else TotalOf(reply) < 0
  }

  ghost predicate HonestUpTo(calls: seq<CallResult>, key: string, items: seq<Json>, tells: bool, n: nat) {
    forall k :: 0 <= k < n && k < |calls| && PAGE_SIZE * k <= |items| ==>
      calls[k].Reply? && HonestPage(calls[k].frame, key, items, PAGE_SIZE * k, tells)
  }

  lemma HonestStep(calls: seq<CallResult>, key: string, items: seq<Json>, tells: bool, i: nat)
    requires i < |calls| && i < MAX_REQUESTS && PAGE_SIZE * i <= |items|
    requires calls[i].Reply? && HonestPage(calls[i].frame, key, items, PAGE_SIZE * i, tells)
    ensures var next := PAGE_SIZE * i + PAGE_SIZE;
            var more := if tells then next < |items| else next <= |items|;
            (Listed(calls, key, i, items[..PAGE_SIZE * i])
             == if more then Listed(calls, key, i + 1, items[..next]) else Merged(items[..Min(|items|, next)], false))
  {
    var start := PAGE_SIZE * i;
    var end := Min(start + PAGE_SIZE, |items|);
    assert items[..start] + items[start..end] == items[..end];
    assert items[start..end][..end - start] == items[start..end];
  }

  lemma {:induction false} HonestListing(calls: seq<CallResult>, key: string, items: seq<Json>, tells: bool, i: nat)
    requires |calls| >= MAX_REQUESTS && HonestUpTo(calls, key, items, tells, MAX_REQUESTS)
    requires i <= MAX_REQUESTS && PAGE_SIZE * i <= |items| && (tells && i > 0 ==> PAGE_SIZE * i < |items|)
    ensures Listed(calls, key, i, items[..PAGE_SIZE * i])
         == Merged(items[..Min(|items|, MAX_ITEMS)], if tells then |items| > MAX_ITEMS else |items| >= MAX_ITEMS)
    decreases MAX_REQUESTS - i
  {
    if i < MAX_REQUESTS {
      HonestStep(calls, key, items, tells, i);
      var next := PAGE_SIZE * i + PAGE_SIZE;
      if if tells then next < |items| else next <= |items| {
        HonestListing(calls, key, items, tells, i + 1);
      }
    }
  }

  /** The merge of an honest server's pages is its first 10000 items, flagged exactly when there are
      more - or, when it does not report a total, when there may be more. */
  lemma HonestLibrary(calls: seq<CallResult>, key: string, items: seq<Json>, tells: bool)
    requires |calls| >= MAX_REQUESTS && HonestUpTo(calls, key, items, tells, MAX_REQUESTS)
    ensures Listed(calls, key, 0, [])
         == Merged(items[..Min(|items|, MAX_ITEMS)], if tells then |items| > MAX_ITEMS else |items| >= MAX_ITEMS)
  {
    HonestListing(calls, key, items, tells, 0);
    assert items[..0] == [];
  }

  lemma {:induction false} HonestUntilTimeout(calls: seq<CallResult>, key: string, items: seq<Json>, tells: bool, i: nat, at: nat)
    requires at < |calls| && at < MAX_REQUESTS && calls[at].TimedOut?
    requires HonestUpTo(calls, key, items, tells, at)
    requires i <= at && PAGE_SIZE * at <= |items| && (tells && at > 0 ==> PAGE_SIZE * at < |items|)
    ensures Listed(calls, key, i, items[..PAGE_SIZE * i])
         == if at == 0 then TimedOutText else Merged(items[..PAGE_SIZE * at], true)
    decreases at - i
  {
    if i < at {
      HonestStep(calls, key, items, tells, i);
      HonestUntilTimeout(calls, key, items, tells, i + 1, at);
    }
  }

  /** The request for page `at` times out: what came before is a prefix flagged truncated, a proper one
      when the server reports its total; with nothing before it, the error text stands in. */
  lemma TimeoutKeepsAPrefix(calls: seq<CallResult>, key: string, items: seq<Json>, tells: bool, at: nat)
    requires at < |calls| && at < MAX_REQUESTS && calls[at].TimedOut?
    requires HonestUpTo(calls, key, items, tells, at)
    requires PAGE_SIZE * at <= |items| && (tells && at > 0 ==> PAGE_SIZE * at < |items|)
    ensures var l := Listed(calls, key, 0, []);
            && l == (if at == 0 then TimedOutText else Merged(items[..PAGE_SIZE * at], true))
            && (tells && at > 0 ==> l.items < items)
  {
    HonestUntilTimeout(calls, key, items, tells, 0, at);
    assert items[..0] == [];
  }

  // ---- Against a server that ignores `limits` ----

  ghost predicate SendsEverything(calls: seq<CallResult>, key: string, items: seq<Json>, tells: bool) {
    forall k :: 0 <= k < |calls| ==>
      calls[k].Reply? && ResultArray(calls[k].frame, key) == Some(items)
      && if tells then TotalOf(calls[k].frame) == |items| else TotalOf(calls[k].frame) < 0
  }

  function Repeated(items: seq<Json>, n: nat): (r: seq<Json>)
    ensures |r| == n * |items|
  {
    if n == 0 then [] else Repeated(items, n - 1) + items
  }

  lemma {:induction false} AskedAgain(calls: seq<CallResult>, key: string, items: seq<Json>, i: nat)
    requires |calls| >= MAX_REQUESTS && SendsEverything(calls, key, items, false) && |items| == PAGE_SIZE
    requires i <= MAX_REQUESTS
    ensures Listed(calls, key, i, Repeated(items, i)) == Merged(Repeated(items, MAX_REQUESTS), true)
    decreases MAX_REQUESTS - i
  {
    if i < MAX_REQUESTS {
      assert items[..PAGE_SIZE] == items;
      AskedAgain(calls, key, items, i + 1);
    }
  }

  /** A server that ignores `limits` is listed correctly - its first 10000 items, once - unless it holds
      exactly one page's worth and reports no total: then it is asked again and each item is repeated. */
  lemma EverythingAtOnce(calls: seq<CallResult>, key: string, items: seq<Json>, tells: bool)
    requires |calls| >= MAX_REQUESTS && SendsEverything(calls, key, items, tells)
    ensures Listed(calls, key, 0, []) == Merged(items[..Min(|items|, MAX_ITEMS)], false)
            <==> !(|items| == PAGE_SIZE && !tells)
    ensures |items| == PAGE_SIZE && !tells ==>
              Listed(calls, key, 0, []) == Merged(Repeated(items, MAX_REQUESTS), true)
  {
    if |items| == PAGE_SIZE && !tells {
      AskedAgain(calls, key, items, 0);
      assert Repeated(items, 0) == [];
    } else {
      assert AppendPage([], items) == items[..Min(|items|, MAX_ITEMS)];
    }
  }

  /** The shortest such loss: a first reply longer than the cap is cut at the cap, unflagged. */
  lemma OversizedReplyIsCutUnflagged(calls: seq<CallResult>, key: string, page: seq<Json>)
    requires calls != [] && calls[0].Reply? && ResultArray(calls[0].frame, key) == Some(page)
    requires |page| > MAX_ITEMS
    ensures Listed(calls, key, 0, []) == Merged(page[..MAX_ITEMS], false)
  {
    assert AppendPage([], page) == page[..MAX_ITEMS];
  }
}
