/** The bounded cache over the server's paged transaction list. */
module TxListCache {
  import opened Amounts

  const CACHE_SIZE: nat := 1024
  const NO_EMPTY_PAGE: nat := 0xffff_ffff   // the sentinel for "no empty page seen"

  /** A page server: `pages` is its content, `fails` the pages for which the call raises an exception. */
  type Pages<!T> = nat -> seq<T>

  datatype Outcome<T> = Served(txs: seq<T>) | Failed

  /** The first empty page from `i` on. */
  function FirstEmpty<T>(pages: Pages<T>, i: nat): (r: nat)
    requires i <= NO_EMPTY_PAGE
    ensures i <= r <= NO_EMPTY_PAGE
    ensures forall k :: i <= k < r ==> pages(k) != []
    ensures r < NO_EMPTY_PAGE ==> pages(r) == []
    decreases NO_EMPTY_PAGE - i
  {
    if i == NO_EMPTY_PAGE || pages(i) == [] then i else FirstEmpty(pages, i + 1)
  }

  function End<T>(pages: Pages<T>): nat {
    FirstEmpty(pages, 0)
  }

  /** Pages `a` to `b - 1`, concatenated. */
  function Range<T>(pages: Pages<T>, a: nat, b: nat): seq<T> {
    if b <= a then [] else Range(pages, a, b - 1) + pages(b - 1)
  }

  /** The server's list: all pages before the first empty one. */
  function Listing<T>(pages: Pages<T>): seq<T> {
    Range(pages, 0, End(pages))
  }

  /** The part of a list between two positions, as far as the list reaches. */
  function Window<T>(s: seq<T>, first: nat, last: nat): seq<T>
    requires first <= last
  {
    s[Min(first, |s|)..Min(last, |s|)]
  }

  lemma {:induction false} RangeSplit<T>(pages: Pages<T>, a: nat, b: nat, c: nat)
    requires a <= b <= c
    ensures Range(pages, a, b) + Range(pages, b, c) == Range(pages, a, c)
    decreases c
  {
    if b < c {
      RangeSplit(pages, a, b, c - 1);
      assert Range(pages, a, b) + (Range(pages, b, c - 1) + pages(c - 1))
          == (Range(pages, a, b) + Range(pages, b, c - 1)) + pages(c - 1);
    }
  }

  /** What `fetch` adds to its output for a page that follows the items `s`. */
  function Slice<T>(txs: seq<T>, first: nat, last: nat, fetched: nat): seq<T>
    requires first <= last && |txs| <= fetched
  {
    var begin := |txs| - (if first >= fetched then 0 else Min(fetched - first, |txs|));
    var end := |txs| - (if last >= fetched then 0 else Min(fetched - last, |txs|));
    txs[begin..end]
  }

  lemma {:induction false} WholeSlice<T>(txs: seq<T>, fetched: nat)
    requires |txs| <= fetched <= UINT32_MAX
    ensures Slice(txs, 0, UINT32_MAX, fetched) == txs
  {
  }

  lemma {:induction false} WindowGrows<T>(s: seq<T>, txs: seq<T>, first: nat, last: nat)
    requires first <= last
    ensures Window(s, first, last) + Slice(txs, first, last, |s| + |txs|) == Window(s + txs, first, last)
  {
  }

  lemma {:induction false} WindowOfPrefix<T>(s: seq<T>, more: seq<T>, first: nat, last: nat)
    requires first <= last <= |s|
    ensures Window(s, first, last) == Window(s + more, first, last)
  {
  }

  // ----- what the cache does, as functions of its fields -----

  datatype State<T> = State(nextUncachedPage: nat, firstEmptyPage: nat, txCache: seq<T>)

  /** Where filling stops: the cache and page reached, and whether the server answered every time. */
  datatype Filled<T> = Filled(txCache: seq<T>, page: nat, firstEmptyPage: nat, ok: bool)

  /** Pages are cached until the cache is full, covers `last` or the list ends. */
  function Filling<T>(pages: Pages<T>, fails: nat -> bool, cache: seq<T>, page: nat, firstEmpty: nat,
                      last: nat): Filled<T>
    requires firstEmpty <= NO_EMPTY_PAGE
    decreases NO_EMPTY_PAGE - page
  {
    if |cache| >= CACHE_SIZE || page >= firstEmpty || |cache| >= last then Filled(cache, page, firstEmpty, true)
    else if fails(page) then Filled(cache, page, firstEmpty, false)
    else if pages(page) == [] then Filling(pages, fails, cache, page + 1, page, last)
    else Filling(pages, fails, cache + pages(page), page + 1, firstEmpty, last)
  }

  datatype Spilled<T> = Spilled(result: seq<T>, firstEmptyPage: nat, ok: bool)

  /** Further pages go straight into the result. */
  function Spilling<T>(pages: Pages<T>, fails: nat -> bool, first: nat, last: nat,
                    result: seq<T>, fetched: nat, page: nat, firstEmpty: nat): Spilled<T>
    requires firstEmpty <= NO_EMPTY_PAGE && first <= last
    decreases NO_EMPTY_PAGE - page
  {
    if page >= firstEmpty || fetched >= last then Spilled(result, firstEmpty, true)
    else if fails(page) then Spilled(result, firstEmpty, false)
    else if pages(page) == [] then Spilling(pages, fails, first, last, result, fetched, page + 1, page)
    else
      var fetched' := fetched + |pages(page)|;
      Spilling(pages, fails, first, last, result + Slice(pages(page), first, last, fetched'), fetched', page + 1,
               firstEmpty)
  }

  /** A whole `get`. When filling fails, the pages it cached stay but `nextUncachedPage` is not advanced. */
  function Getting<T>(pages: Pages<T>, fails: nat -> bool, st: State<T>, first: nat, last: nat): (State<T>, Outcome<T>)
    requires st.firstEmptyPage <= NO_EMPTY_PAGE && first <= last
  {
    FillKeepsSentinel(pages, fails, st.txCache, st.nextUncachedPage, st.firstEmptyPage, last);
    var f := Filling(pages, fails, st.txCache, st.nextUncachedPage, st.firstEmptyPage, last);
    if !f.ok then (State(st.nextUncachedPage, f.firstEmptyPage, f.txCache), Failed)
    else
      var s := Spilling(pages, fails, first, last, Window(f.txCache, first, last), |f.txCache|, f.page,
                        f.firstEmptyPage);
      (State(f.page, s.firstEmptyPage, f.txCache), if s.ok then Served(s.result) else Failed)
  }

  lemma {:induction false} FillKeepsSentinel<T>(pages: Pages<T>, fails: nat -> bool, cache: seq<T>, page: nat,
                                                firstEmpty: nat, last: nat)
    requires firstEmpty <= NO_EMPTY_PAGE
    ensures Filling(pages, fails, cache, page, firstEmpty, last).firstEmptyPage <= NO_EMPTY_PAGE
    decreases NO_EMPTY_PAGE - page
  {
    if |cache| < CACHE_SIZE && page < firstEmpty && |cache| < last && !fails(page) {
      if pages(page) == [] {
        FillKeepsSentinel(pages, fails, cache, page + 1, page, last);
      } else {
        FillKeepsSentinel(pages, fails, cache + pages(page), page + 1, firstEmpty, last);
      }
    }
  }

  // ----- what the cache guarantees -----

  /** The page numbers agree with the server. */
  ghost predicate PageSane<T>(pages: Pages<T>, page: nat, firstEmpty: nat) {
    && (firstEmpty == NO_EMPTY_PAGE || firstEmpty == End(pages))
    && (page <= End(pages) || (page == End(pages) + 1 && firstEmpty == End(pages)))
  }

  ghost predicate Sane<T>(pages: Pages<T>, st: State<T>) {
    PageSane(pages, st.nextUncachedPage, st.firstEmptyPage)
  }

  /** Everything from `page` on. */
  ghost function Rest<T>(pages: Pages<T>, page: nat): seq<T> {
    Range(pages, Min(page, End(pages)), End(pages))
  }

  /** The list a cache serves: its own items, then the server's pages from the next uncached one on. */
  ghost function View<T>(pages: Pages<T>, st: State<T>): seq<T> {
    st.txCache + Rest(pages, st.nextUncachedPage)
  }

  /** The cache holds a whole-page prefix of the server's list. */
  ghost predicate Valid<T>(pages: Pages<T>, st: State<T>) {
    Sane(pages, st) && st.txCache == Range(pages, 0, Min(st.nextUncachedPage, End(pages)))
  }

  lemma {:induction false} ValidServesListing<T>(pages: Pages<T>, st: State<T>)
    requires Sane(pages, st)
    ensures Valid(pages, st) <==> View(pages, st) == Listing(pages)
  {
    var n := Min(st.nextUncachedPage, End(pages));
    RangeSplit(pages, 0, n, End(pages));
    if View(pages, st) == Listing(pages) {
      var rest := Rest(pages, n);
      assert |st.txCache| == |Range(pages, 0, n)|;
      assert st.txCache == (st.txCache + rest)[..|st.txCache|];
      assert Range(pages, 0, n) == (Range(pages, 0, n) + rest)[..|st.txCache|];
    }
  }

  lemma {:induction false} EndFacts<T>(pages: Pages<T>, page: nat)
    ensures End(pages) <= NO_EMPTY_PAGE
    ensures page < End(pages) ==> pages(page) != []
    ensures page == End(pages) < NO_EMPTY_PAGE ==> pages(page) == []
  {
  }

  lemma {:induction false} OnePage<T>(pages: Pages<T>, page: nat, end: nat)
    requires page < end
    ensures Range(pages, page, end) == pages(page) + Range(pages, page + 1, end)
  {
    RangeSplit(pages, page, page + 1, end);
    assert Range(pages, page, page) == [];
    assert Range(pages, page, page + 1) == [] + pages(page) == pages(page);
  }

  /** Asking for one more page within the list. */
  lemma {:induction false} NextPage<T>(pages: Pages<T>, page: nat, firstEmpty: nat)
    requires PageSane(pages, page, firstEmpty) && page < firstEmpty
    ensures page <= End(pages)
    ensures pages(page) == [] ==> page == End(pages) && Rest(pages, page) == [] == Rest(pages, page + 1)
    ensures pages(page) != [] ==> page < End(pages) && Rest(pages, page) == pages(page) + Rest(pages, page + 1)
    ensures PageSane(pages, page + 1, if pages(page) == [] then page else firstEmpty)
  {
    hide End;
    EndFacts(pages, page);
    if page < End(pages) {
      OnePage(pages, page, End(pages));
    }
  }

  /** Filling keeps what is served. */
  lemma {:induction false} FillKeepsView<T>(pages: Pages<T>, fails: nat -> bool, cache: seq<T>, page: nat,
                                            firstEmpty: nat, last: nat)
    requires PageSane(pages, page, firstEmpty) && firstEmpty <= NO_EMPTY_PAGE
    ensures var f := Filling(pages, fails, cache, page, firstEmpty, last);
            && PageSane(pages, f.page, f.firstEmptyPage)
            && cache <= f.txCache
            && f.txCache + Rest(pages, f.page) == cache + Rest(pages, page)
    decreases NO_EMPTY_PAGE - page
  {
    hide End, Rest, PageSane;
    if |cache| < CACHE_SIZE && page < firstEmpty && |cache| < last && !fails(page) {
      NextPage(pages, page, firstEmpty);
      if pages(page) == [] {
        FillKeepsView(pages, fails, cache, page + 1, page, last);
      } else {
        FillKeepsView(pages, fails, cache + pages(page), page + 1, firstEmpty, last);
        assert (cache + pages(page)) + Rest(pages, page + 1) == cache + (pages(page) + Rest(pages, page + 1));
      }
    }
  }

  /** A failed fill has added exactly the pages before the failing one. */
  lemma {:induction false} FailedFill<T>(pages: Pages<T>, fails: nat -> bool, cache: seq<T>, page: nat,
                                         firstEmpty: nat, last: nat)
    requires PageSane(pages, page, firstEmpty) && firstEmpty <= NO_EMPTY_PAGE
    requires !Filling(pages, fails, cache, page, firstEmpty, last).ok
    ensures var f := Filling(pages, fails, cache, page, firstEmpty, last);
            && page <= f.page <= End(pages) && f.firstEmptyPage == firstEmpty && fails(f.page)
            && f.txCache == cache + Range(pages, page, f.page)
    decreases NO_EMPTY_PAGE - page
  {
    hide End, Rest, PageSane;
    NextPage(pages, page, firstEmpty);
    if fails(page) {
      assert Range(pages, page, page) == [];
    } else {
      FailedFill(pages, fails, cache + pages(page), page + 1, firstEmpty, last);
      var f := Filling(pages, fails, cache, page, firstEmpty, last);
      OnePage(pages, page, f.page);
      assert (cache + pages(page)) + Range(pages, page + 1, f.page)
         == cache + (pages(page) + Range(pages, page + 1, f.page));
    }
  }

  /** Spilling yields the window of everything seen so far and everything left. */
  lemma {:induction false} SpillIsWindow<T>(pages: Pages<T>, fails: nat -> bool, first: nat, last: nat,
                                            seen: seq<T>, page: nat, firstEmpty: nat)
    requires PageSane(pages, page, firstEmpty) && firstEmpty <= NO_EMPTY_PAGE && first <= last
    ensures var s := Spilling(pages, fails, first, last, Window(seen, first, last), |seen|, page, firstEmpty);
            && (s.firstEmptyPage == firstEmpty || s.firstEmptyPage == End(pages))
            && (s.ok ==> s.result == Window(seen + Rest(pages, page), first, last))
    decreases NO_EMPTY_PAGE - page
  {
    hide End, Rest, Window;
    if page >= firstEmpty {
      NothingLeft(pages, page, firstEmpty);
      assert seen + [] == seen;
    } else if |seen| >= last {
      WindowOfPrefix(seen, Rest(pages, page), first, last);
    } else if !fails(page) {
      NextPage(pages, page, firstEmpty);
      if pages(page) == [] {
        SpillIsWindow(pages, fails, first, last, seen, page + 1, page);
      } else {
        WindowGrows(seen, pages(page), first, last);
        SpillIsWindow(pages, fails, first, last, seen + pages(page), page + 1, firstEmpty);
        assert (seen + pages(page)) + Rest(pages, page + 1) == seen + (pages(page) + Rest(pages, page + 1));
      }
    }
  }

  lemma {:induction false} NothingLeft<T>(pages: Pages<T>, page: nat, firstEmpty: nat)
    requires PageSane(pages, page, firstEmpty) && firstEmpty <= page
    ensures Rest(pages, page) == []
  {
    hide FirstEmpty;
    EndFacts(pages, page);
  }

  /** Every `get`, whatever the cache holds: it serves the window of the cache's view, and keeps the view
      unless filling failed after caching at least one page, which will then be served twice. */
  lemma {:induction false} GetServesView<T>(pages: Pages<T>, fails: nat -> bool, st: State<T>, first: nat, last: nat)
    requires Sane(pages, st) && st.firstEmptyPage <= NO_EMPTY_PAGE && first <= last
    ensures var (st', r) := Getting(pages, fails, st, first, last);
            var f := Filling(pages, fails, st.txCache, st.nextUncachedPage, st.firstEmptyPage, last);
            && Sane(pages, st') && st'.firstEmptyPage <= NO_EMPTY_PAGE
            && (r.Served? ==> f.ok && r.txs == Window(View(pages, st), first, last))
            && (f.ok ==> View(pages, st') == View(pages, st))
            && (!f.ok ==> st'.txCache == st.txCache + Range(pages, st.nextUncachedPage, f.page)
                          && st'.nextUncachedPage == st.nextUncachedPage)
  {
    hide End, Rest, Window;
    var page, firstEmpty := st.nextUncachedPage, st.firstEmptyPage;
    FillKeepsSentinel(pages, fails, st.txCache, page, firstEmpty, last);
    FillKeepsView(pages, fails, st.txCache, page, firstEmpty, last);
    var f := Filling(pages, fails, st.txCache, page, firstEmpty, last);
    EndFacts(pages, page);
    if f.ok {
      SpillIsWindow(pages, fails, first, last, f.txCache, f.page, f.firstEmptyPage);
    } else {
      FailedFill(pages, fails, st.txCache, page, firstEmpty, last);
    }
  }

  // ----- when filling breaks off, and what that does -----

  /** Answering a request that ends at `last` needs page `k`. */
  ghost predicate Needs<T>(pages: Pages<T>, page: nat, firstEmpty: nat, last: nat, k: nat) {
    page <= k <= End(pages) && k < firstEmpty && |Range(pages, 0, k)| < last
  }

  /** No page needed from `page` on fails. */
  ghost predicate Quiet<T>(pages: Pages<T>, fails: nat -> bool, page: nat, firstEmpty: nat, last: nat) {
    forall k :: Needs(pages, page, firstEmpty, last, k) ==> !fails(k)
  }

  /** The cache is the prefix of the list before `page`. */
  ghost predicate Caches<T>(pages: Pages<T>, page: nat, firstEmpty: nat, cache: seq<T>) {
    && PageSane(pages, page, firstEmpty) && firstEmpty <= NO_EMPTY_PAGE
    && cache == Range(pages, 0, Min(page, End(pages)))
  }

  lemma {:induction false} RangeGrows<T>(pages: Pages<T>, a: nat, b: nat)
    requires a <= b
    ensures |Range(pages, 0, a)| <= |Range(pages, 0, b)|
  {
    RangeSplit(pages, 0, a, b);
  }

  /** Nothing is needed once the pages so far reach `last` or the end of the list is known. */
  lemma {:induction false} NothingNeeded<T>(pages: Pages<T>, fails: nat -> bool, page: nat, firstEmpty: nat, last: nat,
                                            cache: seq<T>)
    requires Caches(pages, page, firstEmpty, cache) && (|cache| >= last || page >= firstEmpty)
    ensures Quiet(pages, fails, page, firstEmpty, last)
  {
    hide End, Range;
    forall k: nat
      ensures !Needs(pages, page, firstEmpty, last, k)
    {
      if page <= k {
        RangeGrows(pages, page, k);
      }
    }
  }

  /** Looking at one needed page that answers. */
  lemma {:induction false} OneNeeded<T>(pages: Pages<T>, fails: nat -> bool, page: nat, firstEmpty: nat, last: nat,
                                        cache: seq<T>)
    requires Caches(pages, page, firstEmpty, cache) && |cache| < last && page < firstEmpty
    ensures Needs(pages, page, firstEmpty, last, page)
    ensures var firstEmpty' := if pages(page) == [] then page else firstEmpty;
            && Caches(pages, page + 1, firstEmpty', cache + pages(page))
            && (!fails(page) ==> (Quiet(pages, fails, page, firstEmpty, last)
                                  <==> Quiet(pages, fails, page + 1, firstEmpty', last)))
  {
    NextPage(pages, page, firstEmpty);
    hide End, Rest;
    if pages(page) == [] {
      assert cache + pages(page) == cache;
    }
    var firstEmpty' := if pages(page) == [] then page else firstEmpty;
    if !fails(page) {
      forall k: nat
        ensures Needs(pages, page, firstEmpty, last, k) <==> k == page || Needs(pages, page + 1, firstEmpty', last, k)
      {
      }
    }
  }

  /** Filling succeeds exactly when no page it needs fails. */
  lemma {:induction false} FillSucceedsExactly<T>(pages: Pages<T>, fails: nat -> bool, cache: seq<T>, page: nat,
                                                  firstEmpty: nat, last: nat)
    requires Caches(pages, page, firstEmpty, cache) && firstEmpty <= NO_EMPTY_PAGE
    ensures Filling(pages, fails, cache, page, firstEmpty, last).ok
       <==> Quiet(pages, fails, page, firstEmpty, Min(CACHE_SIZE, last))
    decreases NO_EMPTY_PAGE - page
  {
    hide Caches, Quiet, Needs;
    var enough := Min(CACHE_SIZE, last);
    if |cache| >= enough || page >= firstEmpty {
      NothingNeeded(pages, fails, page, firstEmpty, enough, cache);
    } else {
      OneNeeded(pages, fails, page, firstEmpty, enough, cache);
      if fails(page) {
        NeededFails(pages, fails, page, firstEmpty, enough, page);
      } else if pages(page) == [] {
        assert cache + pages(page) == cache;
        FillSucceedsExactly(pages, fails, cache, page + 1, page, last);
      } else {
        FillSucceedsExactly(pages, fails, cache + pages(page), page + 1, firstEmpty, last);
      }
    }
  }

  lemma {:induction false} NeededFails<T>(pages: Pages<T>, fails: nat -> bool, page: nat, firstEmpty: nat, last: nat,
                                          k: nat)
    requires Needs(pages, page, firstEmpty, last, k) && fails(k)
    ensures !Quiet(pages, fails, page, firstEmpty, last)
  {
  }

  /** Spilling succeeds exactly when no page it needs fails; `seen` is the list before `page`. */
  lemma {:induction false} SpillSucceedsExactly<T>(pages: Pages<T>, fails: nat -> bool, first: nat, last: nat,
                                                   result: seq<T>, seen: seq<T>, page: nat, firstEmpty: nat)
    requires Caches(pages, page, firstEmpty, seen) && firstEmpty <= NO_EMPTY_PAGE && first <= last
    ensures Spilling(pages, fails, first, last, result, |seen|, page, firstEmpty).ok
       <==> Quiet(pages, fails, page, firstEmpty, last)
    decreases NO_EMPTY_PAGE - page
  {
    hide Caches, Quiet, Needs;
    if |seen| >= last || page >= firstEmpty {
      NothingNeeded(pages, fails, page, firstEmpty, last, seen);
    } else {
      OneNeeded(pages, fails, page, firstEmpty, last, seen);
      if fails(page) {
        NeededFails(pages, fails, page, firstEmpty, last, page);
      } else if pages(page) == [] {
        assert seen + pages(page) == seen;
        SpillSucceedsExactly(pages, fails, first, last, result, seen, page + 1, page);
      } else {
        var fetched := |seen| + |pages(page)|;
        SpillSucceedsExactly(pages, fails, first, last, result + Slice(pages(page), first, last, fetched),
                             seen + pages(page), page + 1, firstEmpty);
      }
    }
  }

  /** Where a fill ends: it has passed only pages that answered, and it breaks off only at a needed page. */
  lemma {:induction false} FillEnds<T>(pages: Pages<T>, fails: nat -> bool, cache: seq<T>, page: nat,
                                       firstEmpty: nat, last: nat)
    requires Caches(pages, page, firstEmpty, cache) && firstEmpty <= NO_EMPTY_PAGE
    ensures var f := Filling(pages, fails, cache, page, firstEmpty, last);
            && page <= f.page && (forall k :: page <= k < f.page ==> !fails(k))
            && Caches(pages, f.page, f.firstEmptyPage, f.txCache)
            && (f.firstEmptyPage == firstEmpty || f.page > End(pages))
            && (!f.ok ==> fails(f.page) && Needs(pages, page, firstEmpty, Min(CACHE_SIZE, last), f.page))
    decreases NO_EMPTY_PAGE - page
  {
    hide Caches, End, Range;
    var enough := Min(CACHE_SIZE, last);
    if |cache| < enough && page < firstEmpty {
      OneNeeded(pages, fails, page, firstEmpty, enough, cache);
      if !fails(page) {
        if pages(page) == [] {
          assert cache + pages(page) == cache;
          assert Filling(pages, fails, cache, page, firstEmpty, last) == Filled(cache, page + 1, page, true);
          EndsHere(pages, page, firstEmpty, cache);
        } else {
          FillEnds(pages, fails, cache + pages(page), page + 1, firstEmpty, last);
        }
      }
    }
  }

  lemma {:induction false} EndsHere<T>(pages: Pages<T>, page: nat, firstEmpty: nat, cache: seq<T>)
    requires Caches(pages, page, firstEmpty, cache) && page < firstEmpty && pages(page) == []
    ensures page == End(pages)
  {
    NextPage(pages, page, firstEmpty);
  }

  /** A `get` breaks off while filling at page `k`: the first page from the next uncached one on that fails,
      needed although the cache is not full. */
  ghost predicate BreaksOffAt<T>(pages: Pages<T>, fails: nat -> bool, st: State<T>, last: nat, k: nat) {
    && Needs(pages, st.nextUncachedPage, st.firstEmptyPage, Min(CACHE_SIZE, last), k)
    && fails(k) && forall j :: st.nextUncachedPage <= j < k ==> !fails(j)
  }

  /** It breaks off after at least one page has been added. */
  ghost predicate Corrupts<T>(pages: Pages<T>, fails: nat -> bool, st: State<T>, last: nat) {
    exists k :: k > st.nextUncachedPage && BreaksOffAt(pages, fails, st, last, k)
  }

  lemma {:induction false} ValidCaches<T>(pages: Pages<T>, st: State<T>)
    requires Valid(pages, st) && st.firstEmptyPage <= NO_EMPTY_PAGE
    ensures Caches(pages, st.nextUncachedPage, st.firstEmptyPage, st.txCache)
  {
  }

  /** Corruption is a fill that fails on a page that is not its first. */
  lemma {:induction false} CorruptsExactly<T>(pages: Pages<T>, fails: nat -> bool, st: State<T>, last: nat)
    requires Valid(pages, st) && st.firstEmptyPage <= NO_EMPTY_PAGE
    ensures var f := Filling(pages, fails, st.txCache, st.nextUncachedPage, st.firstEmptyPage, last);
            Corrupts(pages, fails, st, last) <==> !f.ok && f.page > st.nextUncachedPage
  {
    var page, firstEmpty := st.nextUncachedPage, st.firstEmptyPage;
    var f := Filling(pages, fails, st.txCache, page, firstEmpty, last);
    ValidCaches(pages, st);
    FillEnds(pages, fails, st.txCache, page, firstEmpty, last);
    FillSucceedsExactly(pages, fails, st.txCache, page, firstEmpty, last);
    hide Caches, Valid, End, Range, Filling, Needs;
    if !f.ok {
      assert BreaksOffAt(pages, fails, st, last, f.page);
    }
    if Corrupts(pages, fails, st, last) {
      var k :| k > page && BreaksOffAt(pages, fails, st, last, k);
      assert f.page <= k;
    }
  }

  /** A `get` keeps a valid cache valid if and only if it does not break off after adding pages. If it does,
      the added pages will be served twice. */
  lemma {:induction false} GetKeepsValidExactly<T>(pages: Pages<T>, fails: nat -> bool, st: State<T>, first: nat,
                                                   last: nat)
    requires Valid(pages, st) && st.firstEmptyPage <= NO_EMPTY_PAGE && first <= last
    ensures var st' := Getting(pages, fails, st, first, last).0;
            && (Valid(pages, st') <==> !Corrupts(pages, fails, st, last))
            && (Corrupts(pages, fails, st, last) ==> |View(pages, st')| > |Listing(pages)|)
  {
    var page := st.nextUncachedPage;
    var f := Filling(pages, fails, st.txCache, page, st.firstEmptyPage, last);
    var st' := Getting(pages, fails, st, first, last).0;
    hide End, Rest, Filling, Getting, Window, Range, Valid, Corrupts, Listing;
    ValidIsSane(pages, st);
    GetServesView(pages, fails, st, first, last);
    CorruptsExactly(pages, fails, st, last);
    ValidServesListing(pages, st);
    ValidServesListing(pages, st');
    if !f.ok {
      FailedFill(pages, fails, st.txCache, page, st.firstEmptyPage, last);
      AddedPages(pages, page, f.page);
    }
  }

  /** A valid cache answers exactly when no page needed for the request fails, and then with the slice of the
      server's list asked for. */
  lemma {:induction false} GetAnswersExactly<T>(pages: Pages<T>, fails: nat -> bool, st: State<T>, first: nat,
                                                last: nat)
    requires Valid(pages, st) && st.firstEmptyPage <= NO_EMPTY_PAGE && first <= last
    ensures Getting(pages, fails, st, first, last).1
         == if Quiet(pages, fails, st.nextUncachedPage, st.firstEmptyPage, last)
            then Served(Window(Listing(pages), first, last)) else Failed
  {
    var page, firstEmpty := st.nextUncachedPage, st.firstEmptyPage;
    var f := Filling(pages, fails, st.txCache, page, firstEmpty, last);
    ValidCaches(pages, st);
    ValidIsSane(pages, st);
    ValidServesListing(pages, st);
    GetServesView(pages, fails, st, first, last);
    FillKeepsSentinel(pages, fails, st.txCache, page, firstEmpty, last);
    FillEnds(pages, fails, st.txCache, page, firstEmpty, last);
    FillSucceedsExactly(pages, fails, st.txCache, page, firstEmpty, last);
    if f.ok {
      SpillSucceedsExactly(pages, fails, first, last, Window(f.txCache, first, last), f.txCache, f.page,
                           f.firstEmptyPage);
    }
    hide Caches, Valid, End, Range, Filling, Spilling, View, Listing, Window;
    QuietSplits(pages, fails, page, firstEmpty, f.page, f.firstEmptyPage, last, f.ok);
  }

  /** Quiet all the way means quiet while filling and quiet while spilling. */
  lemma {:induction false} QuietSplits<T>(pages: Pages<T>, fails: nat -> bool, page: nat, firstEmpty: nat,
                                          page': nat, firstEmpty': nat, last: nat, ok: bool)
    requires page <= page' && (firstEmpty' == firstEmpty || page' > End(pages))
    requires forall k :: page <= k < page' ==> !fails(k)
    requires ok <==> Quiet(pages, fails, page, firstEmpty, Min(CACHE_SIZE, last))
    ensures Quiet(pages, fails, page, firstEmpty, last) <==> ok && Quiet(pages, fails, page', firstEmpty', last)
  {
    hide End, Range;
    if Quiet(pages, fails, page, firstEmpty, last) {
      forall k | Needs(pages, page, firstEmpty, Min(CACHE_SIZE, last), k)
        ensures !fails(k)
      {
        assert Needs(pages, page, firstEmpty, last, k);
      }
      forall k | Needs(pages, page', firstEmpty', last, k)
        ensures !fails(k)
      {
        assert Needs(pages, page, firstEmpty, last, k);
      }
    }
    if ok && Quiet(pages, fails, page', firstEmpty', last) {
      forall k | Needs(pages, page, firstEmpty, last, k)
        ensures !fails(k)
      {
        if page' <= k {
          assert Needs(pages, page', firstEmpty', last, k);
        }
      }
    }
  }

  lemma {:induction false} ValidIsSane<T>(pages: Pages<T>, st: State<T>)
    requires Valid(pages, st)
    ensures Sane(pages, st)
  {
  }

  lemma {:induction false} AddedPages<T>(pages: Pages<T>, a: nat, b: nat)
    requires a <= b <= End(pages)
    ensures Range(pages, a, b) == [] <==> a == b
  {
    if a < b {
      EndFacts(pages, b - 1);
    }
  }

  /** Filling never outgrows the limit by more than one page. */
  lemma {:induction false} FillStaysBounded<T>(pages: Pages<T>, fails: nat -> bool, cache: seq<T>, page: nat,
                                               firstEmpty: nat, last: nat, maxPage: nat)
    requires firstEmpty <= NO_EMPTY_PAGE && |cache| < CACHE_SIZE + maxPage
    requires forall p :: |pages(p)| <= maxPage
    ensures |Filling(pages, fails, cache, page, firstEmpty, last).txCache| < CACHE_SIZE + maxPage
    decreases NO_EMPTY_PAGE - page
  {
    if |cache| < CACHE_SIZE && page < firstEmpty && |cache| < last && !fails(page) {
      if pages(page) == [] {
        FillStaysBounded(pages, fails, cache, page + 1, page, last, maxPage);
      } else {
        FillStaysBounded(pages, fails, cache + pages(page), page + 1, firstEmpty, last, maxPage);
      }
    }
  }

  // ----- series of calls -----

  /** A call `get(first, count)` and the pages for which the server fails while it is made. */
  datatype Call = Call(first: nat, count: nat, fails: nat -> bool)

  function Last(c: Call): nat {
    c.first + c.count
  }

  function Fresh<T>(): State<T> {
    State(0, NO_EMPTY_PAGE, [])
  }

  /** The cache after a series of calls, answered or not. */
  function After<T>(pages: Pages<T>, calls: seq<Call>): (r: State<T>)
    ensures r.firstEmptyPage <= NO_EMPTY_PAGE
  {
    if calls == [] then Fresh()
    else
      var before := After(pages, calls[..|calls| - 1]);
      var c := calls[|calls| - 1];
      GettingKeepsSentinel(pages, c.fails, before, c.first, Last(c));
      Getting(pages, c.fails, before, c.first, Last(c)).0
  }

  lemma {:induction false} SpillKeepsSentinel<T>(pages: Pages<T>, fails: nat -> bool, first: nat, last: nat,
                                                 result: seq<T>, fetched: nat, page: nat, firstEmpty: nat)
    requires firstEmpty <= NO_EMPTY_PAGE && first <= last
    ensures Spilling(pages, fails, first, last, result, fetched, page, firstEmpty).firstEmptyPage <= NO_EMPTY_PAGE
    decreases NO_EMPTY_PAGE - page
  {
    if page < firstEmpty && fetched < last && !fails(page) {
      if pages(page) == [] {
        SpillKeepsSentinel(pages, fails, first, last, result, fetched, page + 1, page);
      } else {
        var fetched' := fetched + |pages(page)|;
        SpillKeepsSentinel(pages, fails, first, last, result + Slice(pages(page), first, last, fetched'), fetched',
                           page + 1, firstEmpty);
      }
    }
  }

  lemma {:induction false} GettingKeepsSentinel<T>(pages: Pages<T>, fails: nat -> bool, st: State<T>, first: nat,
                                                   last: nat)
    requires st.firstEmptyPage <= NO_EMPTY_PAGE && first <= last
    ensures Getting(pages, fails, st, first, last).0.firstEmptyPage <= NO_EMPTY_PAGE
  {
    FillKeepsSentinel(pages, fails, st.txCache, st.nextUncachedPage, st.firstEmptyPage, last);
    var f := Filling(pages, fails, st.txCache, st.nextUncachedPage, st.firstEmptyPage, last);
    SpillKeepsSentinel(pages, fails, first, last, Window(f.txCache, first, last), |f.txCache|, f.page,
                       f.firstEmptyPage);
  }

  /** Call number `i` breaks off after adding pages to the cache as the earlier calls left it. */
  ghost predicate CorruptsAt<T>(pages: Pages<T>, calls: seq<Call>, i: nat)
    requires i < |calls|
  {
    Corrupts(pages, calls[i].fails, After(pages, calls[..i]), Last(calls[i]))
  }

  ghost predicate SomeCorrupts<T>(pages: Pages<T>, calls: seq<Call>) {
    exists i :: 0 <= i < |calls| && CorruptsAt(pages, calls, i)
  }

  lemma {:induction false} SomeCorruptsNext<T>(pages: Pages<T>, calls: seq<Call>)
    requires calls != []
    ensures var n := |calls| - 1;
            SomeCorrupts(pages, calls) <==> SomeCorrupts(pages, calls[..n]) || CorruptsAt(pages, calls, n)
  {
    hide Corrupts, After;
    var n := |calls| - 1;
    forall i | 0 <= i < n
      ensures CorruptsAt(pages, calls, i) <==> CorruptsAt(pages, calls[..n], i)
    {
      assert calls[..n][..i] == calls[..i];
    }
    if SomeCorrupts(pages, calls[..n]) {
      var i :| 0 <= i < n && CorruptsAt(pages, calls[..n], i);
      assert CorruptsAt(pages, calls, i);
    }
  }

  /** After any series of calls the cache is valid if and only if none of them corrupted it; a corrupted one
      never recovers: it goes on serving more than the list. */
  lemma {:induction false} RunStaysValidExactly<T>(pages: Pages<T>, calls: seq<Call>)
    ensures var st := After(pages, calls);
            && Sane(pages, st)
            && (!SomeCorrupts(pages, calls) ==> Valid(pages, st))
            && (SomeCorrupts(pages, calls) ==> |View(pages, st)| > |Listing(pages)| && !Valid(pages, st))
    decreases |calls|
  {
    hide End, Rest, Listing, Getting, Valid, Range, Sane, Corrupts, SomeCorrupts;
    var st := After(pages, calls);
    if calls == [] {
      FreshIsValid(pages);
      ValidIsSane(pages, st);
      NoneCorrupts(pages);
    } else {
      var n := |calls| - 1;
      var before, c := After(pages, calls[..n]), calls[n];
      RunStaysValidExactly(pages, calls[..n]);
      SomeCorruptsNext(pages, calls);
      ViewNeverShrinks(pages, c.fails, before, c.first, Last(c));
      if Valid(pages, before) {
        GetKeepsValidExactly(pages, c.fails, before, c.first, Last(c));
      }
      ValidServesListing(pages, st);
    }
  }

  lemma {:induction false} NoneCorrupts<T>(pages: Pages<T>)
    ensures !SomeCorrupts(pages, [])
  {
  }

  lemma {:induction false} ViewNeverShrinks<T>(pages: Pages<T>, fails: nat -> bool, st: State<T>, first: nat, last: nat)
    requires Sane(pages, st) && st.firstEmptyPage <= NO_EMPTY_PAGE && first <= last
    ensures var st' := Getting(pages, fails, st, first, last).0;
            Sane(pages, st') && |View(pages, st')| >= |View(pages, st)|
  {
    GetServesView(pages, fails, st, first, last);
    hide Getting, Filling, Rest, Range;
  }

  /** Refinement: after any series of calls none of which corrupted the cache, whatever the server did, the
      next one is answered if and only if no page it needs fails, and then with the slice asked for. */
  lemma {:induction false} EveryGetServesListing<T>(pages: Pages<T>, calls: seq<Call>, c: Call)
    requires !SomeCorrupts(pages, calls)
    ensures var st := After(pages, calls);
            Getting(pages, c.fails, st, c.first, Last(c)).1
              == if Quiet(pages, c.fails, st.nextUncachedPage, st.firstEmptyPage, Last(c))
                 then Served(Window(Listing(pages), c.first, Last(c))) else Failed
  {
    hide Getting, Window, Listing, Valid, SomeCorrupts, Quiet;
    RunStaysValidExactly(pages, calls);
    GetAnswersExactly(pages, c.fails, After(pages, calls), c.first, Last(c));
  }

  /** A server that always answers: every call of every series is served its slice. */
  lemma {:induction false} AnsweringServer<T>(pages: Pages<T>, calls: seq<Call>, c: Call)
    requires forall i, p :: 0 <= i < |calls| ==> !calls[i].fails(p)
    requires forall p :: !c.fails(p)
    ensures Getting(pages, c.fails, After(pages, calls), c.first, Last(c)).1
         == Served(Window(Listing(pages), c.first, Last(c)))
  {
    hide Getting, Window, Listing, Needs;
    assert !SomeCorrupts(pages, calls);
    EveryGetServesListing(pages, calls, c);
  }

  /** Whatever the server did, the cache holds fewer than 1024 entries plus one page. */
  lemma {:induction false} CacheStaysBounded<T>(pages: Pages<T>, calls: seq<Call>, maxPage: nat)
    requires forall p :: |pages(p)| <= maxPage
    ensures |After(pages, calls).txCache| < CACHE_SIZE + maxPage
    decreases |calls|
  {
    hide Filling, Spilling;
    if calls != [] {
      var n := |calls| - 1;
      var before, c := After(pages, calls[..n]), calls[n];
      CacheStaysBounded(pages, calls[..n], maxPage);
      FillStaysBounded(pages, c.fails, before.txCache, before.nextUncachedPage, before.firstEmptyPage, Last(c),
                       maxPage);
    }
  }

  lemma {:induction false} FreshIsValid<T>(pages: Pages<T>)
    ensures Valid(pages, Fresh<T>())
  {
    assert Range(pages, 0, 0) == [];
  }

  /** A two-page list, with a failure on the second page of the first request: the retry repeats page 0. */
  lemma {:induction false} RetryAfterFailureRepeats()
    ensures var pages: Pages<int> := p => if p == 0 then [1] else if p == 1 then [2] else [];
            var (st, r) := Getting(pages, p => p == 1, Fresh<int>(), 0, 10);
            r.Failed? && Getting(pages, p => false, st, 0, 10).1 == Served([1, 1, 2])
  {
    var pages: Pages<int> := p => if p == 0 then [1] else if p == 1 then [2] else [];
    var fails: nat -> bool := p => p == 1;
    assert Filling(pages, fails, [1], 1, NO_EMPTY_PAGE, 10) == Filled([1], 1, NO_EMPTY_PAGE, false);
    var st := Getting(pages, fails, Fresh<int>(), 0, 10).0;
    assert st == State(0, NO_EMPTY_PAGE, [1]);
    var none: nat -> bool := p => false;
    assert Filling(pages, none, [1, 1, 2], 2, NO_EMPTY_PAGE, 10) == Filled([1, 1, 2], 3, 2, true);
    assert [1, 1] + [2] == [1, 1, 2] && [1] + [1] == [1, 1];
    assert Filling(pages, none, [1, 1], 1, NO_EMPTY_PAGE, 10) == Filled([1, 1, 2], 3, 2, true);
    assert Filling(pages, none, [1], 0, NO_EMPTY_PAGE, 10) == Filled([1, 1, 2], 3, 2, true);
  }

  // ----- the class -----

  class Cache<T> {
    var nextUncachedPage: nat
    var firstEmptyPage: nat
    var txCache: seq<T>

    constructor ()
      ensures Fields() == Fresh<T>()
    {
      nextUncachedPage, firstEmptyPage, txCache := 0, NO_EMPTY_PAGE, [];
    }

    ghost function Fields(): State<T>
      reads this
    {
      State(nextUncachedPage, firstEmptyPage, txCache)
    }

    predicate CacheFull()
      reads this
    {
      |txCache| >= CACHE_SIZE
    }

    /** `fetch`: asks the server for one page and appends the wanted part of it; `ok` is false if the call
        to the server raised an exception. */
    method Fetch(pages: Pages<T>, fails: nat -> bool, first: nat, last: nat, page: nat, fetched: nat, out: seq<T>)
      returns (ok: bool, page': nat, fetched': nat, out': seq<T>)
      requires first <= last
      modifies this`firstEmptyPage
      ensures ok == !fails(page)
      ensures !ok ==> page' == page && fetched' == fetched && out' == out && firstEmptyPage == old(firstEmptyPage)
      ensures ok ==> page' == page + 1 && fetched' == fetched + |pages(page)|
                     && firstEmptyPage == if pages(page) == [] then page else old(firstEmptyPage)
      ensures ok && pages(page) == [] ==> out' == out
      ensures ok && pages(page) != [] ==> out' == out + Slice(pages(page), first, last, fetched')
    {
      page', fetched', out' := page, fetched, out;
      if fails(page) {
        return false, page', fetched', out';
      }
      var txs := pages(page);
      if |txs| == 0 {
        firstEmptyPage := page;
      } else {
        fetched' := fetched + |txs|;
        var begin := |txs| - (if first >= fetched' then 0 else Min(fetched' - first, |txs|));
        var end := |txs| - (if last >= fetched' then 0 else Min(fetched' - last, |txs|));
        out' := out + txs[begin..end];
      }
      page' := page + 1;
      ok := true;
    }

    /** The first loop of `get`: caches pages until the cache is full or `last` has been cached. */
    method FillCache(last: nat, pages: Pages<T>, fails: nat -> bool) returns (ok: bool, page: nat)
      requires last <= UINT32_MAX && firstEmptyPage <= NO_EMPTY_PAGE
      requires forall p :: CACHE_SIZE + |pages(p)| <= UINT32_MAX
      modifies this`firstEmptyPage, this`txCache
      ensures Filled(txCache, page, firstEmptyPage, ok)
           == Filling(pages, fails, old(txCache), old(nextUncachedPage), old(firstEmptyPage), last)
    {
      var fetched: nat;
      fetched, page, ok := |txCache|, nextUncachedPage, true;
      while !CacheFull() && page < firstEmptyPage && fetched < last
        invariant ok && fetched == |txCache| && firstEmptyPage <= NO_EMPTY_PAGE
        invariant Filling(pages, fails, old(txCache), old(nextUncachedPage), old(firstEmptyPage), last)
               == Filling(pages, fails, txCache, page, firstEmptyPage, last)
        decreases NO_EMPTY_PAGE - page
      {
        WholeSlice(pages(page), fetched + |pages(page)|);
        var out: seq<T>;
        ok, page, fetched, out := Fetch(pages, fails, 0, UINT32_MAX, page, fetched, txCache);
        if !ok {
          return;
        }
        txCache := out;
      }
    }

    /** `get`. Pages are small enough for list positions to stay below 2^32. */
    method Get(first: nat, count: nat, pages: Pages<T>, fails: nat -> bool) returns (r: Outcome<T>)
      requires first + count <= UINT32_MAX && firstEmptyPage <= NO_EMPTY_PAGE
      requires forall p :: CACHE_SIZE + |pages(p)| <= UINT32_MAX
      modifies this
      ensures (Fields(), r) == Getting(pages, fails, old(Fields()), first, first + count)
    {
      hide Filling, Slice;
      var last := first + count;
      FillKeepsSentinel(pages, fails, txCache, nextUncachedPage, firstEmptyPage, last);
      var ok, page: nat := FillCache(last, pages, fails);
      if !ok {
        return Failed;
      }
      nextUncachedPage := page;
      var fetched: nat := |txCache|;
      var result := txCache[Min(first, |txCache|)..Min(last, |txCache|)];
      ghost var spilled := Spilling(pages, fails, first, last, result, fetched, page, firstEmptyPage);
      ghost var kept := Fields();
      while page < firstEmptyPage && fetched < last
        invariant txCache == kept.txCache && nextUncachedPage == kept.nextUncachedPage
        invariant firstEmptyPage <= NO_EMPTY_PAGE
        invariant spilled == Spilling(pages, fails, first, last, result, fetched, page, firstEmptyPage)
        decreases NO_EMPTY_PAGE - page
      {
        ok, page, fetched, result := Fetch(pages, fails, first, last, page, fetched, result);
        if !ok {
          return Failed;
        }
      }
      return Served(result);
    }
  }
}
