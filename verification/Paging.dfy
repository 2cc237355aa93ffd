/** Reading a long listing page by page: the in-memory store continues from an
    offset, the job table from the key of the last job returned. */
module Paging {
  import opened Records
  import opened Options
  import opened Sorting
  import opened Trail
  import opened Repositories
  import TextOrder

  const DEFAULT_PAGE_SIZE := 50
  const MAX_PAGE_SIZE := 200

  /** Sizes out of range fall back to the default. */
  function PageSize(requested: int): (n: nat)
    ensures 1 <= n <= 200 && (1 <= requested <= 200 ==> n == requested) && (requested < 1 || requested > 200 ==> n == 50)
  {
    if requested <= 0 || requested > MAX_PAGE_SIZE then DEFAULT_PAGE_SIZE else requested
  }

  /** The jobs of one page, and the token of the next, "" if there is none. */
  datatype Page = Page(jobs: seq<Job>, nextToken: string)

  // Oldest first, by ID among jobs of the same age.

  function ByAge(): (Job, Job) -> bool { (a: Job, b: Job) => Before(KeyOf(a), KeyOf(b)) }

  predicate Matches(filter: Option<State>, j: Job) { filter.None? || j.state == filter.value }

  function MatchesState(filter: Option<State>): Job -> bool { (j: Job) => Matches(filter, j) }

  /** The whole listing that the pages are cut from. */
  ghost predicate Ordered(listing: seq<Job>, jobs: map<string, Job>, keep: Job -> bool)
  {
    Lists(listing, jobs, keep) && Increasing(listing)
  }

  ghost predicate Increasing(js: seq<Job>)
  {
    forall i, k :: 0 <= i < k < |js| ==> Before(KeyOf(js[i]), KeyOf(js[k]))
  }

  lemma AgeIsOrder(js: seq<Job>)
    requires DistinctBy(js, JobId)
    ensures StrictOrderOn(ByAge(), js)
  {
    forall a | a in js ensures !ByAge()(a, a) { BeforeIrreflexive(KeyOf(a)); }
    forall a, b, c | a in js && b in js && c in js && ByAge()(a, b) && ByAge()(b, c) ensures ByAge()(a, c) {
      BeforeTransitive(KeyOf(a), KeyOf(b), KeyOf(c));
    }
    forall a, b | a in js && b in js && a != b ensures ByAge()(a, b) || ByAge()(b, a) {
      assert JobId(a) != JobId(b);
      BeforeTotal(KeyOf(a), KeyOf(b));
    }
  }

  lemma SortedIncreasing(js: seq<Job>)
    requires DistinctBy(js, JobId)
    ensures Sorted(js, ByAge()) <==> Increasing(js)
  {
    forall i, k | 0 <= i < k < |js| ensures !Before(KeyOf(js[k]), KeyOf(js[i])) <==> Before(KeyOf(js[i]), KeyOf(js[k])) {
      assert JobId(js[i]) != JobId(js[k]);
      BeforeTotal(KeyOf(js[i]), KeyOf(js[k]));
      if Before(KeyOf(js[i]), KeyOf(js[k])) && Before(KeyOf(js[k]), KeyOf(js[i])) {
        BeforeTransitive(KeyOf(js[i]), KeyOf(js[k]), KeyOf(js[i]));
        BeforeIrreflexive(KeyOf(js[i]));
        assert false;
      }
    }
    assert Increasing(js) ==> Sorted(js, ByAge());
    if Sorted(js, ByAge()) {
      forall i, k | 0 <= i < k < |js| ensures Before(KeyOf(js[i]), KeyOf(js[k])) {
        assert !ByAge()(js[k], js[i]);
      }
    }
  }

  /** A store has one listing for each filter. */
  lemma OrderedUnique(a: seq<Job>, b: seq<Job>, jobs: map<string, Job>, keep: Job -> bool)
    requires Ordered(a, jobs, keep) && Ordered(b, jobs, keep)
    ensures a == b
  {
    ListingsAgree(a, b, jobs, keep);
    AgeIsOrder(a);
    SortedIncreasing(a);
    SortedIncreasing(b);
    SortedUnique(a, b, ByAge());
  }

  lemma SortOrders(found: seq<Job>, jobs: map<string, Job>, keep: Job -> bool)
    requires Lists(found, jobs, keep)
    ensures Ordered(Sort(found, ByAge()), jobs, keep)
  {
    AgeIsOrder(found);
    SortSorted(found, ByAge());
    ListsSorted(found, jobs, keep, ByAge());
    SortedIncreasing(Sort(found, ByAge()));
  }

  lemma {:induction false} FilterIncreasing(js: seq<Job>, p: Job -> bool)
    requires Increasing(js)
    ensures Increasing(Filter(js, p))
  {
    if js != [] {
      var init := js[..|js| - 1];
      FilterIncreasing(init, p);
      FilterElements(init, p);
      forall x | x in Filter(init, p) ensures Before(KeyOf(x), KeyOf(js[|js| - 1])) {
        var i :| 0 <= i < |init| && init[i] == x;
        assert js[i] == x;
      }
    }
  }

  /** A listing has exactly the stored jobs in the state asked for, or all of
      them, oldest first and by ID among jobs of the same age. */
  lemma ListingMeans(listing: seq<Job>, jobs: map<string, Job>, filter: Option<State>)
    requires Ordered(listing, jobs, MatchesState(filter))
    ensures forall j :: j in listing <==>
      j.id in jobs && jobs[j.id] == j && (filter.Some? ==> j.state == filter.value)
    ensures forall i, k :: 0 <= i < k < |listing| ==>
      && listing[i].createdAt <= listing[k].createdAt
      && (listing[i].createdAt == listing[k].createdAt ==> TextOrder.Less(listing[i].id, listing[k].id))
  {
  }

  // Tokens.

  /** The library encodings a token is built from: URL-safe base64, decimal
      integers, and timestamps. */
  datatype Codec = Codec(
    pack: string -> string, unpack: string -> Option<string>,
    showInt: int -> string, readInt: string -> Option<int>,
    showTime: int -> string, readTime: string -> Option<int>)
  {
    /** What the libraries promise of them. */
    ghost predicate Faithful()
    {
      && (forall s :: unpack(pack(s)) == Some(s) && (s != "" ==> pack(s) != ""))
      && (forall n :: readInt(showInt(n)) == Some(n) && showInt(n) != "")
      && (forall t :: readTime(showTime(t)) == Some(t) && '|' !in showTime(t))
    }
  }

  function EncodeOffset(c: Codec, offset: int): string { c.pack(c.showInt(offset)) }

  function DecodeOffset(c: Codec, token: string): Option<int>
  {
    match c.unpack(token)
    case None => None
    case Some(raw) => c.readInt(raw)
  }

  function EncodeKey(c: Codec, k: Key): string { c.pack(c.showTime(k.createdAt) + "|" + k.id) }

  /** The text before and after the first bar. */
  function SplitAtBar(s: string): Option<(string, string)>
  {
    if s == "" then None
    else if s[0] == '|' then Some(("", s[1..]))
    else
      match SplitAtBar(s[1..])
      case None => None
      case Some((left, right)) => Some(([s[0]] + left, right))
  }

  function DecodeKey(c: Codec, token: string): Option<Key>
  {
    match c.unpack(token)
    case None => None
    case Some(raw) =>
      match SplitAtBar(raw)
      case None => None
      case Some((left, right)) =>
        match c.readTime(left)
        case None => None
        case Some(t) => Some(Key(t, right))
  }

  lemma {:induction false} SplitJoined(left: string, right: string)
    requires '|' !in left
    ensures SplitAtBar(left + "|" + right) == Some((left, right))
  {
    var s := left + "|" + right;
    if left == "" {
      assert s[1..] == right;
    } else {
      assert s[1..] == left[1..] + "|" + right;
      SplitJoined(left[1..], right);
      assert left == [left[0]] + left[1..];
    }
  }

  /** A key survives its token, whatever characters the ID is made of. */
  lemma TokensRoundTrip(c: Codec, k: Key, offset: int)
    requires c.Faithful()
    ensures EncodeKey(c, k) != "" && DecodeKey(c, EncodeKey(c, k)) == Some(k)
    ensures EncodeOffset(c, offset) != "" && DecodeOffset(c, EncodeOffset(c, offset)) == Some(offset)
  {
    SplitJoined(c.showTime(k.createdAt), k.id);
  }

  // One page. No page is returned for a token that cannot be read.

  function Least(a: int, b: int): int { if a < b then a else b }

  function OffsetPage(c: Codec, listing: seq<Job>, offset: int, requested: int): Page
  {
    var from := if offset < 0 || offset > |listing| then |listing| else offset;
    var to := Least(from + PageSize(requested), |listing|);
    Page(listing[from..to], if to < |listing| then EncodeOffset(c, to) else "")
  }

  function ListByOffset(c: Codec, listing: seq<Job>, token: string, requested: int): Option<Page>
  {
    if token == "" then Some(OffsetPage(c, listing, 0, requested))
    else
      match DecodeOffset(c, token)
      case None => None
      case Some(offset) => Some(OffsetPage(c, listing, offset, requested))
  }

  predicate IsAfter(after: Option<Key>, j: Job) { after.None? || Before(after.value, KeyOf(j)) }

  function AfterKey(after: Option<Key>): Job -> bool { (j: Job) => IsAfter(after, j) }

  /** The first rows, with a token if there are more. */
  function PageOf(c: Codec, rows: seq<Job>, size: nat): Page
    requires size > 0
  {
    if |rows| > size then Page(rows[..size], EncodeKey(c, KeyOf(rows[size - 1]))) else Page(rows, "")
  }

  function KeysetPage(c: Codec, listing: seq<Job>, after: Option<Key>, requested: int): Page
  {
    PageOf(c, Filter(listing, AfterKey(after)), PageSize(requested))
  }

  function ListByKey(c: Codec, listing: seq<Job>, token: string, requested: int): Option<Page>
  {
    if token == "" then Some(KeysetPage(c, listing, None, requested))
    else
      match DecodeKey(c, token)
      case None => None
      case Some(k) => Some(KeysetPage(c, listing, Some(k), requested))
  }

  /** Everything that matches, in order. */
  method Gather(jobs: map<string, Job>, keep: Job -> bool) returns (all: seq<Job>)
    requires Keyed(jobs)
    ensures Ordered(all, jobs, keep)
  {
    var found := Collect(jobs, keep);
    SortOrders(found, jobs, keep);
    all := Sort(found, ByAge());
  }

  method CutAtOffset(c: Codec, all: seq<Job>, token: string, requested: int) returns (page: Option<Page>)
    ensures page == ListByOffset(c, all, token, requested)
  {
    var offset := 0;
    if token != "" {
      match DecodeOffset(c, token) {
        case None => return None;
        case Some(n) => offset := n;
      }
    }
    if offset < 0 || offset > |all| { offset := |all|; }
    var size := requested;
    if size <= 0 || size > MAX_PAGE_SIZE { size := DEFAULT_PAGE_SIZE; }
    var end := offset + size;
    if end > |all| { end := |all|; }
    var next := "";
    if end < |all| { next := EncodeOffset(c, end); }
    page := Some(Page(all[offset..end], next));
  }

  /** A page of the in-memory store. */
  method ListInMemory(repo: MemoryRepository, c: Codec, filter: Option<State>, token: string, requested: int)
    returns (page: Option<Page>)
    requires repo.Valid()
    ensures forall listing :: Ordered(listing, repo.jobsById, MatchesState(filter)) ==>
      page == ListByOffset(c, listing, token, requested)
  {
    var all := Gather(repo.jobsById, MatchesState(filter));
    page := CutAtOffset(c, all, token, requested);
    forall listing | Ordered(listing, repo.jobsById, MatchesState(filter)) ensures listing == all {
      OrderedUnique(listing, all, repo.jobsById, MatchesState(filter));
    }
  }

  lemma FilterOrdered(listing: seq<Job>, jobs: map<string, Job>, keep: Job -> bool, p: Job -> bool, both: Job -> bool)
    requires Ordered(listing, jobs, keep) && forall j :: both(j) <==> keep(j) && p(j)
    ensures Ordered(Filter(listing, p), jobs, both)
  {
    FilterElements(listing, p);
    FilterDistinct(listing, p, JobId);
    FilterIncreasing(listing, p);
  }

  /** The rows that match and come after the key, in order, up to a limit.
      Selecting them before ordering makes no difference. */
  method Query(jobs: map<string, Job>, filter: Option<State>, after: Option<Key>, limit: nat)
    returns (rows: seq<Job>)
    requires Keyed(jobs)
    ensures forall listing :: Ordered(listing, jobs, MatchesState(filter)) ==>
      var rest := Filter(listing, AfterKey(after)); rows == rest[..Least(limit, |rest|)]
  {
    var selected := (j: Job) => Matches(filter, j) && IsAfter(after, j);
    var found := Gather(jobs, selected);
    rows := found[..Least(limit, |found|)];
    forall listing | Ordered(listing, jobs, MatchesState(filter)) ensures Filter(listing, AfterKey(after)) == found {
      FilterOrdered(listing, jobs, MatchesState(filter), AfterKey(after), selected);
      OrderedUnique(found, Filter(listing, AfterKey(after)), jobs, selected);
    }
  }

  /** One row more than the page is all it takes. */
  lemma CutIsPage(c: Codec, listing: seq<Job>, after: Option<Key>, requested: int, rows: seq<Job>)
    requires var rest := Filter(listing, AfterKey(after)); rows == rest[..Least(PageSize(requested) + 1, |rest|)]
    ensures PageOf(c, rows, PageSize(requested)) == KeysetPage(c, listing, after, requested)
  {
    var rest, n := Filter(listing, AfterKey(after)), PageSize(requested);
    if |rest| > n { assert rows[..n] == rest[..n]; }
  }

  /** A page of the table. One row more than asked for shows whether there is a
      next page. */
  method ListInTable(repo: JobTable, c: Codec, filter: Option<State>, token: string, requested: int)
    returns (page: Option<Page>)
    requires Keyed(repo.rows)
    ensures forall listing :: Ordered(listing, repo.rows, MatchesState(filter)) ==>
      page == ListByKey(c, listing, token, requested)
  {
    var size := requested;
    if size <= 0 || size > MAX_PAGE_SIZE { size := DEFAULT_PAGE_SIZE; }
    var after: Option<Key> := None;
    if token != "" {
      after := DecodeKey(c, token);
      if after.None? { return None; }
    }
    var rows := Query(repo.rows, filter, after, size + 1);
    var cut := Page(rows, "");
    if |rows| > size { cut := Page(rows[..size], EncodeKey(c, KeyOf(rows[size - 1]))); }
    page := Some(cut);
    forall listing | Ordered(listing, repo.rows, MatchesState(filter)) ensures cut == KeysetPage(c, listing, after, requested) {
      CutIsPage(c, listing, after, requested, rows);
    }
  }

  // Walks.

  ghost function NextToken(pages: seq<Page>): string { if pages == [] then "" else pages[|pages| - 1].nextToken }

  /** `pages` were read one after the other, each with the token of the one
      before. What a token fetches may depend on when it is used. */
  ghost predicate Walk(pages: seq<Page>, fetch: (nat, string) -> Option<Page>)
  {
    pages == [] ||
    var n := |pages| - 1;
    && Walk(pages[..n], fetch) && (n > 0 ==> NextToken(pages[..n]) != "")
    && fetch(n, NextToken(pages[..n])) == Some(pages[n])
  }

  ghost function Collected(pages: seq<Page>): seq<Job>
  {
    if pages == [] then [] else Collected(pages[..|pages| - 1]) + pages[|pages| - 1].jobs
  }

  ghost predicate Done(pages: seq<Page>) { pages != [] && NextToken(pages) == "" }

  type Sizes = nat -> int
  type Listings = nat -> seq<Job>

  ghost function OffsetReads(c: Codec, at: Listings, sizes: Sizes): (nat, string) -> Option<Page>
  {
    (i: nat, token: string) => ListByOffset(c, at(i), token, sizes(i))
  }

  ghost function KeyReads(c: Codec, at: Listings, sizes: Sizes): (nat, string) -> Option<Page>
  {
    (i: nat, token: string) => ListByKey(c, at(i), token, sizes(i))
  }

  /** A page that continues the listing from position `m`. */
  ghost predicate Continues(page: Page, listing: seq<Job>, m: nat)
  {
    var k := m + |page.jobs|;
    && k <= |listing| && page.jobs == listing[m..k]
    && (m < |listing| ==> m < k) && (page.nextToken == "" <==> k == |listing|)
  }

  lemma OffsetPageContinues(c: Codec, listing: seq<Job>, m: nat, requested: int)
    requires c.Faithful() && m <= |listing|
    ensures var page := OffsetPage(c, listing, m, requested);
      && Continues(page, listing, m)
      && (page.nextToken != "" ==> page.nextToken == EncodeOffset(c, m + |page.jobs|))
  {
    TokensRoundTrip(c, Key(0, ""), Least(m + PageSize(requested), |listing|));
  }

  lemma Extended(got: seq<Job>, page: Page, listing: seq<Job>)
    requires got <= listing && Continues(page, listing, |got|)
    ensures got + page.jobs <= listing && (page.nextToken == "" ==> got + page.jobs == listing)
  {
    assert got + page.jobs == listing[..|got| + |page.jobs|];
  }

  /** Reading on from the offset that has been reached. */
  lemma OffsetStep(c: Codec, listing: seq<Job>, got: seq<Job>, token: string, requested: int, page: Page)
    requires c.Faithful() && got <= listing && ListByOffset(c, listing, token, requested) == Some(page)
    requires if token == "" then got == [] else token == EncodeOffset(c, |got|) && |got| < |listing|
    ensures got + page.jobs <= listing && (token != "" ==> page.jobs != [])
    ensures if page.nextToken == "" then got + page.jobs == listing
            else |got| + |page.jobs| < |listing| && page.nextToken == EncodeOffset(c, |got| + |page.jobs|)
  {
    TokensRoundTrip(c, Key(0, ""), |got|);
    OffsetPageContinues(c, listing, |got|, requested);
    Extended(got, page, listing);
  }

  ghost predicate OnlyAppended(at: Listings, i: nat) { at(i) <= at(i + 1) }

  lemma PrefixOfGrown(got: seq<Job>, was: seq<Job>, now: seq<Job>)
    requires got <= was <= now
    ensures got <= now && |was| <= |now|
  {
  }

  /** An offset walk over a listing to which jobs are only ever appended, or
      which does not change at all, has read the listing up to its token; it has
      read all of it when it is done, and gets there in at most one page per job
      and one. */
  lemma {:induction false} OffsetWalkReads(c: Codec, at: Listings, sizes: Sizes, pages: seq<Page>)
    requires c.Faithful() && Walk(pages, OffsetReads(c, at, sizes)) && pages != []
    requires forall i: nat :: OnlyAppended(at, i)
    ensures var n, got := |pages| - 1, Collected(pages);
      && got <= at(n) && n <= |got|
      && (if Done(pages) then got == at(n)
          else |got| < |at(n)| && NextToken(pages) == EncodeOffset(c, |got|))
  {
    var n := |pages| - 1;
    var before, token := Collected(pages[..n]), NextToken(pages[..n]);
    if n > 0 {
      OffsetWalkReads(c, at, sizes, pages[..n]);
      assert OnlyAppended(at, n - 1);
      PrefixOfGrown(before, at(n - 1), at(n));
    }
    OffsetStep(c, at(n), before, token, sizes(n), pages[n]);
  }

  // Walks by key.

  /** In an increasing listing, what follows a job's key is what follows the job. */
  lemma {:induction false} AfterIsSuffix(listing: seq<Job>, m: nat)
    requires Increasing(listing) && 0 < m <= |listing|
    ensures Filter(listing, AfterKey(Some(KeyOf(listing[m - 1])))) == listing[m..]
  {
    var k := Some(KeyOf(listing[m - 1]));
    if m == |listing| {
      forall i | 0 <= i < |listing| ensures !IsAfter(k, listing[i]) {
        BeforeIrreflexive(k.value);
        if IsAfter(k, listing[i]) {
          BeforeTransitive(KeyOf(listing[i]), k.value, KeyOf(listing[i]));
          BeforeIrreflexive(KeyOf(listing[i]));
          assert false;
        }
      }
      FilterNoneAfter(listing, 0, AfterKey(k));
      assert listing[..0] == [];
    } else {
      AfterIsSuffix(listing[..|listing| - 1], m);
    }
  }

  lemma {:induction false} FilterEverything<T(!new)>(s: seq<T>, p: T -> bool)
    requires forall x :: x in s ==> p(x)
    ensures Filter(s, p) == s
  {
    if s != [] {
      FilterEverything(s[..|s| - 1], p);
      assert s == s[..|s| - 1] + [s[|s| - 1]];
    }
  }

  lemma KeysetPageContinues(c: Codec, listing: seq<Job>, m: nat, requested: int)
    requires c.Faithful() && Increasing(listing) && m <= |listing|
    ensures var page := KeysetPage(c, listing, if m == 0 then None else Some(KeyOf(listing[m - 1])), requested);
      && Continues(page, listing, m)
      && (page.nextToken != "" ==> page.nextToken == EncodeKey(c, KeyOf(listing[m + |page.jobs| - 1])))
  {
    if m == 0 {
      FilterEverything(listing, AfterKey(None));
    } else {
      AfterIsSuffix(listing, m);
    }
    var n := PageSize(requested);
    if |listing| - m > n { TokensRoundTrip(c, KeyOf(listing[m..][n - 1]), 0); }
  }

  /** Reading on from the key that has been reached. */
  lemma KeyStep(c: Codec, all: seq<Job>, got: seq<Job>, token: string, requested: int, page: Page)
    requires c.Faithful() && Increasing(all) && got <= all && ListByKey(c, all, token, requested) == Some(page)
    requires if token == "" then got == [] else 0 < |got| < |all| && token == EncodeKey(c, KeyOf(all[|got| - 1]))
    ensures got + page.jobs <= all && (token != "" ==> page.jobs != [])
    ensures var m := |got| + |page.jobs|;
      if page.nextToken == "" then got + page.jobs == all
      else 0 < m < |all| && page.nextToken == EncodeKey(c, KeyOf(all[m - 1]))
  {
    if token != "" { TokensRoundTrip(c, KeyOf(all[|got| - 1]), 0); }
    KeysetPageContinues(c, all, |got|, requested);
    Extended(got, page, all);
  }

  /** While the listing does not change, a walk by key reads it in order, each
      job once, and all of it when it is done. */
  lemma {:induction false} KeyWalkReads(c: Codec, all: seq<Job>, sizes: Sizes, pages: seq<Page>)
    requires c.Faithful() && Increasing(all) && pages != []
    requires Walk(pages, KeyReads(c, (i: nat) => all, sizes))
    ensures var n, got := |pages| - 1, Collected(pages);
      && got <= all && n <= |got|
      && (if Done(pages) then got == all
          else 0 < |got| < |all| && NextToken(pages) == EncodeKey(c, KeyOf(all[|got| - 1])))
  {
    var n := |pages| - 1;
    var before := Collected(pages[..n]);
    if n > 0 { KeyWalkReads(c, all, sizes, pages[..n]); }
    assert ListByKey(c, all, NextToken(pages[..n]), sizes(n)) == Some(pages[n]);
    KeyStep(c, all, before, NextToken(pages[..n]), sizes(n), pages[n]);
    assert Collected(pages) == before + pages[n].jobs;
  }

  /** Both schemes, whatever the page sizes, deliver the same jobs in the same
      order: the listing itself. */
  lemma WalksAgree(c: Codec, all: seq<Job>, sizes: Sizes, others: Sizes, byOffset: seq<Page>, byKey: seq<Page>)
    requires c.Faithful() && Increasing(all)
    requires Walk(byOffset, OffsetReads(c, (i: nat) => all, sizes)) && Done(byOffset)
    requires Walk(byKey, KeyReads(c, (i: nat) => all, others)) && Done(byKey)
    ensures Collected(byOffset) == Collected(byKey) == all
  {
    OffsetWalkReads(c, (i: nat) => all, sizes, byOffset);
    KeyWalkReads(c, all, others, byKey);
  }

  /** A walk by offset over an unchanging listing can be continued from wherever
      it is to its end. */
  lemma {:induction false} OffsetWalkCompletes(c: Codec, all: seq<Job>, sizes: Sizes, pages: seq<Page>) returns (done: seq<Page>)
    requires c.Faithful() && Walk(pages, OffsetReads(c, (i: nat) => all, sizes)) && |pages| <= |all| + 1
    ensures Walk(done, OffsetReads(c, (i: nat) => all, sizes)) && Done(done) && pages <= done && Collected(done) == all
    decreases |all| + 1 - |pages|
  {
    var n := |pages|;
    if pages != [] {
      OffsetWalkReads(c, (i: nat) => all, sizes, pages);
      TokensRoundTrip(c, Key(0, ""), |Collected(pages)|);
    }
    if Done(pages) {
      done := pages;
    } else {
      var page := ListByOffset(c, all, NextToken(pages), sizes(n)).value;
      assert (pages + [page])[..n] == pages;
      done := OffsetWalkCompletes(c, all, sizes, pages + [page]);
    }
  }

  /** And so can a walk by key. */
  lemma {:induction false} KeyWalkCompletes(c: Codec, all: seq<Job>, sizes: Sizes, pages: seq<Page>) returns (done: seq<Page>)
    requires c.Faithful() && Increasing(all) && Walk(pages, KeyReads(c, (i: nat) => all, sizes)) && |pages| <= |all| + 1
    ensures Walk(done, KeyReads(c, (i: nat) => all, sizes)) && Done(done) && pages <= done && Collected(done) == all
    decreases |all| + 1 - |pages|
  {
    var n := |pages|;
    if pages != [] {
      KeyWalkReads(c, all, sizes, pages);
      if !Done(pages) { TokensRoundTrip(c, KeyOf(all[|Collected(pages)| - 1]), 0); }
    }
    if Done(pages) {
      done := pages;
    } else {
      var page := ListByKey(c, all, NextToken(pages), sizes(n)).value;
      assert (pages + [page])[..n] == pages;
      done := KeyWalkCompletes(c, all, sizes, pages + [page]);
    }
  }

  // Walks by key while jobs come, go and change.

  ghost predicate HasKey(js: seq<Job>, k: Key) { exists j :: j in js && KeyOf(j) == k }

  /** Where a walk stands: what it has read is in order, and its token is the
      key of the last job read. */
  ghost predicate Reached(c: Codec, got: seq<Job>, token: string)
  {
    Increasing(got) && (token != "" ==> got != [] && token == EncodeKey(c, KeyOf(got[|got| - 1])))
  }

  /** Read already, or still to come. */
  ghost predicate ReadOrAhead(got: seq<Job>, token: string, k: Key)
  {
    HasKey(got, k) || (token != "" && got != [] && Before(KeyOf(got[|got| - 1]), k))
  }

  /** A first part of the rows, with the key it stops at. */
  lemma CutReached(c: Codec, rows: seq<Job>, n: nat)
    requires c.Faithful() && Increasing(rows) && 0 < n < |rows|
    ensures var token := EncodeKey(c, KeyOf(rows[n - 1]));
      Reached(c, rows[..n], token) && forall j :: j in rows ==> ReadOrAhead(rows[..n], token, KeyOf(j))
  {
    var token := EncodeKey(c, KeyOf(rows[n - 1]));
    TokensRoundTrip(c, KeyOf(rows[n - 1]), 0);
    forall j | j in rows ensures ReadOrAhead(rows[..n], token, KeyOf(j)) {
      var i :| 0 <= i < |rows| && rows[i] == j;
      if i < n { assert rows[..n][i] == j; }
    }
  }

  lemma PageOfRows(c: Codec, rows: seq<Job>, n: nat, page: Page)
    requires c.Faithful() && Increasing(rows) && n > 0
    requires page == PageOf(c, rows, n)
    ensures Reached(c, page.jobs, page.nextToken)
    ensures forall j :: j in page.jobs ==> j in rows
    ensures forall j :: j in rows ==> ReadOrAhead(page.jobs, page.nextToken, KeyOf(j))
  {
    if |rows| > n { CutReached(c, rows, n); }
  }

  lemma KeysetPageReached(c: Codec, listing: seq<Job>, after: Option<Key>, requested: int)
    requires c.Faithful() && Increasing(listing)
    ensures var page := KeysetPage(c, listing, after, requested);
      && Reached(c, page.jobs, page.nextToken)
      && (forall j :: j in page.jobs ==> j in listing && IsAfter(after, j))
      && (forall j :: j in listing && IsAfter(after, j) ==> ReadOrAhead(page.jobs, page.nextToken, KeyOf(j)))
  {
    var rest, page := Filter(listing, AfterKey(after)), KeysetPage(c, listing, after, requested);
    assert Increasing(rest) by { FilterIncreasing(listing, AfterKey(after)); }
    PageOfRows(c, rest, PageSize(requested), page);
    FilterElements(listing, AfterKey(after));
  }

  lemma Joined(got: seq<Job>, more: seq<Job>)
    requires Increasing(got) && Increasing(more)
    requires got != [] ==> forall j :: j in more ==> Before(KeyOf(got[|got| - 1]), KeyOf(j))
    ensures Increasing(got + more)
  {
    forall i, k | 0 <= i < |got| && 0 <= k < |more| ensures Before(KeyOf(got[i]), KeyOf(more[k])) {
      assert more[k] in more;
      if i < |got| - 1 { BeforeTransitive(KeyOf(got[i]), KeyOf(got[|got| - 1]), KeyOf(more[k])); }
    }
  }

  lemma JoinedCovers(got: seq<Job>, more: seq<Job>, token: string, k: Key)
    requires HasKey(got, k) || ReadOrAhead(more, token, k)
    ensures ReadOrAhead(got + more, token, k)
  {
    if HasKey(got, k) || HasKey(more, k) {
      var g :| (g in got || g in more) && KeyOf(g) == k;
      assert g in got + more;
    }
  }

  /** One page further, from whatever the listing is by now. */
  lemma MovingStep(c: Codec, listing: seq<Job>, got: seq<Job>, token: string, requested: int, page: Page)
    requires c.Faithful() && Increasing(listing) && ListByKey(c, listing, token, requested) == Some(page)
    requires Reached(c, got, token) && (token == "" ==> got == [])
    ensures Reached(c, got + page.jobs, page.nextToken)
    ensures forall j :: j in page.jobs ==> j in listing
  {
    var after := if token == "" then None else Some(KeyOf(got[|got| - 1]));
    if token != "" { TokensRoundTrip(c, after.value, 0); }
    KeysetPageReached(c, listing, after, requested);
    Joined(got, page.jobs);
  }

  lemma MovingStepCovers(c: Codec, listing: seq<Job>, got: seq<Job>, token: string, requested: int, page: Page, k: Key)
    requires c.Faithful() && Increasing(listing) && ListByKey(c, listing, token, requested) == Some(page)
    requires Reached(c, got, token) && (token == "" ==> got == [])
    requires HasKey(listing, k) && (token != "" ==> ReadOrAhead(got, token, k))
    ensures ReadOrAhead(got + page.jobs, page.nextToken, k)
  {
    var after := if token == "" then None else Some(KeyOf(got[|got| - 1]));
    if token != "" { TokensRoundTrip(c, after.value, 0); }
    KeysetPageReached(c, listing, after, requested);
    JoinedCovers(got, page.jobs, page.nextToken, k);
  }

  /** Whatever is inserted, removed or changed between the pages, a walk by key
      returns jobs in strictly increasing order of age, so none twice. */
  lemma {:induction false} MovingWalkOrdered(c: Codec, at: Listings, sizes: Sizes, pages: seq<Page>)
    requires c.Faithful() && Walk(pages, KeyReads(c, at, sizes))
    requires forall i :: 0 <= i < |pages| ==> Increasing(at(i))
    ensures Reached(c, Collected(pages), NextToken(pages))
    ensures forall j :: j in Collected(pages) ==> exists i :: 0 <= i < |pages| && j in at(i)
  {
    if pages != [] {
      var n := |pages| - 1;
      MovingWalkOrdered(c, at, sizes, pages[..n]);
      MovingStep(c, at(n), Collected(pages[..n]), NextToken(pages[..n]), sizes(n), pages[n]);
    }
  }

  /** And it omits nothing that the listing contained all along. */
  lemma {:induction false} MovingWalkComplete(c: Codec, at: Listings, sizes: Sizes, pages: seq<Page>, k: Key)
    requires c.Faithful() && Walk(pages, KeyReads(c, at, sizes)) && pages != []
    requires forall i :: 0 <= i < |pages| ==> Increasing(at(i)) && HasKey(at(i), k)
    ensures ReadOrAhead(Collected(pages), NextToken(pages), k)
    ensures Done(pages) ==> HasKey(Collected(pages), k)
  {
    var n := |pages| - 1;
    MovingWalkOrdered(c, at, sizes, pages[..n]);
    if n > 0 { MovingWalkComplete(c, at, sizes, pages[..n], k); }
    MovingStepCovers(c, at(n), Collected(pages[..n]), NextToken(pages[..n]), sizes(n), pages[n], k);
  }

  // The same of the system, where jobs keep their ID and creation time for good.

  type History = nat -> System

  ghost predicate StepsBetween(history: History, steps: nat -> seq<Step>, i: nat)
  {
    history(i + 1) == Run(history(i), steps(i))
  }

  lemma {:induction false} HistoryKeeps(history: History, steps: nat -> seq<Step>, i: nat)
    requires SysInv(history(0)) && forall n: nat :: StepsBetween(history, steps, n)
    ensures SysInv(history(i))
  {
    if i > 0 {
      HistoryKeeps(history, steps, i - 1);
      assert StepsBetween(history, steps, i - 1);
      RunKeeps(history(i - 1), steps(i - 1));
    }
  }

  ghost predicate Created(sys: System, id: string, createdAt: int)
  {
    id in sys.jobs && sys.jobs[id].id == id && sys.jobs[id].createdAt == createdAt
  }

  lemma CreatedNext(sys: System, steps: seq<Step>, id: string, createdAt: int)
    requires SysInv(sys) && Created(sys, id, createdAt)
    ensures Created(Run(sys, steps), id, createdAt)
  {
    IdentityFixed(sys, steps, id);
  }

  lemma {:induction false} CreatedForGood(history: History, steps: nat -> seq<Step>, i: nat, k: nat, id: string, createdAt: int)
    requires SysInv(history(0)) && forall n: nat :: StepsBetween(history, steps, n)
    requires i <= k && Created(history(i), id, createdAt)
    ensures Created(history(k), id, createdAt)
    decreases k
  {
    if i < k {
      CreatedForGood(history, steps, i, k - 1, id, createdAt);
      HistoryKeeps(history, steps, k - 1);
      CreatedNext(history(k - 1), steps(k - 1), id, createdAt);
      assert StepsBetween(history, steps, k - 1);
    }
  }

  ghost predicate AllJobs(history: History, at: Listings, i: nat)
  {
    Ordered(at(i), history(i).jobs, MatchesState(None))
  }

  lemma SameIdSameKey(history: History, steps: nat -> seq<Step>, at: Listings, i: nat, k: nat, a: Job, b: Job)
    requires SysInv(history(0)) && forall n: nat :: StepsBetween(history, steps, n)
    requires AllJobs(history, at, i) && a in at(i) && AllJobs(history, at, k) && b in at(k)
    ensures a.id == b.id ==> KeyOf(a) == KeyOf(b)
  {
    if i <= k {
      CreatedForGood(history, steps, i, k, a.id, a.createdAt);
    } else {
      CreatedForGood(history, steps, k, i, b.id, b.createdAt);
    }
  }

  lemma StoredIsListed(sys: System, listing: seq<Job>, id: string, createdAt: int)
    requires Ordered(listing, sys.jobs, MatchesState(None)) && Created(sys, id, createdAt)
    ensures HasKey(listing, Key(createdAt, id))
  {
    var j := sys.jobs[id];
    assert MatchesState(None)(j);
    assert j in listing;
  }

  lemma StaysListed(history: History, steps: nat -> seq<Step>, at: Listings, n: nat, id: string, createdAt: int)
    requires SysInv(history(0)) && forall n: nat :: StepsBetween(history, steps, n)
    requires (forall i: nat :: AllJobs(history, at, i)) && Created(history(0), id, createdAt)
    ensures forall i :: 0 <= i < n ==> Increasing(at(i)) && HasKey(at(i), Key(createdAt, id))
  {
    forall i | 0 <= i < n ensures Increasing(at(i)) && HasKey(at(i), Key(createdAt, id)) {
      assert AllJobs(history, at, i);
      CreatedForGood(history, steps, 0, i, id, createdAt);
      StoredIsListed(history(i), at(i), id, createdAt);
    }
  }

  /** Listing all jobs by key while the system keeps running, submissions
      included: no job is returned twice, */
  lemma NoneTwiceWhileRunning(c: Codec, history: History, steps: nat -> seq<Step>, at: Listings, sizes: Sizes, pages: seq<Page>)
    requires c.Faithful() && SysInv(history(0)) && forall n: nat :: StepsBetween(history, steps, n)
    requires forall i: nat :: AllJobs(history, at, i)
    requires Walk(pages, KeyReads(c, at, sizes))
    ensures DistinctBy(Collected(pages), JobId)
  {
    var got := Collected(pages);
    forall i | 0 <= i < |pages| ensures Increasing(at(i)) { assert AllJobs(history, at, i); }
    MovingWalkOrdered(c, at, sizes, pages);
    forall a, b | 0 <= a < b < |got| ensures JobId(got[a]) != JobId(got[b]) {
      assert got[a] in got && got[b] in got;
      var i :| 0 <= i < |pages| && got[a] in at(i);
      var k :| 0 <= k < |pages| && got[b] in at(k);
      SameIdSameKey(history, steps, at, i, k, got[a], got[b]);
      BeforeIrreflexive(KeyOf(got[a]));
    }
  }

  /** and every job there was at the beginning has been returned at the end. */
  lemma AllReadWhileRunning(c: Codec, history: History, steps: nat -> seq<Step>, at: Listings, sizes: Sizes, pages: seq<Page>,
                            id: string, createdAt: int)
    requires c.Faithful() && SysInv(history(0)) && forall n: nat :: StepsBetween(history, steps, n)
    requires forall i: nat :: AllJobs(history, at, i)
    requires Walk(pages, KeyReads(c, at, sizes)) && Done(pages) && Created(history(0), id, createdAt)
    ensures HasKey(Collected(pages), Key(createdAt, id))
  {
    StaysListed(history, steps, at, |pages|, id, createdAt);
    MovingWalkComplete(c, at, sizes, pages, Key(createdAt, id));
  }

  // When an offset survives a change of the listing.

  /** How many jobs of the listing come no later than the key. */
  function UpTo(listing: seq<Job>, k: Key): int { |listing| - |Filter(listing, AfterKey(Some(k)))| }

  /** They come first, and the rest is what follows the key. */
  lemma {:induction false} UpToSplits(listing: seq<Job>, k: Key)
    requires Increasing(listing)
    ensures 0 <= UpTo(listing, k) <= |listing|
    ensures Filter(listing, AfterKey(Some(k))) == listing[UpTo(listing, k)..]
    ensures forall i :: 0 <= i < |listing| ==> (Before(k, KeyOf(listing[i])) <==> UpTo(listing, k) <= i)
  {
    if listing != [] {
      var n := |listing| - 1;
      var init := listing[..n];
      UpToSplits(init, k);
      assert forall i :: 0 <= i < n ==> init[i] == listing[i];
      if Before(k, KeyOf(listing[n])) {
        assert Filter(listing, AfterKey(Some(k))) == init[UpTo(init, k)..] + [listing[n]];
      } else {
        forall i | 0 <= i < n ensures !Before(k, KeyOf(listing[i])) {
          if Before(k, KeyOf(listing[i])) { BeforeTransitive(k, KeyOf(listing[i]), KeyOf(listing[n])); }
        }
        assert UpTo(init, k) == n;
      }
    }
  }

  /** Reading on by offset after the jobs `got`, in a listing that has changed in
      any way, gives the page that reading on by key would give exactly if the
      listing has as many jobs up to the key reached as were read, or has no more
      than those. */
  lemma OffsetResumesExactly(c: Codec, now: seq<Job>, got: seq<Job>, requested: int)
    requires c.Faithful() && Increasing(now) && got != []
    ensures var k := KeyOf(got[|got| - 1]);
      var byOffset := ListByOffset(c, now, EncodeOffset(c, |got|), requested);
      var byKey := ListByKey(c, now, EncodeKey(c, k), requested);
      && byOffset.Some? && byKey.Some?
      && (byOffset.value.jobs == byKey.value.jobs <==> UpTo(now, k) == Least(|got|, |now|))
  {
    var k, n := KeyOf(got[|got| - 1]), PageSize(requested);
    TokensRoundTrip(c, k, |got|);
    UpToSplits(now, k);
    SlicesAgree(now, Least(|got|, |now|), UpTo(now, k), n);
  }

  /** Two pages of a listing without repetitions agree only if they begin at the
      same place. */
  lemma SlicesAgree(s: seq<Job>, a: int, b: int, n: nat)
    requires Increasing(s) && 0 <= a <= |s| && 0 <= b <= |s| && n > 0
    ensures s[a..Least(a + n, |s|)] == (if |s[b..]| > n then s[b..][..n] else s[b..]) <==> a == b
  {
    var p, q := s[a..Least(a + n, |s|)], if |s[b..]| > n then s[b..][..n] else s[b..];
    if p == q && p != [] {
      assert p[0] == s[a] && q[0] == s[b];
      if a < b { BeforeIrreflexive(KeyOf(s[a])); } else if b < a { BeforeIrreflexive(KeyOf(s[a])); }
    }
  }

  /** Past the offset without having been read, or read and to be read again. */
  ghost predicate Misplaced(was: seq<Job>, now: seq<Job>, m: nat, i: nat)
    requires 0 < m <= |was|
  {
    i < |now| && HasKey(was, KeyOf(now[i])) && (i < m <==> Before(KeyOf(was[m - 1]), KeyOf(now[i])))
  }

  ghost predicate KeysWithin(a: seq<Job>, b: seq<Job>) { forall j :: j in a ==> HasKey(b, KeyOf(j)) }

  lemma {:induction false} NoEarlier(was: seq<Job>, now: seq<Job>, i: nat, f: nat)
    requires Increasing(was) && Increasing(now) && KeysWithin(was, now)
    requires i < |was| && f < |now| && KeyOf(now[f]) == KeyOf(was[i])
    ensures i <= f
  {
    if i > 0 {
      assert was[i - 1] in was;
      var j :| j in now && KeyOf(j) == KeyOf(was[i - 1]);
      var g :| 0 <= g < |now| && now[g] == j;
      NoEarlier(was, now, i - 1, g);
      InOrder(now, g, f);
    }
  }

  lemma InOrder(s: seq<Job>, a: nat, b: nat)
    requires Increasing(s) && a < |s| && b < |s| && Before(KeyOf(s[a]), KeyOf(s[b]))
    ensures a < b
  {
    if b < a {
      BeforeTransitive(KeyOf(s[a]), KeyOf(s[b]), KeyOf(s[a]));
      BeforeIrreflexive(KeyOf(s[a]));
      assert false;
    } else if a == b {
      BeforeIrreflexive(KeyOf(s[a]));
      assert false;
    }
  }

  /** If jobs are only removed, or only inserted, the same condition says exactly
      when no job of both listings is skipped or read twice. */
  lemma OffsetSoundExactly(was: seq<Job>, now: seq<Job>, m: nat)
    requires Increasing(was) && Increasing(now) && 0 < m <= |was|
    requires KeysWithin(now, was) || KeysWithin(was, now)
    ensures (forall i: nat :: !Misplaced(was, now, m, i)) <==> UpTo(now, KeyOf(was[m - 1])) == Least(m, |now|)
  {
    var k := KeyOf(was[m - 1]);
    var cut := UpTo(now, k);
    UpToSplits(now, k);
    if KeysWithin(was, now) { LastReadIsThere(was, now, m); }
    if cut < Least(m, |now|) {
      assert now[cut] in now;
      assert Misplaced(was, now, m, cut);
    } else if cut > Least(m, |now|) {
      assert now[cut - 1] in now;
      assert Misplaced(was, now, m, cut - 1);
    }
  }

  lemma LastReadIsThere(was: seq<Job>, now: seq<Job>, m: nat)
    requires Increasing(was) && Increasing(now) && 0 < m <= |was| && KeysWithin(was, now)
    ensures var cut := UpTo(now, KeyOf(was[m - 1])); m <= cut <= |now| && KeyOf(now[cut - 1]) == KeyOf(was[m - 1])
  {
    var k := KeyOf(was[m - 1]);
    var cut := UpTo(now, k);
    UpToSplits(now, k);
    assert was[m - 1] in was;
    var j :| j in now && KeyOf(j) == k;
    var f :| 0 <= f < |now| && now[f] == j;
    NoEarlier(was, now, m - 1, f);
    BeforeIrreflexive(k);
    assert f < cut;
  }

  /** With both at once it does not: a removal and an insertion can hide each
      other from the jobs that stay. */
  lemma MixedChangesHide(a: Job, b: Job, d: Job, e: Job)
    requires Increasing([a, b, d, e])
    ensures Increasing([a, b, e]) && Increasing([a, d, e])
    ensures (forall i: nat :: !Misplaced([a, b, e], [a, d, e], 2, i)) && UpTo([a, d, e], KeyOf(b)) != 2
  {
    var all, was, now := [a, b, d, e], [a, b, e], [a, d, e];
    assert Before(KeyOf(all[0]), KeyOf(all[1])) && Before(KeyOf(all[0]), KeyOf(all[2])) && Before(KeyOf(all[0]), KeyOf(all[3]));
    assert Before(KeyOf(all[1]), KeyOf(all[2])) && Before(KeyOf(all[1]), KeyOf(all[3])) && Before(KeyOf(all[2]), KeyOf(all[3]));
    UpToSplits(now, KeyOf(b));
    assert Before(KeyOf(b), KeyOf(now[1]));
    forall j | j in was ensures KeyOf(j) != KeyOf(d) { BeforeIrreflexive(KeyOf(d)); }
    if Before(KeyOf(b), KeyOf(a)) { BeforeTransitive(KeyOf(a), KeyOf(b), KeyOf(a)); BeforeIrreflexive(KeyOf(a)); }
  }

  /** An offset does not survive a job leaving the front of the listing: the
      walk goes past a job that was there all along. */
  lemma OffsetSkips(c: Codec, at: Listings, sizes: Sizes, pages: seq<Page>)
    requires c.Faithful() && Walk(pages, OffsetReads(c, at, sizes)) && |pages| == 2
    requires DistinctBy(at(0), JobId) && at(0) != [] && at(1) == at(0)[1..]
    ensures |pages[0].jobs| < |at(0)| &&
      var missed := at(0)[|pages[0].jobs|];
      missed in at(0) && missed in at(1) && missed !in Collected(pages)
  {
    var m, first := |pages[0].jobs|, pages[..1];
    assert first[..0] == [] && Collected(first) == [] + pages[0].jobs;
    OffsetPageContinues(c, at(0), 0, sizes(0));
    TokensRoundTrip(c, Key(0, ""), m);
    OffsetPageContinues(c, at(1), m, sizes(1));
  }
}
