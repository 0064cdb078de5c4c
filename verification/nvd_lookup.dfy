/** One lookup through the cache to NVD: `devicecves/cache.py` and `lookup.py`. Wall times
    are seconds, on a clock that may also be set back; what NVD answers is the client's. */
module NvdLookups {
  import opened NvdClients
  import opened Wrappers

  type Cve = string

  /** What a page lists: CPE dictionary products, or CVE records (none: an empty one). */
  datatype Item = Product(deprecated: bool) | Record(cve: Option<Cve>)

  /** The queries asked of NVD, each the key of its answer. */
  datatype Query = Dictionary(cpe: string) | CvesOf(cpe: string) | Keyword(text: string) | ById(id: Cve)

  datatype Data = Listed(yes: bool) | Records(cves: seq<Option<Cve>>) | One(cve: Option<Cve>) | Malformed

  datatype Entry = Entry(fetchedAt: int, found: bool, data: Data)

  const FRESH_FOUND: int := 7 * 86_400
  const FRESH_EMPTY: int := 86_400
  const RETRY_FAILED: int := 3_600

  predicate IsFresh(e: Entry, now: int) {
    now - e.fetchedAt < if e.found then FRESH_FOUND else FRESH_EMPTY
  }

  predicate IsEmpty(d: Data) {
    d == Records([]) || d == One(None)
  }

  /** There are no CVEs, or there is no such CVE. */
  predicate SaysNothing(d: Data) {
    (d.Records? && |d.cves| == 0) || (d.One? && d.cve.None?)
  }

  /** How far the wall clock moves by its next reading. */
  function Moved(ticks: seq<int>): int {
    if ticks == [] then 0 else ticks[0]
  }

  /** The query's entry is fresh at the next reading of the clock. */
  predicate IsFreshNext(q: Query, entries: map<Query, Entry>, wall: int, ticks: seq<int>) {
    q in entries && IsFresh(entries[q], wall + Moved(ticks))
  }

  /** NVD failed on the query within the hour before the next reading; looking the entry
      up first takes a reading when there is one. */
  predicate IsPutOff(q: Query, entries: map<Query, Entry>, failures: map<Query, int>, wall: int, ticks: seq<int>) {
    && q in failures
    && var later := if q in entries then Moved(Past(ticks, 1)) else 0;
       wall + Moved(ticks) + later < failures[q] + 3_600
  }

  /** `nvd-cache.json` in memory. The wall clock moves by `ticks`, either way. */
  class Cache {
    var entries: map<Query, Entry>
    var failures: map<Query, int>
    var dirty: bool
    var hits: nat
    var empty: nat
    var misses: nat
    var expired: nat
    var failed: nat
    var retryAfter: Option<int>
    var wall: int
    var ticks: seq<int>

    constructor (entries: map<Query, Entry>, failures: map<Query, int>, wall: int, ticks: seq<int>)
      ensures this.entries == entries && this.failures == failures && !dirty
    {
      this.entries, this.failures, this.wall, this.ticks := entries, failures, wall, ticks;
      dirty, hits, empty, misses, expired, failed, retryAfter := false, 0, 0, 0, 0, 0, None;
    }

    method Now() returns (t: int)
      modifies `wall, `ticks
      ensures t == wall == old(wall) + Moved(old(ticks)) && ticks == Past(old(ticks), 1)
    {
      if ticks != [] {
        wall, ticks := wall + ticks[0], ticks[1..];
      }
      t := wall;
    }

    /** The entry, and whether it is fresh. */
    method Get(q: Query) returns (e: Option<Entry>, current: bool)
      modifies `wall, `ticks
      ensures e == (if q in entries then Some(entries[q]) else None)
      ensures current <==> IsFreshNext(q, entries, old(wall), old(ticks))
      ensures if q in entries then wall == old(wall) + Moved(old(ticks)) && ticks == Past(old(ticks), 1)
              else wall == old(wall) && ticks == old(ticks)
    {
      if q !in entries {
        return None, false;
      }
      var now := Now();
      return Some(entries[q]), IsFresh(entries[q], now);
    }

    /** NVD failed on the query within the hour; it is counted if so. */
    method FailedRecently(q: Query) returns (yes: bool)
      modifies `wall, `ticks, `failed, `retryAfter
      ensures yes <==> q in failures && old(wall) + Moved(old(ticks)) < failures[q] + 3_600
      ensures failed == old(failed) + (if yes then 1 else 0)
    {
      yes := false;
      if q in failures {
        var now := Now();
        if now < failures[q] + RETRY_FAILED {
          CountFailure(failures[q] + RETRY_FAILED);
          yes := true;
        }
      }
    }

    method CountFailure(until: int)
      modifies `failed, `retryAfter
      ensures failed == old(failed) + 1
      ensures retryAfter.Some? && until <= retryAfter.value
      ensures (old(retryAfter).Some? ==> old(retryAfter).value <= retryAfter.value)
    {
      failed := failed + 1;
      if retryAfter.None? || retryAfter.value < until {
        retryAfter := Some(until);
      }
    }

    method PutFailure(q: Query)
      modifies `wall, `ticks, `failed, `retryAfter, `failures, `dirty
      ensures failures == old(failures)[q := wall] && failed == old(failed) + 1 && dirty
    {
      var now := Now();
      failures := failures[q := now];
      dirty := true;
      CountFailure(now + RETRY_FAILED);
    }

    method Put(q: Query, found: bool, data: Data) returns (e: Entry)
      modifies `wall, `ticks, `entries, `failures, `dirty
      ensures e == Entry(wall, found, data) && entries == old(entries)[q := e]
      ensures failures == old(failures) - {q} && dirty
    {
      var now := Now();
      e := Entry(now, found, data);
      entries, failures, dirty := entries[q := e], failures - {q}, true;
    }
  }

  // ---- asking NVD ---------------------------------------------------------------------

  predicate AnyCurrent(items: seq<Item>) {
    exists i :: 0 <= i < |items| && items[i].Product? && !items[i].deprecated
  }

  function CvesIn(items: seq<Item>): seq<Option<Cve>> {
    if items == [] then []
    else CvesIn(items[..|items| - 1]) + if items[|items| - 1].Record? then [items[|items| - 1].cve] else []
  }

  /** What NVD's items answer to a query. */
  function DataOf(q: Query, items: seq<Item>): (d: Data)
    ensures d != Malformed
  {
    match q
    case Dictionary(_) => Listed(AnyCurrent(items))
    case ById(_) => One(if items != [] && items[0].Record? then items[0].cve else None)
    case _ => Records(CvesIn(items))
  }

  /** One query to NVD: what is found is what the pages of the replies used list. */
  method Fetch(client: NvdClient<Item>, q: Query) returns (r: Outcome<Data>)
    requires client.Valid()
    modifies client
    ensures client.Valid() && old(client.requests) <= client.requests
    ensures old(client.unreachable) ==> client.unreachable && client.requests == old(client.requests) && r.Unavailable?
    ensures r.Found? ==> client.requests - old(client.requests) <= |old(client.replies)|
    ensures r.Found? ==> r.data == DataOf(q, Items(old(client.replies)[..client.requests - old(client.requests)]))
    ensures r.Found? && !q.ById? ==> IsComplete(old(client.replies)[..client.requests - old(client.requests)])
  {
    hide NvdClient.Valid, IsComplete, EndsAs, AreRetried;
    if q.ById? {
      var page := client.Get();
      match page {
        case Found(doc) =>
          OnePageMore(old(client.replies), 0, client.requests - old(client.requests), doc);
          NothingYet(old(client.replies));
          r := Found(DataOf(q, doc.items));
        case Unavailable => r := Unavailable;
        case InvalidQuery => r := InvalidQuery;
        case BudgetExceeded => r := BudgetExceeded;
      }
    } else {
      var pages := client.Paged();
      match pages {
        case Found(items) => r := Found(DataOf(q, items));
        case Unavailable => r := Unavailable;
        case InvalidQuery => r := InvalidQuery;
        case BudgetExceeded => r := BudgetExceeded;
      }
    }
  }

  // ---- one answer -----------------------------------------------------------------------

  datatype Why = Unreachable | Budget

  /** How `_answer` ends: with an entry, perhaps stale; or with NVD's word that the query
      is malformed; or without an answer. */
  datatype Answered = Is(entry: Entry, stale: bool) | NotAQuery | Unanswered(why: Why)

  function FoundOf(d: Data): bool {
    d.Listed? ==> d.yes
  }

  /** `_valid`. */
  function Valued(e: Entry, stale: bool): Answered {
    if e.data == Malformed then NotAQuery else Is(e, stale)
  }

  function StaleOrUnanswered(e: Option<Entry>, why: Why): Answered {
    if e.None? then Unanswered(why) else Valued(e.value, true)
  }

  /** What an answer is worth: one that was stored is never missing, and what is said
      is what is stored. */
  ghost predicate Tells(q: Query, before: map<Query, Entry>, after: map<Query, Entry>, r: Answered) {
    && (q in before ==> !r.Unanswered?) && (r.Unanswered? ==> q !in after)
    && (r.Is? ==> q in after && after[q] == r.entry && r.entry.data != Malformed)
    && (r.Is? && r.stale ==> after == before)
    && (r.NotAQuery? ==> q in after && after[q].data == Malformed)
  }

  /** No other answer is touched, and none is lost. */
  ghost predicate KeepsOthers(q: Query, before: map<Query, Entry>, after: map<Query, Entry>) {
    && (forall k | k in before :: k in after && (k != q ==> after[k] == before[k]))
    && forall k | k in after :: k in before || k == q
  }

  /** An answer that is not stale is what the pages of the n replies used list, as of now; and
      a query that NVD failed on is on record as failed now. */
  ghost predicate IsNews(q: Query, replies: seq<Reply<Item>>, n: int, r: Answered, failures: map<Query, int>,
                         now: int) {
    && (r.Is? && !r.stale ==> 0 <= n <= |replies| && r.entry == NewEntry(q, Items(replies[..n]), now))
    && (r == Unanswered(Unreachable) ==> q in failures && failures[q] == now)
  }

  function NewEntry(q: Query, items: seq<Item>, now: int): Entry {
    Entry(now, FoundOf(DataOf(q, items)), DataOf(q, items))
  }

  /** A dictionary is said to list a name exactly when one of the products is no deprecated one;
      a CVE's own record is the first; any other answer is the records, all of them in order. */
  lemma DataSaysWhatIsListed(q: Query, items: seq<Item>)
    ensures match q
            case Dictionary(_) => DataOf(q, items) == Listed(exists x :: x in items && x == Product(false))
            case ById(_) => DataOf(q, items) == One(if items != [] && items[0].Record? then items[0].cve else None)
            case _ => DataOf(q, items).Records?
    ensures (q.CvesOf? || q.Keyword?) && (forall x | x in items :: x.Record?) ==>
              var cves := DataOf(q, items).cves;
              |cves| == |items| && forall i | 0 <= i < |items| :: items[i] == Record(cves[i])
  {
    if i :| 0 <= i < |items| && items[i].Product? && !items[i].deprecated {
      assert items[i] in items && items[i] == Product(false);
    }
    if x :| x in items && x == Product(false) {
      var i :| 0 <= i < |items| && items[i] == x;
    }
    assert AnyCurrent(items) <==> exists x :: x in items && x == Product(false);
    if forall x | x in items :: x.Record? {
      RecordsInOrder(items);
    }
  }

  lemma {:induction false} RecordsInOrder(items: seq<Item>)
    requires forall x | x in items :: x.Record?
    ensures |CvesIn(items)| == |items| && forall i | 0 <= i < |items| :: items[i] == Record(CvesIn(items)[i])
  {
    if items != [] {
      var front, last := items[..|items| - 1], items[|items| - 1];
      assert items == front + [last];
      RecordsInOrder(front);
    }
  }

  /** An answer is served for seven days, but for one day when it is that the dictionary does
      not list the name, or that the query is malformed. */
  lemma AnswersAreKeptForDays(q: Query, items: seq<Item>, kept: int, now: int)
    ensures IsFresh(NewEntry(q, items, kept), now)
            <==> now < kept + if q.Dictionary? && DataOf(q, items) == Listed(false) then 86_400 else 604_800
    ensures IsFresh(Entry(kept, false, Malformed), now) <==> now < kept + 86_400
  {
  }

  /** NVD is asked, and its answer kept. */
  method Ask(client: NvdClient<Item>, cache: Cache, q: Query, entry: Option<Entry>) returns (r: Answered)
    requires client.Valid() && entry == if q in cache.entries then Some(cache.entries[q]) else None
    modifies client, cache`entries, cache`failures, cache`dirty, cache`failed, cache`retryAfter, cache`wall, cache`ticks
    ensures client.Valid() && old(client.requests) <= client.requests
    ensures old(client.unreachable) ==> client.unreachable && client.requests == old(client.requests)
    ensures Tells(q, old(cache.entries), cache.entries, r) && KeepsOthers(q, old(cache.entries), cache.entries)
    ensures old(cache.failed) <= cache.failed
    ensures IsNews(q, old(client.replies), client.requests - old(client.requests), r, cache.failures, cache.wall)
  {
    hide NvdClient.Valid, DataOf, IsComplete, Items;
    var fetched := Fetch(client, q);
    match fetched {
      case Found(data) =>
        var e := cache.Put(q, FoundOf(data), data);
        r := Is(e, false);
      case Unavailable =>
        cache.PutFailure(q);
        r := StaleOrUnanswered(entry, Unreachable);
      case BudgetExceeded =>
        r := StaleOrUnanswered(entry, Budget);
      case InvalidQuery =>
        var e := cache.Put(q, false, Malformed);
        r := NotAQuery;
    }
  }

  /** `_answer`: an entry fresh at the clock's reading is served and nothing asked; nor is
      a query NVD failed on within the hour; any other is asked of NVD, and an expired
      entry stands in when it has no answer. Every lookup is counted once. */
  method Answer(client: NvdClient<Item>, cache: Cache, q: Query) returns (r: Answered)
    requires client.Valid()
    modifies client, cache
    ensures client.Valid() && old(client.requests) <= client.requests
    ensures old(client.unreachable) ==> client.unreachable && client.requests == old(client.requests)
    ensures Tells(q, old(cache.entries), cache.entries, r) && KeepsOthers(q, old(cache.entries), cache.entries)
    ensures
      var isFresh := IsFreshNext(q, old(cache.entries), old(cache.wall), old(cache.ticks));
      var isPutOff := IsPutOff(q, old(cache.entries), old(cache.failures), old(cache.wall), old(cache.ticks));
      && (isFresh || isPutOff ==>
            && client.requests == old(client.requests) && client.replies == old(client.replies)
            && cache.entries == old(cache.entries))
      && (isFresh ==> r == Valued(old(cache.entries)[q], false))
      && (!isFresh && isPutOff ==>
            r == StaleOrUnanswered(if q in old(cache.entries) then Some(old(cache.entries)[q]) else None, Unreachable))
      && (!isFresh && !isPutOff ==>
            IsNews(q, old(client.replies), client.requests - old(client.requests), r, cache.failures, cache.wall))
      && cache.hits == old(cache.hits) + (if isFresh then 1 else 0)
      && cache.empty == old(cache.empty) + (if isFresh && SaysNothing(old(cache.entries)[q].data) then 1 else 0)
      && cache.misses + cache.expired == old(cache.misses + cache.expired) + (if isFresh || isPutOff then 0 else 1)
      && (!isFresh && isPutOff ==> cache.failed == old(cache.failed) + 1)
  {
    hide NvdClient.Valid, IsFresh, IsNews;
    var entry, current := cache.Get(q);
    if current {
      cache.hits := cache.hits + 1;
      if IsEmpty(entry.value.data) {
        cache.empty := cache.empty + 1;
      }
      return Valued(entry.value, false);
    }
    var failedNow := cache.FailedRecently(q);
    if failedNow {
      return StaleOrUnanswered(entry, Unreachable);
    }
    if entry.None? {
      cache.misses := cache.misses + 1;
    } else {
      cache.expired := cache.expired + 1;
    }
    r := Ask(client, cache, q, entry);
  }

  // ---- the lookups ------------------------------------------------------------------------

  /** A device's identity, as the families recognise it. */
  datatype Identity = Unidentified | ByCpe(cpe: string) | ByKeyword(text: string)

  datatype Status = Ok(cves: seq<Option<Cve>>) | NotInDictionary | InvalidName | NoAnswerYet(why: Why) | NotIdentified

  /** `lookup`: the CPE's dictionary entry before its CVEs, or a keyword search. */
  method Lookup(client: NvdClient<Item>, cache: Cache, ident: Identity) returns (status: Status)
    requires client.Valid()
    modifies client, cache
    ensures client.Valid() && old(client.requests) <= client.requests
    ensures old(client.unreachable) ==> client.unreachable && client.requests == old(client.requests)
    ensures status == NotIdentified <==> ident == Unidentified
    ensures status == NotInDictionary ==>
              && ident.ByCpe? && Dictionary(ident.cpe) in cache.entries
              && cache.entries[Dictionary(ident.cpe)].data == Listed(false)
    ensures ident.ByCpe? && Dictionary(ident.cpe) in old(cache.entries) && CvesOf(ident.cpe) in old(cache.entries) ==>
              !status.NoAnswerYet?
    ensures ident.ByKeyword? && Keyword(ident.text) in old(cache.entries) ==> !status.NoAnswerYet?
    ensures ident.ByKeyword? && status.Ok? ==>
              && Keyword(ident.text) in cache.entries && cache.entries[Keyword(ident.text)].data == Records(status.cves)
    ensures ident.ByCpe? && status.Ok? ==>
              && CvesOf(ident.cpe) in cache.entries && cache.entries[CvesOf(ident.cpe)].data == Records(status.cves)
              && Dictionary(ident.cpe) in cache.entries && cache.entries[Dictionary(ident.cpe)].data != Listed(false)
    ensures forall k | k in old(cache.entries) :: k in cache.entries
  {
    hide NvdClient.Valid;
    match ident {
      case Unidentified => return NotIdentified;
      case ByCpe(cpe) =>
        var listed := Answer(client, cache, Dictionary(cpe));
        match listed {
          case Unanswered(why) => return NoAnswerYet(why);
          case NotAQuery => return InvalidName;
          case Is(e, _) =>
            if e.data == Listed(false) {
              return NotInDictionary;
            }
        }
        var cves := Answer(client, cache, CvesOf(cpe));
        match cves {
          case Unanswered(why) => return NoAnswerYet(why);
          case NotAQuery => return InvalidName;
          case Is(e, _) => return if e.data.Records? then Ok(e.data.cves) else InvalidName;
        }
      case ByKeyword(text) =>
        var cves := Answer(client, cache, Keyword(text));
        match cves {
          case Unanswered(why) => return NoAnswerYet(why);
          case NotAQuery => return InvalidName;
          case Is(e, _) => return if e.data.Records? then Ok(e.data.cves) else InvalidName;
        }
    }
  }

  /** Any sequence of lookups on one client and cache: the client's promises hold after
      it, and a query that had an answer stored, or got one, never goes unanswered. */
  method AnswerAll(client: NvdClient<Item>, cache: Cache, queries: seq<Query>) returns (results: seq<Answered>)
    requires client.Valid()
    modifies client, cache
    ensures client.Valid() && |results| == |queries|
    ensures old(client.unreachable) ==> client.unreachable && client.requests == old(client.requests)
    ensures forall i | 0 <= i < |queries| && queries[i] in old(cache.entries) :: !results[i].Unanswered?
    ensures forall i, j | 0 <= i < j < |queries| && queries[i] == queries[j] && !results[i].Unanswered? ::
              !results[j].Unanswered?
  {
    hide NvdClient.Valid;
    results := [];
    ghost var stored := cache.entries.Keys;
    for i := 0 to |queries|
      invariant client.Valid() && |results| == i
      invariant old(client.unreachable) ==> client.unreachable && client.requests == old(client.requests)
      invariant stored == old(cache.entries).Keys && stored <= cache.entries.Keys
      invariant forall k | 0 <= k < i && queries[k] in stored :: !results[k].Unanswered?
      invariant forall k | 0 <= k < i && !results[k].Unanswered? :: queries[k] in cache.entries
      invariant forall k, j | 0 <= k < j < i && queries[k] == queries[j] && !results[k].Unanswered? ::
                  !results[j].Unanswered?
    {
      var r := Answer(client, cache, queries[i]);
      results := results + [r];
    }
  }

  /** So at any time the requests sent fit the budget, and without a key no window of
      thirty seconds holds more than five. */
  lemma RequestsAreBounded(client: NvdClient<Item>, k: nat, i: nat, j: nat, from: real)
    requires client.Valid() && k as real * client.spacing >= client.budget
    ensures client.requests <= k
    ensures client.spacing == SPACING_NO_KEY_S && i <= j < |client.starts| ==>
              from <= client.starts[i] && client.starts[j] < from + 30.0 ==> j - i < 5
  {
    RequestsFitTheBudget(client.spacing, client.started, client.budget, client.checks, client.starts, k);
    if && client.spacing == SPACING_NO_KEY_S && i <= j < |client.starts|
       && from <= client.starts[i] && client.starts[j] < from + 30.0
    {
      AtMostFiveInThirtySeconds(client.started, client.budget, client.checks, client.starts, i, j, from);
    }
  }
}
