/**
  The blog section's feed loader: read a cached batch of posts, serve it while
  it is younger than thirty minutes, otherwise fetch the feed, map failures to
  fixed messages, derive missing thumbnails, keep the first four posts and
  cache them, and on failure fall back to a cached batch of any age.

  Storage, the network and the clock are inputs: a `Store` object that holds
  one cache slot and may refuse writes, a `FetchOutcome` value, and two clock
  readings (the source reads the clock once when it checks the cache and once
  when it writes it).
*/
module Blog {
  import opened Wrappers
  import ImgSrc

  /** Freshness window of the cache, in milliseconds: thirty minutes. */
  const CacheDuration: int := 1000 * 60 * 30
  /** Number of posts kept from a fetched feed. */
  const PostLimit: nat := 4

  const RateLimitedMessage: string := "Too many requests. Please try again later."
  const FetchFailedMessage: string := "Failed to fetch blog posts"
  const LoadFailedMessage: string := "Failed to load blog posts"

  // ---------------------------------------------------------------------------
  // Feed items and thumbnail normalisation
  // ---------------------------------------------------------------------------

  /**
    A feed item as the conversion service delivers it; after normalisation the
    same record, with `thumbnail` possibly filled in, is what the section shows
    and caches. A field that is absent (or `null`) is `None`.
  */
  datatype Item = Item(
    title: string,
    pubDate: string,
    link: string,
    thumbnail: Option<string>,
    content: Option<string>,
    description: Option<string>,
    categories: seq<string>)

  /** JavaScript truthiness of an optional string: present and not empty. */
  predicate Truthy(v: Option<string>) {
    v.Some? && v.value != ""
  }

  /** The first image source in a text field, looked for only when the field is truthy. */
  function ImageIn(field: Option<string>): (r: Option<string>)
    ensures r.Some? ==> Truthy(field) && Truthy(r)
    ensures r.Some? ==> forall i :: 0 <= i < |r.value| ==> ImgSrc.IsValueChar(r.value[i])
  {
    if Truthy(field) then ImgSrc.FirstImgSrc(field.value) else None
  }

  /**
    The per-item step of the feed mapping: a truthy thumbnail is kept; else
    the first image of `content` is taken; else that of `description`; else
    the thumbnail keeps its original (falsy) value. No other field changes.
  */
  function Normalize(item: Item): (r: Item)
    ensures r == item.(thumbnail := r.thumbnail)
    ensures Truthy(item.thumbnail) ==> r.thumbnail == item.thumbnail
    ensures !Truthy(item.thumbnail) && ImageIn(item.content).Some? ==>
              r.thumbnail == ImageIn(item.content)
    ensures !Truthy(item.thumbnail) && ImageIn(item.content).None? && ImageIn(item.description).Some? ==>
              r.thumbnail == ImageIn(item.description)
    ensures !Truthy(item.thumbnail) && ImageIn(item.content).None? && ImageIn(item.description).None? ==>
              r.thumbnail == item.thumbnail
  {
    var thumbnail := item.thumbnail;
    var thumbnail :=
      if !Truthy(thumbnail) && Truthy(item.content) && ImgSrc.FirstImgSrc(item.content.value).Some?
      then ImgSrc.FirstImgSrc(item.content.value) else thumbnail;
    var thumbnail :=
      if !Truthy(thumbnail) && Truthy(item.description) && ImgSrc.FirstImgSrc(item.description.value).Some?
      then ImgSrc.FirstImgSrc(item.description.value) else thumbnail;
    item.(thumbnail := thumbnail)
  }

  /** `t` is the capture of the pattern's preferred match in the truthy text `field`. */
  ghost predicate ExtractedFrom(t: Option<string>, field: Option<string>) {
    && Truthy(field)
    && t.Some?
    && exists p, k, e :: ImgSrc.Preferred(field.value, p, k, e) && t.value == field.value[k + 5..e]
  }

  /**
    A normalised thumbnail is either the original one or an image source found
    by the pattern in `content` or `description`: non-empty, free of `"` and
    `>`, and the text between `src="` and `"` of the match the regular
    expression reports.
  */
  lemma ThumbnailOrigin(item: Item)
    ensures var t := Normalize(item).thumbnail;
      || t == item.thumbnail
      || (ExtractedFrom(t, item.content) && forall i :: 0 <= i < |t.value| ==> ImgSrc.IsValueChar(t.value[i]))
      || (ExtractedFrom(t, item.description) && forall i :: 0 <= i < |t.value| ==> ImgSrc.IsValueChar(t.value[i]))
  {
    var t := Normalize(item).thumbnail;
    if t != item.thumbnail {
      if ImageIn(item.content).Some? {
        ImgSrc.FirstImgSrcIsRegexMatch(item.content.value);
      } else {
        ImgSrc.FirstImgSrcIsRegexMatch(item.description.value);
      }
    }
  }

  /** Normalising an item twice gives the same item as normalising it once. */
  lemma NormalizeIdempotent(item: Item)
    ensures Normalize(Normalize(item)) == Normalize(item)
  {
  }

  /** The feed mapping `items.map(...)`: same length, same order, each item normalised. */
  function NormalizeAll(items: seq<Item>): (r: seq<Item>)
    ensures |r| == |items|
    ensures forall i :: 0 <= i < |items| ==> r[i] == Normalize(items[i])
  {
    if items == [] then [] else [Normalize(items[0])] + NormalizeAll(items[1..])
  }

  /** `slice(0, 4)`: the first `min(4, |items|)` items, in order. */
  function LatestPosts(items: seq<Item>): (r: seq<Item>)
    ensures |r| == if |items| < PostLimit then |items| else PostLimit
    ensures r == items[..|r|]
  {
    if |items| <= PostLimit then items else items[..PostLimit]
  }

  /** Every item is a fixed point of normalisation, and there are at most four. */
  ghost predicate Normalized(posts: seq<Item>) {
    |posts| <= PostLimit && forall i :: 0 <= i < |posts| ==> Normalize(posts[i]) == posts[i]
  }

  /** What a successful fetch shows is normalised. */
  lemma LatestPostsNormalized(items: seq<Item>)
    ensures Normalized(LatestPosts(NormalizeAll(items)))
  {
  }

  // ---------------------------------------------------------------------------
  // Fetch outcome and error mapping
  // ---------------------------------------------------------------------------

  /** A thrown value: an `Error` object with its message, or anything else. */
  datatype Thrown = ErrorObject(message: string) | NonError

  /** The body of an HTTP-ok response: unreadable as JSON, or the JSON fields the loader looks at. */
  datatype Body =
    | Unreadable(thrown: Thrown)
    | Json(status: Option<string>, message: Option<string>, items: Option<seq<Item>>)

  /** What the single request to the conversion service produced. */
  datatype FetchOutcome =
    | Rejected(thrown: Thrown)
    | Response(status: int, body: Body)

  /** The outcome of the request once validated: a failure message, no `items`, or the items. */
  datatype Fetched = Failed(message: string) | NoItems | Items(items: seq<Item>)

  /** `Response.ok`: a status in the range 200 to 299. */
  predicate IsOk(status: int) {
    200 <= status <= 299
  }

  /** The message the catch clause shows for a thrown value. */
  function ThrownMessage(t: Thrown): (m: string)
    ensures t.NonError? ==> m == LoadFailedMessage
    ensures t.ErrorObject? ==> m == t.message
  {
    match t
    case ErrorObject(message) => message
    case NonError => LoadFailedMessage
  }

  /**
    Response validation: rate limiting and other non-ok statuses map to their
    fixed messages, a body whose `status` is `"error"` to its `message` (or the
    generic one when that is falsy), thrown values to their messages, and an
    accepted body to its `items` when they are present.
  */
  function Retrieve(outcome: FetchOutcome): (r: Fetched)
    ensures outcome.Response? && outcome.status == 429 ==> r == Failed(RateLimitedMessage)
    ensures outcome.Response? && !IsOk(outcome.status) && outcome.status != 429 ==>
              r == Failed(FetchFailedMessage)
    ensures outcome.Response? && IsOk(outcome.status) && outcome.body.Json? && outcome.body.status == Some("error") ==>
              r == Failed(if Truthy(outcome.body.message) then outcome.body.message.value else FetchFailedMessage)
    ensures outcome.Rejected? ==> r == Failed(ThrownMessage(outcome.thrown))
    ensures outcome.Response? && IsOk(outcome.status) && outcome.body.Unreadable? ==>
              r == Failed(ThrownMessage(outcome.body.thrown))
    ensures r.Items? <==>
              && outcome.Response? && IsOk(outcome.status)
              && outcome.body.Json? && outcome.body.status != Some("error") && outcome.body.items.Some?
    ensures r.Items? ==> r.items == outcome.body.items.value
    ensures r.NoItems? <==>
              && outcome.Response? && IsOk(outcome.status)
              && outcome.body.Json? && outcome.body.status != Some("error") && outcome.body.items.None?
  {
    match outcome
    case Rejected(t) => Failed(ThrownMessage(t))
    case Response(status, body) =>
      if !IsOk(status) then
        if status == 429 then Failed(RateLimitedMessage) else Failed(FetchFailedMessage)
      else
        match body
        case Unreadable(t) => Failed(ThrownMessage(t))
        case Json(st, message, items) =>
          if st == Some("error") then
            Failed(if Truthy(message) then message.value else FetchFailedMessage)
          else if items.Some? then Items(items.value)
          else NoItems
  }

  // ---------------------------------------------------------------------------
  // The cache slot and the load cascade
  // ---------------------------------------------------------------------------

  /**
    What reading the cache key and parsing it yields: storage that throws, no
    entry, text that does not parse to an object, or a cached batch whose
    timestamp is `None` when it is not a number (the age is then NaN).
  */
  datatype CacheSlot =
    | Unavailable
    | Empty
    | Corrupt
    | Entry(data: seq<Item>, timestamp: Option<int>)

  /** The cached batch may be served without a request: its age is below the window. */
  predicate IsFresh(slot: CacheSlot, now: int) {
    slot.Entry? && slot.timestamp.Some? && now - slot.timestamp.value < CacheDuration
  }

  /**
    The window is thirty minutes: a batch with a numeric timestamp is fresh up
    to an age of 1799999 ms and stale from 1800000 ms on; a batch whose age is
    NaN, an empty slot, corrupt text and unreadable storage are never fresh.
  */
  lemma FreshnessWindow(data: seq<Item>, timestamp: int, now: int)
    ensures IsFresh(Entry(data, Some(timestamp)), now) <==> now - timestamp <= 1799999
    ensures !IsFresh(Entry(data, None), now)
    ensures !IsFresh(Empty, now) && !IsFresh(Corrupt, now) && !IsFresh(Unavailable, now)
  {
  }

  /** The section's state: the posts shown, the loading flag and the error message. */
  datatype Screen = Screen(posts: seq<Item>, loading: bool, error: Option<string>)

  /** What one load leaves behind: the section's state, the cache slot, and whether a request was made. */
  datatype LoadResult = LoadResult(screen: Screen, cache: CacheSlot, requested: bool)

  /**
    One run of the loader from state `prev`, with cache slot `cache`, a store
    that does or does not accept writes, the clock reading `checkTime` taken
    when the cache is checked and `writeTime` taken when it is written.
  */
  function Load(prev: Screen, cache: CacheSlot, writable: bool, checkTime: int, writeTime: int,
                outcome: FetchOutcome): (r: LoadResult)
    ensures !r.screen.loading
    ensures r.requested <==> !IsFresh(cache, checkTime)
    ensures IsFresh(cache, checkTime) ==>
              r.screen.posts == cache.data && r.screen.error == prev.error && r.cache == cache
    ensures !IsFresh(cache, checkTime) && Retrieve(outcome).Items? ==>
              && r.screen.posts == LatestPosts(NormalizeAll(Retrieve(outcome).items))
              && r.screen.error == prev.error
              && r.cache == if writable then Entry(r.screen.posts, Some(writeTime)) else cache
    ensures !IsFresh(cache, checkTime) && Retrieve(outcome).NoItems? ==>
              r.screen == prev.(loading := false) && r.cache == cache
    ensures !IsFresh(cache, checkTime) && Retrieve(outcome).Failed? ==>
              && r.cache == cache
              && (cache.Entry? ==> r.screen.posts == cache.data && r.screen.error == None)
              && (!cache.Entry? ==> r.screen.posts == prev.posts && r.screen.error == Some(Retrieve(outcome).message))
  {
    if IsFresh(cache, checkTime) then
      LoadResult(prev.(posts := cache.data, loading := false), cache, false)
    else
      match Retrieve(outcome)
      case Items(items) =>
        var latest := LatestPosts(NormalizeAll(items));
        LoadResult(prev.(posts := latest, loading := false),
                   if writable then Entry(latest, Some(writeTime)) else cache, true)
      case NoItems =>
        LoadResult(prev.(loading := false), cache, true)
      case Failed(message) =>
        var shown := if cache.Entry? then prev.(posts := cache.data, error := None)
                     else prev.(error := Some(message));
        LoadResult(shown.(loading := false), cache, true)
  }

  /** A cache slot whose batch, if any, is normalised. */
  ghost predicate CacheNormalized(slot: CacheSlot) {
    slot.Entry? ==> Normalized(slot.data)
  }

  /**
    The section only ever shows normalised batches of at most four posts, and
    the cache only ever holds them, provided both held them before.
  */
  lemma LoadKeepsNormalized(prev: Screen, cache: CacheSlot, writable: bool, checkTime: int, writeTime: int,
                            outcome: FetchOutcome)
    requires Normalized(prev.posts) && CacheNormalized(cache)
    ensures var r := Load(prev, cache, writable, checkTime, writeTime, outcome);
      Normalized(r.screen.posts) && CacheNormalized(r.cache)
  {
    if !IsFresh(cache, checkTime) && Retrieve(outcome).Items? {
      LatestPostsNormalized(Retrieve(outcome).items);
    }
  }

  /**
    Cache round trip: after a load that fetched items into a store that
    accepts writes, a later load whose clock is less than thirty minutes past
    the write shows the same posts and makes no request, whatever the network
    would then do.
  */
  lemma CachedBatchServedWithinWindow(prev: Screen, cache: CacheSlot, t0: int, t1: int, outcome: FetchOutcome,
                                      t2: int, t3: int, writable2: bool, outcome2: FetchOutcome)
    requires !IsFresh(cache, t0) && Retrieve(outcome).Items?
    requires t2 - t1 < CacheDuration
    ensures var first := Load(prev, cache, true, t0, t1, outcome);
      var second := Load(first.screen, first.cache, writable2, t2, t3, outcome2);
      && !second.requested
      && second.screen.posts == first.screen.posts
      && second.screen.error == first.screen.error
  {
  }

  /** A store that refuses the write changes nothing the section shows. */
  lemma WriteFailureInvisible(prev: Screen, cache: CacheSlot, checkTime: int, writeTime: int, outcome: FetchOutcome)
    ensures Load(prev, cache, false, checkTime, writeTime, outcome).screen
         == Load(prev, cache, true, checkTime, writeTime, outcome).screen
    ensures Load(prev, cache, false, checkTime, writeTime, outcome).cache == cache
  {
  }

  /**
    An error is shown only when no cached batch exists at all: then the posts
    stay as they were. With a cached batch of any age the error is cleared.
  */
  lemma ErrorOnlyWithoutCachedBatch(prev: Screen, cache: CacheSlot, writable: bool, checkTime: int,
                                    writeTime: int, outcome: FetchOutcome)
    ensures var r := Load(prev, cache, writable, checkTime, writeTime, outcome);
      r.screen.error != prev.error ==>
        || (cache.Entry? && r.screen.error == None)
        || (!cache.Entry? && r.screen.posts == prev.posts && r.screen.error.Some?)
  {
  }

  /**
    Storage that cannot be read, and so cannot be written: every load makes
    the request, the store stays unreadable, and a failure leaves the error
    set and the posts as they were, since there is no batch to fall back on.
  */
  lemma UnreadableStorageStaysUnreadable(prev: Screen, checkTime: int, writeTime: int, outcome: FetchOutcome)
    ensures var r := Load(prev, Unavailable, false, checkTime, writeTime, outcome);
      && r.requested
      && r.cache == Unavailable
      && (Retrieve(outcome).Failed? ==>
            r.screen.posts == prev.posts && r.screen.error == Some(Retrieve(outcome).message))
  {
  }

  // ---------------------------------------------------------------------------
  // The imperative loader
  // ---------------------------------------------------------------------------

  /** The browser's local storage under the cache key. */
  class Store {
    var slot: CacheSlot
    const writable: bool

    /** Storage that cannot be read cannot be written either. */
    ghost predicate Valid()
      reads this
    {
      slot.Unavailable? ==> !writable
    }

    constructor (slot: CacheSlot, writable: bool)
      requires slot.Unavailable? ==> !writable
      ensures Valid() && this.slot == slot && this.writable == writable
    {
      this.slot := slot;
      this.writable := writable;
    }

    /** `getItem` followed by `JSON.parse`. */
    method Read() returns (s: CacheSlot)
      ensures s == slot
    {
      s := slot;
    }

    /** `setItem` of the batch and its timestamp; `ok` is false when the store refuses it. */
    method Write(data: seq<Item>, timestamp: int) returns (ok: bool)
      requires Valid()
      modifies this
      ensures Valid()
      ensures ok == writable
      ensures slot == if writable then Entry(data, Some(timestamp)) else old(slot)
    {
      ok := writable;
      if ok {
        slot := Entry(data, Some(timestamp));
      }
    }
  }

  /** The blog section's state, updated step by step by `FetchPosts`. */
  class BlogFeed {
    var posts: seq<Item>
    var loading: bool
    var error: Option<string>

    /** The initial state: no posts, loading, no error. */
    constructor ()
      ensures posts == [] && loading && error == None
    {
      posts := [];
      loading := true;
      error := None;
    }

    function View(): Screen
      reads this
    {
      Screen(posts, loading, error)
    }

    /**
      One run of the loader; `requested` says whether the request was made.
      The new state of the section and of the store is the one `Load`
      specifies.
    */
    method FetchPosts(store: Store, checkTime: int, writeTime: int, outcome: FetchOutcome)
      returns (requested: bool)
      requires store.Valid()
      modifies this, store
      ensures store.Valid()
      ensures old(store.slot).Unavailable? ==> store.slot.Unavailable?
      ensures var r := Load(old(View()), old(store.slot), store.writable, checkTime, writeTime, outcome);
        View() == r.screen && store.slot == r.cache && requested == r.requested
    {
      // A fresh cached batch is shown without a request.
      var cached := store.Read();
      if cached.Entry? && cached.timestamp.Some? {
        var age := checkTime - cached.timestamp.value;
        if age < CacheDuration {
          posts := cached.data;
          loading := false;
          requested := false;
          return;
        }
      }

      // The request and its validation; `failure` is the message of what was thrown.
      requested := true;
      var failure: Option<string> := None;
      var items: Option<seq<Item>> := None;
      match outcome {
        case Rejected(t) =>
          failure := Some(ThrownMessage(t));
        case Response(status, body) =>
          if !IsOk(status) {
            if status == 429 {
              failure := Some(RateLimitedMessage);
            } else {
              failure := Some(FetchFailedMessage);
            }
          } else {
            match body {
              case Unreadable(t) =>
                failure := Some(ThrownMessage(t));
              case Json(st, message, fields) =>
                if st == Some("error") {
                  failure := Some(if Truthy(message) then message.value else FetchFailedMessage);
                } else {
                  items := fields;
                }
            }
          }
      }

      if failure.None? {
        if items.Some? {
          var latest := LatestPosts(NormalizeAll(items.value));
          posts := latest;
          var written := store.Write(latest, writeTime);
        }
      } else {
        // The catch clause: show the error, then fall back to a cached batch of any age.
        error := failure;
        var stale := store.Read();
        if stale.Entry? {
          posts := stale.data;
          error := None;
        }
      }
      loading := false;
    }
  }
}
