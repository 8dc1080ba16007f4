# Portfolio site: blog feed loader and project carousel, in Dafny

This project models the two pieces of logic in a personal portfolio site, a
Next.js/React application:

- **The blog feed loader** (`fetchPosts` in `src/components/Blog.tsx`). It
  serves a cached batch of posts when that batch is less than thirty minutes
  old. Otherwise it fetches the author's feed through an RSS-to-JSON
  conversion service and maps failures to fixed messages. For each item
  without a thumbnail it takes the first image source found in the item's
  HTML. It keeps the first four items and caches them with a timestamp. When
  the fetch fails, it falls back to a cached batch of any age.
- **The project carousel** (`src/components/Projects.tsx`). It holds two state
  fields, `currentIndex` and `direction`. Three inputs change them: the
  previous and next buttons, a swipe at the end of a drag, and the row of
  dots.

Files:

- `wrappers.dfy` (module `Wrappers`): the `Option` datatype.
- `img_src.dfy` (module `ImgSrc`): the thumbnail pattern
  `<img[^>]+src="([^">]+)"` under JavaScript's `match` semantics. There are
  two definitions. The first is a declarative one: `Match` says what a match
  is, and `Preferred` picks the leftmost start and, for that start, the latest
  `src="`, because `[^>]+` is greedy. The second is a recursive computation,
  `FirstImgSrc`. Lemmas prove the two agree in both directions.
- `blog.dfy` (module `Blog`): feed items and their normalisation; the error
  mapping (`Retrieve`); the load cascade as a specification function (`Load`);
  and the imperative loader. The loader is the class `BlogFeed` with the
  fields `posts`, `loading` and `error`. Its `FetchPosts` method works on a
  `Store` object that holds the cache slot, and it is proved to end in the
  state that `Load` gives.
- `projects.dfy` (module `Projects`): `SwipePower`, the swipe-to-step mapping,
  and the class `Carousel`. Its methods keep `0 <= currentIndex < count`
  invariant.

The environment is abstracted into inputs:

- The fetch result is a `FetchOutcome`: a rejected request with the thrown
  value, or a response with its status and either an unreadable body or the
  JSON fields `status`, `message` and `items`.
- Local storage is a `Store`. It holds one `CacheSlot`: `Unavailable`,
  `Empty`, `Corrupt`, or `Entry(data, timestamp)`. A `timestamp` of `None`
  stands for a value whose age is NaN, such as a missing timestamp or a
  non-numeric string. A `const writable`
  flag says whether the store accepts writes. Storage that cannot be read
  cannot be written either (`Store.Valid`), which is how private browsing and
  server-side rendering behave.
- The clock is two parameters. The source reads `Date.now()` twice: once when
  it checks the cache (`checkTime`) and once when it writes the cache
  (`writeTime`).
- JavaScript truthiness of an optional string is `Truthy`: present and not
  empty. An `items` array counts as truthy even when it is empty.

The pattern matches a `src` that comes after other attributes, as in
`<img alt="x" src="y">`: `[^>]+` spans the other attributes. Because that
group is greedy, the match uses the last `src="` before the first `>` after
`<img` whose value is non-empty and closed by `"`. For `<img src="a"
data-src="b">` the result is `b`, as `ImgSrc.LatestSrcWins` proves. For
`<img src="a" data-src="">` it is `a`, because the empty value cannot
complete a match.

## Model

| member | source | states |
|---|---|---|
| `ImgSrc.FirstImgSrc` | src/components/Blog.tsx:72 | a captured image source is non-empty and contains neither `"` nor `>` |
| `ImgSrc.FirstImgSrcIsRegexMatch` | src/components/Blog.tsx:72 | the result is `None` exactly when the pattern matches nowhere; otherwise it is the text between `src="` and `"` of the match the engine reports (leftmost `<img`, then the latest `src="` reachable without crossing `>`) |
| `ImgSrc.PreferredIsFirstImgSrc` | src/components/Blog.tsx:72 | conversely, the capture of the preferred match is exactly what is returned, so the reported match is unique |
| `ImgSrc.SrcAfterImgIsGreedy` | src/components/Blog.tsx:72 | for a fixed `<img` position, the chosen `src="` yields a match, and no match places `src="` later |
| `ImgSrc.SrcAtIffTail` | src/components/Blog.tsx:72 | the tail `src="([^">]+)"` matches at `k` with closing quote `e` if and only if `SrcAt` holds at `k` and `e` is the end of the maximal run of non-`"`/`>` characters, so the closing quote has one possible place |
| `ImgSrc.MatchFrom` | src/components/Blog.tsx:72 | returns the leftmost start at or after `from` where the pattern matches; no earlier start matches |
| `ImgSrc.SrcAfterImg` | src/components/Blog.tsx:72 | the chosen `src="` follows the `<img` by at least one character and comes before the next `>` |
| `ImgSrc.LastSrc` | src/components/Blog.tsx:72 | the greatest position in the range where the tail matches, or `None` when there is none |
| `ImgSrc.NextGt` | src/components/Blog.tsx:72 | the first `>` at or after a position (or the end): the reach of `[^>]+` |
| `ImgSrc.ValueEnd` | src/components/Blog.tsx:72 | the end of the run of characters accepted by `[^">]+` |
| `ImgSrc.PlainTag` | src/components/Blog.tsx:72 | for every non-empty URL without `"` or `>`, `<img src="URL">` yields that URL |
| `ImgSrc.LatestSrcWins` | src/components/Blog.tsx:72 | in `<img src="a" data-src="b">` the later `src="` wins and the result is `b`; attributes before `src` do not prevent a match |
| `Blog.ImageIn` | src/components/Blog.tsx:71-82 | a field is searched only when it is truthy; any image found is truthy and contains no `"` or `>` |
| `Blog.Normalize` | src/components/Blog.tsx:68-85 | a truthy thumbnail is kept; otherwise the content's image is used, else the description's image, else the original falsy value; every other field is unchanged |
| `Blog.ThumbnailOrigin` | src/components/Blog.tsx:68-85 | a normalised thumbnail is either the original one or the regex capture of the preferred match in `content` or `description`, without `"` or `>` |
| `Blog.NormalizeIdempotent` | src/components/Blog.tsx:68-85 | normalising an already-normalised item changes nothing |
| `Blog.NormalizeAll` | src/components/Blog.tsx:66-86 | the mapping keeps the count and order of the items and normalises each one |
| `Blog.LatestPosts` | src/components/Blog.tsx:88 | the result is the prefix of length `min(4, n)` |
| `Blog.LatestPostsNormalized` | src/components/Blog.tsx:66-88 | a fetched batch has at most four items, each a fixed point of normalisation |
| `Blog.ThrownMessage` | src/components/Blog.tsx:103 | an `Error` shows its own message; any other thrown value shows "Failed to load blog posts" |
| `Blog.Retrieve` | src/components/Blog.tsx:52-65 | status 429 gives the rate-limit message; any other non-ok status gives "Failed to fetch blog posts"; a body whose `status` is `"error"` gives its truthy `message` or else the generic message; a thrown value gives its message; items are accepted exactly when the response is ok, the body is readable and not an error, and `items` is present; the result is "no items" exactly when the same holds but `items` is absent |
| `Blog.IsOk` | src/components/Blog.tsx:52 | definition of `res.ok`: a status from 200 to 299 |
| `Blog.Load` | src/components/Blog.tsx:26-119 | `loading` ends false on every path; a request is made exactly when the cache is not fresh (age below 30 minutes); a fresh cache shows its data and leaves the cache and error alone; success shows the first `min(4, n)` normalised items and writes them with `writeTime` only when the store accepts writes; no `items` changes nothing but `loading`; after a failure, a cached batch of any age is shown with no error, and otherwise the error is set and the posts stay |
| `Blog.IsFresh` | src/components/Blog.tsx:31-35 | definition of the freshness test: a cached batch with a numeric timestamp whose age `now - timestamp` is below `CACHE_DURATION` |
| `Blog.FreshnessWindow` | src/components/Blog.tsx:18-35 | a cached batch with a numeric timestamp is fresh exactly while its age is below 1800000 ms (30 minutes); a NaN age, an empty slot, corrupt text and unreadable storage are never fresh |
| `Blog.LoadKeepsNormalized` | src/components/Blog.tsx:85-99 | if the posts shown and the cached batch were normalised batches of at most four, they still are after a load |
| `Blog.CachedBatchServedWithinWindow` | src/components/Blog.tsx:29-99 | after a load that fetched items into a writable store, a later load less than 30 minutes after the write makes no request and shows the same posts and error |
| `Blog.WriteFailureInvisible` | src/components/Blog.tsx:92-99 | a store that refuses the write leaves the cache alone and changes nothing on screen compared with one that accepts it |
| `Blog.ErrorOnlyWithoutCachedBatch` | src/components/Blog.tsx:101-115 | a load changes the error only by clearing it when a cached batch exists, or by setting it, with the posts unchanged, when none exists |
| `Blog.UnreadableStorageStaysUnreadable` | src/components/Blog.tsx:29-45 | with storage that can be neither read nor written, a load always makes the request and leaves the storage unreadable; a failure then sets the error and keeps the posts, because the fallback read also fails (Blog.tsx:104-113) |
| `Blog.Store.Read` | src/components/Blog.tsx:30-32 | reading returns the current cache slot |
| `Blog.Store.Write` | src/components/Blog.tsx:92-99 | a write stores the batch and timestamp when the store accepts writes and changes nothing otherwise, reporting which |
| `Blog.BlogFeed.constructor` | src/components/Blog.tsx:21-23 | the section starts with no posts, loading, and no error |
| `Blog.BlogFeed.FetchPosts` | src/components/Blog.tsx:26-119 | after the run, the section's state, the store's slot and whether a request was made are exactly what `Load` specifies for the old state and slot; unreadable storage stays unreadable |
| `Projects.SwipePower` | src/components/Projects.tsx:45-47 | the magnitude is `abs(offset) * abs(velocity)`; the power is negative exactly when the velocity is negative and the offset non-zero, and positive exactly when the velocity is positive and the offset non-zero |
| `Projects.SwipeStep` | src/components/Projects.tsx:61-69 | the step is 1 exactly when the power is below -10000, -1 exactly when it is above 10000, and 0 exactly when its magnitude is at most 10000 |
| `Projects.SwipeNeedsMovement` | src/components/Projects.tsx:44-69 | a swipe that moves needs a non-zero offset; moving forward needs a negative velocity and moving back a positive one |
| `Projects.CanMove` | src/components/Projects.tsx:54-55 | definition of `paginate`'s guard: the new index `currentIndex + d` lies in `[0, count)` |
| `Projects.Carousel.constructor` | src/components/Projects.tsx:50-51 | the carousel starts at project 0 with direction 0, over the four projects |
| `Projects.Carousel.Paginate` | src/components/Projects.tsx:53-59 | when the new index is in `[0, count)` the index moves by `d` and the direction becomes `d`; otherwise neither changes; the index always stays in range |
| `Projects.Carousel.HandleDragEnd` | src/components/Projects.tsx:61-69 | the state moves by the swipe's step when that step is non-zero and lands on a project; otherwise it is untouched |
| `Projects.Carousel.SelectDot` | src/components/Projects.tsx:148-151 | the index becomes `idx`; the direction is 1 when `idx` is after the old index and -1 otherwise, including for the current dot |
| `Projects.Carousel.PreviousDisabled` | src/components/Projects.tsx:138 | the previous button is disabled exactly when `paginate(-1)` would change nothing |
| `Projects.Carousel.NextDisabled` | src/components/Projects.tsx:160 | the next button is disabled exactly when `paginate(1)` would change nothing |

## Left out

- Rendering is not modelled: JSX, styling, framer-motion animations, and the enter/exit `variants` offsets (`src/components/Projects.tsx:71-86`). These are presentation only.
- The real `fetch`, `res.json()`, `JSON.parse`, `JSON.stringify`, `localStorage` and `Date.now()` are inputs. The fetch result is a `FetchOutcome`, storage is a `Store` holding a `CacheSlot`, and the clock is two `int` readings.
- The message of a rejected `fetch` is browser-defined. It is part of the `Rejected` input rather than a constant.
- A cached text that parses but is not an object with a `data` array is modelled as `Corrupt`, which is never fresh. The source differs on two paths. If such an object has a numeric `timestamp` younger than thirty minutes, the source sets `posts` to whatever `data` is and returns without a request, while the model fetches (`src/components/Blog.tsx:32-38`). On the fallback path the source also sets `posts` to that `data`, for example `undefined`, and clears the error (`src/components/Blog.tsx:107-110`). Neither value has a meaning on the screen.
- A numeric string stored as the cache timestamp is modelled as `None`. JavaScript would coerce it to a number.
- A `null` cache timestamp is modelled as `None`, so its age is NaN. JavaScript coerces `null` to 0, which makes the age equal to the clock reading, and so stale for any real clock.
- An `items` value that is truthy but not an array is not modelled, and neither is a non-string `content` or `description`. In the source both make the mapping throw, which leads into the failure path.
- Item fields beyond title, date, link, thumbnail, content, description and categories are not modelled. The source passes them through `{ ...item }` unchanged.
- The feed and service URLs from `process.env`, and `encodeURIComponent` (`src/components/Blog.tsx:47-50`), are not modelled. They are configuration and a library call.
- `console.error`, React's `useEffect`/`useState` lifecycle, and overlapping asynchronous runs are not modelled. They are framework behaviour and concurrency.
- Date formatting with `toLocaleDateString` and the two-category display slice (`src/components/Blog.tsx:212,222`) are not modelled. They are locale-dependent library code and display logic.
- Drag offsets and velocities are `real`. The floating-point cases NaN and Infinity are not modelled.
- `src/components/Skills.tsx`, `src/components/Certifications.tsx`, `src/components/Contact.tsx`, `src/app/layout.tsx` and `src/app/page.tsx` are not part of this model. They hold static content and page composition, with no logic.
