# Image gallery slideshow: rotation, crossfade grid and backend transforms

This project models the core of an image-gallery slideshow in Dafny and proves
properties of that model. The slideshow shows a grid of images fetched from
Reddit or scanned from a local folder, and rotates each cell on its own timer.

The model covers three parts.

- **The rotation scheduler** (`Rotation`, after `ImageRotator` in
  frontend/js/image-rotator.js). It is a class. It holds:
  - the media list;
  - a draw queue made by an in-place Fisher-Yates shuffle of an array;
  - the per-cell timer handles;
  - the `isRunning` and `isPaused` flags.

  `Math.random()` is an oracle: the class `Oracle.Random` hands out a fixed
  stream of values in [0, 1). So every property holds for every sequence of
  random values. Timers are values in the handle list. Firing one is an
  explicit method call: `StartCellTimer` for a stagger timeout,
  `OnRotationTick` for a repeating timer.
- **The crossfade grid** (`Grid`, after `GridManager` in
  frontend/js/grid-manager.js). Cells are objects with two image slots, a busy
  flag with a timestamp, and overlay text.
  - `setImage` is asynchronous in the source. It is modelled as three steps
    that may be interleaved with other calls: `BeginSetImage`, `FinishPreload`
    and `FinishTransition`. `SetImage` is the three run back to back.
  - Time is an integer `now`.
  - The outcome of the image preload is a boolean.
- **Backend transforms** of backend/server.js:
  - `RedditFeed`: the `POST /api/reddit/fetch` loop that turns posts into media
    descriptors. The network is a function parameter `fetch`.
  - `Profiles`: the profile-id slug and the id forced on `PUT`.
  - `Config`: the configuration defaults, loading, and the `PUT /api/config`
    merge.
  - `FolderScan`: the recursive folder scan with its extension
    classification. A directory tree is a value (`Folder`), and each folder
    is readable or not.

Helper modules:
- `Descriptors`: `Option` and the media descriptor the frontend receives.
- `Text`: ASCII lower-casing, suffix and substring search, replacement, and
  decimal text.
- `JsonValue`: parsed JSON values and JavaScript truthiness.

Behaviours of the source that the model keeps as written:
- `start()` while already running adds a new set of stagger timeouts without
  cancelling the old ones (`Rotation.ImageRotator.Start`).
- The imgur rewrite replaces the first `imgur.com` even inside
  `i.imgur.com`. So a direct imgur link without an extension becomes
  `https://i.i.imgur.com/...jpg` (`RedditFeed.DirectImgurLinkRewritten`).
- A rotation still in flight when the grid is rebuilt or cleared keeps
  writing to the cell object it took. After `createGrid` that cell is no
  longer in the grid.
- An unparsable configuration file is overwritten with the defaults
  (`Config.LoadConfigSettles`).

## Model

| member | source | states |
|---|---|---|
| Oracle.Random.Next | frontend/js/image-rotator.js:160 | each `Math.random()` call returns the next value of the stream, which lies in [0, 1), and advances the stream by one |
| Rotation.Pick | frontend/js/image-rotator.js:160 | `Math.floor(r * (i + 1))` is an index in 0..i for every r in [0, 1) |
| Rotation.PickCovers | frontend/js/image-rotator.js:160 | every index in 0..i is chosen by some random value |
| Rotation.SwapExchanges | frontend/js/image-rotator.js:161 | the destructuring swap exchanges positions i and j, keeps every other position and the multiset |
| Rotation.FisherYatesPermutes | frontend/js/image-rotator.js:158-164 | the shuffle returns a permutation of its input: same length, same multiset |
| Rotation.FisherYatesKeepsTail | frontend/js/image-rotator.js:159-162 | positions above the loop index are never touched again |
| Rotation.FirstDrawIsPicked | frontend/js/image-rotator.js:158-164 | the last element after a shuffle, which is the first one `getNextImage` pops, is the element at the first random pick |
| Rotation.AnyItemCanBeDrawnFirst | frontend/js/image-rotator.js:158-164 | every element of a non-empty list ends last after the shuffle, so is drawn first, for some random values |
| Rotation.SwapWithPick | frontend/js/image-rotator.js:160-161 | one loop round takes the next random value, picks j in 0..i from it and exchanges the array's positions i and j, leaving every other position alone |
| Rotation.Shuffle | frontend/js/image-rotator.js:158-164 | the in-place loop leaves the array as the specification shuffle of its old contents, a permutation of them, and uses one random value per position above 0 |
| Rotation.ShuffledCopy | frontend/js/image-rotator.js:17 | `this.shuffle([...xs])` returns a shuffled permutation of the list and leaves the list alone |
| Rotation.DealtPop | frontend/js/image-rotator.js:116 | popping the queue's last item onto the draws keeps the draws equal to the end of the last fill, in reverse order |
| Rotation.StaggerDelay | frontend/js/image-rotator.js:79 | for a random value in [0, 1) and a positive interval, the stagger delay lies in [0, 0.3 * interval) |
| Rotation.RotationPeriod | frontend/js/image-rotator.js:91 | for a random value in [0, 1) and a positive interval, the rotation period lies in [0.8 * interval, 1.2 * interval) |
| Rotation.StaggerTimersBounded | frontend/js/image-rotator.js:74-87 | the timers added for n cells are one stagger timeout per cell, cell k's at position k, each delay inside the stagger window |
| Rotation.InitialInterval | frontend/js/image-rotator.js:9 | the configured interval in seconds times 1000 when it is set and nonzero, and exactly 60000 ms when it is 0 or absent; never 0 |
| Rotation.ImageRotator.constructor | frontend/js/image-rotator.js:3-13 | empty media list, queue and timers, the configured interval, neither running nor paused |
| Rotation.ImageRotator.SetImages | frontend/js/image-rotator.js:15-18 | the media list becomes xs and the queue becomes a Fisher-Yates permutation of xs |
| Rotation.ImageRotator.SetInterval | frontend/js/image-rotator.js:20-25 | the interval is always set; while running and not paused the timers become exactly one stagger timeout per cell with the next random delays, one value used per cell; otherwise the timers and the random stream are untouched |
| Rotation.ImageRotator.GetNextImage | frontend/js/image-rotator.js:110-117 | with a non-empty media list the result is a member of it, and with an empty list it is undefined; a non-empty queue loses exactly its last item, which is returned; an empty queue is first refilled with a permutation of the whole list, so it ends with one item fewer than the list; every draw is the next item of the last fill, read from its end |
| Rotation.ImageRotator.CycleCoversImages | frontend/js/image-rotator.js:110-117 | the queue and the draws since the last refill hold the media list exactly once between them, so the draws between two refills are a permutation of the list once the queue is empty |
| Rotation.ImageRotator.Refill | frontend/js/image-rotator.js:113 | the queue becomes a Fisher-Yates permutation of the whole media list |
| Rotation.ImageRotator.PopQueue | frontend/js/image-rotator.js:116 | `pop()` on a non-empty queue removes and returns its last item, a member of the media list |
| Rotation.ImageRotator.PopulateAllCells | frontend/js/image-rotator.js:65-72 | draws exactly one item per cell in cell order, each a member of a non-empty media list, after the unchanged earlier history; when the queue holds enough items, the k-th draw is the k-th item from the queue's end and the queue keeps the rest; each cell ends as `setImage` leaves it: a cell busy at `now` keeps its whole view; otherwise the lock ends released, a failed preload keeps the image and both slots, and a successful one shows that cell's draw |
| Rotation.ImageRotator.StartTimers | frontend/js/image-rotator.js:74-87 | appends one stagger timeout per cell to the handle list, with one random value per cell |
| Rotation.ImageRotator.StartCellTimer | frontend/js/image-rotator.js:89-103 | appends one repeating timer for the cell, with a period in [0.8, 1.2) * interval |
| Rotation.ImageRotator.OnRotationTick | frontend/js/image-rotator.js:93-97 | while paused a tick changes no cell, draws nothing and leaves the queue, its bookkeeping and the random stream alone; otherwise it draws one item, no other cell changes, and the cell ends as `setImage` leaves it: kept whole when busy, otherwise released, kept on a failed preload and showing the draw on a successful one |
| Rotation.ImageRotator.RotateCell | frontend/js/image-rotator.js:105-108 | draws one item, the queue's last when it is not empty, and no other cell changes; the cell ends as `setImage` leaves it: kept whole when busy, otherwise released, with its image and slots kept on a failed preload and the draw shown on a successful one |
| Rotation.ImageRotator.ClearTimers | frontend/js/image-rotator.js:119-125 | the handle list ends empty |
| Rotation.ImageRotator.RestartTimers | frontend/js/image-rotator.js:127-130 | the handle list ends as exactly one stagger timeout per cell, with delays taken from the next random values, one per cell |
| Rotation.ImageRotator.Start | frontend/js/image-rotator.js:36-47 | does nothing with an empty media list, leaving the cells, the queue and the random stream alone; otherwise running and unpaused, one draw per cell after the unchanged earlier history, taken from the queue's end when it holds enough items; each cell ends as `setImage` leaves it: a cell busy at `now` keeps its whole view; otherwise the lock ends released, a failed preload keeps the image and both slots, and a successful one shows that cell's draw; and one stagger timeout per cell appended to the existing handles |
| Rotation.ImageRotator.Stop | frontend/js/image-rotator.js:49-52 | not running and no timers; the pause flag is untouched |
| Rotation.ImageRotator.Pause | frontend/js/image-rotator.js:54-57 | paused and no timers; the running flag is untouched |
| Rotation.ImageRotator.Resume | frontend/js/image-rotator.js:59-63 | does nothing and draws no random value when not running; otherwise unpaused with one stagger timeout per cell appended |
| Rotation.ImageRotator.PauseThenResume | frontend/js/image-rotator.js:54-63 | a pause then a resume leaves exactly one stagger timeout per cell when running, and a paused, empty list otherwise |
| Rotation.ImageRotator.ShuffleAll | frontend/js/image-rotator.js:133-146 | the queue is refilled with the Fisher-Yates shuffle of the whole list; when the grid has no more cells than the list has items, the k-th cell's draw is the k-th item from the end of that shuffle and the queue keeps the rest; every cell gets one draw in cell order and ends as `setImage` leaves it: a cell busy at `now` keeps its whole view; otherwise the lock ends released, a failed preload keeps the image and both slots, and a successful one shows that cell's draw |
| Rotation.ImageRotator.RedistributeImages | frontend/js/image-rotator.js:149-155 | does nothing when not running; otherwise one draw per cell after the unchanged earlier history, taken from the queue's end when it holds enough items; each cell ends as `setImage` leaves it: a cell busy at `now` keeps its whole view; otherwise the lock ends released, a failed preload keeps the image and both slots, and a successful one shows that cell's draw; and the timers replaced by one stagger timeout per cell |
| Grid.Other | frontend/js/grid-manager.js:107 | the next slot is never the current one |
| Grid.MetaTextShowsScore | frontend/js/grid-manager.js:130-132 | the meta text of a Reddit item is `r/` and its subreddit, then a vertical bar between two spaces, then the score as decimal text that reads back as the score, then ` points`; for an item without a subreddit it is the path when the item is local and empty otherwise |
| Grid.Cell.CurrentSlot | frontend/js/grid-manager.js:106 | the current slot is visible iff either slot is; in a valid cell the other slot is hidden; with both hidden the second slot is current |
| Grid.StaleLockExpires | frontend/js/grid-manager.js:94 | a busy flag taken at `now` is not stuck then; a set timestamp is stuck 5001 ms later but not 5000 ms later, and stays stuck from then on; the unset timestamp never is |
| Grid.Cell.Blank | frontend/js/grid-manager.js:210-217 | a cleared cell has both slots empty and hidden, no image, and keeps its index and busy state |
| Grid.Cell.constructor | frontend/js/grid-manager.js:26-34 | a new cell has its index, no image, no busy flag and two empty hidden slots |
| Grid.GridManager.constructor | frontend/js/grid-manager.js:3-9 | no cells; a row or column count of 0 falls back to 3 |
| Grid.GridManager.CreateGrid | frontend/js/grid-manager.js:11-38 | exactly rows * cols new cells (none when that is not positive), so that many in the cell count, cell i with index i, no image, not busy, both slots empty and hidden |
| Grid.GridManager.CellCount | frontend/js/grid-manager.js:78-80 | in a valid grid, the cell count is the first index with no cell, and every index below it has its cell |
| Grid.GridManager.GetCell | frontend/js/grid-manager.js:78-84 | a cell exists exactly for the indices below the cell count, and it carries that index |
| Grid.GridManager.BeginSetImage | frontend/js/grid-manager.js:87-107 | refuses an index outside the grid and a cell busy for at most 5000 ms, changing nothing; otherwise takes the busy flag at `now`, overriding a stale one, and notes the current slot |
| Grid.GridManager.FinishPreload | frontend/js/grid-manager.js:109-136 | a failed preload releases the flag and changes nothing else; a successful one puts the URL in the hidden slot, shows it, hides the other slot and rewrites the overlay |
| Grid.GridManager.FinishTransition | frontend/js/grid-manager.js:138-147 | the cell records its new image and the flag is released |
| Grid.GridManager.SetImage | frontend/js/grid-manager.js:87-148 | a missing or busy cell is unchanged; otherwise the flag ends released with timestamp `now`; a failed preload keeps the image, slots and overlay; a success shows the new image in the formerly hidden slot and hides the formerly shown slot with its URL kept, so exactly one slot is visible; no other cell changes; the new view is the one `SetImageView` gives, which the rotator's contracts use |
| Grid.GridManager.Clear | frontend/js/grid-manager.js:209-218 | every cell keeps its index and busy state, forgets its image and has both slots empty and hidden |
| Text.Lower | backend/server.js:194 | ASCII lower-casing keeps the length and maps each character on its own |
| Text.LowerIdempotent | backend/server.js:283 | lower-casing twice is lower-casing once |
| Text.IndexFrom | backend/server.js:417-418 | the search returns the first match at or after the start, or -1 when there is none |
| Text.ReplaceFirst | backend/server.js:418 | `String.replace` with a string pattern replaces the first occurrence only, and changes nothing without one |
| Text.UnescapeEscapeAmp | backend/server.js:435 | replacing every `&amp;` by `&` undoes HTML escaping of ampersands |
| Text.NatTextRoundTrip | backend/server.js:378 | the decimal text of a number is all digits and reads back as the number |
| Text.IntTextRoundTrip | backend/server.js:378 | decimal text of any integer, sign included, reads back as the integer |
| RedditFeed.FetchImages | backend/server.js:356-475 | a missing or empty subreddit list is refused with "Subreddits required"; otherwise the images are the per-subreddit results concatenated in order, the errors one per failed fetch, and the count the number of images |
| RedditFeed.ListingUrlShape | backend/server.js:378-379 | the listing URL is the subreddit's path under `https://www.reddit.com/r/` and ends with a `limit` parameter whose value reads back as the requested post count |
| RedditFeed.DirectImageEndings | backend/server.js:404 | any URL ending in `.jpg`, `.jpeg`, `.png`, `.gif` or `.webp` passes the image-extension test, and a URL whose last character is not `g`, `f` or `p` in either case fails it |
| RedditFeed.ImgurPageMeans | backend/server.js:417 | a URL is an imgur page iff `imgur.com` occurs in it and neither `/a/` nor `/gallery/` does |
| RedditFeed.ImgurDirectUrl | backend/server.js:418 | the first `imgur.com` becomes `i.imgur.com` and `.jpg` is appended (only `.jpg` is appended when there is none), so the result always passes the image-extension test |
| RedditFeed.PostImages | backend/server.js:393-447 | a post yields descriptors only when it passes both filters; every descriptor carries the post's subreddit, title, score, NSFW flag, author and permalink; only a gallery post yields more than one |
| RedditFeed.CollectSub | backend/server.js:376-465 | one subreddit appends exactly its listing's descriptors, or exactly one error when its fetch failed |
| RedditFeed.CollectGallery | backend/server.js:432-445 | the gallery loop appends exactly the descriptors of the entries with a source URL and counts them |
| RedditFeed.CollectPost | backend/server.js:393-447 | one post appends exactly its descriptors and raises the per-subreddit count by their number |
| RedditFeed.NsfwBlocked | backend/server.js:397 | an NSFW post yields nothing when the filter is "block" |
| RedditFeed.NsfwOnlyFlagsWhenNotBlocked | backend/server.js:397-443 | with any other filter an NSFW post is kept, and each of its descriptors is flagged NSFW |
| RedditFeed.ScoreFiltered | backend/server.js:400 | a post scoring below the minimum yields nothing |
| RedditFeed.DirectImageKept | backend/server.js:404-415 | a post with a direct image URL yields exactly one descriptor, with the URL unchanged |
| RedditFeed.DirectImageIgnoresCase | backend/server.js:404 | the image-extension test ignores letter case |
| RedditFeed.ImgurPageRewritten | backend/server.js:417-429 | an imgur page yields one descriptor whose URL has the first `imgur.com` replaced by `i.imgur.com` and `.jpg` appended, and that URL passes the image-extension test |
| RedditFeed.GalleryEntriesKept | backend/server.js:431-445 | a gallery post yields one descriptor per media entry with a source URL, in entry order, each URL with `&amp;` unescaped |
| RedditFeed.GalleryUrlUnescaped | backend/server.js:435 | an escaped gallery URL comes out as the original URL |
| RedditFeed.AtMostOneUrlDescriptor | backend/server.js:404-429 | a post taken by the direct or the imgur branch yields at most one descriptor: the branches are exclusive |
| RedditFeed.OtherPostsDropped | backend/server.js:404-445 | a post with no direct image URL, no imgur page and no gallery metadata yields nothing, whatever the filters say |
| RedditFeed.FeedImagesPassFilters | backend/server.js:374-447 | every returned descriptor comes from a requested subreddit and meets the score minimum, and is not NSFW when the filter is "block" |
| RedditFeed.FeedConcatenates | backend/server.js:374-466 | the images for two lists of subreddits are the images for each, in order |
| RedditFeed.FeedErrorsConcatenate | backend/server.js:374-466 | the errors for two lists of subreddits are the errors for each, in order |
| RedditFeed.FeedErrorsAreFailures | backend/server.js:458-459 | each error names a subreddit whose fetch failed and carries its message; there is one error per failed fetch |
| RedditFeed.DirectImgurLinkRewritten | backend/server.js:417-418 | any direct link `https://i.imgur.com/` + id without an image extension (and without `/a/` or `/gallery/`) is treated as an imgur page and rewritten to `https://i.i.imgur.com/` + id + `.jpg` |
| Profiles.Slug | backend/server.js:194 | the slug has the name's length and maps each character on its own |
| Profiles.SlugShape | backend/server.js:194 | a slug holds only `a-z`, `0-9` and `-`; letters and digits keep their place, lower-cased, and every other character becomes `-` |
| Profiles.SlugIdempotent | backend/server.js:194 | the slug of a slug is itself |
| Profiles.CreateProfile | backend/server.js:190-202 | a truthy id is kept; otherwise the id becomes the slug of the name and nothing else changes; without a string name the handler fails |
| Profiles.CreateProfileStable | backend/server.js:190-202 | posting a created profile again stores it unchanged |
| Profiles.UpdateProfile | backend/server.js:207 | the stored profile is the body with its id forced to the path parameter |
| Profiles.UpdateProfileIgnoresBodyId | backend/server.js:207 | whatever id the body carries, the result is the same, and repeating the update changes nothing |
| Config.LoadConfigSettles | backend/server.js:50-60 | after one load the file holds what was returned, so the next load returns the same configuration and rewrites nothing; a missing or unparsable file settles on the defaults |
| Config.Spread | backend/server.js:158 | spreading an object gives its fields; an array or a string gives its elements or characters under exactly their decimal indices; any other value gives nothing |
| Config.PutConfig | backend/server.js:157-161 | every key of the body is stored with the body's value; on a parsed object file its other keys keep their stored values; on a missing or unparsable file the keys are the defaults' and the body's; on a number, boolean or null file the body alone |
| Config.MergeConfig | backend/server.js:158 | the merge has every key of either side, and the body's value wins |
| Config.PutConfigIdempotent | backend/server.js:157-161 | applying the same body twice leaves the file as applying it once |
| Config.MergeNeutral | backend/server.js:158 | merging a configuration with itself or with an empty body changes nothing |
| Config.PutConfigOverDefaults | backend/server.js:157-161 | on a missing or unparsable file every default the body does not mention survives the PUT |
| FolderScan.LastDotIsLast | backend/server.js:283 | the position found holds a `.` and no `.` follows it before n; -1 means there is no `.` before n |
| FolderScan.ExtShape | backend/server.js:283 | `path.extname`: empty, or a suffix of the name that starts with its only `.`; empty when the name has no dot past its first character, and otherwise reaching back at least to the last such dot |
| FolderScan.ClassifyAccepts | backend/server.js:282-290 | a file is listed iff its lower-cased extension is an image extension, or a video extension with videos enabled; its type is video iff the extension is a video extension |
| FolderScan.ScanFindsOnlyAccepted | backend/server.js:276-293 | every file a scan lists passes the extension test |
| FolderScan.NonRecursiveScan | backend/server.js:280-281 | without recursion a readable folder yields exactly its own files, and subfolders are not entered |
| FolderScan.ScanIncludesEveryEntry | backend/server.js:276-293 | a successful scan holds everything each entry contributes: its accepted files and, when recursive, whatever each subfolder's scan finds |
| FolderScan.RecursiveScanEntersSubfolders | backend/server.js:280-281 | a successful recursive scan has scanned every subfolder successfully and lists everything found there |
| FolderScan.ScanFindsExactlyReached | backend/server.js:276-293 | a successful scan lists a file iff the walk reaches it: every accepted file of the tree, at any depth when recursive, and nothing else |
| FolderScan.FailureIsFinal | backend/server.js:276-298 | once one entry's scan fails, the whole scan fails |
| FolderScan.Scanner.ScanDir | backend/server.js:276-293 | the loop appends exactly what the scan specification lists, and fails exactly when it does |
| FolderScan.Scanner.ScanEntry | backend/server.js:279-291 | one entry appends exactly what its specification lists, and fails exactly when it does |
| FolderScan.ScanFolder | backend/server.js:263-300 | an empty folder path is refused with "Folder path required"; a failing scan is a server error; otherwise the files found and their count |

## Left out

- The DOM: `setFitMode`, the fit-mode class names, the NSFW blur class, the
  tooltip, `updateCountdown` and the `createCell` elements. Cells hold only
  the state the model reads: slots, image, busy flag, title and meta text.
- The unused `nextImage` field of a cell record is not modelled.
- `preloadImage` is a boolean outcome. Its `Image` loading and its 10 s
  timeout are browser I/O.
- Real timers are left out: the event loop, `setTimeout` and `setInterval`
  scheduling, the 400 ms crossfade wait and the 50 ms stagger of
  `shuffleAll`. Handles are values and firing is an explicit call.
- Rotation.ImageRotator.ShuffleAll: runs its cell updates in cell order at
  one `now`, because the 50 ms spacing between them is timer scheduling.
- Rotation.ImageRotator.PopulateAllCells: the `setImage` calls are not
  awaited in the source; they touch distinct cells and are modelled in
  sequence.
- The distribution of `Math.random()` is out of scope. The model proves
  bounds and permutation facts for every stream of values in [0, 1).
- Floating point: intervals, delays and periods are exact reals.
- Text.Lower: lower-cases ASCII letters only. This matches the `/i` flag of
  the extension test and the extension lists. `toLowerCase` also maps
  non-ASCII capitals; for the slug that matters only where the lower case is
  ASCII (the Kelvin sign and the dotted capital I), since every other
  non-ASCII character becomes `-` either way.
- Profiles.Slug: works on characters, while the source's regular expression
  (without the `u` flag) works on UTF-16 code units. A character outside the
  Basic Multilingual Plane, such as an emoji, is two code units, so the
  source writes two `-` for it where the model writes one.
- FolderScan.Join: concatenates with `/` and does not normalise the path as
  `path.join` does. Windows separators are left out.
- Gallery entries keep the order `Object.entries` gives them. Its
  integer-key ordering is not modelled.
- JSON key order and `JSON.stringify` output are not modelled, so stored
  objects are maps.
- RedditFeed.FetchImages: a post whose fields make the loop throw halfway is
  not modelled. In the source that case keeps the images already pushed for
  that subreddit and records an error. The model treats a subreddit as
  either fetched or failed.
- RedditFeed.FetchImages: the network is a function `fetch` from URL to
  listing, so a subreddit named twice in one request gets the same listing
  both times; the source requests it again and may get a different answer.
- Error message texts of caught exceptions are kept as given by `fetch`;
  the other handlers' messages are left out.
- File-system and network I/O: the profile files, `saveConfig`, the
  outbound Reddit request, the progress events (SSE) and the
  `overallProgress` rounding.
- The other backend routes: `initProfiles` and the default profiles, the
  profile GET and DELETE routes, the folder dialog, the local-image route,
  and subreddit validation and search.
- frontend/js/app.js, frontend/js/settings.js and
  frontend/js/progress-display.js are UI controllers and are not part of
  this model.
