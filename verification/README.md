# blc link checker — Dafny model

`blc` is a recursive broken-link checker written in Go. Starting from a seed
page it fetches the page, extracts the `href` of every anchor tag, resolves each
link against the page URL, and sends every resolved link not yet visited back
to the main loop, which fetches it in turn. Failed fetches are printed as broken
links. The whole program is `main.go`; this project models its crawl
bookkeeping, its link extraction, its link resolution wrapper and its logger.

- `logger.dfy` (module `Logging`): `OutputLogger`. A line is each part followed
  by one space. `Debug` prints only at verbosity `"DEBUG"`. `Error` always prints.
  The console is a sequence of lines, each without its newline.
- `urls.dfy` (module `Urls`): `fixUrl`. Parsing and resolution by Go's
  `net/url` (section 5.2 of RFC 3986) are the abstract `UrlLib`.
- `links.dfy` (module `Links`): `retrieveLinks` over an abstract token stream.
  `PageLinks` is the reference definition: the `href` values of `a` start tags
  before the first error token, or nothing when the fetch fails.
  `RetrieveLinks` is the program's loop, proved equal to it.
- `crawl.dfy` (module `Crawl`): the receive loop and `enqueue` as a state
  machine. The state holds the visited set, the multiset of URLs sent but not
  yet received, the log of fetched URLs and the console. A schedule (`picks`)
  says in which order the channel delivers pending URLs. `Run` follows it from
  the seed and yields `None` when a pick is not pending at its turn.
- `findings.dfy` (module `Findings`): the emptiness test in `enqueue`, as
  written and corrected.

`enqueue` runs only on the main goroutine. The spawned goroutines only send
one string each. So the crawl can be modelled sequentially. The channel's
arbitrary delivery order is the free choice of `picks`.

The program is meant to skip unresolvable links, to report a missing seed, and
to stop when no work is left. The code differs on all three points, and this
model follows the code:

- An unparsable link is sent as `""` (see Findings).
- The usage message at main.go:51 goes through `Debug`, so it is shown only with `-v`.
- The receive loop never ends normally, because the channel is never closed.

## Model

| member | source | states |
|---|---|---|
| Logging.LinePart | main.go:17-26 | every part of a logged line appears in order, at the offset given by the earlier parts, followed by exactly one space |
| Logging.LineAppend | main.go:20-23 | formatting the concatenation of two part lists is the concatenation of their lines |
| Logging.Output | main.go:17-26 | the buffer loop builds exactly the line of every part plus one space, of width sum of part lengths plus part count |
| Logging.Debug | main.go:27-31 | a debug call prints one line, the formatted parts, exactly when verbosity is "DEBUG", and nothing otherwise |
| Logging.Error | main.go:32-34 | an error call prints its formatted line whatever the verbosity, the same as a debug call at "DEBUG" |
| Urls.FixUrl | main.go:132-143 | the result is "" when the link or the base fails to parse, and otherwise the link resolved against the base |
| Links.FirstError | main.go:115-119 | the scan stops at the first error token: all tokens before the index are non-error and the one at it is an error |
| Links.Report | main.go:106-111 | a failed fetch prints one "Detected broken url" line naming the URL; a successful one prints nothing |
| Links.CollectHrefs | main.go:122-126 | the attribute loop collects the values of the href attributes in order, duplicates kept |
| Links.RetrieveLinks | main.go:105-129 | the fetch-and-scan loop returns exactly the href values of anchor start tags before the first error token, and no links on a fetch error |
| Links.LinksMembership | main.go:115-128 | a string is returned exactly when it is an href value of an anchor start tag before the first error token |
| Links.LinksInOrder | main.go:115-128 | links come out in document order: those of an error-free prefix first, then those of the rest |
| Links.LinksStopAtError | main.go:116-119 | nothing after an error token contributes a link |
| Crawl.Init | main.go:54-61 | the crawl starts with nothing visited or fetched, the seed sent once, and the banner line printed |
| Crawl.SendsMembership | main.go:84-98 | a URL is sent exactly when some link of the page resolves to it, it is not skipped by the emptiness test, and it is not visited |
| Crawl.DuplicateLinksSentTwice | main.go:84-98 | two links resolving to the same unvisited URL put it in flight twice |
| Crawl.EnqueueSpec | main.go:76-100 | a visited URL changes nothing; otherwise the URL is added to visited and the fetch log once, its fetch lines are printed, and the pending URLs grow by exactly the resolved, unskipped, unvisited links of the page (`Sends`), so they never gain the URL itself or a visited URL; a failed fetch sends nothing |
| Crawl.Step | main.go:63-65 | receiving a visited URL only consumes that message; receiving an unvisited one fetches it and marks it visited |
| Crawl.RunInv | main.go:63-65 | every state the receive loop reaches from the seed, under any delivery order, satisfies the crawl invariant (no duplicate fetch, visited equals fetched, console matches the fetches, every link of a visited page is visited or pending) |
| Crawl.FetchedAtMostOnce | main.go:77-83 | in every run from the seed, under any delivery order and any number of duplicate sends, no URL is fetched twice, visited equals the set of fetched URLs, and the console is the banner then each fetch's lines in fetch order |
| Crawl.QuiescentIsClosed | main.go:84-98 | when nothing is pending, the seed is visited and every unskipped link of every visited page resolves to a visited URL |
| Crawl.RunGrows | main.go:83 | every prefix of a possible schedule is possible, and its visited set, fetch log and console are a subset and prefixes of the whole run's |
| Crawl.SelfLinkNotResent | main.go:80-91 | a link that resolves to its own page is never sent by that page, since the page is marked visited before its link loop |
| Crawl.StepSound | main.go:63-98 | one received URL adds to the fetch log only a URL that was pending, and to pending only unskipped links of the page just fetched |
| Crawl.RunSound | main.go:54-98 | in every run from the seed, every fetched URL is the seed or an unskipped link of a page fetched before it, and every pending URL is the seed or an unskipped link of a fetched page |
| Crawl.FetchedOnlyLinked | main.go:54-98 | the crawl fetches nothing it was not pointed at: each fetched URL is the seed or a link of an earlier fetched page, and each visited URL is the seed or a link of a visited page |
| Findings.AsWrittenFetchesEmpty | main.go:85-88 | as written, an unparsable link on a fresh non-empty page sends "", which is then fetched, marked visited and reported broken |
| Findings.CorrectedStepAvoidsEmpty | main.go:85-88 | with the test on the resolved link, a step never sends, fetches or visits "" when it was not already pending or visited |
| Findings.CorrectedRunAvoidsEmpty | main.go:85-88 | with the test on the resolved link, a crawl from a non-empty seed never has "" pending, never fetches it and never visits it |

## Findings

| source | as written | input that shows it | evidently intended | confidence | as-written member | corrected member |
|---|---|---|---|---|---|---|
| main.go:86 | `if url == ""` tests the page URL instead of the resolved link, so the "" that `fixUrl` returns for an unparsable link is sent, fetched and reported broken | a page whose anchor has an href that `url.Parse` rejects | `if absolute == ""`, skipping links that did not resolve | high; not executed | Findings.AsWrittenFetchesEmpty | Findings.CorrectedRunAvoidsEmpty |

The crawl is parameterised by `EmptyCheck`: `TestsPage` is the code as written
and `TestsResolved` is the corrected test. Every crawl lemma in `Crawl` holds for both.

## Left out

- HTTP fetching (main.go:106-112): network I/O. `Env.get` gives each URL's response, deterministically. This is harmless because each URL is fetched at most once. Closing the body is not modelled.
- HTML tokenization (main.go:114-120): a library outside this model. A body is the token sequence the tokenizer would produce; its end stands for the tokenizer's end-of-input error token.
- Urls.FixUrl: URL parsing and reference resolution by `net/url` stay abstract (`UrlLib`). RFC 3986 resolution is not reimplemented. So examples such as resolving "b/c" against "http://x.com/a/" are not stated.
- Goroutines and the channel (main.go:54, 59-61, 96-98): only as the pending multiset. Scheduling is not modelled. Each send runs in its own goroutine, so the order of the sends of one page is not observable; `Sends` keeps link order, but the crawl only uses it as a multiset.
- Termination: the channel is never closed, so `close(queue)` and "Done" (main.go:66-68) are in practice unreachable. No termination claim is made. `QuiescentIsClosed` describes the state when nothing is pending.
- The same-host test (main.go:92-94): its body is commented out, so it has no effect and no counterpart. `baseUrl` is therefore not part of the state.
- Flag parsing, the usage exit and `os.Exit` (main.go:41-53, 70): command-line and process I/O.
- `fmt.Println`'s newline: a console line is stored without it.
