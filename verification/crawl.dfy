/**
 The crawl of the link checker: the receive loop of `main` and `enqueue`.

 `enqueue` runs only on the main goroutine; the goroutines the program spawns do
 nothing but send one string each on the unbuffered channel. The crawl is
 therefore a sequential state machine: the visited set, the multiset of URLs
 sent but not yet received, the URLs handed to `retrieveLinks` in order, and the
 console. One step receives any pending URL (the channel's receive order is
 arbitrary) and applies `enqueue` to it.
 */
module Crawl {
  import opened Logging
  import opened Urls
  import opened Links

  datatype Option<T> = None | Some(value: T)

  /** Which value the emptiness test of the link loop looks at. The program tests
      the page URL (`TestsPage`); testing the resolved link (`TestsResolved`) is
      what the test is evidently meant to do. */
  datatype EmptyCheck = TestsPage | TestsResolved

  /** Everything the crawl depends on but does not own: URL parsing and
      resolution, the result of fetching each URL, the logger, and the variant
      of the emptiness test. */
  datatype Env = Env(urls: UrlLib, get: string -> Response, logger: Logger, check: EmptyCheck)

  /** The crawl state. `visited` is the key set of the `visited` map (its entries
      are only ever set to true); `pending` holds the URLs sent on the channel and
      not yet received; `fetched` lists the URLs passed to `retrieveLinks`, in
      order; `console` holds the lines printed so far. */
  datatype State = State(
    visited: set<string>,
    pending: multiset<string>,
    fetched: seq<string>,
    console: seq<string>)

  /** The line `main` prints before the crawl starts. */
  function Banner(seed: string): seq<string>
  {
    OutputLines(["Checking links on", seed])
  }

  /** The state after `main` has started: nothing visited, the seed sent once. */
  function Init(seed: string): (s: State)
    ensures s.visited == {} && s.fetched == []
    ensures s.pending == multiset{seed}
    ensures s.console == [Line(["Checking links on", seed])]
  {
    State({}, multiset{seed}, [], Banner(seed))
  }

  /** Whether the link loop skips a resolved link before its visited test. */
  predicate Skipped(check: EmptyCheck, page: string, absolute: string)
  {
    match check
    case TestsPage => page == ""
    case TestsResolved => absolute == ""
  }

  /** The URLs the link loop of `enqueue` sends for the links of `page`, in link
      order, when `seen` is the visited set during the loop: each resolved link
      that is not skipped and not yet visited, duplicates included. The
      same-host test in that loop has an empty body and so no counterpart here. */
  function Sends(env: Env, links: seq<string>, page: string, seen: set<string>): seq<string>
  {
    if links == [] then []
    else
      var absolute := FixUrl(env.urls, links[0], page);
      var rest := Sends(env, links[1..], page, seen);
      if Skipped(env.check, page, absolute) || absolute in seen then rest
      else [absolute] + rest
  }

  /** A URL is sent exactly when some link of the page resolves to it, the
      emptiness test does not skip it and it is not yet visited; at most one URL
      is sent per link. */
  lemma {:induction false} SendsMembership(env: Env, links: seq<string>, page: string, seen: set<string>)
    ensures |Sends(env, links, page, seen)| <= |links|
    ensures forall x :: x in Sends(env, links, page, seen) <==>
      x !in seen && !Skipped(env.check, page, x) &&
      exists k :: 0 <= k < |links| && FixUrl(env.urls, links[k], page) == x
  {
    if links != [] {
      SendsMembership(env, links[1..], page, seen);
      assert forall k :: 1 <= k < |links| ==> links[k] == links[1..][k - 1];
    }
  }

  /** Duplicates are sent as often as they occur: two links of a page that
      resolve to the same unvisited, unskipped URL put it in flight twice. */
  lemma {:induction false} DuplicateLinksSentTwice(
    env: Env, links: seq<string>, page: string, seen: set<string>, i: nat, j: nat)
    requires i < j < |links|
    requires FixUrl(env.urls, links[i], page) == FixUrl(env.urls, links[j], page)
    requires FixUrl(env.urls, links[i], page) !in seen
    requires !Skipped(env.check, page, FixUrl(env.urls, links[i], page))
    ensures multiset(Sends(env, links, page, seen))[FixUrl(env.urls, links[i], page)] >= 2
    decreases i
  {
    var x := FixUrl(env.urls, links[i], page);
    var rest := Sends(env, links[1..], page, seen);
    if i == 0 {
      SendsMembership(env, links[1..], page, seen);
      assert links[1..][j - 1] == links[j];
      assert x in rest;
      assert Sends(env, links, page, seen) == [x] + rest;
    } else {
      assert links[1..][i - 1] == links[i] && links[1..][j - 1] == links[j];
      DuplicateLinksSentTwice(env, links[1..], page, seen, i - 1, j - 1);
      var absolute := FixUrl(env.urls, links[0], page);
      assert Sends(env, links, page, seen) == rest
          || Sends(env, links, page, seen) == [absolute] + rest;
    }
  }

  /** The console lines of one fetch: the debug line, then the broken-link line
      when the fetch fails. */
  function FetchLines(env: Env, url: string): seq<string>
  {
    Debug(env.logger, ["fetching", url]) + Report(env.logger, url, env.get(url))
  }

  /** `enqueue(url)` on state `s`: nothing happens when `url` is already visited;
      otherwise `url` is fetched, marked visited, and every link of the page that
      resolves to a URL not yet visited is sent. */
  function Enqueue(env: Env, s: State, url: string): State
  {
    if url in s.visited then s
    else
      var seen := s.visited + {url};
      var sent := Sends(env, PageLinks(env.get(url)), url, seen);
      State(seen, s.pending + multiset(sent), s.fetched + [url], s.console + FetchLines(env, url))
  }

  /** What one `enqueue` does: a visited URL changes nothing; otherwise the URL
      joins the visited set and the fetch log once, its fetch lines are printed,
      and exactly the URLs `Sends` yields for its links are added to the pending
      ones. The visited set and the pending URLs only grow; the URL itself and
      visited URLs are never sent; a failed fetch sends nothing. */
  lemma {:induction false} EnqueueSpec(env: Env, s: State, url: string)
    ensures url in s.visited ==> Enqueue(env, s, url) == s
    ensures url !in s.visited ==>
      && Enqueue(env, s, url).visited == s.visited + {url}
      && Enqueue(env, s, url).fetched == s.fetched + [url]
      && Enqueue(env, s, url).console == s.console + FetchLines(env, url)
    ensures s.pending <= Enqueue(env, s, url).pending
    ensures Enqueue(env, s, url).pending[url] == s.pending[url]
    ensures forall x :: x in Enqueue(env, s, url).pending - s.pending ==> x !in Enqueue(env, s, url).visited
    ensures env.get(url).FetchError? ==> Enqueue(env, s, url).pending == s.pending
    ensures url !in s.visited ==>
      Enqueue(env, s, url).pending == s.pending + multiset(Sends(env, PageLinks(env.get(url)), url, s.visited + {url}))
  {
    if url !in s.visited {
      var seen := s.visited + {url};
      var links := PageLinks(env.get(url));
      SendsMembership(env, links, url, seen);
      var r := Enqueue(env, s, url);
      assert r.pending - s.pending == multiset(Sends(env, links, url, seen));
    }
  }

  /** One iteration of the receive loop: take one pending URL and enqueue it.
      Receiving a visited URL only consumes that one message; receiving an
      unvisited one fetches it and marks it visited. */
  function Step(env: Env, s: State, url: string): (r: State)
    requires url in s.pending
    ensures url in s.visited ==> r == s.(pending := s.pending - multiset{url})
    ensures url !in s.visited ==> r.fetched == s.fetched + [url] && r.visited == s.visited + {url}
  {
    Enqueue(env, s.(pending := s.pending - multiset{url}), url)
  }

  /** The receive loop under a schedule: the state after the channel, started
      by `main` with the seed, has delivered `picks` in order. `None` when some
      pick is not pending at its turn, that is, when the schedule is not a
      possible run. */
  function Run(env: Env, seed: string, picks: seq<string>): Option<State>
    decreases |picks|
  {
    if picks == [] then Some(Init(seed))
    else
      match Run(env, seed, picks[..|picks| - 1])
      case None => None
      case Some(s) =>
        var url := picks[|picks| - 1];
        if url in s.pending then Some(Step(env, s, url)) else None
  }

  /** A non-empty run is a shorter run followed by one step on its last pick. */
  lemma RunLast(env: Env, seed: string, picks: seq<string>, s: State)
    requires picks != []
    requires Run(env, seed, picks) == Some(s)
    ensures Run(env, seed, picks[..|picks| - 1]).Some?
    ensures picks[|picks| - 1] in Run(env, seed, picks[..|picks| - 1]).value.pending
    ensures s == Step(env, Run(env, seed, picks[..|picks| - 1]).value, picks[|picks| - 1])
  {
  }

  predicate NoDuplicates(xs: seq<string>)
  {
    forall i, j :: 0 <= i < j < |xs| ==> xs[i] != xs[j]
  }

  /** The console lines of fetching `urls` in order. */
  function Transcript(env: Env, urls: seq<string>): seq<string>
  {
    if urls == [] then []
    else Transcript(env, urls[..|urls| - 1]) + FetchLines(env, urls[|urls| - 1])
  }

  /** Every link of `page` that is not skipped resolves to a URL that is visited or pending. */
  ghost predicate Covered(env: Env, s: State, page: string)
  {
    forall k :: 0 <= k < |PageLinks(env.get(page))| ==>
      var x := FixUrl(env.urls, PageLinks(env.get(page))[k], page);
      Skipped(env.check, page, x) || x in s.visited || x in s.pending
  }

  /** The invariant of every state the crawl from `seed` reaches. */
  ghost predicate Inv(env: Env, seed: string, s: State)
  {
    && NoDuplicates(s.fetched)
    && (forall x :: x in s.visited <==> x in s.fetched)
    && s.console == Banner(seed) + Transcript(env, s.fetched)
    && (seed in s.visited || seed in s.pending)
    && (forall p :: p in s.visited ==> Covered(env, s, p))
  }

  lemma InitInv(env: Env, seed: string)
    ensures Inv(env, seed, Init(seed))
  {
  }

  lemma {:induction false} StepCovered(env: Env, s: State, url: string, p: string)
    requires url in s.pending
    requires p in s.visited && Covered(env, s, p)
    ensures Covered(env, Step(env, s, url), p)
  {
    var r := Step(env, s, url);
    var links := PageLinks(env.get(p));
    forall k | 0 <= k < |links|
      ensures var x := FixUrl(env.urls, links[k], p);
              Skipped(env.check, p, x) || x in r.visited || x in r.pending
    {
      var x := FixUrl(env.urls, links[k], p);
      if x in s.pending && x != url {
        assert x in s.pending - multiset{url};
      }
    }
  }

  lemma {:induction false} EnqueueCoversPage(env: Env, s: State, url: string)
    requires url !in s.visited
    ensures Covered(env, Enqueue(env, s, url), url)
  {
    var r := Enqueue(env, s, url);
    var links := PageLinks(env.get(url));
    var seen := s.visited + {url};
    var sent := Sends(env, links, url, seen);
    forall k | 0 <= k < |links|
      ensures var x := FixUrl(env.urls, links[k], url);
              Skipped(env.check, url, x) || x in r.visited || x in r.pending
    {
      var x := FixUrl(env.urls, links[k], url);
      if !Skipped(env.check, url, x) && x !in seen {
        SendsMembership(env, links, url, seen);
        assert x in sent;
        assert x in multiset(sent);
      }
    }
  }

  lemma TranscriptSnoc(env: Env, urls: seq<string>, url: string)
    ensures Transcript(env, urls + [url]) == Transcript(env, urls) + FetchLines(env, url)
  {
    assert (urls + [url])[..|urls|] == urls;
  }

  /** One step keeps the fetch log free of duplicates, equal to the visited set
      as a set, and in step with the console. */
  lemma {:induction false} StepLog(env: Env, seed: string, s: State, url: string)
    requires NoDuplicates(s.fetched)
    requires forall x :: x in s.visited <==> x in s.fetched
    requires s.console == Banner(seed) + Transcript(env, s.fetched)
    requires url in s.pending
    ensures var r := Step(env, s, url);
            && NoDuplicates(r.fetched)
            && (forall x :: x in r.visited <==> x in r.fetched)
            && r.console == Banner(seed) + Transcript(env, r.fetched)
  {
    var r := Step(env, s, url);
    if url !in s.visited {
      assert r.console == s.console + FetchLines(env, url);
      LogSnoc(env, seed, s.visited, s.fetched, s.console, url);
    }
  }

  /** Fetching an unvisited URL keeps the log invariant of `StepLog`. */
  lemma {:induction false} LogSnoc(env: Env, seed: string, visited: set<string>, fetched: seq<string>,
                console: seq<string>, url: string)
    requires NoDuplicates(fetched)
    requires forall x :: x in visited <==> x in fetched
    requires console == Banner(seed) + Transcript(env, fetched)
    requires url !in visited
    ensures NoDuplicates(fetched + [url])
    ensures forall x :: x in visited + {url} <==> x in fetched + [url]
    ensures console + FetchLines(env, url) == Banner(seed) + Transcript(env, fetched + [url])
  {
    NoDuplicatesSnoc(fetched, url);
    TranscriptSnoc(env, fetched, url);
  }

  lemma NoDuplicatesSnoc(xs: seq<string>, x: string)
    requires NoDuplicates(xs) && x !in xs
    ensures NoDuplicates(xs + [x])
  {
    var ys := xs + [x];
    forall i, j | 0 <= i < j < |ys|
      ensures ys[i] != ys[j]
    {
      assert ys[i] == xs[i];
    }
  }

  /** One step keeps every visited page covered. */
  lemma {:induction false} StepCoveredAll(env: Env, s: State, url: string)
    requires url in s.pending
    requires forall p :: p in s.visited ==> Covered(env, s, p)
    ensures var r := Step(env, s, url);
            forall p :: p in r.visited ==> Covered(env, r, p)
  {
    var r := Step(env, s, url);
    forall p | p in r.visited
      ensures Covered(env, r, p)
    {
      if p in s.visited {
        StepCovered(env, s, url, p);
      } else {
        EnqueueCoversPage(env, s.(pending := s.pending - multiset{url}), url);
      }
    }
  }

  /** One step keeps the invariant. */
  lemma {:induction false} StepInv(env: Env, seed: string, s: State, url: string)
    requires Inv(env, seed, s)
    requires url in s.pending
    ensures Inv(env, seed, Step(env, s, url))
  {
    StepLog(env, seed, s, url);
    StepCoveredAll(env, s, url);
    if seed !in s.visited && seed != url {
      assert seed in s.pending - multiset{url};
    }
  }

  /** Every state a run reaches satisfies the invariant. */
  lemma {:induction false} RunInv(env: Env, seed: string, picks: seq<string>, s: State)
    requires Run(env, seed, picks) == Some(s)
    ensures Inv(env, seed, s)
    decreases |picks|
  {
    if picks == [] {
      InitInv(env, seed);
    } else {
      RunLast(env, seed, picks, s);
      var prev := Run(env, seed, picks[..|picks| - 1]).value;
      RunInv(env, seed, picks[..|picks| - 1], prev);
      StepInv(env, seed, prev, picks[|picks| - 1]);
    }
  }

  /** No URL is ever fetched twice, whatever order the pending URLs are received
      in and however often each was sent; the visited set is exactly the set of
      fetched URLs; and the console shows the banner and then, for each fetched
      URL in fetch order, its fetch lines. */
  lemma {:induction false} FetchedAtMostOnce(env: Env, seed: string, picks: seq<string>, s: State)
    requires Run(env, seed, picks) == Some(s)
    ensures forall i, j :: 0 <= i < j < |s.fetched| ==> s.fetched[i] != s.fetched[j]
    ensures forall x :: x in s.visited <==> x in s.fetched
    ensures s.console == Banner(seed) + Transcript(env, s.fetched)
  {
    RunInv(env, seed, picks, s);
  }

  /** When nothing is pending, the visited set is closed under links: the seed
      and every link of every visited page that is not skipped have been fetched. */
  lemma {:induction false} QuiescentIsClosed(env: Env, seed: string, picks: seq<string>, s: State)
    requires Run(env, seed, picks) == Some(s)
    requires s.pending == multiset{}
    ensures seed in s.visited
    ensures forall p, k :: p in s.visited && 0 <= k < |PageLinks(env.get(p))| ==>
      var x := FixUrl(env.urls, PageLinks(env.get(p))[k], p);
      Skipped(env.check, p, x) || x in s.visited
  {
    RunInv(env, seed, picks, s);
    forall p, k | p in s.visited && 0 <= k < |PageLinks(env.get(p))|
      ensures var x := FixUrl(env.urls, PageLinks(env.get(p))[k], p);
              Skipped(env.check, p, x) || x in s.visited
    {
      assert Covered(env, s, p);
    }
  }

  /** Along a run the visited set only grows and the fetch log and the console
      are only appended to: every prefix of a possible schedule is possible, and
      its state lies below the state of the whole run. */
  lemma {:induction false} RunGrows(env: Env, seed: string, picks: seq<string>, n: nat, s: State)
    requires Run(env, seed, picks) == Some(s)
    requires n <= |picks|
    ensures Run(env, seed, picks[..n]).Some?
    ensures Run(env, seed, picks[..n]).value.visited <= s.visited
    ensures Run(env, seed, picks[..n]).value.fetched <= s.fetched
    ensures Run(env, seed, picks[..n]).value.console <= s.console
    decreases |picks|
  {
    if n == |picks| {
      assert picks[..n] == picks;
    } else {
      var front := picks[..|picks| - 1];
      RunLast(env, seed, picks, s);
      var prev := Run(env, seed, front).value;
      RunGrows(env, seed, front, n, prev);
      assert front[..n] == picks[..n];
      var url := picks[|picks| - 1];
      EnqueueSpec(env, prev.(pending := prev.pending - multiset{url}), url);
    }
  }

  /** A link of a page that resolves to the page itself is never sent by that
      page, because the page is already in the visited set during its link loop. */
  lemma SelfLinkNotResent(env: Env, seen: set<string>, url: string)
    requires url in seen
    ensures url !in Sends(env, PageLinks(env.get(url)), url, seen)
  {
    SendsMembership(env, PageLinks(env.get(url)), url, seen);
  }

  /** Link `k` of `page` resolves to `x` and the emptiness test lets it through. */
  ghost predicate LinksTo(env: Env, page: string, k: int, x: string)
  {
    && 0 <= k < |PageLinks(env.get(page))|
    && FixUrl(env.urls, PageLinks(env.get(page))[k], page) == x
    && !Skipped(env.check, page, x)
  }

  /** `x` is the seed or a link of one of `pages`. */
  ghost predicate LinkedFrom(env: Env, seed: string, pages: seq<string>, x: string)
  {
    x == seed || exists j, k :: 0 <= j < |pages| && LinksTo(env, pages[j], k, x)
  }

  /** Nothing comes from nowhere: every fetched URL is the seed or a link of a
      page fetched before it, and every pending URL is the seed or a link of a
      fetched page. */
  ghost predicate Sound(env: Env, seed: string, s: State)
  {
    && (forall i :: 0 <= i < |s.fetched| ==> LinkedFrom(env, seed, s.fetched[..i], s.fetched[i]))
    && (forall x :: x in s.pending ==> LinkedFrom(env, seed, s.fetched, x))
  }

  lemma {:induction false} LinkedFromExtends(env: Env, seed: string, pages: seq<string>, more: seq<string>, x: string)
    requires LinkedFrom(env, seed, pages, x)
    ensures LinkedFrom(env, seed, pages + more, x)
  {
    if x != seed {
      var j, k :| 0 <= j < |pages| && LinksTo(env, pages[j], k, x);
      assert (pages + more)[j] == pages[j];
    }
  }

  /** One step only fetches and sends URLs that come from the seed or a fetched page. */
  lemma {:induction false} StepSound(env: Env, seed: string, s: State, url: string)
    requires Sound(env, seed, s)
    requires url in s.pending
    ensures Sound(env, seed, Step(env, s, url))
  {
    var r := Step(env, s, url);
    var rest := s.(pending := s.pending - multiset{url});
    EnqueueSpec(env, rest, url);
    if url in s.visited {
      forall x | x in r.pending
        ensures LinkedFrom(env, seed, r.fetched, x)
      {
        assert x in s.pending;
      }
    } else {
      var links := PageLinks(env.get(url));
      var seen := s.visited + {url};
      var sent := Sends(env, links, url, seen);
      var n := |s.fetched|;
      forall i | 0 <= i < |r.fetched|
        ensures LinkedFrom(env, seed, r.fetched[..i], r.fetched[i])
      {
        if i < n {
          assert r.fetched[..i] == s.fetched[..i];
          assert r.fetched[i] == s.fetched[i];
        } else {
          assert r.fetched[..i] == s.fetched;
        }
      }
      SendsMembership(env, links, url, seen);
      forall x | x in r.pending
        ensures LinkedFrom(env, seed, r.fetched, x)
      {
        if x in multiset(sent) {
          assert x in sent;
          var k :| 0 <= k < |links| && FixUrl(env.urls, links[k], url) == x;
          assert r.fetched[n] == url;
          assert LinksTo(env, r.fetched[n], k, x);
        } else {
          assert x in s.pending;
          LinkedFromExtends(env, seed, s.fetched, [url], x);
        }
      }
    }
  }

  /** Every state a run reaches is sound. */
  lemma {:induction false} RunSound(env: Env, seed: string, picks: seq<string>, s: State)
    requires Run(env, seed, picks) == Some(s)
    ensures Sound(env, seed, s)
    decreases |picks|
  {
    if picks != [] {
      RunLast(env, seed, picks, s);
      var prev := Run(env, seed, picks[..|picks| - 1]).value;
      RunSound(env, seed, picks[..|picks| - 1], prev);
      StepSound(env, seed, prev, picks[|picks| - 1]);
    }
  }

  /** The crawl fetches only what it was pointed at: each fetched URL is the seed
      or an unskipped link of a page fetched earlier, and each visited URL is the
      seed or an unskipped link of a visited page. */
  lemma {:induction false} FetchedOnlyLinked(env: Env, seed: string, picks: seq<string>, s: State)
    requires Run(env, seed, picks) == Some(s)
    ensures forall i :: 0 <= i < |s.fetched| ==>
      s.fetched[i] == seed || exists j, k :: 0 <= j < i && LinksTo(env, s.fetched[j], k, s.fetched[i])
    ensures forall x :: x in s.visited ==>
      x == seed || exists p, k :: p in s.visited && LinksTo(env, p, k, x)
  {
    RunSound(env, seed, picks, s);
    RunInv(env, seed, picks, s);
    forall i | 0 <= i < |s.fetched| && s.fetched[i] != seed
      ensures exists j, k :: 0 <= j < i && LinksTo(env, s.fetched[j], k, s.fetched[i])
    {
      assert LinkedFrom(env, seed, s.fetched[..i], s.fetched[i]);
      var j, k :| 0 <= j < |s.fetched[..i]| && LinksTo(env, s.fetched[..i][j], k, s.fetched[i]);
      assert s.fetched[..i][j] == s.fetched[j];
    }
    forall x | x in s.visited && x != seed
      ensures exists p, k :: p in s.visited && LinksTo(env, p, k, x)
    {
      var i :| 0 <= i < |s.fetched| && s.fetched[i] == x;
      assert LinkedFrom(env, seed, s.fetched[..i], x);
      var j, k :| 0 <= j < |s.fetched[..i]| && LinksTo(env, s.fetched[..i][j], k, x);
      assert s.fetched[..i][j] == s.fetched[j];
      assert s.fetched[j] in s.visited;
    }
  }
}
