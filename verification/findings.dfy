/**
 The emptiness test of the link loop in `enqueue` looks at the page URL where
 it evidently means the resolved link. `fixUrl` returns the empty string for a
 link that does not parse, so under the test as written that empty string is
 sent, later received, fetched, marked visited and reported as a broken link.
 Testing the resolved link instead keeps the empty string out of the crawl.
 */
module Findings {
  import opened Logging
  import opened Urls
  import opened Links
  import opened Crawl

  /** As written: a link of a fresh page that does not parse is sent as "", and
      receiving it next fetches "" and, since fetching "" fails, prints a
      broken-link line for it. */
  lemma AsWrittenFetchesEmpty(env: Env, s: State, page: string, k: nat)
    requires env.check == TestsPage
    requires page in s.pending && page !in s.visited && page != ""
    requires "" !in s.visited
    requires k < |PageLinks(env.get(page))|
    requires !env.urls.parses(PageLinks(env.get(page))[k])
    requires env.get("") == FetchError
    ensures "" in Step(env, s, page).pending
    ensures var s2 := Step(env, Step(env, s, page), "");
            && s2.fetched == s.fetched + [page, ""]
            && "" in s2.visited
            && s2.console[|s2.console| - 1] == Line(["Detected broken url", ""])
  {
    var links := PageLinks(env.get(page));
    var seen := s.visited + {page};
    var sent := Sends(env, links, page, seen);
    SendsMembership(env, links, page, seen);
    assert FixUrl(env.urls, links[k], page) == "";
    assert "" in sent;
    assert "" in multiset(sent);
    var s1 := Step(env, s, page);
    assert "" !in s1.visited;
  }

  /** Corrected: one step neither sends nor fetches the empty string when it
      was neither pending nor visited before. */
  lemma CorrectedStepAvoidsEmpty(env: Env, s: State, url: string)
    requires env.check == TestsResolved
    requires url in s.pending
    requires "" !in s.visited && "" !in s.pending && "" !in s.fetched
    ensures var r := Step(env, s, url);
            "" !in r.visited && "" !in r.pending && "" !in r.fetched
  {
    assert url != "";
    var rest := s.pending - multiset{url};
    assert "" !in rest;
    if url !in s.visited {
      var sent := Sends(env, PageLinks(env.get(url)), url, s.visited + {url});
      SendsMembership(env, PageLinks(env.get(url)), url, s.visited + {url});
      assert "" !in multiset(sent);
      assert Step(env, s, url).pending == rest + multiset(sent);
    }
  }

  /** Corrected: testing the resolved link, the empty string is never sent, so a
      crawl from a non-empty seed never has it pending, never fetches it and
      never marks it visited. */
  lemma {:induction false} CorrectedRunAvoidsEmpty(env: Env, seed: string, picks: seq<string>, s: State)
    requires env.check == TestsResolved
    requires seed != ""
    requires Run(env, seed, picks) == Some(s)
    ensures "" !in s.visited
    ensures "" !in s.pending
    ensures "" !in s.fetched
    decreases |picks|
  {
    if picks != [] {
      RunLast(env, seed, picks, s);
      var prev := Run(env, seed, picks[..|picks| - 1]).value;
      CorrectedRunAvoidsEmpty(env, seed, picks[..|picks| - 1], prev);
      CorrectedStepAvoidsEmpty(env, prev, picks[|picks| - 1]);
    }
  }
}
