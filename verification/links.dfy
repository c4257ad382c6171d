/**
 Link extraction from a fetched page (`retrieveLinks` in main.go).

 The HTTP request and the HTML tokenizer of `golang.org/x/net/html` are not part
 of this model: a fetch either fails or yields the tokens the tokenizer would
 return, in order. The tokenizer reports the end of the body as an error token,
 so the end of the token sequence ends the scan just as an error token does.
 */
module Links {
  import opened Logging

  /** The token types of the HTML tokenizer. */
  datatype TokenType =
    | ErrorToken
    | TextToken
    | StartTagToken
    | EndTagToken
    | SelfClosingTagToken
    | CommentToken
    | DoctypeToken

  datatype Attribute = Attribute(key: string, val: string)

  /** A token: its type, the name of its atom (the tag name the tokenizer
      recognised, as `DataAtom.String()` gives it) and its attributes in order. */
  datatype Token = Token(kind: TokenType, atom: string, attrs: seq<Attribute>)

  /** The outcome of `http.Get`: an error, or a body seen as a token stream. */
  datatype Response = FetchError | Body(tokens: seq<Token>)

  /** An `<a ...>` start tag. Self-closing `<a .../>` tags are a different token type. */
  predicate IsAnchor(t: Token)
  {
    t.kind == StartTagToken && t.atom == "a"
  }

  /** The values of the `href` attributes, in order, duplicates kept. */
  function Hrefs(attrs: seq<Attribute>): seq<string>
  {
    if attrs == [] then []
    else (if attrs[0].key == "href" then [attrs[0].val] else []) + Hrefs(attrs[1..])
  }

  /** What one token contributes: the `href` values of an anchor start tag, nothing otherwise. */
  function TokenLinks(t: Token): seq<string>
  {
    if IsAnchor(t) then Hrefs(t.attrs) else []
  }

  /** The contributions of all tokens, in token order. */
  function AllLinks(ts: seq<Token>): seq<string>
  {
    if ts == [] then [] else TokenLinks(ts[0]) + AllLinks(ts[1..])
  }

  /** The index of the first error token, or the length when there is none. */
  function FirstError(ts: seq<Token>): (n: nat)
    ensures n <= |ts|
    ensures forall k :: 0 <= k < n ==> ts[k].kind != ErrorToken
    ensures n < |ts| ==> ts[n].kind == ErrorToken
  {
    if ts == [] || ts[0].kind == ErrorToken then 0 else 1 + FirstError(ts[1..])
  }

  /** The links a response yields: nothing for a failed fetch, otherwise the
      contributions of the tokens before the first error token. */
  function PageLinks(resp: Response): seq<string>
  {
    match resp
    case FetchError => []
    case Body(ts) => AllLinks(ts[..FirstError(ts)])
  }

  /** The lines `retrieveLinks` prints: one error line for a failed fetch. */
  function Report(logger: Logger, url: string, resp: Response): (r: seq<string>)
    ensures resp.FetchError? ==> r == [Line(["Detected broken url", url])]
    ensures resp.Body? ==> r == []
  {
    if resp.FetchError? then Error(logger, ["Detected broken url", url]) else []
  }

  lemma {:induction false} HrefsAppend(a: seq<Attribute>, b: seq<Attribute>)
    ensures Hrefs(a + b) == Hrefs(a) + Hrefs(b)
  {
    if a == [] {
      assert a + b == b;
    } else {
      assert (a + b)[0] == a[0];
      assert (a + b)[1..] == a[1..] + b;
      HrefsAppend(a[1..], b);
    }
  }

  lemma {:induction false} AllLinksAppend(a: seq<Token>, b: seq<Token>)
    ensures AllLinks(a + b) == AllLinks(a) + AllLinks(b)
  {
    if a == [] {
      assert a + b == b;
    } else {
      assert (a + b)[0] == a[0];
      assert (a + b)[1..] == a[1..] + b;
      AllLinksAppend(a[1..], b);
    }
  }

  /** `h` is among the `href` values exactly when some attribute is `href="h"`. */
  lemma {:induction false} HrefsMembership(attrs: seq<Attribute>, h: string)
    ensures h in Hrefs(attrs) <==> exists j :: 0 <= j < |attrs| && attrs[j] == Attribute("href", h)
  {
    if attrs != [] {
      HrefsMembership(attrs[1..], h);
      if h in Hrefs(attrs[1..]) {
        var j :| 0 <= j < |attrs[1..]| && attrs[1..][j] == Attribute("href", h);
        assert attrs[j + 1] == Attribute("href", h);
      }
      if exists j :: 0 <= j < |attrs| && attrs[j] == Attribute("href", h) {
        var j :| 0 <= j < |attrs| && attrs[j] == Attribute("href", h);
        if j > 0 {
          assert attrs[1..][j - 1] == Attribute("href", h);
        }
      }
    }
  }

  lemma {:induction false} AllLinksMembership(ts: seq<Token>, h: string)
    ensures h in AllLinks(ts) <==>
      exists i :: 0 <= i < |ts| && IsAnchor(ts[i]) && h in Hrefs(ts[i].attrs)
  {
    if ts != [] {
      AllLinksMembership(ts[1..], h);
      if h in AllLinks(ts[1..]) {
        var i :| 0 <= i < |ts[1..]| && IsAnchor(ts[1..][i]) && h in Hrefs(ts[1..][i].attrs);
        assert ts[i + 1] == ts[1..][i];
      }
      if exists i :: 0 <= i < |ts| && IsAnchor(ts[i]) && h in Hrefs(ts[i].attrs) {
        var i :| 0 <= i < |ts| && IsAnchor(ts[i]) && h in Hrefs(ts[i].attrs);
        if i > 0 {
          assert ts[1..][i - 1] == ts[i];
        }
      }
    }
  }

  /** A string is a link of a page exactly when it is the value of an `href`
      attribute of an anchor start tag that comes before the first error token. */
  lemma LinksMembership(ts: seq<Token>, h: string)
    ensures h in PageLinks(Body(ts)) <==>
      exists i, j :: 0 <= i < FirstError(ts) && IsAnchor(ts[i]) && 0 <= j < |ts[i].attrs|
                     && ts[i].attrs[j] == Attribute("href", h)
  {
    var n := FirstError(ts);
    AllLinksMembership(ts[..n], h);
    forall i | 0 <= i < n
      ensures h in Hrefs(ts[i].attrs) <==>
        exists j :: 0 <= j < |ts[i].attrs| && ts[i].attrs[j] == Attribute("href", h)
    {
      HrefsMembership(ts[i].attrs, h);
    }
    if h in PageLinks(Body(ts)) {
      var i :| 0 <= i < |ts[..n]| && IsAnchor(ts[..n][i]) && h in Hrefs(ts[..n][i].attrs);
      assert ts[..n][i] == ts[i];
    }
    if exists i, j :: 0 <= i < n && IsAnchor(ts[i]) && 0 <= j < |ts[i].attrs|
                      && ts[i].attrs[j] == Attribute("href", h) {
      var i, j :| 0 <= i < n && IsAnchor(ts[i]) && 0 <= j < |ts[i].attrs|
                  && ts[i].attrs[j] == Attribute("href", h);
      assert ts[..n][i] == ts[i];
    }
  }

  /** Links come out in document order: the links of an error-free prefix come
      first, followed by the links of the rest of the body. */
  lemma {:induction false} LinksInOrder(a: seq<Token>, b: seq<Token>)
    requires forall k :: 0 <= k < |a| ==> a[k].kind != ErrorToken
    ensures PageLinks(Body(a + b)) == AllLinks(a) + PageLinks(Body(b))
  {
    var ab := a + b;
    var n := FirstError(b);
    FirstErrorShift(a, b);
    assert FirstError(ab) == |a| + n;
    PrefixOfAppend(a, b, n);
    assert ab[..FirstError(ab)] == a + b[..n];
    assert PageLinks(Body(ab)) == AllLinks(a + b[..n]);
    AllLinksAppend(a, b[..n]);
  }

  lemma PrefixOfAppend(a: seq<Token>, b: seq<Token>, n: nat)
    requires n <= |b|
    ensures (a + b)[..|a| + n] == a + b[..n]
  {
  }

  lemma {:induction false} FirstErrorShift(a: seq<Token>, b: seq<Token>)
    requires forall k :: 0 <= k < |a| ==> a[k].kind != ErrorToken
    ensures FirstError(a + b) == |a| + FirstError(b)
  {
    if a == [] {
      assert a + b == b;
    } else {
      assert (a + b)[0] == a[0];
      assert (a + b)[1..] == a[1..] + b;
      FirstErrorShift(a[1..], b);
    }
  }

  /** Nothing after an error token is looked at: an error token directly after
      an error-free prefix ends the scan with the prefix's links. */
  lemma {:induction false} LinksStopAtError(a: seq<Token>, t: Token, b: seq<Token>)
    requires forall k :: 0 <= k < |a| ==> a[k].kind != ErrorToken
    requires t.kind == ErrorToken
    ensures PageLinks(Body(a + [t] + b)) == AllLinks(a)
  {
    assert a + [t] + b == a + ([t] + b);
    LinksInOrder(a, [t] + b);
    assert PageLinks(Body([t] + b)) == [];
  }

  /** The inner loop of `retrieveLinks`: the `href` values of one tag's attributes. */
  method CollectHrefs(attrs: seq<Attribute>) returns (hs: seq<string>)
    ensures hs == Hrefs(attrs)
  {
    hs := [];
    var j := 0;
    while j < |attrs|
      invariant 0 <= j <= |attrs|
      invariant hs == Hrefs(attrs[..j])
    {
      var attr := attrs[j];
      HrefsAppend(attrs[..j], [attr]);
      assert attrs[..j + 1] == attrs[..j] + [attr];
      if attr.key == "href" {
        hs := hs + [attr.val];
      }
      j := j + 1;
    }
    assert attrs[..j] == attrs;
  }

  /** `retrieveLinks`: on a fetch error it reports the URL as broken and returns no
      links; otherwise it scans the tokens until the first error token, appending
      every `href` value of every anchor start tag. */
  method RetrieveLinks(logger: Logger, url: string, resp: Response)
    returns (links: seq<string>, printed: seq<string>)
    ensures links == PageLinks(resp)
    ensures printed == Report(logger, url, resp)
    ensures resp.FetchError? ==> links == []
  {
    links := [];
    if resp.FetchError? {
      printed := Error(logger, ["Detected broken url", url]);
      return;
    }
    printed := [];
    var ts := resp.tokens;
    var i := 0;
    while i < |ts|
      invariant 0 <= i <= FirstError(ts)
      invariant links == AllLinks(ts[..i])
    {
      var token := ts[i];
      if token.kind == ErrorToken {
        return;
      }
      var found: seq<string> := [];
      if token.kind == StartTagToken && token.atom == "a" {
        found := CollectHrefs(token.attrs);
      }
      assert found == TokenLinks(token);
      AllLinksSnoc(ts, i);
      links := links + found;
      i := i + 1;
    }
  }

  lemma AllLinksSnoc(ts: seq<Token>, i: nat)
    requires i < |ts|
    ensures AllLinks(ts[..i + 1]) == AllLinks(ts[..i]) + TokenLinks(ts[i])
  {
    assert ts[..i + 1] == ts[..i] + [ts[i]];
    AllLinksAppend(ts[..i], [ts[i]]);
    assert AllLinks([ts[i]]) == TokenLinks(ts[i]) + AllLinks([]);
  }
}
