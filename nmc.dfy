/**
 * Logging in to the network management card's web interface: the card
 * answers the login form with a redirect whose URL carries the session
 * token, `http://host/NMC/<token>/home.htm`.  `generate_nmc_session` reads the
 * token with the regular expression `/NMC/(.*)/`: the leftmost `/NMC/`, then
 * greedily everything up to the last `/` later on the same line.
 */
module Nmc {
  import opened Wrappers

  /** What the login POST produced: a response (status and final URL), or an exception it caught. */
  datatype LoginOutcome = LoginResponse(status: int, url: string) | LoginRaised

  /** `/NMC/` starts at index `p`. */
  predicate MarkerAt(url: string, p: int) {
    0 <= p && p + 5 <= |url| && url[p..p + 5] == "/NMC/"
  }

  /** The regular expression matches `url[p..q + 1]`: the marker at `p`, a `/` at `q`, no line break between. */
  predicate MatchAt(url: string, p: int, q: int) {
    && MarkerAt(url, p)
    && p + 5 <= q < |url| && url[q] == '/'
    && forall j :: p + 5 <= j < q ==> url[j] != '\n'
  }

  /** The match `re.search` reports among those starting at `lo` or later: leftmost start, then longest. */
  ghost predicate LeftmostFrom(url: string, lo: int, p: int, q: int) {
    && lo <= p && MatchAt(url, p, q)
    && (forall p2, q2 :: lo <= p2 && MatchAt(url, p2, q2) ==> p <= p2)
    && (forall q2 :: MatchAt(url, p, q2) ==> q2 <= q)
  }

  /** Where the line that contains index `k` ends: the next `\n`, or the end of the text. */
  function LineEnd(url: string, k: int): (e: int)
    requires 0 <= k <= |url|
    ensures k <= e <= |url| && (e == |url| || url[e] == '\n')
    ensures forall j :: k <= j < e ==> url[j] != '\n'
    decreases |url| - k
  {
    if k == |url| || url[k] == '\n' then k else LineEnd(url, k + 1)
  }

  /** The last `/` in `url[lo..hi]`. */
  function LastSlash(url: string, lo: int, hi: int): (r: Option<int>)
    requires 0 <= lo <= hi <= |url|
    ensures r.Some? ==> lo <= r.value < hi && url[r.value] == '/' && forall q :: r.value < q < hi ==> url[q] != '/'
    ensures r.None? ==> forall q :: lo <= q < hi ==> url[q] != '/'
    decreases hi - lo
  {
    if hi == lo then None
    else if url[hi - 1] == '/' then Some(hi - 1)
    else LastSlash(url, lo, hi - 1)
  }

  /** Where the greedy group ends for a marker at `p`: the last `/` on the rest of its line. */
  function GreedyEnd(url: string, p: int): Option<int>
    requires MarkerAt(url, p)
  {
    LastSlash(url, p + 5, LineEnd(url, p + 5))
  }

  lemma GreedyEndMeaning(url: string, p: int)
    requires MarkerAt(url, p)
    ensures GreedyEnd(url, p).None? <==> forall q :: !MatchAt(url, p, q)
    ensures GreedyEnd(url, p).Some? ==>
      MatchAt(url, p, GreedyEnd(url, p).value) && forall q :: MatchAt(url, p, q) ==> q <= GreedyEnd(url, p).value
  {
    var e := LineEnd(url, p + 5);
    assert forall q :: MatchAt(url, p, q) ==> q < e && url[q] == '/';
    match GreedyEnd(url, p)
    case None =>
    case Some(v) =>
      assert MatchAt(url, p, v);
  }

  lemma NoMatchAt(url: string, p: int)
    requires 0 <= p
    requires !(MarkerAt(url, p) && GreedyEnd(url, p).Some?)
    ensures forall q :: !MatchAt(url, p, q)
  {
    if MarkerAt(url, p) {
      GreedyEndMeaning(url, p);
    }
  }

  /** `re.search` started at index `p`. */
  function FindFrom(url: string, p: int): Option<string>
    requires 0 <= p
    decreases |url| - p
  {
    if p + 5 > |url| then None
    else if MarkerAt(url, p) && GreedyEnd(url, p).Some? then Some(url[p + 5..GreedyEnd(url, p).value])
    else FindFrom(url, p + 1)
  }

  /** The search from `p` finds the leftmost, then longest, match starting at `p` or later. */
  lemma {:induction false} FindFromMeaning(url: string, p: int)
    requires 0 <= p
    ensures FindFrom(url, p).None? <==> forall p2, q2 :: p <= p2 ==> !MatchAt(url, p2, q2)
    ensures FindFrom(url, p).Some? ==>
      exists p2, q2 :: LeftmostFrom(url, p, p2, q2) && FindFrom(url, p).value == url[p2 + 5..q2]
    decreases |url| - p
  {
    if p + 5 > |url| {
    } else if MarkerAt(url, p) && GreedyEnd(url, p).Some? {
      GreedyEndMeaning(url, p);
      var q := GreedyEnd(url, p).value;
      assert LeftmostFrom(url, p, p, q);
    } else {
      NoMatchAt(url, p);
      FindFromMeaning(url, p + 1);
      if FindFrom(url, p + 1).Some? {
        var p2, q2 :| LeftmostFrom(url, p + 1, p2, q2) && FindFrom(url, p + 1).value == url[p2 + 5..q2];
        LeftmostLifts(url, p, p2, q2);
      } else {
        NoMatchLifts(url, p);
      }
    }
  }

  /** Without a match at `p`, the leftmost match from `p + 1` is the leftmost from `p`. */
  lemma LeftmostLifts(url: string, p: int, p2: int, q2: int)
    requires 0 <= p && forall q :: !MatchAt(url, p, q)
    requires LeftmostFrom(url, p + 1, p2, q2)
    ensures LeftmostFrom(url, p, p2, q2)
  {
  }

  lemma NoMatchLifts(url: string, p: int)
    requires 0 <= p && forall q :: !MatchAt(url, p, q)
    requires forall p2, q2 :: p + 1 <= p2 ==> !MatchAt(url, p2, q2)
    ensures forall p2, q2 :: p <= p2 ==> !MatchAt(url, p2, q2)
  {
  }

  /**
   * `nmc_session_regex.search(url).group(1)`: `None` exactly when nothing
   * matches, otherwise the text between the leftmost `/NMC/` and the last `/`
   * that follows it on the same line.
   */
  function FindToken(url: string): (r: Option<string>)
    ensures r.None? <==> forall p, q :: !MatchAt(url, p, q)
    ensures r.Some? ==> exists p, q :: LeftmostFrom(url, 0, p, q) && r.value == url[p + 5..q]
  {
    FindFromMeaning(url, 0);
    FindFrom(url, 0)
  }

  /** `url` holds `/NMC/<token>/` at index `p`. */
  predicate TokenAt(url: string, token: string, p: int) {
    0 <= p && p + |token| + 6 <= |url| && url[p..p + |token| + 6] == "/NMC/" + token + "/"
  }

  /** A token the search finds stands in the URL between `/NMC/` and a `/`, on one line. */
  lemma FoundTokenOccurs(url: string)
    ensures FindToken(url).Some? ==>
      '\n' !in FindToken(url).value && exists p :: TokenAt(url, FindToken(url).value, p)
  {
    if FindToken(url).Some? {
      var p, q :| LeftmostFrom(url, 0, p, q) && FindToken(url).value == url[p + 5..q];
      MatchCarriesToken(url, p, q);
    }
  }

  lemma MatchCarriesToken(url: string, p: int, q: int)
    requires MatchAt(url, p, q)
    ensures TokenAt(url, url[p + 5..q], p) && '\n' !in url[p + 5..q]
  {
    var token := url[p + 5..q];
    assert url[p..q + 1] == url[p..p + 5] + token + [url[q]];
    forall i | 0 <= i < |token| ensures token[i] != '\n' {
      assert token[i] == url[p + 5 + i];
    }
  }

  /** The session `generate_nmc_session` returns: none when the POST raised or did not answer 200. */
  function GenerateSession(login: LoginOutcome): (r: Option<string>)
    ensures login.LoginRaised? ==> r.None?
    ensures login.LoginResponse? && login.status != 200 ==> r.None?
    ensures login.LoginResponse? && login.status == 200 ==> r == FindToken(login.url)
    ensures r.Some? ==>
      && login.LoginResponse? && login.status == 200
      && '\n' !in r.value && exists p :: TokenAt(login.url, r.value, p)
  {
    match login
    case LoginRaised => None
    case LoginResponse(status, url) =>
      FoundTokenOccurs(url);
      if status != 200 then None else FindToken(url)
  }

  /**
   * The usual redirect: before the marker nothing else starts with `/NMC/`,
   * and after the token's closing `/` no other `/` follows, so the token is
   * read back whole, even when it contains `/` itself.
   */
  lemma {:induction false} TokenOfRedirect(before: string, token: string, page: string)
    requires forall p :: 0 <= p < |before| ==> !MarkerAt(before + "/NMC/" + token + "/" + page, p)
    requires '\n' !in token && '/' !in page
    ensures FindToken(before + "/NMC/" + token + "/" + page) == Some(token)
  {
    var url := before + "/NMC/" + token + "/" + page;
    var p, q := |before|, |before| + 5 + |token|;
    assert url[p..p + 5] == "/NMC/";
    assert url[p + 5..q] == token;
    assert url[q] == '/';
    assert MatchAt(url, p, q) by {
      forall j | p + 5 <= j < q ensures url[j] != '\n' { assert url[j] == token[j - p - 5]; }
    }
    forall p2, q2 | MatchAt(url, p2, q2)
      ensures p <= p2
    {
      assert !(p2 < |before|);
    }
    assert forall q2 :: MatchAt(url, p, q2) ==> q2 <= q;
    var r := FindToken(url);
    assert r.Some?;
    var p3, q3 :| LeftmostFrom(url, 0, p3, q3) && r.value == url[p3 + 5..q3];
    assert p3 == p && q3 == q;
  }

  /** A URL without the marker carries no session, as when the card rejects the credentials. */
  lemma NoMarkerNoToken(url: string)
    requires forall p :: 0 <= p < |url| ==> !MarkerAt(url, p)
    ensures FindToken(url) == None
  {
  }

  lemma ExampleRedirect()
    ensures FindToken("" + "/NMC/" + "Ab1" + "/" + "home.htm") == Some("Ab1")
  {
    TokenOfRedirect("", "Ab1", "home.htm");
  }

  /** The group is greedy: a `/` inside the token does not end it. */
  lemma ExampleGreedy()
    ensures FindToken("" + "/NMC/" + "a/b" + "/" + "home.htm") == Some("a/b")
  {
    TokenOfRedirect("", "a/b", "home.htm");
  }
}
