/** The count of inaccessible links. Every `<a>` with a non-empty href is
    either unparseable (inaccessible at once) or probed once; a probe fails
    when the request errs or the status is not 2xx. The network is a given
    function `fetch`, reference resolution against the page URL a given
    function `resolve`. */
module Accessibility {
  import opened Tokens
  import opened Tally
  import opened Links

  /** What an HTTP GET gives back: a status code, or a request error. */
  datatype Response = Reply(status: int) | RequestError(err: string)

  /** The verdict of `checkAccessibiltyOfLink`: false on a request error or a
      status outside [200, 300). That is, true exactly for a reply in the 2xx
      (successful) class, the codes whose first digit is 2 (section 15.3 of
      RFC 9110). */
  function Accessible(r: Response): (ok: bool)
    ensures ok <==> r.Reply? && 0 <= r.status && r.status / 100 == 2
  {
    r.Reply? && !(r.status < 200 || r.status >= 300)
  }

  /** The URL a probe is sent to: external links as written, others resolved
      against the page URL. */
  function Target(u: Url, page: Url, resolve: Url -> Url): Url {
    if IsLinkExternal(u, page) then u else resolve(u)
  }

  predicate HasHref(t: Token) {
    HrefOf(t) != ""
  }

  predicate IsUnparseable(t: Token, parse: string -> Option<Url>) {
    HasHref(t) && parse(HrefOf(t)).None?
  }

  /** Anchors with a non-empty href: the links the prober looks at. */
  function HrefCount(s: seq<Token>): nat {
    CountIf(s, HasHref)
  }

  function UnparseableCount(s: seq<Token>, parse: string -> Option<Url>): nat {
    CountIf(s, t => IsUnparseable(t, parse))
  }

  /** The probes launched, in the order the scan launches them. */
  function ProbeTargets(s: seq<Token>, parse: string -> Option<Url>, resolve: Url -> Url, page: Url): (r: seq<Url>)
    ensures |r| == LinkCount(s, parse)
  {
    if s == [] then []
    else
      var t := s[|s| - 1];
      ProbeTargets(s[..|s| - 1], parse, resolve, page)
        + if IsLink(t, parse) then [Target(parse(HrefOf(t)).value, page, resolve)] else []
  }

  /** The verdict each launched probe sends back. */
  function Verdicts(targets: seq<Url>, fetch: Url -> Response): seq<bool> {
    seq(|targets|, k requires 0 <= k < |targets| => Accessible(fetch(targets[k])))
  }

  function Failures(verdicts: seq<bool>): nat {
    CountIf(verdicts, v => !v)
  }

  /** Link by link: an anchor is inaccessible when its href is non-empty and
      either does not parse or names a target that does not answer 2xx. */
  predicate IsInaccessible(t: Token, parse: string -> Option<Url>, resolve: Url -> Url,
                           fetch: Url -> Response, page: Url) {
    HasHref(t) &&
    match parse(HrefOf(t))
    case None => true
    case Some(u) => !Accessible(fetch(Target(u, page, resolve)))
  }

  /** The `InaccessibleLinks` field of the report. */
  function InaccessibleCount(s: seq<Token>, parse: string -> Option<Url>, resolve: Url -> Url,
                             fetch: Url -> Response, page: Url): nat {
    CountIf(s, t => IsInaccessible(t, parse, resolve, fetch, page))
  }

  /** One probe is launched for each link the histogram counts, so the
      launched probes and the unparseable hrefs together are the hrefs. */
  lemma {:induction false} ProbesPerLink(s: seq<Token>, parse: string -> Option<Url>, resolve: Url -> Url, page: Url)
    ensures |ProbeTargets(s, parse, resolve, page)| + UnparseableCount(s, parse) == HrefCount(s)
  {
    if s != [] {
      ProbesPerLink(s[..|s| - 1], parse, resolve, page);
    }
  }

  /** Reading one more token adds its unparseable href, or its probe, to what
      the scan has gathered so far. */
  lemma ScanStep(s: seq<Token>, i: nat, parse: string -> Option<Url>, resolve: Url -> Url, page: Url)
    requires i < |s|
    ensures UnparseableCount(s[..i + 1], parse)
         == UnparseableCount(s[..i], parse) + if IsUnparseable(s[i], parse) then 1 else 0
    ensures ProbeTargets(s[..i + 1], parse, resolve, page)
         == ProbeTargets(s[..i], parse, resolve, page)
            + if IsLink(s[i], parse) then [Target(parse(HrefOf(s[i])).value, page, resolve)] else []
  {
    assert s[..i + 1][..i] == s[..i];
  }

  /** The prober resolves exactly the links the histogram calls internal: a
      token counted as internal is probed at its resolved URL, one counted as
      external at its URL as written, and any other token launches no probe. */
  lemma ProbedAsClassified(s: seq<Token>, t: Token, parse: string -> Option<Url>, resolve: Url -> Url, page: Url)
    ensures IsInternalLink(t, parse, page) ==>
              (ProbeTargets(s + [t], parse, resolve, page)
               == ProbeTargets(s, parse, resolve, page) + [resolve(parse(HrefOf(t)).value)])
    ensures IsExternalLink(t, parse, page) ==>
              (ProbeTargets(s + [t], parse, resolve, page)
               == ProbeTargets(s, parse, resolve, page) + [parse(HrefOf(t)).value])
    ensures !IsLink(t, parse) ==> ProbeTargets(s + [t], parse, resolve, page) == ProbeTargets(s, parse, resolve, page)
  {
    assert (s + [t])[..|s|] == s;
  }

  /** The count splits into the unparseable hrefs and the failed probes. */
  lemma {:induction false} InaccessibleSplit(s: seq<Token>, parse: string -> Option<Url>, resolve: Url -> Url,
                                             fetch: Url -> Response, page: Url)
    ensures InaccessibleCount(s, parse, resolve, fetch, page)
         == UnparseableCount(s, parse) + Failures(Verdicts(ProbeTargets(s, parse, resolve, page), fetch))
  {
    if s != [] {
      var init, t := s[..|s| - 1], s[|s| - 1];
      InaccessibleSplit(init, parse, resolve, fetch, page);
      var before := ProbeTargets(init, parse, resolve, page);
      var added := if IsLink(t, parse) then [Target(parse(HrefOf(t)).value, page, resolve)] else [];
      assert Verdicts(before + added, fetch) == Verdicts(before, fetch) + Verdicts(added, fetch);
      CountIfAppend(Verdicts(before, fetch), Verdicts(added, fetch), v => !v);
      if added != [] {
        assert Verdicts(added, fetch)[..0] == [];
      }
    }
  }

  /** Never more inaccessible links than anchors with a non-empty href. */
  lemma {:induction false} InaccessibleBound(s: seq<Token>, parse: string -> Option<Url>, resolve: Url -> Url,
                                             fetch: Url -> Response, page: Url)
    ensures InaccessibleCount(s, parse, resolve, fetch, page) <= HrefCount(s)
  {
    if s != [] {
      InaccessibleBound(s[..|s| - 1], parse, resolve, fetch, page);
    }
  }

  /** Probe results may arrive in any order: as long as exactly one verdict
      per launched probe arrives, the number of failures is the same. */
  lemma ArrivalOrderIrrelevant(arrivals: seq<bool>, targets: seq<Url>, fetch: Url -> Response)
    requires multiset(arrivals) == multiset(Verdicts(targets, fetch))
    ensures |arrivals| == |targets|
    ensures Failures(arrivals) == Failures(Verdicts(targets, fetch))
  {
    assert |multiset(arrivals)| == |arrivals|;
    assert |multiset(Verdicts(targets, fetch))| == |targets|;
    CountIfPermutation(arrivals, Verdicts(targets, fetch), v => !v);
  }
}
