/** The internal/external link histogram. URL parsing is a foreign call: it
    is a parameter `parse` that either fails or yields a URL with a host. */
module Links {
  import opened Tokens
  import opened Tally

  /** A parsed URL: its host, and the rest of it, which the analyser never inspects. */
  datatype Url = Url(host: string, reference: string)

  /** `isLinkExternal`: a link leaves the site when it names a host, and not the page's own. */
  predicate IsLinkExternal(href: Url, page: Url) {
    !(href.host == "" || href.host == page.host)
  }

  /** The first `href` of an `<a>` start tag; "" for every other token. */
  function HrefOf(t: Token): string {
    if t.StartTag? && t.name == "a" then AttrVal(t.attrs, "href") else ""
  }

  /** An anchor the histogram counts: a non-empty href that parses. */
  predicate IsLink(t: Token, parse: string -> Option<Url>) {
    HrefOf(t) != "" && parse(HrefOf(t)).Some?
  }

  predicate IsExternalLink(t: Token, parse: string -> Option<Url>, page: Url) {
    IsLink(t, parse) && IsLinkExternal(parse(HrefOf(t)).value, page)
  }

  predicate IsInternalLink(t: Token, parse: string -> Option<Url>, page: Url) {
    IsLink(t, parse) && !IsLinkExternal(parse(HrefOf(t)).value, page)
  }

  function LinkCount(s: seq<Token>, parse: string -> Option<Url>): nat {
    CountIf(s, t => IsLink(t, parse))
  }

  function InternalCount(s: seq<Token>, parse: string -> Option<Url>, page: Url): nat {
    CountIf(s, t => IsInternalLink(t, parse, page))
  }

  function ExternalCount(s: seq<Token>, parse: string -> Option<Url>, page: Url): nat {
    CountIf(s, t => IsExternalLink(t, parse, page))
  }

  /** Every anchor that is not skipped lands in exactly one of the two buckets. */
  lemma {:induction false} LinksTotal(s: seq<Token>, parse: string -> Option<Url>, page: Url)
    ensures InternalCount(s, parse, page) + ExternalCount(s, parse, page) == LinkCount(s, parse)
  {
    if s != [] {
      LinksTotal(s[..|s| - 1], parse, page);
    }
  }

  /** Tags other than `<a ...>` start tags, anchors without an href and anchors
      whose href does not parse are in neither bucket. */
  lemma SkippedAnchors(t: Token, parse: string -> Option<Url>, page: Url)
    requires !t.StartTag? || t.name != "a" || AttrVal(t.attrs, "href") == ""
             || parse(AttrVal(t.attrs, "href")).None?
    ensures !IsInternalLink(t, parse, page) && !IsExternalLink(t, parse, page)
  {
  }

  /** The histogram does not depend on the order of the tokens. */
  lemma LinksPermutation(a: seq<Token>, b: seq<Token>, parse: string -> Option<Url>, page: Url)
    requires multiset(a) == multiset(b)
    ensures InternalCount(a, parse, page) == InternalCount(b, parse, page)
    ensures ExternalCount(a, parse, page) == ExternalCount(b, parse, page)
  {
    CountIfPermutation(a, b, t => IsInternalLink(t, parse, page));
    CountIfPermutation(a, b, t => IsExternalLink(t, parse, page));
  }

  /** A link counts as external exactly when it names a host other than the
      page's own: a page whose links all stay on its host, or name none, has no
      external link, and one that has none links nowhere else. */
  lemma {:induction false} NoExternalIff(s: seq<Token>, parse: string -> Option<Url>, page: Url)
    ensures ExternalCount(s, parse, page) == 0
        <==> forall i | 0 <= i < |s| && IsLink(s[i], parse) :: parse(HrefOf(s[i])).value.host in {"", page.host}
  {
    if s != [] {
      var init := s[..|s| - 1];
      NoExternalIff(init, parse, page);
      assert forall i | 0 <= i < |init| :: init[i] == s[i];
    }
  }
}
