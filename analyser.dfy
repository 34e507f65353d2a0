/** `HTMLPageAnalyser`: holds the document's token stream and source URL,
    checks that the stream ends cleanly, then runs the six scans, each of
    which reads the stream from the start and writes one field of the report. */
module Analyser {
  import opened Text
  import opened Tokens
  import opened Tally
  import opened Counters
  import opened DocType
  import opened Title
  import opened Headings
  import opened Links
  import opened Login
  import opened Accessibility

  class HTMLPageAnalyser {
    /** The page's own URL. */
    const url: Url
    /** What the tokenizer produces for the document text; every scan re-reads it from the start. */
    const document: Stream
    /** `url.Parse`. */
    const parse: string -> Option<Url>
    /** `url.ResolveReference` against `url`. */
    const resolve: Url -> Url
    /** `http.Get`, as the network answers during this analysis. */
    const fetch: Url -> Response

    var htmlVersion: string
    var pageTitle: string
    var headingsByLevel: HeadingsCount?
    var linksByType: LinksCount?
    var inaccessibleLinks: int
    var loginForm: bool

    /** `New`: the report fields start at Go's zero values. */
    constructor (document: Stream, url: Url, parse: string -> Option<Url>, resolve: Url -> Url,
                 fetch: Url -> Response)
      ensures this.document == document && this.url == url
      ensures this.parse == parse && this.resolve == resolve && this.fetch == fetch
      ensures htmlVersion == "" && pageTitle == "" && headingsByLevel == null && linksByType == null
      ensures inaccessibleLinks == 0 && !loginForm
    {
      this.document, this.url := document, url;
      this.parse, this.resolve, this.fetch := parse, resolve, fetch;
      htmlVersion, pageTitle := "", "";
      headingsByLevel, linksByType := null, null;
      inaccessibleLinks, loginForm := 0, false;
    }

    /** The prepass, then the six scans. `arrivals` is the order in which the
        probes' verdicts come back over the channel: any rearrangement of the
        verdicts of the probes launched, one each. */
    method Analyse(arrivals: seq<bool>) returns (err: Option<string>)
      requires document.end.EOF? ==> DoctypeSafe(document.tokens)
      requires multiset(arrivals) == multiset(Verdicts(ProbeTargets(document.tokens, parse, resolve, url), fetch))
      modifies this
      ensures err.Some? <==> document.end.Failure?
      ensures err.Some? ==> err.value == document.end.err && unchanged(this)
      ensures err.None? ==> htmlVersion == HtmlVersionOf(document.tokens)
      ensures err.None? ==> pageTitle == TitleOf(document.tokens)
      ensures err.None? ==> headingsByLevel != null && fresh(headingsByLevel)
                            && headingsByLevel.h1 == HeadingCount(document.tokens, 1)
                            && headingsByLevel.h2 == HeadingCount(document.tokens, 2)
                            && headingsByLevel.h3 == HeadingCount(document.tokens, 3)
                            && headingsByLevel.h4 == HeadingCount(document.tokens, 4)
                            && headingsByLevel.h5 == HeadingCount(document.tokens, 5)
                            && headingsByLevel.h6 == HeadingCount(document.tokens, 6)
      ensures err.None? ==> linksByType != null && fresh(linksByType)
                            && linksByType.internal == InternalCount(document.tokens, parse, url)
                            && linksByType.external == ExternalCount(document.tokens, parse, url)
      ensures err.None? ==> inaccessibleLinks == InaccessibleCount(document.tokens, parse, resolve, fetch, url)
      ensures err.None? ==> loginForm == LoginFormOf(document.tokens)
    {
      // The prepass: the tokens are already read, so only the terminal one
      // is left to inspect, and anything but a clean end of input fails.
      if document.end.Failure? {
        return Some(document.end.err);
      }
      GetHTMLDocType();
      GetPageTitle();
      GetHeadingsCountByLevel();
      GetLinksCount();
      GetCountOfInaccessibleLinks(arrivals);
      HasLoginForm();
      err := None;
    }

    /** The first doctype decides the version label; reading stops there. */
    method GetHTMLDocType()
      requires DoctypeSafe(document.tokens)
      modifies this`htmlVersion
      ensures htmlVersion == HtmlVersionOf(document.tokens)
    {
      var tokens := document.tokens;
      var version := "";
      var i := 0;
      while true
        invariant 0 <= i <= |tokens|
        invariant forall j | 0 <= j < i :: !tokens[j].Doctype?
        decreases |tokens| - i
      {
        if i == |tokens| {
          version := NoDoctype;
          break;
        }
        var t := tokens[i];
        i := i + 1;
        if t.Doctype? {
          assert FirstDoctype(tokens) == Some(t.data) by {
            assert FirstDoctypeAt(tokens, i - 1);
          }
          version := ClassifyDoctype(Lower(t.data));
          break;
        }
      }
      htmlVersion := version;
    }

    /** The token after the first title start tag gives the title. */
    method GetPageTitle()
      modifies this`pageTitle
      ensures pageTitle == TitleOf(document.tokens)
    {
      var tokens := document.tokens;
      var title := "";
      var i := 0;
      while true
        invariant 0 <= i <= |tokens|
        invariant forall j | 0 <= j < i :: !IsTitleTag(tokens[j])
        decreases |tokens| - i
      {
        if i == |tokens| {
          title := NoTitle;
          break;
        }
        var t := tokens[i];
        i := i + 1;
        if t.StartTag? && HasPrefix(t.name, "title") {
          assert FirstTitleAt(tokens, i - 1);
          // The next token; at the end of input that is the error token, whose data is empty.
          title := if i < |tokens| then Data(tokens[i]) else "";
          break;
        }
      }
      pageTitle := title;
    }

    /** Every start tag of two or more characters is handed to `HeadingsCount.Add` by its first two. */
    method GetHeadingsCountByLevel()
      modifies this`headingsByLevel
      ensures headingsByLevel != null && fresh(headingsByLevel)
      ensures headingsByLevel.h1 == HeadingCount(document.tokens, 1)
      ensures headingsByLevel.h2 == HeadingCount(document.tokens, 2)
      ensures headingsByLevel.h3 == HeadingCount(document.tokens, 3)
      ensures headingsByLevel.h4 == HeadingCount(document.tokens, 4)
      ensures headingsByLevel.h5 == HeadingCount(document.tokens, 5)
      ensures headingsByLevel.h6 == HeadingCount(document.tokens, 6)
    {
      var tokens := document.tokens;
      var counts := new HeadingsCount();
      var i := 0;
      while i < |tokens|
        invariant 0 <= i <= |tokens|
        invariant counts.h1 == HeadingCount(tokens[..i], 1)
        invariant counts.h2 == HeadingCount(tokens[..i], 2)
        invariant counts.h3 == HeadingCount(tokens[..i], 3)
        invariant counts.h4 == HeadingCount(tokens[..i], 4)
        invariant counts.h5 == HeadingCount(tokens[..i], 5)
        invariant counts.h6 == HeadingCount(tokens[..i], 6)
      {
        var t := tokens[i];
        if t.StartTag? && |t.name| > 1 {
          counts.Add(t.name[..2]);
        }
        assert tokens[..i + 1][..i] == tokens[..i];
        i := i + 1;
      }
      assert tokens[..i] == tokens;
      headingsByLevel := counts;
    }

    /** Each `<a>` start tag with a non-empty href that parses is counted as
        external or internal; the rest are skipped. */
    method GetLinksCount()
      modifies this`linksByType
      ensures linksByType != null && fresh(linksByType)
      ensures linksByType.internal == InternalCount(document.tokens, parse, url)
      ensures linksByType.external == ExternalCount(document.tokens, parse, url)
    {
      var tokens := document.tokens;
      var counts := new LinksCount();
      var i := 0;
      while i < |tokens|
        invariant 0 <= i <= |tokens|
        invariant counts.internal == InternalCount(tokens[..i], parse, url)
        invariant counts.external == ExternalCount(tokens[..i], parse, url)
      {
        var t := tokens[i];
        if t.StartTag? && t.name == "a" {
          var href := LookupAttr(t.attrs, "href");
          if href != "" {
            match parse(href)
            case None =>
            case Some(u) =>
              if IsLinkExternal(u, url) {
                counts.Add("external");
              } else {
                counts.Add("internal");
              }
          }
        }
        assert tokens[..i + 1][..i] == tokens[..i];
        i := i + 1;
      }
      assert tokens[..i] == tokens;
      linksByType := counts;
    }

    /** True once some input start tag of type "password" and some of type
        "submit" have both been read; the flag is raised at the top of the
        loop, so both found on the last token still count. */
    method HasLoginForm()
      modifies this`loginForm
      ensures loginForm == LoginFormOf(document.tokens)
    {
      var tokens := document.tokens;
      var hasSubmit, hasPassword, hasLogin := false, false, false;
      var i := 0;
      while true
        invariant 0 <= i <= |tokens|
        invariant hasPassword == Seen(tokens[..i], "password")
        invariant hasSubmit == Seen(tokens[..i], "submit")
        invariant hasLogin ==> hasSubmit && hasPassword
        decreases |tokens| - i
      {
        if hasSubmit && hasPassword {
          hasLogin := true;
        }
        if i == |tokens| {
          break;
        }
        var t := tokens[i];
        if t.StartTag? && HasPrefix(t.name, "input") {
          var typeVal := LookupAttr(t.attrs, "type");
          if typeVal == "submit" {
            hasSubmit := true;
          } else if typeVal == "password" {
            hasPassword := true;
          }
        }
        SeenStep(tokens, i, "password");
        SeenStep(tokens, i, "submit");
        i := i + 1;
      }
      assert tokens[..i] == tokens;
      loginForm := hasLogin;
    }

    /** Unparseable hrefs are counted at once; every other link launches one
        probe, and then exactly one verdict per probe is received. */
    method GetCountOfInaccessibleLinks(arrivals: seq<bool>)
      requires multiset(arrivals) == multiset(Verdicts(ProbeTargets(document.tokens, parse, resolve, url), fetch))
      modifies this`inaccessibleLinks
      ensures inaccessibleLinks == InaccessibleCount(document.tokens, parse, resolve, fetch, url)
    {
      var tokens := document.tokens;
      var inaccessible := 0;
      var launched := 0;
      ghost var targets: seq<Url> := [];
      var i := 0;
      while i < |tokens|
        invariant 0 <= i <= |tokens|
        invariant inaccessible == UnparseableCount(tokens[..i], parse)
        invariant targets == ProbeTargets(tokens[..i], parse, resolve, url)
        invariant launched == |targets|
      {
        var t := tokens[i];
        if t.StartTag? && t.name == "a" {
          var href := LookupAttr(t.attrs, "href");
          if href != "" {
            match parse(href)
            case None =>
              inaccessible := inaccessible + 1;
            case Some(u) =>
              var target := if !IsLinkExternal(u, url) then resolve(u) else u;
              // go checkAccessibiltyOfLink(target): its verdict is Accessible(fetch(target)).
              launched := launched + 1;
              targets := targets + [target];
          }
        }
        ScanStep(tokens, i, parse, resolve, url);
        i := i + 1;
      }
      assert tokens[..i] == tokens;
      ArrivalOrderIrrelevant(arrivals, targets, fetch);
      inaccessible := ReceiveVerdicts(inaccessible, arrivals, launched);
      InaccessibleSplit(tokens, parse, resolve, fetch, url);
      inaccessibleLinks := inaccessible;
    }
  }

  /** The receive loop of the inaccessible-link scan: one verdict is taken
      off the channel per launched probe, in arrival order, and each false
      one adds to the count. */
  method ReceiveVerdicts(count: int, arrivals: seq<bool>, launched: nat) returns (total: int)
    requires launched == |arrivals|
    ensures total == count + Failures(arrivals)
  {
    total := count;
    var k := 0;
    while k < launched
      invariant 0 <= k <= launched
      invariant total == count + Failures(arrivals[..k])
    {
      var result := arrivals[k];
      if !result {
        total := total + 1;
      }
      CountIfStep(arrivals, k, v => !v);
      k := k + 1;
    }
    assert arrivals[..k] == arrivals;
  }
}
