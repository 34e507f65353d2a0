# HTML page analyser, modelled in Dafny

This project models the analysis core of a web-page analyser. Given the text
of an HTML page and the URL it came from, the analyser tokenizes the text once
to check that it tokenizes cleanly. It then runs six scans, each over a fresh
token stream, and each fills one field of the `HTMLPageAnalyser` report:

- the HTML version read from the first doctype;
- the page title (the token after the first `title` start tag);
- a histogram of `h1`..`h6` start tags;
- a histogram of internal and external links;
- the number of inaccessible links, found by probing every link over HTTP;
- whether the page seems to hold a login form (some password input and some submit input).

The model takes the tokenizer's output as its input: a `Stream` holds a
finite `seq<Token>` and a `Terminal`, which is either a clean end of input
(`EOF`) or a `Failure`. URL parsing, reference resolution against the page URL
and the HTTP request are foreign calls. They are given functions, stored in
the analyser object: `parse`, `resolve` and `fetch`.

Modules:

- `Text`: the Go `strings`/`strconv` helpers used, over ASCII (`Lower`, `HasPrefix`, `IndexOf`, `Contains`, `IsDigit`).
- `Tokens`: token events, and the first-attribute lookup.
- `Tally`: a generic `CountIf` fold, with its append and permutation lemmas.
- `Counters`: the two histogram records. Go updates them through pointer-receiver `Add` methods, so they are classes here.
- `DocType`, `Title`, `Headings`, `Links`, `Login`, `Accessibility`: one specification function per report field, with lemmas for the properties the analyser promises.
- `Analyser`: the `HTMLPageAnalyser` class. It holds `Analyse` and the six scans. `Analyse` checks how the token stream ends, then runs the scans. Each scan is a method that loops over the tokens, and each is proved to leave its field equal to the specification function.

## Model

| member | source | states |
|---|---|---|
| Counters.LinksCount.constructor | htmlanalyser/htmlAnalyser.go:17-19 | both counters start at zero (the Go zero value) |
| Counters.LinksCount.Add | htmlanalyser/htmlAnalyser.go:22-29 | "internal" adds one to `internal` only, "external" adds one to `external` only, any other word changes nothing |
| Counters.HeadingsCount.constructor | htmlanalyser/htmlAnalyser.go:33-35 | all six counters start at zero |
| Counters.HeadingsCount.Add | htmlanalyser/htmlAnalyser.go:38-53 | "h1".."h6" adds one to exactly that level's counter and leaves the other five as they were; any other string changes nothing |
| Text.IndexOf | htmlanalyser/htmlAnalyser.go:148 | `strings.Index`: the result is -1 or a position where the marker occurs, and no earlier position holds it |
| Text.ContainsIff | htmlanalyser/htmlAnalyser.go:146 | `strings.Contains` holds exactly when the marker occurs at some position |
| Text.IndexOfAfter | htmlanalyser/htmlAnalyser.go:148 | a prefix that lacks the marker's first character shifts the first occurrence by its length and cannot create one |
| Tokens.AttrVal | htmlanalyser/htmlAnalyser.go:241-246 | the value of the first attribute with the key, or "" when no attribute has it |
| Tokens.LookupAttr | htmlanalyser/htmlAnalyser.go:298-304 | the attribute loop that stops at the first match returns the value `AttrVal` specifies |
| DocType.FirstDoctype | htmlanalyser/htmlAnalyser.go:131-139 | none exactly when the stream holds no doctype; otherwise the payload of the first doctype |
| DocType.VersionAfter | htmlanalyser/htmlAnalyser.go:148-156 | the version is 3 or 4 characters long, 4 exactly when the character 3 past the start is a digit, and it is the text that starts one space past the marker's first occurrence |
| DocType.Label | htmlanalyser/htmlAnalyser.go:142-169 | "html" gives "HTML 5.0"; the HTML marker wins over the XHTML marker; each marker gives its prefix plus the version after it; the result is "" exactly when no case matches |
| DocType.ClassifyDoctype | htmlanalyser/htmlAnalyser.go:142-169 | the switch, with its index and slice arithmetic, computes `Label` of the lower-cased payload |
| DocType.NoDoctypeIff | htmlanalyser/htmlAnalyser.go:133-136 | the version is the "no doctype" sentinel exactly when the stream holds no doctype token |
| DocType.LaterDoctypesIgnored | htmlanalyser/htmlAnalyser.go:137-171 | appending anything after the first doctype changes neither the doctype found nor the version |
| DocType.XhtmlIdIsNotHtml | htmlanalyser/htmlAnalyser.go:146 | an identifier that starts with the XHTML marker matches the HTML case, which is tried first, only if the HTML marker occurs later in it |
| DocType.VersionAfterMarker | htmlanalyser/htmlAnalyser.go:148-156 | after a marker preceded by no '-' and followed by at least five characters, the version is read from the 17th (HTML) or 18th (XHTML) character past the match start |
| DocType.LabelAfterMarker | htmlanalyser/htmlAnalyser.go:142-169 | a payload with no '-' before its marker, then one space and a version the source reads whole (four characters ending in a digit, or three followed by a non-digit), is safe to classify and gets "HTML "/"XHTML " plus that version; for the XHTML marker, the HTML marker must not occur after it |
| DocType.LabelHtml401 | htmlanalyser/htmlAnalyser.go:146-156 | an HTML 4.01 public identifier gives "HTML 4.01", whatever follows the version |
| DocType.LabelHtml32 | htmlanalyser/htmlAnalyser.go:146-156 | an HTML 3.2 Final public identifier gives "HTML 3.2": the character after "3.2" is not a digit |
| DocType.LabelXhtml10 | htmlanalyser/htmlAnalyser.go:142-168 | the full XHTML 1.0 Strict payload, system identifier `.../xhtml1-strict.dtd` included, skips the HTML case and gives "XHTML 1.0" |
| DocType.DoctypeHtml401 | htmlanalyser/htmlAnalyser.go:137-156 | the doctype payload of `<!DOCTYPE HTML PUBLIC "-//W3C//DTD HTML 4.01//EN">`, in upper case, gives "HTML 4.01" |
| DocType.DoctypeHtml5 | htmlanalyser/htmlAnalyser.go:131-144 | a first doctype whose payload lower-cases to "html" gives "HTML 5.0", whatever precedes it without a doctype and whatever follows it; the stream cut before it gives the sentinel |
| Title.TitleOf | htmlanalyser/htmlAnalyser.go:183-197 | no title tag gives the "no title" sentinel; otherwise the data of the token after the first title tag ("" when that tag is the last token) |
| Title.TitleIgnoresLater | htmlanalyser/htmlAnalyser.go:189-195 | once a title tag and its next token are in, whatever follows does not change the title |
| Headings.HeadingLevelIff | htmlanalyser/htmlAnalyser.go:214-217 | a token counts exactly when it is a start tag whose name begins with 'h' and a digit 1..6, and it counts at that digit's level |
| Headings.HeadingLevelExamples | htmlanalyser/htmlAnalyser.go:214-217 | end tags, `hr`, `header`, `h` and self-closing tags add nothing; `h2x` counts at level 2 |
| Headings.HeadingSum | htmlanalyser/htmlAnalyser.go:204-223 | the six buckets add up to the number of start tags whose name begins with h1..h6 |
| Headings.HeadingsPermutation | htmlanalyser/htmlAnalyser.go:209-220 | the histogram does not depend on the order of the tokens |
| Links.NoExternalIff | htmlanalyser/htmlAnalyser.go:256-275 | the external count is zero exactly when every counted link names no host or the page's own host |
| Links.LinksTotal | htmlanalyser/htmlAnalyser.go:247-260 | internal plus external equals the number of anchors with a non-empty href that parses |
| Links.SkippedAnchors | htmlanalyser/htmlAnalyser.go:239-255 | non-anchor tags, anchors without an href and anchors whose href fails to parse are in neither bucket |
| Links.LinksPermutation | htmlanalyser/htmlAnalyser.go:232-263 | neither count depends on the order of the tokens |
| Login.SeenStep | htmlanalyser/htmlAnalyser.go:295-310 | reading one more token adds exactly that token's input type to the types seen |
| Login.LoginFormPermutation | htmlanalyser/htmlAnalyser.go:280-315 | the verdict does not depend on where, or in which order, the two inputs occur |
| Login.LoginFormMonotone | htmlanalyser/htmlAnalyser.go:287-290 | once both inputs have been seen, further tokens cannot take the verdict back |
| Login.LoginFormNeedsBoth | htmlanalyser/htmlAnalyser.go:277-279 | a page with no password input, or with no submit input, has no login form |
| Accessibility.Accessible | htmlanalyser/htmlAnalyser.go:377-383 | a probe reports true exactly for a reply whose status is in the 2xx class (first digit 2); a request error reports false |
| Accessibility.ProbedAsClassified | htmlanalyser/htmlAnalyser.go:351-355 | a token the link histogram counts as internal is probed at its resolved URL, one it counts as external at its URL as written, and any other token launches no probe |
| Accessibility.ProbeTargets | htmlanalyser/htmlAnalyser.go:331-356 | the probes launched, in scan order: exactly as many as the links the histogram counts |
| Accessibility.ScanStep | htmlanalyser/htmlAnalyser.go:341-355 | one more token adds exactly its unparseable href to the count, or exactly its probe to the launched ones |
| Accessibility.ProbesPerLink | htmlanalyser/htmlAnalyser.go:341-355 | probes launched plus unparseable hrefs equal the anchors with a non-empty href |
| Accessibility.InaccessibleSplit | htmlanalyser/htmlAnalyser.go:317-370 | the count is the unparseable hrefs plus the failed probes |
| Accessibility.InaccessibleBound | htmlanalyser/htmlAnalyser.go:333-350 | the count never exceeds the number of anchors with a non-empty href |
| Accessibility.ArrivalOrderIrrelevant | htmlanalyser/htmlAnalyser.go:362-367 | receiving one verdict per probe in any order gives the same number of failures |
| Analyser.HTMLPageAnalyser.constructor | htmlanalyser/htmlAnalyser.go:69-76 | `New` stores the document and URL; every report field starts at its zero value |
| Analyser.HTMLPageAnalyser.Analyse | htmlanalyser/htmlAnalyser.go:79-122 | returns the tokenizer's error exactly when the stream ends in a failure, whatever the tokens, and then writes no field; otherwise every field equals its specification function |
| Analyser.HTMLPageAnalyser.GetHTMLDocType | htmlanalyser/htmlAnalyser.go:126-175 | the scan stops at the first doctype and leaves `HtmlVersionOf` of the tokens |
| Analyser.HTMLPageAnalyser.GetPageTitle | htmlanalyser/htmlAnalyser.go:178-200 | the scan leaves `TitleOf` of the tokens |
| Analyser.HTMLPageAnalyser.GetHeadingsCountByLevel | htmlanalyser/htmlAnalyser.go:204-223 | a fresh `HeadingsCount` whose six counters are `HeadingCount` of the tokens at each level |
| Analyser.HTMLPageAnalyser.GetLinksCount | htmlanalyser/htmlAnalyser.go:227-266 | a fresh `LinksCount` holding `InternalCount` and `ExternalCount` of the tokens |
| Analyser.HTMLPageAnalyser.HasLoginForm | htmlanalyser/htmlAnalyser.go:280-315 | the flag is `LoginFormOf` the tokens: some password input and some submit input |
| Analyser.HTMLPageAnalyser.GetCountOfInaccessibleLinks | htmlanalyser/htmlAnalyser.go:317-373 | for any arrival order of the verdicts, the count is `InaccessibleCount` of the tokens |
| Analyser.ReceiveVerdicts | htmlanalyser/htmlAnalyser.go:362-367 | receiving one verdict per launched probe adds the number of false verdicts to the count |

The model follows the code as written, including these behaviours:

- A doctype that matches none of the three cases leaves the version as the empty string.
- The title is the data of whatever token follows the first title tag, of any kind. For `<title></title>` that is the end tag's name, "title".
- Fragment-only hrefs such as `#top` are counted, resolved and probed like any other href. They parse with an empty host, so they count as internal.
- Any reply outside 2xx, and any request error, makes a link inaccessible.
- Headings are bucketed by the first two characters of the tag name, so `h2x` counts at level 2.

## Left out

- The concurrency of `Analyse` (the WaitGroup fan-out). The six scans write disjoint fields and are modelled as running one after the other.
- The goroutines and the channel in `getCountOfInaccessibleLinks`. The order in which verdicts arrive is a parameter `arrivals`. It must be a rearrangement of the verdicts of the probes launched, one each.
- The network: `http.Get` is a given function `fetch` from URL to reply or request error. A URL probed twice gets the same answer both times.
- `url.Parse` and `ResolveReference` (reference resolution, section 5.2 of RFC 3986) are given functions `parse` and `resolve`. A parsed URL keeps only its host, plus an uninspected remainder.
- The `golang.org/x/net/html` tokenizer. Its output is the input `Stream`. Tags written `<x/>` arrive as their own token kind, and the scans ignore them, as the source does with self-closing tag tokens.
- The prepass loop reads tokens that are already given here, so the model only inspects the terminal token.
- Probe time-outs: the model assumes every probe answers. `http.Get` on the default client has no time-out, so in the source a probe that never answers blocks the receive loop, and with it `Analyse`, forever.
- Logger calls.
- `Text.Lower`: Unicode lower-casing is not modelled; only 'A'..'Z' are folded. Characters stand for bytes.
- `DocType.HtmlVersionOf`: a legacy doctype whose marker is followed by fewer than five characters (a space and four version characters) makes the source index past the end of the string and panic. This is a precondition (`DoctypeSafe`) of the doctype scan, and of `Analyse` only when the stream ends cleanly, not a modelled panic.
- `Counters.LinksCount.Add` and `Counters.HeadingsCount.Add`: the counters are unbounded integers, so Go's 64-bit wrap-around is not modelled. It cannot be reached by a document that fits in memory.
- `server/server.go`, `main.go`, `config/config.go` and `public/js/App.jsx` are not part of this model: they are HTTP routing, flag parsing, configuration and the web UI.
