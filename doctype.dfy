/** The HTML version label, read from the first doctype token. The legacy
    markers are the public identifiers of section 7.2 of HTML 4.01 and of the
    XHTML 1.0 and 1.1 doctypes, lower-cased. */
module DocType {
  import opened Text
  import opened Tokens

  const NoDoctype := "Document contains no doctype element"
  const HtmlMarker := "-//w3c//dtd html"
  const XhtmlMarker := "-//w3c//dtd xhtml"

  /** `s[i]` is the first doctype token of `s`. */
  predicate FirstDoctypeAt(s: seq<Token>, i: int) {
    0 <= i < |s| && s[i].Doctype? && forall j | 0 <= j < i :: !s[j].Doctype?
  }

  /** The payload of the first doctype token, if any. */
  function FirstDoctype(s: seq<Token>): (r: Option<string>)
    ensures r.None? <==> forall i | 0 <= i < |s| :: !s[i].Doctype?
    ensures forall i | FirstDoctypeAt(s, i) :: r == Some(s[i].data)
  {
    if s == [] then None
    else if s[0].Doctype? then Some(s[0].data)
    else
      var r := FirstDoctype(s[1..]);
      assert forall i | 1 <= i < |s| :: s[1..][i - 1] == s[i];
      forall i | FirstDoctypeAt(s, i) ensures r == Some(s[i].data) {
        assert FirstDoctypeAt(s[1..], i - 1) by {
          assert forall j | 0 <= j < i :: s[1..][j] == s[j + 1];
        }
      }
      r
  }

  /** Where the version text after `marker` starts: just past the marker and one space. */
  function VersionStart(v: string, marker: string): int {
    IndexOf(v, marker) + |marker + " "|
  }

  /** The source reads the character three past the version start, which
      is one space past the marker, so a marker must be followed by at least
      five more characters (a space and four version characters). */
  predicate VersionInRange(v: string, marker: string) {
    Contains(v, marker) ==> VersionStart(v, marker) + 3 < |v|
  }

  /** The lower-cased payloads the classification handles without reading past their end. */
  predicate Classifiable(v: string) {
    v == "html" || (VersionInRange(v, HtmlMarker) && (Contains(v, HtmlMarker) || VersionInRange(v, XhtmlMarker)))
  }

  /** Three characters of version ("3.2", "1.0") or four when the fourth is a
      digit ("4.01"), right after the marker. */
  function VersionAfter(v: string, marker: string): (r: string)
    requires Contains(v, marker) && VersionInRange(v, marker)
    ensures |r| == 3 || |r| == 4
    ensures |r| == 4 <==> IsDigit(v[VersionStart(v, marker) + 3])
    ensures HasPrefix(v[VersionStart(v, marker)..], r)
  {
    var start := VersionStart(v, marker);
    var stop := if IsDigit(v[start + 3]) then start + 4 else start + 3;
    v[start..stop]
  }

  /** The label for a lower-cased doctype payload; "" when no case matches. */
  function Label(v: string): (r: string)
    requires Classifiable(v)
    ensures v == "html" ==> r == "HTML 5.0"
    ensures v != "html" && Contains(v, HtmlMarker) ==> r == "HTML " + VersionAfter(v, HtmlMarker)
    ensures v != "html" && !Contains(v, HtmlMarker) && Contains(v, XhtmlMarker) ==> r == "XHTML " + VersionAfter(v, XhtmlMarker)
    ensures r == "" <==> v != "html" && !Contains(v, HtmlMarker) && !Contains(v, XhtmlMarker)
  {
    if v == "html" then "HTML 5.0"
    else if Contains(v, HtmlMarker) then "HTML " + VersionAfter(v, HtmlMarker)
    else if Contains(v, XhtmlMarker) then "XHTML " + VersionAfter(v, XhtmlMarker)
    else ""
  }

  /** The switch in the doctype scan: the version text sits one space past
      the marker's first occurrence. */
  method ClassifyDoctype(v: string) returns (version: string)
    requires Classifiable(v)
    ensures version == Label(v)
  {
    version := "";
    if v == "html" {
      version := "HTML 5.0";
    } else if Contains(v, HtmlMarker) {
      var start := IndexOf(v, HtmlMarker) + |HtmlMarker + " "|;
      var stop := if IsDigit(v[start + 3]) then start + 4 else start + 3;
      version := "HTML " + v[start..stop];
    } else if Contains(v, XhtmlMarker) {
      var start := IndexOf(v, XhtmlMarker) + |XhtmlMarker + " "|;
      var stop := if IsDigit(v[start + 3]) then start + 4 else start + 3;
      version := "XHTML " + v[start..stop];
    }
  }

  /** The first doctype, if there is one, can be classified without reading past its end. */
  predicate DoctypeSafe(s: seq<Token>) {
    FirstDoctype(s).Some? ==> Classifiable(Lower(FirstDoctype(s).value))
  }

  /** The `HTMLVersion` field of the report. */
  function HtmlVersionOf(s: seq<Token>): string
    requires DoctypeSafe(s)
  {
    match FirstDoctype(s)
    case None => NoDoctype
    case Some(d) => Label(Lower(d))
  }

  /** The report names no doctype exactly when the stream holds none: no
      label the classification produces is the sentinel. */
  lemma NoDoctypeIff(s: seq<Token>)
    requires DoctypeSafe(s)
    ensures HtmlVersionOf(s) == NoDoctype <==> forall i | 0 <= i < |s| :: !s[i].Doctype?
  {
    if FirstDoctype(s).Some? {
      var r := Label(Lower(FirstDoctype(s).value));
      assert NoDoctype[0] == 'D';
      if r != "" {
        assert r[0] == 'H' || r[0] == 'X';
      }
    }
  }

  /** Only the first doctype counts: whatever follows it is never read. */
  lemma {:induction false} LaterDoctypesIgnored(a: seq<Token>, b: seq<Token>, i: nat)
    requires FirstDoctypeAt(a, i)
    ensures FirstDoctype(a + b) == FirstDoctype(a)
    ensures DoctypeSafe(a) ==> DoctypeSafe(a + b) && HtmlVersionOf(a + b) == HtmlVersionOf(a)
  {
    assert FirstDoctypeAt(a + b, i) by {
      assert forall j | 0 <= j <= i :: (a + b)[j] == a[j];
    }
  }

  /** A public identifier that starts with the XHTML marker takes the HTML
      branch, which is tried first, only if the HTML marker occurs further on. */
  lemma XhtmlIdIsNotHtml(t: string)
    requires !Contains(t, HtmlMarker)
    ensures !Contains(XhtmlMarker + t, HtmlMarker)
  {
    assert (XhtmlMarker + t)[..|HtmlMarker|][12] == 'x';
    assert XhtmlMarker + t == ['-'] + (XhtmlMarker[1..] + t);
    IndexOfAfter(XhtmlMarker[1..], t, HtmlMarker);
    NotContainsPastFirst('-', XhtmlMarker[1..] + t, HtmlMarker);
  }

  /** For a marker that is preceded by no '-' and followed by at least five
      characters, the version is read from just past the marker and one
      space: three characters, or four when the fourth is a digit. */
  lemma VersionAfterMarker(p: string, marker: string, tail: string)
    requires marker == HtmlMarker || marker == XhtmlMarker
    requires '-' !in p && |tail| >= 5
    ensures Contains(p + (marker + tail), marker) && VersionInRange(p + (marker + tail), marker)
    ensures VersionAfter(p + (marker + tail), marker) == tail[1..if IsDigit(tail[4]) then 5 else 4]
  {
    var rest := marker + tail;
    var v := p + rest;
    assert rest[..|marker|] == marker;
    IndexOfAfter(p, rest, marker);
    var start := |p| + |marker| + 1;
    assert VersionStart(v, marker) == start;
    assert v[start + 3] == tail[4];
    var stop := if IsDigit(tail[4]) then start + 4 else start + 3;
    assert v[start..stop] == tail[1..stop - |p| - |marker|];
  }

  /** A payload with no '-' before its marker, then one space and a version
      that the source reads whole (four characters ending in a digit, or three
      followed by a non-digit), gets the marker's label and that version. For
      the XHTML marker the HTML marker must not occur after it. */
  lemma LabelAfterMarker(p: string, marker: string, ver: string, rest: string)
    requires marker == HtmlMarker || (marker == XhtmlMarker && !Contains(" " + (ver + rest), HtmlMarker))
    requires '-' !in p
    requires (|ver| == 4 && IsDigit(ver[3])) || (|ver| == 3 && |rest| > 0 && !IsDigit(rest[0]))
    ensures Classifiable(p + (marker + (" " + (ver + rest))))
    ensures Label(p + (marker + (" " + (ver + rest))))
         == (if marker == HtmlMarker then "HTML " else "XHTML ") + ver
  {
    var tail := " " + (ver + rest);
    var v := p + (marker + tail);
    VersionAfterMarker(p, marker, tail);
    assert tail[1..] == ver + rest;
    assert tail[4] == (ver + rest)[3];
    assert tail[1..|ver| + 1] == ver by {
      assert tail[1..|ver| + 1] == (ver + rest)[..|ver|];
    }
    assert |v| > 4;
    if marker == XhtmlMarker {
      XhtmlIdIsNotHtml(tail);
      IndexOfAfter(p, XhtmlMarker + tail, HtmlMarker);
    }
  }

  /** `"-//W3C//DTD HTML 4.01//EN"` (lower-cased): four version characters. */
  lemma LabelHtml401(p: string, rest: string)
    requires '-' !in p
    ensures Classifiable(p + (HtmlMarker + (" " + ("4.01" + rest))))
    ensures Label(p + (HtmlMarker + (" " + ("4.01" + rest)))) == "HTML 4.01"
  {
    LabelAfterMarker(p, HtmlMarker, "4.01", rest);
    assert "HTML " + "4.01" == "HTML 4.01";
  }

  /** `"-//W3C//DTD HTML 3.2 Final//EN"` (lower-cased): the character after
      "3.2" is not a digit, so three version characters are read. */
  lemma LabelHtml32(p: string, rest: string)
    requires '-' !in p && HasPrefix(rest, " final//")
    ensures Classifiable(p + (HtmlMarker + (" " + ("3.2" + rest))))
    ensures Label(p + (HtmlMarker + (" " + ("3.2" + rest)))) == "HTML 3.2"
  {
    HasPrefixAt(rest, " final//", 0);
    LabelAfterMarker(p, HtmlMarker, "3.2", rest);
    assert "HTML " + "3.2" == "HTML 3.2";
  }

  /** The whole lower-cased payload of an XHTML 1.0 Strict doctype, system
      identifier included: the '-' in "xhtml1-strict.dtd" does not start the
      HTML marker, so the HTML branch, tried first, does not match. */
  lemma LabelXhtml10(p: string, public: string, system: string)
    requires '-' !in p
    requires public == " strict//en\" \"" + "http://www.w3." + "org/tr/xhtml1/" + "dtd/xhtml1"
    requires system == "-strict.dtd\""
    ensures Classifiable(p + (XhtmlMarker + (" " + ("1.0" + (public + system)))))
    ensures Label(p + (XhtmlMarker + (" " + ("1.0" + (public + system))))) == "XHTML 1.0"
  {
    var q := " " + ("1.0" + public);
    assert " " + ("1.0" + (public + system)) == q + system;
    assert !Contains(system, HtmlMarker) by {
      assert |system| < |HtmlMarker|;
    }
    assert HtmlMarker[0] !in q by {
      assert HtmlMarker[0] == '-';
      assert '-' !in public;
      assert '-' !in " " && '-' !in "1.0";
    }
    IndexOfAfter(q, system, HtmlMarker);
    assert (public + system)[0] == public[0] == ' ';
    LabelAfterMarker(p, XhtmlMarker, "1.0", public + system);
    assert "XHTML " + "1.0" == "XHTML 1.0";
  }

  /** The payload the tokenizer gives for `<!DOCTYPE HTML PUBLIC "-//W3C//DTD HTML 4.01//EN">`
      is labelled "HTML 4.01", whatever its letter case. */
  lemma DoctypeHtml401(pre: string, id: string, rest: string)
    requires pre == "HTML PUBLIC \"" && id == "-//W3C//DTD HTML" && rest == "//EN\""
    ensures DoctypeSafe([Doctype(pre + (id + (" " + ("4.01" + rest))))])
    ensures HtmlVersionOf([Doctype(pre + (id + (" " + ("4.01" + rest))))]) == "HTML 4.01"
  {
    assert FirstDoctypeAt([Doctype(pre + (id + (" " + ("4.01" + rest))))], 0);
    LowerAppend(pre, id + (" " + ("4.01" + rest)));
    LowerAppend(id, " " + ("4.01" + rest));
    LowerAppend(" ", "4.01" + rest);
    LowerAppend("4.01", rest);
    assert Lower(id) == HtmlMarker;
    assert Lower(" ") == " " && Lower("4.01") == "4.01";
    assert Lower(pre) == "html public \"";
    LabelHtml401(Lower(pre), Lower(rest));
  }

  /** A doctype whose payload lower-cases to "html" (`<!DOCTYPE html>` in any
      letter case) gives "HTML 5.0" whatever comes before it, as long as it is
      the first doctype, and whatever comes after it; the stream cut before
      it has no doctype. */
  lemma DoctypeHtml5(pre: seq<Token>, d: string, rest: seq<Token>)
    requires forall i | 0 <= i < |pre| :: !pre[i].Doctype?
    requires Lower(d) == "html"
    ensures DoctypeSafe(pre + [Doctype(d)] + rest)
    ensures HtmlVersionOf(pre + [Doctype(d)] + rest) == "HTML 5.0"
    ensures DoctypeSafe(pre) && HtmlVersionOf(pre) == NoDoctype
  {
    var s := pre + [Doctype(d)] + rest;
    assert FirstDoctypeAt(s, |pre|) by {
      assert forall j | 0 <= j < |pre| :: s[j] == pre[j];
      assert s[|pre|] == Doctype(d);
    }
  }
}
