/** The page title: the token right after the first title start tag. */
module Title {
  import opened Text
  import opened Tokens

  const NoTitle := "Document contains no title element"

  /** A start tag whose name has the prefix "title". */
  predicate IsTitleTag(t: Token) {
    t.StartTag? && HasPrefix(t.name, "title")
  }

  /** `s[i]` is the first title tag of `s`. */
  predicate FirstTitleAt(s: seq<Token>, i: int) {
    0 <= i < |s| && IsTitleTag(s[i]) && forall j | 0 <= j < i :: !IsTitleTag(s[j])
  }

  /** The data of the token after the first title tag ("" when that tag is the
      last token: the scan then reads the end-of-input token, whose data is
      empty), or the sentinel when there is no title tag at all. */
  function TitleOf(s: seq<Token>): (r: string)
    ensures (forall i | 0 <= i < |s| :: !IsTitleTag(s[i])) ==> r == NoTitle
    ensures forall i | FirstTitleAt(s, i) :: r == (if i + 1 < |s| then Data(s[i + 1]) else "")
  {
    if s == [] then NoTitle
    else if IsTitleTag(s[0]) then (if 1 < |s| then Data(s[1]) else "")
    else
      var r := TitleOf(s[1..]);
      forall i | FirstTitleAt(s, i) ensures r == (if i + 1 < |s| then Data(s[i + 1]) else "") {
        assert FirstTitleAt(s[1..], i - 1) by {
          assert forall j | 0 <= j < i :: s[1..][j] == s[j + 1];
        }
        if i + 1 < |s| {
          assert s[1..][i] == s[i + 1];
        }
      }
      r
  }

  /** Title tags after the first one, and whatever follows, do not change the title. */
  lemma {:induction false} TitleIgnoresLater(a: seq<Token>, b: seq<Token>, i: nat)
    requires i + 1 < |a| && IsTitleTag(a[i])
    ensures TitleOf(a + b) == TitleOf(a)
  {
    if !IsTitleTag(a[0]) {
      assert (a + b)[1..] == a[1..] + b;
      TitleIgnoresLater(a[1..], b, i - 1);
    }
  }
}
