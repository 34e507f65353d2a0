/** The login-form heuristic: some input is a password field and some input
    is a submit button, anywhere in the document. */
module Login {
  import opened Text
  import opened Tokens

  /** The first `type` of a start tag whose name begins with "input"; "" otherwise. */
  function InputType(t: Token): string {
    if t.StartTag? && HasPrefix(t.name, "input") then AttrVal(t.attrs, "type") else ""
  }

  predicate Seen(s: seq<Token>, ty: string) {
    exists i | 0 <= i < |s| :: InputType(s[i]) == ty
  }

  predicate LoginFormOf(s: seq<Token>) {
    Seen(s, "password") && Seen(s, "submit")
  }

  /** Reading one more token adds that token's input type to what has been seen. */
  lemma SeenStep(s: seq<Token>, i: nat, ty: string)
    requires i < |s|
    ensures Seen(s[..i + 1], ty) <==> Seen(s[..i], ty) || InputType(s[i]) == ty
  {
    if Seen(s[..i + 1], ty) && InputType(s[i]) != ty {
      var k :| 0 <= k < i + 1 && InputType(s[..i + 1][k]) == ty;
      assert s[..i][k] == s[k];
    }
    if Seen(s[..i], ty) {
      var k :| 0 <= k < i && InputType(s[..i][k]) == ty;
      assert s[..i + 1][k] == s[k];
    }
    if InputType(s[i]) == ty {
      assert s[..i + 1][i] == s[i];
    }
  }

  /** Where in the document, and in which order, the two inputs occur does not matter. */
  lemma LoginFormPermutation(a: seq<Token>, b: seq<Token>)
    requires multiset(a) == multiset(b)
    ensures LoginFormOf(a) == LoginFormOf(b)
  {
    forall ty, x: seq<Token>, y: seq<Token> | multiset(x) == multiset(y) && Seen(x, ty)
      ensures Seen(y, ty)
    {
      var i :| 0 <= i < |x| && InputType(x[i]) == ty;
      assert x[i] in multiset(y);
      var j :| 0 <= j < |y| && y[j] == x[i];
    }
  }

  /** Once both inputs have been seen, more tokens cannot take the verdict back. */
  lemma LoginFormMonotone(a: seq<Token>, b: seq<Token>)
    requires LoginFormOf(a)
    ensures LoginFormOf(a + b)
  {
    var i :| 0 <= i < |a| && InputType(a[i]) == "password";
    var j :| 0 <= j < |a| && InputType(a[j]) == "submit";
    assert (a + b)[i] == a[i] && (a + b)[j] == a[j];
  }

  /** A password field on its own, or a submit button on its own, is not a login form. */
  lemma LoginFormNeedsBoth(s: seq<Token>)
    requires (forall i | 0 <= i < |s| :: InputType(s[i]) != "password")
          || (forall i | 0 <= i < |s| :: InputType(s[i]) != "submit")
    ensures !LoginFormOf(s)
  {
  }
}
