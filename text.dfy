/** The handful of Go `strings`/`strconv` operations the analyser relies on,
    over ASCII text (`string` is `seq<char>`; bytes and characters coincide). */
module Text {

  /** `strings.ToLower` restricted to ASCII: 'A'..'Z' map to 'a'..'z'. */
  function LowerChar(c: char): char {
    if 'A' <= c <= 'Z' then (c as int - 'A' as int + 'a' as int) as char else c
  }

  function Lower(s: string): string {
    seq(|s|, i requires 0 <= i < |s| => LowerChar(s[i]))
  }

  lemma LowerAppend(a: string, b: string)
    ensures Lower(a + b) == Lower(a) + Lower(b)
  {
  }

  /** `strconv.Atoi` on a one-character string succeeds exactly on an ASCII digit. */
  predicate IsDigit(c: char) {
    '0' <= c <= '9'
  }

  /** `strings.HasPrefix`. */
  predicate HasPrefix(s: string, prefix: string) {
    |prefix| <= |s| && s[..|prefix|] == prefix
  }

  /** `sub` occurs in `s` starting at position `k`. */
  predicate OccursAt(s: string, sub: string, k: int) {
    0 <= k && k + |sub| <= |s| && s[k..k + |sub|] == sub
  }

  lemma OccursAtTail(s: string, sub: string, k: nat)
    requires s != []
    ensures OccursAt(s[1..], sub, k) <==> OccursAt(s, sub, k + 1)
  {
    if k + |sub| <= |s[1..]| {
      assert s[1..][k..k + |sub|] == s[k + 1..k + 1 + |sub|];
    }
  }

  /** `strings.Index`: the position of the first occurrence of `sub` in `s`, or -1. */
  function IndexOf(s: string, sub: string): (r: int)
    ensures -1 <= r <= |s|
    ensures r >= 0 ==> OccursAt(s, sub, r)
    ensures forall k | 0 <= k && (r < 0 || k < r) :: !OccursAt(s, sub, k)
    decreases |s|
  {
    if OccursAt(s, sub, 0) then 0
    else if s == [] then -1
    else
      var r' := IndexOf(s[1..], sub);
      forall k | 1 <= k ensures OccursAt(s, sub, k) <==> OccursAt(s[1..], sub, k - 1) {
        OccursAtTail(s, sub, k - 1);
      }
      if r' < 0 then -1 else r' + 1
  }

  /** `strings.Contains`, which Go defines as `Index(s, sub) >= 0`. */
  predicate Contains(s: string, sub: string) {
    IndexOf(s, sub) >= 0
  }

  /** Contains holds exactly when some position holds an occurrence. */
  lemma ContainsIff(s: string, sub: string)
    ensures Contains(s, sub) <==> exists k :: OccursAt(s, sub, k)
  {
    if Contains(s, sub) {
      assert OccursAt(s, sub, IndexOf(s, sub));
    }
  }

  /** When the first character of `sub` does not occur in `p`, searching
      `p + rest` finds the first occurrence in `rest`, shifted by `|p|`. */
  lemma {:induction false} IndexOfAfter(p: string, rest: string, sub: string)
    requires sub != [] && sub[0] !in p
    ensures IndexOf(p + rest, sub) == if IndexOf(rest, sub) < 0 then -1 else |p| + IndexOf(rest, sub)
    decreases |p|
  {
    var v := p + rest;
    if p == [] {
      assert v == rest;
    } else {
      assert v[1..] == p[1..] + rest;
      if |sub| <= |v| {
        assert v[..|sub|][0] == p[0];
      }
      assert !OccursAt(v, sub, 0);
      IndexOfAfter(p[1..], rest, sub);
    }
  }

  /** A string that does not start with `sub`, and whose tail after its first
      character does not contain `sub`, does not contain `sub`. */
  lemma NotContainsPastFirst(c: char, t: string, sub: string)
    requires !OccursAt([c] + t, sub, 0) && !Contains(t, sub)
    ensures !Contains([c] + t, sub)
  {
    assert ([c] + t)[1..] == t;
  }

  /** A string with a prefix agrees with it character by character. */
  lemma HasPrefixAt(s: string, prefix: string, i: nat)
    requires HasPrefix(s, prefix) && i < |prefix|
    ensures s[i] == prefix[i]
  {
    assert s[..|prefix|][i] == s[i];
  }
}
