/** March's string builtins as the modelled sources use them. A March string is indexed by
    bytes; here it is a sequence of characters, each standing for one byte. */
module Strings {
  import opened Options

  /** `string_replace_all` for a one-character pattern. */
  function ReplaceAll(s: string, c: char, put: string): string {
    if s == "" then "" else (if s[0] == c then put else [s[0]]) + ReplaceAll(s[1..], c, put)
  }

  /** `string_index_of`: where `pat` first occurs. */
  function IndexOf(s: string, pat: string): Option<nat> {
    if pat <= s then Some(0)
    else if s == "" then None
    else
      match IndexOf(s[1..], pat)
      case Some(i) => Some(i + 1)
      case None => None
  }

  lemma {:induction false} ReplaceNone(s: string, c: char, put: string)
    requires c !in s
    ensures ReplaceAll(s, c, put) == s
  {
    if s != "" { ReplaceNone(s[1..], c, put); }
  }

  lemma Assoc(a: string, b: string, c: string)
    ensures (a + b) + c == a + (b + c)
  {
  }

  lemma {:induction false} ReplaceConcat(a: string, b: string, c: char, put: string)
    ensures ReplaceAll(a + b, c, put) == ReplaceAll(a, c, put) + ReplaceAll(b, c, put)
  {
    if a == "" {
      assert a + b == b;
    } else {
      assert (a + b)[0] == a[0] && (a + b)[1..] == a[1..] + b;
      ReplaceConcat(a[1..], b, c, put);
      var x := if a[0] == c then put else [a[0]];
      Assoc(x, ReplaceAll(a[1..], c, put), ReplaceAll(b, c, put));
    }
  }

  /** A search goes past text that does not hold the pattern's first character. */
  lemma {:induction false} IndexPast(a: string, t: string, pat: string)
    requires pat != "" && pat[0] !in a
    ensures IndexOf(a + t, pat) == if IndexOf(t, pat).Some? then Some(|a| + IndexOf(t, pat).value) else None
  {
    if a == "" {
      assert a + t == t;
    } else {
      assert (a + t)[0] == a[0];
      assert (a + t)[1..] == a[1..] + t;
      IndexPast(a[1..], t, pat);
    }
  }

  ghost predicate OccursAt(s: string, pat: string, i: nat) {
    i + |pat| <= |s| && s[i..i + |pat|] == pat
  }

  /** `IndexOf` is the first place where the pattern occurs. */
  lemma {:induction false} IndexFirst(s: string, pat: string)
    ensures match IndexOf(s, pat)
            case Some(i) => OccursAt(s, pat, i) && forall j: nat :: j < i ==> !OccursAt(s, pat, j)
            case None => forall j: nat :: !OccursAt(s, pat, j)
  {
    if pat <= s {
      assert s[0..|pat|] == pat;
    } else if s == "" {
    } else {
      IndexFirst(s[1..], pat);
      hide OccursAt;
      NotAtHead(s, pat);
      forall j: nat | j > 0 ensures OccursAt(s, pat, j) <==> OccursAt(s[1..], pat, j - 1) { OneOn(s, pat, j); }
    }
  }

  lemma NotAtHead(s: string, pat: string)
    requires !(pat <= s)
    ensures !OccursAt(s, pat, 0)
  {
  }

  lemma OneOn(s: string, pat: string, j: nat)
    requires s != "" && j > 0
    ensures OccursAt(s, pat, j) <==> OccursAt(s[1..], pat, j - 1)
  {
    if j + |pat| <= |s| { assert s[j..j + |pat|] == s[1..][j - 1..j - 1 + |pat|]; }
  }
}
