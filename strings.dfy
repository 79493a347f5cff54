/**
 * The few JavaScript string operations the core relies on: `indexOf`,
 * `includes`, `String.prototype.replace` with a string pattern (first match
 * only, with the `$`-patterns of the replacement expanded) and truthiness of a
 * nullable string.
 */
module Strings {
  import opened Wrappers

  /** JavaScript truthiness of a `string | null`: null and "" are falsy. */
  predicate Truthy(s: Option<string>) {
    s.Some? && s.value != ""
  }

  /** `p` occurs in `s` starting at index `i`. */
  predicate OccursAt(s: string, p: string, i: int) {
    0 <= i && i + |p| <= |s| && s[i..i + |p|] == p
  }

  /** `s.indexOf(p)`: the first index at which `p` occurs, or -1. */
  function IndexOf(s: string, p: string): (r: int)
    ensures r == -1 || 0 <= r
    ensures 0 <= r ==> OccursAt(s, p, r)
    ensures 0 <= r ==> forall i :: 0 <= i < r ==> !OccursAt(s, p, i)
    ensures r == -1 ==> forall i :: !OccursAt(s, p, i)
    decreases |s|
  {
    if |s| < |p| then -1
    else if s[..|p|] == p then 0
    else
      var r := IndexOf(s[1..], p);
      assert forall i :: 1 <= i ==> (OccursAt(s, p, i) <==> OccursAt(s[1..], p, i - 1));
      if r == -1 then -1 else r + 1
  }

  /** `s.includes(p)`. */
  predicate Includes(s: string, p: string) {
    IndexOf(s, p) >= 0
  }

  /**
   * GetSubstitution of ECMAScript for a string pattern (no capture groups):
   * `$$` gives `$`, `$&` the matched text, `` $` `` the text before the match,
   * `$'` the text after it; any other `$` stays as it is.
   */
  function Substitution(matched: string, str: string, position: nat, replacement: string): (r: string)
    requires position + |matched| <= |str|
    ensures '$' !in replacement ==> r == replacement
    decreases |replacement|
  {
    if replacement == [] then []
    else if replacement[0] == '$' && |replacement| >= 2 && replacement[1] in "$&`'" then
      var c := replacement[1];
      var expansion :=
        if c == '$' then "$"
        else if c == '&' then matched
        else if c == '`' then str[..position]
        else str[position + |matched|..];
      expansion + Substitution(matched, str, position, replacement[2..])
    else
      [replacement[0]] + Substitution(matched, str, position, replacement[1..])
  }

  /** `s.replace(p, replacement)` for a string `p`: only the first occurrence is replaced. */
  function Replace(s: string, p: string, replacement: string): (r: string)
    ensures (forall i :: !OccursAt(s, p, i)) ==> r == s
    ensures forall i ::
              (OccursAt(s, p, i) && (forall j :: 0 <= j < i ==> !OccursAt(s, p, j)) && '$' !in replacement)
              ==> r == s[..i] + replacement + s[i + |p|..]
  {
    var i := IndexOf(s, p);
    if i < 0 then s
    else s[..i] + Substitution(p, s, i, replacement) + s[i + |p|..]
  }

  /** `"abc".replace("b", r)` replaces the `b` at index 1 by the substitution `r` stands for. */
  lemma ReplaceInAbc(r: string)
    ensures Replace("abc", "b", r) == "a" + Substitution("b", "abc", 1, r) + "c"
  {
    assert IndexOf("abc", "b") == 1 by {
      assert "abc"[..1] == "a";
      assert "abc"[1..] == "bc" && "bc"[..1] == "b";
    }
    assert "abc"[..1] == "a" && "abc"[2..] == "c";
  }

  /** `$&` stands for the matched text. */
  lemma ReplaceMatched()
    ensures Replace("abc", "b", "$&$&") == "abbc"
  {
    ReplaceInAbc("$&$&");
    SubstitutionMatched("b", "abc", 1);
  }

  /** `` $` `` stands for the text before the match. */
  lemma ReplaceBefore()
    ensures Replace("abc", "b", "$`") == "aac"
  {
    ReplaceInAbc("$`");
    SubstitutionBefore("b", "abc", 1);
    assert "abc"[..1] == "a";
  }

  /** `$'` stands for the text after the match. */
  lemma ReplaceAfter()
    ensures Replace("abc", "b", "$'") == "acc"
  {
    ReplaceInAbc("$'");
    SubstitutionAfter("b", "abc", 1);
    assert "abc"[2..] == "c";
  }

  /** `$$` stands for one `$`; a `$` before any other character, or at the end, stays as it is. */
  lemma ReplaceDollar()
    ensures Replace("abc", "b", "$$x$") == "a$x$c"
    ensures Replace("abc", "b", "$1") == "a$1c"
  {
    ReplaceInAbc("$$x$");
    SubstitutionDollar("b", "abc", 1);
    ReplaceInAbc("$1");
    SubstitutionOther("b", "abc", 1);
  }

  /** `$&$&` gives the match twice, wherever it is. */
  lemma SubstitutionMatched(matched: string, str: string, position: nat)
    requires position + |matched| <= |str|
    ensures Substitution(matched, str, position, "$&$&") == matched + matched
  {
    var r := "$&$&";
    assert r[0] == '$' && r[1] in "$&`'" && r[1] != '$' && r[1] == '&' && r[2..] == "$&";
    var r' := "$&";
    assert r'[0] == '$' && r'[1] in "$&`'" && r'[1] != '$' && r'[1] == '&' && r'[2..] == [];
  }

  /** `` $` `` alone gives the text before the match. */
  lemma SubstitutionBefore(matched: string, str: string, position: nat)
    requires position + |matched| <= |str|
    ensures Substitution(matched, str, position, "$`") == str[..position]
  {
    var r := "$`";
    assert r[0] == '$' && r[1] in "$&`'" && r[1] != '$' && r[1] != '&' && r[1] == '`' && r[2..] == [];
  }

  /** `$'` alone gives the text after the match. */
  lemma SubstitutionAfter(matched: string, str: string, position: nat)
    requires position + |matched| <= |str|
    ensures Substitution(matched, str, position, "$'") == str[position + |matched|..]
  {
    var r := "$'";
    assert r[0] == '$' && r[1] in "$&`'" && r[1] != '$' && r[1] != '&' && r[1] != '`' && r[2..] == [];
  }

  /** `$$x$` gives `$x$`: the pair is one `$`, and the last `$` has nothing after it. */
  lemma SubstitutionDollar(matched: string, str: string, position: nat)
    requires position + |matched| <= |str|
    ensures Substitution(matched, str, position, "$$x$") == "$x$"
  {
    var r := "$$x$";
    assert r[0] == '$' && r[1] in "$&`'" && r[1] == '$' && r[2..] == "x$";
    assert "x$"[0] != '$' && "x$"[1..] == "$";
    assert "$"[0] == '$' && |"$"| < 2 && "$"[1..] == [];
  }

  /** `$1` stays `$1`: there are no capture groups to refer to. */
  lemma SubstitutionOther(matched: string, str: string, position: nat)
    requires position + |matched| <= |str|
    ensures Substitution(matched, str, position, "$1") == "$1"
  {
    var r := "$1";
    assert r[0] == '$' && r[1] !in "$&`'" && r[1..] == "1";
    assert "1"[0] != '$' && "1"[1..] == [];
  }

  /** Replacing the first occurrence of `p` in `a + p + b`, when it is the `p` right after `a`. */
  lemma ReplaceBetween(a: string, p: string, b: string, r: string)
    requires forall i :: 0 <= i < |a| ==> !OccursAt(a + p + b, p, i)
    requires '$' !in r
    ensures Replace(a + p + b, p, r) == a + r + b
  {
    var s := a + p + b;
    assert s[..|a|] == a && s[|a|..|a| + |p|] == p && s[|a| + |p|..] == b;
    assert OccursAt(s, p, |a|);
  }

  /** A one-character pattern occurs exactly where that character is. */
  lemma CharOccurs(s: string, c: char)
    ensures forall i :: OccursAt(s, [c], i) <==> 0 <= i < |s| && s[i] == c
  {
    forall i | 0 <= i < |s| ensures s[i..i + 1] == [c] <==> s[i] == c { }
  }
}
