/**
 * Instruction patterns. A template's instruction is text with `${name}`
 * placeholders; the model keeps it as the sequence of its pieces (literal text
 * and placeholders), and `Join` gives back the flat string. This module
 * characterises where a placeholder occurs in that string and what replacing
 * its first occurrence does, which is all the prompt compiler relies on.
 */
module Patterns {
  import opened Strings

  /** Literal text of a pattern never holds `$`, so every `$` in a pattern opens a placeholder. */
  type TextChar = c: char | c != '$'
  type Text = seq<TextChar>

  /** A placeholder name holds neither `$` nor the closing brace. */
  type NameChar = c: char | c != '$' && c != '}'
  type Name = seq<NameChar>

  datatype Piece = Lit(text: Text) | Hole(key: Name)

  /** The text `${key}`. */
  function Placeholder(key: string): string {
    "${" + key + "}"
  }

  /** `${key}` opens with `${`, closes with `}` and holds `key` in between. */
  lemma PlaceholderShape(key: string)
    ensures var p := Placeholder(key);
      |p| == |key| + 3 && p[0] == '$' && p[1] == '{' && p[|p| - 1] == '}' && p[2..|p| - 1] == key
  {
  }

  function Show(p: Piece): string {
    match p
    case Lit(t) => t
    case Hole(k) => Placeholder(k)
  }

  /** The flat string a sequence of pieces spells. */
  function Join(ps: seq<Piece>): string {
    if ps == [] then "" else Show(ps[0]) + Join(ps[1..])
  }

  /** Where piece `j` starts in `Join(ps)`. */
  function Offset(ps: seq<Piece>, j: nat): nat
    requires j <= |ps|
  {
    |Join(ps[..j])|
  }

  /** No placeholder name is used twice. */
  predicate HolesDistinct(ps: seq<Piece>) {
    forall i, j :: 0 <= i < j < |ps| && ps[i].Hole? && ps[j].Hole? ==> ps[i].key != ps[j].key
  }

  /** The placeholder names of a pattern, in order of appearance. */
  function HoleKeys(ps: seq<Piece>): (ks: seq<Name>)
    ensures forall k: Name :: k in ks <==> Hole(k) in ps
  {
    if ps == [] then []
    else
      assert ps == [ps[0]] + ps[1..];
      (if ps[0].Hole? then [ps[0].key] else []) + HoleKeys(ps[1..])
  }

  lemma Concat4(a: string, b: string, c: string, d: string)
    ensures a + (b + c + d) == a + b + c + d
  {
  }

  /** `Join(ps)` is the text before piece `j`, piece `j`, and the text after it. */
  lemma {:induction false} JoinAt(ps: seq<Piece>, j: nat)
    requires j < |ps|
    ensures Join(ps) == Join(ps[..j]) + Show(ps[j]) + Join(ps[j + 1..])
  {
    if j == 0 {
      assert ps[..0] == [] && ps[1..] == ps[j + 1..];
    } else {
      var tail := ps[1..];
      JoinAt(tail, j - 1);
      assert tail[j..] == ps[j + 1..] && tail[j - 1] == ps[j];
      assert Join(ps[..j]) == Show(ps[0]) + Join(tail[..j - 1]) by {
        assert ps[..j][0] == ps[0] && ps[..j][1..] == tail[..j - 1];
      }
      var a, b, c, d := Show(ps[0]), Join(tail[..j - 1]), Show(ps[j]), Join(ps[j + 1..]);
      calc {
        Join(ps);
        a + Join(tail);
        a + (b + c + d);
        { Concat4(a, b, c, d); }
        a + b + c + d;
      }
    }
  }

  /** Every placeholder of the pattern occurs in its text, at the piece's offset. */
  lemma HoleOccurs(ps: seq<Piece>, j: nat)
    requires j < |ps| && ps[j].Hole?
    ensures OccursAt(Join(ps), Placeholder(ps[j].key), Offset(ps, j))
  {
    JoinAt(ps, j);
  }

  /** Joining a non-empty pattern: its first piece, then the rest. */
  lemma JoinCons(ps: seq<Piece>, j: nat)
    requires 0 < j <= |ps|
    ensures Join(ps[..j]) == Show(ps[0]) + Join(ps[1..][..j - 1])
  {
    assert ps[..j][0] == ps[0] && ps[..j][1..] == ps[1..][..j - 1];
  }

  /** Every `$` in a pattern's text is the start of a placeholder. */
  lemma {:induction false} DollarStartsHole(ps: seq<Piece>, i: nat)
    requires i < |Join(ps)| && Join(ps)[i] == '$'
    ensures exists j :: 0 <= j < |ps| && ps[j].Hole? && Offset(ps, j) == i
  {
    var h, rest := Show(ps[0]), Join(ps[1..]);
    assert Join(ps) == h + rest;
    if i >= |h| {
      assert rest[i - |h|] == '$';
      DollarStartsHole(ps[1..], i - |h|);
      var j' :| 0 <= j' < |ps[1..]| && ps[1..][j'].Hole? && Offset(ps[1..], j') == i - |h|;
      JoinCons(ps, j' + 1);
      assert ps[j' + 1].Hole? && Offset(ps, j' + 1) == i;
    } else {
      match ps[0]
      case Lit(t) =>
        assert false;
      case Hole(key) =>
        PlaceholderShape(key);
        assert forall n :: 2 <= n < |h| - 1 ==> h[n] == h[2..|h| - 1][n - 2] == key[n - 2];
        assert i == 0;
        assert ps[..0] == [];
    }
  }

  /** A name without `}` followed by `}` ends at the first `}`. */
  lemma FirstBrace(t: string, name: string)
    requires '}' !in name && |name| < |t| && t[..|name|] == name && t[|name|] == '}'
    ensures IndexOf(t, "}") == |name|
  {
    CharOccurs(t, '}');
    assert forall j :: 0 <= j < |name| ==> t[j] == name[j];
  }

  /** Where `${key}` occurs at `i`, the text from `i + 2` is `key` and then `}`. */
  lemma PlaceholderAt(s: string, i: int, key: string)
    requires OccursAt(s, Placeholder(key), i)
    ensures var t := s[i + 2..]; |key| < |t| && t[..|key|] == key && t[|key|] == '}'
  {
    var h := Placeholder(key);
    PlaceholderShape(key);
    assert s[i..i + |h|] == h;
    forall n | 0 <= n < |key|
      ensures s[i + 2..][..|key|][n] == key[n]
    {
      assert s[i + 2..][..|key|][n] == s[i..i + |h|][2 + n] == h[2..|h| - 1][n];
    }
    assert s[i + 2..][|key|] == s[i..i + |h|][|h| - 1];
  }

  /** `${k}` can occur where `${key}` does only if `k` and `key` are the same name. */
  lemma PlaceholderMatch(s: string, i: int, key: string, k: string)
    requires '}' !in key && '}' !in k
    requires OccursAt(s, Placeholder(key), i) && OccursAt(s, Placeholder(k), i)
    ensures k == key
  {
    PlaceholderAt(s, i, key);
    PlaceholderAt(s, i, k);
    FirstBrace(s[i + 2..], key);
    FirstBrace(s[i + 2..], k);
  }

  /**
   * In a pattern, `${k}` (for a name `k` without `}`) occurs only
   * where a placeholder for `k` stands: a `$` starts a placeholder, and the
   * closing brace pins down its name.
   */
  lemma OccurrenceIsHole(ps: seq<Piece>, k: string, i: int)
    requires '}' !in k
    requires OccursAt(Join(ps), Placeholder(k), i)
    ensures exists j :: 0 <= j < |ps| && ps[j].Hole? && ps[j].key == k && Offset(ps, j) == i
  {
    var s, p := Join(ps), Placeholder(k);
    PlaceholderShape(k);
    assert s[i] == s[i..i + |p|][0] == '$';
    DollarStartsHole(ps, i);
    var j :| 0 <= j < |ps| && ps[j].Hole? && Offset(ps, j) == i;
    HoleOccurs(ps, j);
    PlaceholderMatch(s, i, ps[j].key, k);
  }

  /**
   * In a pattern whose placeholder names are distinct, `${k}`
   * occurs in the text exactly once when `k` names a placeholder, at that
   * placeholder's offset, and nowhere otherwise.
   */
  lemma PlaceholderOccurrences(ps: seq<Piece>, k: string)
    requires HolesDistinct(ps) && '}' !in k
    ensures k !in HoleKeys(ps) ==> forall i :: !OccursAt(Join(ps), Placeholder(k), i)
    ensures forall j :: 0 <= j < |ps| && ps[j].Hole? && ps[j].key == k ==>
              forall i :: OccursAt(Join(ps), Placeholder(k), i) <==> i == Offset(ps, j)
  {
    forall i | OccursAt(Join(ps), Placeholder(k), i)
      ensures exists j :: 0 <= j < |ps| && ps[j].Hole? && ps[j].key == k && Offset(ps, j) == i
    {
      OccurrenceIsHole(ps, k, i);
    }
    forall j | 0 <= j < |ps| && ps[j].Hole? && ps[j].key == k ensures OccursAt(Join(ps), Placeholder(k), Offset(ps, j)) {
      HoleOccurs(ps, j);
    }
  }

  /** With distinct placeholder names, `${k}` occurs in the text iff `k` names a placeholder, and then once. */
  lemma OccursOnce(ps: seq<Piece>, k: string)
    requires HolesDistinct(ps) && '}' !in k
    ensures Includes(Join(ps), Placeholder(k)) <==> k in HoleKeys(ps)
    ensures forall i, i' :: OccursAt(Join(ps), Placeholder(k), i) && OccursAt(Join(ps), Placeholder(k), i') ==> i == i'
  {
    forall i | OccursAt(Join(ps), Placeholder(k), i)
      ensures k in HoleKeys(ps)
      ensures forall j :: 0 <= j < |ps| && ps[j] == Hole(k) ==> i == Offset(ps, j)
    {
      OccurrenceIsHole(ps, k, i);
      var j :| 0 <= j < |ps| && ps[j].Hole? && ps[j].key == k && Offset(ps, j) == i;
      assert Hole(ps[j].key) in ps;
    }
    if k in HoleKeys(ps) {
      var n: Name :| n in HoleKeys(ps) && n == k;
      var j :| 0 <= j < |ps| && ps[j] == Hole(n);
      HoleOccurs(ps, j);
      assert OccursAt(Join(ps), Placeholder(k), Offset(ps, j));
    }
  }

  /** Fill the placeholders named in `m` with their text; others stay placeholders. */
  function Subst(ps: seq<Piece>, m: map<string, Text>): (r: seq<Piece>)
    ensures |r| == |ps|
  {
    seq(|ps|, i requires 0 <= i < |ps| =>
      if ps[i].Hole? && ps[i].key in m then Lit(m[ps[i].key]) else ps[i])
  }

  /** The pattern with every placeholder named in `m` filled in independently. */
  function Render(ps: seq<Piece>, m: map<string, Text>): string {
    Join(Subst(ps, m))
  }

  /** Once every placeholder is filled, no `$` is left, so no placeholder remains in the text. */
  lemma {:induction false} RenderComplete(ps: seq<Piece>, m: map<string, Text>)
    requires forall k :: k in HoleKeys(ps) ==> k in m
    ensures '$' !in Render(ps, m)
  {
    if ps != [] {
      assert HoleKeys(ps) == (if ps[0].Hole? then [ps[0].key] else []) + HoleKeys(ps[1..]);
      assert Subst(ps, m)[1..] == Subst(ps[1..], m);
      RenderComplete(ps[1..], m);
      var t: Text := Show(Subst(ps, m)[0]);
      assert Join(Subst(ps, m)) == t + Render(ps[1..], m);
    }
  }

  /** Filling with `m1` and then with a disjoint `m2` is filling with both. */
  lemma SubstCompose(ps: seq<Piece>, m1: map<string, Text>, m2: map<string, Text>)
    requires m1.Keys !! m2.Keys
    ensures Subst(Subst(ps, m1), m2) == Subst(ps, m1 + m2)
  {
  }

  /** Filling leaves the remaining placeholder names distinct. */
  lemma SubstKeepsDistinct(ps: seq<Piece>, m: map<string, Text>)
    requires HolesDistinct(ps)
    ensures HolesDistinct(Subst(ps, m))
  {
  }

  /**
   * `String.prototype.replace` of `${k}` by a `$`-free text fills exactly the
   * placeholder named `k`, and leaves the text alone when there is none.
   */
  lemma ReplaceFills(ps: seq<Piece>, k: string, t: Text)
    requires HolesDistinct(ps) && '}' !in k
    ensures Replace(Join(ps), Placeholder(k), t) == Join(Subst(ps, map[k := t]))
  {
    PlaceholderOccurrences(ps, k);
    if j :| 0 <= j < |ps| && ps[j].Hole? && ps[j].key == k {
      ReplaceAtHole(ps, j, t);
      SubstOne(ps, j, t);
    } else {
      assert k !in HoleKeys(ps);
      assert Subst(ps, map[k := t]) == ps;
    }
  }

  /** Replacing the placeholder of hole `j` turns that hole into the text. */
  lemma ReplaceAtHole(ps: seq<Piece>, j: nat, t: Text)
    requires HolesDistinct(ps) && j < |ps| && ps[j].Hole?
    ensures Replace(Join(ps), Placeholder(ps[j].key), t) == Join(ps[j := Lit(t)])
  {
    ReplaceSplices(ps, j, t);
    FilledJoin(ps, j, t);
  }

  /** Replacing the placeholder of hole `j` splices the text in between the pieces around it. */
  lemma ReplaceSplices(ps: seq<Piece>, j: nat, t: Text)
    requires HolesDistinct(ps) && j < |ps| && ps[j].Hole?
    ensures Replace(Join(ps), Placeholder(ps[j].key), t) == Join(ps[..j]) + t + Join(ps[j + 1..])
  {
    FirstAtHole(ps, j);
    JoinAt(ps, j);
    ReplaceBetween(Join(ps[..j]), Placeholder(ps[j].key), Join(ps[j + 1..]), t);
  }

  /** Filling hole `j` with a text puts it between the pieces around it. */
  lemma FilledJoin(ps: seq<Piece>, j: nat, t: Text)
    requires j < |ps|
    ensures Join(ps[j := Lit(t)]) == Join(ps[..j]) + t + Join(ps[j + 1..])
  {
    var filled := ps[j := Lit(t)];
    JoinAt(filled, j);
    assert filled[..j] == ps[..j] && filled[j + 1..] == ps[j + 1..];
  }

  /** The first occurrence of a hole's placeholder is at the hole. */
  lemma FirstAtHole(ps: seq<Piece>, j: nat)
    requires HolesDistinct(ps) && j < |ps| && ps[j].Hole?
    ensures OccursAt(Join(ps), Placeholder(ps[j].key), Offset(ps, j))
    ensures forall i :: 0 <= i < Offset(ps, j) ==> !OccursAt(Join(ps), Placeholder(ps[j].key), i)
  {
    PlaceholderOccurrences(ps, ps[j].key);
  }

  /** With distinct names, filling the one name of hole `j` changes that hole only. */
  lemma SubstOne(ps: seq<Piece>, j: nat, t: Text)
    requires HolesDistinct(ps) && j < |ps| && ps[j].Hole?
    ensures Subst(ps, map[ps[j].key := t]) == ps[j := Lit(t)]
  {
  }

  /** No name is listed twice. */
  predicate Distinct(names: seq<string>) {
    forall i, j :: 0 <= i < j < |names| ==> names[i] != names[j]
  }

  lemma {:induction false} HoleKeysAppend(a: seq<Piece>, b: seq<Piece>)
    ensures HoleKeys(a + b) == HoleKeys(a) + HoleKeys(b)
  {
    if a == [] {
      assert a + b == b;
    } else {
      assert (a + b)[0] == a[0] && (a + b)[1..] == a[1..] + b;
      HoleKeysAppend(a[1..], b);
    }
  }

  lemma DistinctSplit(a: seq<string>, b: seq<string>)
    requires Distinct(a + b)
    ensures Distinct(b) && forall x :: x in a ==> x !in b
  {
    forall i, j | 0 <= i < j < |b| ensures b[i] != b[j] {
      assert (a + b)[|a| + i] == b[i] && (a + b)[|a| + j] == b[j];
    }
    forall x | x in a ensures x !in b {
      var i :| 0 <= i < |a| && a[i] == x;
      if j :| 0 <= j < |b| && b[j] == x {
        assert (a + b)[i] == x == (a + b)[|a| + j];
      }
    }
  }

  /** Placeholder names listed without repetition are pairwise distinct at every position. */
  lemma {:induction false} DistinctHoles(ps: seq<Piece>)
    requires Distinct(HoleKeys(ps))
    ensures HolesDistinct(ps)
  {
    if ps != [] {
      var head := if ps[0].Hole? then [ps[0].key] else [];
      assert HoleKeys(ps) == head + HoleKeys(ps[1..]);
      DistinctSplit(head, HoleKeys(ps[1..]));
      DistinctHoles(ps[1..]);
      forall i, j | 0 <= i < j < |ps| && ps[i].Hole? && ps[j].Hole?
        ensures ps[i].key != ps[j].key
      {
        assert ps[1..][j - 1] == ps[j];
        if i == 0 {
          assert Hole(ps[j].key) in ps[1..];
          assert ps[0].key in head;
        } else {
          assert ps[1..][i - 1] == ps[i];
        }
      }
    }
  }

  /** A placeholder together with the literal text that follows it, up to the next placeholder. */
  datatype Segment = Segment(key: Name, text: seq<Text>)

  /**
   * An instruction pattern as written: leading literal text, then each
   * placeholder followed by its literal text. Literal text is kept as a
   * sequence of short chunks; only their concatenation matters.
   */
  datatype Instruction = Instruction(lead: seq<Text>, segments: seq<Segment>)

  function Lits(ts: seq<Text>): (r: seq<Piece>)
    ensures |r| == |ts| && forall i :: 0 <= i < |ts| ==> r[i] == Lit(ts[i])
  {
    seq(|ts|, i requires 0 <= i < |ts| => Lit(ts[i]))
  }

  function SegmentPieces(ss: seq<Segment>): seq<Piece> {
    if ss == [] then [] else [Hole(ss[0].key)] + Lits(ss[0].text) + SegmentPieces(ss[1..])
  }

  /** The pieces an instruction spells, in order. */
  function Pieces(ins: Instruction): seq<Piece> {
    Lits(ins.lead) + SegmentPieces(ins.segments)
  }

  /** The placeholder names of an instruction, in order of appearance. */
  function Keys(ins: Instruction): (ks: seq<Name>)
    ensures |ks| == |ins.segments| && forall i :: 0 <= i < |ks| ==> ks[i] == ins.segments[i].key
  {
    seq(|ins.segments|, i requires 0 <= i < |ins.segments| => ins.segments[i].key)
  }

  lemma {:induction false} LitsHaveNoHoles(ts: seq<Text>)
    ensures HoleKeys(Lits(ts)) == []
  {
    if ts != [] {
      assert Lits(ts)[1..] == Lits(ts[1..]);
      LitsHaveNoHoles(ts[1..]);
    }
  }

  lemma {:induction false} SegmentKeys(ss: seq<Segment>)
    ensures HoleKeys(SegmentPieces(ss)) == seq(|ss|, i requires 0 <= i < |ss| => ss[i].key)
  {
    if ss != [] {
      var rest := SegmentPieces(ss[1..]);
      SegmentKeys(ss[1..]);
      HoleKeysAppend([Hole(ss[0].key)] + Lits(ss[0].text), rest);
      HoleKeysAppend([Hole(ss[0].key)], Lits(ss[0].text));
      LitsHaveNoHoles(ss[0].text);
      assert HoleKeys([Hole(ss[0].key)]) == [ss[0].key];
    }
  }

  /** The placeholders of the spelled pieces are exactly the instruction's segment names, in order. */
  lemma InstructionKeys(ins: Instruction)
    ensures HoleKeys(Pieces(ins)) == Keys(ins)
  {
    HoleKeysAppend(Lits(ins.lead), SegmentPieces(ins.segments));
    LitsHaveNoHoles(ins.lead);
    SegmentKeys(ins.segments);
  }

  /** An instruction whose segment names are distinct spells a pattern whose placeholders are distinct. */
  lemma InstructionHolesDistinct(ins: Instruction)
    requires Distinct(Keys(ins))
    ensures HolesDistinct(Pieces(ins))
  {
    InstructionKeys(ins);
    DistinctHoles(Pieces(ins));
  }
}
