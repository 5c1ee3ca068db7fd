/**
  `String.split("\\s+")` as Java 8 and later perform it: the string is cut at
  every maximal run of whitespace; a whitespace run at the very start leaves an
  empty first piece; empty pieces at the end are dropped; and a string with no
  whitespace at all comes back whole, as a one-element array (so `""` gives
  `[""]`).
 */
module WhitespaceSplit {

  /** `\s` in a Java regex: space, tab, line feed, vertical tab, form feed, carriage return. */
  predicate IsSpace(c: char) { c == ' ' || '\t' <= c <= '\r' }

  predicate NoSpace(s: string) {
    forall i :: 0 <= i < |s| ==> !IsSpace(s[i])
  }

  predicate AllSpace(s: string) {
    forall i :: 0 <= i < |s| ==> IsSpace(s[i])
  }

  /** The characters of `s` that are not whitespace, in order. */
  function NonSpace(s: string): (r: string)
    ensures |r| <= |s|
  {
    if s == [] then [] else (if IsSpace(s[0]) then [] else [s[0]]) + NonSpace(s[1..])
  }

  /** Index of the first whitespace character, or `|s|` when there is none. */
  function FirstSpace(s: string): (i: nat)
    ensures i <= |s|
    ensures NoSpace(s[..i])
    ensures i < |s| ==> IsSpace(s[i])
  {
    if s == [] || IsSpace(s[0]) then 0
    else
      var k := FirstSpace(s[1..]);
      assert s[..1 + k] == [s[0]] + s[1..][..k];
      1 + k
  }

  /** `s` without its leading whitespace run: where the next search starts after a greedy `\s+` match. */
  function SkipSpaces(s: string): (r: string)
    ensures |r| <= |s| && r == s[|s| - |r|..]
    ensures AllSpace(s[..|s| - |r|])
    ensures r == [] || !IsSpace(r[0])
  {
    if s != [] && IsSpace(s[0]) then
      var t := SkipSpaces(s[1..]);
      assert s[1..][..|s| - 1 - |t|] == s[1..|s| - |t|];
      t
    else s
  }

  /** Every piece between consecutive maximal whitespace runs, empty ones included. */
  function Pieces(s: string): (ps: seq<string>)
    ensures |ps| >= 1
    decreases |s|
  {
    var i := FirstSpace(s);
    if i == |s| then [s] else [s[..i]] + Pieces(SkipSpaces(s[i..]))
  }

  function DropTrailingEmpty(ps: seq<string>): (r: seq<string>)
    ensures |r| <= |ps| && r == ps[..|r|]
    ensures forall k :: |r| <= k < |ps| ==> ps[k] == []
    ensures r == [] || r[|r| - 1] != []
  {
    if ps != [] && ps[|ps| - 1] == [] then DropTrailingEmpty(ps[..|ps| - 1]) else ps
  }

  /**
    `s.split("\\s+")`. Trailing empty strings are removed, so the last
    element is never empty, except that the empty string splits into `[""]`.
   */
  function Split(s: string): (r: seq<string>)
    ensures r != [] && r[|r| - 1] == [] ==> s == [] && r == [[]]
  {
    if FirstSpace(s) == |s| then [s] else DropTrailingEmpty(Pieces(s))
  }

  function Concat(ps: seq<string>): string {
    if ps == [] then [] else ps[0] + Concat(ps[1..])
  }

  lemma {:induction false} NonSpaceAppend(a: string, b: string)
    ensures NonSpace(a + b) == NonSpace(a) + NonSpace(b)
    decreases |a|
  {
    if a != [] {
      assert (a + b)[1..] == a[1..] + b;
      NonSpaceAppend(a[1..], b);
    } else {
      assert a + b == b;
    }
  }

  lemma {:induction false} NonSpaceOfNoSpace(s: string)
    requires NoSpace(s)
    ensures NonSpace(s) == s
  {
    if s != [] { NonSpaceOfNoSpace(s[1..]); }
  }

  lemma {:induction false} NonSpaceOfAllSpace(s: string)
    requires AllSpace(s)
    ensures NonSpace(s) == []
  {
    if s != [] { NonSpaceOfAllSpace(s[1..]); }
  }

  lemma {:induction false} NonSpaceEmptyIff(s: string)
    ensures NonSpace(s) == [] <==> AllSpace(s)
  {
    if s != [] {
      NonSpaceEmptyIff(s[1..]);
      assert AllSpace(s) <==> IsSpace(s[0]) && AllSpace(s[1..]) by {
        assert forall i :: 1 <= i < |s| ==> s[i] == s[1..][i - 1];
      }
    }
  }

  lemma {:induction false} ConcatAppend(a: seq<string>, b: seq<string>)
    ensures Concat(a + b) == Concat(a) + Concat(b)
    decreases |a|
  {
    if a != [] {
      assert (a + b)[1..] == a[1..] + b;
      ConcatAppend(a[1..], b);
    } else {
      assert a + b == b;
    }
  }

  /** No piece contains whitespace. */
  lemma {:induction false} PiecesNoSpace(s: string)
    ensures forall k :: 0 <= k < |Pieces(s)| ==> NoSpace(Pieces(s)[k])
    decreases |s|
  {
    var i := FirstSpace(s);
    if i < |s| {
      var t := SkipSpaces(s[i..]);
      PiecesNoSpace(t);
      assert Pieces(s) == [s[..i]] + Pieces(t);
    }
  }

  /** Starting at a word (or at the end), every piece but the last is a non-empty word. */
  lemma {:induction false} PiecesFromWordStart(t: string)
    requires t == [] || !IsSpace(t[0])
    ensures forall k :: 0 <= k < |Pieces(t)| - 1 ==> Pieces(t)[k] != []
    decreases |t|
  {
    var i := FirstSpace(t);
    if i < |t| {
      var u := SkipSpaces(t[i..]);
      PiecesFromWordStart(u);
      assert Pieces(t) == [t[..i]] + Pieces(u);
      assert i > 0;
    }
  }

  /** Only the first and the last piece can be empty. */
  lemma PiecesInnerNonEmpty(s: string)
    ensures forall k :: 1 <= k < |Pieces(s)| - 1 ==> Pieces(s)[k] != []
  {
    var i := FirstSpace(s);
    if i < |s| {
      var t := SkipSpaces(s[i..]);
      PiecesFromWordStart(t);
      assert Pieces(s) == [s[..i]] + Pieces(t);
    }
  }

  /** A word followed by a whitespace run contributes just the word. */
  lemma {:induction false} NonSpaceSplice(head: string, run: string, t: string)
    requires NoSpace(head) && AllSpace(run)
    ensures NonSpace(head + (run + t)) == head + NonSpace(t)
  {
    var rt := run + t;
    NonSpaceAppend(run, t);
    NonSpaceOfAllSpace(run);
    assert NonSpace(rt) == NonSpace(t) by {
      assert [] + NonSpace(t) == NonSpace(t);
    }
    NonSpaceAppend(head, rt);
    NonSpaceOfNoSpace(head);
  }

  /** Cutting at the first whitespace run drops only whitespace. */
  lemma {:induction false} NonSpaceStep(s: string, i: nat)
    requires i < |s| && NoSpace(s[..i])
    ensures NonSpace(s) == s[..i] + NonSpace(SkipSpaces(s[i..]))
  {
    var u := s[i..];
    var t := SkipSpaces(u);
    var run := u[..|u| - |t|];
    assert u == run + t;
    assert s == s[..i] + u;
    NonSpaceSplice(s[..i], run, t);
  }

  /** Gluing the pieces back together gives exactly the non-whitespace characters. */
  lemma {:induction false} PiecesConcat(s: string)
    ensures Concat(Pieces(s)) == NonSpace(s)
    decreases |s|
  {
    var i := FirstSpace(s);
    if i == |s| {
      assert s[..i] == s;
      NonSpaceOfNoSpace(s);
      assert Concat([s]) == s + Concat([]);
    } else {
      var t := SkipSpaces(s[i..]);
      PiecesConcat(t);
      NonSpaceStep(s, i);
      var ps := Pieces(s);
      assert ps == [s[..i]] + Pieces(t);
      assert ps[1..] == Pieces(t);
    }
  }

  lemma {:induction false} ConcatDropTrailingEmpty(ps: seq<string>)
    ensures Concat(DropTrailingEmpty(ps)) == Concat(ps)
    decreases |ps|
  {
    if ps != [] && ps[|ps| - 1] == [] {
      var init := ps[..|ps| - 1];
      ConcatDropTrailingEmpty(init);
      assert ps == init + [[]];
      ConcatAppend(init, [[]]);
      assert Concat([[]]) == [];
    }
  }

  /** No element of the result contains whitespace. */
  lemma SplitElementsNoSpace(s: string)
    ensures forall k :: 0 <= k < |Split(s)| ==> NoSpace(Split(s)[k])
  {
    if FirstSpace(s) == |s| {
      assert s[..|s|] == s;
    } else {
      var ps := Pieces(s);
      var r := DropTrailingEmpty(ps);
      PiecesNoSpace(s);
      assert forall k :: 0 <= k < |r| ==> r[k] == ps[k];
    }
  }

  /** Every element after the first is non-empty. */
  lemma SplitLaterNonEmpty(s: string)
    ensures forall k :: 1 <= k < |Split(s)| ==> Split(s)[k] != []
  {
    if FirstSpace(s) < |s| {
      var ps := Pieces(s);
      var r := DropTrailingEmpty(ps);
      PiecesInnerNonEmpty(s);
      assert forall k :: 0 <= k < |r| ==> r[k] == ps[k];
    }
  }

  /** The elements glued together are the non-whitespace characters of `s`. */
  lemma SplitConcat(s: string)
    ensures Concat(Split(s)) == NonSpace(s)
  {
    if FirstSpace(s) == |s| {
      assert s[..|s|] == s;
      NonSpaceOfNoSpace(s);
      assert Concat([s]) == s + Concat([]);
    } else {
      PiecesConcat(s);
      ConcatDropTrailingEmpty(Pieces(s));
    }
  }

  /**
    What `split("\\s+")` returns: whitespace-free words, all non-empty except
    possibly the first, which together hold exactly the non-whitespace
    characters of `s`, in order. The first word is everything before the
    first whitespace character, and when `s` holds anything but whitespace
    the last word is its final word.
   */
  lemma SplitWords(s: string)
    ensures forall k :: 0 <= k < |Split(s)| ==> NoSpace(Split(s)[k])
    ensures forall k :: 1 <= k < |Split(s)| ==> Split(s)[k] != []
    ensures Concat(Split(s)) == NonSpace(s)
    ensures Split(s) != [] ==> Split(s)[0] == s[..FirstSpace(s)]
    ensures !AllSpace(s) ==> Split(s) != [] && IsLastWord(s, Split(s)[|Split(s)| - 1])
  {
    SplitElementsNoSpace(s);
    SplitLaterNonEmpty(s);
    SplitConcat(s);
    if Split(s) != [] {
      SplitFirstWord(s);
    }
    if !AllSpace(s) {
      SplitLastWord(s);
    }
  }

  /**
    `w` is the final maximal run of non-whitespace characters of `s`: a
    non-empty, whitespace-free stretch with only whitespace after it and
    whitespace (or the start of `s`) just before it.
   */
  ghost predicate IsLastWord(s: string, w: string) {
    exists a, b :: 0 <= a < b <= |s| && w == s[a..b] && NoSpace(w) && AllSpace(s[b..])
                   && (a == 0 || IsSpace(s[a - 1]))
  }

  /** Putting a piece in front commutes with dropping trailing empty pieces, unless all of them go. */
  lemma {:induction false} DropTrailingEmptyCons(x: string, ps: seq<string>)
    requires DropTrailingEmpty(ps) != []
    ensures DropTrailingEmpty([x] + ps) == [x] + DropTrailingEmpty(ps)
    decreases |ps|
  {
    if ps[|ps| - 1] == [] {
      var init := ps[..|ps| - 1];
      assert ([x] + ps)[..|ps|] == [x] + init;
      DropTrailingEmptyCons(x, init);
    }
  }

  /** Cutting at the first whitespace: the run skipped is all whitespace and the rest is a suffix. */
  lemma PiecesStep(t: string) returns (i: nat, u: string, off: nat)
    requires FirstSpace(t) < |t|
    ensures i == FirstSpace(t) && u == SkipSpaces(t[i..]) && off == |t| - |u|
    ensures i < off <= |t| && u == t[off..]
    ensures forall j :: i <= j < off ==> IsSpace(t[j])
    ensures Pieces(t) == [t[..i]] + Pieces(u)
  {
    i := FirstSpace(t);
    var rest := t[i..];
    u := SkipSpaces(rest);
    off := |t| - |u|;
    SpaceRunShift(t, i, |rest| - |u|);
    assert rest[|rest| - |u|..] == t[off..];
  }

  /** A whitespace run found at the front of `t[i..]` is whitespace of `t` itself. */
  lemma SpaceRunShift(t: string, i: nat, n: nat)
    requires i + n <= |t| && AllSpace(t[i..][..n])
    ensures forall j :: i <= j < i + n ==> IsSpace(t[j])
  {
    forall j | i <= j < i + n ensures IsSpace(t[j]) {
      assert t[j] == t[i..][..n][j - i];
    }
  }

  /** A string without whitespace is one piece, and that piece is its last word. */
  lemma LastWordWithoutSpace(t: string)
    requires !AllSpace(t) && FirstSpace(t) == |t|
    ensures DropTrailingEmpty(Pieces(t)) == [t[0..|t|]]
    ensures 0 < |t| && NoSpace(t[0..|t|]) && AllSpace(t[|t|..])
  {
    assert t[..|t|] == t == t[0..|t|];
  }

  /** A word followed only by whitespace: the pieces are that word and one empty piece. */
  lemma LastWordBeforeTrailingSpace(t: string)
    requires !AllSpace(t) && FirstSpace(t) < |t| && AllSpace(SkipSpaces(t[FirstSpace(t)..]))
    ensures 0 < FirstSpace(t)
    ensures DropTrailingEmpty(Pieces(t)) == [t[0..FirstSpace(t)]]
    ensures NoSpace(t[0..FirstSpace(t)]) && AllSpace(t[FirstSpace(t)..])
  {
    var i, u, off := PiecesStep(t);
    assert off == |t|;
    var k :| 0 <= k < |t| && !IsSpace(t[k]);
    assert k < i;
    PiecesOfEmpty();
    DropSingleTrailingEmpty(t[..i]);
    assert t[0..i] == t[..i];
  }

  lemma PiecesOfEmpty()
    ensures Pieces([]) == [[]]
  {
  }

  lemma DropSingleTrailingEmpty(x: string)
    requires x != []
    ensures DropTrailingEmpty([x] + [[]]) == [x]
  {
    assert ([x] + [[]])[..1] == [x];
  }

  /**
    Once trailing empty pieces are dropped, the last piece is the final word,
    `t[a..b]`: the positions are returned so that the recursion needs no
    existential.
   */
  lemma {:induction false} PiecesLastWord(t: string) returns (a: nat, b: nat)
    requires !AllSpace(t)
    ensures DropTrailingEmpty(Pieces(t)) != []
    ensures a < b <= |t| && DropTrailingEmpty(Pieces(t))[|DropTrailingEmpty(Pieces(t))| - 1] == t[a..b]
    ensures NoSpace(t[a..b]) && AllSpace(t[b..]) && (a == 0 || IsSpace(t[a - 1]))
    decreases |t|
  {
    if FirstSpace(t) == |t| {
      LastWordWithoutSpace(t);
      a, b := 0, |t|;
    } else {
      var i, u, off := PiecesStep(t);
      if AllSpace(u) {
        LastWordBeforeTrailingSpace(t);
        a, b := 0, i;
      } else {
        var a', b' := PiecesLastWord(u);
        LastPieceAfterCut(t, i, u);
        a, b := SuffixSlices(t, off, a', b');
      }
    }
  }

  /** Slices of a suffix are slices of the whole, shifted. */
  lemma SuffixSlices(t: string, off: nat, a': nat, b': nat) returns (a: nat, b: nat)
    requires 0 < off <= |t| && a' < b' <= |t| - off && IsSpace(t[off - 1])
    requires NoSpace(t[off..][a'..b']) && AllSpace(t[off..][b'..]) && (a' == 0 || IsSpace(t[off..][a' - 1]))
    ensures a == off + a' && b == off + b'
    ensures a < b <= |t| && t[a..b] == t[off..][a'..b']
    ensures NoSpace(t[a..b]) && AllSpace(t[b..]) && (a == 0 || IsSpace(t[a - 1]))
  {
    a, b := off + a', off + b';
    var u := t[off..];
    assert |u[a'..b']| == |t[a..b]|;
    forall j | 0 <= j < b' - a' ensures u[a'..b'][j] == t[a..b][j] {
      assert u[a'..b'][j] == u[a' + j] == t[a + j];
    }
    assert u[a'..b'] == t[a..b];
    forall j | 0 <= j < |t| - b ensures IsSpace(t[b..][j]) {
      assert t[b..][j] == u[b'..][j];
    }
    if a' > 0 { assert u[a' - 1] == t[a - 1]; }
  }

  /** Once the first piece is cut off, the last kept piece is the last kept piece of the rest. */
  lemma LastPieceAfterCut(t: string, i: nat, u: string)
    requires i <= |t| && Pieces(t) == [t[..i]] + Pieces(u)
    requires DropTrailingEmpty(Pieces(u)) != []
    ensures DropTrailingEmpty(Pieces(t)) != []
    ensures DropTrailingEmpty(Pieces(t))[|DropTrailingEmpty(Pieces(t))| - 1]
         == DropTrailingEmpty(Pieces(u))[|DropTrailingEmpty(Pieces(u))| - 1]
  {
    DropTrailingEmptyCons(t[..i], Pieces(u));
    LastOfCons(t[..i], DropTrailingEmpty(Pieces(u)));
  }

  lemma LastOfCons(x: string, r: seq<string>)
    requires r != []
    ensures ([x] + r)[|[x] + r| - 1] == r[|r| - 1]
  {
  }

  /** The first element is everything before the first whitespace character. */
  lemma SplitFirstWord(s: string)
    requires Split(s) != []
    ensures Split(s)[0] == s[..FirstSpace(s)]
  {
    if FirstSpace(s) < |s| {
      var ps := Pieces(s);
      assert DropTrailingEmpty(ps)[0] == ps[0];
      assert ps == [s[..FirstSpace(s)]] + Pieces(SkipSpaces(s[FirstSpace(s)..]));
    } else {
      assert s[..|s|] == s;
    }
  }

  /** When `s` holds a non-whitespace character, the last element is its final word. */
  lemma SplitLastWord(s: string)
    requires !AllSpace(s)
    ensures Split(s) != []
    ensures IsLastWord(s, Split(s)[|Split(s)| - 1])
  {
    var a, b := PiecesLastWord(s);
    var r := DropTrailingEmpty(Pieces(s));
    assert Split(s) == r by {
      if FirstSpace(s) == |s| {
        assert Pieces(s) == [s];
      }
    }
    assert r[|r| - 1] == s[a..b];
  }

  /** A string without whitespace comes back whole. */
  lemma SplitNoSpace(s: string)
    requires NoSpace(s)
    ensures Split(s) == [s]
  {
  }

  /** The result is empty exactly when `s` is non-empty and all whitespace. */
  lemma SplitEmptyIff(s: string)
    ensures Split(s) == [] <==> s != [] && AllSpace(s)
  {
    SplitWords(s);
    if s != [] && AllSpace(s) {
      assert FirstSpace(s) == 0;
      assert s[0..] == s;
      assert Pieces(s) == [[]] + Pieces([]);
      assert DropTrailingEmpty([[], []]) == DropTrailingEmpty([[]]);
    }
    if Split(s) == [] {
      assert FirstSpace(s) < |s|;
      NonSpaceEmptyIff(s);
    }
  }

  /**
    The first element is empty exactly when `s` is empty or starts with
    whitespace, unless `s` is nothing but whitespace (then there is no element).
   */
  lemma SplitFirstEmptyIff(s: string)
    requires Split(s) != []
    ensures Split(s)[0] == [] <==> s == [] || IsSpace(s[0])
  {
    if FirstSpace(s) < |s| {
      var ps := Pieces(s);
      var r := DropTrailingEmpty(ps);
      assert r[0] == ps[0];
      var t := SkipSpaces(s[FirstSpace(s)..]);
      assert ps == [s[..FirstSpace(s)]] + Pieces(t);
      assert ps[0] == s[..FirstSpace(s)];
      if s != [] && !IsSpace(s[0]) {
        assert FirstSpace(s) > 0;
      }
    }
  }
}
