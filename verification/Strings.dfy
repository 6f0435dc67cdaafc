/** Substring search, occurrence counting and the deletion that Go's
    `strings.ReplaceAll(s, cut, "")` performs. */
module Strings {

  /** `sub` starts at position `i` of `s`. */
  predicate OccursAt(s: string, sub: string, i: int) {
    0 <= i <= |s| && sub <= s[i..]
  }

  /** Go's `strings.Contains`. */
  predicate Contains(s: string, sub: string) {
    exists i :: 0 <= i <= |s| && OccursAt(s, sub, i)
  }

  predicate NewlineFree(s: string) {
    '\n' !in s
  }

  /** Empty, or beginning with a newline: no newline-free word can run into it. */
  predicate StartsLine(s: string) {
    s == "" || s[0] == '\n'
  }

  /** Number of (possibly overlapping) occurrences of `sub` in `s`. */
  ghost function Count(s: string, sub: string): nat {
    (if sub <= s then 1 else 0) + (if s == "" then 0 else Count(s[1..], sub))
  }

  /** Go's `strings.ReplaceAll(s, cut, "")`: delete occurrences left to right, without overlap. */
  function RemoveAll(s: string, cut: string): string
    requires cut != ""
    decreases |s|
  {
    if s == "" then ""
    else if cut <= s then RemoveAll(s[|cut|..], cut)
    else [s[0]] + RemoveAll(s[1..], cut)
  }

  // ---------------------------------------------------------------- occurrences

  lemma OccursDrop(s: string, sub: string, k: nat, i: int)
    requires k <= |s|
    ensures OccursAt(s[k..], sub, i) <==> 0 <= i && OccursAt(s, sub, i + k)
  {
    if 0 <= i && i + k <= |s| {
      assert s[k..][i..] == s[i + k..];
    }
  }

  /** Inside the middle part of a text, its occurrences are those of the whole. */
  lemma OccursInMiddle(a: string, b: string, c: string, sub: string, i: int)
    ensures |a| <= i && i + |sub| <= |a| + |b| ==>
              (OccursAt(a + b + c, sub, i) <==> OccursAt(b, sub, i - |a|))
  {
    if |a| <= i && i + |sub| <= |a| + |b| {
      var k := i - |a|;
      assert (a + b + c)[i..] == b[k..] + c;
      assert (b[k..] + c)[..|sub|] == b[k..][..|sub|];
    }
  }

  /** A word that runs past the start of a line contains a newline. */
  lemma PrefixSplit(a: string, b: string, sub: string)
    requires StartsLine(b)
    ensures sub <= a + b ==> sub <= a || '\n' in sub
    ensures sub <= a ==> sub <= a + b
  {
    if sub <= a + b {
      if |sub| > |a| {
        assert sub[|a|] == (a + b)[|a|] == b[0];
      } else {
        assert sub == (a + b)[..|sub|] == a[..|sub|];
      }
    }
  }

  lemma OccursSplit(a: string, b: string, sub: string, i: int)
    requires StartsLine(b)
    ensures OccursAt(a + b, sub, i) ==>
              OccursAt(a, sub, i) || OccursAt(b, sub, i - |a|) || '\n' in sub
  {
    if OccursAt(a + b, sub, i) {
      if i >= |a| {
        assert (a + b)[i..] == b[i - |a|..];
      } else {
        assert (a + b)[i..] == a[i..] + b;
        PrefixSplit(a[i..], b, sub);
      }
    }
  }

  /** A newline-free word cannot straddle the start of a line. */
  lemma ContainsConcat(a: string, b: string, sub: string)
    requires StartsLine(b) && NewlineFree(sub)
    ensures Contains(a + b, sub) <==> Contains(a, sub) || Contains(b, sub)
  {
    if i :| 0 <= i <= |a + b| && OccursAt(a + b, sub, i) {
      OccursSplit(a, b, sub, i);
      assert OccursAt(a, sub, i) || OccursAt(b, sub, i - |a|);
    }
    if Contains(a, sub) {
      ContainsInConcat("", a, b, sub);
      assert "" + a + b == a + b;
    }
    if Contains(b, sub) {
      ContainsInConcat(a, b, "", sub);
      assert a + b + "" == a + b;
    }
  }

  lemma ContainsInConcat(a: string, b: string, c: string, sub: string)
    requires Contains(b, sub)
    ensures Contains(a + b + c, sub)
  {
    var i :| 0 <= i <= |b| && OccursAt(b, sub, i);
    OccursInMiddle(a, b, c, sub, |a| + i);
    assert OccursAt(a + b + c, sub, |a| + i);
  }

  lemma ContainsAppend(a: string, b: string, sub: string)
    requires Contains(a, sub)
    ensures Contains(a + b, sub)
  {
    ContainsInConcat("", a, b, sub);
    assert "" + a + b == a + b;
  }

  lemma ContainsTransitive(s: string, mid: string, sub: string)
    requires Contains(s, mid) && Contains(mid, sub)
    ensures Contains(s, sub)
  {
    var i :| 0 <= i <= |s| && OccursAt(s, mid, i);
    var rest := s[i + |mid|..];
    assert s == s[..i] + mid + rest;
    ContainsInConcat(s[..i], mid, rest, sub);
  }

  // ---------------------------------------------------------------- counting

  lemma NoneBefore(s: string, sub: string, p: nat)
    requires 0 < p <= |s|
    ensures (forall i :: 0 <= i < p ==> !OccursAt(s, sub, i))
            <==> !(sub <= s) && forall i :: 0 <= i < p - 1 ==> !OccursAt(s[1..], sub, i)
  {
    assert s[0..] == s;
    forall i ensures OccursAt(s[1..], sub, i) <==> 0 <= i && OccursAt(s, sub, i + 1) {
      OccursDrop(s, sub, 1, i);
    }
    assert OccursAt(s, sub, 0) <==> sub <= s;
    hide OccursAt;
    assert forall i :: 0 < i < p ==> OccursAt(s, sub, i) == OccursAt(s[1..], sub, i - 1);
  }

  /** Dropping a prefix loses exactly the occurrences that start in it. */
  lemma {:induction false} CountDrop(s: string, sub: string, p: nat)
    requires p <= |s|
    ensures Count(s, sub) >= Count(s[p..], sub)
    ensures Count(s, sub) == Count(s[p..], sub) <==> forall i :: 0 <= i < p ==> !OccursAt(s, sub, i)
  {
    hide OccursAt;
    if p == 0 {
      assert s[0..] == s;
    } else {
      CountDrop(s[1..], sub, p - 1);
      assert s[1..][p - 1..] == s[p..];
      NoneBefore(s, sub, p);
    }
  }

  /** Appending never loses an occurrence, and gains none when all of them end before the seam. */
  lemma {:induction false} CountAppend(a: string, b: string, sub: string)
    ensures Count(a + b, sub) >= Count(a, sub)
    ensures (forall i :: OccursAt(a + b, sub, i) ==> i + |sub| <= |a|)
            ==> Count(a + b, sub) == Count(a, sub)
  {
    var s := a + b;
    assert s[0..] == s;
    if a == "" {
      assert s == b && s[|s|..] == "";
      CountDrop(s, sub, |s|);
      assert OccursAt(s, sub, 0) <==> sub <= s;
      assert sub == "" ==> OccursAt(s, sub, |s|);
    } else {
      assert s[1..] == a[1..] + b;
      CountAppend(a[1..], b, sub);
      forall i ensures OccursAt(s[1..], sub, i) <==> 0 <= i && OccursAt(s, sub, i + 1) {
        OccursDrop(s, sub, 1, i);
      }
      assert OccursAt(s, sub, 0) <==> sub <= s;
      assert |sub| <= |a| ==> s[..|sub|] == a[..|sub|];
    }
  }

  /** Occurrences of a newline-free word never cross a newline, so counts add up. */
  lemma {:induction false} CountLines(a: string, b: string, sub: string)
    requires NewlineFree(sub)
    ensures Count(a + "\n" + b, sub) == Count(a, sub) + Count(b, sub)
  {
    var line := "\n" + b;
    assert a + "\n" + b == a + line;
    PrefixSplit(a, line, sub);
    if a == "" {
      assert a + line == line && line[1..] == b;
    } else {
      assert (a + line)[1..] == a[1..] + "\n" + b;
      CountLines(a[1..], b, sub);
    }
  }

  // ---------------------------------------------------------------- deletion

  lemma {:induction false} RemoveAllAbsent(s: string, cut: string)
    requires cut != ""
    requires forall i :: !OccursAt(s, cut, i)
    ensures RemoveAll(s, cut) == s
  {
    if s != "" {
      assert s[0..] == s;
      assert !OccursAt(s, cut, 0);
      forall i ensures !OccursAt(s[1..], cut, i) {
        OccursDrop(s, cut, 1, i);
      }
      RemoveAllAbsent(s[1..], cut);
    }
  }

  /** If `cut` occurs at one place only, exactly that occurrence is taken out. */
  lemma {:induction false} RemoveAllUnique(s: string, cut: string, p: nat)
    requires cut != ""
    requires forall i :: OccursAt(s, cut, i) <==> i == p
    ensures p + |cut| <= |s|
    ensures RemoveAll(s, cut) == s[..p] + s[p + |cut|..]
    decreases |s|, 1
  {
    assert OccursAt(s, cut, p);
    assert s[0..] == s;
    if p == 0 {
      forall i ensures !OccursAt(s[|cut|..], cut, i) {
        OccursDrop(s, cut, |cut|, i);
      }
      RemoveAllAbsent(s[|cut|..], cut);
    } else {
      RemoveAllUniqueStep(s, cut, p);
    }
  }

  lemma {:induction false} RemoveAllUniqueStep(s: string, cut: string, p: nat)
    requires cut != "" && p > 0
    requires forall i :: OccursAt(s, cut, i) <==> i == p
    ensures p + |cut| <= |s|
    ensures RemoveAll(s, cut) == s[..p] + s[p + |cut|..]
    decreases |s|, 0
  {
    assert OccursAt(s, cut, p) && !OccursAt(s, cut, 0);
    assert s[0..] == s && !(cut <= s);
    var t := s[1..];
    forall i ensures OccursAt(t, cut, i) <==> i == p - 1 {
      OccursDrop(s, cut, 1, i);
    }
    hide OccursAt;
    RemoveAllUnique(t, cut, p - 1);
    assert s[..p] == [s[0]] + t[..p - 1];
    assert s[p + |cut|..] == t[p - 1 + |cut|..];
  }

  /** Deletion either finds nothing or shortens the text by at least one whole match. */
  lemma {:induction false} RemoveAllLength(s: string, cut: string)
    requires cut != ""
    ensures |RemoveAll(s, cut)| <= |s|
    ensures RemoveAll(s, cut) == s || |RemoveAll(s, cut)| + |cut| <= |s|
    decreases |s|
  {
    if s != "" {
      if cut <= s {
        RemoveAllLength(s[|cut|..], cut);
      } else {
        RemoveAllLength(s[1..], cut);
      }
    }
  }

  lemma ContainsHead(s: string, sub: string)
    requires s != ""
    ensures Contains(s, sub) <==> sub <= s || Contains(s[1..], sub)
  {
    assert s[0..] == s;
    assert OccursAt(s, sub, 0) <==> sub <= s;
    if Contains(s[1..], sub) {
      var i :| 0 <= i <= |s[1..]| && OccursAt(s[1..], sub, i);
      OccursDrop(s, sub, 1, i);
      assert OccursAt(s, sub, i + 1);
    }
    if Contains(s, sub) && !(sub <= s) {
      var i :| 0 <= i <= |s| && OccursAt(s, sub, i);
      OccursDrop(s, sub, 1, i - 1);
      assert OccursAt(s[1..], sub, i - 1);
    }
  }

  /** Deletion leaves the text alone exactly if there is nothing to delete. */
  lemma {:induction false} RemoveAllIff(s: string, cut: string)
    requires cut != ""
    ensures RemoveAll(s, cut) != s <==> Contains(s, cut)
    decreases |s|
  {
    if s == "" {
      assert !Contains(s, cut);
    } else {
      ContainsHead(s, cut);
      hide Contains;
      if cut <= s {
        RemoveAllLength(s[|cut|..], cut);
      } else {
        RemoveAllIff(s[1..], cut);
        assert RemoveAll(s, cut)[1..] == RemoveAll(s[1..], cut);
      }
    }
  }

  /** Text before the first match stays. */
  lemma {:induction false} RemoveAllPast(pre: string, rest: string, cut: string)
    requires cut != "" && forall i :: 0 <= i < |pre| ==> !OccursAt(pre + rest, cut, i)
    ensures RemoveAll(pre + rest, cut) == pre + RemoveAll(rest, cut)
    decreases |pre|
  {
    hide OccursAt;
    if pre == "" {
      assert pre + rest == rest;
    } else {
      NoneBefore(pre + rest, cut, |pre|);
      assert (pre + rest)[1..] == pre[1..] + rest;
      RemoveAllPast(pre[1..], rest, cut);
      assert pre == [pre[0]] + pre[1..];
      assert RemoveAll(pre + rest, cut) == [pre[0]] + (pre[1..] + RemoveAll(rest, cut));
    }
  }

  /** Deletion takes out the first match and goes on behind it, which with the case of no match
      determines it. */
  lemma RemoveAllFirst(pre: string, cut: string, rest: string)
    requires cut != "" && forall i :: 0 <= i < |pre| ==> !OccursAt(pre + (cut + rest), cut, i)
    ensures RemoveAll(pre + (cut + rest), cut) == pre + RemoveAll(rest, cut)
  {
    RemoveAllPast(pre, cut + rest, cut);
    assert (cut + rest)[..|cut|] == cut && (cut + rest)[|cut|..] == rest;
  }

  /** What is left of a text after at most one cut at its very beginning. */
  function CutFront(s: string, cut: string): string {
    if cut <= s then s[|cut|..] else s
  }

  /** Deletion cuts at the beginning only, exactly if there is no match in what that leaves. */
  lemma RemoveAllFront(s: string, cut: string)
    requires cut != ""
    ensures RemoveAll(s, cut) == CutFront(s, cut) <==> !Contains(CutFront(s, cut), cut)
  {
    hide Contains;
    RemoveAllIff(CutFront(s, cut), cut);
    if s == "" {
      assert !(cut <= s);
    }
  }

  // ---------------------------------------------------------------- the anchor

  /** Every occurrence of `word` in `pre + block + suf` lies inside `block`. */
  ghost predicate Confined(pre: string, block: string, suf: string, word: string) {
    forall i :: OccursAt(pre + block + suf, word, i) ==> |pre| <= i && i + |word| <= |pre| + |block|
  }

  lemma ConfinedByLines(pre: string, block: string, suf: string, word: string)
    requires NewlineFree(word) && StartsLine(block) && StartsLine(suf)
    requires !Contains(pre, word) && !Contains(suf, word)
    ensures Confined(pre, block, suf, word)
  {
    assert !OccursAt(pre, word, 0);
    forall i | OccursAt(pre + block + suf, word, i)
      ensures |pre| <= i && i + |word| <= |pre| + |block|
    {
      OccursSplit(pre + block, suf, word, i);
      assert !OccursAt(suf, word, i - |pre + block|);
      OccursSplit(pre, block, word, i);
      assert !OccursAt(pre, word, i);
    }
  }

  /** The least position at which `word` occurs. */
  lemma FirstOccurrence(s: string, word: string) returns (f: nat)
    requires Contains(s, word)
    ensures OccursAt(s, word, f)
    ensures forall i :: 0 <= i < f ==> !OccursAt(s, word, i)
  {
    var w :| 0 <= w <= |s| && OccursAt(s, word, w);
    f := 0;
    while !OccursAt(s, word, f)
      invariant f <= w
      invariant forall i :: 0 <= i < f ==> !OccursAt(s, word, i)
      decreases w - f
    {
      f := f + 1;
    }
  }

  /** A first occurrence found in a common head is the first occurrence of the whole. */
  lemma FirstInHead(head: string, block: string, word: string, f: nat)
    requires head <= block
    requires OccursAt(head, word, f)
    requires forall i :: 0 <= i < f ==> !OccursAt(head, word, i)
    ensures OccursAt(block, word, f)
    ensures forall i :: 0 <= i < f ==> !OccursAt(block, word, i)
  {
    var rest := block[|head|..];
    assert block == "" + head + rest;
    OccursInMiddle("", head, rest, word, f);
    forall i | 0 <= i < f ensures !OccursAt(block, word, i) {
      OccursInMiddle("", head, rest, word, i);
    }
  }

  lemma CountConfined(pre: string, block: string, suf: string, word: string)
    requires Confined(pre, block, suf, word)
    ensures Count(pre + block + suf, word) == Count(block, word)
  {
    var text := pre + block + suf;
    CountDrop(text, word, |pre|);
    assert text[|pre|..] == block + suf;
    forall i | OccursAt(block + suf, word, i) ensures i + |word| <= |block| {
      OccursDrop(text, word, |pre|, i);
    }
    CountAppend(block, suf, word);
  }

  /** What a match of `other` at `p` says about the mentions of `word` in the text. */
  lemma MatchCounts(text: string, other: string, word: string, p: nat)
    requires OccursAt(text, other, p)
    ensures forall j :: OccursAt(other, word, j) ==> OccursAt(text, word, p + j)
    ensures forall q :: p <= q && q + |word| <= p + |other| ==>
              OccursAt(text, word, q) == OccursAt(other, word, q - p)
    ensures (exists q :: 0 <= q < p && OccursAt(text, word, q)) ==> Count(text, word) > Count(other, word)
  {
    var after := text[p + |other|..];
    assert text == text[..p] + other + after;
    forall q ensures p <= q && q + |word| <= p + |other| ==>
              OccursAt(text, word, q) == OccursAt(other, word, q - p)
    {
      OccursInMiddle(text[..p], other, after, word, q);
    }
    assert forall j :: OccursAt(other, word, j) ==> OccursAt(text, word, p + j) by {
      forall j | OccursAt(other, word, j) ensures OccursAt(text, word, p + j) {
        OccursInMiddle(text[..p], other, after, word, p + j);
      }
    }
    CountDrop(text, word, p);
    assert text[p..] == other + after;
    CountAppend(other, after, word);
  }

  /** The counting argument. `block` is the only part of the text that mentions `word`, and
      `other` begins with the same head and mentions `word` at least as often. Then `other`
      can match the text only flush with `block`: any shift would have to fit all its mentions
      of `word` into fewer positions. */
  lemma Anchor(pre: string, block: string, suf: string, other: string, head: string, word: string, p: nat)
    requires head <= block && head <= other && Contains(head, word)
    requires Confined(pre, block, suf, word)
    requires Count(other, word) >= Count(block, word)
    requires OccursAt(pre + block + suf, other, p)
    ensures p == |pre|
  {
    var text := pre + block + suf;
    var f := FirstOccurrence(head, word);
    FirstInHead(head, block, word, f);
    FirstInHead(head, other, word, f);
    MatchCounts(text, other, word, p);
    CountConfined(pre, block, suf, word);
    OccursInMiddle(pre, block, suf, word, p + f);
    OccursInMiddle(pre, block, suf, word, |pre| + f);
    assert OccursAt(text, word, p + f) && OccursAt(text, word, |pre| + f);
  }

  /** Deleting an equally long `other` cuts out the confined block exactly, or does nothing. */
  lemma RemoveConfined(pre: string, block: string, suf: string, other: string, head: string, word: string)
    requires head <= block && head <= other && Contains(head, word)
    requires Confined(pre, block, suf, word)
    requires Count(other, word) == Count(block, word)
    requires |other| == |block| > 0
    ensures RemoveAll(pre + block + suf, other) ==
            if other == block then pre + suf else pre + block + suf
  {
    var text := pre + block + suf;
    forall p: int | OccursAt(text, other, p) ensures p == |pre| {
      Anchor(pre, block, suf, other, head, word, p);
    }
    assert text[|pre|..] == block + suf;
    assert (block + suf)[..|block|] == block;
    assert OccursAt(text, other, |pre|) <==> other == block;
    if other == block {
      RemoveAllUnique(text, other, |pre|);
      assert text[..|pre|] == pre && text[|pre| + |block|..] == suf;
    } else {
      RemoveAllAbsent(text, other);
    }
  }

  // ---------------------------------------------------------------- texts made of blocks

  /** Concatenation of blocks. */
  function Concat(blocks: seq<string>): string {
    if blocks == [] then "" else Concat(blocks[..|blocks| - 1]) + blocks[|blocks| - 1]
  }

  ghost predicate AllStartLine(blocks: seq<string>) {
    forall i :: 0 <= i < |blocks| ==> StartsLine(blocks[i])
  }

  lemma {:induction false} ConcatStartsLine(blocks: seq<string>)
    requires AllStartLine(blocks)
    ensures StartsLine(Concat(blocks))
  {
    if blocks != [] {
      ConcatStartsLine(blocks[..|blocks| - 1]);
    }
  }

  lemma {:induction false} ConcatAppend(a: seq<string>, b: seq<string>)
    ensures Concat(a + b) == Concat(a) + Concat(b)
    decreases |b|
  {
    if b == [] {
      assert a + b == a;
    } else {
      var front, last := b[..|b| - 1], b[|b| - 1];
      assert b == front + [last] && a + b == (a + front) + [last];
      ConcatSnoc(a + front, last);
      ConcatSnoc(front, last);
      ConcatAppend(a, front);
      hide Concat;
      assert (Concat(a) + Concat(front)) + [] == Concat(a) + Concat(front);
      Associate(Concat(a), Concat(front), last, "");
    }
  }

  lemma Associate(a: string, b: string, c: string, d: string)
    ensures a + (b + c + d) == (a + b) + c + d
  {
  }

  lemma ConcatSnoc(blocks: seq<string>, last: string)
    ensures Concat(blocks + [last]) == Concat(blocks) + last
  {
    assert (blocks + [last])[..|blocks + [last]| - 1] == blocks;
  }

  lemma ConcatThree(a: seq<string>, x: string, b: seq<string>)
    ensures Concat(a + [x] + b) == Concat(a) + x + Concat(b)
  {
    hide Concat;
    ConcatAppend(a + [x], b);
    ConcatSnoc(a, x);
  }

  lemma ConcatAt(blocks: seq<string>, j: nat)
    requires j < |blocks|
    ensures Concat(blocks) == Concat(blocks[..j]) + blocks[j] + Concat(blocks[j + 1..])
  {
    hide Concat;
    ConcatThree(blocks[..j], blocks[j], blocks[j + 1..]);
    assert blocks[..j] + [blocks[j]] + blocks[j + 1..] == blocks;
  }

  /** The text around block `j`, and the text without it. */
  lemma ConcatAround(base: string, blocks: seq<string>, j: nat)
    requires j < |blocks|
    ensures base + Concat(blocks) == (base + Concat(blocks[..j])) + blocks[j] + Concat(blocks[j + 1..])
    ensures base + Concat(blocks[..j] + blocks[j + 1..]) == (base + Concat(blocks[..j])) + Concat(blocks[j + 1..])
  {
    hide Concat;
    ConcatAt(blocks, j);
    ConcatAppend(blocks[..j], blocks[j + 1..]);
    var before, after := Concat(blocks[..j]), Concat(blocks[j + 1..]);
    Associate(base, before, blocks[j], after);
    Associate(base, before, "", after);
    assert before + "" == before && (base + before) + "" == base + before;
  }

  /** A newline-free word occurs in the text exactly if it occurs in the base or in a block. */
  lemma {:induction false} ContainsBlocks(base: string, blocks: seq<string>, word: string)
    requires AllStartLine(blocks) && NewlineFree(word)
    ensures Contains(base + Concat(blocks), word)
            <==> Contains(base, word) || exists i :: 0 <= i < |blocks| && Contains(blocks[i], word)
  {
    if blocks == [] {
      assert base + "" == base;
    } else {
      var front, last := blocks[..|blocks| - 1], blocks[|blocks| - 1];
      ContainsBlocks(base, front, word);
      ContainsConcat(base + Concat(front), last, word);
      assert base + Concat(blocks) == (base + Concat(front)) + last;
      assert forall i :: 0 <= i < |front| ==> front[i] == blocks[i];
    }
  }

  /** A word mentioned by block `j` only is confined to it. */
  lemma BlockConfined(base: string, blocks: seq<string>, j: nat, word: string)
    requires AllStartLine(blocks) && NewlineFree(word) && j < |blocks|
    requires !Contains(base, word)
    requires forall i :: 0 <= i < |blocks| && i != j ==> !Contains(blocks[i], word)
    ensures Confined(base + Concat(blocks[..j]), blocks[j], Concat(blocks[j + 1..]), word)
  {
    var before, after := blocks[..j], blocks[j + 1..];
    assert forall i :: 0 <= i < |before| ==> before[i] == blocks[i];
    assert forall i :: 0 <= i < |after| ==> after[i] == blocks[j + 1 + i];
    ContainsBlocks(base, before, word);
    ContainsBlocks("", after, word);
    assert "" + Concat(after) == Concat(after);
    assert !OccursAt(base, word, 0);
    ConcatStartsLine(after);
    ConfinedByLines(base + Concat(before), blocks[j], Concat(after), word);
  }
}
