/** The runtime blocks that the node installer writes into and cuts out of the containerd
    configuration text. */
module ContainerdConfig {
  import opened Strings
  import opened ShimNames

  const VERSION_3 := "version = 3"
  const DOMAIN_V2 := "io.containerd.grpc.v1.cri"
  const DOMAIN_V3 := "io.containerd.cri.v1.runtime"

  /** The plugin domain is chosen by looking for `version = 3` anywhere in the text. */
  function Domain(text: string): string {
    if Contains(text, VERSION_3) then DOMAIN_V3 else DOMAIN_V2
  }

  type Options = map<string, string>

  /** An order in which a range over the options map may visit its keys. */
  ghost predicate IsOrder(options: Options, order: seq<string>) {
    multiset(order) == multiset(options.Keys)
  }

  function OptionLine(options: Options, key: string): string {
    key + " = " + if key in options then options[key] else ""
  }

  function OptionLines(options: Options, order: seq<string>): string {
    if order == [] then "" else "\n" + OptionLine(options, order[0]) + OptionLines(options, order[1..])
  }

  /** The comment line, up to and including the runtime name. */
  function Head(name: string): string {
    "\n" + "# RCM runtime config for " + name
  }

  function TableLine(domain: string, name: string, table: string): string {
    "[plugins.\"" + domain + "\".containerd.runtimes." + name + table + "]"
  }

  function TypeLine(path: string): string {
    "runtime_type = \"" + path + "\""
  }

  /** Everything between the runtime name of the comment line and the option lines. */
  function Body(domain: string, path: string, options: Options): string {
    "\n" + TableLine(domain, NameOf(path), "") + "\n" + TypeLine(path) + "\n"
    + if |options| > 0 then TableLine(domain, NameOf(path), ".options") else ""
  }

  /** The block for one runtime, its options written in the given order. */
  function Block(domain: string, path: string, options: Options, order: seq<string>): string {
    Head(NameOf(path)) + Body(domain, path, options) + OptionLines(options, order)
  }

  lemma {:induction false} OptionLinesAppend(options: Options, order: seq<string>, key: string)
    ensures OptionLines(options, order + [key]) == OptionLines(options, order) + "\n" + OptionLine(options, key)
  {
    if order == [] {
      assert order + [key] == [key];
    } else {
      assert (order + [key])[1..] == order[1..] + [key];
      OptionLinesAppend(options, order[1..], key);
    }
  }

  /** Every options map has an order. */
  ghost function SomeOrder(options: Options): (order: seq<string>)
    ensures IsOrder(options, order)
  {
    OrderOf(options.Keys)
  }

  ghost function OrderOf(keys: set<string>): (order: seq<string>)
    ensures multiset(order) == multiset(keys)
    decreases keys
  {
    if keys == {} then [] else var k :| k in keys; OrderOf(keys - {k}) + [k]
  }

  lemma VisitKey(order: seq<string>, left: set<string>, key: string)
    requires key in left
    ensures multiset(order + [key]) + multiset(left - {key}) == multiset(order) + multiset(left)
  {
    assert multiset(left) == multiset(left - {key}) + multiset{key};
  }

  /** The loop of `generateConfig` over the options map: the keys come in an arbitrary order,
      which the caller does not control. */
  method AppendOptions(start: string, options: Options) returns (lines: string, order: seq<string>)
    ensures IsOrder(options, order)
    ensures lines == start + OptionLines(options, order)
  {
    lines, order := start, [];
    var left := options.Keys;
    while left != {}
      invariant multiset(order) + multiset(left) == multiset(options.Keys)
      invariant lines == start + OptionLines(options, order)
      decreases left
    {
      var key :| key in left;
      OptionLinesAppend(options, order, key);
      VisitKey(order, left, key);
      Associate(start, OptionLines(options, order), "\n", OptionLine(options, key));
      lines := lines + "\n" + OptionLine(options, key);
      order := order + [key];
      left := left - {key};
    }
  }

  /** `generateConfig`. */
  method GenerateConfig(path: string, options: Options, text: string) returns (cfg: string, order: seq<string>)
    ensures IsOrder(options, order)
    ensures cfg == Block(Domain(text), path, options, order)
    ensures Contains(cfg, "\n" + "runtime_type = \"" + path + "\"" + "\n")
    ensures var d := if Contains(text, "version = 3") then "io.containerd.cri.v1.runtime" else "io.containerd.grpc.v1.cri";
            Contains(cfg, "\n" + "[plugins.\"" + d + "\".containerd.runtimes." + NameOf(path) + "" + "]" + "\n")
  {
    var name := NameOf(path);
    var domain := DOMAIN_V2;
    if Contains(text, VERSION_3) {
      domain := DOMAIN_V3;
    }
    var body := "\n" + TableLine(domain, name, "") + "\n" + TypeLine(path) + "\n";
    if |options| > 0 {
      body := body + TableLine(domain, name, ".options");
    } else {
      assert options == map[];
      assert body + "" == body;
    }
    assert body == Body(domain, path, options);
    cfg, order := AppendOptions(Head(name) + body, options);
    BlockSays(text, path, options, order);
  }

  // ---------------------------------------------------------------- the two edits on the text

  /** Text after `AddRuntime`. */
  function AddText(text: string, path: string, options: Options, order: seq<string>): string {
    if Contains(text, NameOf(path)) then text
    else text + Block(Domain(text), path, options, order)
  }

  /** Text after `RemoveRuntime`. */
  function RemoveText(text: string, path: string, options: Options, order: seq<string>): string {
    if Contains(text, NameOf(path)) then RemoveAll(text, Block(Domain(text), path, options, order))
    else text
  }

  // ---------------------------------------------------------------- shape of a block

  /** Sum of a weight over a sequence; it depends on the multiset of elements only. */
  ghost function Sum(weight: string -> int, order: seq<string>): int {
    if order == [] then 0 else weight(order[0]) + Sum(weight, order[1..])
  }

  lemma {:induction false} SumRemove(weight: string -> int, order: seq<string>, j: nat)
    requires j < |order|
    ensures Sum(weight, order) == weight(order[j]) + Sum(weight, order[..j] + order[j + 1..])
  {
    if j == 0 {
      assert order[..0] + order[1..] == order[1..];
    } else {
      SumRemove(weight, order[1..], j - 1);
      var rest := order[..j] + order[j + 1..];
      assert rest[0] == order[0] && rest[1..] == order[1..][..j - 1] + order[1..][j..];
    }
  }

  lemma MultisetDrop(a: seq<string>, b: seq<string>, j: nat)
    requires multiset(a) == multiset(b) && a != [] && j < |b| && b[j] == a[0]
    ensures multiset(a[1..]) == multiset(b[..j] + b[j + 1..])
  {
    assert a == [a[0]] + a[1..];
    assert b == b[..j] + [b[j]] + b[j + 1..];
    assert multiset(b[..j] + b[j + 1..]) == multiset(b) - multiset{b[j]};
    assert multiset(a[1..]) == multiset(a) - multiset{a[0]};
  }

  lemma {:induction false} SumPermutation(weight: string -> int, a: seq<string>, b: seq<string>)
    requires multiset(a) == multiset(b)
    ensures Sum(weight, a) == Sum(weight, b)
    decreases |a|
  {
    assert |a| == |multiset(a)| == |multiset(b)| == |b|;
    if a != [] {
      assert a[0] in multiset(b);
      var j :| 0 <= j < |b| && b[j] == a[0];
      MultisetDrop(a, b, j);
      SumRemove(weight, b, j);
      SumPermutation(weight, a[1..], b[..j] + b[j + 1..]);
    }
  }

  lemma {:induction false} OptionLinesLength(options: Options, order: seq<string>)
    ensures |OptionLines(options, order)| == Sum(k => 1 + |OptionLine(options, k)|, order)
  {
    if order != [] {
      OptionLinesLength(options, order[1..]);
    }
  }

  ghost function Mentions(options: Options, word: string): string -> int {
    k => Count(OptionLine(options, k), word)
  }

  /** Mentions of a newline-free word in `start` followed by the option lines. */
  lemma {:induction false} OptionLinesCount(start: string, options: Options, order: seq<string>, word: string)
    requires NewlineFree(word)
    ensures Count(start + OptionLines(options, order), word)
            == Count(start, word) + Sum(Mentions(options, word), order)
    decreases |order|
  {
    if order == [] {
      assert start + OptionLines(options, order) == start;
    } else {
      var line := OptionLine(options, order[0]);
      var rest := OptionLines(options, order[1..]);
      assert start + OptionLines(options, order) == start + "\n" + (line + rest);
      CountLines(start, line + rest, word);
      OptionLinesCount(line, options, order[1..], word);
    }
  }

  lemma HeadMentionsName(name: string)
    ensures Contains(Head(name), name)
  {
    var a := "\n" + "# RCM runtime config for ";
    assert Head(name) == a + name + "";
    assert name[0..] == name;
    assert OccursAt(name, name, 0);
    ContainsInConcat(a, name, "", name);
  }

  lemma HeadStartsLine(name: string)
    ensures Head(name) != "" && Head(name)[0] == '\n'
  {
  }

  lemma BlockSplit(domain: string, path: string, options: Options, order: seq<string>)
    ensures Block(domain, path, options, order)
            == Head(NameOf(path)) + (Body(domain, path, options) + OptionLines(options, order))
  {
    hide Head, Body, OptionLines, NameOf;
  }

  /** A block opens a line, starts with its head and mentions its runtime. */
  lemma BlockShape(domain: string, path: string, options: Options, order: seq<string>)
    ensures Head(NameOf(path)) <= Block(domain, path, options, order)
    ensures StartsLine(Block(domain, path, options, order)) && Block(domain, path, options, order) != ""
    ensures Contains(Head(NameOf(path)), NameOf(path))
    ensures Contains(Block(domain, path, options, order), NameOf(path))
  {
    hide Block, Head, Body, OptionLines, NameOf;
    var head := Head(NameOf(path));
    BlockSplit(domain, path, options, order);
    HeadStartsLine(NameOf(path));
    HeadMentionsName(NameOf(path));
    ContainsAppend(head, Body(domain, path, options) + OptionLines(options, order), NameOf(path));
  }

  /** The order of the options does not change the length of the block. */
  lemma BlockLength(domain: string, path: string, options: Options, o1: seq<string>, o2: seq<string>)
    requires IsOrder(options, o1) && IsOrder(options, o2)
    ensures |Block(domain, path, options, o1)| == |Block(domain, path, options, o2)|
  {
    OptionLinesLength(options, o1);
    OptionLinesLength(options, o2);
    SumPermutation(k => 1 + |OptionLine(options, k)|, o1, o2);
  }

  /** Nor does it change how often a newline-free word is mentioned. */
  lemma BlockCount(domain: string, path: string, options: Options, o1: seq<string>, o2: seq<string>, word: string)
    requires IsOrder(options, o1) && IsOrder(options, o2) && NewlineFree(word)
    ensures Count(Block(domain, path, options, o1), word) == Count(Block(domain, path, options, o2), word)
  {
    CountByFront(Head(NameOf(path)) + Body(domain, path, options), options, o1, o2, word);
  }

  lemma CountByFront(front: string, options: Options, o1: seq<string>, o2: seq<string>, word: string)
    requires IsOrder(options, o1) && IsOrder(options, o2) && NewlineFree(word)
    ensures Count(front + OptionLines(options, o1), word) == Count(front + OptionLines(options, o2), word)
  {
    OptionLinesCount(front, options, o1, word);
    OptionLinesCount(front, options, o2, word);
    SumPermutation(Mentions(options, word), o1, o2);
  }

  /** After an add the text mentions the runtime, whether or not a block was written. */
  lemma AddMentions(text: string, path: string, options: Options, order: seq<string>)
    ensures Contains(AddText(text, path, options, order), NameOf(path))
  {
    if !Contains(text, NameOf(path)) {
      var block := Block(Domain(text), path, options, order);
      BlockShape(Domain(text), path, options, order);
      ContainsInConcat(text, block, "", NameOf(path));
      assert text + block + "" == text + block;
    }
  }

  /** Exactly when an add leaves the runtime configured, that is, its block in the text: when the
      name was not mentioned anywhere, or the mention came from that very block. */
  lemma AddConfiguresIff(text: string, path: string, options: Options, order: seq<string>)
    ensures var block := Block(Domain(text), path, options, order);
            Contains(AddText(text, path, options, order), block)
            <==> !Contains(text, NameOf(path)) || Contains(text, block)
  {
    hide Block, NameOf;
    if !Contains(text, NameOf(path)) {
      var block := Block(Domain(text), path, options, order);
      assert block[0..] == block && OccursAt(block, block, 0);
      ContainsInConcat(text, block, "", block);
      assert text + block + "" == text + block;
    }
  }

  // ---------------------------------------------------------------- removal is all or nothing

  /** If the runtime is mentioned only inside its own block, then whatever order the removal
      happens to generate, the text loses exactly that block or is left untouched. */
  lemma RemoveAllOrNothing(pre: string, suf: string, domain: string, path: string,
                           options: Options, added: seq<string>, removed: seq<string>)
    requires IsOrder(options, added) && IsOrder(options, removed)
    requires NewlineFree(NameOf(path))
    requires Confined(pre, Block(domain, path, options, added), suf, NameOf(path))
    ensures RemoveAll(pre + Block(domain, path, options, added) + suf, Block(domain, path, options, removed))
            == if Block(domain, path, options, removed) == Block(domain, path, options, added)
               then pre + suf
               else pre + Block(domain, path, options, added) + suf
  {
    hide Block, NameOf;
    var name := NameOf(path);
    BlockShape(domain, path, options, added);
    BlockShape(domain, path, options, removed);
    BlockLength(domain, path, options, added, removed);
    BlockCount(domain, path, options, added, removed, name);
    RemoveConfined(pre, Block(domain, path, options, added), suf,
                   Block(domain, path, options, removed), Head(name), name);
  }

  /** With at most one option there is only one order. */
  lemma OneOrder(options: Options, o1: seq<string>, o2: seq<string>)
    requires |options| <= 1 && IsOrder(options, o1) && IsOrder(options, o2)
    ensures o1 == o2
  {
    assert |o1| == |multiset(o1)| == |multiset(options.Keys)| == |options|;
    assert |o2| == |multiset(o2)| == |options|;
    if |o1| == 1 {
      assert o1 == [o1[0]] && o2 == [o2[0]];
      assert o1[0] in multiset(o1) && o1[0] in multiset(o2);
    }
  }

  // ---------------------------------------------------------------- removal with other options

  /** A line of the block, starting with the newline at `i`, is the runtime's comment line. */
  predicate CommentAt(block: string, name: string, i: int) {
    OccursAt(block, Head(name), i) && (i + |Head(name)| == |block| || block[i + |Head(name)|] == '\n')
  }

  /** The comment line comes only once in the block, as its first line. */
  predicate SoleComment(block: string, name: string) {
    forall i :: 0 <= i <= |block| && CommentAt(block, name, i) ==> i == 0
  }

  /** Any block of a runtime opens with its whole comment line. */
  lemma BlockOpens(domain: string, path: string, options: Options, order: seq<string>)
    ensures Head(NameOf(path)) + "\n" <= Block(domain, path, options, order)
  {
    hide Head, TableLine, TypeLine, OptionLines, NameOf;
    var head, rest := Head(NameOf(path)), Body(domain, path, options) + OptionLines(options, order);
    BlockSplit(domain, path, options, order);
    assert rest[0] == '\n';
    assert (head + rest)[..|head| + 1] == head + "\n";
  }

  /** No block of the runtime can match before its confined block. */
  lemma NotBefore(pre: string, block: string, suf: string, other: string, name: string, p: nat)
    requires Head(name) <= block && Head(name) <= other && Contains(Head(name), name)
    requires Confined(pre, block, suf, name) && OccursAt(pre + block + suf, other, p)
    ensures |pre| <= p && p + |Head(name)| <= |pre| + |block|
    ensures OccursAt(block, Head(name), p - |pre|)
  {
    var text, head := pre + block + suf, Head(name);
    var f := FirstOccurrence(head, name);
    FirstInHead(head, block, name, f);
    FirstInHead(head, other, name, f);
    MatchCounts(text, other, name, p);
    OccursInMiddle(pre, block, suf, name, p + f);
    assert OccursAt(text, name, p + f);
    var k := |head| - |name|;
    assert OccursAt(head, name, k) by {
      assert head[k..] == name;
    }
    OccursInMiddle("", head, other[|head|..], name, k);
    assert "" + head + other[|head|..] == other;
    assert OccursAt(other, name, k) && OccursAt(text, name, p + k);
    assert OccursAt(text, head, p) by {
      assert head <= other <= text[p..];
    }
    OccursInMiddle(pre, block, suf, head, p);
  }

  /** A match of another block of the runtime lies flush with the confined block if that has only
      one comment line. */
  lemma FlushByComment(pre: string, block: string, suf: string, other: string, name: string, p: nat)
    requires Head(name) <= block && Head(name) + "\n" <= other && Contains(Head(name), name)
    requires Confined(pre, block, suf, name) && OccursAt(pre + block + suf, other, p) && SoleComment(block, name)
    ensures p == |pre|
  {
    var text, head := pre + block + suf, Head(name);
    assert head <= head + "\n" <= other;
    NotBefore(pre, block, suf, other, name, p);
    hide Head, Confined;
    var i := p - |pre|;
    if i + |head| < |block| {
      assert block[i + |head|] == text[p + |head|] == other[|head|] == (head + "\n")[|head|];
    }
    assert CommentAt(block, name, i);
  }

  /** What a removal that generates any other block of the runtime does: it cuts at the front of the
      runtime's block and nowhere else, exactly if there is no further match in what remains. */
  lemma RemoveOtherIff(pre: string, suf: string, block: string, other: string, name: string)
    requires Head(name) <= block && Head(name) <= other && Contains(Head(name), name)
    requires Confined(pre, block, suf, name)
    ensures RemoveAll(pre + block + suf, other) == pre + RemoveAll(block + suf, other)
    ensures RemoveAll(pre + block + suf, other) == pre + CutFront(block + suf, other)
            <==> !Contains(CutFront(block + suf, other), other)
  {
    var rest := block + suf;
    assert pre + block + suf == pre + rest;
    assert other != "" by {
      HeadStartsLine(name);
    }
    forall i | 0 <= i < |pre| ensures !OccursAt(pre + rest, other, i) {
      if OccursAt(pre + rest, other, i) {
        NotBefore(pre, block, suf, other, name, i);
      }
    }
    hide OccursAt, Contains, Head, Confined, CutFront;
    RemoveAllPast(pre, rest, other);
    RemoveAllFront(rest, other);
    var a, b := RemoveAll(rest, other), CutFront(rest, other);
    assert (pre + a)[|pre|..] == a && (pre + b)[|pre|..] == b;
  }

  lemma NoFurtherMatch(pre: string, suf: string, block: string, other: string, name: string, i: nat)
    requires Head(name) <= block && Head(name) + "\n" <= other && Contains(Head(name), name)
    requires Confined(pre, block, suf, name) && SoleComment(block, name)
    ensures !OccursAt(CutFront(block + suf, other), other, i)
  {
    var text, rest := pre + block + suf, block + suf;
    var left, k := CutFront(rest, other), if other <= rest then |other| else 0;
    assert text == pre + rest && text[|pre| + k..] == rest[k..] == left;
    assert other[0..] == other && rest[0..] == rest;
    if OccursAt(left, other, i) {
      OccursDrop(text, other, |pre| + k, i);
      assert OccursAt(text, other, i + (|pre| + k));
      hide OccursAt, Contains, Head, Confined, SoleComment;
      FlushByComment(pre, block, suf, other, name, i + (|pre| + k));
    }
  }

  /** With a single comment line in the block, that is what happens: whatever options and domain the
      removal is given, it cuts its block off the front of the runtime's block, or does nothing. */
  lemma RemoveWithOther(pre: string, suf: string, block: string, other: string, name: string)
    requires Head(name) <= block && Head(name) + "\n" <= other && Contains(Head(name), name)
    requires Confined(pre, block, suf, name) && SoleComment(block, name)
    ensures RemoveAll(pre + block + suf, other) == pre + CutFront(block + suf, other)
  {
    hide OccursAt, Confined, SoleComment, CutFront;
    assert Head(name) <= Head(name) + "\n" <= other;
    RemoveOtherIff(pre, suf, block, other, name);
    forall i: nat ensures !OccursAt(CutFront(block + suf, other), other, i) {
      NoFurtherMatch(pre, suf, block, other, name, i);
    }
  }

  // ---------------------------------------------------------------- blocks line by line

  /** Every line with a newline before it. */
  function JoinLines(lines: seq<string>): string {
    if lines == [] then "" else "\n" + lines[0] + JoinLines(lines[1..])
  }

  /** A whole line found at `i` of joined lines is one of them, and the first one only at 0. */
  lemma {:induction false} LineAt(lines: seq<string>, line: string, i: nat) returns (k: nat)
    requires NewlineFree(line) && forall j :: 0 <= j < |lines| ==> NewlineFree(lines[j])
    requires OccursAt(JoinLines(lines), "\n" + line, i)
    requires i + 1 + |line| == |JoinLines(lines)| || JoinLines(lines)[i + 1 + |line|] == '\n'
    ensures k < |lines| && lines[k] == line && (k == 0 <==> i == 0)
    decreases |lines|
  {
    var text := JoinLines(lines);
    assert text[i..][0] == ("\n" + line)[0] == '\n';
    var first, rest := lines[0], JoinLines(lines[1..]);
    assert text == ("\n" + first) + rest;
    assert StartsLine(rest);
    if i == 0 {
      FirstLine(first, rest, line);
      k := 0;
    } else {
      assert text[i] == '\n' && forall j :: 1 <= j <= |first| ==> text[j] != '\n';
      var d := 1 + |first|;
      assert text[d..] == rest;
      OccursDrop(text, "\n" + line, d, i - d);
      assert forall j :: 0 <= j < |lines[1..]| ==> lines[1..][j] == lines[j + 1];
      assert i + 1 + |line| < |text| ==> rest[i - d + 1 + |line|] == text[i + 1 + |line|];
      var m := LineAt(lines[1..], line, i - d);
      k := m + 1;
    }
  }

  lemma FirstLine(first: string, rest: string, line: string)
    requires NewlineFree(first) && NewlineFree(line) && StartsLine(rest)
    requires var text := "\n" + first + rest;
             OccursAt(text, "\n" + line, 0) && (1 + |line| == |text| || text[1 + |line|] == '\n')
    ensures first == line
  {
    var text := "\n" + first + rest;
    assert text[0..] == text && ("\n" + line) <= text;
    assert forall j :: 0 <= j < |line| ==> line[j] == ("\n" + line)[j + 1] == text[j + 1];
    assert forall j :: 0 <= j < |first| ==> first[j] == text[j + 1];
    assert forall j :: 1 <= j <= |line| ==> text[j] != '\n';
    assert forall j :: 1 <= j <= |first| ==> text[j] != '\n';
    assert rest != "" ==> text[1 + |first|] == rest[0];
  }

  function CommentLine(name: string): string {
    "# RCM runtime config for " + name
  }

  /** The lines of a block. */
  function BlockLines(domain: string, path: string, options: Options, order: seq<string>): (lines: seq<string>)
    ensures |lines| == 4 + |order|
  {
    [CommentLine(NameOf(path)), TableLine(domain, NameOf(path), ""), TypeLine(path),
     if |options| > 0 then TableLine(domain, NameOf(path), ".options") else ""]
    + seq(|order|, i requires 0 <= i < |order| => OptionLine(options, order[i]))
  }

  lemma {:induction false} OptionLinesJoin(options: Options, order: seq<string>)
    ensures JoinLines(seq(|order|, i requires 0 <= i < |order| => OptionLine(options, order[i]))) == OptionLines(options, order)
  {
    if order != [] {
      OptionLinesJoin(options, order[1..]);
      var all := seq(|order|, i requires 0 <= i < |order| => OptionLine(options, order[i]));
      var tail := seq(|order[1..]|, i requires 0 <= i < |order[1..]| => OptionLine(options, order[1..][i]));
      assert all[1..] == tail;
    }
  }

  lemma JoinCons(line: string, rest: seq<string>)
    ensures JoinLines([line] + rest) == "\n" + line + JoinLines(rest)
  {
    assert ([line] + rest)[1..] == rest;
  }

  lemma JoinFour(a: string, b: string, c: string, d: string, rest: seq<string>)
    ensures JoinLines([a, b, c, d] + rest) == "\n" + a + ("\n" + b + ("\n" + c + ("\n" + d + JoinLines(rest))))
  {
    hide JoinLines;
    var three, two, one := [b] + ([c] + ([d] + rest)), [c] + ([d] + rest), [d] + rest;
    assert [a, b, c, d] + rest == [a] + three;
    JoinCons(a, three);
    JoinCons(b, two);
    JoinCons(c, one);
    JoinCons(d, rest);
  }

  lemma BlockByLines(domain: string, path: string, options: Options, order: seq<string>)
    ensures Block(domain, path, options, order) == JoinLines(BlockLines(domain, path, options, order))
  {
    OptionLinesJoin(options, order);
    hide TableLine, TypeLine, OptionLine, OptionLines, NameOf;
    var name := NameOf(path);
    JoinFour(CommentLine(name), TableLine(domain, name, ""), TypeLine(path),
             if |options| > 0 then TableLine(domain, name, ".options") else "",
             seq(|order|, i requires 0 <= i < |order| => OptionLine(options, order[i])));
  }

  /** Nothing that is written for the runtime breaks a line. */
  predicate PlainRuntime(domain: string, path: string, options: Options) {
    && NewlineFree(domain) && NewlineFree(path) && NewlineFree(NameOf(path))
    && forall k :: k in options ==> NewlineFree(k) && NewlineFree(options[k])
  }

  /** For newline-free names, paths and options the comment line is unique if no option line reads
      like it. */
  lemma SoleCommentByLines(domain: string, path: string, options: Options, order: seq<string>)
    requires PlainRuntime(domain, path, options) && IsOrder(options, order)
    requires forall k :: k in options ==> OptionLine(options, k) != CommentLine(NameOf(path))
    ensures SoleComment(Block(domain, path, options, order), NameOf(path))
  {
    var name, block, lines := NameOf(path), Block(domain, path, options, order), BlockLines(domain, path, options, order);
    BlockByLines(domain, path, options, order);
    PlainLines(domain, path, options, order);
    OtherLines(domain, path, options, order);
    hide Block, BlockLines, CommentLine, JoinLines, OptionLine, NameOf;
    SoleLine(block, lines, name);
  }

  lemma SoleLine(block: string, lines: seq<string>, name: string)
    requires block == JoinLines(lines) && forall j :: 0 <= j < |lines| ==> NewlineFree(lines[j])
    requires NewlineFree(CommentLine(name)) && forall j :: 1 <= j < |lines| ==> lines[j] != CommentLine(name)
    ensures SoleComment(block, name)
  {
    hide CommentLine, JoinLines, CommentAt, NewlineFree;
    forall i: nat | i <= |block| && CommentAt(block, name, i) ensures i == 0 {
      CommentIsLine(block, name, i);
      var k := LineAt(lines, CommentLine(name), i);
    }
  }

  lemma CommentIsLine(block: string, name: string, i: nat)
    requires CommentAt(block, name, i)
    ensures var n := 1 + |CommentLine(name)|;
            OccursAt(block, "\n" + CommentLine(name), i) && i + n <= |block| && (i + n == |block| || block[i + n] == '\n')
  {
    assert Head(name) == "\n" + CommentLine(name);
    hide CommentLine, Head;
  }

  lemma PlainLines(domain: string, path: string, options: Options, order: seq<string>)
    requires PlainRuntime(domain, path, options) && IsOrder(options, order)
    ensures forall j :: 0 <= j < 4 + |order| ==> NewlineFree(BlockLines(domain, path, options, order)[j])
    ensures NewlineFree(CommentLine(NameOf(path)))
  {
    hide NameOf;
    forall j | 0 <= j < |order| ensures NewlineFree(OptionLine(options, order[j])) {
      assert order[j] in multiset(order);
    }
  }

  /** Only an option line can read like the comment line. */
  lemma OtherLines(domain: string, path: string, options: Options, order: seq<string>)
    requires IsOrder(options, order)
    ensures forall j :: 1 <= j < 4 + |order| && BlockLines(domain, path, options, order)[j] == CommentLine(NameOf(path)) ==>
              j >= 4 && order[j - 4] in options && OptionLine(options, order[j - 4]) == CommentLine(NameOf(path))
  {
    hide OptionLine, NameOf, TableLine, TypeLine, CommentLine;
    FixedLines(domain, path);
    forall j | 0 <= j < |order| ensures order[j] in options {
      assert order[j] in multiset(order);
    }
  }

  lemma FixedLines(domain: string, path: string)
    ensures var name := NameOf(path);
            && TableLine(domain, name, "") != CommentLine(name) && TableLine(domain, name, ".options") != CommentLine(name)
            && TypeLine(path) != CommentLine(name) && CommentLine(name) != ""
  {
    hide NameOf;
    var name := NameOf(path);
    assert CommentLine(name)[0] == '#' && TypeLine(path)[0] == 'r';
    assert TableLine(domain, name, "")[0] == '[' && TableLine(domain, name, ".options")[0] == '[';
  }

  /** A name without an equals sign cannot be imitated by an option. */
  lemma NoDecoy(name: string, options: Options, key: string)
    requires '=' !in name
    ensures OptionLine(options, key) != CommentLine(name)
  {
    var line, comment, i := OptionLine(options, key), CommentLine(name), |key| + 1;
    assert line[i] == '=';
    assert i < |comment| ==> comment[i] != '=';
  }

  // ---------------------------------------------------------------- what a block says

  /** The plugin domain in use for a text: that of containerd 2 exactly if the text mentions
      `version = 3`. */
  lemma DomainOf(text: string)
    ensures Domain(text) == if Contains(text, "version = 3") then "io.containerd.cri.v1.runtime" else "io.containerd.grpc.v1.cri"
  {
  }

  lemma OccursItself(s: string)
    ensures Contains(s, s)
  {
    assert s[0..] == s && OccursAt(s, s, 0);
  }

  /** Every line is there, from its newline to the next. */
  lemma {:induction false} LinePresent(lines: seq<string>, k: nat)
    requires k < |lines|
    ensures Contains(JoinLines(lines), "\n" + lines[k])
    ensures k + 1 < |lines| ==> Contains(JoinLines(lines), "\n" + lines[k] + "\n")
  {
    hide Contains;
    var line, rest := "\n" + lines[0], JoinLines(lines[1..]);
    assert JoinLines(lines) == line + rest;
    if k == 0 {
      OccursItself(line);
      ContainsInConcat("", line, rest, line);
      assert "" + line + rest == line + rest;
      if 1 < |lines| {
        var more := rest[1..];
        assert rest == "\n" + more;
        OccursItself(line + "\n");
        ContainsInConcat("", line + "\n", more, line + "\n");
        assert "" + (line + "\n") + more == line + rest;
      }
    } else {
      LinePresent(lines[1..], k - 1);
      assert line + rest + "" == line + rest;
      ContainsInConcat(line, rest, "", "\n" + lines[k]);
      if k + 1 < |lines| {
        ContainsInConcat(line, rest, "", "\n" + lines[k] + "\n");
      }
    }
  }

  lemma FlatLine(a: string, b: string, c: string)
    ensures "\n" + (a + b + c) + "\n" == "\n" + a + b + c + "\n"
  {
  }

  lemma FlatTable(d: string, n: string, table: string)
    ensures "\n" + TableLine(d, n, table) + "\n" == "\n" + "[plugins.\"" + d + "\".containerd.runtimes." + n + table + "]" + "\n"
  {
    var a, b := "[plugins.\"" + d, "\".containerd.runtimes." + n + table + "]";
    assert TableLine(d, n, table) == a + b;
  }

  /** What every generated block tells containerd: under the runtime's table in the plugin domain of
      the text, the path of the shim binary, the whole path. */
  lemma BlockSays(text: string, path: string, options: Options, order: seq<string>)
    ensures var d := if Contains(text, "version = 3") then "io.containerd.cri.v1.runtime" else "io.containerd.grpc.v1.cri";
            var block := Block(Domain(text), path, options, order);
            && Contains(block, "\n" + "runtime_type = \"" + path + "\"" + "\n")
            && Contains(block, "\n" + "[plugins.\"" + d + "\".containerd.runtimes." + NameOf(path) + "" + "]" + "\n")
            && Contains(block, "\n" + ("# RCM runtime config for " + NameOf(path)) + "\n")
  {
    DomainOf(text);
    var d, n := Domain(text), NameOf(path);
    var lines := BlockLines(d, path, options, order);
    BlockByLines(d, path, options, order);
    assert lines[0] == "# RCM runtime config for " + n && lines[1] == TableLine(d, n, "");
    assert lines[2] == "runtime_type = \"" + path + "\"";
    hide Contains, Block, NameOf, Domain, BlockLines, JoinLines, TableLine;
    LinePresent(lines, 0);
    LinePresent(lines, 1);
    LinePresent(lines, 2);
    FlatTable(d, n, "");
    FlatLine("runtime_type = \"", path, "\"");
  }

  /** And with options: under the options table, every key with its value on a line of its own. */
  lemma BlockListsOptions(text: string, path: string, options: Options, order: seq<string>, key: string)
    requires IsOrder(options, order) && key in options
    ensures var block := Block(Domain(text), path, options, order);
            && Contains(block, "\n" + "[plugins.\"" + Domain(text) + "\".containerd.runtimes." + NameOf(path) + ".options" + "]" + "\n")
            && Contains(block, "\n" + (key + " = " + options[key]))
  {
    var d, n := Domain(text), NameOf(path);
    BlockByLines(d, path, options, order);
    assert key in multiset(order);
    var j :| 0 <= j < |order| && order[j] == key;
    OptionLineAt(d, path, options, order, j);
    hide Contains, Block, NameOf, Domain, BlockLines, JoinLines, TableLine;
    var lines := BlockLines(d, path, options, order);
    LinePresent(lines, 3);
    LinePresent(lines, 4 + j);
    FlatTable(d, n, ".options");
  }

  lemma OptionLineAt(d: string, path: string, options: Options, order: seq<string>, j: nat)
    requires j < |order| && order[j] in options
    ensures var lines := BlockLines(d, path, options, order);
            lines[4 + j] == order[j] + " = " + options[order[j]] && lines[3] == TableLine(d, NameOf(path), ".options")
  {
    hide NameOf, TableLine, TypeLine, CommentLine;
    assert options != map[];
  }

  /** Without options a block says nothing else. */
  lemma PlainBlock(domain: string, path: string)
    ensures Block(domain, path, map[], [])
            == JoinLines(["# RCM runtime config for " + NameOf(path),
                          "[plugins.\"" + domain + "\".containerd.runtimes." + NameOf(path) + "" + "]",
                          "runtime_type = \"" + path + "\"", ""])
  {
    BlockByLines(domain, path, map[], []);
    hide NameOf;
    var lines := BlockLines(domain, path, map[], []);
    assert lines == [lines[0], lines[1], lines[2], lines[3]];
  }

  /** Joined lines can be taken apart again. */
  lemma FirstLines(a: string, as_: seq<string>, b: string, bs: seq<string>)
    requires NewlineFree(a) && NewlineFree(b) && JoinLines([a] + as_) == JoinLines([b] + bs)
    ensures a == b && JoinLines(as_) == JoinLines(bs)
  {
    JoinCons(a, as_);
    JoinCons(b, bs);
    var ra, rb := JoinLines(as_), JoinLines(bs);
    assert StartsLine(ra) && StartsLine(rb);
    var text := "\n" + a + ra;
    assert text == "\n" + b + rb && text[0..] == text;
    assert ("\n" + b) + rb == text;
    assert "\n" + b <= text;
    assert 1 + |b| < |text| ==> text[1 + |b|] == (("\n" + b) + rb)[1 + |b|] == rb[0];
    hide JoinLines;
    FirstLine(a, ra, b);
    assert ("\n" + a + ra)[1 + |a|..] == ra && ("\n" + b + rb)[1 + |b|..] == rb;
  }

  /** Blocks of different paths are different, even where the runtime names are equal. */
  lemma PathsTellBlocksApart(domain: string, p: string, q: string, options: Options, o1: seq<string>, later: Options, o2: seq<string>)
    requires NewlineFree(domain) && NewlineFree(p) && NewlineFree(q) && p != q
    ensures Block(domain, p, options, o1) != Block(domain, q, later, o2)
  {
    NamePart(p);
    NamePart(q);
    BlockByLines(domain, p, options, o1);
    BlockByLines(domain, q, later, o2);
    var a, b := BlockLines(domain, p, options, o1), BlockLines(domain, q, later, o2);
    ThreeLines(domain, p, options, o1);
    ThreeLines(domain, q, later, o2);
    hide Block, BlockLines, NameOf, JoinLines, NewlineFree, TypeLine;
    if JoinLines(a) == JoinLines(b) {
      FirstLines(a[0], [a[1]] + ([a[2]] + a[3..]), b[0], [b[1]] + ([b[2]] + b[3..]));
      FirstLines(a[1], [a[2]] + a[3..], b[1], [b[2]] + b[3..]);
      FirstLines(a[2], a[3..], b[2], b[3..]);
      TypeLineSays(p, q);
    }
  }

  lemma {:induction false} TrimIsPrefix(p: string)
    ensures TrimSlashes(p) <= p
  {
    if p != "" && p[|p| - 1] == '/' {
      TrimIsPrefix(p[..|p| - 1]);
    }
  }

  /** A runtime name has no newline that its path does not have. */
  lemma NamePart(path: string)
    requires NewlineFree(path)
    ensures NewlineFree(NameOf(path))
  {
    TrimIsPrefix(path);
    assert NewlineFree(TrimSlashes(path));
    assert NewlineFree(Base(path));
  }

  lemma ThreeLines(domain: string, path: string, options: Options, order: seq<string>)
    requires NewlineFree(domain) && NewlineFree(path) && NewlineFree(NameOf(path))
    ensures var a := BlockLines(domain, path, options, order);
            && a == [a[0]] + ([a[1]] + ([a[2]] + a[3..])) && a[2] == TypeLine(path)
            && NewlineFree(a[0]) && NewlineFree(a[1]) && NewlineFree(a[2])
  {
    hide NameOf;
  }

  lemma TypeLineSays(p: string, q: string)
    requires TypeLine(p) == TypeLine(q)
    ensures p == q
  {
    assert TypeLine(p)[16..|TypeLine(p)| - 1] == p && TypeLine(q)[16..|TypeLine(q)| - 1] == q;
  }

  // ---------------------------------------------------------------- round trip

  lemma DomainAfterAdd(text: string, block: string)
    requires StartsLine(block)
    ensures Domain(text + block) == Domain(text) <==> Contains(text, VERSION_3) || !Contains(block, VERSION_3)
  {
    ContainsConcat(text, block, VERSION_3);
    assert |DOMAIN_V2| != |DOMAIN_V3|;
  }

  lemma BlockLengthByDomain(path: string, options: Options, o1: seq<string>, o2: seq<string>)
    requires IsOrder(options, o1) && IsOrder(options, o2)
    ensures |Block(DOMAIN_V3, path, options, o2)| > |Block(DOMAIN_V2, path, options, o1)|
  {
    OptionLinesLength(options, o1);
    OptionLinesLength(options, o2);
    SumPermutation(k => 1 + |OptionLine(options, k)|, o1, o2);
  }

  lemma BlockShowsDomain(domain: string, path: string, options: Options, order: seq<string>, i: nat)
    requires i < |domain|
    ensures var k := |Head(NameOf(path))| + 11 + i;
            k < |Block(domain, path, options, order)| && Block(domain, path, options, order)[k] == domain[i]
  {
    hide Head, TypeLine, OptionLines, NameOf;
    BlockSplit(domain, path, options, order);
    var table := "[plugins.\"" + domain + "\".containerd.runtimes." + NameOf(path) + "]";
    assert table == TableLine(domain, NameOf(path), "");
    assert |"[plugins.\""| == 10 && table[10 + i] == domain[i];
    var body := Body(domain, path, options);
    assert body[1 + 10 + i] == table[10 + i];
  }

  /** Blocks for different plugin domains never match each other at the front. */
  lemma DomainsNeverMatch(path: string, options: Options, o1: seq<string>, later: Options, o2: seq<string>)
    ensures !(Block(DOMAIN_V3, path, later, o2) <= Block(DOMAIN_V2, path, options, o1))
  {
    hide Head, Block, NameOf;
    BlockShowsDomain(DOMAIN_V3, path, later, o2, 14);
    BlockShowsDomain(DOMAIN_V2, path, options, o1, 14);
    assert DOMAIN_V3[14] == 'c' && DOMAIN_V2[14] == 'g';
  }

  /** The removal has the options of the add, or the block of the add has a single comment line. */
  predicate Traceable(block: string, name: string, options: Options, later: Options) {
    options == later || SoleComment(block, name)
  }

  /** If the add keeps the plugin domain, the removal cuts its own block off the front of the new one;
      with the options of the add that is all of it or nothing. */
  lemma RemoveAfterAdd(text: string, path: string, options: Options, added: seq<string>, later: Options, removed: seq<string>)
    requires IsOrder(options, added) && IsOrder(later, removed)
    requires NewlineFree(NameOf(path)) && !Contains(text, NameOf(path))
    requires Contains(text, VERSION_3) || !Contains(Block(Domain(text), path, options, added), VERSION_3)
    requires Traceable(Block(Domain(text), path, options, added), NameOf(path), options, later)
    ensures var block, other := Block(Domain(text), path, options, added), Block(Domain(text), path, later, removed);
            && RemoveText(AddText(text, path, options, added), path, later, removed) == text + CutFront(block, other)
            && (options == later ==> CutFront(block, other) == if block == other then "" else block)
  {
    hide Block, NameOf, SoleComment, Head;
    var name := NameOf(path);
    var block, other := Block(Domain(text), path, options, added), Block(Domain(text), path, later, removed);
    BlockShape(Domain(text), path, options, added);
    BlockOpens(Domain(text), path, later, removed);
    AddMentions(text, path, options, added);
    DomainAfterAdd(text, block);
    assert !OccursAt(text, name, 0);
    ConfinedByLines(text, block, "", name);
    assert text + block + "" == text + block && text + "" == text && block + "" == block;
    if options == later {
      RemoveAllOrNothing(text, "", Domain(text), path, options, added, removed);
      BlockLength(Domain(text), path, options, added, removed);
    } else {
      RemoveWithOther(text, "", block, other, name);
    }
  }

  /** Adding a runtime that the text does not mention and removing it again, whatever options each
      call is given, leaves the text followed by what the removal leaves of the block alone. If no
      option of the add imitates the block's comment line, or both calls have the same options, the
      text is restored byte for byte exactly when the block does not itself switch the plugin domain
      and the two calls generated the same block. */
  lemma AddRemoveRoundTrip(text: string, path: string, options: Options, added: seq<string>, later: Options, removed: seq<string>)
    requires IsOrder(options, added) && IsOrder(later, removed)
    requires NewlineFree(NameOf(path)) && !Contains(text, NameOf(path))
    ensures var block := Block(Domain(text), path, options, added);
            var other := Block(Domain(text + block), path, later, removed);
            && other != ""
            && RemoveText(AddText(text, path, options, added), path, later, removed) == text + RemoveAll(block, other)
            && (Traceable(block, NameOf(path), options, later) ==>
                  (RemoveText(AddText(text, path, options, added), path, later, removed) == text
                   <==> (Contains(text, VERSION_3) || !Contains(block, VERSION_3))
                        && block == Block(Domain(text), path, later, removed)))
  {
    hide Block, NameOf, SoleComment;
    var block := Block(Domain(text), path, options, added);
    RemoveLeaves(text, path, options, added, later, removed);
    if Traceable(block, NameOf(path), options, later) {
      if Contains(text, VERSION_3) || !Contains(block, VERSION_3) {
        BlockShape(Domain(text), path, options, added);
        RemoveAfterAdd(text, path, options, added, later, removed);
        BlockShape(Domain(text), path, later, removed);
        FrontGone(text, block, Block(Domain(text), path, later, removed));
      } else {
        SwitchKeepsBlock(text, path, options, added, later, removed);
      }
    }
  }

  lemma RemoveLeaves(text: string, path: string, options: Options, added: seq<string>, later: Options, removed: seq<string>)
    requires NewlineFree(NameOf(path)) && !Contains(text, NameOf(path))
    ensures var block := Block(Domain(text), path, options, added);
            var other := Block(Domain(text + block), path, later, removed);
            other != "" && RemoveText(AddText(text, path, options, added), path, later, removed) == text + RemoveAll(block, other)
  {
    hide Block, NameOf, Head;
    var block, name := Block(Domain(text), path, options, added), NameOf(path);
    var other := Block(Domain(text + block), path, later, removed);
    BlockShape(Domain(text), path, options, added);
    BlockShape(Domain(text + block), path, later, removed);
    AddMentions(text, path, options, added);
    assert !OccursAt(text, name, 0);
    ConfinedByLines(text, block, "", name);
    RemoveOtherIff(text, "", block, other, name);
    assert text + block + "" == text + block && block + "" == block;
  }

  lemma FrontGone(text: string, block: string, other: string)
    requires block != "" && other != ""
    ensures text + CutFront(block, other) == text <==> block == other
  {
    assert |text + CutFront(block, other)| == |text| + |CutFront(block, other)|;
    assert text + "" == text;
  }

  /** A block that switches the plugin domain is not restored, whatever the removal is given. */
  lemma SwitchKeepsBlock(text: string, path: string, options: Options, added: seq<string>, later: Options, removed: seq<string>)
    requires IsOrder(options, added) && IsOrder(later, removed)
    requires NewlineFree(NameOf(path)) && !Contains(text, NameOf(path))
    requires !Contains(text, VERSION_3) && Contains(Block(Domain(text), path, options, added), VERSION_3)
    requires Traceable(Block(Domain(text), path, options, added), NameOf(path), options, later)
    ensures RemoveText(AddText(text, path, options, added), path, later, removed) != text
  {
    hide Block, NameOf, SoleComment, Head;
    var block, name := Block(Domain(text), path, options, added), NameOf(path);
    BlockShape(Domain(text), path, options, added);
    AddMentions(text, path, options, added);
    DomainAfterAdd(text, block);
    var other := Block(Domain(text + block), path, later, removed);
    if options == later {
      BlockLengthByDomain(path, options, added, removed);
      BlockShape(Domain(text + block), path, later, removed);
      RemoveAllLength(text + block, other);
    } else {
      BlockOpens(Domain(text + block), path, later, removed);
      assert !OccursAt(text, name, 0);
      ConfinedByLines(text, block, "", name);
      assert text + block + "" == text + block && block + "" == block;
      RemoveWithOther(text, "", block, other, name);
      DomainsNeverMatch(path, options, added, later, removed);
    }
  }

  // ---------------------------------------------------------------- options that were given up

  /** The part of a block that its options add. */
  function OptionPart(domain: string, path: string, options: Options, order: seq<string>): string {
    if |options| > 0 then TableLine(domain, NameOf(path), ".options") + OptionLines(options, order) else ""
  }

  lemma BlockWithoutOptions(domain: string, path: string, options: Options, order: seq<string>)
    requires IsOrder(options, order)
    ensures Block(domain, path, options, order) == Block(domain, path, map[], []) + OptionPart(domain, path, options, order)
  {
    hide NameOf, Head, TableLine, TypeLine;
    if |options| == 0 {
      assert options == map[] && |multiset(order)| == 0;
    }
  }

  lemma OptionPartMentions(domain: string, path: string, options: Options, order: seq<string>)
    requires |options| > 0
    ensures Contains(OptionPart(domain, path, options, order), NameOf(path))
  {
    var name, a, c := NameOf(path), "[plugins.\"" + domain + "\".containerd.runtimes.", ".options" + "]" + OptionLines(options, order);
    hide NameOf, OptionLines;
    assert OptionPart(domain, path, options, order) == a + name + c;
    assert name[0..] == name && OccursAt(name, name, 0);
    ContainsInConcat(a, name, c, name);
  }

  /** Giving up the options between add and removal: the removal takes out the block without options
      and leaves the options behind. What is left still mentions the runtime, so no later add of it,
      with whatever options, writes anything. */
  lemma DroppedOptionsStay(text: string, path: string, options: Options, added: seq<string>, again: Options, order: seq<string>)
    requires IsOrder(options, added) && |options| > 0
    requires NewlineFree(NameOf(path)) && !Contains(text, NameOf(path))
    requires Contains(text, VERSION_3) || !Contains(Block(Domain(text), path, options, added), VERSION_3)
    requires SoleComment(Block(Domain(text), path, options, added), NameOf(path))
    ensures var left := RemoveText(AddText(text, path, options, added), path, map[], []);
            && left == text + OptionPart(Domain(text), path, options, added)
            && left != text && AddText(left, path, again, order) == left
  {
    hide Block, NameOf, SoleComment, OptionPart;
    RemoveAfterAdd(text, path, options, added, map[], []);
    BlockWithoutOptions(Domain(text), path, options, added);
    OptionPartMentions(Domain(text), path, options, added);
    var part := OptionPart(Domain(text), path, options, added);
    var plain := Block(Domain(text), path, map[], []);
    assert plain <= plain + part && (plain + part)[|plain|..] == part;
    ContainsInConcat(text, part, "", NameOf(path));
    assert text + part + "" == text + part;
  }
}
