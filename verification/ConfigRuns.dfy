/** Over whole runs of adds and removes, the configuration text is the base text followed by the
    blocks of the live runtimes in installation order. Every edit brings its own options. */
module ConfigRuns {
  import opened Strings
  import opened ShimNames
  import opened ContainerdConfig

  /** What one invocation writes or looks for: the runtime, the options it was given and the order in
      which it visited them. */
  datatype Entry = Entry(path: string, options: Options, order: seq<string>)

  datatype Edit = Add(entry: Entry) | Remove(entry: Entry)

  function EntryBlock(domain: string, e: Entry): string {
    Block(domain, e.path, e.options, e.order)
  }

  /** The blocks of a list of runtimes. */
  function Blocks(domain: string, live: seq<Entry>): (blocks: seq<string>)
    ensures |blocks| == |live|
    ensures forall i :: 0 <= i < |live| ==> blocks[i] == EntryBlock(domain, live[i])
  {
    seq(|live|, i requires 0 <= i < |live| => EntryBlock(domain, live[i]))
  }

  function Render(base: string, live: seq<Entry>): string {
    base + Concat(Blocks(Domain(base), live))
  }

  // ---------------------------------------------------------------- the plain list

  predicate Live(live: seq<Entry>, path: string) {
    exists i :: 0 <= i < |live| && live[i].path == path
  }

  function Drop(live: seq<Entry>, j: nat): (fewer: seq<Entry>)
    requires j < |live|
    ensures |fewer| == |live| - 1
    ensures forall i :: 0 <= i < j ==> fewer[i] == live[i]
    ensures forall i :: j <= i < |fewer| ==> fewer[i] == live[i + 1]
  {
    live[..j] + live[j + 1..]
  }

  /** Index of the entry for `path`, or the length of the list. */
  function Find(live: seq<Entry>, path: string): (j: nat)
    ensures j <= |live|
    ensures j < |live| ==> live[j].path == path
    ensures Live(live, path) ==> j < |live|
  {
    if live == [] then 0
    else if live[0].path == path then 0
    else
      assert forall i :: 0 <= i < |live[1..]| ==> live[1..][i] == live[i + 1];
      assert Live(live, path) ==> Live(live[1..], path) by {
        if i :| 0 <= i < |live| && live[i].path == path {
          assert live[1..][i - 1].path == path;
        }
      }
      1 + Find(live[1..], path)
  }

  /** One edit on the list: an add of a live runtime does nothing; a remove drops the entry exactly if
      it generates the block that was written for it. */
  function EditList(live: seq<Entry>, domain: string, e: Edit): seq<Entry> {
    var j := Find(live, e.entry.path);
    match e
    case Add(entry) => if j < |live| then live else live + [entry]
    case Remove(entry) =>
      if j < |live| && EntryBlock(domain, live[j]) == EntryBlock(domain, entry) then Drop(live, j) else live
  }

  function EditText(text: string, e: Edit): string {
    match e
    case Add(x) => AddText(text, x.path, x.options, x.order)
    case Remove(x) => RemoveText(text, x.path, x.options, x.order)
  }

  function RunList(live: seq<Entry>, domain: string, edits: seq<Edit>): seq<Entry>
    decreases |edits|
  {
    if edits == [] then live else RunList(EditList(live, domain, edits[0]), domain, edits[1..])
  }

  function RunText(text: string, edits: seq<Edit>): string
    decreases |edits|
  {
    if edits == [] then text else RunText(EditText(text, edits[0]), edits[1..])
  }

  // ---------------------------------------------------------------- what a run may contain

  /** Entries whose runtimes can be told apart in the text: no name occurs in the base or in the block
      of another runtime, and no block switches the plugin domain. */
  ghost predicate Separate(base: string, entries: set<Entry>) {
    && (forall e :: e in entries ==>
          IsOrder(e.options, e.order) && NewlineFree(NameOf(e.path)) && !Contains(base, NameOf(e.path)))
    && (Contains(base, VERSION_3) || forall e :: e in entries ==> !Contains(EntryBlock(Domain(base), e), VERSION_3))
    && (forall e, f :: e in entries && f in entries && e.path != f.path ==>
          !Contains(EntryBlock(Domain(base), f), NameOf(e.path)))
  }

  /** The runtime is one of those of the run. */
  ghost predicate Known(entries: set<Entry>, path: string) {
    exists e :: e in entries && e.path == path
  }

  /** What is added is one of the entries; a removal may come with any options. */
  ghost predicate ValidEdit(entries: set<Entry>, e: Edit) {
    match e
    case Add(x) => x in entries
    case Remove(x) => Known(entries, x.path) && IsOrder(x.options, x.order)
  }

  /** Live entries are entries of the run, one per runtime. */
  ghost predicate ValidList(entries: set<Entry>, live: seq<Entry>) {
    && (forall i :: 0 <= i < |live| ==> live[i] in entries)
    && (forall i, j :: 0 <= i < j < |live| ==> live[i].path != live[j].path)
  }

  // ---------------------------------------------------------------- reading a rendered text

  lemma BlocksStartLines(domain: string, live: seq<Entry>)
    ensures AllStartLine(Blocks(domain, live))
  {
    forall i | 0 <= i < |live| ensures StartsLine(Blocks(domain, live)[i]) {
      BlockShape(domain, live[i].path, live[i].options, live[i].order);
    }
  }

  lemma RenderedDomain(base: string, entries: set<Entry>, live: seq<Entry>)
    requires Separate(base, entries) && ValidList(entries, live)
    ensures Domain(Render(base, live)) == Domain(base)
  {
    hide EntryBlock, NameOf;
    var blocks := Blocks(Domain(base), live);
    BlocksStartLines(Domain(base), live);
    assert NewlineFree(VERSION_3);
    ContainsBlocks(base, blocks, VERSION_3);
    assert Contains(base, VERSION_3) || forall i :: 0 <= i < |live| ==> !Contains(blocks[i], VERSION_3);
  }

  /** A block of the run mentions a runtime of the run exactly if it is that runtime's block. */
  lemma BlockMentions(base: string, entries: set<Entry>, e: Entry, path: string)
    requires Separate(base, entries) && e in entries && Known(entries, path)
    ensures Contains(EntryBlock(Domain(base), e), NameOf(path)) <==> e.path == path
  {
    BlockShape(Domain(base), e.path, e.options, e.order);
    var f :| f in entries && f.path == path;
  }

  /** "Already configured" coincides with "live". */
  lemma RenderedMentions(base: string, entries: set<Entry>, live: seq<Entry>, path: string)
    requires Separate(base, entries) && ValidList(entries, live) && Known(entries, path)
    ensures Contains(Render(base, live), NameOf(path)) <==> Live(live, path)
  {
    hide EntryBlock, NameOf;
    var blocks := Blocks(Domain(base), live);
    BlocksStartLines(Domain(base), live);
    ContainsBlocks(base, blocks, NameOf(path));
    forall i | 0 <= i < |live|
      ensures Contains(blocks[i], NameOf(path)) <==> live[i].path == path
    {
      BlockMentions(base, entries, live[i], path);
    }
  }

  // ---------------------------------------------------------------- one edit

  lemma RenderAppend(base: string, live: seq<Entry>, e: Entry)
    ensures Render(base, live + [e]) == Render(base, live) + EntryBlock(Domain(base), e)
  {
    hide EntryBlock;
    var d := Domain(base);
    var blocks, longer := Blocks(d, live), Blocks(d, live + [e]);
    assert longer == blocks + [EntryBlock(d, e)];
    ConcatSnoc(blocks, EntryBlock(d, e));
  }

  lemma AddRefines(base: string, entries: set<Entry>, live: seq<Entry>, e: Entry)
    requires Separate(base, entries) && ValidList(entries, live) && e in entries
    ensures EditText(Render(base, live), Add(e)) == Render(base, EditList(live, Domain(base), Add(e)))
  {
    assert EntryBlock(Domain(base), e) == Block(Domain(base), e.path, e.options, e.order);
    hide Block, EntryBlock, NameOf;
    RenderedDomain(base, entries, live);
    RenderedMentions(base, entries, live, e.path);
    RenderAppend(base, live, e);
  }

  /** The name of live runtime `j` is confined to its own block. */
  lemma NameConfined(base: string, entries: set<Entry>, live: seq<Entry>, j: nat)
    requires Separate(base, entries) && ValidList(entries, live) && j < |live|
    ensures var blocks := Blocks(Domain(base), live);
            Confined(base + Concat(blocks[..j]), blocks[j], Concat(blocks[j + 1..]), NameOf(live[j].path))
  {
    hide EntryBlock, NameOf;
    var blocks := Blocks(Domain(base), live);
    BlocksStartLines(Domain(base), live);
    forall i | 0 <= i < |blocks| && i != j ensures !Contains(blocks[i], NameOf(live[j].path)) {
      BlockMentions(base, entries, live[i], live[j].path);
    }
    BlockConfined(base, blocks, j, NameOf(live[j].path));
  }

  lemma BlocksDrop(domain: string, live: seq<Entry>, j: nat)
    requires j < |live|
    ensures var blocks := Blocks(domain, live);
            Blocks(domain, Drop(live, j)) == blocks[..j] + blocks[j + 1..]
  {
    hide EntryBlock;
    var blocks := Blocks(domain, live);
    var fewer := Blocks(domain, Drop(live, j));
    assert fewer[..j] == blocks[..j];
    assert fewer[j..] == blocks[j + 1..];
    assert fewer == fewer[..j] + fewer[j..];
  }

  /** The text before, and after, the block of live runtime `j`. */
  function Before(base: string, live: seq<Entry>, j: nat): string
    requires j < |live|
  {
    base + Concat(Blocks(Domain(base), live)[..j])
  }

  function After(base: string, live: seq<Entry>, j: nat): string
    requires j < |live|
  {
    Concat(Blocks(Domain(base), live)[j + 1..])
  }

  lemma RenderDrop(base: string, live: seq<Entry>, j: nat)
    requires j < |live|
    ensures Render(base, live) == Before(base, live, j) + EntryBlock(Domain(base), live[j]) + After(base, live, j)
    ensures Render(base, Drop(live, j)) == Before(base, live, j) + After(base, live, j)
  {
    hide EntryBlock;
    var blocks := Blocks(Domain(base), live);
    ConcatAround(base, blocks, j);
    BlocksDrop(Domain(base), live, j);
  }

  lemma DropKeepsValid(entries: set<Entry>, live: seq<Entry>, j: nat)
    requires ValidList(entries, live) && j < |live|
    ensures ValidList(entries, Drop(live, j))
    ensures !Live(Drop(live, j), live[j].path)
  {
  }

  lemma EditKeepsValid(domain: string, entries: set<Entry>, live: seq<Entry>, e: Edit)
    requires ValidList(entries, live) && ValidEdit(entries, e)
    ensures ValidList(entries, EditList(live, domain, e))
  {
    hide EntryBlock;
    var j := Find(live, e.entry.path);
    if j < |live| {
      DropKeepsValid(entries, live, j);
    } else {
      assert !Live(live, e.entry.path);
    }
  }

  /** The removal generates another block than the live one, which nevertheless matches its front. */
  predicate Partial(base: string, live: seq<Entry>, j: nat, x: Entry)
    requires j < |live|
  {
    var block, other := EntryBlock(Domain(base), live[j]), EntryBlock(Domain(base), x);
    other != block && other <= block + After(base, live, j)
  }

  /** What a removal with whatever options does to a live runtime whose block has a single comment
      line, or was written with the same options: it cuts the generated block off the front of the
      live one. */
  lemma RemoveAtCuts(base: string, entries: set<Entry>, live: seq<Entry>, j: nat, x: Entry)
    requires Separate(base, entries) && ValidList(entries, live) && j < |live|
    requires x.path == live[j].path && IsOrder(x.options, x.order)
    requires Traceable(EntryBlock(Domain(base), live[j]), NameOf(x.path), live[j].options, x.options)
    ensures var block, other := EntryBlock(Domain(base), live[j]), EntryBlock(Domain(base), x);
            && other != ""
            && RemoveAll(Render(base, live), other)
               == Before(base, live, j) + CutFront(block + After(base, live, j), other)
  {
    hide NameOf, Before, After, Render, SoleComment, Head, Block;
    var d, name := Domain(base), NameOf(x.path);
    var block, other := EntryBlock(d, live[j]), EntryBlock(d, x);
    BlockShape(d, x.path, live[j].options, live[j].order);
    BlockOpens(d, x.path, x.options, x.order);
    BlockShape(d, x.path, x.options, x.order);
    BlockConfinedAt(base, entries, live, j);
    RenderDrop(base, live, j);
    hide Separate, ValidList, Confined;
    var pre, suf := Before(base, live, j), After(base, live, j);
    if live[j].options == x.options {
      RemoveAllOrNothing(pre, suf, d, x.path, x.options, live[j].order, x.order);
      BlockLength(d, x.path, x.options, live[j].order, x.order);
      SameLengthCut(pre, block, suf, other);
    } else {
      RemoveWithOther(pre, suf, block, other, name);
    }
  }

  lemma BlockConfinedAt(base: string, entries: set<Entry>, live: seq<Entry>, j: nat)
    requires Separate(base, entries) && ValidList(entries, live) && j < |live|
    ensures IsOrder(live[j].options, live[j].order) && NewlineFree(NameOf(live[j].path))
    ensures Confined(Before(base, live, j), EntryBlock(Domain(base), live[j]), After(base, live, j), NameOf(live[j].path))
  {
    NameConfined(base, entries, live, j);
  }

  /** That refines the list exactly if the match is not partial. */
  lemma RemoveAtIff(base: string, entries: set<Entry>, live: seq<Entry>, j: nat, x: Entry)
    requires Separate(base, entries) && ValidList(entries, live) && j < |live|
    requires x.path == live[j].path && IsOrder(x.options, x.order)
    requires Traceable(EntryBlock(Domain(base), live[j]), NameOf(x.path), live[j].options, x.options)
    ensures var block, other := EntryBlock(Domain(base), live[j]), EntryBlock(Domain(base), x);
            && other != ""
            && (RemoveAll(Render(base, live), other) == Render(base, if block == other then Drop(live, j) else live)
                <==> !Partial(base, live, j, x))
  {
    hide EntryBlock, NameOf, Before, After, Render, Separate, ValidList, Traceable;
    RemoveAtCuts(base, entries, live, j, x);
    RenderDrop(base, live, j);
    CutByBlock(Before(base, live, j), EntryBlock(Domain(base), live[j]), After(base, live, j), EntryBlock(Domain(base), x));
  }

  lemma SameLengthCut(pre: string, block: string, suf: string, other: string)
    requires |block| == |other|
    ensures pre + CutFront(block + suf, other) == if block == other then pre + suf else pre + block + suf
  {
    assert (block + suf)[..|other|] == block && (block + suf)[|other|..] == suf;
    assert pre + (block + suf) == pre + block + suf;
  }

  lemma CutByBlock(pre: string, block: string, suf: string, other: string)
    requires other != ""
    ensures pre + CutFront(block + suf, other) == (if block == other then pre + suf else pre + block + suf)
            <==> block == other || !(other <= block + suf)
  {
    assert pre + (block + suf) == pre + block + suf;
    if block == other {
      SameLengthCut(pre, block, suf, other);
    }
    assert |pre + CutFront(block + suf, other)| == |pre| + |CutFront(block + suf, other)|;
  }

  lemma CutGone(pre: string, block: string, suf: string, other: string)
    requires block != ""
    ensures pre + CutFront(block + suf, other) == pre + suf <==> block == other
  {
    var left := CutFront(block + suf, other);
    assert |pre + left| == |pre| + |left|;
    assert (block + suf)[..|block|] == block && (block + suf)[|block|..] == suf;
  }

  /** With whatever options, a removal takes out exactly the live runtime's block if and only if it
      generates that very block. */
  lemma RemoveClearsIff(base: string, entries: set<Entry>, live: seq<Entry>, j: nat, x: Entry)
    requires Separate(base, entries) && ValidList(entries, live) && j < |live|
    requires x.path == live[j].path && IsOrder(x.options, x.order)
    requires Traceable(EntryBlock(Domain(base), live[j]), NameOf(x.path), live[j].options, x.options)
    ensures EditText(Render(base, live), Remove(x)) == Render(base, Drop(live, j))
            <==> EntryBlock(Domain(base), live[j]) == EntryBlock(Domain(base), x)
  {
    assert EntryBlock(Domain(base), x) == Block(Domain(base), x.path, x.options, x.order);
    assert Known(entries, x.path) && Live(live, x.path);
    BlockShape(Domain(base), x.path, live[j].options, live[j].order);
    assert EntryBlock(Domain(base), live[j]) != "";
    RenderedDomain(base, entries, live);
    RenderedMentions(base, entries, live, x.path);
    RemoveAtCuts(base, entries, live, j, x);
    RenderDrop(base, live, j);
    hide Block, EntryBlock, Render, Before, After, Separate, ValidList, Traceable, NameOf;
    CutGone(Before(base, live, j), EntryBlock(Domain(base), live[j]), After(base, live, j), EntryBlock(Domain(base), x));
  }

  /** The same block: it goes, even where an option reads like its comment line. */
  lemma RemoveSame(base: string, entries: set<Entry>, live: seq<Entry>, j: nat, x: Entry)
    requires Separate(base, entries) && ValidList(entries, live) && j < |live|
    requires x.path == live[j].path && EntryBlock(Domain(base), live[j]) == EntryBlock(Domain(base), x)
    ensures var other := EntryBlock(Domain(base), x);
            other != "" && RemoveAll(Render(base, live), other) == Render(base, Drop(live, j))
  {
    var d, name := Domain(base), NameOf(x.path);
    BlockShape(d, x.path, live[j].options, live[j].order);
    NameConfined(base, entries, live, j);
    RenderDrop(base, live, j);
    var block := EntryBlock(d, live[j]);
    hide Block, EntryBlock, NameOf, Render, Confined, Head;
    RemoveConfined(Before(base, live, j), block, After(base, live, j), block, Head(name), name);
  }

  /** The removal leaves the text a rendering: it generates the live block, or a permutation of it, or
      one that does not match the front of a block with a single comment line. */
  ghost predicate Clean(base: string, live: seq<Entry>, e: Edit) {
    var j := Find(live, e.entry.path);
    e.Remove? && j < |live| ==>
      || EntryBlock(Domain(base), live[j]) == EntryBlock(Domain(base), e.entry)
      || live[j].options == e.entry.options
      || (SoleComment(EntryBlock(Domain(base), live[j]), NameOf(e.entry.path)) && !Partial(base, live, j, e.entry))
  }

  lemma RemoveRefines(base: string, entries: set<Entry>, live: seq<Entry>, x: Entry)
    requires Separate(base, entries) && ValidList(entries, live)
    requires Known(entries, x.path) && IsOrder(x.options, x.order) && Clean(base, live, Remove(x))
    ensures EditText(Render(base, live), Remove(x)) == Render(base, EditList(live, Domain(base), Remove(x)))
  {
    assert EntryBlock(Domain(base), x) == Block(Domain(base), x.path, x.options, x.order);
    hide Block, NameOf;
    RenderedDomain(base, entries, live);
    RenderedMentions(base, entries, live, x.path);
    var j := Find(live, x.path);
    if j < |live| {
      assert Live(live, x.path);
      if EntryBlock(Domain(base), live[j]) == EntryBlock(Domain(base), x) {
        RemoveSame(base, entries, live, j, x);
      } else {
        NotPartial(base, entries, live, j, x);
        RemoveAtIff(base, entries, live, j, x);
      }
    }
  }

  /** With the same options the two blocks are equally long, so a match is no partial one. */
  lemma NotPartial(base: string, entries: set<Entry>, live: seq<Entry>, j: nat, x: Entry)
    requires Separate(base, entries) && ValidList(entries, live) && j < |live|
    requires x.path == live[j].path && IsOrder(x.options, x.order)
    requires live[j].options == x.options || !Partial(base, live, j, x)
    ensures !Partial(base, live, j, x)
  {
    if live[j].options == x.options {
      BlockLength(Domain(base), x.path, x.options, live[j].order, x.order);
      hide Block;
      var block, other, suf := EntryBlock(Domain(base), live[j]), EntryBlock(Domain(base), x), After(base, live, j);
      assert (block + suf)[..|block|] == block;
    }
  }

  // ---------------------------------------------------------------- whole runs

  ghost predicate CleanRun(base: string, live: seq<Entry>, edits: seq<Edit>)
    decreases |edits|
  {
    edits != [] ==> Clean(base, live, edits[0]) && CleanRun(base, EditList(live, Domain(base), edits[0]), edits[1..])
  }

  /** Text refines list: for every run, with whatever options each edit is given, as long as no
      removal matches a live block only in part. */
  lemma {:induction false} TextRefinesList(base: string, entries: set<Entry>, live: seq<Entry>, edits: seq<Edit>)
    requires Separate(base, entries) && ValidList(entries, live) && CleanRun(base, live, edits)
    requires forall e :: e in edits ==> ValidEdit(entries, e)
    ensures RunText(Render(base, live), edits) == Render(base, RunList(live, Domain(base), edits))
    ensures ValidList(entries, RunList(live, Domain(base), edits))
    decreases |edits|
  {
    hide Separate, ValidList, Render, EditText, EditList, Clean;
    if edits != [] {
      var e := edits[0];
      assert e in edits && ValidEdit(entries, e);
      match e {
        case Add(x) => AddRefines(base, entries, live, x);
        case Remove(x) => RemoveRefines(base, entries, live, x);
      }
      EditKeepsValid(Domain(base), entries, live, e);
      TextRefinesList(base, entries, EditList(live, Domain(base), e), edits[1..]);
    }
  }

  /** Every removal of a live runtime generates the very block that was written for it. */
  ghost predicate FaithfulRun(domain: string, live: seq<Entry>, edits: seq<Edit>)
    decreases |edits|
  {
    edits != [] ==>
      && Faithful(domain, live, edits[0])
      && FaithfulRun(domain, EditList(live, domain, edits[0]), edits[1..])
  }

  ghost predicate Faithful(domain: string, live: seq<Entry>, e: Edit) {
    var j := Find(live, e.entry.path);
    e.Remove? && j < |live| ==> EntryBlock(domain, live[j]) == EntryBlock(domain, e.entry)
  }

  lemma {:induction false} FaithfulIsClean(base: string, live: seq<Entry>, edits: seq<Edit>)
    requires FaithfulRun(Domain(base), live, edits)
    ensures CleanRun(base, live, edits)
    decreases |edits|
  {
    hide EntryBlock, EditList, SoleComment, Partial;
    if edits != [] {
      FaithfulIsClean(base, EditList(live, Domain(base), edits[0]), edits[1..]);
    }
  }

  /** Whether the last edit that concerns `path` was an add. */
  function Wanted(edits: seq<Edit>, path: string, initially: bool): bool
    decreases |edits|
  {
    if edits == [] then initially
    else Wanted(edits[1..], path, if edits[0].entry.path == path then edits[0].Add? else initially)
  }

  lemma EditLive(domain: string, entries: set<Entry>, live: seq<Entry>, e: Edit, path: string)
    requires ValidList(entries, live) && Faithful(domain, live, e)
    ensures Live(EditList(live, domain, e), path)
            <==> if e.entry.path == path then e.Add? else Live(live, path)
  {
    hide EntryBlock;
    var j := Find(live, e.entry.path);
    match e {
      case Add(x) =>
        var longer := live + [x];
        assert longer[|live|].path == x.path;
        assert forall i :: 0 <= i < |live| ==> longer[i] == live[i];
      case Remove(x) =>
        if j < |live| {
          DropKeepsValid(entries, live, j);
          DropLive(live, j, path);
        }
    }
  }

  lemma DropLive(live: seq<Entry>, j: nat, path: string)
    requires j < |live|
    ensures live[j].path != path ==> (Live(Drop(live, j), path) <==> Live(live, path))
  {
    if i :| 0 <= i < |live| && live[i].path == path && i != j {
      assert Drop(live, j)[if i < j then i else i - 1].path == path;
    }
  }

  /** If every removal generates what was written, a runtime is live after a run exactly if its last
      edit was an add. */
  lemma {:induction false} LiveIffWanted(domain: string, entries: set<Entry>, live: seq<Entry>, edits: seq<Edit>, path: string)
    requires ValidList(entries, live) && FaithfulRun(domain, live, edits)
    requires forall e :: e in edits ==> ValidEdit(entries, e)
    ensures Live(RunList(live, domain, edits), path) <==> Wanted(edits, path, Live(live, path))
    decreases |edits|
  {
    hide EditList, Faithful, ValidList;
    if edits != [] {
      assert edits[0] in edits;
      EditLive(domain, entries, live, edits[0], path);
      EditKeepsValid(domain, entries, live, edits[0]);
      LiveIffWanted(domain, entries, EditList(live, domain, edits[0]), edits[1..], path);
    }
  }

  lemma EmptyRender(base: string)
    ensures Render(base, []) == base
  {
    assert Blocks(Domain(base), []) == [];
  }

  /** After any such run the text mentions exactly the wanted runtimes; if none is wanted, the text
      is the base again, byte for byte. */
  lemma RunOutcome(base: string, entries: set<Entry>, edits: seq<Edit>)
    requires Separate(base, entries) && FaithfulRun(Domain(base), [], edits)
    requires forall e :: e in edits ==> ValidEdit(entries, e)
    ensures forall e :: e in entries ==>
              (Contains(RunText(base, edits), NameOf(e.path)) <==> Wanted(edits, e.path, false))
    ensures (forall e :: e in entries ==> !Wanted(edits, e.path, false)) ==> RunText(base, edits) == base
  {
    var d := Domain(base);
    var live := RunList([], d, edits);
    EmptyRender(base);
    FaithfulIsClean(base, [], edits);
    TextRefinesList(base, entries, [], edits);
    hide NameOf, Render, RunList, RunText, Wanted, FaithfulRun, Separate;
    forall e | e in entries
      ensures Contains(RunText(base, edits), NameOf(e.path)) <==> Wanted(edits, e.path, false)
      ensures Live(live, e.path) <==> Wanted(edits, e.path, false)
    {
      LiveIffWanted(d, entries, [], edits, e.path);
      RenderedMentions(base, entries, live, e.path);
    }
    if live != [] {
      assert live[0] in entries && Live(live, live[0].path);
    }
  }

  // ---------------------------------------------------------------- runtimes that keep their options

  /** The runtime's own options, the same in every edit, at most one. */
  ghost predicate Steady(own: map<string, Options>, e: Entry) {
    && e.path in own && e.options == own[e.path] && |e.options| <= 1 && IsOrder(e.options, e.order)
  }

  lemma SteadyBlocks(own: map<string, Options>, domain: string, e: Entry, f: Entry)
    requires Steady(own, e) && Steady(own, f) && e.path == f.path
    ensures e == f && EntryBlock(domain, e) == EntryBlock(domain, f)
  {
    OneOrder(e.options, e.order, f.order);
  }

  /** If every runtime keeps its options, every run is faithful. */
  lemma {:induction false} SteadyIsFaithful(own: map<string, Options>, domain: string, live: seq<Entry>, edits: seq<Edit>)
    requires forall i :: 0 <= i < |live| ==> Steady(own, live[i])
    requires forall e :: e in edits ==> Steady(own, e.entry)
    ensures FaithfulRun(domain, live, edits)
    decreases |edits|
  {
    hide EntryBlock, Steady;
    if edits != [] {
      var e := edits[0];
      assert e in edits;
      var j := Find(live, e.entry.path);
      if j < |live| {
        SteadyBlocks(own, domain, live[j], e.entry);
      }
      SteadyIsFaithful(own, domain, EditList(live, domain, e), edits[1..]);
    }
  }

  // ---------------------------------------------------------------- where the conditions bite

  /** A runtime whose name is part of a configured runtime's name is taken for configured: its
      add writes nothing. */
  lemma AddSkipsPartOfName(text: string, path: string, part: string, options: Options, o1: seq<string>, later: Options, o2: seq<string>)
    requires Contains(NameOf(path), NameOf(part))
    ensures var after := AddText(text, path, options, o1);
            AddText(after, part, later, o2) == after
  {
    AddMentions(text, path, options, o1);
    ContainsTransitive(AddText(text, path, options, o1), NameOf(path), NameOf(part));
  }

  lemma OptionLinesDiffer(front: string, options: Options, o1: seq<string>, o2: seq<string>)
    requires |o1| > 0 && |o2| > 0 && o1[0] != "" && o2[0] != "" && o1[0][0] != o2[0][0]
    ensures front + OptionLines(options, o1) != front + OptionLines(options, o2)
  {
    var a, b := front + OptionLines(options, o1), front + OptionLines(options, o2);
    assert a[|front| + 1] == OptionLines(options, o1)[1] == o1[0][0];
    assert b[|front| + 1] == OptionLines(options, o2)[1] == o2[0][0];
  }

  /** When the removal regenerates the options in an order that reads differently, it reports a
      change and leaves the block behind. */
  lemma OrderBreaksRoundTrip(text: string, path: string, options: Options, o1: seq<string>, o2: seq<string>)
    requires NewlineFree(NameOf(path)) && !Contains(text, NameOf(path))
    requires IsOrder(options, o1) && IsOrder(options, o2)
    requires |o1| > 0 && |o2| > 0 && o1[0] != "" && o2[0] != "" && o1[0][0] != o2[0][0]
    ensures RemoveText(AddText(text, path, options, o1), path, options, o2) != text
  {
    AddRemoveRoundTrip(text, path, options, o1, options, o2);
    OptionLinesDiffer(Head(NameOf(path)) + Body(Domain(text), path, options), options, o1, o2);
  }

  const PAIR: Options := map["a" := "1", "b" := "2"]

  lemma PairOrders()
    ensures IsOrder(PAIR, ["a", "b"]) && IsOrder(PAIR, ["b", "a"])
  {
    assert PAIR.Keys == {"a", "b"};
    assert multiset(["a", "b"]) == multiset{"a", "b"} == multiset(["b", "a"]);
  }

  /** Two options are enough for that. */
  lemma TwoOptionsMayNotRoundTrip(path: string)
    requires NewlineFree(NameOf(path)) && NameOf(path) != ""
    ensures IsOrder(PAIR, ["a", "b"]) && IsOrder(PAIR, ["b", "a"])
    ensures RemoveText(AddText("", path, PAIR, ["a", "b"]), path, PAIR, ["b", "a"]) != ""
  {
    PairOrders();
    OrderBreaksRoundTrip("", path, PAIR, ["a", "b"], ["b", "a"]);
  }

  /** A block that itself contains `version = 3` switches the domain, so the removal looks for a
      different block and leaves this one behind. */
  lemma DomainSwitchBreaksRoundTrip(text: string, path: string, options: Options, o1: seq<string>, later: Options, o2: seq<string>)
    requires NewlineFree(NameOf(path)) && !Contains(text, NameOf(path)) && !Contains(text, VERSION_3)
    requires IsOrder(options, o1) && IsOrder(later, o2)
    requires Traceable(Block(Domain(text), path, options, o1), NameOf(path), options, later)
    requires Contains(NameOf(path), VERSION_3)
    ensures RemoveText(AddText(text, path, options, o1), path, later, o2) != text
  {
    AddRemoveRoundTrip(text, path, options, o1, later, o2);
    BlockShape(Domain(text), path, options, o1);
    ContainsTransitive(Block(Domain(text), path, options, o1), NameOf(path), VERSION_3);
  }

  const ONE: Options := map["a" := "1"]

  lemma ContainsChar(s: string, c: char)
    ensures Contains(s, [c]) ==> c in s
  {
    if i :| 0 <= i <= |s| && OccursAt(s, [c], i) {
      assert s[i..][0] == c;
    }
  }

  lemma NameOfZ()
    ensures NameOf("z") == "z"
  {
    assert "z"[..0] == "" && AfterSlash("") == 0;
    assert TrimSlashes("z") == "z" && AfterSlash("z") == 0;
  }

  lemma OneIsPlain()
    ensures IsOrder(ONE, ["a"]) && |ONE| == 1
    ensures SoleComment(Block(DOMAIN_V3, "z", ONE, ["a"]), "z")
  {
    NameOfZ();
    assert ONE.Keys == {"a"} && multiset(["a"]) == multiset{"a"};
    forall k | k in ONE ensures OptionLine(ONE, k) != CommentLine("z") {
      NoDecoy("z", ONE, k);
    }
    hide NameOf;
    SoleCommentByLines(DOMAIN_V3, "z", ONE, ["a"]);
  }

  lemma OnePart()
    ensures OptionPart(DOMAIN_V3, "z", ONE, ["a"]) == TableLine(DOMAIN_V3, "z", ".options") + "\na = 1"
  {
    NameOfZ();
    hide NameOf, TableLine;
    assert ["a"][1..] == [];
    assert OptionLine(ONE, "a") == "a = 1";
    assert OptionLines(ONE, ["a"]) == "\n" + "a = 1" + OptionLines(ONE, []);
    assert "\n" + "a = 1" + "" == "\na = 1";
  }

  lemma VersionText()
    ensures Contains(VERSION_3, VERSION_3) && !Contains(VERSION_3, "z")
  {
    assert VERSION_3[0..] == VERSION_3 && OccursAt(VERSION_3, VERSION_3, 0);
    assert 'z' !in VERSION_3;
    ContainsChar(VERSION_3, 'z');
    assert ['z'] == "z";
  }

  /** Dropping the one option of a runtime between add and removal leaves part of its block. */
  lemma OneOptionDropped()
    ensures RemoveText(AddText(VERSION_3, "z", ONE, ["a"]), "z", map[], [])
            == VERSION_3 + (TableLine(DOMAIN_V3, "z", ".options") + "\na = 1")
  {
    NameOfZ();
    OneIsPlain();
    OnePart();
    VersionText();
    hide NameOf, SoleComment, Contains, Block, TableLine, OptionPart, AddText, RemoveText;
    DroppedOptionsStay(VERSION_3, "z", ONE, ["a"], map[], []);
  }

  // ---------------------------------------------------------------- options that read like a block

  const DECOY_NAME := "a" + " = " + "b"

  /** Options whose lines repeat the block of the runtime `a = b`. */
  function DecoyOptions(domain: string): Options {
    map["# RCM runtime config for " + "a" := "b",
        "[plugins.\"" + domain + "\".containerd.runtimes." + "a" := "b" + "" + "]",
        "runtime_type" := "\"" + DECOY_NAME + "\"",
        "x" := "y"]
  }

  function DecoyOrder(domain: string): (order: seq<string>)
    ensures |order| == 4
  {
    ["# RCM runtime config for " + "a", "[plugins.\"" + domain + "\".containerd.runtimes." + "a", "runtime_type", "x"]
  }

  lemma DecoyName()
    ensures NameOf(DECOY_NAME) == DECOY_NAME
  {
    var p := DECOY_NAME;
    assert |p| == 5 && '/' !in p;
    assert TrimSlashes(p) == p;
    NoSlash(p);
    assert p[0..] == p;
    assert !(BINARY_PREFIX <= p);
  }

  lemma DecoyLines(domain: string)
    ensures var options := DecoyOptions(domain);
            && OptionLine(options, DecoyOrder(domain)[0]) == CommentLine(DECOY_NAME)
            && OptionLine(options, DecoyOrder(domain)[1]) == TableLine(domain, DECOY_NAME, "")
            && OptionLine(options, DecoyOrder(domain)[2]) == TypeLine(DECOY_NAME)
    ensures IsOrder(DecoyOptions(domain), DecoyOrder(domain)) && |DecoyOptions(domain)| > 0
  {
    var o := DecoyOrder(domain);
    assert o[0][0] == '#' && o[1][0] == '[' && o[2][0] == 'r' && o[3][0] == 'x';
    var options := DecoyOptions(domain);
    assert options.Keys == {o[0], o[1], o[2], o[3]};
    assert o[0] in options;
    assert multiset(o) == multiset{o[0], o[1], o[2], o[3]};
  }

  lemma {:induction false} JoinAppend(a: seq<string>, b: seq<string>)
    ensures JoinLines(a + b) == JoinLines(a) + JoinLines(b)
    decreases |a|
  {
    if a == [] {
      assert a + b == b;
    } else {
      assert (a + b)[0] == a[0] && (a + b)[1..] == a[1..] + b;
      JoinAppend(a[1..], b);
    }
  }

  /** A removal without options cuts twice where the options repeat the block: once at the front, and
      once in the middle of the options. */
  lemma DecoyCutTwice(domain: string)
    ensures var options, order := DecoyOptions(domain), DecoyOrder(domain);
            var block, other := Block(domain, DECOY_NAME, options, order), Block(domain, DECOY_NAME, map[], []);
            IsOrder(options, order) && other <= block && Contains(CutFront(block, other), other)
  {
    DecoyName();
    DecoyLines(domain);
    var options, order := DecoyOptions(domain), DecoyOrder(domain);
    var block, other := Block(domain, DECOY_NAME, options, order), Block(domain, DECOY_NAME, map[], []);
    BlockByLines(domain, DECOY_NAME, options, order);
    BlockByLines(domain, DECOY_NAME, map[], []);
    BlockWithoutOptions(domain, DECOY_NAME, options, order);
    var part := OptionPart(domain, DECOY_NAME, options, order);
    assert (other + part)[|other|..] == part && other <= other + part;
    DecoyPart(domain);
  }

  lemma DecoyPart(domain: string)
    ensures Contains(OptionPart(domain, DECOY_NAME, DecoyOptions(domain), DecoyOrder(domain)), Block(domain, DECOY_NAME, map[], []))
  {
    DecoyName();
    DecoyLines(domain);
    var options, order := DecoyOptions(domain), DecoyOrder(domain);
    hide NameOf, TableLine, TypeLine, CommentLine, OptionLine, DecoyOptions, DecoyOrder;
    var name := DECOY_NAME;
    var table, last := TableLine(domain, name, ".options"), OptionLine(options, order[3]);
    var front := [CommentLine(name), TableLine(domain, name, ""), TypeLine(name)];
    var lines := seq(|order|, i requires 0 <= i < |order| => OptionLine(options, order[i]));
    OptionLinesJoin(options, order);
    assert lines == front + [last];
    JoinAppend(front, [last]);
    BlockByLines(domain, name, map[], []);
    assert BlockLines(domain, name, map[], []) == front + [""];
    JoinAppend(front, [""]);
    var joined := JoinLines(front);
    assert JoinLines([last]) == "\n" + last && JoinLines([""]) == "\n";
    var other := Block(domain, name, map[], []);
    assert table + (joined + ("\n" + last)) == table + other + last;
    assert other[0..] == other && OccursAt(other, other, 0);
    ContainsInConcat(table, other, last, other);
  }
}
