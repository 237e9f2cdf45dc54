/** The two walks over a document's block tree: chart validation (pkg/appworker/render.go) and
    the search for a block by id (pkg/appworker/server.go). */
module BlockTrees {
  import opened Options

  // A block's modal, or a table row's; a plain row has none.
  datatype Modal = NoModal | Modal(blocks: seq<Block>)
  datatype Tab = Tab(blocks: seq<Block>)
  datatype Block = Block(id: string, typ: string, spec: string, modal: Modal, tabs: seq<Tab>, rows: seq<Modal>)

  datatype Site = InModal | InTab(j: nat) | InRow(j: nat)

  // Block `k` of a list, or something inside it.
  datatype Path = Here(k: nat) | Inside(k: nat, site: Site, path: Path)

  function BlocksOf(m: Modal): seq<Block> {
    if m.Modal? then m.blocks else []
  }

  // ------------------------------------------------------------------- chart validation

  // The place of the first chart found whose spec is not valid.
  function WalkBlocks(valid: string -> bool, bs: seq<Block>, k: nat): Option<Path>
    requires k <= |bs|
    decreases bs, |bs| - k, 0
  {
    if k == |bs| then None
    else
      var here := WalkBlock(valid, bs, k);
      if here.Some? then here else WalkBlocks(valid, bs, k + 1)
  }

  function WalkBlock(valid: string -> bool, bs: seq<Block>, k: nat): Option<Path>
    requires k < |bs|
    decreases bs, 0, |bs|
  {
    var b := bs[k];
    if b.typ == "chart" && !valid(b.spec) then Some(Here(k))
    else
      var inModal := if b.modal.Modal? then WalkBlocks(valid, b.modal.blocks, 0) else None;
      if inModal.Some? then Some(Inside(k, InModal, inModal.value))
      else if b.typ == "tabs" then WalkTabs(valid, b, k, 0)
      else if b.typ == "table" then WalkRows(valid, b, k, 0)
      else None
  }

  function WalkTabs(valid: string -> bool, b: Block, k: nat, j: nat): Option<Path>
    requires j <= |b.tabs|
    decreases b, |b.tabs| - j
  {
    if j == |b.tabs| then None
    else
      var here := WalkBlocks(valid, b.tabs[j].blocks, 0);
      if here.Some? then Some(Inside(k, InTab(j), here.value)) else WalkTabs(valid, b, k, j + 1)
  }

  function WalkRows(valid: string -> bool, b: Block, k: nat, j: nat): Option<Path>
    requires j <= |b.rows|
    decreases b, |b.rows| - j
  {
    if j == |b.rows| then None
    else
      var here := if b.rows[j].Modal? then WalkBlocks(valid, b.rows[j].blocks, 0) else None;
      if here.Some? then Some(Inside(k, InRow(j), here.value)) else WalkRows(valid, b, k, j + 1)
  }

  // A document is accepted when the walk reports nothing.
  predicate ChartsAccepted(valid: string -> bool, doc: seq<Block>) {
    WalkBlocks(valid, doc, 0).None?
  }

  // ---------------------------------------------------------------------- finding a block

  function SearchBlocks(bs: seq<Block>, k: nat, id: string): Option<Block>
    requires k <= |bs|
    decreases bs, |bs| - k, 0
  {
    if k == |bs| then None
    else
      var here := SearchBlock(bs, k, id);
      if here.Some? then here else SearchBlocks(bs, k + 1, id)
  }

  function SearchBlock(bs: seq<Block>, k: nat, id: string): Option<Block>
    requires k < |bs|
    decreases bs, 0, |bs|
  {
    var b := bs[k];
    if b.id == id then Some(b)
    else
      var inModal := if b.modal.Modal? then SearchBlocks(b.modal.blocks, 0, id) else None;
      if inModal.Some? then inModal
      else
        var inTabs := SearchTabs(b, 0, id);
        if inTabs.Some? then inTabs else SearchRows(b, 0, id)
  }

  function SearchTabs(b: Block, j: nat, id: string): Option<Block>
    requires j <= |b.tabs|
    decreases b, |b.tabs| - j
  {
    if j == |b.tabs| then None
    else
      var here := SearchBlocks(b.tabs[j].blocks, 0, id);
      if here.Some? then here else SearchTabs(b, j + 1, id)
  }

  function SearchRows(b: Block, j: nat, id: string): Option<Block>
    requires j <= |b.rows|
    decreases b, |b.rows| - j
  {
    if j == |b.rows| then None
    else
      var here := if b.rows[j].Modal? then SearchBlocks(b.rows[j].blocks, 0, id) else None;
      if here.Some? then here else SearchRows(b, j + 1, id)
  }

  function FindBlock(doc: seq<Block>, id: string): Option<Block> {
    SearchBlocks(doc, 0, id)
  }

  // ------------------------------------------------------------------ what can be reached

  // The block a path leads to.
  function BlockAt(bs: seq<Block>, p: Path): Option<Block>
    decreases p
  {
    if p.k >= |bs| then None
    else match p
      case Here(k) => Some(bs[k])
      case Inside(k, site, rest) =>
        match site
        case InModal => BlockAt(BlocksOf(bs[k].modal), rest)
        case InTab(j) => if j < |bs[k].tabs| then BlockAt(bs[k].tabs[j].blocks, rest) else None
        case InRow(j) => if j < |bs[k].rows| then BlockAt(BlocksOf(bs[k].rows[j]), rest) else None
  }

  // ----------------------------------------------------------------- document order

  datatype Located = Located(path: Path, block: Block)

  function Under(k: nat, site: Site, ls: seq<Located>): seq<Located> {
    if ls == [] then []
    else [Located(Inside(k, site, ls[0].path), ls[0].block)] + Under(k, site, ls[1..])
  }

  // Every block in document order; `gated`, only through tabs of "tabs" blocks and rows of
  // "table" blocks.
  function Listed(gated: bool, bs: seq<Block>, k: nat): seq<Located>
    requires k <= |bs|
    decreases bs, |bs| - k, 0
  {
    if k == |bs| then [] else ListedBlock(gated, bs, k) + Listed(gated, bs, k + 1)
  }

  function ListedBlock(gated: bool, bs: seq<Block>, k: nat): seq<Located>
    requires k < |bs|
    decreases bs, 0, |bs|
  {
    var b := bs[k];
    [Located(Here(k), b)]
    + (Under(k, InModal, if b.modal.Modal? then Listed(gated, b.modal.blocks, 0) else [])
       + ((if gated && b.typ != "tabs" then [] else ListedTabs(gated, b, k, 0))
          + (if gated && b.typ != "table" then [] else ListedRows(gated, b, k, 0))))
  }

  function ListedTabs(gated: bool, b: Block, k: nat, j: nat): seq<Located>
    requires j <= |b.tabs|
    decreases b, |b.tabs| - j
  {
    if j == |b.tabs| then []
    else Under(k, InTab(j), Listed(gated, b.tabs[j].blocks, 0)) + ListedTabs(gated, b, k, j + 1)
  }

  function ListedRows(gated: bool, b: Block, k: nat, j: nat): seq<Located>
    requires j <= |b.rows|
    decreases b, |b.rows| - j
  {
    if j == |b.rows| then []
    else
      Under(k, InRow(j), if b.rows[j].Modal? then Listed(gated, b.rows[j].blocks, 0) else [])
      + ListedRows(gated, b, k, j + 1)
  }

  // ------------------------------------------------- the walk reports the first bad chart

  predicate Bad(valid: string -> bool, b: Block) {
    b.typ == "chart" && !valid(b.spec)
  }

  function FirstBad(valid: string -> bool, ls: seq<Located>): Option<Path> {
    if ls == [] then None
    else if Bad(valid, ls[0].block) then Some(ls[0].path)
    else FirstBad(valid, ls[1..])
  }

  function OrElse<T>(a: Option<T>, b: Option<T>): Option<T> {
    if a.Some? then a else b
  }

  lemma {:induction false} FirstBadConcat(valid: string -> bool, a: seq<Located>, b: seq<Located>)
    ensures FirstBad(valid, a + b) == OrElse(FirstBad(valid, a), FirstBad(valid, b))
  {
    if a == [] {
      assert a + b == b;
    } else {
      assert (a + b)[1..] == a[1..] + b;
      FirstBadConcat(valid, a[1..], b);
    }
  }

  function Deeper(k: nat, site: Site, p: Option<Path>): Option<Path> {
    if p.None? then None else Some(Inside(k, site, p.value))
  }

  lemma {:induction false} FirstBadUnder(valid: string -> bool, k: nat, site: Site, ls: seq<Located>)
    ensures FirstBad(valid, Under(k, site, ls)) == Deeper(k, site, FirstBad(valid, ls))
  {
    if ls != [] {
      FirstBadUnder(valid, k, site, ls[1..]);
      assert Under(k, site, ls)[1..] == Under(k, site, ls[1..]);
    }
  }

  /** The walk reports the first bad chart in document order. */
  lemma {:induction false} WalkIsFirstBad(valid: string -> bool, bs: seq<Block>, k: nat)
    requires k <= |bs|
    ensures WalkBlocks(valid, bs, k) == FirstBad(valid, Listed(true, bs, k))
    decreases bs, |bs| - k, 0
  {
    hide FirstBad, WalkBlock, ListedBlock;
    if k == |bs| {
      NothingListed(valid, "");
    } else {
      WalkBlockIsFirstBad(valid, bs, k);
      WalkIsFirstBad(valid, bs, k + 1);
      FirstBadConcat(valid, ListedBlock(true, bs, k), Listed(true, bs, k + 1));
    }
  }

  lemma NothingListed(valid: string -> bool, id: string)
    ensures FirstBad(valid, []) == None && FirstWithId([], id) == None
  {
  }

  lemma WalkBlockIsFirstBad(valid: string -> bool, bs: seq<Block>, k: nat)
    requires k < |bs|
    ensures WalkBlock(valid, bs, k) == FirstBad(valid, ListedBlock(true, bs, k))
    decreases bs, 0, |bs|
  {
    hide FirstBad, WalkBlocks, WalkTabs, WalkRows, Listed, ListedTabs, ListedRows, Under;
    var b := bs[k];
    var self := [Located(Here(k), b)];
    var inner := if b.modal.Modal? then Listed(true, b.modal.blocks, 0) else [];
    var modal := Under(k, InModal, inner);
    var tabs := if b.typ != "tabs" then [] else ListedTabs(true, b, k, 0);
    var rows := if b.typ != "table" then [] else ListedRows(true, b, k, 0);
    NothingListed(valid, "");
    FirstBadOne(valid, self[0]);
    FirstBadConcat(valid, self, modal + (tabs + rows));
    FirstBadConcat(valid, modal, tabs + rows);
    FirstBadConcat(valid, tabs, rows);
    FirstBadUnder(valid, k, InModal, inner);
    if b.modal.Modal? {
      WalkIsFirstBad(valid, b.modal.blocks, 0);
    }
    WalkTabsIsFirstBad(valid, b, k, 0);
    WalkRowsIsFirstBad(valid, b, k, 0);
  }

  lemma FirstBadOne(valid: string -> bool, l: Located)
    ensures FirstBad(valid, [l]) == if Bad(valid, l.block) then Some(l.path) else None
  {
  }

  lemma {:induction false} WalkTabsIsFirstBad(valid: string -> bool, b: Block, k: nat, j: nat)
    requires j <= |b.tabs|
    ensures WalkTabs(valid, b, k, j) == FirstBad(valid, ListedTabs(true, b, k, j))
    decreases b, |b.tabs| - j
  {
    hide FirstBad, WalkBlocks, Listed, Under;
    if j == |b.tabs| {
      NothingListed(valid, "");
    } else {
      var inner := Listed(true, b.tabs[j].blocks, 0);
      WalkIsFirstBad(valid, b.tabs[j].blocks, 0);
      FirstBadUnder(valid, k, InTab(j), inner);
      WalkTabsIsFirstBad(valid, b, k, j + 1);
      FirstBadConcat(valid, Under(k, InTab(j), inner), ListedTabs(true, b, k, j + 1));
    }
  }

  lemma {:induction false} WalkRowsIsFirstBad(valid: string -> bool, b: Block, k: nat, j: nat)
    requires j <= |b.rows|
    ensures WalkRows(valid, b, k, j) == FirstBad(valid, ListedRows(true, b, k, j))
    decreases b, |b.rows| - j
  {
    hide FirstBad, WalkBlocks, Listed, Under;
    NothingListed(valid, "");
    if j < |b.rows| {
      var inner := if b.rows[j].Modal? then Listed(true, b.rows[j].blocks, 0) else [];
      if b.rows[j].Modal? {
        WalkIsFirstBad(valid, b.rows[j].blocks, 0);
      }
      FirstBadUnder(valid, k, InRow(j), inner);
      WalkRowsIsFirstBad(valid, b, k, j + 1);
      FirstBadConcat(valid, Under(k, InRow(j), inner), ListedRows(true, b, k, j + 1));
    }
  }

  // ------------------------------------------- the search returns the first block with the id

  function FirstWithId(ls: seq<Located>, id: string): Option<Block> {
    if ls == [] then None
    else if ls[0].block.id == id then Some(ls[0].block)
    else FirstWithId(ls[1..], id)
  }

  lemma {:induction false} FirstWithIdConcat(a: seq<Located>, b: seq<Located>, id: string)
    ensures FirstWithId(a + b, id) == OrElse(FirstWithId(a, id), FirstWithId(b, id))
  {
    if a == [] {
      assert a + b == b;
    } else {
      assert (a + b)[1..] == a[1..] + b;
      FirstWithIdConcat(a[1..], b, id);
    }
  }

  lemma {:induction false} FirstWithIdUnder(k: nat, site: Site, ls: seq<Located>, id: string)
    ensures FirstWithId(Under(k, site, ls), id) == FirstWithId(ls, id)
  {
    if ls != [] {
      FirstWithIdUnder(k, site, ls[1..], id);
      assert Under(k, site, ls)[1..] == Under(k, site, ls[1..]);
    }
  }

  /** The search returns the first block with the id in document order. */
  lemma {:induction false} SearchIsFirst(bs: seq<Block>, k: nat, id: string)
    requires k <= |bs|
    ensures SearchBlocks(bs, k, id) == FirstWithId(Listed(false, bs, k), id)
    decreases bs, |bs| - k, 0
  {
    hide FirstWithId, SearchBlock, ListedBlock;
    if k == |bs| {
      NothingListed(s => true, id);
    } else {
      SearchBlockIsFirst(bs, k, id);
      SearchIsFirst(bs, k + 1, id);
      FirstWithIdConcat(ListedBlock(false, bs, k), Listed(false, bs, k + 1), id);
    }
  }

  lemma SearchBlockIsFirst(bs: seq<Block>, k: nat, id: string)
    requires k < |bs|
    ensures SearchBlock(bs, k, id) == FirstWithId(ListedBlock(false, bs, k), id)
    decreases bs, 0, |bs|
  {
    hide FirstWithId, SearchBlocks, SearchTabs, SearchRows, Listed, ListedTabs, ListedRows, Under;
    var b := bs[k];
    var self := [Located(Here(k), b)];
    var inner := if b.modal.Modal? then Listed(false, b.modal.blocks, 0) else [];
    var modal := Under(k, InModal, inner);
    var tabs, rows := ListedTabs(false, b, k, 0), ListedRows(false, b, k, 0);
    NothingListed(s => true, id);
    FirstWithIdOne(self[0], id);
    FirstWithIdConcat(self, modal + (tabs + rows), id);
    FirstWithIdConcat(modal, tabs + rows, id);
    FirstWithIdConcat(tabs, rows, id);
    FirstWithIdUnder(k, InModal, inner, id);
    if b.modal.Modal? {
      SearchIsFirst(b.modal.blocks, 0, id);
    }
    SearchTabsIsFirst(b, k, 0, id);
    SearchRowsIsFirst(b, k, 0, id);
  }

  lemma FirstWithIdOne(l: Located, id: string)
    ensures FirstWithId([l], id) == if l.block.id == id then Some(l.block) else None
  {
  }

  lemma {:induction false} SearchTabsIsFirst(b: Block, k: nat, j: nat, id: string)
    requires j <= |b.tabs|
    ensures SearchTabs(b, j, id) == FirstWithId(ListedTabs(false, b, k, j), id)
    decreases b, |b.tabs| - j
  {
    hide FirstWithId, SearchBlocks, Listed, Under;
    if j == |b.tabs| {
      NothingListed(s => true, id);
    } else {
      var inner := Listed(false, b.tabs[j].blocks, 0);
      SearchIsFirst(b.tabs[j].blocks, 0, id);
      FirstWithIdUnder(k, InTab(j), inner, id);
      SearchTabsIsFirst(b, k, j + 1, id);
      FirstWithIdConcat(Under(k, InTab(j), inner), ListedTabs(false, b, k, j + 1), id);
    }
  }

  lemma {:induction false} SearchRowsIsFirst(b: Block, k: nat, j: nat, id: string)
    requires j <= |b.rows|
    ensures SearchRows(b, j, id) == FirstWithId(ListedRows(false, b, k, j), id)
    decreases b, |b.rows| - j
  {
    hide FirstWithId, SearchBlocks, Listed, Under;
    NothingListed(s => true, id);
    if j < |b.rows| {
      var inner := if b.rows[j].Modal? then Listed(false, b.rows[j].blocks, 0) else [];
      if b.rows[j].Modal? {
        SearchIsFirst(b.rows[j].blocks, 0, id);
      }
      FirstWithIdUnder(k, InRow(j), inner, id);
      SearchRowsIsFirst(b, k, j + 1, id);
      FirstWithIdConcat(Under(k, InRow(j), inner), ListedRows(false, b, k, j + 1), id);
    }
  }

  // -------------------------------------------------------- listed is what a path leads to

  lemma {:induction false} ListedUnder(k: nat, site: Site, ls: seq<Located>, p: Path, b: Block)
    ensures Located(p, b) in Under(k, site, ls) <==>
      p.Inside? && p.k == k && p.site == site && Located(p.path, b) in ls
  {
    if ls != [] {
      ListedUnder(k, site, ls[1..], p, b);
      assert ls == [ls[0]] + ls[1..];
      InConcat(ls[..1], ls[1..], if p.Inside? then Located(p.path, b) else ls[0]);
    }
  }

  lemma InConcat(a: seq<Located>, b: seq<Located>, l: Located)
    ensures l in a + b <==> l in a || l in b
  {
  }

  /** A block is listed exactly where a path leads to it. */
  lemma {:induction false} ListedIsReached(bs: seq<Block>, k: nat, p: Path, b: Block)
    requires k <= |bs|
    ensures Located(p, b) in Listed(false, bs, k) <==> p.k >= k && BlockAt(bs, p) == Some(b)
    decreases bs, |bs| - k, 0
  {
    hide ListedBlock;
    if k < |bs| {
      ListedBlockIsReached(bs, k, p, b);
      ListedIsReached(bs, k + 1, p, b);
      InConcat(ListedBlock(false, bs, k), Listed(false, bs, k + 1), Located(p, b));
    }
  }

  lemma ListedBlockIsReached(bs: seq<Block>, k: nat, p: Path, b: Block)
    requires k < |bs|
    ensures Located(p, b) in ListedBlock(false, bs, k) <==> p.k == k && BlockAt(bs, p) == Some(b)
    decreases bs, 0, |bs|
  {
    hide Listed, ListedTabs, ListedRows, Under;
    var c, l := bs[k], Located(p, b);
    var inner := if c.modal.Modal? then Listed(false, c.modal.blocks, 0) else [];
    var self, modal := [Located(Here(k), c)], Under(k, InModal, inner);
    var tabs, rows := ListedTabs(false, c, k, 0), ListedRows(false, c, k, 0);
    InConcat(self, modal + (tabs + rows), l);
    InConcat(modal, tabs + rows, l);
    InConcat(tabs, rows, l);
    ListedUnder(k, InModal, inner, p, b);
    if c.modal.Modal? && p.Inside? {
      ListedIsReached(c.modal.blocks, 0, p.path, b);
    }
    ListedTabsIsReached(c, k, 0, p, b);
    ListedRowsIsReached(c, k, 0, p, b);
  }

  lemma {:induction false} ListedTabsIsReached(c: Block, k: nat, j: nat, p: Path, b: Block)
    requires j <= |c.tabs|
    ensures Located(p, b) in ListedTabs(false, c, k, j) <==>
      p.Inside? && p.k == k && p.site.InTab? && j <= p.site.j < |c.tabs|
      && BlockAt(c.tabs[p.site.j].blocks, p.path) == Some(b)
    decreases c, |c.tabs| - j
  {
    hide Listed, Under, BlockAt;
    if j < |c.tabs| {
      var inner := Listed(false, c.tabs[j].blocks, 0);
      ListedUnder(k, InTab(j), inner, p, b);
      if p.Inside? {
        ListedIsReached(c.tabs[j].blocks, 0, p.path, b);
      }
      ListedTabsIsReached(c, k, j + 1, p, b);
      InConcat(Under(k, InTab(j), inner), ListedTabs(false, c, k, j + 1), Located(p, b));
    }
  }

  lemma {:induction false} ListedRowsIsReached(c: Block, k: nat, j: nat, p: Path, b: Block)
    requires j <= |c.rows|
    ensures Located(p, b) in ListedRows(false, c, k, j) <==>
      p.Inside? && p.k == k && p.site.InRow? && j <= p.site.j < |c.rows|
      && BlockAt(BlocksOf(c.rows[p.site.j]), p.path) == Some(b)
    decreases c, |c.rows| - j
  {
    hide Listed, Under, BlockAt;
    if j < |c.rows| {
      var inner := if c.rows[j].Modal? then Listed(false, c.rows[j].blocks, 0) else [];
      ListedUnder(k, InRow(j), inner, p, b);
      if p.Inside? {
        NothingAt(p.path);
        if c.rows[j].Modal? {
          ListedIsReached(c.rows[j].blocks, 0, p.path, b);
        }
      }
      ListedRowsIsReached(c, k, j + 1, p, b);
      InConcat(Under(k, InRow(j), inner), ListedRows(false, c, k, j + 1), Located(p, b));
    }
  }

  lemma NothingAt(p: Path)
    ensures BlockAt([], p) == None
  {
  }

  // ------------------------------------------------------------- when both walks agree

  // Only blocks of those types have tabs and rows.
  predicate WellPlaced(b: Block) {
    (b.typ != "tabs" ==> b.tabs == []) && (b.typ != "table" ==> b.rows == [])
  }

  predicate AllWellPlaced(ls: seq<Located>) {
    forall i :: 0 <= i < |ls| ==> WellPlaced(ls[i].block)
  }

  lemma PlacedConcat(a: seq<Located>, b: seq<Located>)
    requires AllWellPlaced(a + b)
    ensures AllWellPlaced(a) && AllWellPlaced(b)
  {
    assert forall i :: 0 <= i < |a| ==> (a + b)[i] == a[i];
    assert forall i :: 0 <= i < |b| ==> (a + b)[|a| + i] == b[i];
  }

  lemma {:induction false} PlacedUnder(k: nat, site: Site, ls: seq<Located>)
    requires AllWellPlaced(Under(k, site, ls))
    ensures AllWellPlaced(ls)
  {
    if ls != [] {
      assert Under(k, site, ls)[1..] == Under(k, site, ls[1..]);
      PlacedUnder(k, site, ls[1..]);
      assert Under(k, site, ls)[0].block == ls[0].block;
      assert ls == [ls[0]] + ls[1..];
    }
  }

  lemma {:induction false} GateIsOpen(bs: seq<Block>, k: nat)
    requires k <= |bs| && AllWellPlaced(Listed(false, bs, k))
    ensures Listed(true, bs, k) == Listed(false, bs, k)
    decreases bs, |bs| - k, 0
  {
    hide ListedBlock, AllWellPlaced;
    if k < |bs| {
      PlacedConcat(ListedBlock(false, bs, k), Listed(false, bs, k + 1));
      GateIsOpenBlock(bs, k);
      GateIsOpen(bs, k + 1);
    }
  }

  lemma GateIsOpenBlock(bs: seq<Block>, k: nat)
    requires k < |bs| && AllWellPlaced(ListedBlock(false, bs, k))
    ensures ListedBlock(true, bs, k) == ListedBlock(false, bs, k)
    decreases bs, 0, |bs|
  {
    hide Listed, Under;
    var b := bs[k];
    var inner := if b.modal.Modal? then Listed(false, b.modal.blocks, 0) else [];
    var self, modal := [Located(Here(k), b)], Under(k, InModal, inner);
    var tabs, rows := ListedTabs(false, b, k, 0), ListedRows(false, b, k, 0);
    PlacedConcat(self, modal + (tabs + rows));
    PlacedConcat(modal, tabs + rows);
    PlacedConcat(tabs, rows);
    assert WellPlaced(self[0].block);
    if b.modal.Modal? {
      PlacedUnder(k, InModal, inner);
      GateIsOpen(b.modal.blocks, 0);
    }
    GateIsOpenTabs(b, k, 0);
    GateIsOpenRows(b, k, 0);
  }

  lemma {:induction false} GateIsOpenTabs(b: Block, k: nat, j: nat)
    requires j <= |b.tabs| && AllWellPlaced(ListedTabs(false, b, k, j))
    ensures ListedTabs(true, b, k, j) == ListedTabs(false, b, k, j)
    decreases b, |b.tabs| - j
  {
    hide Listed, Under, AllWellPlaced;
    if j < |b.tabs| {
      var inner := Listed(false, b.tabs[j].blocks, 0);
      PlacedConcat(Under(k, InTab(j), inner), ListedTabs(false, b, k, j + 1));
      PlacedUnder(k, InTab(j), inner);
      GateIsOpen(b.tabs[j].blocks, 0);
      GateIsOpenTabs(b, k, j + 1);
    }
  }

  lemma {:induction false} GateIsOpenRows(b: Block, k: nat, j: nat)
    requires j <= |b.rows| && AllWellPlaced(ListedRows(false, b, k, j))
    ensures ListedRows(true, b, k, j) == ListedRows(false, b, k, j)
    decreases b, |b.rows| - j
  {
    hide Listed, Under, AllWellPlaced;
    if j < |b.rows| {
      var inner := if b.rows[j].Modal? then Listed(false, b.rows[j].blocks, 0) else [];
      PlacedConcat(Under(k, InRow(j), inner), ListedRows(false, b, k, j + 1));
      if b.rows[j].Modal? {
        PlacedUnder(k, InRow(j), inner);
        GateIsOpen(b.rows[j].blocks, 0);
      }
      GateIsOpenRows(b, k, j + 1);
    }
  }

  // ----------------------------------------------------------------------- main results

  lemma {:induction false} NoneBad(valid: string -> bool, ls: seq<Located>)
    ensures FirstBad(valid, ls).None? <==> forall l :: l in ls ==> !Bad(valid, l.block)
  {
    if ls != [] {
      NoneBad(valid, ls[1..]);
      assert ls == [ls[0]] + ls[1..];
    }
  }

  lemma {:induction false} SomeWithId(ls: seq<Located>, id: string)
    ensures FirstWithId(ls, id).Some? <==> exists l :: l in ls && l.block.id == id
    ensures FirstWithId(ls, id).Some? ==>
      exists l :: l in ls && l.block.id == id && FirstWithId(ls, id) == Some(l.block)
  {
    if ls != [] {
      SomeWithId(ls[1..], id);
      assert ls == [ls[0]] + ls[1..];
      assert ls[0] in ls;
    }
  }

  // Every block a path leads to is well placed.
  ghost predicate DocWellPlaced(doc: seq<Block>) {
    forall p :: BlockAt(doc, p).Some? ==> WellPlaced(BlockAt(doc, p).value)
  }

  lemma PlacedEverywhere(doc: seq<Block>)
    requires DocWellPlaced(doc)
    ensures AllWellPlaced(Listed(false, doc, 0))
  {
    hide Listed, BlockAt;
    var ls := Listed(false, doc, 0);
    forall i | 0 <= i < |ls|
      ensures WellPlaced(ls[i].block)
    {
      assert ls[i] in ls;
      ListedIsReached(doc, 0, ls[i].path, ls[i].block);
    }
  }

  ghost predicate EveryChartValid(valid: string -> bool, doc: seq<Block>) {
    forall p :: BlockAt(doc, p).Some? ==> !Bad(valid, BlockAt(doc, p).value)
  }

  /** Chart validation succeeds exactly when every chart a path leads to is valid. */
  lemma AcceptedIffChartsValid(valid: string -> bool, doc: seq<Block>)
    requires DocWellPlaced(doc)
    ensures ChartsAccepted(valid, doc) <==> EveryChartValid(valid, doc)
  {
    hide Listed, BlockAt, Bad, WalkBlocks, DocWellPlaced;
    var ls := Listed(false, doc, 0);
    WalkIsFirstBad(valid, doc, 0);
    PlacedEverywhere(doc);
    GateIsOpen(doc, 0);
    NoneBad(valid, ls);
    if ChartsAccepted(valid, doc) {
      forall p | BlockAt(doc, p).Some?
        ensures !Bad(valid, BlockAt(doc, p).value)
      {
        ListedIsReached(doc, 0, p, BlockAt(doc, p).value);
        assert !Bad(valid, Located(p, BlockAt(doc, p).value).block);
      }
    }
    if EveryChartValid(valid, doc) {
      forall l | l in ls
        ensures !Bad(valid, l.block)
      {
        ListedIsReached(doc, 0, l.path, l.block);
        assert BlockAt(doc, l.path) == Some(l.block);
      }
    }
  }

  /** The search succeeds exactly when a path leads to a block with the id, and returns one. */
  lemma FoundIffReached(doc: seq<Block>, id: string)
    ensures FindBlock(doc, id).Some? <==> exists p :: BlockAt(doc, p).Some? && BlockAt(doc, p).value.id == id
    ensures FindBlock(doc, id).Some? ==>
      exists p :: BlockAt(doc, p) == FindBlock(doc, id) && BlockAt(doc, p).value.id == id
  {
    hide Listed, BlockAt, SearchBlocks;
    var ls := Listed(false, doc, 0);
    SearchIsFirst(doc, 0, id);
    SomeWithId(ls, id);
    if FindBlock(doc, id).Some? {
      var l :| l in ls && l.block.id == id && FirstWithId(ls, id) == Some(l.block);
      ListedIsReached(doc, 0, l.path, l.block);
      assert BlockAt(doc, l.path) == FindBlock(doc, id);
    }
    if p :| BlockAt(doc, p).Some? && BlockAt(doc, p).value.id == id {
      ListedIsReached(doc, 0, p, BlockAt(doc, p).value);
      assert Located(p, BlockAt(doc, p).value) in ls;
    }
  }

  /** Any chart handed out from an accepted document was validated. */
  lemma ServedChartsAreValid(valid: string -> bool, doc: seq<Block>, id: string)
    requires DocWellPlaced(doc) && ChartsAccepted(valid, doc)
    requires FindBlock(doc, id).Some? && FindBlock(doc, id).value.typ == "chart"
    ensures valid(FindBlock(doc, id).value.spec)
  {
    hide BlockAt, ChartsAccepted, FindBlock, DocWellPlaced;
    AcceptedIffChartsValid(valid, doc);
    FoundIffReached(doc, id);
  }

  // Whatever validity is, a chart found in an accepted document is valid.
  ghost predicate NeverServesUnchecked(doc: seq<Block>) {
    forall valid: string -> bool, id: string ::
      ChartsAccepted(valid, doc) && FindBlock(doc, id).Some? && FindBlock(doc, id).value.typ == "chart" ==>
        valid(FindBlock(doc, id).value.spec)
  }

  // The walk looks at this spec, as some chart's.
  ghost predicate Checked(doc: seq<Block>, spec: string) {
    exists l :: l in Listed(true, doc, 0) && l.block.typ == "chart" && l.block.spec == spec
  }

  /** On any document at all: no unchecked chart is ever served exactly when the spec of every
      chart the search can return is one the walk looks at. */
  lemma ServedIffChecked(doc: seq<Block>)
    ensures NeverServesUnchecked(doc) <==>
      forall id :: FindBlock(doc, id).Some? && FindBlock(doc, id).value.typ == "chart" ==>
        Checked(doc, FindBlock(doc, id).value.spec)
  {
    hide Listed, FindBlock, WalkBlocks;
    if NeverServesUnchecked(doc) {
      forall id | FindBlock(doc, id).Some? && FindBlock(doc, id).value.typ == "chart"
        ensures Checked(doc, FindBlock(doc, id).value.spec)
      {
        var spec := FindBlock(doc, id).value.spec;
        var others := (s: string) => s != spec;
        WalkIsFirstBad(others, doc, 0);
        NoneBad(others, Listed(true, doc, 0));
        assert !ChartsAccepted(others, doc);
      }
    }
    if forall id :: FindBlock(doc, id).Some? && FindBlock(doc, id).value.typ == "chart" ==>
         Checked(doc, FindBlock(doc, id).value.spec) {
      forall valid: string -> bool, id: string |
        ChartsAccepted(valid, doc) && FindBlock(doc, id).Some? && FindBlock(doc, id).value.typ == "chart"
        ensures valid(FindBlock(doc, id).value.spec)
      {
        WalkIsFirstBad(valid, doc, 0);
        NoneBad(valid, Listed(true, doc, 0));
        assert Checked(doc, FindBlock(doc, id).value.spec);
      }
    }
  }

  // Without that, the search reaches a chart in the tabs of a block of another type.
  lemma MisplacedTabsEscapeValidation()
    ensures var chart := Block("c", "chart", "", NoModal, [], []);
      var doc := [Block("m", "markdown", "", NoModal, [Tab([chart])], [])];
      ChartsAccepted(s => false, doc) && FindBlock(doc, "c") == Some(chart)
  {
    var chart := Block("c", "chart", "", NoModal, [], []);
    var doc := [Block("m", "markdown", "", NoModal, [Tab([chart])], [])];
    var never := (s: string) => false;
    assert WalkBlock(never, doc, 0) == None;
    assert SearchBlock([chart], 0, "c") == Some(chart);
    assert SearchBlocks([chart], 0, "c") == Some(chart);
    assert SearchTabs(doc[0], 0, "c") == Some(chart);
    assert SearchBlock(doc, 0, "c") == Some(chart);
  }
}
