/** The two-way asset table: names to ids and ids to names, rebuilt on every refresh from
    the main universe and the builder dexes. */
module Assets {
  import opened Instructions

  datatype AssetInfo = AssetInfo(name: string, szDecimals: int, maxLeverage: int)

  datatype AssetCtx = AssetCtx(oraclePx: string)

  /** What fetching one dex yields: nothing usable, or its assets. */
  datatype DexReply = Skipped | Loaded(universe: seq<AssetInfo>, ctxs: seq<AssetCtx>)

  /** One round of map writes: this id for this asset, and a price context if the reply
      had one at the same position. */
  datatype Assignment = Assignment(id: int, info: AssetInfo, ctx: Option<AssetCtx>)

  function AssignmentAt(universe: seq<AssetInfo>, ctxs: seq<AssetCtx>, offset: int, i: nat): Assignment
    requires i < |universe|
  {
    Assignment(offset + i, universe[i], if i < |ctxs| then Some(ctxs[i]) else None)
  }

  function Block(universe: seq<AssetInfo>, ctxs: seq<AssetCtx>, offset: int): seq<Assignment> {
    seq(|universe|, i requires 0 <= i < |universe| => AssignmentAt(universe, ctxs, offset, i))
  }

  function DexOffset(dexIndex: nat): int { 100000 + dexIndex * 10000 }

  function DexBlock(dexes: seq<DexReply>, d: nat): seq<Assignment>
    requires d < |dexes|
  {
    match dexes[d]
    case Skipped => []
    case Loaded(universe, ctxs) => Block(universe, ctxs, DexOffset(d))
  }

  /** The writes for the dexes from position 1 up to k; position 0 is the main dex. */
  function DexBlocks(dexes: seq<DexReply>, k: nat): seq<Assignment>
    requires k <= |dexes|
  {
    if k <= 1 then [] else DexBlocks(dexes, k - 1) + DexBlock(dexes, k - 1)
  }

  /** All writes of one refresh, in order. */
  function Assignments(universe: seq<AssetInfo>, ctxs: seq<AssetCtx>, dexes: seq<DexReply>): seq<Assignment> {
    Block(universe, ctxs, 0) + DexBlocks(dexes, |dexes|)
  }

  // ---------- the maps as functions of the assignments ----------

  function Ids(writes: seq<Assignment>): map<string, int> {
    if writes == [] then map[]
    else var w := writes[|writes| - 1]; Ids(writes[..|writes| - 1])[w.info.name := w.id]
  }

  function Names(writes: seq<Assignment>): map<int, string> {
    if writes == [] then map[]
    else var w := writes[|writes| - 1]; Names(writes[..|writes| - 1])[w.id := w.info.name]
  }

  function Infos(writes: seq<Assignment>): map<string, AssetInfo> {
    if writes == [] then map[]
    else var w := writes[|writes| - 1]; Infos(writes[..|writes| - 1])[w.info.name := w.info]
  }

  function Ctxs(writes: seq<Assignment>): map<string, AssetCtx> {
    if writes == [] then map[]
    else
      var w, m := writes[|writes| - 1], Ctxs(writes[..|writes| - 1]);
      if w.ctx.Some? then m[w.info.name := w.ctx.value] else m
  }

  ghost predicate DistinctIds(writes: seq<Assignment>) {
    forall i, j :: 0 <= i < j < |writes| ==> writes[i].id != writes[j].id
  }

  ghost predicate DistinctNames(writes: seq<Assignment>) {
    forall i, j :: 0 <= i < j < |writes| ==> writes[i].info.name != writes[j].info.name
  }

  /** A name maps to the id of its last write, and its record comes from the same write. */
  lemma {:induction false} NameKnowsLastWrite(writes: seq<Assignment>, name: string) returns (last: int)
    requires name in Ids(writes)
    ensures 0 <= last < |writes| && writes[last].info.name == name && Ids(writes)[name] == writes[last].id
    ensures forall j :: last < j < |writes| ==> writes[j].info.name != name
    ensures name in Infos(writes) && Infos(writes)[name] == writes[last].info
  {
    var n := |writes| - 1;
    if writes[n].info.name == name { last := n; } else { last := NameKnowsLastWrite(writes[..n], name); }
  }

  lemma {:induction false} IdKnowsWrite(writes: seq<Assignment>, i: nat)
    requires i < |writes| && forall j :: i < j < |writes| ==> writes[j].id != writes[i].id
    ensures writes[i].id in Names(writes) && Names(writes)[writes[i].id] == writes[i].info.name
  {
    var n := |writes| - 1;
    if i < n { IdKnowsWrite(writes[..n], i); }
  }

  lemma {:induction false} EveryWriteIsNamed(writes: seq<Assignment>, i: nat)
    requires i < |writes|
    ensures writes[i].info.name in Ids(writes)
  {
    var n := |writes| - 1;
    if i < n { EveryWriteIsNamed(writes[..n], i); }
  }

  lemma {:induction false} NamesComeFromWrites(writes: seq<Assignment>, id: int) returns (i: int)
    requires id in Names(writes)
    ensures 0 <= i < |writes| && writes[i].id == id && Names(writes)[id] == writes[i].info.name
  {
    var n := |writes| - 1;
    if writes[n].id == id { i := n; } else { i := NamesComeFromWrites(writes[..n], id); }
  }

  /** With distinct ids, looking a name up and its id back returns the name, duplicates of
      names included. */
  lemma {:induction false} NameRoundTrip(writes: seq<Assignment>, name: string)
    requires DistinctIds(writes) && name in Ids(writes)
    ensures Ids(writes)[name] in Names(writes) && Names(writes)[Ids(writes)[name]] == name
  {
    var last := NameKnowsLastWrite(writes, name);
    IdKnowsWrite(writes, last);
  }

  /** With distinct ids and names the two maps are inverse to each other. */
  lemma {:induction false} IdRoundTrip(writes: seq<Assignment>, id: int)
    requires DistinctIds(writes) && DistinctNames(writes) && id in Names(writes)
    ensures Names(writes)[id] in Ids(writes) && Ids(writes)[Names(writes)[id]] == id
  {
    var i := NamesComeFromWrites(writes, id);
    EveryWriteIsNamed(writes, i);
    var last := NameKnowsLastWrite(writes, writes[i].info.name);
  }

  lemma {:induction false} LastOfId(writes: seq<Assignment>, id: int, j: nat) returns (l: nat)
    requires j < |writes| && writes[j].id == id
    ensures j <= l < |writes| && id in Names(writes) && Names(writes)[id] == writes[l].info.name
  {
    var n := |writes| - 1;
    if writes[n].id == id { l := n; } else { l := LastOfId(writes[..n], id, j); }
  }

  ghost predicate AllRoundTrip(writes: seq<Assignment>) {
    forall name :: name in Ids(writes) ==>
      Ids(writes)[name] in Names(writes) && Names(writes)[Ids(writes)[name]] == name
  }

  /** With distinct names, every name's id leads back to the name if and only if the ids are
      distinct too. */
  lemma {:induction false} RoundTripExactly(writes: seq<Assignment>)
    requires DistinctNames(writes)
    ensures AllRoundTrip(writes) <==> DistinctIds(writes)
  {
    if DistinctIds(writes) {
      forall name | name in Ids(writes)
        ensures Ids(writes)[name] in Names(writes) && Names(writes)[Ids(writes)[name]] == name
      {
        NameRoundTrip(writes, name);
      }
    }
    if i, j :| 0 <= i < j < |writes| && writes[i].id == writes[j].id {
      var name := writes[i].info.name;
      EveryWriteIsNamed(writes, i);
      var last := NameKnowsLastWrite(writes, name);
      assert last == i;
      var l := LastOfId(writes, writes[i].id, j);
      assert writes[l].info.name != name;
    }
  }

  // ---------- when the ids are distinct ----------

  /** How many ids dex d takes. */
  function Size(dexes: seq<DexReply>, d: nat): nat
    requires d < |dexes|
  {
    |DexBlock(dexes, d)|
  }

  /** No block runs into a later one that is not empty. */
  ghost predicate Fits(mainSize: nat, dexes: seq<DexReply>) {
    && (forall e :: 1 <= e < |dexes| && Size(dexes, e) > 0 ==> mainSize <= DexOffset(e))
    && (forall d, e :: 1 <= d < e < |dexes| && Size(dexes, e) > 0 ==> DexOffset(d) + Size(dexes, d) <= DexOffset(e))
  }

  lemma {:induction false} BlocksArePrefixes(dexes: seq<DexReply>, j: nat, k: nat)
    requires j <= k <= |dexes|
    ensures DexBlocks(dexes, j) <= DexBlocks(dexes, k)
  {
    if j < k { BlocksArePrefixes(dexes, j, k - 1); }
  }

  lemma {:induction false} DexBlockIds(dexes: seq<DexReply>, d: nat, p: nat)
    requires d < |dexes| && p < Size(dexes, d)
    ensures DexBlock(dexes, d)[p].id == DexOffset(d) + p
  {}

  lemma {:induction false} DexBlocksStep(dexes: seq<DexReply>, d: nat)
    requires 1 <= d < |dexes|
    ensures DexBlocks(dexes, d + 1) == DexBlocks(dexes, d) + DexBlock(dexes, d)
  {}

  lemma {:induction false} ItemInMiddle(before: seq<Assignment>, block: seq<Assignment>, all: seq<Assignment>, p: nat)
    requires before + block <= all && p < |block|
    ensures |before| + p < |all| && all[|before| + p] == block[p]
  {
    assert (before + block)[|before| + p] == block[p];
  }

  lemma {:induction false} BlockEmbedded(dexes: seq<DexReply>, d: nat)
    requires 1 <= d < |dexes|
    ensures DexBlocks(dexes, d) + DexBlock(dexes, d) <= DexBlocks(dexes, |dexes|)
  {
    DexBlocksStep(dexes, d);
    BlocksArePrefixes(dexes, d + 1, |dexes|);
  }

  /** Where the writes of dex d stand. */
  lemma {:induction false} DexPosition(dexes: seq<DexReply>, d: nat, p: nat)
    requires 1 <= d < |dexes| && p < Size(dexes, d)
    ensures var at := |DexBlocks(dexes, d)| + p;
      && at < |DexBlocks(dexes, |dexes|)|
      && DexBlocks(dexes, |dexes|)[at].id == DexOffset(d) + p
  {
    DexBlockIds(dexes, d, p);
    BlockEmbedded(dexes, d);
    ItemInMiddle(DexBlocks(dexes, d), DexBlock(dexes, d), DexBlocks(dexes, |dexes|), p);
  }

  lemma {:induction false} DexIdsBelow(dexes: seq<DexReply>, k: nat, i: nat) returns (d: nat, p: nat)
    requires k <= |dexes| && i < |DexBlocks(dexes, k)|
    ensures 1 <= d < k && p < Size(dexes, d) && DexBlocks(dexes, k)[i].id == DexOffset(d) + p
  {
    var before := DexBlocks(dexes, k - 1);
    if i < |before| {
      d, p := DexIdsBelow(dexes, k - 1, i);
    } else {
      d, p := k - 1, i - |before|;
      DexBlockIds(dexes, d, p);
    }
  }

  lemma {:induction false} DistinctConcat(before: seq<Assignment>, block: seq<Assignment>, offset: int)
    requires DistinctIds(before) && (forall j :: 0 <= j < |block| ==> block[j].id == offset + j)
    requires |block| > 0 ==> forall i :: 0 <= i < |before| ==> before[i].id < offset
    ensures DistinctIds(before + block)
  {}

  lemma {:induction false} DexIdsDistinct(mainSize: nat, dexes: seq<DexReply>, k: nat)
    requires k <= |dexes| && Fits(mainSize, dexes)
    ensures DistinctIds(DexBlocks(dexes, k))
  {
    if k > 1 {
      DexIdsDistinct(mainSize, dexes, k - 1);
      var before, block := DexBlocks(dexes, k - 1), DexBlock(dexes, k - 1);
      forall i | 0 <= i < |before| && |block| > 0 ensures before[i].id < DexOffset(k - 1) {
        var d, p := DexIdsBelow(dexes, k - 1, i);
        assert DexOffset(d) + Size(dexes, d) <= DexOffset(k - 1);
      }
      forall j | 0 <= j < |block| ensures block[j].id == DexOffset(k - 1) + j { DexBlockIds(dexes, k - 1, j); }
      DistinctConcat(before, block, DexOffset(k - 1));
    }
  }

  /** The ids of a refresh are distinct if and only if every block ends before the next
      non-empty one begins. */
  lemma {:induction false} IdsDistinctExactly(universe: seq<AssetInfo>, ctxs: seq<AssetCtx>, dexes: seq<DexReply>)
    ensures DistinctIds(Assignments(universe, ctxs, dexes)) <==> Fits(|universe|, dexes)
  {
    if Fits(|universe|, dexes) { FittingIdsDistinct(universe, ctxs, dexes); }
    if DistinctIds(Assignments(universe, ctxs, dexes)) { DistinctIdsFit(universe, ctxs, dexes); }
  }

  lemma {:induction false} FittingIdsDistinct(universe: seq<AssetInfo>, ctxs: seq<AssetCtx>, dexes: seq<DexReply>)
    requires Fits(|universe|, dexes)
    ensures DistinctIds(Assignments(universe, ctxs, dexes))
  {
    var all, rest := Assignments(universe, ctxs, dexes), DexBlocks(dexes, |dexes|);
    DexIdsDistinct(|universe|, dexes, |dexes|);
    forall i, j | 0 <= i < j < |all| ensures all[i].id != all[j].id {
      if j >= |universe| {
        assert all[j] == rest[j - |universe|];
        if i < |universe| {
          var d, p := DexIdsBelow(dexes, |dexes|, j - |universe|);
        } else {
          assert all[i] == rest[i - |universe|];
        }
      }
    }
  }

  lemma {:induction false} DistinctIdsFit(universe: seq<AssetInfo>, ctxs: seq<AssetCtx>, dexes: seq<DexReply>)
    requires DistinctIds(Assignments(universe, ctxs, dexes))
    ensures Fits(|universe|, dexes)
  {
    forall e | 1 <= e < |dexes| && Size(dexes, e) > 0 ensures |universe| <= DexOffset(e) {
      if |universe| > DexOffset(e) { MainOverlap(universe, ctxs, dexes, e); }
    }
    forall d, e | 1 <= d < e < |dexes| && Size(dexes, e) > 0
      ensures DexOffset(d) + Size(dexes, d) <= DexOffset(e)
    {
      if DexOffset(d) + Size(dexes, d) > DexOffset(e) { DexOverlap(universe, ctxs, dexes, d, e); }
    }
  }

  lemma {:induction false} SameIdTwice(all: seq<Assignment>, i: nat, j: nat)
    requires i < j < |all| && all[i].id == all[j].id
    ensures !DistinctIds(all)
  {}

  lemma {:induction false} WritePosition(universe: seq<AssetInfo>, ctxs: seq<AssetCtx>, dexes: seq<DexReply>, d: nat,
                                         p: nat)
    requires 1 <= d < |dexes| && p < Size(dexes, d)
    ensures var at, all := |universe| + |DexBlocks(dexes, d)| + p, Assignments(universe, ctxs, dexes);
      at < |all| && all[at].id == DexOffset(d) + p
  {
    DexPosition(dexes, d, p);
    ItemInMiddle(Block(universe, ctxs, 0), DexBlocks(dexes, |dexes|), Assignments(universe, ctxs, dexes),
                 |DexBlocks(dexes, d)| + p);
  }

  lemma {:induction false} DexesInOrder(dexes: seq<DexReply>, d: nat, e: nat)
    requires 1 <= d < e < |dexes|
    ensures |DexBlocks(dexes, d)| + Size(dexes, d) <= |DexBlocks(dexes, e)|
  {
    DexBlocksStep(dexes, d);
    BlocksArePrefixes(dexes, d + 1, e);
  }

  lemma {:induction false} MainOverlap(universe: seq<AssetInfo>, ctxs: seq<AssetCtx>, dexes: seq<DexReply>, e: nat)
    requires 1 <= e < |dexes| && Size(dexes, e) > 0 && |universe| > DexOffset(e)
    ensures !DistinctIds(Assignments(universe, ctxs, dexes))
  {
    var j := |DexBlocks(dexes, e)|;
    WritePosition(universe, ctxs, dexes, e, 0);
    SameIdTwice(Assignments(universe, ctxs, dexes), DexOffset(e), |universe| + j);
  }

  lemma {:induction false} DexOverlap(universe: seq<AssetInfo>, ctxs: seq<AssetCtx>, dexes: seq<DexReply>, d: nat,
                                      e: nat)
    requires 1 <= d < e < |dexes| && Size(dexes, e) > 0 && DexOffset(d) + Size(dexes, d) > DexOffset(e)
    ensures !DistinctIds(Assignments(universe, ctxs, dexes))
  {
    var p := DexOffset(e) - DexOffset(d);
    WritePosition(universe, ctxs, dexes, e, 0);
    WritePosition(universe, ctxs, dexes, d, p);
    DexesInOrder(dexes, d, e);
    SameIdTwice(Assignments(universe, ctxs, dexes), |universe| + |DexBlocks(dexes, d)| + p,
                |universe| + |DexBlocks(dexes, e)|);
  }

  /** The sizes the exchange reserves: 110000 ids up to the first builder dex, 10000 for
      each dex. */
  lemma {:induction false} ReservedSizesFit(mainSize: nat, dexes: seq<DexReply>)
    requires mainSize <= 110000 && forall d :: 1 <= d < |dexes| ==> Size(dexes, d) <= 10000
    ensures Fits(mainSize, dexes)
  {}

  // ---------- what a refreshed table says ----------

  /** Asset p of the main universe (d = 0) or of builder dex d, if there is one. */
  predicate HasAsset(universe: seq<AssetInfo>, dexes: seq<DexReply>, d: nat, p: nat) {
    if d == 0 then p < |universe| else d < |dexes| && dexes[d].Loaded? && p < |dexes[d].universe|
  }

  /** Its write: main assets have the ids from 0, those of dex d the ids from
      100000 + 10000 d; the record is the reply's, and so is the price context, if the reply
      has one at the same position. */
  predicate IsWriteOf(universe: seq<AssetInfo>, ctxs: seq<AssetCtx>, dexes: seq<DexReply>, d: nat, p: nat,
                      w: Assignment)
    requires HasAsset(universe, dexes, d, p)
  {
    var infos, prices := if d == 0 then universe else dexes[d].universe, if d == 0 then ctxs else dexes[d].ctxs;
    && w.id == (if d == 0 then p else 100000 + 10000 * d + p)
    && w.info == infos[p]
    && (w.ctx.Some? <==> p < |prices|) && (w.ctx.Some? ==> w.ctx.value == prices[p])
  }

  lemma {:induction false} DexWriteAt(dexes: seq<DexReply>, k: nat, i: nat) returns (d: nat, p: nat)
    requires k <= |dexes| && i < |DexBlocks(dexes, k)|
    ensures 1 <= d < k && HasAsset([], dexes, d, p) && IsWriteOf([], [], dexes, d, p, DexBlocks(dexes, k)[i])
  {
    var before := DexBlocks(dexes, k - 1);
    if i < |before| {
      d, p := DexWriteAt(dexes, k - 1, i);
    } else {
      d, p := k - 1, i - |before|;
    }
  }

  /** Every write of a refresh is that of some asset. */
  lemma {:induction false} WriteHasAsset(universe: seq<AssetInfo>, ctxs: seq<AssetCtx>, dexes: seq<DexReply>, i: nat)
    returns (d: nat, p: nat)
    requires i < |Assignments(universe, ctxs, dexes)|
    ensures HasAsset(universe, dexes, d, p)
        && IsWriteOf(universe, ctxs, dexes, d, p, Assignments(universe, ctxs, dexes)[i])
  {
    if i < |universe| { d, p := 0, i; } else { d, p := DexWriteAt(dexes, |dexes|, i - |universe|); }
  }

  /** Every asset has a write. */
  lemma {:induction false} AssetHasWrite(universe: seq<AssetInfo>, ctxs: seq<AssetCtx>, dexes: seq<DexReply>, d: nat,
                                         p: nat)
    returns (i: nat)
    requires HasAsset(universe, dexes, d, p)
    ensures i < |Assignments(universe, ctxs, dexes)|
        && IsWriteOf(universe, ctxs, dexes, d, p, Assignments(universe, ctxs, dexes)[i])
  {
    if d == 0 {
      i := p;
    } else {
      i := |universe| + |DexBlocks(dexes, d)| + p;
      BlockEmbedded(dexes, d);
      ItemInMiddle(DexBlocks(dexes, d), DexBlock(dexes, d), DexBlocks(dexes, |dexes|), p);
      ItemInMiddle(Block(universe, ctxs, 0), DexBlocks(dexes, |dexes|), Assignments(universe, ctxs, dexes),
                   |DexBlocks(dexes, d)| + p);
    }
  }

  /** With distinct names each write is what the maps say of its name. */
  lemma {:induction false} NameKnowsWrite(writes: seq<Assignment>, i: nat)
    requires DistinctNames(writes) && i < |writes|
    ensures var w, name := writes[i], writes[i].info.name;
      && name in Ids(writes) && Ids(writes)[name] == w.id
      && name in Infos(writes) && Infos(writes)[name] == w.info
      && (name in Ctxs(writes) <==> w.ctx.Some?) && (w.ctx.Some? ==> Ctxs(writes)[name] == w.ctx.value)
  {
    var n := |writes| - 1;
    if i < n {
      NameKnowsWrite(writes[..n], i);
    } else {
      UnwrittenIsUnknown(writes[..n], writes[n].info.name);
    }
  }

  lemma {:induction false} UnwrittenIsUnknown(writes: seq<Assignment>, name: string)
    requires forall j :: 0 <= j < |writes| ==> writes[j].info.name != name
    ensures name !in Ctxs(writes)
  {
    if writes != [] { UnwrittenIsUnknown(writes[..|writes| - 1], name); }
  }

  /** When no two assets of a refresh share a name, the table gives each asset its id, its
      record and its price context. */
  lemma {:induction false} AssetIsListed(universe: seq<AssetInfo>, ctxs: seq<AssetCtx>, dexes: seq<DexReply>, d: nat,
                                         p: nat)
    requires DistinctNames(Assignments(universe, ctxs, dexes)) && HasAsset(universe, dexes, d, p)
    ensures var writes, infos, prices := Assignments(universe, ctxs, dexes),
                                         if d == 0 then universe else dexes[d].universe,
                                         if d == 0 then ctxs else dexes[d].ctxs;
      var name := infos[p].name;
      && name in Ids(writes) && Ids(writes)[name] == (if d == 0 then p else 100000 + 10000 * d + p)
      && name in Infos(writes) && Infos(writes)[name] == infos[p]
      && (name in Ctxs(writes) <==> p < |prices|) && (p < |prices| ==> Ctxs(writes)[name] == prices[p])
  {
    var i := AssetHasWrite(universe, ctxs, dexes, d, p);
    NameKnowsWrite(Assignments(universe, ctxs, dexes), i);
  }

  /** And it lists nothing else: a listed name, unique or not, is some asset's, with that
      asset's id and record. */
  lemma {:induction false} ListedIsAsset(universe: seq<AssetInfo>, ctxs: seq<AssetCtx>, dexes: seq<DexReply>,
                                         name: string)
    returns (d: nat, p: nat)
    requires name in Ids(Assignments(universe, ctxs, dexes))
    ensures HasAsset(universe, dexes, d, p)
    ensures var writes, info := Assignments(universe, ctxs, dexes),
                                if d == 0 then universe[p] else dexes[d].universe[p];
      && info.name == name && Ids(writes)[name] == (if d == 0 then p else 100000 + 10000 * d + p)
      && name in Infos(writes) && Infos(writes)[name] == info
  {
    var last := NameKnowsLastWrite(Assignments(universe, ctxs, dexes), name);
    d, p := WriteHasAsset(universe, ctxs, dexes, last);
  }

  // ---------- the client's table ----------

  class AssetTable {
    var assets: map<string, int>
    var assetNames: map<int, string>
    var assetsInfo: map<string, AssetInfo>
    var assetsCtx: map<string, AssetCtx>
    ghost var writes: seq<Assignment>

    ghost predicate Valid()
      reads this
    {
      && assets == Ids(writes) && assetNames == Names(writes)
      && assetsInfo == Infos(writes) && assetsCtx == Ctxs(writes)
    }

    constructor ()
      ensures Valid() && writes == []
    {
      assets, assetNames, assetsInfo, assetsCtx, writes := map[], map[], map[], map[], [];
    }

    /** A failed main fetch leaves the table as it was; otherwise it is rebuilt from the
        main universe and whatever dexes could be loaded. */
    method RefreshAssets(main: Option<(seq<AssetInfo>, seq<AssetCtx>)>, dexes: Option<seq<DexReply>>) returns (ok: bool)
      requires Valid()
      modifies this
      ensures Valid() && ok == main.Some?
      ensures main.None? ==> unchanged(this)
      ensures main.Some? ==>
        writes == Assignments(main.value.0, main.value.1, if dexes.Some? then dexes.value else [])
    {
      if main.None? { return false; }
      assets, assetNames, assetsInfo, assetsCtx, writes := map[], map[], map[], map[], [];
      WriteBlock(main.value.0, main.value.1, 0);
      assert writes == Block(main.value.0, main.value.1, 0);
      if dexes.Some? {
        RefreshBuilderDexAssets(dexes.value);
      }
      return true;
    }

    method RefreshBuilderDexAssets(dexes: seq<DexReply>)
      requires Valid()
      modifies this
      ensures Valid() && writes == old(writes) + DexBlocks(dexes, |dexes|)
    {
      if |dexes| == 0 { return; }
      for d := 1 to |dexes|
        invariant Valid() && writes == old(writes) + DexBlocks(dexes, d)
      {
        WriteDex(dexes, d, old(writes));
      }
    }

    /** A dex that could not be loaded is skipped. */
    method WriteDex(dexes: seq<DexReply>, d: nat, ghost start: seq<Assignment>)
      requires Valid() && 1 <= d < |dexes| && writes == start + DexBlocks(dexes, d)
      modifies this
      ensures Valid() && writes == start + DexBlocks(dexes, d + 1)
    {
      DexBlocksStep(dexes, d);
      assert start + DexBlocks(dexes, d + 1) == start + DexBlocks(dexes, d) + DexBlock(dexes, d);
      if dexes[d].Loaded? {
        WriteBlock(dexes[d].universe, dexes[d].ctxs, DexOffset(d));
      }
    }

    /** The loop body both universes share: later writes win. */
    method WriteBlock(universe: seq<AssetInfo>, ctxs: seq<AssetCtx>, offset: int)
      requires Valid()
      modifies this
      ensures Valid() && writes == old(writes) + Block(universe, ctxs, offset)
    {
      for i := 0 to |universe|
        invariant Valid() && writes == old(writes) + Block(universe, ctxs, offset)[..i]
      {
        var asset := universe[i];
        ghost var longer := writes + [AssignmentAt(universe, ctxs, offset, i)];
        assert longer[..|writes|] == writes;
        assets := assets[asset.name := offset + i];
        assetNames := assetNames[offset + i := asset.name];
        assetsInfo := assetsInfo[asset.name := asset];
        if i < |ctxs| {
          assetsCtx := assetsCtx[asset.name := ctxs[i]];
        }
        writes := longer;
        assert Block(universe, ctxs, offset)[..i + 1] == Block(universe, ctxs, offset)[..i] + [longer[|longer| - 1]];
      }
      assert Block(universe, ctxs, offset)[..|universe|] == Block(universe, ctxs, offset);
    }

    function GetAssetID(market: string): Option<int>
      reads this
    {
      if market in assets then Some(assets[market]) else None
    }

    function GetAssetName(id: int): Option<string>
      reads this
    {
      if id in assetNames then Some(assetNames[id]) else None
    }

    /** On a table whose blocks fit, looking up a market's id and that id's name leads back
        to the market. */
    lemma {:induction false} LookupRoundTrip(market: string)
      requires Valid() && DistinctIds(writes) && GetAssetID(market).Some?
      ensures GetAssetName(GetAssetID(market).value) == Some(market)
    {
      NameRoundTrip(writes, market);
    }
  }
}
