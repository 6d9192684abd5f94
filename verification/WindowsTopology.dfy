/** Processor ids on Windows: ids made from a group and a mask, and taken apart again to pin a
    thread; the table of processors and of the caches they share. */
module WindowsTopology {
  import opened Bits
  import opened CacheSharing
  import opened Options
  import opened Words

  /** What a thread is pinned to. */
  datatype Affinity = Affinity(group: nat, mask: nat)

  /** `64 * group_id + i` in 32 bits. */
  function IdOf(group: nat, i: nat): nat {
    (64 * group + i) % TWO32
  }

  /** The ids of the bits below `width` that are set in the mask of a group. */
  function CpuSet(width: nat, group: nat, mask: nat): set<nat> {
    set i | 0 <= i < width && Bit(mask, i) :: IdOf(group, i)
  }

  /** `width` is the number of bits of `KAFFINITY`. */
  method ComputeCpuSet(width: nat, group: nat, mask: nat) returns (cpus: set<nat>)
    ensures cpus == CpuSet(width, group, mask)
  {
    cpus := {};
    for i := 0 to width
      invariant cpus == CpuSet(i, group, mask)
    {
      if Bit(mask, i) {
        cpus := cpus + {IdOf(group, i)};
      }
    }
  }

  /** `pin_thread` up to the system call; the group field has 16 bits. */
  function PinnedTo(id: nat): Affinity {
    Affinity(id / 64 % TWO16, Pow2(id % 64))
  }

  /** Taking an id apart gives back the bit and, exactly for the groups of 16 bits, the group. */
  lemma DecodeExactly(group: nat, i: nat)
    requires group < TWO32 && i < 64
    ensures PinnedTo(IdOf(group, i)).mask == Pow2(i)
    ensures PinnedTo(IdOf(group, i)).group == group <==> group < TWO16
  {
    IdWraps(group, i);
    GroupCut(group);
  }

  lemma GroupCut(group: nat)
    ensures group % 0x400_0000 % TWO16 == group <==> group < TWO16
  {
    if group < TWO16 {
      SmallRemainder(group, 0x400_0000);
      SmallRemainder(group, TWO16);
    }
  }

  lemma IdWraps(group: nat, i: nat)
    requires i < 64
    ensures IdOf(group, i) / 64 == group % 0x400_0000
    ensures IdOf(group, i) % 64 == i
  {
    var a, b := group / 0x400_0000, group % 0x400_0000;
    assert group == a * 0x400_0000 + b;
    assert 64 * group + i == a * TWO32 + (b * 64 + i);
    QuotientAndRemainder(a, TWO32, b * 64 + i);
    QuotientAndRemainder(b, 64, i);
  }

  lemma IdDecodes(width: nat, group: nat, mask: nat, id: nat)
    requires width <= 64 && group < TWO16 && id in CpuSet(width, group, mask)
    ensures PinnedTo(id).group == group
    ensures exists i :: 0 <= i < width && Bit(mask, i) && PinnedTo(id).mask == Pow2(i)
  {
    var i :| 0 <= i < width && Bit(mask, i) && id == IdOf(group, i);
    DecodeExactly(group, i);
  }

  lemma BitsUnite(width: nat, group: nat, mask: nat)
    requires width <= 64 && group < TWO16 && mask < Pow2(width)
    ensures Or(Masks(width, group, mask), width) == mask
  {
    var masks := Masks(width, group, mask);
    forall i | 0 <= i < width ensures Bit(mask, i) <==> exists m | m in masks :: Bit(m, i) {
      BitAmongMasks(width, group, mask, i);
    }
    OrDetermined(masks, mask, width);
    SmallRemainder(mask, Pow2(width));
  }

  /** For every 16-bit group and every mask: each id leads back to the group and to one bit of the
      mask, and those bits together are the mask. */
  lemma IdsLeadBack(width: nat, group: nat, mask: nat)
    requires width <= 64 && group < TWO16 && mask < Pow2(width)
    ensures forall id | id in CpuSet(width, group, mask) ::
              && PinnedTo(id).group == group
              && exists i :: 0 <= i < width && Bit(mask, i) && PinnedTo(id).mask == Pow2(i)
    ensures Or(Masks(width, group, mask), width) == mask
  {
    forall id | id in CpuSet(width, group, mask)
      ensures PinnedTo(id).group == group
      ensures exists i :: 0 <= i < width && Bit(mask, i) && PinnedTo(id).mask == Pow2(i)
    {
      IdDecodes(width, group, mask, id);
    }
    BitsUnite(width, group, mask);
  }

  lemma SmallRemainder(m: nat, d: nat)
    requires m < d
    ensures m % d == m
  {
  }

  /** The masks that pin to the ids of a set. */
  function Masks(width: nat, group: nat, mask: nat): set<nat> {
    set id | id in CpuSet(width, group, mask) :: PinnedTo(id).mask
  }

  lemma BitAmongMasks(width: nat, group: nat, mask: nat, i: nat)
    requires width <= 64 && group < TWO16 && i < width
    ensures Bit(mask, i) <==> exists m | m in Masks(width, group, mask) :: Bit(m, i)
  {
    var masks := Masks(width, group, mask);
    if Bit(mask, i) {
      assert IdOf(group, i) in CpuSet(width, group, mask);
      DecodeExactly(group, i);
      assert PinnedTo(IdOf(group, i)).mask in masks;
      BitOfPower(i, i);
    }
    if m :| m in masks && Bit(m, i) {
      var id :| id in CpuSet(width, group, mask) && m == PinnedTo(id).mask;
      var j :| 0 <= j < width && Bit(mask, j) && id == IdOf(group, j);
      DecodeExactly(group, j);
      BitOfPower(j, i);
    }
  }

  /** No two groups have an id in common, and no two masks of a group have the same ids. */
  lemma IdsAreUnambiguous(width: nat, group: nat, mask: nat, group': nat, mask': nat)
    requires width <= 64 && group < TWO16 && group' < TWO16 && mask < Pow2(width) && mask' < Pow2(width)
    ensures group != group' ==> CpuSet(width, group, mask) !! CpuSet(width, group', mask')
    ensures group == group' && CpuSet(width, group, mask) == CpuSet(width, group', mask') ==> mask == mask'
  {
    IdsLeadBack(width, group, mask);
    IdsLeadBack(width, group', mask');
  }

  /** A record of the system's answer, with its length in bytes. */
  datatype Record<T> = Record(size: nat, info: T)

  function Bytes<T>(records: seq<Record<T>>): nat {
    if records == [] then 0 else records[0].size + Bytes(records[1..])
  }

  lemma {:induction false} BytesSplit<T>(records: seq<Record<T>>, k: nat)
    requires k <= |records|
    ensures Bytes(records) == Bytes(records[..k]) + Bytes(records[k..])
  {
    if k != 0 {
      BytesSplit(records[1..], k - 1);
      assert records[..k][1..] == records[1..][..k - 1];
    }
  }

  lemma BytesStep<T>(records: seq<Record<T>>, k: nat)
    requires k < |records| && forall i | 0 <= i < |records| :: records[i].size > 0
    ensures Bytes(records[..k + 1]) == Bytes(records[..k]) + records[k].size
    ensures Bytes(records[k..]) == records[k].size + Bytes(records[k + 1..])
    ensures Bytes(records[k + 1..]) == 0 <==> k + 1 == |records|
  {
    BytesSplit(records[..k + 1], k);
    assert records[..k + 1][..k] == records[..k];
    var last := records[..k + 1][k..];
    assert last == [records[k]] && last[1..] == [];
    assert records[k..][1..] == records[k + 1..];
  }

  /** What lies at an address of the buffer: the record that starts there, if one does. */
  function RecordAt<T>(records: seq<Record<T>>, offset: nat): Option<Record<T>> {
    if records == [] then None
    else if offset == 0 then Some(records[0])
    else if offset < records[0].size then None
    else RecordAt(records[1..], offset - records[0].size)
  }

  lemma {:induction false} RecordAtStart<T>(records: seq<Record<T>>, k: nat)
    requires k < |records| && forall i | 0 <= i < |records| :: records[i].size > 0
    ensures RecordAt(records, Bytes(records[..k])) == Some(records[k])
  {
    if k != 0 {
      RecordAtStart(records[1..], k - 1);
      assert records[..k][1..] == records[1..][..k - 1];
    }
  }

  /** `procinfo_enumerator` over a buffer of records: an address, null at the end, and the number of
      bytes that remain. */
  class Enumerator<T> {
    const records: seq<Record<T>>
    var current: Option<nat>
    var remaining: nat

    /** The enumerator stands at record `k`, or at the end. */
    ghost predicate At(k: nat)
      reads this
    {
      && (forall i | 0 <= i < |records| :: records[i].size > 0)
      && k <= |records|
      && current == (if k == |records| then None else Some(Bytes(records[..k])))
      && remaining == Bytes(records[k..])
    }

    constructor (records: seq<Record<T>>)
      requires forall i | 0 <= i < |records| :: records[i].size > 0
      ensures this.records == records && At(0)
    {
      this.records := records;
      remaining := Bytes(records);
      current := if records == [] then None else Some(0);
    }

    method Current(ghost k: nat) returns (info: Option<T>)
      requires At(k)
      ensures info == if k < |records| then Some(records[k].info) else None
    {
      if current.None? {
        info := None;
      } else {
        RecordAtStart(records, k);
        info := Some(RecordAt(records, current.value).value.info);
      }
    }

    /** Moves on by the size of the current record, until no byte remains. */
    method Next(ghost k: nat)
      requires At(k)
      modifies this
      ensures At(if k < |records| then k + 1 else k)
    {
      if current.Some? {
        RecordAtStart(records, k);
        var size := RecordAt(records, current.value).value.size;
        BytesStep(records, k);
        remaining := remaining - size;
        current := if remaining != 0 then Some(current.value + size) else None;
      }
    }
  }

  datatype Numa = Numa(node: nat, group: nat, mask: nat)

  datatype CacheKind = Unified | Instruction | Data | Trace

  datatype Cache = Cache(kind: CacheKind, level: nat, group: nat, mask: nat)

  datatype Topo = Topo(nodeId: nat, processorId: nat, l1: set<nat>, l2: set<nat>, l3: set<nat>)

  type Table = map<nat, Topo>

  function Shared(t: Topo, level: nat): set<nat> {
    if level == 1 then t.l1 else if level == 2 then t.l2 else if level == 3 then t.l3 else {}
  }

  function Share(t: Topo, level: nat, ids: set<nat>): Topo {
    if level == 1 then t.(l1 := ids) else if level == 2 then t.(l2 := ids) else if level == 3 then t.(l3 := ids) else t
  }

  /** `cpu_map[id]` makes a missing entry. */
  function EntryAt(m: Table, id: nat): Topo {
    if id in m then m[id] else Topo(0, 0, {}, {}, {})
  }

  function SetNode(m: Table, ids: set<nat>, node: nat): Table {
    map k | k in m.Keys + ids :: if k in ids then Topo(node, k, {}, {}, {}) else m[k]
  }

  function WithNode(m: Table, width: nat, r: Numa): Table {
    SetNode(m, CpuSet(width, r.group, r.mask), r.node)
  }

  /** Caches of instructions, and levels other than 1 to 3, are skipped. */
  predicate Used(c: Cache) {
    (c.kind.Unified? || c.kind.Data?) && 1 <= c.level <= 3
  }

  /** The entries of the processors in `done` list those of `ids` save the processor itself. */
  function SetShared(m: Table, done: set<nat>, level: nat, ids: set<nat>): Table {
    map k | k in m.Keys + done :: if k in done then Share(EntryAt(m, k), level, ids - {k}) else m[k]
  }

  function WithCache(m: Table, width: nat, c: Cache): Table {
    if Used(c) then SetShared(m, IdsOf(width, c), c.level, IdsOf(width, c)) else m
  }

  function Nodes(width: nat, numa: seq<Record<Numa>>): Table {
    if numa == [] then map[] else WithNode(Nodes(width, numa[..|numa| - 1]), width, numa[|numa| - 1].info)
  }

  function Caches(m: Table, width: nat, caches: seq<Record<Cache>>): Table {
    if caches == [] then m
    else WithCache(Caches(m, width, caches[..|caches| - 1]), width, caches[|caches| - 1].info)
  }

  method AssignNodes(m: Table, ids: set<nat>, node: nat) returns (m': Table)
    ensures m' == SetNode(m, ids, node)
  {
    m' := m;
    var todo := ids;
    NoNode(m, ids, node);
    while todo != {}
      invariant todo <= ids && m' == SetNode(m, ids - todo, node)
      decreases |todo|
    {
      var id :| id in todo;
      OneNode(m, ids, todo, node, id);
      m' := m'[id := Topo(node, id, {}, {}, {})];
      todo := todo - {id};
    }
    NoNode(m, ids, node);
  }

  lemma NoNode(m: Table, ids: set<nat>, node: nat)
    ensures SetNode(m, ids - ids, node) == m && ids - {} == ids
  {
  }

  lemma OneNode(m: Table, ids: set<nat>, todo: set<nat>, node: nat, id: nat)
    requires id in todo && todo <= ids
    ensures SetNode(m, ids - (todo - {id}), node) == SetNode(m, ids - todo, node)[id := Topo(node, id, {}, {}, {})]
    ensures todo - {id} <= ids
  {
  }

  /** One of the cases of the switch: first the whole set, then without the processor itself. */
  method AssignShared(m: Table, ids: set<nat>, level: nat) returns (m': Table)
    requires 1 <= level <= 3
    ensures m' == SetShared(m, ids, level, ids)
  {
    m' := m;
    var todo := ids;
    NoneShared(m, ids, level);
    while todo != {}
      invariant todo <= ids && m' == SetShared(m, ids - todo, level, ids)
      decreases |todo|
    {
      var id :| id in todo;
      OneShared(m, ids, todo, level, id);
      var t := Share(EntryAt(m', id), level, ids);
      m' := m'[id := Share(t, level, Shared(t, level) - {id})];
      todo := todo - {id};
    }
    NoneShared(m, ids, level);
  }

  lemma NoneShared(m: Table, ids: set<nat>, level: nat)
    ensures SetShared(m, ids - ids, level, ids) == m && ids - {} == ids
  {
  }

  lemma OneShared(m: Table, ids: set<nat>, todo: set<nat>, level: nat, id: nat)
    requires 1 <= level <= 3 && id in todo && todo <= ids
    ensures var before := SetShared(m, ids - todo, level, ids);
            var t := Share(EntryAt(before, id), level, ids);
            SetShared(m, ids - (todo - {id}), level, ids) == before[id := Share(t, level, Shared(t, level) - {id})]
    ensures todo - {id} <= ids
  {
  }

  method NodeTable(width: nat, numa: seq<Record<Numa>>) returns (m: Table)
    requires forall i | 0 <= i < |numa| :: numa[i].size > 0
    ensures m == Nodes(width, numa)
  {
    m := map[];
    var e := new Enumerator(numa);
    var r := e.Current(0);
    ghost var k := 0;
    while r.Some?
      invariant e.records == numa && e.At(k) && r == if k < |numa| then Some(numa[k].info) else None
      invariant m == Nodes(width, numa[..k])
      decreases |numa| - k
    {
      assert numa[..k + 1][..k] == numa[..k];
      var ids := ComputeCpuSet(width, r.value.group, r.value.mask);
      m := AssignNodes(m, ids, r.value.node);
      e.Next(k);
      k := k + 1;
      r := e.Current(k);
    }
    assert numa[..k] == numa;
  }

  method AddCache(m: Table, width: nat, c: Cache) returns (m': Table)
    ensures m' == WithCache(m, width, c)
  {
    m' := m;
    if Used(c) {
      var ids := ComputeCpuSet(width, c.group, c.mask);
      m' := AssignShared(m, ids, c.level);
    }
  }

  lemma CachesStep(m: Table, width: nat, caches: seq<Record<Cache>>, k: nat)
    requires k < |caches|
    ensures Caches(m, width, caches[..k + 1]) == WithCache(Caches(m, width, caches[..k]), width, caches[k].info)
  {
    assert caches[..k + 1][..k] == caches[..k];
  }

  method CacheTables(m: Table, width: nat, caches: seq<Record<Cache>>) returns (m': Table)
    requires forall i | 0 <= i < |caches| :: caches[i].size > 0
    ensures m' == Caches(m, width, caches)
  {
    m' := m;
    var e := new Enumerator(caches);
    var c := e.Current(0);
    ghost var k := 0;
    while c.Some?
      invariant e.records == caches && e.At(k) && c == if k < |caches| then Some(caches[k].info) else None
      invariant m' == Caches(m, width, caches[..k])
      decreases |caches| - k
    {
      CachesStep(m, width, caches, k);
      m' := AddCache(m', width, c.value);
      e.Next(k);
      k := k + 1;
      c := e.Current(k);
    }
    assert caches[..k] == caches;
  }

  /** `cpu_topology` up to the copying of the table into a vector. */
  method CpuTopology(width: nat, numa: seq<Record<Numa>>, caches: seq<Record<Cache>>) returns (m: Table)
    requires forall i | 0 <= i < |numa| :: numa[i].size > 0
    requires forall i | 0 <= i < |caches| :: caches[i].size > 0
    ensures m == Caches(Nodes(width, numa), width, caches)
  {
    m := NodeTable(width, numa);
    m := CacheTables(m, width, caches);
  }

  /** A cache of data, alone or with instructions, of this level. */
  predicate OfLevel(c: Cache, level: nat) {
    (c.kind == Data || c.kind == Unified) && c.level == level
  }

  function IdsOf(width: nat, c: Cache): set<nat> {
    CpuSet(width, c.group, c.mask)
  }

  /** The processors of each record, as far as the level is concerned. */
  function LevelSets(width: nat, caches: seq<Record<Cache>>, level: nat): seq<set<nat>> {
    seq(|caches|, i requires 0 <= i < |caches| =>
      if OfLevel(caches[i].info, level) then IdsOf(width, caches[i].info) else {})
  }

  lemma OneCacheShares(m: Table, width: nat, c: Cache, level: nat, id: nat)
    requires 1 <= level <= 3
    ensures Shared(EntryAt(WithCache(m, width, c), id), level) ==
            if OfLevel(c, level) && id in IdsOf(width, c) then IdsOf(width, c) - {id} else Shared(EntryAt(m, id), level)
  {
  }

  lemma {:induction false} SharesLastOf(m: Table, width: nat, caches: seq<Record<Cache>>, level: nat, id: nat)
    requires 1 <= level <= 3 && forall k | k in m :: Shared(m[k], level) == {}
    ensures Shared(EntryAt(Caches(m, width, caches), id), level) == LastOf(LevelSets(width, caches, level), id) - {id}
  {
    if caches != [] {
      var n := |caches| - 1;
      SharesLastOf(m, width, caches[..n], level, id);
      OneCacheShares(Caches(m, width, caches[..n]), width, caches[n].info, level, id);
      assert LevelSets(width, caches, level)[..n] == LevelSets(width, caches[..n], level);
    }
  }

  lemma {:induction false} NodesShareNothing(width: nat, numa: seq<Record<Numa>>, level: nat)
    ensures forall k | k in Nodes(width, numa) ::
              Shared(Nodes(width, numa)[k], level) == {} && Nodes(width, numa)[k].processorId == k
  {
    if numa != [] {
      NodesShareNothing(width, numa[..|numa| - 1], level);
    }
  }

  /** The finished table: `b` is listed as sharing a cache of the level with `a`. */
  predicate Listed(width: nat, numa: seq<Record<Numa>>, caches: seq<Record<Cache>>, level: nat, a: nat, b: nat) {
    b in Shared(EntryAt(Caches(Nodes(width, numa), width, caches), a), level)
  }

  lemma ListedIsShares(width: nat, numa: seq<Record<Numa>>, caches: seq<Record<Cache>>, level: nat, a: nat, b: nat)
    requires 1 <= level <= 3
    ensures Listed(width, numa, caches, level, a, b) <==> Shares(LevelSets(width, caches, level), a, b)
  {
    NodesShareNothing(width, numa, level);
    SharesLastOf(Nodes(width, numa), width, caches, level, a);
  }

  /** Of the caches of data of this level, record `i` is the last one that has the processor. */
  ghost predicate LastCacheWith(width: nat, caches: seq<Record<Cache>>, level: nat, id: nat, i: nat) {
    && i < |caches| && OfLevel(caches[i].info, level) && id in IdsOf(width, caches[i].info)
    && forall j | i < j < |caches| :: !(OfLevel(caches[j].info, level) && id in IdsOf(width, caches[j].info))
  }

  predicate InCache(width: nat, caches: seq<Record<Cache>>, level: nat, id: nat) {
    exists i | 0 <= i < |caches| :: OfLevel(caches[i].info, level) && id in IdsOf(width, caches[i].info)
  }

  lemma LastSetOf(width: nat, caches: seq<Record<Cache>>, level: nat, id: nat)
    ensures forall i: nat | LastCacheWith(width, caches, level, id, i) ::
              LastOf(LevelSets(width, caches, level), id) == IdsOf(width, caches[i].info)
    ensures !InCache(width, caches, level, id) ==> LastOf(LevelSets(width, caches, level), id) == {}
  {
    var sets := LevelSets(width, caches, level);
    forall i: nat | LastCacheWith(width, caches, level, id, i) ensures LastOf(sets, id) == IdsOf(width, caches[i].info) {
      LastOfIs(sets, id, i);
    }
    if LastOf(sets, id) != {} {
      var i := LastOfHas(sets, id);
      assert OfLevel(caches[i].info, level) && id in IdsOf(width, caches[i].info);
    }
  }

  /** The last record of a cache of data, or of data and instructions, that has a processor says with
      whom it shares the cache: those of level 1 in `l1`, of level 2 in `l2`, of level 3 in `l3`. */
  lemma SharedIsLastSet(width: nat, numa: seq<Record<Numa>>, caches: seq<Record<Cache>>, id: nat)
    requires id in Caches(Nodes(width, numa), width, caches)
    ensures var t := Caches(Nodes(width, numa), width, caches)[id];
            && (forall i: nat | LastCacheWith(width, caches, 1, id, i) :: t.l1 == IdsOf(width, caches[i].info) - {id})
            && (forall i: nat | LastCacheWith(width, caches, 2, id, i) :: t.l2 == IdsOf(width, caches[i].info) - {id})
            && (forall i: nat | LastCacheWith(width, caches, 3, id, i) :: t.l3 == IdsOf(width, caches[i].info) - {id})
    ensures var t := Caches(Nodes(width, numa), width, caches)[id];
            && (!InCache(width, caches, 1, id) ==> t.l1 == {})
            && (!InCache(width, caches, 2, id) ==> t.l2 == {})
            && (!InCache(width, caches, 3, id) ==> t.l3 == {})
  {
    SharedAtLevel(width, numa, caches, id, 1);
    SharedAtLevel(width, numa, caches, id, 2);
    SharedAtLevel(width, numa, caches, id, 3);
  }

  lemma SharedAtLevel(width: nat, numa: seq<Record<Numa>>, caches: seq<Record<Cache>>, id: nat, level: nat)
    requires 1 <= level <= 3 && id in Caches(Nodes(width, numa), width, caches)
    ensures var t := Caches(Nodes(width, numa), width, caches)[id];
            && (forall i: nat | LastCacheWith(width, caches, level, id, i) ::
                  Shared(t, level) == IdsOf(width, caches[i].info) - {id})
            && (!InCache(width, caches, level, id) ==> Shared(t, level) == {})
  {
    NodesShareNothing(width, numa, level);
    SharesLastOf(Nodes(width, numa), width, caches, level, id);
    LastSetOf(width, caches, level, id);
  }

  /** A record of a cache of instructions or traces, or of another level, might as well not be there. */
  lemma {:induction false} OtherCachesDoNotMatter(m: Table, width: nat, before: seq<Record<Cache>>, r: Record<Cache>,
                                                  after: seq<Record<Cache>>)
    requires r.info.kind == Instruction || r.info.kind == Trace || r.info.level == 0 || r.info.level > 3
    ensures Caches(m, width, before + [r] + after) == Caches(m, width, before + after)
    decreases |after|
  {
    var all, others := before + [r] + after, before + after;
    if after == [] {
      assert all[..|all| - 1] == before == others;
    } else {
      var n := |after| - 1;
      OtherCachesDoNotMatter(m, width, before, r, after[..n]);
      assert all[..|all| - 1] == before + [r] + after[..n] && others[..|others| - 1] == before + after[..n];
    }
  }

  /** Record `i` is the last NUMA record that has the processor. */
  ghost predicate LastNumaWith(width: nat, numa: seq<Record<Numa>>, id: nat, i: nat) {
    && i < |numa| && id in CpuSet(width, numa[i].info.group, numa[i].info.mask)
    && forall j | i < j < |numa| :: id !in CpuSet(width, numa[j].info.group, numa[j].info.mask)
  }

  lemma {:induction false} LastNode(width: nat, numa: seq<Record<Numa>>, id: nat, i: nat)
    requires LastNumaWith(width, numa, id, i)
    ensures id in Nodes(width, numa) && Nodes(width, numa)[id].nodeId == numa[i].info.node
  {
    var n := |numa| - 1;
    if i < n {
      assert forall j | 0 <= j < n :: numa[..n][j] == numa[j];
      LastNode(width, numa[..n], id, i);
    }
  }

  lemma {:induction false} CachesKeepNode(m: Table, width: nat, caches: seq<Record<Cache>>, id: nat)
    ensures EntryAt(Caches(m, width, caches), id).nodeId == EntryAt(m, id).nodeId
    ensures id in m ==> id in Caches(m, width, caches)
  {
    if caches != [] {
      CachesKeepNode(m, width, caches[..|caches| - 1], id);
    }
  }

  /** A processor belongs to the node of the last NUMA record that has it, whatever the caches, and to
      node 0 if no NUMA record has it. */
  lemma NodeIsLastNode(width: nat, numa: seq<Record<Numa>>, caches: seq<Record<Cache>>, id: nat)
    ensures var t := Caches(Nodes(width, numa), width, caches);
            && (forall i: nat | LastNumaWith(width, numa, id, i) :: id in t && t[id].nodeId == numa[i].info.node)
            && (!InSomeNode(width, numa, id) && id in t ==> t[id].nodeId == 0)
  {
    CachesKeepNode(Nodes(width, numa), width, caches, id);
    NodeEntries(width, numa, id);
    forall i: nat | LastNumaWith(width, numa, id, i)
      ensures id in Nodes(width, numa) && Nodes(width, numa)[id].nodeId == numa[i].info.node
    {
      LastNode(width, numa, id, i);
    }
  }

  /** A condition on the records: of the processors of each one, the later records of the level have
      either none or all. */
  ghost predicate NoneOrAllLater(width: nat, caches: seq<Record<Cache>>, level: nat) {
    forall i: nat | i < |caches| && OfLevel(caches[i].info, level) :: NoneOrAll(width, caches, level, i)
  }

  ghost predicate NoneOrAll(width: nat, caches: seq<Record<Cache>>, level: nat, i: nat)
    requires i < |caches|
  {
    || (forall a | a in IdsOf(width, caches[i].info) :: !LaterHas(width, caches, level, i, a))
    || (forall a | a in IdsOf(width, caches[i].info) :: LaterHas(width, caches, level, i, a))
  }

  ghost predicate LaterHas(width: nat, caches: seq<Record<Cache>>, level: nat, i: nat, a: nat) {
    exists j | i < j < |caches| :: OfLevel(caches[j].info, level) && a in IdsOf(width, caches[j].info)
  }

  lemma LaterIsInLater(width: nat, caches: seq<Record<Cache>>, level: nat, i: nat, a: nat)
    ensures LaterHas(width, caches, level, i, a) <==> InLater(LevelSets(width, caches, level), i, a)
  {
    var sets := LevelSets(width, caches, level);
    if LaterHas(width, caches, level, i, a) {
      var j :| i < j < |caches| && OfLevel(caches[j].info, level) && a in IdsOf(width, caches[j].info);
      assert a in sets[j];
    }
    if InLater(sets, i, a) {
      var j :| i < j < |sets| && a in sets[j];
      assert OfLevel(caches[j].info, level);
    }
  }

  lemma ConditionOnSet(width: nat, caches: seq<Record<Cache>>, level: nat, i: nat)
    requires i < |caches|
    ensures AllOrNothing(LevelSets(width, caches, level), i) <==>
            (OfLevel(caches[i].info, level) ==> NoneOrAll(width, caches, level, i))
  {
    var ids := LevelSets(width, caches, level)[i];
    forall a | a in ids ensures LaterHas(width, caches, level, i, a) <==> InLater(LevelSets(width, caches, level), i, a) {
      LaterIsInLater(width, caches, level, i, a);
    }
    assert OfLevel(caches[i].info, level) ==> ids == IdsOf(width, caches[i].info);
  }

  lemma ConditionOnSets(width: nat, caches: seq<Record<Cache>>, level: nat)
    ensures var sets := LevelSets(width, caches, level);
            NoneOrAllLater(width, caches, level) <==> forall i: nat | i < |sets| :: AllOrNothing(sets, i)
  {
    forall i: nat | i < |caches|
      ensures AllOrNothing(LevelSets(width, caches, level), i) <==>
              (OfLevel(caches[i].info, level) ==> NoneOrAll(width, caches, level, i))
    {
      ConditionOnSet(width, caches, level, i);
    }
  }

  /** Sharing a cache of a level goes both ways exactly when, of the processors of each record, the
      later records of the level have none or all. */
  lemma SharingIsSymmetricExactly(width: nat, numa: seq<Record<Numa>>, caches: seq<Record<Cache>>, level: nat)
    requires 1 <= level <= 3
    ensures (forall a, b | Listed(width, numa, caches, level, a, b) :: Listed(width, numa, caches, level, b, a))
            <==> NoneOrAllLater(width, caches, level)
  {
    forall a, b ensures Listed(width, numa, caches, level, a, b) <==> Shares(LevelSets(width, caches, level), a, b) {
      ListedIsShares(width, numa, caches, level, a, b);
    }
    ConditionOnSets(width, caches, level);
    SymmetricExactly(LevelSets(width, caches, level));
  }

  /** No two used records of the level have a processor in common. */
  ghost predicate Disjoint(width: nat, caches: seq<Record<Cache>>, level: nat) {
    forall i, j | 0 <= i < j < |caches| && OfLevel(caches[i].info, level) && OfLevel(caches[j].info, level) ::
      IdsOf(width, caches[i].info) !! IdsOf(width, caches[j].info)
  }

  lemma DisjointIsEnough(width: nat, caches: seq<Record<Cache>>, level: nat)
    requires Disjoint(width, caches, level)
    ensures NoneOrAllLater(width, caches, level)
  {
  }

  /** Then, and with disjoint records in particular, the processors of one level fall into groups
      that share a cache: nobody shares with itself, sharing goes both ways, and it carries over. */
  lemma SharingIsAnEquivalence(width: nat, numa: seq<Record<Numa>>, caches: seq<Record<Cache>>, level: nat,
                               a: nat, b: nat, c: nat)
    requires 1 <= level <= 3 && (NoneOrAllLater(width, caches, level) || Disjoint(width, caches, level))
    ensures !Listed(width, numa, caches, level, a, a)
    ensures Listed(width, numa, caches, level, a, b) ==> Listed(width, numa, caches, level, b, a)
    ensures Listed(width, numa, caches, level, a, b) && Listed(width, numa, caches, level, b, c) && c != a ==>
              Listed(width, numa, caches, level, a, c)
  {
    if Disjoint(width, caches, level) {
      DisjointIsEnough(width, caches, level);
    }
    ListedIsShares(width, numa, caches, level, a, a);
    ListedIsShares(width, numa, caches, level, a, b);
    ListedIsShares(width, numa, caches, level, b, a);
    ListedIsShares(width, numa, caches, level, b, c);
    ListedIsShares(width, numa, caches, level, a, c);
    ConditionOnSets(width, caches, level);
    SymmetricExactly(LevelSets(width, caches, level));
  }

  /** For instance, a later record that takes one of two processors and not the other leaves the
      other one sharing with it, one way only. */
  lemma OverlapIsOneWay(width: nat, numa: seq<Record<Numa>>, first: Record<Cache>, second: Record<Cache>, level: nat)
    requires 1 <= level <= 3 && OfLevel(first.info, level) && OfLevel(second.info, level)
    ensures var x, y := IdsOf(width, first.info), IdsOf(width, second.info);
            x * y != {} && !(x <= y) ==>
              exists a, b :: Listed(width, numa, [first, second], level, a, b)
                             && !Listed(width, numa, [first, second], level, b, a)
  {
    var both := [first, second];
    var x, y := IdsOf(width, first.info), IdsOf(width, second.info);
    if x * y != {} && !(x <= y) {
      var a :| a in x && a !in y;
      var b :| b in x * y;
      assert both[1].info == second.info && LaterHas(width, both, level, 0, b);
      assert !LaterHas(width, both, level, 0, a);
      assert both[0].info == first.info;
      SharingIsSymmetricExactly(width, numa, both, level);
    }
  }

  /** Every entry carries its own id exactly when each processor of a used cache record is in some
      NUMA record too, or has the id 0 of an entry made on the way. */
  lemma EntriesNameThemselvesExactly(width: nat, numa: seq<Record<Numa>>, caches: seq<Record<Cache>>)
    ensures var t := Caches(Nodes(width, numa), width, caches);
            (forall k | k in t :: t[k].processorId == k) <==>
            (forall k | InSome(width, caches, k) :: InSomeNode(width, numa, k) || k == 0)
  {
    var m, t := Nodes(width, numa), Caches(Nodes(width, numa), width, caches);
    NodesShareNothing(width, numa, 1);
    forall k ensures k in t <==> InSomeNode(width, numa, k) || InSome(width, caches, k)
             ensures k in t ==> t[k].processorId == if InSomeNode(width, numa, k) then k else 0
    {
      EntryIn(width, m, caches, k);
      NodeEntries(width, numa, k);
    }
  }

  /** Some NUMA record has the processor. */
  predicate InSomeNode(width: nat, numa: seq<Record<Numa>>, id: nat) {
    exists i | 0 <= i < |numa| :: id in CpuSet(width, numa[i].info.group, numa[i].info.mask)
  }

  lemma {:induction false} NodeEntries(width: nat, numa: seq<Record<Numa>>, k: nat)
    ensures k in Nodes(width, numa) <==> InSomeNode(width, numa, k)
  {
    if numa != [] {
      var n := |numa| - 1;
      NodeEntries(width, numa[..n], k);
      assert forall i | 0 <= i < n :: numa[..n][i] == numa[i];
      assert InSomeNode(width, numa, k) <==>
             InSomeNode(width, numa[..n], k) || k in CpuSet(width, numa[n].info.group, numa[n].info.mask);
    }
  }

  /** Some record of a cache of data, of one of the three levels, has the processor. */
  predicate InSome(width: nat, caches: seq<Record<Cache>>, id: nat) {
    exists i | 0 <= i < |caches| ::
      (caches[i].info.kind == Data || caches[i].info.kind == Unified) && 1 <= caches[i].info.level <= 3
      && id in IdsOf(width, caches[i].info)
  }

  lemma {:induction false} EntryIn(width: nat, m: Table, caches: seq<Record<Cache>>, k: nat)
    requires k in m ==> m[k].processorId == k
    ensures var t := Caches(m, width, caches);
            && (k in t <==> k in m || InSome(width, caches, k))
            && (k in t ==> t[k].processorId == if k in m then k else 0)
  {
    if caches != [] {
      var n := |caches| - 1;
      EntryIn(width, m, caches[..n], k);
      assert forall i | 0 <= i < n :: caches[..n][i] == caches[i];
      assert InSome(width, caches, k) <==>
             InSome(width, caches[..n], k) || (Used(caches[n].info) && k in IdsOf(width, caches[n].info));
    }
  }
}
