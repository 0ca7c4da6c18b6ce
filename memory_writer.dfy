/** BCFWriter.hpp: the in-memory writer. Blocks are added one at a time with
    a sub-chunk index; type and state names are numbered by a linear search
    of the id maps with a wrapping counter for new names, block descriptors
    are numbered through the palette cache, and each block joins the group of
    its palette id in its sub-chunk. `write` merges the groups of every
    sub-chunk. */
module MemoryWriter {
  import opened Wrappers
  import opened LittleEndian
  import opened Structs
  import opened BlockGroups
  import opened Interning
  import opened Partitions
  import opened BcfUtils

  // ---------------------------------------------------------------------------
  // Numbering names: getOrCreateTypeId and getOrCreateStateId

  /** The least id below `n` that `m` maps to `name`: the first hit of the
      ascending walk over a `std::map`. */
  function FirstId(m: map<nat, Bytes>, name: Bytes, n: nat): (r: Option<nat>)
    ensures r.Some? ==> r.value < n && r.value in m && m[r.value] == name
    ensures r.Some? ==> forall id :: id < r.value && id in m ==> m[id] != name
    ensures r.None? ==> forall id :: id < n && id in m ==> m[id] != name
    decreases n
  {
    if n == 0 then None
    else match FirstId(m, name, n - 1)
      case Some(id) => Some(id)
      case None => if n - 1 in m && m[n - 1] == name then Some(n - 1) else None
  }

  /** The search loop over the map's entries in ascending id order. */
  method FindName(m: map<nat, Bytes>, name: Bytes, n: nat) returns (r: Option<nat>)
    ensures r == FirstId(m, name, n)
  {
    var es := Ascending(m, n);
    var i := 0;
    while i < |es|
      invariant 0 <= i <= |es|
      invariant forall j :: 0 <= j < i ==> es[j].1 != name
    {
      if es[i].1 == name {
        forall id | id < es[i].0 && id in m
          ensures m[id] != name
        {
          var j := AscendingHas(m, n, id);
          assert j < i;
        }
        return Some(es[i].0);
      }
      i := i + 1;
    }
    forall id | id < n && id in m
      ensures m[id] != name
    {
      var j := AscendingHas(m, n, id);
    }
    return None;
  }

  /** getOrCreateTypeId / getOrCreateStateId on a map and its counter: the
      least id already naming `name`; otherwise the counter's value, now
      naming `name` (overwriting whatever that id named), with the counter
      moved on and wrapping at `cap`. */
  function Intern(m: map<nat, Bytes>, next: nat, cap: nat, name: Bytes): (r: (nat, map<nat, Bytes>, nat))
    requires next < cap
    ensures r.0 < cap && r.2 < cap
    ensures r.0 in r.1 && r.1[r.0] == name
  {
    match FirstId(m, name, cap)
    case Some(id) => (id, m, next)
    case None => (next, m[next := name], (next + 1) % cap)
  }

  /** The body of getOrCreateTypeId / getOrCreateStateId. */
  method GetOrCreateId(m: map<nat, Bytes>, next: nat, cap: nat, name: Bytes)
    returns (id: nat, m': map<nat, Bytes>, next': nat)
    requires next < cap
    ensures (id, m', next') == Intern(m, next, cap, name)
  {
    var found := FindName(m, name, cap);
    if found.Some? {
      return found.value, m, next;
    }
    return next, m[next := name], (next + 1) % cap;
  }

  /** Ids `0..n` are in use, each naming a different name. */
  ghost predicate DenseNames(m: map<nat, Bytes>, n: nat) {
    (forall id :: id in m <==> id < n)
    && forall i, j :: i in m && j in m && i != j ==> m[i] != m[j]
  }

  /** While the counter has not wrapped, numbering keeps the ids dense and
      the names distinct: a name seen before keeps its id, a new one gets the
      next id, and every id keeps its name. */
  lemma {:induction false} InternDense(m: map<nat, Bytes>, next: nat, cap: nat, name: Bytes)
    requires DenseNames(m, next) && next + 1 < cap
    ensures var r := Intern(m, next, cap, name);
            && DenseNames(r.1, r.2)
            && (forall id :: id in m ==> id in r.1 && r.1[id] == m[id])
            && (r.2 == next <==> name in m.Values)
            && (r.2 == next + 1 <==> name !in m.Values)
  {
    var r := Intern(m, next, cap, name);
    if name in m.Values {
      var id :| id in m && m[id] == name;
      assert id < cap;
    } else {
      assert forall id :: id in m ==> m[id] != name;
    }
  }

  /** Once the counter has wrapped to 0 with every id in use, a new name takes
      id 0 and the name id 0 stood for has no id any more. */
  lemma {:induction false} InternWraps(m: map<nat, Bytes>, cap: nat, name: Bytes)
    requires 0 < cap && DenseNames(m, cap) && name !in m.Values
    ensures var r := Intern(m, 0, cap, name);
            && r.0 == 0 && r.1[0] == name && m[0] !in r.1.Values && r.2 == 1 % cap
  {
    assert forall id :: id in m ==> m[id] != name;
    var r := Intern(m, 0, cap, name);
    forall id | id in r.1
      ensures r.1[id] != m[0]
    {
      if id != 0 {
        assert r.1[id] == m[id];
      }
    }
  }

  /** The key-building loop of addBlock: each state name numbered in order,
      paired with its value as given. */
  function InternStates(m: map<nat, Bytes>, next: nat, states: seq<(Bytes, U8)>)
    : (r: (seq<StatePair>, map<nat, Bytes>, nat))
    requires next < 0x100
    ensures |r.0| == |states| && r.2 < 0x100
    ensures forall j :: 0 <= j < |states| ==> r.0[j].1 == states[j].1
    decreases |states|
  {
    if states == [] then ([], m, next)
    else
      var n := |states| - 1;
      var (pairs, m1, next1) := InternStates(m, next, states[..n]);
      var (id, m2, next2) := Intern(m1, next1, 0x100, states[n].0);
      (pairs + [(id, states[n].1)], m2, next2)
  }

  /** While the counter does not wrap, numbering the state names keeps them
      dense and distinct, and every id already in use keeps its name. */
  lemma {:induction false} InternStatesDense(m: map<nat, Bytes>, next: nat, states: seq<(Bytes, U8)>)
    requires DenseNames(m, next) && next + |states| < 0x100
    ensures var r := InternStates(m, next, states);
            && DenseNames(r.1, r.2) && next <= r.2 <= next + |states|
            && forall id :: id in m ==> id in r.1 && r.1[id] == m[id]
    decreases |states|
  {
    if states != [] {
      var n := |states| - 1;
      InternStatesDense(m, next, states[..n]);
      var (pairs, m1, next1) := InternStates(m, next, states[..n]);
      InternDense(m1, next1, 0x100, states[n].0);
    }
  }

  /** One more state numbered. */
  lemma {:induction false} InternStatesSnoc(m: map<nat, Bytes>, next: nat, states: seq<(Bytes, U8)>, i: nat)
    requires next < 0x100 && i < |states|
    ensures var t := InternStates(m, next, states[..i]);
            var u := Intern(t.1, t.2, 0x100, states[i].0);
            InternStates(m, next, states[..i + 1]) == (t.0 + [(u.0, states[i].1)], u.1, u.2)
  {
    assert states[..i + 1][..i] == states[..i];
  }

  /** Every id in use is below `n`. */
  ghost predicate IdsBelow(m: map<nat, Bytes>, n: nat) {
    forall id :: id in m ==> id < n
  }

  /** While the counter does not wrap and every id in use is below it,
      numbering a name keeps every id's name and the ids below the counter. */
  lemma {:induction false} InternKeeps(m: map<nat, Bytes>, next: nat, cap: nat, name: Bytes)
    requires IdsBelow(m, next) && next + 1 < cap
    ensures var r := Intern(m, next, cap, name);
            && IdsBelow(r.1, r.2) && next <= r.2 <= next + 1
            && forall id :: id in m ==> id in r.1 && r.1[id] == m[id]
  {
  }

  /** While the counter does not wrap, every pair of the key names its
      state: the id of the `j`th pair stands for the `j`th state name. */
  lemma {:induction false} InternStatesNames(m: map<nat, Bytes>, next: nat, states: seq<(Bytes, U8)>)
    requires IdsBelow(m, next) && next + |states| < 0x100
    ensures var r := InternStates(m, next, states);
            && IdsBelow(r.1, r.2) && next <= r.2 <= next + |states|
            && forall j :: 0 <= j < |states| ==> r.0[j].0 in r.1 && r.1[r.0[j].0] == states[j].0
    decreases |states|
  {
    if states != [] {
      var n := |states| - 1;
      var front := states[..n];
      InternStatesNames(m, next, front);
      var t := InternStates(m, next, front);
      var u := Intern(t.1, t.2, 0x100, states[n].0);
      InternKeeps(t.1, t.2, 0x100, states[n].0);
      var r := InternStates(m, next, states);
      assert r.0 == t.0 + [(u.0, states[n].1)] && r.1 == u.1 && r.2 == u.2;
      forall j | 0 <= j < |states|
        ensures r.0[j].0 in r.1 && r.1[r.0[j].0] == states[j].0
      {
        if j < n {
          var k := t.0[j].0;
          assert front[j] == states[j];
          assert k in t.1 && t.1[k] == states[j].0;
          assert r.0[j].0 == k;
        } else {
          assert r.0[j].0 == u.0;
        }
      }
    }
  }

  /** Dense names have every id below the counter. */
  lemma {:induction false} DenseBelow(m: map<nat, Bytes>, n: nat)
    requires DenseNames(m, n)
    ensures IdsBelow(m, n)
  {
  }

  // ---------------------------------------------------------------------------
  // addBlock

  /** The sub-chunk list after `while (subChunks.size() <= index) push_back({})`. */
  function Grown(subs: seq<seq<BlockGroup>>, index: nat): (r: seq<seq<BlockGroup>>)
    ensures |r| > index && |r| >= |subs| && r[..|subs|] == subs
    ensures |subs| > index ==> r == subs
    ensures |subs| <= index ==> |r| == index + 1
    ensures forall i :: |subs| <= i < |r| ==> r[i] == []
    decreases index + 1 - |subs|
  {
    if |subs| > index then subs else Grown(subs + [[]], index)
  }

  /** The growing loop of addBlock. */
  method GrowTo(subs: seq<seq<BlockGroup>>, index: nat) returns (r: seq<seq<BlockGroup>>)
    ensures r == Grown(subs, index)
  {
    r := subs;
    while |r| <= index
      invariant Grown(r, index) == Grown(subs, index)
      decreases index + 1 - |r|
    {
      r := r + [[]];
    }
  }

  /** What the writer holds: the sub-chunks, paletteList, typeMap, stateMap
      and the two counters. */
  datatype WriterState = WriterState(subChunks: seq<seq<BlockGroup>>, list: seq<PaletteKey>,
                                     typeMap: map<nat, Bytes>, stateMap: map<nat, Bytes>,
                                     nextTypeId: U16, nextStateId: U8)

  /** The key addBlock builds: the type's id and the numbered state pairs,
      with no payload. */
  function KeyOf(c: WriterState, blockType: Bytes, states: seq<(Bytes, U8)>): (k: PaletteKey)
    ensures |k.states| == |states|
  {
    PaletteKey(Intern(c.typeMap, c.nextTypeId, 0x1_0000, blockType).0,
               InternStates(c.stateMap, c.nextStateId, states).0, None)
  }

  /** The palette after getOrCreatePaletteId. */
  function ListWith(list: seq<PaletteKey>, key: PaletteKey): (r: seq<PaletteKey>)
    ensures key in r
  {
    if key in list then list else list + [key]
  }

  /** The writer after `addBlock(index, x, y, z, blockType, states)`: the
      sub-chunk list grown to hold `index`, both names numbered, the key
      numbered, and the block (coordinates cast to 16 bits) added to the group
      of its palette id in sub-chunk `index`. */
  function Added(c: WriterState, index: nat, x: I32, y: I32, z: I32, blockType: Bytes, states: seq<(Bytes, U8)>)
    : (r: WriterState)
    requires |c.list| < 0x1_0000_0000
    ensures |r.subChunks| == |Grown(c.subChunks, index)|
    ensures forall i :: 0 <= i < |r.subChunks| && i != index ==> r.subChunks[i] == Grown(c.subChunks, index)[i]
    ensures r.list == ListWith(c.list, KeyOf(c, blockType, states))
  {
    var subs := Grown(c.subChunks, index);
    var t := Intern(c.typeMap, c.nextTypeId, 0x1_0000, blockType);
    var s := InternStates(c.stateMap, c.nextStateId, states);
    var key := KeyOf(c, blockType, states);
    var list := ListWith(c.list, key);
    var pid := IndexOf(list, key);
    WriterState(subs[index := WithBlock(subs[index], pid, WrapI16(x), WrapI16(y), WrapI16(z))],
                list, t.1, s.1, t.2, s.2)
  }

  /** `Added` assembled from its parts, as addBlock computes them one after
      the other. */
  lemma {:induction false} AddedFrom(c: WriterState, index: nat, x: I32, y: I32, z: I32, blockType: Bytes,
                                     states: seq<(Bytes, U8)>, subs: seq<seq<BlockGroup>>,
                                     list: seq<PaletteKey>, groups: seq<BlockGroup>, d: WriterState)
    requires |c.list| < 0x1_0000_0000 && subs == Grown(c.subChunks, index)
    requires list == ListWith(c.list, KeyOf(c, blockType, states))
    requires groups == WithBlock(subs[index], IndexOf(list, KeyOf(c, blockType, states)), WrapI16(x), WrapI16(y), WrapI16(z))
    requires d.subChunks == subs[index := groups] && d.list == list
    requires (d.typeMap, d.nextTypeId as nat) == (Intern(c.typeMap, c.nextTypeId, 0x1_0000, blockType).1,
                                                  Intern(c.typeMap, c.nextTypeId, 0x1_0000, blockType).2)
    requires (d.stateMap, d.nextStateId as nat) == (InternStates(c.stateMap, c.nextStateId, states).1,
                                                    InternStates(c.stateMap, c.nextStateId, states).2)
    ensures Added(c, index, x, y, z, blockType, states) == d
  {
  }

  /** Both counters have dense, distinct names behind them. */
  ghost predicate NamesOk(c: WriterState) {
    DenseNames(c.typeMap, c.nextTypeId) && DenseNames(c.stateMap, c.nextStateId)
  }

  /** The palette keys are distinct and name only ids in use. */
  ghost predicate ListOk(c: WriterState) {
    KeysOk(c.list, c.typeMap, c.stateMap)
  }

  ghost predicate KeysOk(list: seq<PaletteKey>, types: map<nat, Bytes>, states: map<nat, Bytes>) {
    && (forall i, j :: 0 <= i < j < |list| ==> list[i] != list[j])
    && forall i :: 0 <= i < |list| ==> KeyNamed(list[i], types, states)
  }

  ghost predicate KeyNamed(k: PaletteKey, types: map<nat, Bytes>, states: map<nat, Bytes>) {
    k.typeId in types && forall j :: 0 <= j < |k.states| ==> k.states[j].0 in states
  }

  /** Numbering a key whose ids are in use keeps the keys distinct and named,
      also after the maps grow. */
  lemma {:induction false} ListWithOk(list: seq<PaletteKey>, key: PaletteKey, types: map<nat, Bytes>,
                                      states: map<nat, Bytes>, types': map<nat, Bytes>, states': map<nat, Bytes>)
    requires KeysOk(list, types, states) && KeyNamed(key, types', states')
    requires types.Keys <= types'.Keys && states.Keys <= states'.Keys
    ensures KeysOk(ListWith(list, key), types', states')
  {
    var r := ListWith(list, key);
    if key !in list {
      assert r == list + [key];
      assert forall i :: 0 <= i < |list| ==> list[i] != key;
    }
    forall i | 0 <= i < |r|
      ensures KeyNamed(r[i], types', states')
    {
      if i < |list| {
        assert r[i] == list[i] && KeyNamed(list[i], types, states);
      }
    }
  }

  /** Every sub-chunk is a partition of palette ids below `n`. */
  ghost predicate ChunksOk(subs: seq<seq<BlockGroup>>, n: nat) {
    forall i :: 0 <= i < |subs| ==> SubChunkOk(subs[i], n)
  }

  ghost predicate SubChunkOk(gs: seq<BlockGroup>, n: nat) {
    Partition(gs) && forall k :: k in Pids(gs) ==> k < n
  }

  /** What a consistent writer holds. */
  ghost predicate Consistent(c: WriterState) {
    NamesOk(c) && ListOk(c) && ChunksOk(c.subChunks, |c.list|)
  }

  /** While neither counter wraps, addBlock numbers the names so that the
      key's type id names `blockType`, its pairs name the states and keep
      their values, every id in use keeps its name, and the names stay dense
      and distinct. */
  lemma {:induction false} AddedNames(c: WriterState, index: nat, x: I32, y: I32, z: I32, blockType: Bytes,
                                      states: seq<(Bytes, U8)>)
    requires NamesOk(c) && |c.list| < 0x1_0000_0000
    requires c.nextTypeId + 1 < 0x1_0000 && c.nextStateId + |states| < 0x100
    ensures var r := Added(c, index, x, y, z, blockType, states);
            var key := KeyOf(c, blockType, states);
            && NamesOk(r)
            && key.typeId in r.typeMap && r.typeMap[key.typeId] == blockType
            && (forall j :: 0 <= j < |states| ==>
                  key.states[j].0 in r.stateMap && r.stateMap[key.states[j].0] == states[j].0
                  && key.states[j].1 == states[j].1)
            && (forall id :: id in c.typeMap ==> id in r.typeMap)
            && (forall id :: id in c.stateMap ==> id in r.stateMap)
  {
    InternDense(c.typeMap, c.nextTypeId, 0x1_0000, blockType);
    InternStatesDense(c.stateMap, c.nextStateId, states);
    DenseBelow(c.stateMap, c.nextStateId);
    InternStatesNames(c.stateMap, c.nextStateId, states);
  }

  /** The sub-chunk addBlock works on is one it already had, or a new empty
      one. */
  lemma {:induction false} GrownOk(subs: seq<seq<BlockGroup>>, index: nat, n: nat)
    requires ChunksOk(subs, n)
    ensures ChunksOk(Grown(subs, index), n)
  {
    var g := Grown(subs, index);
    forall i | 0 <= i < |g|
      ensures SubChunkOk(g[i], n)
    {
      if i < |subs| {
        assert g[i] == g[..|subs|][i];
      } else {
        assert g[i] == [];
      }
    }
  }

  /** Adding a block with an id below `m` to one sub-chunk of partitions of
      ids below `n <= m` leaves partitions of ids below `m`. */
  lemma {:induction false} WithBlockOk(subs: seq<seq<BlockGroup>>, index: nat, n: nat, m: nat, pid: PaletteId,
                                       x: Coord, y: Coord, z: Coord)
    requires ChunksOk(subs, n) && index < |subs| && n <= m && pid as int < m
    requires Size(subs[index]) + 1 < 0x1_0000_0000
    ensures ChunksOk(subs[index := WithBlock(subs[index], pid, x, y, z)], m)
    ensures Cells(WithBlock(subs[index], pid, x, y, z)) == Cells(subs[index]) + multiset{(pid, x, y, z)}
  {
    assert SubChunkOk(subs[index], n);
    WithBlockSpec(subs[index], pid, x, y, z);
    var r := subs[index := WithBlock(subs[index], pid, x, y, z)];
    forall i | 0 <= i < |r|
      ensures SubChunkOk(r[i], m)
    {
      if i != index {
        assert SubChunkOk(subs[i], n);
      }
    }
  }

  /** While the sub-chunk has room for one more block, addBlock adds exactly
      the block's cell, under the id of its key, to sub-chunk `index` and
      keeps every sub-chunk a partition of ids from the palette. */
  lemma {:induction false} AddedCell(c: WriterState, index: nat, x: I32, y: I32, z: I32, blockType: Bytes,
                                     states: seq<(Bytes, U8)>)
    requires ChunksOk(c.subChunks, |c.list|) && |c.list| < 0x1_0000_0000
    requires Size(Grown(c.subChunks, index)[index]) + 1 < 0x1_0000_0000
    ensures var r := Added(c, index, x, y, z, blockType, states);
            var key := KeyOf(c, blockType, states);
            && ChunksOk(r.subChunks, |r.list|)
            && Cells(r.subChunks[index]) == Cells(Grown(c.subChunks, index)[index])
                                            + multiset{(IndexOf(r.list, key) as PaletteId, WrapI16(x), WrapI16(y), WrapI16(z))}
  {
    GrownOk(c.subChunks, index, |c.list|);
    var r := Added(c, index, x, y, z, blockType, states);
    var key := KeyOf(c, blockType, states);
    WithBlockOk(Grown(c.subChunks, index), index, |c.list|, |r.list|, IndexOf(r.list, key) as PaletteId,
                WrapI16(x), WrapI16(y), WrapI16(z));
  }

  /** While neither counter wraps, addBlock keeps the palette keys distinct
      and naming only ids in use. */
  lemma {:induction false} AddedList(c: WriterState, index: nat, x: I32, y: I32, z: I32, blockType: Bytes,
                                     states: seq<(Bytes, U8)>)
    requires NamesOk(c) && ListOk(c) && |c.list| < 0x1_0000_0000
    requires c.nextTypeId + 1 < 0x1_0000 && c.nextStateId + |states| < 0x100
    ensures ListOk(Added(c, index, x, y, z, blockType, states))
  {
    AddedNames(c, index, x, y, z, blockType, states);
    var r := Added(c, index, x, y, z, blockType, states);
    var key := KeyOf(c, blockType, states);
    assert KeyNamed(key, r.typeMap, r.stateMap);
    ListWithOk(c.list, key, c.typeMap, c.stateMap, r.typeMap, r.stateMap);
  }

  /** addBlock keeps a writer consistent while neither counter wraps and the
      sub-chunk has room for one more block. */
  lemma {:induction false} AddedKeeps(c: WriterState, index: nat, x: I32, y: I32, z: I32, blockType: Bytes,
                                      states: seq<(Bytes, U8)>)
    requires Consistent(c) && |c.list| < 0x1_0000_0000
    requires c.nextTypeId + 1 < 0x1_0000 && c.nextStateId + |states| < 0x100
    requires Size(Grown(c.subChunks, index)[index]) + 1 < 0x1_0000_0000
    ensures Consistent(Added(c, index, x, y, z, blockType, states))
  {
    AddedNames(c, index, x, y, z, blockType, states);
    AddedList(c, index, x, y, z, blockType, states);
    AddedCell(c, index, x, y, z, blockType, states);
  }

  // ---------------------------------------------------------------------------
  // write

  /** `result` is what mergeBlockGroups makes of `groups`: one group per
      palette id, each the concatenation in input order of that id's groups,
      and the same cells when the vectors are aligned. */
  ghost predicate MergeOf(groups: seq<BlockGroup>, result: seq<BlockGroup>) {
    && DistinctPids(result)
    && (forall i :: 0 <= i < |result| ==> result[i] == Merged(groups, result[i].paletteId))
    && (forall k :: k in Pids(groups) <==> exists i :: 0 <= i < |result| && result[i].paletteId == k)
    && (AllAligned(groups) ==> AllAligned(result) && Cells(result) == Cells(groups))
  }

  /** The merge loop of write over every sub-chunk. */
  method MergeAll(subs: seq<seq<BlockGroup>>) returns (r: seq<seq<BlockGroup>>)
    ensures |r| == |subs| && forall i :: 0 <= i < |subs| ==> MergeOf(subs[i], r[i])
  {
    r := [];
    var i := 0;
    while i < |subs|
      invariant 0 <= i <= |subs| && |r| == i
      invariant forall j :: 0 <= j < i ==> MergeOf(subs[j], r[j])
    {
      var merged := MergeBlockGroups(subs[i]);
      r := r + [merged];
      i := i + 1;
    }
  }

  // ---------------------------------------------------------------------------
  // The writer

  class Writer {
    var subChunks: seq<seq<BlockGroup>>
    const palette: Palette
    var typeMap: map<nat, Bytes>
    var stateMap: map<nat, Bytes>
    var nextTypeId: U16
    var nextStateId: U8

    /** The palette's list and cache agree, and the ids of both maps fit
        their widths. */
    ghost predicate Valid()
      reads this, palette
    {
      palette.Valid()
    }

    function State(): (c: WriterState)
      reads this, palette
    {
      WriterState(subChunks, palette.list, typeMap, stateMap, nextTypeId, nextStateId)
    }

    constructor ()
      ensures Valid() && fresh(palette)
      ensures State() == WriterState([], [], map[], map[], 0, 0)
    {
      subChunks := [];
      palette := new Palette();
      typeMap, stateMap := map[], map[];
      nextTypeId, nextStateId := 0, 0;
    }

    /** getOrCreateTypeId. */
    method GetOrCreateTypeId(blockType: Bytes) returns (id: BlockTypeId)
      requires Valid()
      modifies this
      ensures Valid()
      ensures (id as nat, typeMap, nextTypeId as nat) == Intern(old(typeMap), old(nextTypeId), 0x1_0000, blockType)
      ensures subChunks == old(subChunks) && stateMap == old(stateMap) && nextStateId == old(nextStateId)
    {
      var i, m, n := GetOrCreateId(typeMap, nextTypeId, 0x1_0000, blockType);
      id, typeMap, nextTypeId := i, m, n;
    }

    /** getOrCreateStateId. */
    method GetOrCreateStateId(stateName: Bytes) returns (id: StateNameId)
      requires Valid()
      modifies this
      ensures Valid()
      ensures (id as nat, stateMap, nextStateId as nat) == Intern(old(stateMap), old(nextStateId), 0x100, stateName)
      ensures subChunks == old(subChunks) && typeMap == old(typeMap) && nextTypeId == old(nextTypeId)
    {
      var i, m, n := GetOrCreateId(stateMap, nextStateId, 0x100, stateName);
      id, stateMap, nextStateId := i, m, n;
    }

    /** The state loop of addBlock: each state name numbered in order by
        getOrCreateStateId, paired with its value. */
    method NumberStates(states: seq<(Bytes, U8)>) returns (pairs: seq<StatePair>)
      requires Valid()
      modifies this
      ensures Valid()
      ensures (pairs, stateMap, nextStateId as nat) == InternStates(old(stateMap), old(nextStateId), states)
      ensures subChunks == old(subChunks) && typeMap == old(typeMap) && nextTypeId == old(nextTypeId)
    {
      ghost var m, next := stateMap, nextStateId as nat;
      pairs := [];
      var i := 0;
      while i < |states|
        invariant 0 <= i <= |states|
        invariant Valid()
        invariant (pairs, stateMap, nextStateId as nat) == InternStates(m, next, states[..i])
        invariant subChunks == old(subChunks) && typeMap == old(typeMap) && nextTypeId == old(nextTypeId)
      {
        InternStatesSnoc(m, next, states, i);
        var id := GetOrCreateStateId(states[i].0);
        pairs := pairs + [(id, states[i].1)];
        i := i + 1;
      }
      assert states[..i] == states;
    }

    /** addBlock. A negative index would be compared as a huge unsigned
        value and never stop growing the list, so it must not be negative. */
    method AddBlock(subChunkIndex: int, x: I32, y: I32, z: I32, blockType: Bytes, states: seq<(Bytes, U8)>)
      requires Valid() && subChunkIndex >= 0 && |palette.list| < 0x1_0000_0000
      modifies this, palette
      ensures Valid()
      ensures State() == Added(old(State()), subChunkIndex, x, y, z, blockType, states)
    {
      ghost var c := State();
      var subs := GrowTo(subChunks, subChunkIndex);
      var typeId := GetOrCreateTypeId(blockType);
      var pairs := NumberStates(states);
      var key := PaletteKey(typeId, pairs, None);
      assert key == KeyOf(c, blockType, states);
      var pid := palette.GetOrCreatePaletteId(key);
      var groups := AddBlockToGroup(subs[subChunkIndex], pid, WrapI16(x), WrapI16(y), WrapI16(z));
      subChunks := subs[subChunkIndex := groups];
      AddedFrom(c, subChunkIndex, x, y, z, blockType, states, subs, palette.list, groups, State());
    }

    /** write: every sub-chunk's groups merged per palette id. Handing the
        merged groups to writeBCF is not part of this model. */
    method Write()
      requires Valid()
      modifies this
      ensures Valid()
      ensures palette.list == old(palette.list) && typeMap == old(typeMap) && stateMap == old(stateMap)
      ensures nextTypeId == old(nextTypeId) && nextStateId == old(nextStateId)
      ensures |subChunks| == |old(subChunks)|
      ensures forall i :: 0 <= i < |subChunks| ==> MergeOf(old(subChunks)[i], subChunks[i])
    {
      subChunks := MergeAll(subChunks);
    }
  }
}
