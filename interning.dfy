/** The numbering of names and block descriptors that both cached writers share
    (getOrCreateTypeId, getOrCreateStateId, getOrCreateStateValue and
    getOrCreatePaletteId, and the key-building loop of addBlock): a value seen
    before gets its stored id, a new one the next sequential id. */
module Interning {
  import opened Wrappers
  import opened LittleEndian
  import opened Structs

  /** Position of the first occurrence of `k` in `order`. */
  function IndexOf<K(==)>(order: seq<K>, k: K): (i: nat)
    requires k in order
    ensures i < |order| && order[i] == k
    ensures forall j :: 0 <= j < i ==> order[j] != k
  {
    if order[0] == k then 0 else 1 + IndexOf(order[1..], k)
  }

  /** An index found in a sequence keeps its position when the sequence grows. */
  lemma {:induction false} IndexOfPrefix<K>(order: seq<K>, more: seq<K>, k: K)
    requires k in order
    ensures k in order + more && IndexOf(order + more, k) == IndexOf(order, k)
  {
    var i, j := IndexOf(order, k), IndexOf(order + more, k);
    assert (order + more)[i] == k;
  }

  /** A value new to `order` is found at the end once appended. */
  lemma {:induction false} IndexOfAppend<K>(order: seq<K>, k: K)
    requires k !in order
    ensures k in order + [k] && IndexOf(order + [k], k) == |order|
  {
    var s := order + [k];
    assert s[|order|] == k;
    var i := IndexOf(s, k);
    assert forall j :: 0 <= j < |order| ==> s[j] == order[j] != k;
  }

  /** `order` lists distinct values; `fwd` maps each id (a position) to its
      value and `rev` each value back to its id. */
  ghost predicate Numbering<K>(order: seq<K>, fwd: map<nat, K>, rev: map<K, nat>) {
    (forall i: nat :: i in fwd <==> i < |order|)
    && (forall i :: 0 <= i < |order| ==> i in fwd && fwd[i] == order[i] && order[i] in rev && rev[order[i]] == i)
    && (forall k :: k in rev ==> rev[k] < |order| && order[rev[k]] == k)
  }

  /** In a numbering, the id of a value is its position in `order`. */
  lemma {:induction false} NumberingIndex<K>(order: seq<K>, fwd: map<nat, K>, rev: map<K, nat>, k: K)
    requires Numbering(order, fwd, rev) && k in rev
    ensures k in order && rev[k] == IndexOf(order, k)
  {
    assert order[rev[k]] == k;
    var i := IndexOf(order, k);
    assert rev[order[i]] == i;
  }

  /** The values of a numbering are distinct. */
  lemma {:induction false} NumberingDistinct<K>(order: seq<K>, fwd: map<nat, K>, rev: map<K, nat>)
    requires Numbering(order, fwd, rev)
    ensures forall i, j :: 0 <= i < j < |order| ==> order[i] != order[j]
  {
    forall i, j | 0 <= i < j < |order| ensures order[i] != order[j] {
      assert rev[order[i]] == i && rev[order[j]] == j;
    }
  }

  /** Numbering a new value with the next id keeps a numbering. */
  lemma {:induction false} NumberingAppend<K>(order: seq<K>, fwd: map<nat, K>, rev: map<K, nat>, k: K)
    requires Numbering(order, fwd, rev) && k !in rev
    ensures Numbering(order + [k], fwd[|order| := k], rev[k := |order|])
  {
    var order', fwd', rev' := order + [k], fwd[|order| := k], rev[k := |order|];
    forall i | 0 <= i < |order'|
      ensures i in fwd' && fwd'[i] == order'[i] && order'[i] in rev' && rev'[order'[i]] == i
    {
      if i < |order| {
        assert order'[i] == order[i] && order[i] in rev;
        assert order[i] != k;
      }
    }
    forall x | x in rev' ensures rev'[x] < |order'| && order'[rev'[x]] == x {
      if x != k {
        assert order'[rev[x]] == order[rev[x]];
      }
    }
  }

  /** Dropping the last value of a numbering leaves a numbering. */
  lemma {:induction false} NumberingDropLast<K>(order: seq<K>, fwd: map<nat, K>, rev: map<K, nat>)
    requires Numbering(order, fwd, rev) && order != []
    ensures Numbering(order[..|order| - 1], fwd - {|order| - 1}, rev - {order[|order| - 1]})
  {
    NumberingDistinct(order, fwd, rev);
    var n := |order| - 1;
    var last := order[n];
    var fwd', rev' := fwd - {n}, rev - {last};
    forall i | 0 <= i < n ensures order[..n][i] in rev' {
      assert order[i] != last;
    }
    forall k | k in rev' ensures rev'[k] < n && order[..n][rev'[k]] == k {
      assert rev[k] != n;
    }
  }

  /** A numbering of `n` values has `n` keys in its reverse map. */
  lemma {:induction false} NumberingCard<K>(order: seq<K>, fwd: map<nat, K>, rev: map<K, nat>)
    requires Numbering(order, fwd, rev)
    ensures |rev.Keys| == |order|
    decreases |order|
  {
    if order == [] {
      assert rev.Keys == {};
    } else {
      var n := |order| - 1;
      var last := order[n];
      NumberingDropLast(order, fwd, rev);
      NumberingCard(order[..n], fwd - {n}, rev - {last});
      assert rev.Keys == (rev - {last}).Keys + {last};
    }
  }

  lemma {:induction false} ModSmall(a: nat, c: nat)
    requires a < c
    ensures a % c == a
  {
  }

  lemma {:induction false} ModSelf(c: nat)
    requires c > 0
    ensures c % c == 0
  {
    assert c == 1 * c + 0;
  }

  /** A set inside another has at most its cardinality. */
  lemma {:induction false} SubsetCard<K>(a: set<K>, b: set<K>)
    requires a <= b
    ensures |a| <= |b|
    decreases |a|
  {
    if a != {} {
      var x :| x in a;
      SubsetCard(a - {x}, b - {x});
    }
  }

  /** One of the string numberings of the writers: `idToName` is typeMap,
      stateMap or stateValueMap, `nameToId` its reverse map, `next` the counter
      that the id type wraps at `capacity`. */
  class Interner<K(==)> {
    var idToName: map<nat, K>
    var nameToId: map<K, nat>
    var next: nat
    const capacity: nat
    /** The values in order of first appearance. */
    ghost var order: seq<K>

    ghost predicate Valid()
      reads this
    {
      Numbering(order, idToName, nameToId) && 0 < capacity && |order| <= capacity
      && next == |order| % capacity
    }

    constructor (capacity: nat)
      requires 0 < capacity
      ensures Valid() && this.capacity == capacity && order == []
      ensures idToName == map[] && nameToId == map[]
    {
      idToName, nameToId, next := map[], map[], 0;
      this.capacity := capacity;
      order := [];
    }

    /** The stored id of a seen value, else the next id, recorded both ways.
        While ids remain, the id is the value's first-seen position. Once
        every id is in use the counter has wrapped to 0: a new value takes id
        0 over, and the first value, which still maps to 0, no longer has an
        id that names it. */
    method GetOrCreate(name: K) returns (id: nat)
      requires Valid()
      modifies this
      ensures nameToId.Keys == old(nameToId.Keys) + {name} && id < capacity
      ensures |old(nameToId.Keys) + {name}| <= capacity ==>
                && Valid()
                && order == (if name in old(nameToId) then old(order) else old(order) + [name])
                && id < |order| && order[id] == name
                && idToName == (if name in old(nameToId) then old(idToName) else old(idToName)[id := name])
                && nameToId == (if name in old(nameToId) then old(nameToId) else old(nameToId)[name := id])
      ensures |old(nameToId.Keys) + {name}| > capacity ==>
                && name !in old(nameToId) && |old(order)| == capacity && order == old(order)
                && id == 0 && next == 1 % capacity
                && idToName == old(idToName)[0 := name] && nameToId == old(nameToId)[name := 0]
                && order[0] != name && order[0] in nameToId && nameToId[order[0]] == 0
    {
      NumberingCard(order, idToName, nameToId);
      if name in nameToId {
        NumberingIndex(order, idToName, nameToId, name);
        assert nameToId.Keys + {name} == nameToId.Keys;
        id := nameToId[name];
        return;
      }
      assert |nameToId.Keys + {name}| == |order| + 1;
      assert name !in order by {
        forall i | 0 <= i < |order| ensures order[i] != name {
          assert order[i] in nameToId;
        }
      }
      ghost var full := |order| == capacity;
      if full {
        assert order[0] in nameToId && nameToId[order[0]] == 0;
        ModSelf(capacity);
      } else {
        NumberingAppend(order, idToName, nameToId, name);
        ModSmall(|order|, capacity);
        IndexOfAppend(order, name);
      }
      id := next;
      next := (next + 1) % capacity;
      idToName := idToName[id := name];
      nameToId := nameToId[name := id];
      if !full {
        order := order + [name];
      }
    }
  }

  // ---------------------------------------------------------------------------
  // Palette keys

  /** What a key stands for: the type name, the (state name, state value)
      pairs and the payload, looked up in the three numberings. */
  function Describe(types: seq<Bytes>, names: seq<Bytes>, values: seq<Bytes>, k: PaletteKey)
    : (d: (Bytes, seq<(Bytes, Bytes)>, Option<Bytes>))
    requires Named(types, names, values, k)
    ensures d.0 == types[k.typeId] && d.2 == k.payload && |d.1| == |k.states|
    ensures forall j :: 0 <= j < |k.states| ==> d.1[j] == (names[k.states[j].0], values[k.states[j].1])
  {
    (types[k.typeId],
     seq(|k.states|, j requires 0 <= j < |k.states| && Named(types, names, values, k) =>
       (names[k.states[j].0], values[k.states[j].1])),
     k.payload)
  }

  /** Every id of the key is numbered. */
  predicate Named(types: seq<Bytes>, names: seq<Bytes>, values: seq<Bytes>, k: PaletteKey) {
    k.typeId < |types|
    && forall j :: 0 <= j < |k.states| ==> k.states[j].0 < |names| && k.states[j].1 < |values|
  }

  /** Numberings list distinct values, so a key is determined by what it
      stands for. */
  lemma {:induction false} DescribeInjective(types: seq<Bytes>, names: seq<Bytes>, values: seq<Bytes>, a: PaletteKey, b: PaletteKey)
    requires forall i, j :: 0 <= i < j < |types| ==> types[i] != types[j]
    requires forall i, j :: 0 <= i < j < |names| ==> names[i] != names[j]
    requires forall i, j :: 0 <= i < j < |values| ==> values[i] != values[j]
    requires Named(types, names, values, a) && Named(types, names, values, b)
    requires Describe(types, names, values, a) == Describe(types, names, values, b)
    ensures a == b
  {
    var da, db := Describe(types, names, values, a), Describe(types, names, values, b);
    assert a.typeId == b.typeId by {
      if a.typeId < b.typeId {} else if b.typeId < a.typeId {}
    }
    forall j | 0 <= j < |a.states| ensures a.states[j] == b.states[j] {
      assert da.1[j] == db.1[j];
      var n1, v1, n2, v2 := a.states[j].0, a.states[j].1, b.states[j].0, b.states[j].1;
      assert n1 == n2 by { if n1 < n2 {} else if n2 < n1 {} }
      assert v1 == v2 by { if v1 < v2 {} else if v2 < v1 {} }
    }
  }

  /** A key stays named when the numberings grow. */
  lemma {:induction false} NamedGrows(types: seq<Bytes>, names: seq<Bytes>, values: seq<Bytes>,
                   types': seq<Bytes>, names': seq<Bytes>, values': seq<Bytes>, k: PaletteKey)
    requires Named(types, names, values, k)
    requires types <= types' && names <= names' && values <= values'
    ensures Named(types', names', values', k)
    ensures Describe(types', names', values', k) == Describe(types, names, values, k)
  {
    var d, d' := Describe(types, names, values, k), Describe(types', names', values', k);
    assert types'[k.typeId] == types[k.typeId];
    forall j | 0 <= j < |k.states| ensures d'.1[j] == d.1[j] {
      assert names'[k.states[j].0] == names[k.states[j].0];
      assert values'[k.states[j].1] == values[k.states[j].1];
    }
    assert d'.1 == d.1;
  }

  /** paletteList with its hash map paletteCache: a key's id is its position. */
  class Palette {
    var list: seq<PaletteKey>
    var cache: map<PaletteKey, PaletteId>

    ghost predicate Valid()
      reads this
    {
      |list| <= 0x1_0000_0000
      && (forall k :: k in cache ==> cache[k] < |list| && list[cache[k]] == k)
      && (forall i :: 0 <= i < |list| ==> list[i] in cache && cache[list[i]] == i)
    }

    constructor ()
      ensures Valid() && list == [] && cache == map[]
    {
      list, cache := [], map[];
    }

    /** The cached id of a seen key, else its position after appending it. Key
        equality is `PaletteKey::operator==`, which is structural equality
        (Structs.KeyEqualsIsEquality). */
    method GetOrCreatePaletteId(key: PaletteKey) returns (id: PaletteId)
      requires Valid() && (key in cache || |list| < 0x1_0000_0000)
      modifies this
      ensures Valid()
      ensures list == if key in old(list) then old(list) else old(list) + [key]
      ensures key in list && id as int == IndexOf(list, key)
    {
      if key in cache {
        id := cache[key];
        var i := IndexOf(list, key);
        assert cache[list[i]] == i;
        return;
      }
      assert key !in list by {
        forall i | 0 <= i < |list| ensures list[i] != key {
          assert list[i] in cache;
        }
      }
      id := |list|;
      list := list + [key];
      cache := cache[key := id];
      assert forall j :: 0 <= j < |list| - 1 ==> list[j] == old(list)[j];
    }
  }

  /** The state names of a state list. */
  ghost function StateNames(states: seq<(Bytes, Bytes)>): set<Bytes> {
    if states == [] then {} else StateNames(states[..|states| - 1]) + {states[|states| - 1].0}
  }

  /** The state values of a state list. */
  ghost function StateValues(states: seq<(Bytes, Bytes)>): set<Bytes> {
    if states == [] then {} else StateValues(states[..|states| - 1]) + {states[|states| - 1].1}
  }

  /** StateNames and StateValues hold exactly the components. */
  lemma {:induction false} StatesHave(states: seq<(Bytes, Bytes)>, j: nat)
    requires j < |states|
    ensures states[j].0 in StateNames(states) && states[j].1 in StateValues(states)
    decreases |states|
  {
    if j < |states| - 1 {
      StatesHave(states[..|states| - 1], j);
    }
  }

  /** Every key of a palette list is numbered. */
  ghost predicate AllNamed(types: seq<Bytes>, names: seq<Bytes>, values: seq<Bytes>, list: seq<PaletteKey>) {
    forall i :: 0 <= i < |list| ==> Named(types, names, values, list[i])
  }

  /** Palette keys keep their meaning when the numberings grow. */
  lemma {:induction false} AllNamedGrows(types: seq<Bytes>, names: seq<Bytes>, values: seq<Bytes>,
                      types': seq<Bytes>, names': seq<Bytes>, values': seq<Bytes>, list: seq<PaletteKey>)
    requires AllNamed(types, names, values, list)
    requires types <= types' && names <= names' && values <= values'
    ensures AllNamed(types', names', values', list)
    ensures forall i :: 0 <= i < |list| ==>
              Describe(types', names', values', list[i]) == Describe(types, names, values, list[i])
  {
    forall i | 0 <= i < |list|
      ensures Named(types', names', values', list[i])
      ensures Describe(types', names', values', list[i]) == Describe(types, names, values, list[i])
    {
      NamedGrows(types, names, values, types', names', values', list[i]);
    }
  }

  lemma {:induction false} AllNamedAppend(types: seq<Bytes>, names: seq<Bytes>, values: seq<Bytes>, list: seq<PaletteKey>, k: PaletteKey)
    requires AllNamed(types, names, values, list) && Named(types, names, values, k)
    ensures AllNamed(types, names, values, list + [k])
  {
    var list' := list + [k];
    forall i | 0 <= i < |list'| ensures Named(types, names, values, list'[i]) {
      if i < |list| {
        assert list'[i] == list[i];
      }
    }
  }

  /** A key built from numbered strings stands for those strings. */
  lemma {:induction false} KeyDescribes(types: seq<Bytes>, names: seq<Bytes>, values: seq<Bytes>, k: PaletteKey,
                     blockType: Bytes, states: seq<(Bytes, Bytes)>)
    requires k.typeId < |types| && types[k.typeId] == blockType
    requires StatesNumbered(k.states, states, names, values)
    ensures Named(types, names, values, k)
    ensures Describe(types, names, values, k) == (blockType, states, k.payload)
  {
    var d := Describe(types, names, values, k);
    assert d.1 == states;
  }

  /** Key state pair `j` stands for state `j`. */
  ghost predicate StatesNumbered(st: seq<StatePair>, states: seq<(Bytes, Bytes)>, names: seq<Bytes>, values: seq<Bytes>) {
    |st| == |states|
    && forall j :: 0 <= j < |st| ==>
         st[j].0 < |names| && names[st[j].0] == states[j].0 && st[j].1 < |values| && values[st[j].1] == states[j].1
  }

  lemma {:induction false} StatesNumberedGrow(st: seq<StatePair>, states: seq<(Bytes, Bytes)>, names: seq<Bytes>, values: seq<Bytes>,
                           names': seq<Bytes>, values': seq<Bytes>)
    requires StatesNumbered(st, states, names, values) && names <= names' && values <= values'
    ensures StatesNumbered(st, states, names', values')
  {
    forall j | 0 <= j < |st|
      ensures names'[st[j].0] == names[st[j].0] && values'[st[j].1] == values[st[j].1]
    {
    }
  }

  lemma {:induction false} StatesNumberedAppend(st: seq<StatePair>, states: seq<(Bytes, Bytes)>, names: seq<Bytes>, values: seq<Bytes>,
                             p: StatePair, state: (Bytes, Bytes))
    requires StatesNumbered(st, states, names, values)
    requires p.0 < |names| && names[p.0] == state.0 && p.1 < |values| && values[p.1] == state.1
    ensures StatesNumbered(st + [p], states + [state], names, values)
  {
    var st', states' := st + [p], states + [state];
    forall j | 0 <= j < |st'|
      ensures st'[j].0 < |names| && names[st'[j].0] == states'[j].0 && st'[j].1 < |values| && values[st'[j].1] == states'[j].1
    {
      if j < |st| {
        assert st'[j] == st[j] && states'[j] == states[j];
      }
    }
  }

  /** The metadata of a writer: three string numberings and the palette. */
  class Metadata {
    const types: Interner<Bytes>
    const names: Interner<Bytes>
    const values: Interner<Bytes>
    const palette: Palette

    ghost predicate Valid()
      reads this, types, names, values, palette
    {
      types != names && types != values && names != values
      && types.Valid() && names.Valid() && values.Valid() && palette.Valid()
      && types.capacity == 0x1_0000 && names.capacity == 0x100 && values.capacity == 0x100
      && AllNamed(types.order, names.order, values.order, palette.list)
    }

    constructor ()
      ensures Valid() && fresh(types) && fresh(names) && fresh(values) && fresh(palette)
      ensures types.order == [] && names.order == [] && values.order == [] && palette.list == []
    {
      types := new Interner(0x1_0000);
      names := new Interner(0x100);
      values := new Interner(0x100);
      palette := new Palette();
    }

    /** One state of a block: its name and its value, each numbered. */
    method InternPair(name: Bytes, value: Bytes) returns (p: StatePair)
      requires names != values && names.Valid() && values.Valid()
      requires names.capacity == 0x100 && values.capacity == 0x100
      requires |names.nameToId.Keys + {name}| <= 0x100 && |values.nameToId.Keys + {value}| <= 0x100
      modifies names, values
      ensures names.Valid() && values.Valid()
      ensures old(names.order) <= names.order && old(values.order) <= values.order
      ensures names.nameToId.Keys == old(names.nameToId.Keys) + {name}
      ensures values.nameToId.Keys == old(values.nameToId.Keys) + {value}
      ensures p.0 < |names.order| && names.order[p.0] == name
      ensures p.1 < |values.order| && values.order[p.1] == value
    {
      var sid := names.GetOrCreate(name);
      var vid := values.GetOrCreate(value);
      p := (sid, vid);
    }

    /** The state names and values of a block, numbered pair by pair. */
    method InternStates(states: seq<(Bytes, Bytes)>) returns (st: seq<StatePair>)
      requires names != values && names.Valid() && values.Valid()
      requires names.capacity == 0x100 && values.capacity == 0x100
      requires |names.nameToId.Keys + StateNames(states)| <= 0x100
      requires |values.nameToId.Keys + StateValues(states)| <= 0x100
      modifies names, values
      ensures names.Valid() && values.Valid()
      ensures old(names.order) <= names.order && old(values.order) <= values.order
      ensures |st| == |states|
      ensures StatesNumbered(st, states, names.order, values.order)
      ensures names.nameToId.Keys <= old(names.nameToId.Keys) + StateNames(states)
      ensures values.nameToId.Keys <= old(values.nameToId.Keys) + StateValues(states)
    {
      st := [];
      var i := 0;
      while i < |states|
        invariant 0 <= i <= |states| && |st| == i
        invariant names.Valid() && values.Valid()
        invariant old(names.order) <= names.order && old(values.order) <= values.order
        invariant StatesNumbered(st, states[..i], names.order, values.order)
        invariant names.nameToId.Keys <= old(names.nameToId.Keys) + StateNames(states)
        invariant values.nameToId.Keys <= old(values.nameToId.Keys) + StateValues(states)
      {
        StatesHave(states, i);
        SubsetCard(values.nameToId.Keys + {states[i].1}, old(values.nameToId.Keys) + StateValues(states));
        SubsetCard(names.nameToId.Keys + {states[i].0}, old(names.nameToId.Keys) + StateNames(states));
        ghost var names0, values0 := names.order, values.order;
        var p := InternPair(states[i].0, states[i].1);
        StatesNumberedGrow(st, states[..i], names0, values0, names.order, values.order);
        TakeNext(states, i);
        StatesNumberedAppend(st, states[..i], names.order, values.order, p, states[i]);
        st := st + [p];
        i := i + 1;
      }
      TakeAll(states);
    }

    /** The block's palette id (addBlock, from the type id to
        getOrCreatePaletteId): the three numberings take the block's strings,
        and the key they form is numbered. The key stands for exactly the
        block's type, states and payload, and a block described like an
        earlier one gets that one's id. Ids wrap at 8 bits for more than 256
        names, so at most 256 distinct state names and values are allowed. */
    method Intern(blockType: Bytes, states: seq<(Bytes, Bytes)>, payload: Option<Bytes>) returns (pid: PaletteId)
      requires Valid()
      requires |types.nameToId.Keys + {blockType}| <= 0x1_0000
      requires |names.nameToId.Keys + StateNames(states)| <= 0x100
      requires |values.nameToId.Keys + StateValues(states)| <= 0x100
      requires |palette.list| < 0x1_0000_0000
      modifies types, names, values, palette
      ensures Valid()
      ensures old(types.order) <= types.order && old(names.order) <= names.order && old(values.order) <= values.order
      ensures types.nameToId.Keys == old(types.nameToId.Keys) + {blockType}
      ensures names.nameToId.Keys <= old(names.nameToId.Keys) + StateNames(states)
      ensures values.nameToId.Keys <= old(values.nameToId.Keys) + StateValues(states)
      ensures pid < |palette.list|
      ensures palette.list == old(palette.list) || palette.list == old(palette.list) + [palette.list[pid]]
      ensures Describe(types.order, names.order, values.order, palette.list[pid]) == (blockType, states, payload)
      ensures forall i :: 0 <= i < |palette.list| &&
                Describe(types.order, names.order, values.order, palette.list[i]) == (blockType, states, payload)
                ==> pid == i
    {
      ghost var t0, n0, v0, l0 := types.order, names.order, values.order, palette.list;
      assert |types.nameToId.Keys + {blockType}| <= types.capacity;
      var typeId := types.GetOrCreate(blockType);
      var st := InternStates(states);
      var key := PaletteKey(typeId, st, payload);
      KeyDescribes(types.order, names.order, values.order, key, blockType, states);
      AllNamedGrows(t0, n0, v0, types.order, names.order, values.order, l0);
      DistinctOrders();
      pid := palette.GetOrCreatePaletteId(key);
      AllNamedAppend(types.order, names.order, values.order, l0, key);
      forall i | 0 <= i < |palette.list| &&
          Describe(types.order, names.order, values.order, palette.list[i]) == (blockType, states, payload)
        ensures pid == i
      {
        DescribeInjective(types.order, names.order, values.order, palette.list[i], key);
        assert palette.cache[palette.list[i]] == i;
      }
    }

    /** The three numberings list distinct values. */
    lemma {:induction false} DistinctOrders()
      requires Valid()
      ensures forall i, j :: 0 <= i < j < |types.order| ==> types.order[i] != types.order[j]
      ensures forall i, j :: 0 <= i < j < |names.order| ==> names.order[i] != names.order[j]
      ensures forall i, j :: 0 <= i < j < |values.order| ==> values.order[i] != values.order[j]
    {
      NumberingDistinct(types.order, types.idToName, types.nameToId);
      NumberingDistinct(names.order, names.idToName, names.nameToId);
      NumberingDistinct(values.order, values.idToName, values.nameToId);
    }
  }
}
