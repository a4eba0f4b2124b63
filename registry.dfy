/**
  The value-level description of the factory registry: the extension map and
  the list of owned factories, what registering one factory does to them, and
  what registering a whole table of factories in order produces.
 */
module Registry {

  /** A factory is an opaque identity; the factories themselves are not modelled. */
  type FactoryId = nat

  /** One entry of a registration table: an extension and the factory that handles it. */
  datatype Registration = Registration(extension: string, factory: FactoryId)

  /** The extension map and the owning list, as values. */
  datatype Tables = Tables(factoryMap: map<string, FactoryId>, factoryList: seq<FactoryId>)

  /** No factory occurs twice in `s`. */
  predicate NoDuplicates<T(==)>(s: seq<T>) {
    forall i, j :: 0 <= i < j < |s| ==> s[i] != s[j]
  }

  /**
    The ownership invariant: every factory the map hands out is in the list,
    and the list holds each factory once, so that releasing the list releases
    every factory exactly once.
   */
  predicate Owned(t: Tables) {
    && (forall e :: e in t.factoryMap ==> t.factoryMap[e] in t.factoryList)
    && NoDuplicates(t.factoryList)
  }

  /**
    Registering `factory` under `extension`: the map sends `extension` to
    `factory` and keeps every other key, and the list gains `factory` at its
    end unless it already owns it.
   */
  function Register(t: Tables, extension: string, factory: FactoryId): (r: Tables)
    ensures r.factoryMap.Keys == t.factoryMap.Keys + {extension}
    ensures r.factoryMap[extension] == factory
    ensures forall e :: e in t.factoryMap && e != extension ==> r.factoryMap[e] == t.factoryMap[e]
    ensures factory in r.factoryList
    ensures forall f :: f in r.factoryList <==> f in t.factoryList || f == factory
    ensures |t.factoryList| <= |r.factoryList| && r.factoryList[..|t.factoryList|] == t.factoryList
    ensures Owned(t) ==> Owned(r)
  {
    Tables(t.factoryMap[extension := factory],
           if factory in t.factoryList then t.factoryList else t.factoryList + [factory])
  }

  /** The tables produced by registering the entries of `regs` in order, starting from empty ones. */
  function RegisterAll(regs: seq<Registration>): (r: Tables)
    ensures Owned(r)
    decreases |regs|
  {
    if regs == [] then Tables(map[], [])
    else
      var last := regs[|regs| - 1];
      Register(RegisterAll(regs[..|regs| - 1]), last.extension, last.factory)
  }

  /** The extensions of a table's entries. */
  function Extensions(regs: seq<Registration>): set<string> {
    set r | r in regs :: r.extension
  }

  /** The factories of a table's entries. */
  function Factories(regs: seq<Registration>): set<FactoryId> {
    set r | r in regs :: r.factory
  }

  /** The extensions handled after registering a table are exactly those of its entries. */
  lemma {:induction false} RegisterAllKeys(regs: seq<Registration>)
    ensures RegisterAll(regs).factoryMap.Keys == Extensions(regs)
  {
    if regs != [] {
      var init := regs[..|regs| - 1];
      var last := regs[|regs| - 1];
      assert regs == init + [last];
      RegisterAllKeys(init);
      assert Extensions(regs) == Extensions(init) + {last.extension};
    }
  }

  /**
    Each extension of a table is sent to the factory of its LAST entry: a later
    registration of the same extension overwrites an earlier one.
   */
  lemma {:induction false} RegisterAllLastWins(regs: seq<Registration>, i: nat)
    requires i < |regs|
    requires forall j :: i < j < |regs| ==> regs[j].extension != regs[i].extension
    ensures regs[i].extension in RegisterAll(regs).factoryMap
    ensures RegisterAll(regs).factoryMap[regs[i].extension] == regs[i].factory
  {
    var init := regs[..|regs| - 1];
    if i < |regs| - 1 {
      assert regs[i] == init[i];
      forall j | i < j < |init| ensures init[j].extension != init[i].extension {
        assert init[j] == regs[j];
      }
      RegisterAllLastWins(init, i);
    }
  }

  /** The list owns exactly the factories of the table's entries. */
  lemma {:induction false} RegisterAllFactories(regs: seq<Registration>)
    ensures forall f :: f in RegisterAll(regs).factoryList <==> f in Factories(regs)
  {
    if regs != [] {
      var init := regs[..|regs| - 1];
      var last := regs[|regs| - 1];
      assert regs == init + [last];
      RegisterAllFactories(init);
      assert Factories(regs) == Factories(init) + {last.factory};
    }
  }
}
