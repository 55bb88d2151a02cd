/** The lookup chain of `AndroidClassLoader.loadClass`: the already-loaded class,
    then the parent, then the registered dex loaders newest first, then
    `findClass` (which, not being overridden, always throws). */
module Resolution {

  import opened Artifacts
  import opened Registry

  /** The position of the most recently registered loader that resolves `name`. */
  function LatestResolving(reg: Entries, parent: Option<ParentLoader>, name: string): (k: Option<nat>)
    ensures k.Some? ==> k.value < |reg| && DexLoad(reg[k.value].1, parent, name).Some?
    ensures k.Some? ==> forall j :: k.value < j < |reg| ==> DexLoad(reg[j].1, parent, name).None?
    ensures k.None? ==> forall j :: 0 <= j < |reg| ==> DexLoad(reg[j].1, parent, name).None?
  {
    if reg == [] then None
    else if DexLoad(reg[|reg| - 1].1, parent, name).Some? then Some(|reg| - 1)
    else LatestResolving(reg[..|reg| - 1], parent, name)
  }

  /** What `loadClass(name)` returns, or the ClassNotFoundException it throws. */
  function Resolve(loaded: map<string, JClass>, parent: Option<ParentLoader>, reg: Entries, name: string): Result<JClass>
  {
    if name in loaded then Ok(loaded[name])
    else if ParentLoad(parent, name).Some? then Ok(ParentLoad(parent, name).value)
    else match LatestResolving(reg, parent, name)
      case Some(k) => Ok(DexLoad(reg[k].1, parent, name).value)
      case None => Err(ClassNotFound(name))
  }

  /** The order of the chain: a class already loaded wins; then the parent,
      whatever is registered; then the newest registered loader defining the
      name, over every older one; the lookup fails only when all of them fail. */
  lemma ResolveOrder(loaded: map<string, JClass>, parent: Option<ParentLoader>, reg: Entries, name: string)
    ensures name in loaded ==> Resolve(loaded, parent, reg, name) == Ok(loaded[name])
    ensures name !in loaded && parent.Some? && name in parent.value.classes ==>
              Resolve(loaded, parent, reg, name) == Ok(parent.value.classes[name])
    ensures forall k :: 0 <= k < |reg| && name !in loaded && ParentLoad(parent, name).None?
                        && name in reg[k].1.classes
                        && (forall j :: k < j < |reg| ==> name !in reg[j].1.classes) ==>
              Resolve(loaded, parent, reg, name) == Ok(reg[k].1.classes[name])
    ensures Resolve(loaded, parent, reg, name).Err? <==>
              name !in loaded && ParentLoad(parent, name).None?
              && forall j :: 0 <= j < |reg| ==> name !in reg[j].1.classes
  {
    if name !in loaded && ParentLoad(parent, name).None? {
      var r := LatestResolving(reg, parent, name);
      forall k | 0 <= k < |reg| && name in reg[k].1.classes
                 && (forall j :: k < j < |reg| ==> name !in reg[j].1.classes)
        ensures r == Some(k)
      {
        assert DexLoad(reg[k].1, parent, name).Some?;
      }
    }
  }

  /** A loader just registered through `loadDex` that defines `name` answers
      every later lookup of `name` the parent does not answer, whatever else is
      registered: the newest unit wins. */
  lemma ReloadedUnitWins(loaded: map<string, JClass>, parent: Option<ParentLoader>, reg: Entries,
                         unit: string, loader: DexLoader, name: string)
    requires name !in loaded && ParentLoad(parent, name).None?
    requires name in loader.classes
    ensures Resolve(loaded, parent, Put(reg, unit, loader), name) == Ok(loader.classes[name])
  {
    PutMovesToEnd(reg, unit, loader);
  }

  /** Registering a unit under a new name that does not define `name` does not
      change what `name` resolves to. */
  lemma {:induction false} UnrelatedUnitChangesNothing(loaded: map<string, JClass>, parent: Option<ParentLoader>,
                                                       reg: Entries, unit: string, loader: DexLoader, name: string)
    requires !HasName(reg, unit)
    requires name !in loader.classes
    ensures Resolve(loaded, parent, Put(reg, unit, loader), name) == Resolve(loaded, parent, reg, name)
  {
    WithoutAbsent(reg, unit);
    var r := Put(reg, unit, loader);
    assert r[..|r| - 1] == reg;
  }
}
