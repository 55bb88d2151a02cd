/** `mDexClassLoaders`, an insertion-ordered LinkedHashMap from dex file name to
    loader, as a sequence of (name, loader) pairs, oldest first. */
module Registry {

  import opened Artifacts

  type Entry = (string, DexLoader)
  type Entries = seq<Entry>

  /** No name occurs twice: the LinkedHashMap's key invariant. */
  ghost predicate UniqueNames(reg: Entries)
  {
    forall i, j :: 0 <= i < j < |reg| ==> reg[i].0 != reg[j].0
  }

  predicate HasName(reg: Entries, name: string)
  {
    exists i :: 0 <= i < |reg| && reg[i].0 == name
  }

  /** `get(name)`. */
  function Get(reg: Entries, name: string): Option<DexLoader>
  {
    if reg == [] then None
    else if reg[0].0 == name then Some(reg[0].1)
    else Get(reg[1..], name)
  }

  /** `remove(name)`: every other entry, in the order they were. */
  function Without(reg: Entries, name: string): (r: Entries)
    ensures forall e :: e in r <==> e in reg && e.0 != name
    ensures |r| <= |reg|
  {
    if reg == [] then []
    else (if reg[0].0 == name then [] else [reg[0]]) + Without(reg[1..], name)
  }

  /** `loadDex`'s `remove(name)` followed by `put(name, loader)`. */
  function Put(reg: Entries, name: string, loader: DexLoader): Entries
  {
    Without(reg, name) + [(name, loader)]
  }

  /** `a` was registered before `b`. */
  predicate Precedes(reg: Entries, a: string, b: string)
  {
    reg != [] && ((reg[0].0 == a && HasName(reg[1..], b)) || Precedes(reg[1..], a, b))
  }

  lemma HasNameTail(reg: Entries, name: string)
    requires reg != []
    ensures HasName(reg, name) <==> reg[0].0 == name || HasName(reg[1..], name)
  {
    if HasName(reg[1..], name) {
      var i :| 0 <= i < |reg| - 1 && reg[1..][i].0 == name;
      assert reg[i + 1].0 == name;
    }
    if HasName(reg, name) && reg[0].0 != name {
      var i :| 0 <= i < |reg| && reg[i].0 == name;
      assert reg[1..][i - 1].0 == name;
    }
  }

  lemma {:induction false} HasNameWithout(reg: Entries, name: string, other: string)
    requires other != name
    ensures HasName(Without(reg, name), other) <==> HasName(reg, other)
  {
    if reg != [] {
      HasNameTail(reg, other);
      HasNameWithout(reg[1..], name, other);
      var r := Without(reg, name);
      if reg[0].0 == name {
        assert r == Without(reg[1..], name);
      } else {
        assert r[0] == reg[0] && r[1..] == Without(reg[1..], name);
        HasNameTail(r, other);
      }
    }
  }

  /** Removing a name keeps every other entry and its loader, in the same order. */
  lemma {:induction false} WithoutKeepsOrder(reg: Entries, name: string, a: string, b: string)
    requires a != name && b != name
    ensures Precedes(Without(reg, name), a, b) <==> Precedes(reg, a, b)
    ensures Get(Without(reg, name), a) == Get(reg, a)
  {
    if reg != [] {
      WithoutKeepsOrder(reg[1..], name, a, b);
      HasNameWithout(reg[1..], name, b);
      var r := Without(reg, name);
      if reg[0].0 == name {
        assert r == Without(reg[1..], name);
      } else {
        assert r[0] == reg[0] && r[1..] == Without(reg[1..], name);
      }
    }
  }

  lemma {:induction false} GetAppend(reg: Entries, e: Entry, name: string)
    requires e.0 != name
    ensures Get(reg + [e], name) == Get(reg, name)
  {
    if reg != [] {
      assert (reg + [e])[1..] == reg[1..] + [e];
      GetAppend(reg[1..], e, name);
    }
  }

  lemma {:induction false} PrecedesAppend(reg: Entries, e: Entry, a: string, b: string)
    requires e.0 != a && e.0 != b
    ensures Precedes(reg + [e], a, b) <==> Precedes(reg, a, b)
  {
    if reg != [] {
      assert (reg + [e])[1..] == reg[1..] + [e];
      PrecedesAppend(reg[1..], e, a, b);
      HasNameTail(reg[1..] + [e], b);
      if reg[1..] != [] {
        HasNameTail(reg[1..], b);
      }
      HasNameAppend(reg[1..], e, b);
    } else {
      assert [e][1..] == [];
    }
  }

  lemma HasNameAppend(reg: Entries, e: Entry, name: string)
    requires e.0 != name
    ensures HasName(reg + [e], name) <==> HasName(reg, name)
  {
    if HasName(reg + [e], name) {
      var i :| 0 <= i < |reg| + 1 && (reg + [e])[i].0 == name;
      assert reg[i].0 == name;
    }
    if HasName(reg, name) {
      var i :| 0 <= i < |reg| && reg[i].0 == name;
      assert (reg + [e])[i].0 == name;
    }
  }

  /** After `loadDex` registers `loader` under `name`: the name occurs exactly
      once, as the last entry, with the new loader; every other entry keeps its
      loader and its place relative to the others; names stay unique. */
  lemma PutMovesToEnd(reg: Entries, name: string, loader: DexLoader)
    ensures var r := Put(reg, name, loader);
      && |r| > 0 && r[|r| - 1] == (name, loader)
      && (forall i :: 0 <= i < |r| - 1 ==> r[i].0 != name)
      && (forall a :: a != name ==> Get(r, a) == Get(reg, a))
      && (forall a, b :: a != name && b != name ==> (Precedes(r, a, b) <==> Precedes(reg, a, b)))
      && (UniqueNames(reg) ==> UniqueNames(r))
  {
    var w := Without(reg, name);
    var r := Put(reg, name, loader);
    forall i | 0 <= i < |r| - 1 ensures r[i].0 != name {
      assert r[i] in w;
    }
    forall a | a != name ensures Get(r, a) == Get(reg, a) {
      GetAppend(w, (name, loader), a);
      WithoutKeepsOrder(reg, name, a, a);
    }
    forall a, b | a != name && b != name ensures Precedes(r, a, b) <==> Precedes(reg, a, b) {
      PrecedesAppend(w, (name, loader), a, b);
      WithoutKeepsOrder(reg, name, a, b);
    }
    if UniqueNames(reg) {
      WithoutUnique(reg, name);
    }
  }

  lemma {:induction false} WithoutUnique(reg: Entries, name: string)
    requires UniqueNames(reg)
    ensures UniqueNames(Without(reg, name))
  {
    if reg != [] {
      var r := Without(reg, name);
      WithoutUnique(reg[1..], name);
      if reg[0].0 != name {
        assert r == [reg[0]] + Without(reg[1..], name);
        forall j | 0 < j < |r| ensures r[0].0 != r[j].0 {
          assert r[j] in reg[1..];
        }
      }
    }
  }

  /** Removing a name that is not registered changes nothing. */
  lemma {:induction false} WithoutAbsent(reg: Entries, name: string)
    requires !HasName(reg, name)
    ensures Without(reg, name) == reg
  {
    if reg != [] {
      HasNameTail(reg, name);
      WithoutAbsent(reg[1..], name);
    }
  }
}
