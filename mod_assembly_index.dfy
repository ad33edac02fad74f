/**
 * The assembly-name to packageId table (`ModAssemblyIndex`), used when an interaction's
 * def carries no packageId. Built once from the running mods, first writer wins, looked
 * up ignoring case.
 */
module AssemblyIndex {
  import opened Common
  import opened CaseFold

  /**
   * One running mod: its packageId and the names of its loaded assemblies, or None when
   * the mod has no assembly handler or no assembly list.
   */
  datatype ModInfo = ModInfo(packageId: string, assemblies: Option<seq<string>>)

  /** A map lookup as an Option. */
  function Get(index: map<string, string>, key: string): Option<string>
  {
    if key in index then Some(index[key]) else None
  }

  /** The inner build loop: each assembly name not yet present, ignoring case, is mapped to packageId. */
  function AddAssemblies(index: map<string, string>, packageId: string, names: seq<string>): map<string, string>
    decreases |names|
  {
    if names == [] then index
    else
      var key := Fold(names[0]);
      AddAssemblies(if key in index then index else index[key := packageId], packageId, names[1..])
  }

  /** One pass of the outer build loop; a mod without an assembly list is skipped. */
  function AddMod(index: map<string, string>, mod: ModInfo): map<string, string>
  {
    match mod.assemblies
    case None => index
    case Some(names) => AddAssemblies(index, mod.packageId, names)
  }

  /** The outer build loop over the running mods, in load order. */
  function AddMods(index: map<string, string>, mods: seq<ModInfo>): map<string, string>
    decreases |mods|
  {
    if mods == [] then index else AddMods(AddMod(index, mods[0]), mods[1..])
  }

  /** The table a first build produces. */
  function BuiltIndex(mods: seq<ModInfo>): map<string, string>
  {
    AddMods(map[], mods)
  }

  /** The lookup of `ResolvePackageIdFromAssembly` once the table is built. */
  function Lookup(index: map<string, string>, assemblyName: Option<string>): (pkg: Option<string>)
    ensures pkg.Some? <==> !IsNullOrEmpty(assemblyName) && Fold(assemblyName.value) in index
    ensures pkg.Some? ==> pkg.value in index.Values
  {
    if IsNullOrEmpty(assemblyName) then None else Get(index, Fold(assemblyName.value))
  }

  /** Looking up a name already folded, as the table's own keys are, answers as the name itself does. */
  lemma LookupFolded(index: map<string, string>, name: string)
    ensures Lookup(index, Some(Fold(name))) == Lookup(index, Some(name))
  {
    FoldIdempotent(name);
  }

  /** The mod ships an assembly whose name folds to key. */
  ghost predicate Ships(mod: ModInfo, key: string)
  {
    mod.assemblies.Some? && exists a :: a in mod.assemblies.value && Fold(a) == key
  }

  /** The packageId of the first mod, in load order, that ships an assembly named key. */
  ghost function FirstOwner(mods: seq<ModInfo>, key: string): Option<string>
    decreases |mods|
  {
    if mods == [] then None
    else if Ships(mods[0], key) then Some(mods[0].packageId)
    else FirstOwner(mods[1..], key)
  }

  /** The inner loop keeps every existing entry and maps a new key only to this mod's packageId. */
  lemma {:induction false} AddAssembliesGet(index: map<string, string>, packageId: string, names: seq<string>, key: string)
    ensures Get(AddAssemblies(index, packageId, names), key) ==
      if key in index then Some(index[key])
      else if exists a :: a in names && Fold(a) == key then Some(packageId)
      else None
    decreases |names|
  {
    if names != [] {
      var k0 := Fold(names[0]);
      var next := if k0 in index then index else index[k0 := packageId];
      AddAssembliesGet(next, packageId, names[1..], key);
      if exists a :: a in names[1..] && Fold(a) == key {
        var a :| a in names[1..] && Fold(a) == key;
        assert a in names;
      }
      if exists a :: a in names && Fold(a) == key {
        var a :| a in names && Fold(a) == key;
        if a != names[0] {
          assert a in names[1..];
        }
      }
    }
  }

  /**
   * Building over a table keeps every entry it already has; a key it lacks goes to the
   * first mod in load order that ships an assembly of that name.
   */
  lemma {:induction false} AddModsGet(index: map<string, string>, mods: seq<ModInfo>, key: string)
    ensures Get(AddMods(index, mods), key) ==
      if key in index then Some(index[key]) else FirstOwner(mods, key)
    decreases |mods|
  {
    if mods != [] {
      var next := AddMod(index, mods[0]);
      AddModsGet(next, mods[1..], key);
      match mods[0].assemblies
      case None =>
      case Some(names) =>
        AddAssembliesGet(index, mods[0].packageId, names, key);
    }
  }

  /** First writer wins: a build never overwrites a mapping it finds. */
  lemma NeverOverwrites(index: map<string, string>, mods: seq<ModInfo>, key: string)
    requires key in index
    ensures key in AddMods(index, mods) && AddMods(index, mods)[key] == index[key]
  {
    AddModsGet(index, mods, key);
  }

  /**
   * The built table answers a name with the packageId of the first mod shipping an
   * assembly of that name ignoring case, and with nothing for a null, empty or unknown name.
   */
  lemma LookupIsFirstOwner(mods: seq<ModInfo>, assemblyName: Option<string>)
    ensures Lookup(BuiltIndex(mods), assemblyName) ==
      if IsNullOrEmpty(assemblyName) then None else FirstOwner(mods, Fold(assemblyName.value))
  {
    if !IsNullOrEmpty(assemblyName) {
      AddModsGet(map[], mods, Fold(assemblyName.value));
    }
  }

  /** The table (`ModAssemblyIndex`) with its build-once flag. */
  class ModAssemblyIndex {
    var asmToPkg: map<string, string>
    var built: bool

    /** Before the build the table is empty. */
    ghost predicate Valid()
      reads this
    {
      !built ==> asmToPkg == map[]
    }

    constructor ()
      ensures Valid() && !built
    {
      asmToPkg := map[];
      built := false;
    }

    /**
     * Builds the table on the first call, whatever the name, then looks the name up.
     * Later calls leave the table as it is.
     */
    method ResolvePackageIdFromAssembly(assemblyName: Option<string>, mods: seq<ModInfo>) returns (pkg: Option<string>)
      requires Valid()
      modifies this
      ensures Valid() && built
      ensures old(built) ==> asmToPkg == old(asmToPkg)
      ensures !old(built) ==> asmToPkg == BuiltIndex(mods)
      ensures pkg == Lookup(asmToPkg, assemblyName)
    {
      if !built {
        Build(mods);
      }
      if IsNullOrEmpty(assemblyName) {
        return None;
      }
      var key := Fold(assemblyName.value);
      pkg := if key in asmToPkg then Some(asmToPkg[key]) else None;
    }

    /** Sets the flag, then records each mod's assemblies in load order. */
    method Build(mods: seq<ModInfo>)
      modifies this
      ensures built
      ensures asmToPkg == AddMods(old(asmToPkg), mods)
    {
      built := true;
      for i := 0 to |mods|
        invariant built
        invariant AddMods(asmToPkg, mods[i..]) == AddMods(old(asmToPkg), mods)
      {
        var mod := mods[i];
        assert mods[i..][1..] == mods[i + 1..];
        if mod.assemblies.Some? {
          var names := mod.assemblies.value;
          for j := 0 to |names|
            invariant built
            invariant AddMods(AddAssemblies(asmToPkg, mod.packageId, names[j..]), mods[i + 1..])
              == AddMods(old(asmToPkg), mods)
          {
            assert names[j..][1..] == names[j + 1..];
            var key := Fold(names[j]);
            if key !in asmToPkg {
              asmToPkg := asmToPkg[key := mod.packageId];
            }
          }
        }
      }
    }
  }
}
