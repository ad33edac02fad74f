/**
 * The decision which log entries reach the overlay (`ChatOverlayFilter.ShouldInclude`):
 * the filter mode, the packageId and defName sets, and the packageId fallback through
 * the assembly table.
 */
module ChatFilter {
  import opened Common
  import opened CaseFold
  import opened OverlaySettings
  import opened AssemblyIndex
  import opened PlayLog

  /** The settings the decision reads. */
  datatype FilterConfig = FilterConfig(mode: FilterMode, packageIds: CiSet, defNames: CiSet)

  /** What a freshly constructed settings object holds, used when there are no settings. */
  const DefaultConfig := FilterConfig(Off, Empty, Empty)

  /** The filter settings in force: those of the settings object, or the defaults when it is null. */
  function ConfigOf(settings: ChatOverlaySettings?): FilterConfig
    reads settings
  {
    if settings == null then DefaultConfig
    else FilterConfig(settings.mode, settings.packageIdSet, settings.defNameSet)
  }

  /** The def's name, for an interaction entry whose def was found. */
  function DefNameOf(entry: LogEntry): Option<string>
  {
    if entry.InteractionEntry? && entry.inter.def.Some? then entry.inter.def.value.defName else None
  }

  /** The def's packageId, for an interaction entry whose def was found. */
  function PackageIdOf(entry: LogEntry): Option<string>
  {
    if entry.InteractionEntry? && entry.inter.def.Some? then entry.inter.def.value.packageId else None
  }

  /** The def's packageId when it is not empty, otherwise the table's answer for the entry's assembly. */
  function EffectivePackage(entry: LogEntry, index: map<string, string>): Option<string>
  {
    if !IsNullOrEmpty(PackageIdOf(entry)) then PackageIdOf(entry) else Lookup(index, entry.asmName)
  }

  /** The package is listed, or the def is listed; an empty or null id is listed nowhere. */
  predicate Hit(cfg: FilterConfig, pkg: Option<string>, defName: Option<string>): (hit: bool)
    ensures IsNullOrEmpty(pkg) && IsNullOrEmpty(defName) ==> !hit
    ensures cfg.packageIds.items == [] && cfg.defNames.items == [] ==> !hit
    ensures cfg.packageIds.items == [] ==> (hit <==> !IsNullOrEmpty(defName) && cfg.defNames.Contains(defName.value))
    ensures cfg.defNames.items == [] ==> (hit <==> !IsNullOrEmpty(pkg) && cfg.packageIds.Contains(pkg.value))
  {
    || (!IsNullOrEmpty(pkg) && cfg.packageIds.Contains(pkg.value))
    || (!IsNullOrEmpty(defName) && cfg.defNames.Contains(defName.value))
  }

  /** The decision, given the table the fallback consults. */
  predicate Decide(cfg: FilterConfig, entry: LogEntry, index: map<string, string>): (shown: bool)
    ensures !shown ==> cfg.mode == Whitelist || cfg.mode == Blacklist
    ensures IsNullOrEmpty(EffectivePackage(entry, index)) && IsNullOrEmpty(DefNameOf(entry)) ==>
      (shown <==> cfg.mode != Whitelist)
  {
    match cfg.mode
    case Off => true
    case Whitelist => Hit(cfg, EffectivePackage(entry, index), DefNameOf(entry))
    case Blacklist => !Hit(cfg, EffectivePackage(entry, index), DefNameOf(entry))
    case UndeclaredMode => true
  }

  /** The decision consults the assembly table: the mode is not Off and the def gives no packageId. */
  predicate NeedsIndex(cfg: FilterConfig, entry: LogEntry)
  {
    cfg.mode != Off && IsNullOrEmpty(PackageIdOf(entry))
  }

  /**
   * Decides whether the entry is shown. When the packageId must be inferred, the
   * assembly table is consulted, and built if this is its first use.
   */
  method ShouldInclude(settings: ChatOverlaySettings?, entry: LogEntry, index: ModAssemblyIndex, mods: seq<ModInfo>)
    returns (shown: bool)
    requires index.Valid()
    modifies index
    ensures index.Valid()
    ensures shown == Decide(ConfigOf(settings), entry, index.asmToPkg)
    ensures !NeedsIndex(ConfigOf(settings), entry) ==> unchanged(index)
    ensures NeedsIndex(ConfigOf(settings), entry) ==>
      && index.built
      && (old(index.built) ==> index.asmToPkg == old(index.asmToPkg))
      && (!old(index.built) ==> index.asmToPkg == BuiltIndex(mods))
  {
    var cfg := ConfigOf(settings);
    if cfg.mode == Off {
      return true;
    }
    var defName := DefNameOf(entry);
    var packageId := PackageIdOf(entry);
    var effectivePkg: Option<string>;
    if !IsNullOrEmpty(packageId) {
      effectivePkg := packageId;
    } else {
      effectivePkg := index.ResolvePackageIdFromAssembly(entry.asmName, mods);
    }
    var hit := Hit(cfg, effectivePkg, defName);
    if cfg.mode == Whitelist {
      return hit;
    }
    if cfg.mode == Blacklist {
      return !hit;
    }
    return true;
  }

  /** With the mode Off every entry is shown, and with no settings the mode is Off. */
  lemma OffIncludesEverything(cfg: FilterConfig, entry: LogEntry, index: map<string, string>)
    requires cfg.mode == Off
    ensures Decide(cfg, entry, index)
    ensures Decide(DefaultConfig, entry, index)
  {
  }

  /**
   * The whitelist is the plain disjunction of the two criteria: a listed package shows
   * the entry whatever its def, and so does a listed def whatever its package.
   */
  lemma WhitelistIsDisjunction(cfg: FilterConfig, entry: LogEntry, index: map<string, string>)
    requires cfg.mode == Whitelist
    ensures (exists p :: EffectivePackage(entry, index) == Some(p) && p != "" && cfg.packageIds.Contains(p))
      ==> Decide(cfg, entry, index)
    ensures (exists d :: DefNameOf(entry) == Some(d) && d != "" && cfg.defNames.Contains(d))
      ==> Decide(cfg, entry, index)
    ensures Decide(cfg, entry, index) ==>
      || (exists p :: EffectivePackage(entry, index) == Some(p) && p != "" && cfg.packageIds.Contains(p))
      || (exists d :: DefNameOf(entry) == Some(d) && d != "" && cfg.defNames.Contains(d))
  {
  }

  /** A whitelist with both sets empty shows nothing. */
  lemma EmptyWhitelistShowsNothing(cfg: FilterConfig, entry: LogEntry, index: map<string, string>)
    requires cfg.mode == Whitelist && cfg.packageIds == Empty && cfg.defNames == Empty
    ensures !Decide(cfg, entry, index)
  {
  }

  /**
   * The blacklist blocks exactly what the whitelist would show: for the same sets and
   * entry the two modes always disagree.
   */
  lemma BlacklistNegatesWhitelist(cfg: FilterConfig, entry: LogEntry, index: map<string, string>)
    ensures Decide(cfg.(mode := Blacklist), entry, index) == !Decide(cfg.(mode := Whitelist), entry, index)
  {
  }

  /**
   * The package an entry is filtered by: the def's packageId when not empty; otherwise
   * the packageId of the first running mod that ships an assembly of the entry's
   * assembly name, ignoring case; nothing when that name is null or empty or unknown.
   */
  lemma EffectivePackageResolution(entry: LogEntry, mods: seq<ModInfo>)
    ensures EffectivePackage(entry, BuiltIndex(mods)) ==
      if !IsNullOrEmpty(PackageIdOf(entry)) then PackageIdOf(entry)
      else if IsNullOrEmpty(entry.asmName) then None
      else FirstOwner(mods, Fold(entry.asmName.value))
  {
    LookupIsFirstOwner(mods, entry.asmName);
  }
}
