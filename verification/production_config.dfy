/** The run configuration (`production_config.js`): the per-feature enable
    flags, the preset table, the loop and wallet settings, and the operations
    that rewrite them. */
module ProductionConfig {
  import opened Wrappers
  import opened SeqUtil

  /** The eight features, one per key of the feature table. */
  datatype Feature = Faucet | Checkin | OriginalTransfer | EnhancedSwap | WrapPHRS | DomainMint | NftMint | LiquidityAdd

  /** The key order of the feature table; every listing follows it. */
  const FeatureOrder: seq<Feature> :=
    [Faucet, Checkin, OriginalTransfer, EnhancedSwap, WrapPHRS, DomainMint, NftMint, LiquidityAdd]

  lemma FeatureOrderComplete()
    ensures forall f: Feature :: f in FeatureOrder
  {
    forall f: Feature ensures f in FeatureOrder {
      match f
      case Faucet => assert FeatureOrder[0] == f;
      case Checkin => assert FeatureOrder[1] == f;
      case OriginalTransfer => assert FeatureOrder[2] == f;
      case EnhancedSwap => assert FeatureOrder[3] == f;
      case WrapPHRS => assert FeatureOrder[4] == f;
      case DomainMint => assert FeatureOrder[5] == f;
      case NftMint => assert FeatureOrder[6] == f;
      case LiquidityAdd => assert FeatureOrder[7] == f;
    }
  }

  /** `cycleEnabled`: every feature runs each cycle except the NFT mint, which
      runs once per wallet. No operation changes it. */
  predicate CycleEnabled(f: Feature) {
    f != NftMint
  }

  /** Enable flags by feature; a missing key reads as off (`flags[f] || false`). */
  type Flags = map<Feature, bool>

  predicate IsOn(flags: Flags, f: Feature) {
    f in flags && flags[f]
  }

  /** The flags the feature table starts with. */
  const InitialFlags: Flags := map[Faucet := true, Checkin := true, OriginalTransfer := true, EnhancedSwap := true,
                                   WrapPHRS := false, DomainMint := true, NftMint := false, LiquidityAdd := true]

  function Keep(p: Feature -> bool, f: Feature): seq<Feature> {
    if p(f) then [f] else []
  }

  /** Filtering the key order, written out key by key. */
  lemma FilterFeatures(p: Feature -> bool)
    ensures Filter(FeatureOrder, p)
         == Keep(p, Faucet) + Keep(p, Checkin) + Keep(p, OriginalTransfer) + Keep(p, EnhancedSwap)
          + Keep(p, WrapPHRS) + Keep(p, DomainMint) + Keep(p, NftMint) + Keep(p, LiquidityAdd)
  {
    var s := FeatureOrder;
    assert s[..7][..6] == s[..6] && s[..6][..5] == s[..5] && s[..5][..4] == s[..4];
    assert s[..4][..3] == s[..3] && s[..3][..2] == s[..2] && s[..2][..1] == s[..1] && s[..1][..0] == [];
    calc {
      Filter(s, p);
      Filter(s[..7], p) + Keep(p, LiquidityAdd);
      Filter(s[..6], p) + Keep(p, NftMint) + Keep(p, LiquidityAdd);
      Filter(s[..5], p) + Keep(p, DomainMint) + Keep(p, NftMint) + Keep(p, LiquidityAdd);
      Filter(s[..4], p) + Keep(p, WrapPHRS) + Keep(p, DomainMint) + Keep(p, NftMint) + Keep(p, LiquidityAdd);
      Filter(s[..3], p) + Keep(p, EnhancedSwap) + Keep(p, WrapPHRS) + Keep(p, DomainMint) + Keep(p, NftMint)
        + Keep(p, LiquidityAdd);
      Filter(s[..2], p) + Keep(p, OriginalTransfer) + Keep(p, EnhancedSwap) + Keep(p, WrapPHRS)
        + Keep(p, DomainMint) + Keep(p, NftMint) + Keep(p, LiquidityAdd);
      Filter(s[..1], p) + Keep(p, Checkin) + Keep(p, OriginalTransfer) + Keep(p, EnhancedSwap)
        + Keep(p, WrapPHRS) + Keep(p, DomainMint) + Keep(p, NftMint) + Keep(p, LiquidityAdd);
      Keep(p, Faucet) + Keep(p, Checkin) + Keep(p, OriginalTransfer) + Keep(p, EnhancedSwap)
        + Keep(p, WrapPHRS) + Keep(p, DomainMint) + Keep(p, NftMint) + Keep(p, LiquidityAdd);
    }
  }

  /** A feature is in a filtered listing exactly when it passes the filter. */
  lemma FilterFeaturesMembers(p: Feature -> bool)
    ensures forall f :: f in Filter(FeatureOrder, p) <==> p(f)
  {
    FilterMembers(FeatureOrder, p);
    FeatureOrderComplete();
    forall f ensures f in Filter(FeatureOrder, p) <==> p(f) {
      var r := Filter(FeatureOrder, p);
      if f in r {
        var i :| 0 <= i < |r| && r[i] == f;
      }
      if p(f) {
        assert f in FeatureOrder;
        var i :| 0 <= i < |FeatureOrder| && FeatureOrder[i] == f;
      }
    }
  }

  /** `getEnabledFeatures`. */
  function EnabledFeatures(flags: Flags): seq<Feature> {
    Filter(FeatureOrder, (f: Feature) => IsOn(flags, f))
  }

  /** `getCyclableFeatures`. */
  function CyclableFeatures(flags: Flags): seq<Feature> {
    Filter(FeatureOrder, (f: Feature) => IsOn(flags, f) && CycleEnabled(f))
  }

  /** `getOnceOnlyFeatures`. */
  function OnceOnlyFeatures(flags: Flags): seq<Feature> {
    Filter(FeatureOrder, (f: Feature) => IsOn(flags, f) && !CycleEnabled(f))
  }

  /** `getEnabledFeatures` lists exactly the features switched on. */
  lemma EnabledMembers(flags: Flags)
    ensures forall f :: f in EnabledFeatures(flags) <==> IsOn(flags, f)
  {
    FilterFeaturesMembers((f: Feature) => IsOn(flags, f));
  }

  /** `getCyclableFeatures` lists exactly the features switched on that run every cycle. */
  lemma CyclableMembers(flags: Flags)
    ensures forall f :: f in CyclableFeatures(flags) <==> IsOn(flags, f) && CycleEnabled(f)
  {
    FilterFeaturesMembers((f: Feature) => IsOn(flags, f) && CycleEnabled(f));
  }

  /** `getOnceOnlyFeatures` lists exactly the features switched on that run once per wallet. */
  lemma OnceOnlyMembers(flags: Flags)
    ensures forall f :: f in OnceOnlyFeatures(flags) <==> IsOn(flags, f) && !CycleEnabled(f)
  {
    FilterFeaturesMembers((f: Feature) => IsOn(flags, f) && !CycleEnabled(f));
  }

  /** The cyclable and the once-only lists split the enabled list by
      `cycleEnabled`, each keeping its order: a feature is enabled exactly when
      it is in one of them, and it is never in both. */
  lemma FeaturePartition(flags: Flags)
    ensures CyclableFeatures(flags) == Filter(EnabledFeatures(flags), CycleEnabled)
    ensures OnceOnlyFeatures(flags) == Filter(EnabledFeatures(flags), (f: Feature) => !CycleEnabled(f))
    ensures forall f :: f in EnabledFeatures(flags) <==> IsOn(flags, f)
    ensures forall f :: f in EnabledFeatures(flags) <==> f in CyclableFeatures(flags) || f in OnceOnlyFeatures(flags)
    ensures forall f :: !(f in CyclableFeatures(flags) && f in OnceOnlyFeatures(flags))
  {
    var on := (f: Feature) => IsOn(flags, f);
    var cyc := (f: Feature) => IsOn(flags, f) && CycleEnabled(f);
    var once := (f: Feature) => IsOn(flags, f) && !CycleEnabled(f);
    var notCyc := (f: Feature) => !CycleEnabled(f);
    FilterConj(FeatureOrder, on, CycleEnabled, cyc);
    FilterConj(FeatureOrder, on, notCyc, once);
    EnabledMembers(flags);
    CyclableMembers(flags);
    OnceOnlyMembers(flags);
  }

  // ----- settings -----

  datatype LoopSettings = LoopSettings(enabled: bool, waitMinutes: nat, maxCycles: nat)

  datatype WalletSettings =
    WalletSettings(processAll: bool, maxWallets: nat, delayBetweenWallets: nat, delayBetweenFeatures: nat)

  datatype ProxySettings = ProxySettings(enabled: bool, randomSelection: bool)

  datatype ErrorHandling = ErrorHandling(continueOnError: bool, maxRetries: nat, retryDelay: nat)

  /** An object spread over a settings object: the keys it has replace, the
      others stay. */
  datatype LoopPatch = LoopPatch(enabled: Option<bool>, waitMinutes: Option<nat>, maxCycles: Option<nat>)

  datatype WalletPatch = WalletPatch(processAll: Option<bool>, maxWallets: Option<nat>,
                                     delayBetweenWallets: Option<nat>, delayBetweenFeatures: Option<nat>)

  function Override<T>(current: T, patch: Option<T>): T {
    if patch.Some? then patch.value else current
  }

  /** `{ ...current, ...patch }` for the loop settings. */
  function MergeLoop(current: LoopSettings, patch: LoopPatch): LoopSettings {
    LoopSettings(Override(current.enabled, patch.enabled), Override(current.waitMinutes, patch.waitMinutes),
                 Override(current.maxCycles, patch.maxCycles))
  }

  /** `{ ...current, ...patch }` for the wallet settings. */
  function MergeWallet(current: WalletSettings, patch: WalletPatch): WalletSettings {
    WalletSettings(Override(current.processAll, patch.processAll), Override(current.maxWallets, patch.maxWallets),
                   Override(current.delayBetweenWallets, patch.delayBetweenWallets),
                   Override(current.delayBetweenFeatures, patch.delayBetweenFeatures))
  }

  /** A loop patch that names all three keys. */
  function FullLoop(enabled: bool, waitMinutes: nat, maxCycles: nat): LoopPatch {
    LoopPatch(Some(enabled), Some(waitMinutes), Some(maxCycles))
  }

  /** The wallet part of every preset: `processAll` and `maxWallets` only. */
  function WalletLimits(processAll: bool, maxWallets: nat): WalletPatch {
    WalletPatch(Some(processAll), Some(maxWallets), None, None)
  }

  /** Spreading a preset's settings: the loop settings become the preset's
      whatever they were, the wallet limits become the preset's and the wallet
      delays are kept; applying the same patch twice is applying it once. */
  lemma PresetMergeCorrect(loop: LoopSettings, wallet: WalletSettings, enabled: bool, waitMinutes: nat,
                           maxCycles: nat, processAll: bool, maxWallets: nat)
    ensures MergeLoop(loop, FullLoop(enabled, waitMinutes, maxCycles)) == LoopSettings(enabled, waitMinutes, maxCycles)
    ensures MergeWallet(wallet, WalletLimits(processAll, maxWallets))
         == WalletSettings(processAll, maxWallets, wallet.delayBetweenWallets, wallet.delayBetweenFeatures)
  {
  }

  lemma MergeIdempotent(loop: LoopSettings, lp: LoopPatch, wallet: WalletSettings, wp: WalletPatch)
    ensures MergeLoop(MergeLoop(loop, lp), lp) == MergeLoop(loop, lp)
    ensures MergeWallet(MergeWallet(wallet, wp), wp) == MergeWallet(wallet, wp)
    ensures MergeLoop(loop, LoopPatch(None, None, None)) == loop
    ensures MergeWallet(wallet, WalletPatch(None, None, None, None)) == wallet
  {
  }

  // ----- presets -----

  /** A preset's feature flags (only the keys it lists) and settings. */
  datatype Preset = Preset(features: Flags, loop: LoopPatch, wallet: WalletPatch)

  const PresetNames: seq<string> :=
    ["FULL_AUTO", "TRADING_ONLY", "DOMAIN_ONLY", "NFT_ONLY", "BASIC_ONLY", "TEST_MODE", "ENHANCED_SWAP_TEST",
     "LIQUIDITY_TEST", "LIQUIDITY_INTENSIVE", "TURBO_FULL", "TURBO_SPEED"]

  /** `CONFIG_PRESETS[name]`, None for an unknown name. */
  function PresetNamed(name: string): (preset: Option<Preset>)
    ensures preset.Some? ==> name in PresetNames
  {
    if name == "FULL_AUTO" then
      Some(Preset(map[Faucet := true, Checkin := true, OriginalTransfer := true, EnhancedSwap := true,
                      WrapPHRS := false, DomainMint := true, NftMint := true, LiquidityAdd := true],
                  FullLoop(true, 30, 0), WalletLimits(true, 0)))
    else if name == "TRADING_ONLY" then
      Some(Preset(map[Faucet := false, Checkin := true, OriginalTransfer := true, EnhancedSwap := true,
                      WrapPHRS := false, DomainMint := true, NftMint := false, LiquidityAdd := true],
                  FullLoop(true, 15, 0), WalletLimits(true, 0)))
    else if name == "DOMAIN_ONLY" then
      Some(Preset(map[Faucet := false, Checkin := false, OriginalTransfer := false, EnhancedSwap := false,
                      WrapPHRS := false, DomainMint := true, NftMint := false],
                  FullLoop(true, 20, 0), WalletLimits(true, 0)))
    else if name == "NFT_ONLY" then
      Some(Preset(map[Faucet := false, Checkin := false, OriginalTransfer := false, EnhancedSwap := false,
                      WrapPHRS := false, DomainMint := false, NftMint := true],
                  FullLoop(false, 0, 1), WalletLimits(true, 0)))
    else if name == "BASIC_ONLY" then
      Some(Preset(map[Faucet := true, Checkin := true, OriginalTransfer := true, EnhancedSwap := false,
                      WrapPHRS := false, DomainMint := true, NftMint := false],
                  FullLoop(true, 60, 0), WalletLimits(true, 0)))
    else if name == "TEST_MODE" then
      Some(Preset(map[Faucet := false, Checkin := true, OriginalTransfer := false, EnhancedSwap := false,
                      WrapPHRS := false, DomainMint := false, NftMint := false],
                  FullLoop(false, 0, 1), WalletLimits(false, 1)))
    else if name == "ENHANCED_SWAP_TEST" then
      Some(Preset(map[Faucet := false, Checkin := false, OriginalTransfer := false, EnhancedSwap := true,
                      WrapPHRS := true, DomainMint := false, NftMint := false, LiquidityAdd := false],
                  FullLoop(false, 0, 10), WalletLimits(true, 0)))
    else if name == "LIQUIDITY_TEST" then
      Some(Preset(map[Faucet := false, Checkin := false, OriginalTransfer := false, EnhancedSwap := false,
                      WrapPHRS := false, DomainMint := false, NftMint := false, LiquidityAdd := true],
                  FullLoop(false, 0, 3), WalletLimits(false, 1)))
    else if name == "LIQUIDITY_INTENSIVE" then
      Some(Preset(map[Faucet := false, Checkin := true, OriginalTransfer := false, EnhancedSwap := false,
                      WrapPHRS := false, DomainMint := false, NftMint := false, LiquidityAdd := true],
                  FullLoop(true, 10, 0), WalletLimits(true, 0)))
    else if name == "TURBO_FULL" then
      Some(Preset(map[Faucet := true, Checkin := true, OriginalTransfer := true, EnhancedSwap := true,
                      WrapPHRS := false, DomainMint := true, NftMint := false, LiquidityAdd := true],
                  FullLoop(true, 15, 0), WalletLimits(true, 0)))
    else if name == "TURBO_SPEED" then
      Some(Preset(map[Faucet := false, Checkin := true, OriginalTransfer := true, EnhancedSwap := true,
                      WrapPHRS := false, DomainMint := false, NftMint := false, LiquidityAdd := true],
                  FullLoop(true, 5, 0), WalletLimits(true, 0)))
    else None
  }

  /** Exactly the eleven listed names are presets, and every preset's loop
      patch names all three keys while its wallet patch leaves the delays. */
  lemma PresetTable(name: string)
    ensures PresetNamed(name).Some? <==> name in PresetNames
    ensures PresetNamed(name).Some? ==>
      var p := PresetNamed(name).value;
      p.loop.enabled.Some? && p.loop.waitMinutes.Some? && p.loop.maxCycles.Some?
      && p.wallet.processAll.Some? && p.wallet.maxWallets.Some?
      && p.wallet.delayBetweenWallets.None? && p.wallet.delayBetweenFeatures.None?
  {
  }

  /** The default preset enables every feature but the PHRS wrap, and of them
      only the NFT mint is once-only. */
  lemma FullAutoFeatures()
    ensures EnabledFeatures(PresetNamed("FULL_AUTO").value.features)
         == [Faucet, Checkin, OriginalTransfer, EnhancedSwap, DomainMint, NftMint, LiquidityAdd]
    ensures OnceOnlyFeatures(PresetNamed("FULL_AUTO").value.features) == [NftMint]
  {
    var full := PresetNamed("FULL_AUTO").value.features;
    AllButWrapListings(full);
  }

  lemma AllButWrapListings(flags: Flags)
    requires flags == map[Faucet := true, Checkin := true, OriginalTransfer := true, EnhancedSwap := true,
                          WrapPHRS := false, DomainMint := true, NftMint := true, LiquidityAdd := true]
    ensures EnabledFeatures(flags) == [Faucet, Checkin, OriginalTransfer, EnhancedSwap, DomainMint, NftMint, LiquidityAdd]
    ensures OnceOnlyFeatures(flags) == [NftMint]
  {
    AllButWrapEnabled(flags);
    OnlyNftOnceOnly(flags);
  }

  lemma AllButWrapEnabled(flags: Flags)
    requires flags == map[Faucet := true, Checkin := true, OriginalTransfer := true, EnhancedSwap := true,
                          WrapPHRS := false, DomainMint := true, NftMint := true, LiquidityAdd := true]
    ensures EnabledFeatures(flags) == [Faucet, Checkin, OriginalTransfer, EnhancedSwap, DomainMint, NftMint, LiquidityAdd]
  {
    var on := (f: Feature) => IsOn(flags, f);
    FilterFeatures(on);
    assert Keep(on, Faucet) == [Faucet] && Keep(on, Checkin) == [Checkin];
    assert Keep(on, OriginalTransfer) == [OriginalTransfer] && Keep(on, EnhancedSwap) == [EnhancedSwap];
    assert Keep(on, WrapPHRS) == [] && Keep(on, DomainMint) == [DomainMint];
    assert Keep(on, NftMint) == [NftMint] && Keep(on, LiquidityAdd) == [LiquidityAdd];
  }

  /** With the NFT mint on, the once-only listing is exactly the NFT mint. */
  lemma OnlyNftOnceOnly(flags: Flags)
    requires IsOn(flags, NftMint)
    ensures OnceOnlyFeatures(flags) == [NftMint]
  {
    var once := (f: Feature) => IsOn(flags, f) && !CycleEnabled(f);
    FilterFeatures(once);
    assert Keep(once, Faucet) == [] && Keep(once, Checkin) == [];
    assert Keep(once, OriginalTransfer) == [] && Keep(once, EnhancedSwap) == [];
    assert Keep(once, WrapPHRS) == [] && Keep(once, DomainMint) == [];
    assert Keep(once, NftMint) == [NftMint] && Keep(once, LiquidityAdd) == [];
  }

  /** The domain preset does not list the liquidity feature, so it reads as
      off and only the domain mint is enabled. */
  lemma DomainOnlyFeatures()
    ensures !IsOn(PresetNamed("DOMAIN_ONLY").value.features, LiquidityAdd)
    ensures EnabledFeatures(PresetNamed("DOMAIN_ONLY").value.features) == [DomainMint]
  {
    var domain := PresetNamed("DOMAIN_ONLY").value.features;
    FilterFeatures((f: Feature) => IsOn(domain, f));
  }

  /** The test preset runs a single cycle over a single wallet, whatever the
      settings were. */
  lemma TestModeSettings(loop: LoopSettings, wallet: WalletSettings)
    ensures MergeLoop(loop, PresetNamed("TEST_MODE").value.loop) == LoopSettings(false, 0, 1)
    ensures var w := MergeWallet(wallet, PresetNamed("TEST_MODE").value.wallet);
      !w.processAll && w.maxWallets == 1
  {
  }

  /** With every flag on, the listings are the whole key order, split only by
      `cycleEnabled`. */
  lemma AllOnListings(flags: Flags)
    requires forall f :: f in flags && flags[f]
    ensures EnabledFeatures(flags) == FeatureOrder
    ensures CyclableFeatures(flags) == [Faucet, Checkin, OriginalTransfer, EnhancedSwap, WrapPHRS, DomainMint, LiquidityAdd]
    ensures OnceOnlyFeatures(flags) == [NftMint]
  {
    AllOnEnabled(flags);
    AllOnCyclable(flags);
    OnlyNftOnceOnly(flags);
  }

  lemma AllOnEnabled(flags: Flags)
    requires forall f :: f in flags && flags[f]
    ensures EnabledFeatures(flags) == FeatureOrder
  {
    var on := (f: Feature) => IsOn(flags, f);
    FilterFeatures(on);
    assert Keep(on, Faucet) == [Faucet] && Keep(on, Checkin) == [Checkin];
    assert Keep(on, OriginalTransfer) == [OriginalTransfer] && Keep(on, EnhancedSwap) == [EnhancedSwap];
    assert Keep(on, WrapPHRS) == [WrapPHRS] && Keep(on, DomainMint) == [DomainMint];
    assert Keep(on, NftMint) == [NftMint] && Keep(on, LiquidityAdd) == [LiquidityAdd];
  }

  lemma AllOnCyclable(flags: Flags)
    requires forall f :: f in flags && flags[f]
    ensures CyclableFeatures(flags) == [Faucet, Checkin, OriginalTransfer, EnhancedSwap, WrapPHRS, DomainMint, LiquidityAdd]
  {
    var cyc := (f: Feature) => IsOn(flags, f) && CycleEnabled(f);
    FilterFeatures(cyc);
    assert Keep(cyc, Faucet) == [Faucet] && Keep(cyc, Checkin) == [Checkin];
    assert Keep(cyc, OriginalTransfer) == [OriginalTransfer] && Keep(cyc, EnhancedSwap) == [EnhancedSwap];
    assert Keep(cyc, WrapPHRS) == [WrapPHRS] && Keep(cyc, DomainMint) == [DomainMint];
    assert Keep(cyc, NftMint) == [] && Keep(cyc, LiquidityAdd) == [LiquidityAdd];
  }

  /** With every flag off, nothing is listed. */
  lemma AllOffListings(flags: Flags)
    requires forall f :: f in flags && !flags[f]
    ensures EnabledFeatures(flags) == [] && CyclableFeatures(flags) == [] && OnceOnlyFeatures(flags) == []
  {
    var on := (f: Feature) => IsOn(flags, f);
    var cyc := (f: Feature) => IsOn(flags, f) && CycleEnabled(f);
    var once := (f: Feature) => IsOn(flags, f) && !CycleEnabled(f);
    FilterFeatures(on);
    FilterFeatures(cyc);
    FilterFeatures(once);
  }

  /** `createCustomConfig` options: each key present replaces the default. */
  datatype CustomOptions = CustomOptions(features: Option<Flags>, loop: Option<LoopPatch>, wallet: Option<WalletPatch>)

  /** The options after `{ ...defaultOptions, ...options }`. */
  datatype CustomConfig = CustomConfig(features: Flags, loop: LoopPatch, wallet: WalletPatch)

  function WithDefaults(options: CustomOptions): CustomConfig {
    CustomConfig(Override(map[], options.features), Override(FullLoop(true, 15, 0), options.loop),
                 Override(WalletLimits(true, 0), options.wallet))
  }

  // ----- the mutable configuration -----

  /** The feature table's flags together with `CURRENT_CONFIG` and the
      process-wide `configInitialized` marker. */
  class Configuration {
    var flags: Flags
    var preset: string
    var loop: LoopSettings
    var wallet: WalletSettings
    var proxy: ProxySettings
    var errorHandling: ErrorHandling
    var initialized: bool

    /** The state at load time. */
    constructor()
      ensures flags == InitialFlags && preset == "FULL_AUTO"
      ensures loop == LoopSettings(true, 15, 0) && wallet == WalletSettings(true, 0, 2000, 1000)
      ensures proxy == ProxySettings(true, true) && errorHandling == ErrorHandling(true, 3, 2000)
      ensures !initialized
    {
      flags := InitialFlags;
      preset := "FULL_AUTO";
      loop := LoopSettings(true, 15, 0);
      wallet := WalletSettings(true, 0, 2000, 1000);
      proxy := ProxySettings(true, true);
      errorHandling := ErrorHandling(true, 3, 2000);
      initialized := false;
    }

    /** The `forEach` over the feature keys: each flag becomes what `features`
        says, off when it does not list the feature. */
    method SetFlags(features: Flags)
      modifies this
      ensures forall f :: f in flags && flags[f] == IsOn(features, f)
      ensures preset == old(preset) && loop == old(loop) && wallet == old(wallet)
      ensures proxy == old(proxy) && errorHandling == old(errorHandling) && initialized == old(initialized)
    {
      for i := 0 to |FeatureOrder|
        invariant forall j :: 0 <= j < i ==> FeatureOrder[j] in flags && flags[FeatureOrder[j]] == IsOn(features, FeatureOrder[j])
        invariant preset == old(preset) && loop == old(loop) && wallet == old(wallet)
        invariant proxy == old(proxy) && errorHandling == old(errorHandling) && initialized == old(initialized)
      {
        flags := flags[FeatureOrder[i] := IsOn(features, FeatureOrder[i])];
      }
      FeatureOrderComplete();
      forall f ensures f in flags && flags[f] == IsOn(features, f) {
        assert f in FeatureOrder;
        var j :| 0 <= j < |FeatureOrder| && FeatureOrder[j] == f;
      }
    }

    /** `applyConfigPreset(name)`: an unknown name is refused before anything
        changes; otherwise every feature is enabled exactly when the preset
        lists it as true, the preset's settings are spread over the current
        ones and the preset name is recorded. */
    method ApplyConfigPreset(name: string) returns (applied: bool)
      modifies this
      ensures applied <==> PresetNamed(name).Some?
      ensures !applied ==> unchanged(this)
      ensures applied ==>
        var p := PresetNamed(name).value;
        (forall f :: f in flags && flags[f] == IsOn(p.features, f))
        && loop == MergeLoop(old(loop), p.loop) && wallet == MergeWallet(old(wallet), p.wallet)
        && preset == name && proxy == old(proxy) && errorHandling == old(errorHandling)
        && initialized == old(initialized)
    {
      var p := PresetNamed(name);
      if p.None? {
        return false;
      }
      SetFlags(p.value.features);
      loop := MergeLoop(loop, p.value.loop);
      wallet := MergeWallet(wallet, p.value.wallet);
      preset := name;
      applied := true;
    }

    /** `createCustomConfig(options)`: like a preset, from the options with
        their defaults, recorded as the preset "CUSTOM". */
    method CreateCustomConfig(options: CustomOptions) returns (config: CustomConfig)
      modifies this
      ensures config == WithDefaults(options)
      ensures forall f :: f in flags && flags[f] == IsOn(config.features, f)
      ensures loop == MergeLoop(old(loop), config.loop) && wallet == MergeWallet(old(wallet), config.wallet)
      ensures preset == "CUSTOM" && proxy == old(proxy) && errorHandling == old(errorHandling)
      ensures initialized == old(initialized)
    {
      config := WithDefaults(options);
      SetFlags(config.features);
      loop := MergeLoop(loop, config.loop);
      wallet := MergeWallet(wallet, config.wallet);
      preset := "CUSTOM";
    }

    /** `setWalletLimit(n)`: process the first n wallets, or all when n is 0. */
    method SetWalletLimit(maxWallets: nat)
      modifies this
      ensures wallet == old(wallet).(maxWallets := maxWallets, processAll := maxWallets == 0)
      ensures flags == old(flags) && preset == old(preset) && loop == old(loop)
      ensures proxy == old(proxy) && errorHandling == old(errorHandling) && initialized == old(initialized)
    {
      wallet := wallet.(maxWallets := maxWallets, processAll := maxWallets == 0);
    }

    /** The `forEach` of `enableAllFeatures` / `disableAllFeatures`. */
    method SetAllFlags(on: bool)
      modifies this
      ensures forall f :: f in flags && flags[f] == on
      ensures preset == old(preset) && loop == old(loop) && wallet == old(wallet)
      ensures proxy == old(proxy) && errorHandling == old(errorHandling) && initialized == old(initialized)
    {
      for i := 0 to |FeatureOrder|
        invariant forall j :: 0 <= j < i ==> FeatureOrder[j] in flags && flags[FeatureOrder[j]] == on
        invariant preset == old(preset) && loop == old(loop) && wallet == old(wallet)
        invariant proxy == old(proxy) && errorHandling == old(errorHandling) && initialized == old(initialized)
      {
        flags := flags[FeatureOrder[i] := on];
      }
      FeatureOrderComplete();
      forall f ensures f in flags && flags[f] == on {
        assert f in FeatureOrder;
        var j :| 0 <= j < |FeatureOrder| && FeatureOrder[j] == f;
      }
    }

    /** `enableAllFeatures`: every feature enabled; the cyclable list is then
        every feature but the NFT mint. */
    method EnableAllFeatures()
      modifies this
      ensures EnabledFeatures(flags) == FeatureOrder
      ensures CyclableFeatures(flags) == [Faucet, Checkin, OriginalTransfer, EnhancedSwap, WrapPHRS, DomainMint, LiquidityAdd]
      ensures OnceOnlyFeatures(flags) == [NftMint]
      ensures preset == old(preset) && loop == old(loop) && wallet == old(wallet)
      ensures proxy == old(proxy) && errorHandling == old(errorHandling) && initialized == old(initialized)
    {
      SetAllFlags(true);
      AllOnListings(flags);
    }

    /** `disableAllFeatures`: nothing enabled. */
    method DisableAllFeatures()
      modifies this
      ensures EnabledFeatures(flags) == [] && CyclableFeatures(flags) == [] && OnceOnlyFeatures(flags) == []
      ensures preset == old(preset) && loop == old(loop) && wallet == old(wallet)
      ensures proxy == old(proxy) && errorHandling == old(errorHandling) && initialized == old(initialized)
    {
      SetAllFlags(false);
      AllOffListings(flags);
    }

    /** `initializeConfig`: the first call applies the recorded preset (when it
        names one) and sets the marker; any later call changes nothing. */
    method InitializeConfig()
      modifies this
      ensures old(initialized) ==> unchanged(this)
      ensures !old(initialized) ==>
        (initialized && preset == old(preset) && proxy == old(proxy) && errorHandling == old(errorHandling))
      ensures !old(initialized) && PresetNamed(old(preset)).Some? ==>
        var p := PresetNamed(old(preset)).value;
        (forall f :: f in flags && flags[f] == IsOn(p.features, f))
        && loop == MergeLoop(old(loop), p.loop) && wallet == MergeWallet(old(wallet), p.wallet)
      ensures !old(initialized) && PresetNamed(old(preset)).None? ==>
        flags == old(flags) && loop == old(loop) && wallet == old(wallet)
    {
      if !initialized {
        var p := PresetNamed(preset);
        if p.Some? {
          SetFlags(p.value.features);
          loop := MergeLoop(loop, p.value.loop);
          wallet := MergeWallet(wallet, p.value.wallet);
        }
        initialized := true;
      }
    }
  }
}
