/** The entry point of the production bot: reading the key and proxy files,
    choosing the wallets, the cycle loop with its three stopping rules, and
    the per-cycle statistics. */
module ProductionMain {
  import opened Wrappers
  import opened SeqUtil
  import opened ProductionConfig
  import opened ProductionExecutor

  // ----- text: split and trim -----

  /** The index of the first `sep` in `s`. */
  function FirstIndex(s: string, sep: char): (i: nat)
    requires sep in s
    ensures i < |s| && s[i] == sep && sep !in s[..i]
  {
    if s[0] == sep then 0
    else
      assert sep in s[1..] by {
        var k :| 0 <= k < |s| && s[k] == sep;
        assert s[1..][k - 1] == sep;
      }
      var j := FirstIndex(s[1..], sep);
      assert s[..j + 1] == [s[0]] + s[1..][..j];
      j + 1
  }

  /** `String.prototype.split` with a one-character separator: the pieces
      between separators, a text without one being a single piece. */
  function Split(s: string, sep: char): (pieces: seq<string>)
    ensures |pieces| >= 1
    ensures forall i :: 0 <= i < |pieces| ==> sep !in pieces[i]
    decreases |s|
  {
    if sep !in s then [s]
    else
      var i := FirstIndex(s, sep);
      [s[..i]] + Split(s[i + 1..], sep)
  }

  /** `Array.prototype.join`: the pieces with `sep` between neighbours. */
  function Join(pieces: seq<string>, sep: char): string
    requires |pieces| >= 1
  {
    if |pieces| == 1 then pieces[0] else pieces[0] + [sep] + Join(pieces[1..], sep)
  }

  /** Splitting loses nothing: joining the pieces back gives the text. */
  lemma {:induction false} SplitJoin(s: string, sep: char)
    ensures Join(Split(s, sep), sep) == s
    decreases |s|
  {
    if sep in s {
      var i := FirstIndex(s, sep);
      var rest := Split(s[i + 1..], sep);
      assert Split(s, sep) == [s[..i]] + rest;
      assert Split(s, sep)[1..] == rest;
      SplitJoin(s[i + 1..], sep);
      assert s == s[..i] + [sep] + s[i + 1..];
    }
  }

  /** The characters `String.prototype.trim` removes: the ECMAScript white
      space and line terminators. */
  predicate IsSpace(c: char) {
    c == '\t' || c == '\n' || c == '\U{B}' || c == '\U{C}' || c == '\r' || c == ' '
    || c == '\U{A0}' || c == '\U{1680}' || ('\U{2000}' <= c <= '\U{200A}')
    || c == '\U{2028}' || c == '\U{2029}' || c == '\U{202F}' || c == '\U{205F}'
    || c == '\U{3000}' || c == '\U{FEFF}'
  }

  /** How many white-space characters `s` starts with. */
  function Lead(s: string): (k: nat)
    ensures k <= |s|
    ensures forall i :: 0 <= i < k ==> IsSpace(s[i])
    ensures k < |s| ==> !IsSpace(s[k])
  {
    if s != [] && IsSpace(s[0]) then
      var k := Lead(s[1..]);
      assert forall i :: 1 <= i < k + 1 ==> s[i] == s[1..][i - 1];
      k + 1
    else 0
  }

  /** Where the trailing white space of `s` starts. */
  function End(s: string): (e: nat)
    ensures e <= |s|
    ensures forall i :: e <= i < |s| ==> IsSpace(s[i])
    ensures e > 0 ==> !IsSpace(s[e - 1])
  {
    if s != [] && IsSpace(s[|s| - 1]) then
      var e := End(s[..|s| - 1]);
      assert forall i :: e <= i < |s| - 1 ==> s[i] == s[..|s| - 1][i];
      e
    else |s|
  }

  /** `String.prototype.trim`: empty exactly when `s` is all white space,
      otherwise the part between the leading and the trailing white space,
      which neither starts nor ends with white space. */
  function Trim(s: string): (r: string)
    ensures r == [] <==> forall k :: 0 <= k < |s| ==> IsSpace(s[k])
    ensures r != [] ==> Lead(s) < End(s) && r == s[Lead(s)..End(s)]
    ensures r != [] ==> !IsSpace(r[0]) && !IsSpace(r[|r| - 1])
  {
    var a := Lead(s);
    var e := End(s);
    if e <= a then
      assert forall k :: 0 <= k < |s| ==> IsSpace(s[k]);
      []
    else s[a..e]
  }

  /** Trimming twice trims nothing more. */
  lemma TrimIdempotent(s: string)
    ensures Trim(Trim(s)) == Trim(s)
  {
    var t := Trim(s);
    if t != [] {
      assert Lead(t) == 0;
      assert End(t) == |t|;
      assert t[0..|t|] == t;
    }
  }

  /** Each line of a text, trimmed. */
  function TrimAll(lines: seq<string>): (r: seq<string>)
    ensures |r| == |lines| && forall i :: 0 <= i < |lines| ==> r[i] == Trim(lines[i])
  {
    seq(|lines|, i requires 0 <= i < |lines| => Trim(lines[i]))
  }

  // ----- loadPrivateKeys, loadProxies, getRandomProxy -----

  /** A line kept as a private key: non-empty and starting with "0x". */
  predicate IsKeyLine(line: string) {
    |line| > 0 && "0x" <= line
  }

  predicate NonEmpty(line: string) {
    |line| > 0
  }

  /** Why `loadPrivateKeys` ends the process: the file is missing or cannot
      be read, or it holds no key line. */
  datatype KeyFileError = FileMissing | NoValidKeys

  /** The lines of `text`, each trimmed, that `keep` accepts, in order. */
  function KeptLines(text: string, keep: string -> bool): seq<string> {
    Filter(TrimAll(Split(text, '\n')), keep)
  }

  /** A line as the loaders keep it: trimmed, without a line break. */
  predicate Clean(line: string) {
    Trim(line) == line && '\n' !in line
  }

  /** A trimmed line of a split text is clean. */
  lemma TrimmedLine(line: string)
    requires '\n' !in line
    ensures Clean(Trim(line))
  {
    TrimIdempotent(line);
  }

  /** Every kept line is one of the lines trimmed, clean when the lines hold
      no line break, and accepted. */
  lemma KeptLinesSound(lines: seq<string>, keep: string -> bool)
    requires forall i :: 0 <= i < |lines| ==> '\n' !in lines[i]
    ensures forall x :: x in Filter(TrimAll(lines), keep) ==>
      keep(x) && Clean(x) && exists i :: 0 <= i < |lines| && Trim(lines[i]) == x
  {
    var trimmed := TrimAll(lines);
    FilterMembers(trimmed, keep);
    forall x | x in Filter(trimmed, keep)
      ensures keep(x) && Clean(x) && exists i :: 0 <= i < |lines| && Trim(lines[i]) == x
    {
      var k :| 0 <= k < |Filter(trimmed, keep)| && Filter(trimmed, keep)[k] == x;
      var i :| 0 <= i < |trimmed| && trimmed[i] == x;
      TrimmedLine(lines[i]);
    }
  }

  /** Every line whose trimmed form is accepted is kept. */
  lemma KeptLinesComplete(lines: seq<string>, keep: string -> bool)
    ensures forall i :: 0 <= i < |lines| && keep(Trim(lines[i])) ==> Trim(lines[i]) in Filter(TrimAll(lines), keep)
  {
    var trimmed := TrimAll(lines);
    FilterMembers(trimmed, keep);
    forall i | 0 <= i < |lines| && keep(Trim(lines[i]))
      ensures Trim(lines[i]) in Filter(trimmed, keep)
    {
      assert trimmed[i] == Trim(lines[i]);
    }
  }

  /** The key lines kept from split lines start with "0x", are clean, and
      come from some line. */
  lemma KeyLinesSound(lines: seq<string>)
    requires forall i :: 0 <= i < |lines| ==> '\n' !in lines[i]
    ensures forall key :: key in Filter(TrimAll(lines), IsKeyLine) ==>
      "0x" <= key && Clean(key) && exists i :: 0 <= i < |lines| && Trim(lines[i]) == key
  {
    KeptLinesSound(lines, IsKeyLine);
    forall key | key in Filter(TrimAll(lines), IsKeyLine)
      ensures "0x" <= key && Clean(key) && exists i :: 0 <= i < |lines| && Trim(lines[i]) == key
    {
      assert IsKeyLine(key);
    }
  }

  /** `loadPrivateKeys`, `file` being the contents of pk.txt when it exists
      and can be read. */
  function LoadPrivateKeys(file: Option<string>): (r: Result<seq<string>, KeyFileError>)
    ensures file.None? <==> r == Err(FileMissing)
    ensures r.Ok? ==> r.value != []
  {
    if file.None? then Err(FileMissing)
    else
      var keys := KeptLines(file.value, IsKeyLine);
      if keys == [] then Err(NoValidKeys) else Ok(keys)
  }

  /** `loadProxies`, `file` being the contents of proxies.txt when it exists
      and can be read; without it the bot connects directly. */
  function LoadProxies(file: Option<string>): (proxies: seq<string>)
    ensures file.None? ==> proxies == []
    ensures forall i :: 0 <= i < |proxies| ==> proxies[i] != []
  {
    if file.None? then []
    else
      FilterMembers(TrimAll(Split(file.value, '\n')), NonEmpty);
      KeptLines(file.value, NonEmpty)
  }

  /** Loading fails exactly when the file is missing or has no line that
      trims to something starting with "0x". */
  lemma PrivateKeysMeaning(file: Option<string>)
    ensures LoadPrivateKeys(file).Ok? <==>
      file.Some? && exists i :: 0 <= i < |Split(file.value, '\n')| && IsKeyLine(Trim(Split(file.value, '\n')[i]))
    ensures LoadPrivateKeys(file).Err? && file.Some? ==> LoadPrivateKeys(file).error == NoValidKeys
  {
    if file.Some? {
      var lines := Split(file.value, '\n');
      var trimmed := TrimAll(lines);
      assert KeptLines(file.value, IsKeyLine) == Filter(trimmed, IsKeyLine);
      FilterEmpty(trimmed, IsKeyLine);
      if exists i :: 0 <= i < |lines| && IsKeyLine(Trim(lines[i])) {
        var i :| 0 <= i < |lines| && IsKeyLine(Trim(lines[i]));
        assert IsKeyLine(trimmed[i]);
        assert LoadPrivateKeys(file).Ok?;
        assert file.Some? && 0 <= i < |Split(file.value, '\n')| && IsKeyLine(Trim(Split(file.value, '\n')[i]));
      }
    }
  }

  /** The keys are the trimmed lines that start with "0x", each clean, and
      every such line is a key. */
  lemma PrivateKeysContent(text: string, lines: seq<string>, keys: seq<string>)
    requires lines == Split(text, '\n')
    requires LoadPrivateKeys(Some(text)) == Ok(keys)
    ensures forall key :: key in keys ==>
      "0x" <= key && Clean(key) && exists i :: 0 <= i < |lines| && Trim(lines[i]) == key
    ensures forall i :: 0 <= i < |lines| && IsKeyLine(Trim(lines[i])) ==> Trim(lines[i]) in keys
  {
    assert keys == Filter(TrimAll(lines), IsKeyLine);
    KeyLinesSound(lines);
    KeptLinesComplete(lines, IsKeyLine);
  }

  /** The proxies are the non-blank lines, trimmed, in file order. */
  lemma ProxiesMeaning(file: Option<string>)
    ensures file.None? ==> LoadProxies(file) == []
    ensures file.Some? ==> forall proxy :: proxy in LoadProxies(file) ==> proxy != [] && Clean(proxy)
    ensures file.Some? ==>
      forall i :: 0 <= i < |Split(file.value, '\n')| && Trim(Split(file.value, '\n')[i]) != [] ==>
        Trim(Split(file.value, '\n')[i]) in LoadProxies(file)
  {
    if file.Some? {
      var lines := Split(file.value, '\n');
      var proxies := LoadProxies(file);
      assert proxies == Filter(TrimAll(lines), NonEmpty);
      KeptLinesSound(lines, NonEmpty);
      KeptLinesComplete(lines, NonEmpty);
      forall i | 0 <= i < |lines| && Trim(lines[i]) != []
        ensures Trim(lines[i]) in proxies
      {
        assert NonEmpty(Trim(lines[i]));
      }
      forall proxy | proxy in proxies ensures proxy != [] {
        assert NonEmpty(proxy);
      }
    }
  }

  /** `getRandomProxy`, `draw` standing for `Math.floor(Math.random() *
      length)`: no proxy from an empty list, otherwise one of the list. */
  function GetRandomProxy(proxies: seq<string>, draw: nat): (r: Option<string>)
    requires proxies != [] ==> draw < |proxies|
    ensures r.None? <==> proxies == []
    ensures r.Some? ==> r.value in proxies
  {
    if proxies == [] then None else Some(proxies[draw])
  }

  // ----- main -----

  /** `walletsToProcess`: every key, or the first `maxWallets` of them, a
      zero limit meaning all. */
  function WalletsToProcess(keys: seq<string>, wallet: WalletSettings): (w: seq<string>)
    ensures w <= keys
    ensures |w| == if wallet.processAll || wallet.maxWallets == 0 || wallet.maxWallets >= |keys|
                   then |keys| else wallet.maxWallets
  {
    if wallet.processAll then keys
    else
      var limit := if wallet.maxWallets == 0 then |keys| else wallet.maxWallets;
      keys[..if limit < |keys| then limit else |keys|]
  }

  predicate AllOnceOnlyCompleted(flags: Flags, completed: set<Feature>) {
    forall f :: f in OnceOnlyFeatures(flags) ==> f in completed
  }

  /** The three ways the cycle loop ends after cycle `cycleNumber`,
      `cyclable` and `onceOnly` being what `getCyclableFeatures` and
      `getOnceOnlyFeatures` return: looping is off, the cycle limit is
      reached, or no feature is cyclable and every once-only one is done. */
  predicate ShouldStop(loop: LoopSettings, cycleNumber: nat, cyclable: seq<Feature>, onceOnly: seq<Feature>,
                       completed: set<Feature>): (stop: bool)
    ensures loop.enabled && loop.maxCycles == 0 && cyclable != [] ==> !stop
  {
    !loop.enabled
    || (loop.maxCycles > 0 && cycleNumber >= loop.maxCycles)
    || (cyclable == [] && forall f :: f in onceOnly ==> f in completed)
  }

  /** The third rule stops only when another cycle would run nothing: with no
      cyclable feature and every once-only feature completed, a wallet has no
      feature left. */
  lemma NothingLeftToRun(flags: Flags, completed: set<Feature>)
    ensures FeaturesToRun(flags, completed) == [] <==>
            CyclableFeatures(flags) == [] && AllOnceOnlyCompleted(flags, completed)
  {
    var notDone := (f: Feature) => f !in completed;
    var rest := Filter(OnceOnlyFeatures(flags), notDone);
    FilterMembers(OnceOnlyFeatures(flags), notDone);
    if AllOnceOnlyCompleted(flags, completed) {
      FilterNone(OnceOnlyFeatures(flags), notDone);
    }
    if !AllOnceOnlyCompleted(flags, completed) {
      var f :| f in OnceOnlyFeatures(flags) && f !in completed;
      var i :| 0 <= i < |OnceOnlyFeatures(flags)| && OnceOnlyFeatures(flags)[i] == f;
      assert f in rest;
    }
  }

  /** What one wallet does in a cycle: `processWallet` threw, or it ran with
      `outcome(f)` the outcome of feature `f`. */
  datatype WalletRun = Crashed | Ran(outcome: Feature -> FeatureOutcome)

  /** The entry recorded for a wallet whose processing threw. */
  const Placeholder := WalletResults([], 0, 0, 1)

  /** The counters of a wallet's entry agree with its results. */
  predicate WellCounted(w: WalletResults) {
    |w.results| == w.successfulFeatures + w.failedFeatures <= w.totalFeatures
  }

  /** The outcome of each feature of `features`, in order. */
  function OutcomesOf(features: seq<Feature>, outcome: Feature -> FeatureOutcome): (os: seq<FeatureOutcome>)
    ensures |os| == |features| && forall k :: 0 <= k < |features| ==> os[k] == outcome(features[k])
  {
    seq(|features|, k requires 0 <= k < |features| => outcome(features[k]))
  }

  /** What `processWallet` does for a wallet whose features have the
      outcomes `outcome`, `completed` being the completed set beforehand. */
  function WalletTally(flags: Flags, completed: set<Feature>, outcome: Feature -> FeatureOutcome): Tally {
    var features := FeaturesToRun(flags, completed);
    TallyOf(features, OutcomesOf(features, outcome), completed)
  }

  /** The entry `processWallet` returns for that wallet. */
  function WalletEntry(flags: Flags, completed: set<Feature>, outcome: Feature -> FeatureOutcome): WalletResults {
    var t := WalletTally(flags, completed, outcome);
    WalletResults(t.results, |FeaturesToRun(flags, completed)|, t.successful, t.failed)
  }

  /** A wallet's entry has consistent counters, and its run completes only
      once-only features that are on and handled, forgetting none. */
  lemma WalletEntryMeaning(flags: Flags, completed: set<Feature>, outcome: Feature -> FeatureOutcome)
    ensures WellCounted(WalletEntry(flags, completed, outcome))
    ensures completed <= WalletTally(flags, completed, outcome).completed
    ensures forall f :: f in WalletTally(flags, completed, outcome).completed && f !in completed ==>
      IsOn(flags, f) && !CycleEnabled(f) && Handled(f)
  {
    var features := FeaturesToRun(flags, completed);
    var outcomes := OutcomesOf(features, outcome);
    TallyCounts(features, outcomes, completed);
    TallyCompleted(features, outcomes, completed);
    forall f | f in WalletTally(flags, completed, outcome).completed && f !in completed
      ensures IsOn(flags, f)
    {
      var k :| 0 <= k < |features| && features[k] == f && outcomes[k] == Succeeded;
      FeaturesToRunMembers(flags, completed, f);
    }
  }

  /** The entries of one cycle and the completed set after it. */
  datatype CycleOutcome = CycleOutcome(results: seq<WalletResults>, completed: set<Feature>)

  /** The wallet loop of one cycle over `runs`, wallet after wallet, each
      wallet seeing the completed set its predecessors left. */
  function CycleOf(flags: Flags, completed: set<Feature>, runs: seq<WalletRun>): (cycle: CycleOutcome)
    ensures |cycle.results| == |runs|
    decreases |runs|
  {
    if runs == [] then CycleOutcome([], completed)
    else
      var prev := CycleOf(flags, completed, runs[..|runs| - 1]);
      match runs[|runs| - 1]
      case Crashed => CycleOutcome(prev.results + [Placeholder], prev.completed)
      case Ran(outcome) =>
        CycleOutcome(prev.results + [WalletEntry(flags, prev.completed, outcome)],
                     WalletTally(flags, prev.completed, outcome).completed)
  }

  /** In a cycle a crashed wallet records the placeholder, every other entry
      has consistent counters, and the completed set only grows, by once-only
      features that are on and handled. */
  lemma {:induction false} CycleOfMeaning(flags: Flags, completed: set<Feature>, runs: seq<WalletRun>)
    ensures forall i :: 0 <= i < |runs| && runs[i].Crashed? ==> CycleOf(flags, completed, runs).results[i] == Placeholder
    ensures forall i :: 0 <= i < |runs| && runs[i].Ran? ==> WellCounted(CycleOf(flags, completed, runs).results[i])
    ensures completed <= CycleOf(flags, completed, runs).completed
    ensures forall f :: f in CycleOf(flags, completed, runs).completed && f !in completed ==>
      IsOn(flags, f) && !CycleEnabled(f) && Handled(f)
    decreases |runs|
  {
    if runs != [] {
      var n := |runs| - 1;
      CycleOfMeaning(flags, completed, runs[..n]);
      var prev := CycleOf(flags, completed, runs[..n]);
      var cycle := CycleOf(flags, completed, runs);
      match runs[n] {
        case Crashed =>
          assert cycle.results[n] == Placeholder && cycle.completed == prev.completed;
        case Ran(outcome) =>
          WalletEntryMeaning(flags, prev.completed, outcome);
          assert cycle.results[n] == WalletEntry(flags, prev.completed, outcome);
          assert cycle.completed == WalletTally(flags, prev.completed, outcome).completed;
      }
      assert cycle.results[..n] == prev.results;
      forall i | 0 <= i < n
        ensures cycle.results[i] == prev.results[i] && runs[..n][i] == runs[i]
      {
        assert cycle.results[..n][i] == cycle.results[i];
      }
      forall i | 0 <= i < |runs| && runs[i].Crashed?
        ensures cycle.results[i] == Placeholder
      {
        if i < n {
          assert prev.results[i] == Placeholder;
        }
      }
      forall i | 0 <= i < |runs| && runs[i].Ran?
        ensures WellCounted(cycle.results[i])
      {
        if i < n {
          assert WellCounted(prev.results[i]);
        }
      }
    }
  }

  /** The wallet loop over the first `i + 1` runs extends the loop over the first `i`. */
  lemma CycleOfNext(flags: Flags, completed: set<Feature>, runs: seq<WalletRun>, i: nat)
    requires i < |runs|
    ensures var prev := CycleOf(flags, completed, runs[..i]);
      CycleOf(flags, completed, runs[..i + 1])
      == match runs[i]
         case Crashed => CycleOutcome(prev.results + [Placeholder], prev.completed)
         case Ran(outcome) =>
           CycleOutcome(prev.results + [WalletEntry(flags, prev.completed, outcome)],
                        WalletTally(flags, prev.completed, outcome).completed)
  {
    assert runs[..i + 1][..i] == runs[..i];
  }

  /** `CycleOfMeaning` for the first `n` runs. */
  lemma CycleOfPrefixMeaning(flags: Flags, completed: set<Feature>, runs: seq<WalletRun>, n: nat)
    requires n <= |runs|
    ensures forall i :: 0 <= i < n && runs[i].Crashed? ==> CycleOf(flags, completed, runs[..n]).results[i] == Placeholder
    ensures forall i :: 0 <= i < n && runs[i].Ran? ==> WellCounted(CycleOf(flags, completed, runs[..n]).results[i])
    ensures completed <= CycleOf(flags, completed, runs[..n]).completed
    ensures forall f :: f in CycleOf(flags, completed, runs[..n]).completed && f !in completed ==>
      IsOn(flags, f) && !CycleEnabled(f) && Handled(f)
  {
    CycleOfMeaning(flags, completed, runs[..n]);
    assert forall i :: 0 <= i < n ==> runs[..n][i] == runs[i];
  }

  /** The runs of cycle `c` for its `count` wallets. */
  function CycleRuns(runs: (nat, nat) -> WalletRun, c: nat, count: nat): (rs: seq<WalletRun>)
    ensures |rs| == count && forall w :: 0 <= w < count ==> rs[w] == runs(c, w)
  {
    seq(count, w requires 0 <= w => runs(c, w))
  }

  /** One pass of the wallet loop of `main`: a proxy per wallet when proxies
      are on, then `processWallet`, a throw being recorded as the placeholder. */
  method RunCycle(executor: Executor, flags: Flags, wallets: seq<string>, proxies: seq<string>,
                  proxyEnabled: bool, draws: seq<nat>, runs: seq<WalletRun>)
    returns (cycleResults: seq<WalletResults>, proxiesUsed: seq<Option<string>>)
    modifies executor
    requires |runs| >= |wallets| && |draws| >= |wallets|
    requires proxies != [] ==> forall i :: 0 <= i < |wallets| ==> draws[i] < |proxies|
    ensures |cycleResults| == |proxiesUsed| == |wallets|
    ensures forall i :: 0 <= i < |wallets| ==>
      proxiesUsed[i] == (if proxyEnabled then GetRandomProxy(proxies, draws[i]) else None)
    ensures CycleOutcome(cycleResults, executor.onceOnlyCompleted)
            == CycleOf(flags, old(executor.onceOnlyCompleted), runs[..|wallets|])
    ensures forall i :: 0 <= i < |wallets| && runs[i].Crashed? ==> cycleResults[i] == Placeholder
    ensures forall i :: 0 <= i < |wallets| && runs[i].Ran? ==> WellCounted(cycleResults[i])
    ensures old(executor.onceOnlyCompleted) <= executor.onceOnlyCompleted
    ensures forall f :: f in executor.onceOnlyCompleted && f !in old(executor.onceOnlyCompleted) ==>
      IsOn(flags, f) && !CycleEnabled(f) && Handled(f)
  {
    cycleResults, proxiesUsed := [], [];
    ghost var start := executor.onceOnlyCompleted;
    for i := 0 to |wallets|
      invariant |cycleResults| == |proxiesUsed| == i
      invariant forall k :: 0 <= k < i ==>
        proxiesUsed[k] == (if proxyEnabled then GetRandomProxy(proxies, draws[k]) else None)
      invariant CycleOutcome(cycleResults, executor.onceOnlyCompleted) == CycleOf(flags, start, runs[..i])
    {
      CycleOfNext(flags, start, runs, i);
      var proxy := if proxyEnabled then GetRandomProxy(proxies, draws[i]) else None;
      proxiesUsed := proxiesUsed + [proxy];
      match runs[i] {
        case Crashed =>
          cycleResults := cycleResults + [Placeholder];
        case Ran(outcome) =>
          var w := RunWallet(executor, flags, outcome);
          cycleResults := cycleResults + [w];
      }
    }
    CycleOfPrefixMeaning(flags, start, runs, |wallets|);
  }

  /** `processWallet` for one wallet, each feature's outcome given by `outcome`. */
  method RunWallet(executor: Executor, flags: Flags, outcome: Feature -> FeatureOutcome)
    returns (w: WalletResults)
    modifies executor
    ensures w == WalletEntry(flags, old(executor.onceOnlyCompleted), outcome)
    ensures executor.onceOnlyCompleted == WalletTally(flags, old(executor.onceOnlyCompleted), outcome).completed
    ensures WellCounted(w)
    ensures old(executor.onceOnlyCompleted) <= executor.onceOnlyCompleted
    ensures forall f :: f in executor.onceOnlyCompleted && f !in old(executor.onceOnlyCompleted) ==>
      IsOn(flags, f) && !CycleEnabled(f) && Handled(f)
  {
    WalletEntryMeaning(flags, executor.onceOnlyCompleted, outcome);
    var features := FeaturesToRun(flags, executor.onceOnlyCompleted);
    w := executor.ProcessWallet(flags, OutcomesOf(features, outcome));
  }

  // ----- showCycleStats -----

  /** A feature's line of the per-feature table. */
  datatype FeatureStat = FeatureStat(success: nat, total: nat)

  datatype CycleStats = CycleStats(totalWallets: nat, successfulWallets: nat, totalFeatures: nat,
                                   successfulFeatures: nat, featureStats: map<Feature, FeatureStat>)

  predicate WalletSucceeded(w: WalletResults) {
    w.successfulFeatures > 0
  }

  function TotalOf(w: WalletResults): nat {
    w.totalFeatures
  }

  function SuccessfulOf(w: WalletResults): nat {
    w.successfulFeatures
  }

  /** Every wallet's results, wallet after wallet. */
  function Flatten(ws: seq<WalletResults>): (rs: seq<FeatureResult>)
    decreases |ws|
  {
    if ws == [] then [] else Flatten(ws[..|ws| - 1]) + ws[|ws| - 1].results
  }

  /** How many results are for `f`, and how many of them succeeded. */
  function Occurrences(rs: seq<FeatureResult>, f: Feature): nat
    decreases |rs|
  {
    if rs == [] then 0
    else Occurrences(rs[..|rs| - 1], f) + (if rs[|rs| - 1].feature == f then 1 else 0)
  }

  function Wins(rs: seq<FeatureResult>, f: Feature): (n: nat)
    ensures n <= Occurrences(rs, f)
    decreases |rs|
  {
    if rs == [] then 0
    else
      var last := rs[|rs| - 1];
      Wins(rs[..|rs| - 1], f) + (if last.feature == f && last.success then 1 else 0)
  }

  /** One turn of the `forEach`: a first result for a feature creates its
      line, and every result counts once, and once more among the successes
      when it succeeded. */
  function Tick(stats: map<Feature, FeatureStat>, r: FeatureResult): map<Feature, FeatureStat> {
    var s := if r.feature in stats then stats[r.feature] else FeatureStat(0, 0);
    stats[r.feature := FeatureStat(s.success + (if r.success then 1 else 0), s.total + 1)]
  }

  function StatsOf(rs: seq<FeatureResult>): map<Feature, FeatureStat>
    decreases |rs|
  {
    if rs == [] then map[] else Tick(StatsOf(rs[..|rs| - 1]), rs[|rs| - 1])
  }

  /** The table has a line for exactly the features that have a result, and
      each line counts that feature's results and successes. */
  lemma {:induction false} StatsMeaning(rs: seq<FeatureResult>)
    ensures forall f :: f in StatsOf(rs) <==> Occurrences(rs, f) > 0
    ensures forall f :: f in StatsOf(rs) ==> StatsOf(rs)[f] == FeatureStat(Wins(rs, f), Occurrences(rs, f))
    decreases |rs|
  {
    if rs != [] {
      StatsMeaning(rs[..|rs| - 1]);
    }
  }

  /** A feature has results exactly when some result names it. */
  lemma {:induction false} OccurrencesMeaning(rs: seq<FeatureResult>, f: Feature)
    ensures Occurrences(rs, f) > 0 <==> exists i :: 0 <= i < |rs| && rs[i].feature == f
    decreases |rs|
  {
    if rs != [] {
      var init := rs[..|rs| - 1];
      OccurrencesMeaning(init, f);
      if exists i :: 0 <= i < |init| && init[i].feature == f {
        var i :| 0 <= i < |init| && init[i].feature == f;
        assert rs[i].feature == f;
      }
      if exists i :: 0 <= i < |rs| && rs[i].feature == f {
        var i :| 0 <= i < |rs| && rs[i].feature == f;
        if i < |init| {
          assert init[i].feature == f;
        }
      }
    }
  }

  lemma StatsSnoc(rs: seq<FeatureResult>, r: FeatureResult)
    ensures StatsOf(rs + [r]) == Tick(StatsOf(rs), r)
  {
    assert (rs + [r])[..|rs|] == rs;
  }

  /** The inner `forEach` over one wallet's results. */
  method CountWalletResults(featureStats: map<Feature, FeatureStat>, ghost done: seq<FeatureResult>,
                            results: seq<FeatureResult>)
    returns (updated: map<Feature, FeatureStat>)
    requires featureStats == StatsOf(done)
    ensures updated == StatsOf(done + results)
  {
    updated := featureStats;
    assert done + results[..0] == done;
    for j := 0 to |results|
      invariant updated == StatsOf(done + results[..j])
    {
      var r := results[j];
      var s := if r.feature in updated then updated[r.feature] else FeatureStat(0, 0);
      s := FeatureStat(s.success, s.total + 1);
      if r.success {
        s := FeatureStat(s.success + 1, s.total);
      }
      updated := updated[r.feature := s];
      StatsSnoc(done + results[..j], r);
      assert done + results[..j + 1] == (done + results[..j]) + [r];
    }
    assert results[..|results|] == results;
  }

  /** The statistics of a cycle: its wallets, those with a success, the
      features run and succeeded, and the per-feature table. */
  function Summary(cycleResults: seq<WalletResults>): CycleStats {
    CycleStats(|cycleResults|, |Filter(cycleResults, WalletSucceeded)|, Sum(cycleResults, TotalOf),
               Sum(cycleResults, SuccessfulOf), StatsOf(Flatten(cycleResults)))
  }

  /** `showCycleStats`: the wallet and feature totals and the per-feature
      table of one cycle. */
  method ShowCycleStats(cycleResults: seq<WalletResults>) returns (stats: CycleStats)
    ensures stats == Summary(cycleResults)
    ensures stats.totalWallets == |cycleResults|
    ensures stats.successfulWallets == |Filter(cycleResults, WalletSucceeded)|
    ensures stats.totalFeatures == Sum(cycleResults, TotalOf)
    ensures stats.successfulFeatures == Sum(cycleResults, SuccessfulOf)
    ensures stats.featureStats == StatsOf(Flatten(cycleResults))
  {
    var featureStats: map<Feature, FeatureStat> := map[];
    for i := 0 to |cycleResults|
      invariant featureStats == StatsOf(Flatten(cycleResults[..i]))
    {
      featureStats := CountWalletResults(featureStats, Flatten(cycleResults[..i]), cycleResults[i].results);
      assert cycleResults[..i + 1][..i] == cycleResults[..i];
    }
    assert cycleResults[..|cycleResults|] == cycleResults;
    stats := CycleStats(|cycleResults|, |Filter(cycleResults, WalletSucceeded)|,
                        Sum(cycleResults, TotalOf), Sum(cycleResults, SuccessfulOf), featureStats);
  }

  /** The cycle summary never reports more successes than attempts: at most
      every wallet succeeded, each feature's successes are at most its runs,
      and when every wallet's entry is well counted the feature successes are
      at most the features run. */
  lemma CycleStatsBounds(cycleResults: seq<WalletResults>)
    ensures |Filter(cycleResults, WalletSucceeded)| <= |cycleResults|
    ensures forall f :: f in StatsOf(Flatten(cycleResults)) ==>
      StatsOf(Flatten(cycleResults))[f].success <= StatsOf(Flatten(cycleResults))[f].total
    ensures (forall i :: 0 <= i < |cycleResults| ==> WellCounted(cycleResults[i])) ==>
      Sum(cycleResults, SuccessfulOf) <= Sum(cycleResults, TotalOf)
  {
    StatsMeaning(Flatten(cycleResults));
    if forall i :: 0 <= i < |cycleResults| ==> WellCounted(cycleResults[i]) {
      SumLe(cycleResults, SuccessfulOf, TotalOf);
    }
  }

  /** Cycle `c`, run on the completed set `before` with `count` wallets,
      records the wallet entries `results` and leaves the completed set
      `next`. */
  ghost predicate CycleRecorded(flags: Flags, before: set<Feature>, runs: (nat, nat) -> WalletRun, c: nat,
                                count: nat, results: seq<WalletResults>, next: set<Feature>)
  {
    CycleOf(flags, before, CycleRuns(runs, c, count)) == CycleOutcome(results, next)
  }

  /** Cycle `c` of `main`: its wallets, then its statistics. */
  method RunNumberedCycle(executor: Executor, flags: Flags, wallets: seq<string>, proxies: seq<string>,
                          proxyEnabled: bool, c: nat, draws: (nat, nat) -> nat, runs: (nat, nat) -> WalletRun)
    returns (stats: CycleStats, cycleResults: seq<WalletResults>)
    modifies executor
    requires proxies != [] ==> forall w :: draws(c, w) < |proxies|
    ensures CycleRecorded(flags, old(executor.onceOnlyCompleted), runs, c, |wallets|, cycleResults,
                          executor.onceOnlyCompleted)
    ensures stats == Summary(cycleResults) && stats.totalWallets == |wallets|
    ensures old(executor.onceOnlyCompleted) <= executor.onceOnlyCompleted
  {
    var ds := seq(|wallets|, w requires 0 <= w => draws(c, w));
    var rs := CycleRuns(runs, c, |wallets|);
    var proxiesUsed;
    cycleResults, proxiesUsed := RunCycle(executor, flags, wallets, proxies, proxyEnabled, ds, rs);
    assert rs[..|wallets|] == rs;
    stats := ShowCycleStats(cycleResults);
  }

  /** `history`, `results` and `sets` record the cycles so far with `count`
      wallets: cycle c + 1 ran on the completed set `sets[c]`, recorded the
      wallet entries `results[c]`, summarised in `history[c]`, and left the
      completed set `sets[c + 1]`. */
  ghost predicate Recorded(flags: Flags, runs: (nat, nat) -> WalletRun, count: nat, history: seq<CycleStats>,
                           results: seq<seq<WalletResults>>, sets: seq<set<Feature>>)
    decreases |results|
  {
    |history| == |results| && |sets| == |results| + 1
    && (results != [] ==>
          var n := |results| - 1;
          Recorded(flags, runs, count, history[..n], results[..n], sets[..n + 1])
          && CycleRecorded(flags, sets[n], runs, n + 1, count, results[n], sets[n + 1])
          && history[n] == Summary(results[n]))
  }

  /** The record, cycle by cycle. */
  lemma {:induction false} RecordedMeaning(flags: Flags, runs: (nat, nat) -> WalletRun, count: nat,
                                           history: seq<CycleStats>, results: seq<seq<WalletResults>>,
                                           sets: seq<set<Feature>>)
    requires Recorded(flags, runs, count, history, results, sets)
    ensures forall c :: 0 <= c < |results| ==>
      CycleRecorded(flags, sets[c], runs, c + 1, count, results[c], sets[c + 1])
      && history[c] == Summary(results[c]) && history[c].totalWallets == count
    decreases |results|
  {
    if results != [] {
      var n := |results| - 1;
      RecordedMeaning(flags, runs, count, history[..n], results[..n], sets[..n + 1]);
      forall c | 0 <= c < n
        ensures CycleRecorded(flags, sets[c], runs, c + 1, count, results[c], sets[c + 1])
                && history[c] == Summary(results[c]) && history[c].totalWallets == count
      {
        assert history[..n][c] == history[c] && results[..n][c] == results[c];
        assert sets[..n + 1][c] == sets[c] && sets[..n + 1][c + 1] == sets[c + 1];
      }
    }
  }

  lemma RecordedSnoc(flags: Flags, runs: (nat, nat) -> WalletRun, count: nat, history: seq<CycleStats>,
                     results: seq<seq<WalletResults>>, sets: seq<set<Feature>>,
                     stats: CycleStats, cycleResults: seq<WalletResults>, next: set<Feature>)
    requires Recorded(flags, runs, count, history, results, sets)
    requires CycleRecorded(flags, sets[|results|], runs, |results| + 1, count, cycleResults, next)
    requires stats == Summary(cycleResults)
    ensures Recorded(flags, runs, count, history + [stats], results + [cycleResults], sets + [next])
  {
    var h, r, a := history + [stats], results + [cycleResults], sets + [next];
    assert h[..|results|] == history && r[..|results|] == results && a[..|results| + 1] == sets;
  }

  /** No cycle before cycle `last` stopped the loop, `sets[c]` being the
      completed set after cycle c. */
  predicate NoEarlyStop(loop: LoopSettings, cyclable: seq<Feature>, onceOnly: seq<Feature>,
                        sets: seq<set<Feature>>, last: nat)
    requires last <= |sets|
    decreases last
  {
    last <= 1
    || (NoEarlyStop(loop, cyclable, onceOnly, sets, last - 1)
        && !ShouldStop(loop, last - 1, cyclable, onceOnly, sets[last - 1]))
  }

  /** No earlier cycle stopped the loop, cycle by cycle. */
  lemma {:induction false} NoEarlyStopMeaning(loop: LoopSettings, cyclable: seq<Feature>, onceOnly: seq<Feature>,
                                              sets: seq<set<Feature>>, last: nat)
    requires last <= |sets|
    ensures NoEarlyStop(loop, cyclable, onceOnly, sets, last) <==>
      forall c :: 1 <= c < last ==> !ShouldStop(loop, c, cyclable, onceOnly, sets[c])
    decreases last
  {
    if last > 1 {
      NoEarlyStopMeaning(loop, cyclable, onceOnly, sets, last - 1);
    }
  }

  /** Whether earlier cycles stopped the loop depends only on the sets they left. */
  lemma {:induction false} NoEarlyStopPrefix(loop: LoopSettings, cyclable: seq<Feature>, onceOnly: seq<Feature>,
                                             earlier: seq<set<Feature>>, sets: seq<set<Feature>>, last: nat)
    requires last <= |earlier| <= |sets| && sets[..|earlier|] == earlier
    ensures NoEarlyStop(loop, cyclable, onceOnly, sets, last) == NoEarlyStop(loop, cyclable, onceOnly, earlier, last)
    decreases last
  {
    if last > 1 {
      NoEarlyStopPrefix(loop, cyclable, onceOnly, earlier, sets, last - 1);
      assert sets[last - 1] == earlier[last - 1];
    }
  }

  /** The next cycle of the loop, appended to the record of the cycles so far. */
  method NextCycle(executor: Executor, flags: Flags, wallets: seq<string>, proxies: seq<string>,
                   proxyEnabled: bool, draws: (nat, nat) -> nat, runs: (nat, nat) -> WalletRun,
                   history: seq<CycleStats>, ghost results: seq<seq<WalletResults>>, ghost sets: seq<set<Feature>>)
    returns (history': seq<CycleStats>, ghost results': seq<seq<WalletResults>>, ghost sets': seq<set<Feature>>)
    modifies executor
    requires proxies != [] ==> forall c, w :: draws(c, w) < |proxies|
    requires Recorded(flags, runs, |wallets|, history, results, sets) && sets[|results|] == executor.onceOnlyCompleted
    ensures Recorded(flags, runs, |wallets|, history', results', sets') && sets'[|results'|] == executor.onceOnlyCompleted
    ensures |results'| == |results| + 1 && history'[..|history|] == history && sets'[..|sets|] == sets
    ensures history'[|history|].totalWallets == |wallets|
    ensures old(executor.onceOnlyCompleted) <= executor.onceOnlyCompleted
  {
    var stats, cycleResults := RunNumberedCycle(executor, flags, wallets, proxies, proxyEnabled, |history| + 1, draws, runs);
    RecordedSnoc(flags, runs, |wallets|, history, results, sets, stats, cycleResults, executor.onceOnlyCompleted);
    history', results', sets' := history + [stats], results + [cycleResults], sets + [executor.onceOnlyCompleted];
    assert history'[..|history|] == history && sets'[..|sets|] == sets;
  }

  /** A cycle that did not stop the loop extends the run of cycles that did not. */
  lemma NoEarlyStopStep(loop: LoopSettings, cyclable: seq<Feature>, onceOnly: seq<Feature>,
                        earlier: seq<set<Feature>>, sets: seq<set<Feature>>, last: nat)
    requires last <= |earlier| < |sets| && sets[..|earlier|] == earlier
    requires NoEarlyStop(loop, cyclable, onceOnly, earlier, last)
    requires !ShouldStop(loop, last, cyclable, onceOnly, sets[last])
    ensures NoEarlyStop(loop, cyclable, onceOnly, sets, last + 1)
  {
    NoEarlyStopPrefix(loop, cyclable, onceOnly, earlier, sets, last);
  }

  /** A loop that never stopped early and stops exactly when the rule says
      so runs at most one cycle when looping is off and at most
      `maxCycles` cycles when that is set. */
  lemma StopBounds(loop: LoopSettings, cyclable: seq<Feature>, onceOnly: seq<Feature>,
                   sets: seq<set<Feature>>, cycleNumber: nat, finished: bool)
    requires cycleNumber < |sets| && NoEarlyStop(loop, cyclable, onceOnly, sets, cycleNumber)
    requires finished <==> cycleNumber > 0 && ShouldStop(loop, cycleNumber, cyclable, onceOnly, sets[cycleNumber])
    ensures !loop.enabled ==> cycleNumber <= 1
    ensures loop.maxCycles > 0 ==> cycleNumber <= loop.maxCycles
  {
    if cycleNumber > 1 {
      NoEarlyStopMeaning(loop, cyclable, onceOnly, sets, cycleNumber);
      assert !ShouldStop(loop, cycleNumber - 1, cyclable, onceOnly, sets[cycleNumber - 1]);
    }
  }

  /** The `while (true)` loop of `main`: run numbered cycles until a stop
      rule applies after one, or until `rounds` cycles have run. `cyclable`
      and `onceOnly` are the lists the stop rule reads; cycle c + 1 recorded
      the wallet entries `results[c]`, summarised in `history[c]`; `sets[0]`
      is the completed set at the start and `sets[c]` the one cycle c left. */
  method RunCycles(executor: Executor, loop: LoopSettings, flags: Flags, cyclable: seq<Feature>,
                   onceOnly: seq<Feature>, wallets: seq<string>, proxies: seq<string>, proxyEnabled: bool, rounds: nat,
                   draws: (nat, nat) -> nat, runs: (nat, nat) -> WalletRun)
    returns (finished: bool, cycleNumber: nat, history: seq<CycleStats>,
             ghost results: seq<seq<WalletResults>>, ghost sets: seq<set<Feature>>)
    modifies executor
    requires proxies != [] ==> forall c, w :: draws(c, w) < |proxies|
    ensures cycleNumber <= rounds && |history| == |results| == cycleNumber && |sets| == cycleNumber + 1
    ensures Recorded(flags, runs, |wallets|, history, results, sets)
    ensures sets[0] == old(executor.onceOnlyCompleted) && sets[cycleNumber] == executor.onceOnlyCompleted
    ensures NoEarlyStop(loop, cyclable, onceOnly, sets, cycleNumber)
    ensures finished <==> cycleNumber > 0 && ShouldStop(loop, cycleNumber, cyclable, onceOnly, sets[cycleNumber])
    ensures !finished ==> cycleNumber == rounds
    ensures old(executor.onceOnlyCompleted) <= executor.onceOnlyCompleted
  {
    history, results, sets := [], [], [executor.onceOnlyCompleted];
    cycleNumber := 0;
    ghost var start := executor.onceOnlyCompleted;
    while cycleNumber < rounds
      invariant cycleNumber <= rounds && |history| == |results| == cycleNumber && |sets| == cycleNumber + 1
      invariant Recorded(flags, runs, |wallets|, history, results, sets)
      invariant sets[0] == start && sets[cycleNumber] == executor.onceOnlyCompleted
      invariant NoEarlyStop(loop, cyclable, onceOnly, sets, cycleNumber + 1)
      invariant start <= executor.onceOnlyCompleted
    {
      ghost var earlier := sets;
      history, results, sets := NextCycle(executor, flags, wallets, proxies, proxyEnabled, draws, runs,
                                          history, results, sets);
      cycleNumber := cycleNumber + 1;
      if ShouldStop(loop, cycleNumber, cyclable, onceOnly, executor.onceOnlyCompleted) {
        NoEarlyStopPrefix(loop, cyclable, onceOnly, earlier, sets, cycleNumber);
        return true, cycleNumber, history, results, sets;
      }
      NoEarlyStopStep(loop, cyclable, onceOnly, earlier, sets, cycleNumber);
    }
    finished := false;
  }

  /** How `main` ends: no feature enabled or the key file unusable (both exit
      with status 1), the loop stopped by one of its rules, or the model ran
      out of `rounds`. */
  datatype BotExit = NoFeatures | KeyFileFailed(error: KeyFileError) | Finished | OutOfRounds

  /** `main`. Cycle `c` (from 1) gives wallet `w` (from 0) the proxy index
      `draws(c, w)` and the run `runs(c, w)`; `rounds` bounds the number of
      cycles the model goes through; `sets[0]` is the completed set at the
      start and `sets[c]` the one cycle c left. */
  method RunBot(config: Configuration, executor: Executor, keysFile: Option<string>,
                proxiesFile: Option<string>, rounds: nat,
                draws: (nat, nat) -> nat, runs: (nat, nat) -> WalletRun)
    returns (exit: BotExit, cycleNumber: nat, history: seq<CycleStats>,
             ghost results: seq<seq<WalletResults>>, ghost sets: seq<set<Feature>>)
    modifies executor
    requires LoadProxies(proxiesFile) != [] ==> forall c, w :: draws(c, w) < |LoadProxies(proxiesFile)|
    ensures exit == NoFeatures <==> EnabledFeatures(config.flags) == []
    ensures exit.KeyFileFailed? <==>
      EnabledFeatures(config.flags) != [] && LoadPrivateKeys(keysFile).Err?
    ensures exit.KeyFileFailed? ==> exit.error == LoadPrivateKeys(keysFile).error
    ensures exit.NoFeatures? || exit.KeyFileFailed? ==> cycleNumber == 0 && history == []
    ensures cycleNumber <= rounds && |history| == |results| == cycleNumber && |sets| == cycleNumber + 1
    ensures sets[0] == old(executor.onceOnlyCompleted) && sets[cycleNumber] == executor.onceOnlyCompleted
    ensures exit == Finished || exit == OutOfRounds ==>
      var count := |WalletsToProcess(LoadPrivateKeys(keysFile).value, config.wallet)|;
      Recorded(config.flags, runs, count, history, results, sets)
    ensures NoEarlyStop(config.loop, CyclableFeatures(config.flags), OnceOnlyFeatures(config.flags), sets, cycleNumber)
    ensures exit == Finished <==>
      cycleNumber > 0
      && ShouldStop(config.loop, cycleNumber, CyclableFeatures(config.flags), OnceOnlyFeatures(config.flags), sets[cycleNumber])
    ensures exit == OutOfRounds ==> cycleNumber == rounds
    ensures !config.loop.enabled ==> cycleNumber <= 1
    ensures config.loop.maxCycles > 0 ==> cycleNumber <= config.loop.maxCycles
    ensures old(executor.onceOnlyCompleted) <= executor.onceOnlyCompleted
  {
    history, results, sets := [], [], [executor.onceOnlyCompleted];
    cycleNumber := 0;
    if EnabledFeatures(config.flags) == [] {
      return NoFeatures, cycleNumber, history, results, sets;
    }
    var keys := LoadPrivateKeys(keysFile);
    if keys.Err? {
      return KeyFileFailed(keys.error), cycleNumber, history, results, sets;
    }
    var proxies := LoadProxies(proxiesFile);
    var wallets := WalletsToProcess(keys.value, config.wallet);
    var finished;
    finished, cycleNumber, history, results, sets :=
      RunCycles(executor, config.loop, config.flags, CyclableFeatures(config.flags), OnceOnlyFeatures(config.flags),
                wallets, proxies, config.proxy.enabled, rounds, draws, runs);
    exit := if finished then Finished else OutOfRounds;
    StopBounds(config.loop, CyclableFeatures(config.flags), OnceOnlyFeatures(config.flags), sets, cycleNumber, finished);
  }
}
