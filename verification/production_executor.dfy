/** Per-wallet bookkeeping of the executor (`production_executor.js`): the
    `retry` combinator, the feature loop of `processWallet` with its counters
    and the set of completed once-only features, and the stop rule of the
    random-transfer loop. What each feature does on chain is an input. */
module ProductionExecutor {
  import opened Wrappers
  import opened SeqUtil
  import opened ProductionConfig

  // ----- retry -----

  /** How `retry` ends: with the value of a successful call, by rethrowing
      the error of call `attempt`, or (no attempt allowed) with `undefined`. */
  datatype RetryResult<T> = Value(value: T) | Rethrown(attempt: nat) | Undefined

  /** `retry` from attempt i on; `outcomes[i]` is call i's value, None when
      it threw. */
  function RetryFrom<T>(outcomes: seq<Option<T>>, maxRetries: int, i: nat): RetryResult<T>
    requires maxRetries <= |outcomes|
    decreases maxRetries - i
  {
    if i >= maxRetries then Undefined
    else if outcomes[i].Some? then Value(outcomes[i].value)
    else if i == maxRetries - 1 then Rethrown(i)
    else RetryFrom(outcomes, maxRetries, i + 1)
  }

  /** `retry(fn, maxRetries, delayMs)`: the calls made and the sleeps between
      them are counted. */
  method Retry<T>(outcomes: seq<Option<T>>, maxRetries: int) returns (r: RetryResult<T>, calls: nat, sleeps: nat)
    requires maxRetries <= |outcomes|
    ensures r == RetryFrom(outcomes, maxRetries, 0)
    ensures calls <= if maxRetries < 0 then 0 else maxRetries
    ensures calls > 0 ==> sleeps == calls - 1
    ensures calls == 0 <==> maxRetries <= 0
    ensures forall j :: 0 <= j < calls - 1 ==> outcomes[j].None?
    ensures r.Value? ==> calls > 0 && outcomes[calls - 1] == Some(r.value)
  {
    var i := 0;
    calls, sleeps := 0, 0;
    while i < maxRetries
      invariant i == 0 || i < maxRetries
      invariant RetryFrom(outcomes, maxRetries, i) == RetryFrom(outcomes, maxRetries, 0)
      invariant calls == i && sleeps == i
      invariant forall j :: 0 <= j < i ==> outcomes[j].None?
      decreases maxRetries - i
    {
      calls := calls + 1;
      if outcomes[i].Some? {
        return Value(outcomes[i].value), calls, sleeps;
      }
      if i == maxRetries - 1 {
        return Rethrown(i), calls, sleeps;
      }
      sleeps := sleeps + 1;
      i := i + 1;
    }
    r := Undefined;
  }

  /** `retry` returns the value of the first call that does not throw, if one
      of the first maxRetries calls does; it rethrows the last call's error
      when all maxRetries calls throw; and it returns nothing when no call is
      allowed. */
  lemma {:induction false} RetryMeaning<T>(outcomes: seq<Option<T>>, maxRetries: int, i: nat)
    requires maxRetries <= |outcomes| && i <= |outcomes| && (forall j :: 0 <= j < i ==> outcomes[j].None?)
    ensures var r := RetryFrom(outcomes, maxRetries, i);
      (r.Value? <==> exists k :: i <= k < maxRetries && outcomes[k].Some?)
      && (r.Value? ==> exists k :: i <= k < maxRetries && outcomes[k] == Some(r.value)
                                   && forall j :: 0 <= j < k ==> outcomes[j].None?)
      && (r.Rethrown? <==> i < maxRetries && forall k :: 0 <= k < maxRetries ==> outcomes[k].None?)
      && (r.Rethrown? ==> r.attempt == maxRetries - 1)
      && (r.Undefined? <==> maxRetries <= i)
    decreases maxRetries - i
  {
    if i < maxRetries && outcomes[i].None? && i != maxRetries - 1 {
      RetryMeaning(outcomes, maxRetries, i + 1);
    }
  }

  // ----- processWallet -----

  /** What running one feature did: it reported success, reported failure,
      or threw. */
  datatype FeatureOutcome = Succeeded | Failed | Threw

  /** One entry of `walletResults.results`. */
  datatype FeatureResult = FeatureResult(feature: Feature, success: bool)

  datatype WalletResults = WalletResults(results: seq<FeatureResult>, totalFeatures: nat,
                                         successfulFeatures: nat, failedFeatures: nat)

  /** The features the `switch` has a case for; the liquidity feature has none
      and is skipped. */
  predicate Handled(f: Feature) {
    f != LiquidityAdd
  }

  /** `allFeatures`: the cyclable features, then the once-only features not
      yet completed. */
  function FeaturesToRun(flags: Flags, completed: set<Feature>): seq<Feature> {
    CyclableFeatures(flags) + Filter(OnceOnlyFeatures(flags), (f: Feature) => f !in completed)
  }

  /** A wallet runs every enabled cyclable feature and every enabled once-only
      feature not completed yet, cyclable ones first. */
  lemma FeaturesToRunMembers(flags: Flags, completed: set<Feature>, f: Feature)
    ensures f in FeaturesToRun(flags, completed) <==> IsOn(flags, f) && (CycleEnabled(f) || f !in completed)
    ensures forall i :: 0 <= i < |CyclableFeatures(flags)| ==> CycleEnabled(FeaturesToRun(flags, completed)[i])
  {
    var notDone := (g: Feature) => g !in completed;
    FeaturePartition(flags);
    FilterMembers(OnceOnlyFeatures(flags), notDone);
    FilterFeaturesMembers((g: Feature) => IsOn(flags, g) && CycleEnabled(g));
    var cyc := CyclableFeatures(flags);
    var rest := Filter(OnceOnlyFeatures(flags), notDone);
    if f in rest {
      var i :| 0 <= i < |rest| && rest[i] == f;
    }
    if f in OnceOnlyFeatures(flags) && f !in completed {
      var i :| 0 <= i < |OnceOnlyFeatures(flags)| && OnceOnlyFeatures(flags)[i] == f;
    }
    forall i | 0 <= i < |cyc| ensures CycleEnabled(FeaturesToRun(flags, completed)[i]) {
      assert FeaturesToRun(flags, completed)[i] == cyc[i] && cyc[i] in cyc;
    }
  }

  /** The counters, the results and the completed set while the loop runs. */
  datatype Tally = Tally(results: seq<FeatureResult>, successful: nat, failed: nat, completed: set<Feature>)

  /** One turn of the feature loop. */
  function Step(t: Tally, f: Feature, o: FeatureOutcome): Tally {
    if !Handled(f) then t
    else if o == Succeeded then
      Tally(t.results + [FeatureResult(f, true)], t.successful + 1, t.failed,
            if CycleEnabled(f) then t.completed else t.completed + {f})
    else Tally(t.results + [FeatureResult(f, false)], t.successful, t.failed + 1, t.completed)
  }

  /** The loop over `features`, feature i having outcome `outcomes[i]`. */
  function TallyOf(features: seq<Feature>, outcomes: seq<FeatureOutcome>, completed: set<Feature>): (t: Tally)
    requires |outcomes| >= |features|
    ensures |t.results| == t.successful + t.failed <= |features|
    ensures completed <= t.completed
  {
    if features == [] then Tally([], 0, 0, completed)
    else
      var n := |features| - 1;
      Step(TallyOf(features[..n], outcomes, completed), features[n], outcomes[n])
  }

  /** Every handled feature pushes one result and moves one counter; a
      skipped one moves nothing, so the counters add up to at most the number
      of features, and to exactly that when none is skipped. Results follow
      the handled features in order. */
  lemma {:induction false} TallyCounts(features: seq<Feature>, outcomes: seq<FeatureOutcome>, completed: set<Feature>)
    requires |outcomes| >= |features|
    ensures var t := TallyOf(features, outcomes, completed);
      |t.results| == t.successful + t.failed <= |features|
      && ((forall i :: 0 <= i < |features| ==> Handled(features[i])) ==> t.successful + t.failed == |features|)
      && ((exists i :: 0 <= i < |features| && !Handled(features[i])) ==> t.successful + t.failed < |features|)
      && |t.results| == |Filter(features, Handled)|
      && (forall k :: 0 <= k < |t.results| ==> t.results[k].feature == Filter(features, Handled)[k])
  {
    if features != [] {
      var n := |features| - 1;
      var init := features[..n];
      TallyCounts(init, outcomes, completed);
      assert features == init + [features[n]];
      FilterSnoc(init, features[n], Handled);
      if exists i :: 0 <= i < |features| && !Handled(features[i]) {
        var i :| 0 <= i < |features| && !Handled(features[i]);
        if i < n {
          assert init[i] == features[i];
        }
      }
      if forall i :: 0 <= i < |features| ==> Handled(features[i]) {
        assert forall i :: 0 <= i < |init| ==> Handled(init[i]) by {
          forall i | 0 <= i < |init| ensures Handled(init[i]) {
            assert init[i] == features[i];
          }
        }
      }
    }
  }

  /** The completed set only grows, and only by once-only features whose run
      succeeded. */
  lemma {:induction false} TallyCompleted(features: seq<Feature>, outcomes: seq<FeatureOutcome>, completed: set<Feature>)
    requires |outcomes| >= |features|
    ensures var t := TallyOf(features, outcomes, completed);
      completed <= t.completed
      && forall f :: f in t.completed && f !in completed ==>
           !CycleEnabled(f) && Handled(f)
           && exists i :: 0 <= i < |features| && features[i] == f && outcomes[i] == Succeeded
  {
    if features != [] {
      var n := |features| - 1;
      var init := features[..n];
      TallyCompleted(init, outcomes, completed);
      var before := TallyOf(init, outcomes, completed);
      forall f | f in TallyOf(features, outcomes, completed).completed && f !in completed
        ensures !CycleEnabled(f) && Handled(f)
                && exists i :: 0 <= i < |features| && features[i] == f && outcomes[i] == Succeeded
      {
        if f in before.completed {
          var i :| 0 <= i < |init| && init[i] == f && outcomes[i] == Succeeded;
          assert features[i] == f;
        } else {
          assert features[n] == f && outcomes[n] == Succeeded;
        }
      }
    }
  }

  /** The executor and the once-only features it has completed. */
  class Executor {
    var onceOnlyCompleted: set<Feature>

    constructor()
      ensures onceOnlyCompleted == {}
    {
      onceOnlyCompleted := {};
    }

    /** `processWallet`: run the wallet's features in order, `outcomes[i]`
        being what the i-th one did. */
    method ProcessWallet(flags: Flags, outcomes: seq<FeatureOutcome>) returns (w: WalletResults)
      modifies this
      requires |outcomes| >= |FeaturesToRun(flags, onceOnlyCompleted)|
      ensures var features := FeaturesToRun(flags, old(onceOnlyCompleted));
        var t := TallyOf(features, outcomes, old(onceOnlyCompleted));
        w == WalletResults(t.results, |features|, t.successful, t.failed)
        && onceOnlyCompleted == t.completed
    {
      var features := FeaturesToRun(flags, onceOnlyCompleted);
      ghost var start := onceOnlyCompleted;
      var results: seq<FeatureResult> := [];
      var successful, failed := 0, 0;
      for i := 0 to |features|
        invariant TallyOf(features[..i], outcomes, start) == Tally(results, successful, failed, onceOnlyCompleted)
      {
        assert features[..i + 1][..i] == features[..i];
        var f := features[i];
        if !Handled(f) {
          continue;
        }
        match outcomes[i] {
          case Succeeded =>
            results := results + [FeatureResult(f, true)];
            successful := successful + 1;
            if !CycleEnabled(f) {
              onceOnlyCompleted := onceOnlyCompleted + {f};
            }
          case Failed =>
            results := results + [FeatureResult(f, false)];
            failed := failed + 1;
          case Threw =>
            results := results + [FeatureResult(f, false)];
            failed := failed + 1;
        }
      }
      assert features[..|features|] == features;
      w := WalletResults(results, |features|, successful, failed);
    }
  }

  // ----- executeOriginalTransfer -----

  const TransferCount: nat := 10

  /** 0.000001 PHRS in wei, and the 0.001 PHRS gas allowance on top. */
  const TransferAmount: nat := 1_000_000_000_000
  const RequiredWithGas: nat := TransferAmount + 1_000_000_000_000_000

  /** One turn of the transfer loop: the balance query threw, or it returned
      a balance and, if sending went ahead, whether the send and the wait
      succeeded. */
  datatype TransferAttempt = BalanceThrew | Balance(amount: nat, sent: bool)

  predicate Insufficient(a: TransferAttempt) {
    a.Balance? && a.amount < RequiredWithGas
  }

  /** Where the loop stops: the first turn whose balance is too low, or the end. */
  function Stop(attempts: seq<TransferAttempt>): (k: nat)
    ensures k <= |attempts|
    ensures forall j :: 0 <= j < k ==> !Insufficient(attempts[j])
    ensures k < |attempts| ==> Insufficient(attempts[k])
  {
    if attempts == [] then 0
    else if Insufficient(attempts[0]) then 0
    else 1 + Stop(attempts[1..])
  }

  predicate SentOk(a: TransferAttempt) {
    a.Balance? && a.sent
  }

  /** The number of turns whose transfer went through. */
  function CountSent(attempts: seq<TransferAttempt>): (n: nat)
    ensures n <= |attempts|
  {
    if attempts == [] then 0
    else CountSent(attempts[..|attempts| - 1]) + (if SentOk(attempts[|attempts| - 1]) then 1 else 0)
  }

  lemma {:induction false} CountSentPositive(attempts: seq<TransferAttempt>)
    ensures CountSent(attempts) > 0 <==> exists j :: 0 <= j < |attempts| && SentOk(attempts[j])
  {
    if attempts != [] {
      var init := attempts[..|attempts| - 1];
      CountSentPositive(init);
      if exists j :: 0 <= j < |init| && SentOk(init[j]) {
        var j :| 0 <= j < |init| && SentOk(init[j]);
        assert attempts[j] == init[j];
      }
    }
  }

  /** `executeOriginalTransfer`: up to ten transfers; a failed balance query
      or send only skips its turn, a balance below the amount plus gas ends
      the loop. */
  method ExecuteOriginalTransfer(attempts: seq<TransferAttempt>) returns (success: bool, successCount: nat)
    requires |attempts| >= TransferCount
    ensures successCount == CountSent(attempts[..Stop(attempts[..TransferCount])])
    ensures success <==> successCount > 0
  {
    ghost var turns := attempts[..TransferCount];
    ghost var stop := Stop(turns);
    successCount := 0;
    var i := 0;
    while i < TransferCount
      invariant i <= stop
      invariant successCount == CountSent(attempts[..i])
      decreases TransferCount - i
    {
      assert attempts[i] == turns[i];
      match attempts[i] {
        case BalanceThrew =>
        case Balance(amount, sent) =>
          if amount < RequiredWithGas {
            break;
          }
          if sent {
            successCount := successCount + 1;
          }
      }
      assert attempts[..i + 1][..i] == attempts[..i];
      i := i + 1;
    }
    success := successCount > 0;
  }

  /** The transfers succeed exactly when some turn before the first short
      balance went through; at most ten turns count. */
  lemma TransferMeaning(attempts: seq<TransferAttempt>)
    requires |attempts| >= TransferCount
    ensures var stop := Stop(attempts[..TransferCount]);
      stop <= TransferCount
      && CountSent(attempts[..stop]) <= stop
      && (CountSent(attempts[..stop]) > 0 <==> exists j :: 0 <= j < stop && SentOk(attempts[j]))
      && forall j :: 0 <= j < stop ==> !Insufficient(attempts[j])
  {
    var stop := Stop(attempts[..TransferCount]);
    CountSentPositive(attempts[..stop]);
    assert forall j :: 0 <= j < stop ==> attempts[..stop][j] == attempts[j] == attempts[..TransferCount][j];
  }
}
