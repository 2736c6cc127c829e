/** Configuration updates: staged during an epoch, and applied to all their components or to none. */
module ConfigTransactions {
  import opened Ids

  datatype ConfigView = Unset | Values(content: int)

  type Configs = map<Id, ConfigView>

  datatype Transaction = Transaction(id: nat, version: nat, epoch: nat, applied: seq<Id>)

  datatype StageResult = Accepted(transaction: nat) | Rejected

  datatype ConfigError = MissingComponent(id: Id) | ValidationFailed(id: Id) | ApplyFailed(id: Id) | RollbackFailed(id: Id)

  function Lookup(configs: Configs, id: Id): ConfigView {
    if id in configs then configs[id] else Unset
  }

  /** A later configuration replaces an earlier one, component by component. */
  function Overlaid(configs: Configs, updates: Configs): (r: Configs) {
    configs + updates
  }

  lemma OverlaidLookup(configs: Configs, updates: Configs)
    ensures forall id :: Lookup(Overlaid(configs, updates), id) == if id in updates then updates[id] else Lookup(configs, id)
    ensures |updates| == 0 ==> Overlaid(configs, updates) == configs
  {
    if |updates| == 0 {
      assert updates.Keys == {};
    }
  }

  class ConfigSnapshotStore {
    var configs: Configs
    var pending: Configs
    var pendingTransaction: nat
    var nextTransaction: nat
    var version: nat
    var epoch: nat
    var committed: nat
    var rolledBack: nat
    var last: Transaction

    /** A transaction number is open exactly while updates are pending, and numbers are never reused. */
    ghost predicate Valid()
      reads this
    {
      && (pendingTransaction != 0 <==> |pending| != 0)
      && pendingTransaction < nextTransaction && last.id < nextTransaction
      && (pendingTransaction != 0 ==> pendingTransaction != last.id)
    }

    constructor ()
      ensures Valid() && configs == map[] && pending == map[] && version == 0 && epoch == 0 && committed == 0 && rolledBack == 0
    {
      configs, pending, pendingTransaction, nextTransaction := map[], map[], 0, 1;
      version, epoch, committed, rolledBack, last := 0, 0, 0, 0, Transaction(0, 0, 0, []);
    }

    function ConfigFor(id: Id): ConfigView
      reads this`configs
    {
      Lookup(configs, id)
    }

    /** Stages an update for the next epoch, or changes the stored configuration at once. All updates staged
        between two epochs belong to one transaction; the last update for a component counts. */
    method StageUpdate(id: Id, config: ConfigView, onBoundary: bool) returns (result: StageResult)
      requires Valid()
      modifies this
      ensures Valid() && epoch == old(epoch)
      ensures id == "" <==> result.Rejected?
      ensures id == "" ==> pending == old(pending) && configs == old(configs) && version == old(version)
      ensures id != "" && onBoundary ==> pending == old(pending)[id := config] && configs == old(configs) && version == old(version)
      ensures id != "" && onBoundary ==> result.transaction == pendingTransaction
      ensures onBoundary && |old(pending)| != 0 ==> pendingTransaction == old(pendingTransaction)
      ensures id != "" && !onBoundary ==> configs == old(configs)[id := config] && pending == old(pending) && version == old(version) + 1
      ensures id != "" && !onBoundary ==> last == Transaction(result.transaction, version, epoch, [id]) && result.transaction >= old(nextTransaction)
    {
      if id == "" {
        return Rejected;
      }
      if onBoundary {
        if pendingTransaction == 0 {
          pendingTransaction, nextTransaction := nextTransaction, nextTransaction + 1;
        }
        pending := pending[id := config];
        assert id in pending;
        return Accepted(pendingTransaction);
      }
      configs := configs[id := config];
      version := version + 1;
      last := Transaction(nextTransaction, version, epoch, [id]);
      nextTransaction := nextTransaction + 1;
      result := Accepted(last.id);
    }

    method RollbackPendingUpdates() returns (count: nat)
      requires Valid()
      modifies this
      ensures Valid() && count == |old(pending)| && pending == map[]
      ensures configs == old(configs) && version == old(version) && epoch == old(epoch) && last == old(last)
      ensures rolledBack == old(rolledBack) + count && committed == old(committed)
    {
      count := |pending|;
      pending, pendingTransaction := map[], 0;
      rolledBack := rolledBack + count;
    }

    /** Takes every pending update into the stored configuration, with one new version for all of them. */
    method CommitEpochBoundary() returns (count: nat)
      requires Valid()
      modifies this
      ensures Valid() && count == |old(pending)| && pending == map[]
      ensures configs == Overlaid(old(configs), old(pending)) && epoch == old(epoch) + 1
      ensures committed == old(committed) + count && rolledBack == old(rolledBack)
      ensures |old(pending)| == 0 ==> version == old(version) && last == old(last)
      ensures |old(pending)| != 0 ==> version == old(version) + 1 && CommittedAs(old(pending), old(pendingTransaction))
    {
      hide Elements, Distinct, InOrder, Overlaid;
      count := |pending|;
      var applied := OrderedKeys(pending.Keys);
      configs := Merge(configs, pending, applied);
      pending := map[];
      epoch := epoch + 1;
      committed := committed + count;
      if count != 0 {
        version := version + 1;
        last := Transaction(pendingTransaction, version, epoch, applied);
        pendingTransaction := 0;
      }
    }

    /** The last transaction is the one that was pending, for exactly its components. */
    ghost predicate CommittedAs(updates: Configs, transaction: nat)
      reads this
    {
      last.id == transaction && last.version == version && last.epoch == epoch && Distinct(last.applied) && Elements(last.applied) == updates.Keys
    }
  }

  method Merge(configs: Configs, updates: Configs, ids: seq<Id>) returns (merged: Configs)
    requires Elements(ids) == updates.Keys
    ensures merged == Overlaid(configs, updates)
  {
    merged := configs;
    assert ids[..0] == [];
    for i := 0 to |ids|
      invariant merged.Keys == configs.Keys + Elements(ids[..i])
      invariant forall id :: id in merged ==> merged[id] == if id in Elements(ids[..i]) then updates[id] else configs[id]
      invariant Elements(ids[..i]) <= updates.Keys
    {
      assert ids[..i + 1] == ids[..i] + [ids[i]] && ids[i] in Elements(ids);
      assert Elements(ids[..i + 1]) == Elements(ids[..i]) + {ids[i]};
      merged := merged[ids[i] := updates[ids[i]]];
    }
    assert ids[..|ids|] == ids;
  }

  /** A component of the graph. Whether it accepts a configuration is its own affair, and so is what a failed
      attempt leaves behind. */
  class LiveComponent {
    const validates: ConfigView -> bool
    const applies: (nat, ConfigView) -> bool
    const wreckage: nat -> ConfigView
    var live: ConfigView
    var attempts: nat

    constructor (validates: ConfigView -> bool, applies: (nat, ConfigView) -> bool, wreckage: nat -> ConfigView, live: ConfigView)
      ensures this.live == live && attempts == 0
      ensures this.validates == validates && this.applies == applies && this.wreckage == wreckage
    {
      this.validates, this.applies, this.wreckage := validates, applies, wreckage;
      this.live, attempts := live, 0;
    }

    method ApplyConfig(config: ConfigView) returns (ok: bool)
      modifies this
      ensures ok == applies(old(attempts), config) && attempts == old(attempts) + 1
      ensures live == if ok then config else wreckage(old(attempts))
    {
      ok := applies(attempts, config);
      live := if ok then config else wreckage(attempts);
      attempts := attempts + 1;
    }
  }

  type Components = map<Id, LiveComponent>

  ghost predicate NoneShared(components: Components) {
    forall a, b :: a in components && b in components && a != b ==> components[a] != components[b]
  }

  /** Every component runs with the configuration that is stored for it. */
  ghost predicate InStep(store: ConfigSnapshotStore, components: Components)
    reads store, components.Values
  {
    forall id :: id in components ==> components[id].live == store.ConfigFor(id)
  }

  /** Every update has a component that validates and applies it. */
  ghost predicate AllApply(updates: Configs, components: Components)
    reads components.Values
  {
    forall id :: id in updates ==>
      && id in components && components[id].validates(updates[id])
      && components[id].applies(components[id].attempts, updates[id])
  }

  lemma NothingToApply(components: Components)
    ensures AllApply(map[], components)
  {
  }

  lemma ApplyingValidates(updates: Configs, components: Components)
    ensures AllApply(updates, components) ==> forall id :: id in updates ==> Validates(components, id, updates[id])
  {
  }

  /** Gives a component its previous configuration back; a refusal is reported behind what was reported before. */
  method Restore(id: Id, component: LiveComponent, previous: ConfigView, errors: seq<ConfigError>) returns (errors': seq<ConfigError>)
    modifies component
    ensures component.attempts == old(component.attempts) + 1
    ensures component.live == if old(Takes(component, previous)) then previous else component.wreckage(old(component.attempts))
    ensures errors' == errors + if old(Takes(component, previous)) then [] else [RollbackFailed(id)]
  {
    errors' := errors;
    var ok := component.ApplyConfig(previous);
    if !ok {
      errors' := errors' + [RollbackFailed(id)];
    }
  }

  /** The component would take this configuration now. */
  ghost predicate Takes(component: LiveComponent, config: ConfigView)
    reads component
  {
    component.applies(component.attempts, config)
  }

  ghost function Refusal(id: Id, refusing: set<Id>): seq<ConfigError> {
    if id in refusing then [RollbackFailed(id)] else []
  }

  /** The refusals among these components, the last component's first. */
  ghost function RefusalsBackwards(ids: seq<Id>, refusing: set<Id>): seq<ConfigError> {
    if ids == [] then []
    else
      var last := ids[|ids| - 1];
      Refusal(last, refusing) + RefusalsBackwards(ids[..|ids| - 1], refusing)
  }

  lemma {:induction false} RefusalsIn(ids: seq<Id>, refusing: set<Id>)
    ensures forall id :: id in ids && id in refusing ==> RollbackFailed(id) in RefusalsBackwards(ids, refusing)
  {
    if ids != [] {
      RefusalsIn(ids[..|ids| - 1], refusing);
      assert ids == ids[..|ids| - 1] + [ids[|ids| - 1]];
    }
  }

  /** The components that would refuse to take their stored configuration now. */
  ghost function Refusing(ids: seq<Id>, store: ConfigSnapshotStore, components: Components): set<Id>
    requires forall id :: id in ids ==> id in components
    reads store, components.Values
  {
    set id | id in ids && !Takes(components[id], store.ConfigFor(id))
  }

  // ----- what a failed transaction leaves behind

  /** How often each component has been asked to apply a configuration. */
  ghost function AttemptsOf(components: Components): map<Id, nat>
    reads components.Values
  {
    map id | id in components :: components[id].attempts
  }

  /** A component that validates this update. */
  ghost predicate Validates(components: Components, id: Id, config: ConfigView) {
    id in components && components[id].validates(config)
  }

  /** The first update without a component that validates it is reported, and nothing else happens. */
  ghost predicate InvalidAt(ids: seq<Id>, n: nat, updates: Configs, components: Components, errors: seq<ConfigError>)
    requires n < |ids| && Elements(ids) == updates.Keys
  {
    && (forall i :: 0 <= i < n ==> ids[i] in Elements(ids) && Validates(components, ids[i], updates[ids[i]]))
    && (assert ids[n] in Elements(ids); !Validates(components, ids[n], updates[ids[n]]))
    && errors == [if ids[n] !in components then MissingComponent(ids[n]) else ValidationFailed(ids[n])]
  }

  /** The first n components apply their updates, and the next one, if there is one, does not. */
  ghost predicate StopsAt(ids: seq<Id>, n: nat, updates: Configs, attempts: map<Id, nat>, components: Components)
    requires n <= |ids| && Elements(ids) == updates.Keys
  {
    && (forall i :: 0 <= i < n ==> ids[i] in Elements(ids) && Applies(components, attempts, ids[i], updates[ids[i]], 0))
    && (n < |ids| ==> (assert ids[n] in Elements(ids); !Applies(components, attempts, ids[n], updates[ids[n]], 0)))
  }

  /** Whether a component takes a configuration after so many more attempts. */
  ghost predicate Applies(components: Components, attempts: map<Id, nat>, id: Id, config: ConfigView, more: nat) {
    id in components && id in attempts && components[id].applies(attempts[id] + more, config)
  }

  /** The components among these that, after their attempt at the update, refuse their stored configuration. */
  ghost function Stubborn(ids: seq<Id>, attempts: map<Id, nat>, configs: Configs, components: Components): set<Id> {
    set id | id in ids && !Applies(components, attempts, id, Lookup(configs, id), 1)
  }

  /** Every component runs with its stored configuration, except those of these that refused to take it back; exactly
      their refusals are reported, the last component's first, and then the failure. */
  ghost predicate GivenBack(ids: seq<Id>, n: nat, attempts: map<Id, nat>, configs: Configs, components: Components, errors: seq<ConfigError>)
    requires n < |ids|
    reads components.Values
  {
    var stubborn := Stubborn(ids[..n + 1], attempts, configs, components);
    && errors == RefusalsBackwards(ids[..n + 1], stubborn) + [ApplyFailed(ids[n])]
    && forall id :: id in components ==>
        && id in attempts && components[id].attempts == attempts[id] + (if id in ids[..n + 1] then 2 else 0)
        && components[id].live == if id in stubborn then components[id].wreckage(attempts[id] + 1) else Lookup(configs, id)
  }

  /** No component was asked to apply anything. */
  ghost predicate NoneAsked(attempts: map<Id, nat>, configs: Configs, components: Components)
    reads components.Values
  {
    forall id :: id in components ==>
      id in attempts && components[id].attempts == attempts[id] && components[id].live == Lookup(configs, id)
  }

  /** A transaction that failed: at the first invalid update, with nothing applied; or at the first update that its
      component did not apply, with the components before it and itself given back what they had. */
  ghost predicate Undone(updates: Configs, attempts: map<Id, nat>, configs: Configs, components: Components, errors: seq<ConfigError>)
    reads components.Values
  {
    exists ids: seq<Id>, n: nat :: UndoneAt(ids, n, updates, attempts, configs, components, errors)
  }

  ghost predicate UndoneAt(ids: seq<Id>, n: nat, updates: Configs, attempts: map<Id, nat>, configs: Configs, components: Components,
                           errors: seq<ConfigError>)
    reads components.Values
  {
    && n < |ids| && InOrder(ids) && Elements(ids) == updates.Keys
    && if forall id :: id in updates ==> Validates(components, id, updates[id]) then
         StopsAt(ids, n, updates, attempts, components) && GivenBack(ids, n, attempts, configs, components, errors)
       else
         InvalidAt(ids, n, updates, components, errors) && NoneAsked(attempts, configs, components)
  }

  lemma {:induction false} RefusalsOnly(ids: seq<Id>, refusing: set<Id>)
    ensures forall e :: e in RefusalsBackwards(ids, refusing) ==> e.RollbackFailed? && e.id in ids && e.id in refusing
  {
    if ids != [] {
      RefusalsOnly(ids[..|ids| - 1], refusing);
    }
  }

  /** A rollback failure is reported exactly for the components that were asked and refused what is stored for them;
      every other component runs with it. */
  lemma RollbackHonest(updates: Configs, attempts: map<Id, nat>, configs: Configs, components: Components, errors: seq<ConfigError>, id: Id)
    requires Undone(updates, attempts, configs, components, errors) && id in components && id in attempts
    ensures RollbackFailed(id) in errors ==> id in updates && !components[id].applies(attempts[id] + 1, Lookup(configs, id))
    ensures RollbackFailed(id) !in errors ==> components[id].live == Lookup(configs, id)
  {
    hide RefusalsBackwards, InOrder, Lookup;
    var ids: seq<Id>, n: nat :| UndoneAt(ids, n, updates, attempts, configs, components, errors);
    if forall x :: x in updates ==> Validates(components, x, updates[x]) {
      var stubborn := Stubborn(ids[..n + 1], attempts, configs, components);
      RefusalsOnly(ids[..n + 1], stubborn);
      RefusalsIn(ids[..n + 1], stubborn);
      assert id in ids[..n + 1] ==> id in Elements(ids);
    }
  }

  /** If no component of the transaction refuses what is stored for it, the rollback is complete. */
  lemma RollbackComplete(updates: Configs, attempts: map<Id, nat>, configs: Configs, components: Components, errors: seq<ConfigError>)
    requires Undone(updates, attempts, configs, components, errors) && attempts.Keys == components.Keys
    requires forall id :: id in updates && id in components ==> components[id].applies(attempts[id] + 1, Lookup(configs, id))
    ensures forall id :: id in components ==> components[id].live == Lookup(configs, id) && RollbackFailed(id) !in errors
  {
    hide Undone, Lookup;
    forall id | id in components ensures components[id].live == Lookup(configs, id) && RollbackFailed(id) !in errors {
      RollbackHonest(updates, attempts, configs, components, errors, id);
    }
  }

  /** Every pending update refers to a component that validates it; nothing has been applied yet. */
  method ValidateUpdates(ids: seq<Id>, updates: Configs, components: Components) returns (errors: seq<ConfigError>, ghost n: nat)
    requires Elements(ids) == updates.Keys
    ensures errors == [] <==> forall id :: id in updates ==> Validates(components, id, updates[id])
    ensures errors != [] ==> n < |ids| && InvalidAt(ids, n, updates, components, errors)
  {
    errors, n := [], 0;
    for i := 0 to |ids|
      invariant errors == [] && forall id :: id in ids[..i] ==> id in Elements(ids) && Validates(components, id, updates[id])
    {
      var id := ids[i];
      assert id in Elements(ids);
      assert ids[..i + 1] == ids[..i] + [id];
      if id !in components {
        return [MissingComponent(id)], i;
      }
      if !components[id].validates(updates[id]) {
        return [ValidationFailed(id)], i;
      }
    }
    assert ids[..|ids|] == ids;
    assert forall id :: id in updates ==> id in Elements(ids);
  }

  /** The config transaction at an epoch boundary. It succeeds exactly when every pending update has a component
      that validates and applies it. Then the store and the live components take all updates, under one new
      version. Otherwise the store keeps what it had, nothing stays pending, and every component runs with its
      stored configuration again, except exactly those that were asked to take it back and refused. */
  method ApplyConfigTransaction(store: ConfigSnapshotStore, components: Components) returns (ok: bool, errors: seq<ConfigError>)
    requires store.Valid() && NoneShared(components) && InStep(store, components)
    modifies store, components.Values
    ensures store.Valid() && store.pending == map[] && (ok <==> errors == [])
    ensures ok <==> old(AllApply(store.pending, components))
    ensures ok ==> store.configs == Overlaid(old(store.configs), old(store.pending)) && InStep(store, components)
    ensures ok ==> store.epoch == old(store.epoch) + 1
    ensures ok ==> store.version == old(store.version) + if |old(store.pending)| == 0 then 0 else 1
    ensures !ok ==> store.configs == old(store.configs) && store.version == old(store.version) && store.epoch == old(store.epoch)
    ensures !ok ==> Undone(old(store.pending), old(AttemptsOf(components)), store.configs, components, errors)
    ensures !ok && old(TakenBack(store, components)) ==> InStep(store, components) && forall id :: id in components ==> RollbackFailed(id) !in errors
  {
    hide AllApply, NoneShared, Overlaid, Lookup, Undone, Elements, Distinct;
    var updates := store.pending;
    NothingToApply(components);
    if |updates| == 0 {
      assert updates == map[];
      OverlaidLookup(store.configs, updates);
      var none := store.CommitEpochBoundary();
      return true, [];
    }
    ok, errors := ApplyOrUndo(updates, store, components);
    if ok {
      ghost var configs := store.configs;
      var committed := store.CommitEpochBoundary();
      OverlaidLookup(configs, updates);
    } else {
      var dropped := store.RollbackPendingUpdates();
    }
  }

  /** Validates all updates and then applies them; or leaves the components as they were, but for those that refuse. */
  method ApplyOrUndo(updates: Configs, store: ConfigSnapshotStore, components: Components) returns (ok: bool, errors: seq<ConfigError>)
    requires NoneShared(components) && InStep(store, components) && updates == store.pending
    modifies components.Values
    ensures (ok <==> errors == []) && (ok <==> old(AllApply(updates, components)))
    ensures ok ==> RunsWith(components, updates.Keys, updates, store.configs)
    ensures !ok ==> Undone(updates, old(AttemptsOf(components)), store.configs, components, errors)
    ensures !ok && old(TakenBack(store, components)) ==> InStep(store, components) && forall id :: id in components ==> RollbackFailed(id) !in errors
  {
    hide AllApply, NoneShared, Distinct, InOrder, Lookup, UndoneAt, Validates, InvalidAt;
    ghost var attempts, taken := AttemptsOf(components), TakenBack(store, components);
    var ids := OrderedKeys(updates.Keys);
    ghost var n;
    errors, n := ValidateUpdates(ids, updates, components);
    ApplyingValidates(updates, components);
    if errors != [] {
      NothingDone(ids, n, updates, store, components, errors);
      return false, errors;
    }
    ok, errors, n := ApplyUpdates(ids, updates, store, components);
    if !ok {
      assert Undone(updates, attempts, store.configs, components, errors);
      if taken {
        RollbackComplete(updates, attempts, store.configs, components, errors);
      }
    }
  }

  lemma NothingDone(ids: seq<Id>, n: nat, updates: Configs, store: ConfigSnapshotStore, components: Components, errors: seq<ConfigError>)
    requires n < |ids| && InOrder(ids) && Elements(ids) == updates.Keys && InStep(store, components)
    requires InvalidAt(ids, n, updates, components, errors)
    ensures UndoneAt(ids, n, updates, AttemptsOf(components), store.configs, components, errors)
  {
    hide Lookup, Validates, InOrder;
    assert ids[n] in Elements(ids);
  }

  /** Every component of the transaction would take its stored configuration back after one more attempt. */
  ghost predicate TakenBack(store: ConfigSnapshotStore, components: Components)
    reads store, components.Values
  {
    forall id :: id in store.pending && id in components ==> components[id].applies(components[id].attempts + 1, store.ConfigFor(id))
  }

  /** No component ever refuses the configuration that is stored for it. */
  ghost predicate KeepsStored(configs: Configs, components: Components) {
    forall id, n: nat :: id in components ==> components[id].applies(n, Lookup(configs, id))
  }

  /** Which configuration each component runs with: the new one if its update was applied. */
  ghost predicate RunsWith(components: Components, applied: set<Id>, updates: Configs, configs: Configs)
    requires applied <= updates.Keys
    reads components.Values
  {
    forall id :: id in components ==> components[id].live == if id in applied then updates[id] else Lookup(configs, id)
  }

  /** The first m components have been asked once more, and the first n of them run with their updates; those not
      asked run with what is stored for them. */
  ghost predicate Asked(ids: seq<Id>, n: nat, m: nat, updates: Configs, attempts: map<Id, nat>, configs: Configs, components: Components)
    requires n <= m <= |ids|
    reads components.Values
  {
    && attempts.Keys == components.Keys
    && forall id :: id in components ==>
        && components[id].attempts == attempts[id] + (if id in ids[..m] then 1 else 0)
        && (id in ids[..n] ==> id in updates && components[id].live == updates[id])
        && (id !in ids[..m] ==> components[id].live == Lookup(configs, id))
  }

  /** Asks the next component to apply its update. */
  method AskNext(ids: seq<Id>, n: nat, updates: Configs, ghost attempts: map<Id, nat>, ghost configs: Configs, components: Components)
    returns (ok: bool)
    requires NoneShared(components) && Distinct(ids) && n < |ids| && ids[n] in updates && ids[n] in components
    requires Asked(ids, n, n, updates, attempts, configs, components)
    modifies components.Values
    ensures ok <==> Applies(components, attempts, ids[n], updates[ids[n]], 0)
    ensures Asked(ids, if ok then n + 1 else n, n + 1, updates, attempts, configs, components)
  {
    hide NoneShared, Lookup;
    OnlyOne(components, ids[n]);
    assert ids[..n + 1] == ids[..n] + [ids[n]] && ids[n] !in ids[..n];
    ok := components[ids[n]].ApplyConfig(updates[ids[n]]);
  }

  /** Applies updates one by one and stops at the first failure. */
  method ApplyForward(ids: seq<Id>, updates: Configs, ghost configs: Configs, components: Components) returns (n: nat)
    requires NoneShared(components) && RunsWith(components, {}, updates, configs) && Distinct(ids) && Elements(ids) == updates.Keys
    requires forall id :: id in updates ==> Validates(components, id, updates[id])
    modifies components.Values
    ensures n <= |ids| && (n == |ids| <==> old(AllApply(updates, components)))
    ensures StopsAt(ids, n, updates, old(AttemptsOf(components)), components)
    ensures Asked(ids, n, if n < |ids| then n + 1 else n, updates, old(AttemptsOf(components)), configs, components)
  {
    hide NoneShared, Distinct, AllApply, StopsAt, Asked, Applies;
    n := 0;
    ghost var attempts, all := AttemptsOf(components), AllApply(updates, components);
    ApplyingMeans(updates, components);
    NothingAsked(ids, updates, configs, components);
    while n < |ids|
      invariant n <= |ids| && Asked(ids, n, n, updates, attempts, configs, components)
      invariant forall i :: 0 <= i < n ==> ids[i] in updates && Applies(components, attempts, ids[i], updates[ids[i]], 0)
    {
      assert ids[n] in Elements(ids);
      var ok := AskNext(ids, n, updates, attempts, configs, components);
      if !ok {
        break;
      }
      n := n + 1;
    }
    StopsHere(ids, n, updates, attempts, components);
    StopsExactly(ids, n, updates, attempts, components);
  }

  lemma NothingAsked(ids: seq<Id>, updates: Configs, configs: Configs, components: Components)
    requires RunsWith(components, {}, updates, configs)
    ensures Asked(ids, 0, 0, updates, AttemptsOf(components), configs, components)
  {
  }

  lemma StopsHere(ids: seq<Id>, n: nat, updates: Configs, attempts: map<Id, nat>, components: Components)
    requires n <= |ids| && Elements(ids) == updates.Keys
    requires forall i :: 0 <= i < n ==> ids[i] in updates && Applies(components, attempts, ids[i], updates[ids[i]], 0)
    requires n < |ids| ==> ids[n] in updates && !Applies(components, attempts, ids[n], updates[ids[n]], 0)
    ensures StopsAt(ids, n, updates, attempts, components)
  {
  }

  /** Every component of these updates takes its update at its next attempt. */
  ghost predicate AllTake(updates: Configs, attempts: map<Id, nat>, components: Components) {
    forall id :: id in updates ==> Applies(components, attempts, id, updates[id], 0)
  }

  lemma ApplyingMeans(updates: Configs, components: Components)
    requires forall id :: id in updates ==> Validates(components, id, updates[id])
    ensures AllApply(updates, components) <==> AllTake(updates, AttemptsOf(components), components)
  {
    if AllTake(updates, AttemptsOf(components), components) {
      forall id | id in updates ensures components[id].applies(components[id].attempts, updates[id]) {
        assert Applies(components, AttemptsOf(components), id, updates[id], 0);
      }
    }
  }

  /** All updates can be applied exactly when applying them one by one does not stop. */
  lemma StopsExactly(ids: seq<Id>, n: nat, updates: Configs, attempts: map<Id, nat>, components: Components)
    requires n <= |ids| && Elements(ids) == updates.Keys && StopsAt(ids, n, updates, attempts, components)
    ensures n == |ids| <==> AllTake(updates, attempts, components)
  {
    hide Applies;
    if n == |ids| {
      forall id | id in updates ensures Applies(components, attempts, id, updates[id], 0) {
        assert id in Elements(ids);
        var i :| 0 <= i < |ids| && ids[i] == id;
      }
    }
  }

  lemma OnlyOne(components: Components, id: Id)
    requires NoneShared(components) && id in components
    ensures forall x :: x in components && x != id ==> components[x] != components[id]
  {
  }

  /** Applies updates one by one; when one fails, the failed component and then those before it, in reverse
      order, are given their previous configurations back. */
  method ApplyUpdates(ids: seq<Id>, updates: Configs, store: ConfigSnapshotStore, components: Components)
    returns (ok: bool, errors: seq<ConfigError>, ghost n: nat)
    requires NoneShared(components) && InStep(store, components) && InOrder(ids) && Distinct(ids) && Elements(ids) == updates.Keys
    requires forall id :: id in updates ==> Validates(components, id, updates[id])
    modifies components.Values
    ensures ok <==> old(AllApply(updates, components))
    ensures ok ==> errors == [] && RunsWith(components, updates.Keys, updates, store.configs)
    ensures !ok ==> errors != [] && UndoneAt(ids, n, updates, old(AttemptsOf(components)), store.configs, components, errors)
  {
    hide AllApply, NoneShared, Distinct, StopsAt, Asked, Lookup, UndoneAt, InOrder, Validates;
    errors := [];
    ghost var attempts := AttemptsOf(components);
    var stop := ApplyForward(ids, updates, store.configs, components);
    n := stop;
    ok := stop == |ids|;
    if ok {
      AllAsked(ids, updates, attempts, store.configs, components);
    } else {
      errors := UndoUpdates(ids, stop, updates, attempts, store, components);
    }
  }

  /** The update behind the first n was not applied: those before it are taken back, and so is what it left. */
  method UndoUpdates(ids: seq<Id>, n: nat, updates: Configs, ghost attempts: map<Id, nat>, store: ConfigSnapshotStore, components: Components)
    returns (errors: seq<ConfigError>)
    requires NoneShared(components) && InOrder(ids) && Distinct(ids) && Elements(ids) == updates.Keys && n < |ids|
    requires forall id :: id in updates ==> Validates(components, id, updates[id])
    requires StopsAt(ids, n, updates, attempts, components) && Asked(ids, n, n + 1, updates, attempts, store.configs, components)
    modifies components.Values
    ensures errors != [] && UndoneAt(ids, n, updates, attempts, store.configs, components, errors)
  {
    hide NoneShared, Distinct, RefusalsBackwards, StopsAt, Asked, Refusing, Stubborn, Lookup, UndoneAt, InOrder;
    forall id | id in ids[..n + 1] ensures id in components {
      assert id in Elements(ids);
    }
    PrefixDistinct(ids, n + 1);
    RefusingNow(ids, n, updates, attempts, store, components);
    errors := RollBack(ids[..n + 1], store, components);
    errors := errors + [ApplyFailed(ids[n])];
    BackGiven(ids, n, updates, attempts, store.configs, components, errors);
  }

  lemma AllAsked(ids: seq<Id>, updates: Configs, attempts: map<Id, nat>, configs: Configs, components: Components)
    requires Elements(ids) == updates.Keys && Asked(ids, |ids|, |ids|, updates, attempts, configs, components)
    ensures RunsWith(components, updates.Keys, updates, configs)
  {
    hide Lookup;
    assert ids[..|ids|] == ids;
    forall id | id in components ensures id in ids <==> id in updates {
      assert id in Elements(ids) <==> id in ids;
    }
  }

  /** Those that would refuse now are those that refuse after the attempt they had. */
  lemma RefusingNow(ids: seq<Id>, n: nat, updates: Configs, attempts: map<Id, nat>, store: ConfigSnapshotStore, components: Components)
    requires n < |ids| && Asked(ids, n, n + 1, updates, attempts, store.configs, components)
    requires forall id :: id in ids[..n + 1] ==> id in components
    ensures Refusing(ids[..n + 1], store, components) == Stubborn(ids[..n + 1], attempts, store.configs, components)
    ensures var refusing := Refusing(ids[..n + 1], store, components); forall id :: id in refusing ==> id in ids[..n + 1]
    ensures forall id :: id in components ==> id in attempts && components[id].attempts == attempts[id] + if id in ids[..n + 1] then 1 else 0
    ensures forall id :: id in components && id !in ids[..n + 1] ==> components[id].live == Lookup(store.configs, id)
  {
    hide Lookup;
  }

  lemma BackGiven(ids: seq<Id>, n: nat, updates: Configs, attempts: map<Id, nat>, configs: Configs, components: Components, errors: seq<ConfigError>)
    requires n < |ids| && InOrder(ids) && Elements(ids) == updates.Keys && StopsAt(ids, n, updates, attempts, components)
    requires forall id :: id in updates ==> Validates(components, id, updates[id])
    requires GivenBack(ids, n, attempts, configs, components, errors)
    ensures UndoneAt(ids, n, updates, attempts, configs, components, errors)
  {
    hide GivenBack, StopsAt, InOrder, Validates, InvalidAt;
  }

  /** Gives the components back what they had, first the failed one and then those before it. */
  method RollBack(ids: seq<Id>, store: ConfigSnapshotStore, components: Components) returns (errors: seq<ConfigError>)
    requires NoneShared(components) && Distinct(ids) && ids != [] && forall id :: id in ids ==> id in components
    modifies components.Values
    ensures errors == RefusalsBackwards(ids, old(Refusing(ids, store, components)))
    ensures forall id :: id in components && id !in ids ==> components[id].live == old(components[id].live)
    ensures forall id :: id in ids ==>
      components[id].live ==
      if id in old(Refusing(ids, store, components)) then components[id].wreckage(old(components[id].attempts)) else store.ConfigFor(id)
    ensures forall id :: id in components ==> components[id].attempts == old(components[id].attempts) + if id in ids then 1 else 0
  {
    hide RefusalsBackwards, NoneShared;
    var n := |ids| - 1;
    ghost var stubborn := Refusing(ids, store, components);
    assert ids[n] in ids;
    OnlyOne(components, ids[n]);
    errors := Restore(ids[n], components[ids[n]], store.ConfigFor(ids[n]), []);
    PrefixDistinct(ids, n);
    assert ids[n] !in ids[..n];
    RefusalsLast(ids, n, stubborn);
    assert ids[..n + 1] == ids;
    RefusalsSame(ids[..n], stubborn, Refusing(ids[..n], store, components));
    errors := RestoreBackwards(ids[..n], store, components, errors);
  }

  lemma {:induction false} RefusalsSame(ids: seq<Id>, a: set<Id>, b: set<Id>)
    requires forall id :: id in ids ==> (id in a <==> id in b)
    ensures RefusalsBackwards(ids, a) == RefusalsBackwards(ids, b)
  {
    if ids != [] {
      RefusalsSame(ids[..|ids| - 1], a, b);
    }
  }

  lemma PrefixDistinct(ids: seq<Id>, n: nat)
    requires Distinct(ids) && n <= |ids|
    ensures Distinct(ids[..n])
  {
  }

  /** Gives components their stored configuration back, the last one first. The refusals are reported in that
      order. */
  method RestoreBackwards(applied: seq<Id>, store: ConfigSnapshotStore, components: Components, before: seq<ConfigError>)
    returns (errors: seq<ConfigError>)
    requires NoneShared(components) && Distinct(applied) && forall id :: id in applied ==> id in components
    modifies components.Values
    ensures errors == before + RefusalsBackwards(applied, old(Refusing(applied, store, components)))
    ensures forall id :: id in components && id !in applied ==> components[id].live == old(components[id].live)
    ensures forall id :: id in applied ==>
      components[id].live ==
      if id in old(Refusing(applied, store, components)) then components[id].wreckage(old(components[id].attempts)) else store.ConfigFor(id)
    ensures forall id :: id in components ==> components[id].attempts == old(components[id].attempts) + if id in applied then 1 else 0
  {
    hide RefusalsBackwards, NoneShared;
    errors := before;
    var k := |applied|;
    ghost var refusing := Refusing(applied, store, components);
    assert applied[..k] == applied;
    while k > 0
      invariant k <= |applied| && errors + RefusalsBackwards(applied[..k], refusing) == before + RefusalsBackwards(applied, refusing)
      invariant forall id :: id in components && id !in applied[k..] ==>
        components[id].live == old(components[id].live) && components[id].attempts == old(components[id].attempts)
      invariant forall id :: id in applied[k..] ==> components[id].attempts == old(components[id].attempts) + 1
      invariant forall id :: id in applied[k..] ==>
        components[id].live == if id in refusing then components[id].wreckage(old(components[id].attempts)) else store.ConfigFor(id)
    {
      k := k - 1;
      var id := applied[k];
      RefusalsLast(applied, k, refusing);
      OnlyOne(components, id);
      assert id !in applied[k + 1..];
      assert applied[k..] == [id] + applied[k + 1..];
      errors := Restore(id, components[id], store.ConfigFor(id), errors);
    }
    assert applied[k..] == applied;
    RefusalsNone(applied[..k], refusing);
  }

  lemma RefusalsLast(ids: seq<Id>, k: nat, refusing: set<Id>)
    requires k < |ids|
    ensures RefusalsBackwards(ids[..k + 1], refusing) == Refusal(ids[k], refusing) + RefusalsBackwards(ids[..k], refusing)
  {
    assert ids[..k + 1][..k] == ids[..k];
  }

  lemma RefusalsNone(ids: seq<Id>, refusing: set<Id>)
    requires ids == []
    ensures RefusalsBackwards(ids, refusing) == []
  {
  }
}
