/** Fuel budgets of `torvyn-engine`: from the runtime configuration through engine validation and store
    creation to the per-invocation refuel. */
module Fuel {
  import opened Wrappers
  import opened ManagerSpec

  const U64_MAX: u64 := 0xFFFF_FFFF_FFFF_FFFF

  /** The fields of `WasmtimeEngineConfig` its validation and the fuel path read. */
  datatype EngineConfig = EngineConfig(fuelEnabled: bool, defaultFuel: u64, maxMemoryBytes: nat, stackSize: nat)

  datatype ConfigProblem = ZeroDefaultFuel | ZeroMemory | SmallStack

  const MIN_STACK: nat := 64 * 1024

  /** Pushes one problem for each invariant the configuration breaks. */
  method Validate(config: EngineConfig) returns (problems: seq<ConfigProblem>)
    ensures ZeroDefaultFuel in problems <==> config.fuelEnabled && config.defaultFuel == 0
    ensures ZeroMemory in problems <==> config.maxMemoryBytes == 0
    ensures SmallStack in problems <==> config.stackSize < 64 * 1024
    ensures problems == [] <==> Acceptable(config)
  {
    problems := [];
    if config.fuelEnabled && config.defaultFuel == 0 {
      problems := problems + [ZeroDefaultFuel];
    }
    if config.maxMemoryBytes == 0 {
      problems := problems + [ZeroMemory];
    }
    if config.stackSize < MIN_STACK {
      problems := problems + [SmallStack];
    }
  }

  predicate Acceptable(config: EngineConfig) {
    (config.fuelEnabled ==> config.defaultFuel > 0) && config.maxMemoryBytes > 0 && config.stackSize >= MIN_STACK
  }

  /** The runtime's zero means "do not meter"; the engine never sees a zero budget with metering on. */
  function ApplyRuntimeFuel(perInvocation: u64, engine: EngineConfig): EngineConfig {
    if perInvocation == 0 then engine.(fuelEnabled := false)
    else engine.(fuelEnabled := true, defaultFuel := perInvocation)
  }

  /** A component that asks for zero asks for unlimited fuel and gets the largest budget there is. */
  function FuelOr(asked: Option<u64>, engineDefault: u64): u64 {
    match asked
    case None => engineDefault
    case Some(budget) => if budget == 0 then U64_MAX else budget
  }

  function StoreBudget(config: EngineConfig, asked: Option<u64>): u64 {
    if config.fuelEnabled then FuelOr(asked, config.defaultFuel) else 0
  }

  /** In every store of an accepted engine a zero budget means exactly that the engine does not meter. */
  lemma BudgetIsZeroExactlyUnmetered(config: EngineConfig, asked: Option<u64>)
    requires Acceptable(config)
    ensures StoreBudget(config, asked) == 0 <==> !config.fuelEnabled
  {
  }

  /** The validation gate is needed for that: with it switched off, a metered engine can create a store
      that is never refuelled — exactly when its default is zero and the component asked for nothing. */
  lemma UnvalidatedEngineNeverRefuels(config: EngineConfig, asked: Option<u64>)
    requires config.fuelEnabled
    ensures StoreBudget(config, asked) == 0 <==> config.defaultFuel == 0 && asked.None?
  {
  }

  lemma RuntimeFuelIsAccepted(perInvocation: u64, engine: EngineConfig, asked: Option<u64>)
    requires Acceptable(engine)
    ensures var config := ApplyRuntimeFuel(perInvocation, engine);
            && Acceptable(config)
            && (StoreBudget(config, asked) == 0 <==> perInvocation == 0)
            && (asked.None? ==> StoreBudget(config, asked) == perInvocation)
  {
  }

  /** How a guest call that wants `cost` units of fuel ends. */
  datatype Ran = Finished | OutOfFuel

  /** A Wasmtime store: `metered` is the engine's `consume_fuel`, `fuelBudget` the host state's field. */
  class Store {
    const metered: bool
    const fuelBudget: u64
    var fuel: u64

    ghost predicate Valid() {
      fuelBudget == 0 <==> !metered
    }

    constructor (config: EngineConfig, asked: Option<u64>)
      requires Acceptable(config)
      ensures Valid() && metered == config.fuelEnabled && fuelBudget == StoreBudget(config, asked)
      ensures metered ==> fuel == fuelBudget
    {
      BudgetIsZeroExactlyUnmetered(config, asked);
      metered := config.fuelEnabled;
      fuelBudget := StoreBudget(config, asked);
      fuel := StoreBudget(config, asked);
    }

    /** `Store::set_fuel`: fails exactly on an engine that does not meter. */
    method SetFuel(fuel: u64) returns (ok: bool)
      modifies this`fuel
      ensures ok == metered
      ensures this.fuel == if metered then fuel else old(this.fuel)
    {
      if metered {
        this.fuel := fuel;
      }
      return metered;
    }

    /** Before every guest call the counter is set back to the budget. The call it makes cannot fail: `failed`
        is what the source's debug assertion rules out. */
    method Refuel() returns (failed: bool)
      requires Valid()
      modifies this`fuel
      ensures !failed
      ensures metered ==> fuel == fuelBudget
    {
      failed := false;
      if fuelBudget == 0 {
        return;
      }
      var refuelled := SetFuel(fuelBudget);
      failed := !refuelled;
    }

    /** One invocation: refuel, then the guest runs until it is done or the counter is used up. */
    method Invoke(cost: nat) returns (r: Ran)
      requires Valid()
      modifies this`fuel
      ensures r == Finished <==> !metered || cost <= fuelBudget
      ensures metered && r == Finished ==> fuel == fuelBudget - cost
    {
      var failed := Refuel();
      if !metered {
        return Finished;
      }
      if cost > fuel {
        fuel := 0;
        return OutOfFuel;
      }
      fuel := fuel - cost;
      return Finished;
    }

    /** A run of any length: each call stands or falls by its own cost, whatever the calls before it used. */
    method InvokeAll(costs: seq<nat>) returns (rs: seq<Ran>)
      requires Valid()
      modifies this`fuel
      ensures |rs| == |costs|
      ensures forall i :: 0 <= i < |costs| ==> (rs[i] == OutOfFuel <==> metered && costs[i] > fuelBudget)
    {
      rs := [];
      for i := 0 to |costs|
        invariant |rs| == i
        invariant forall j :: 0 <= j < i ==> (rs[j] == OutOfFuel <==> metered && costs[j] > fuelBudget)
      {
        var r := Invoke(costs[i]);
        rs := rs + [r];
      }
    }
  }

  /** A runtime's fuel setting from configuration to calls: the engine accepts it, and in every run a call is cut
      short exactly when metering is on and the call alone costs more than the component asked for or, if it did
      not ask, than was set. A component that asks for nothing at all gets the most there is. */
  method RunWithFuel(perInvocation: u64, engine: EngineConfig, asked: Option<u64>, costs: seq<nat>)
    returns (problems: seq<ConfigProblem>, rs: seq<Ran>)
    requires Acceptable(engine)
    ensures problems == [] && |rs| == |costs|
    ensures asked.None? ==> forall i :: 0 <= i < |costs| ==> (rs[i] == OutOfFuel <==> perInvocation != 0 && costs[i] > perInvocation)
    ensures asked.Some? && asked.value > 0 ==>
              forall i :: 0 <= i < |costs| ==> (rs[i] == OutOfFuel <==> perInvocation != 0 && costs[i] > asked.value)
    ensures asked == Some(0) ==>
              forall i :: 0 <= i < |costs| ==> (rs[i] == OutOfFuel <==> perInvocation != 0 && costs[i] > 0xFFFF_FFFF_FFFF_FFFF)
  {
    var config := ApplyRuntimeFuel(perInvocation, engine);
    RuntimeFuelIsAccepted(perInvocation, engine, asked);
    problems := Validate(config);
    var store := new Store(config, asked);
    rs := store.InvokeAll(costs);
  }
}
