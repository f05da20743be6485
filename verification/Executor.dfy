/** A process of the agent (packages/sdk-cpp/src/executor.cpp, `Executor`): its calls on the shared journal are steps of
    the protocol. The ghost field is the world the journal belongs to, as all processes and the chain have left it. */
module Executor {
  import opened Wrappers
  import opened Policy
  import opened Recovery
  import opened Journal
  import opened Protocol
  import opened SpendSafety

  const MAX_GAS: nat := 15000000

  /** What the chain said of the call before the lock: it would revert, its gas is unknown, or an estimate. */
  datatype Simulation = Reverts | NoEstimate | Estimate(gas: nat)

  /** The gas a plan asks for, a fifth above the estimate and within the service limit. */
  function GasOf(simulation: Simulation): (gas: Option<nat>)
    ensures gas.Some? ==> 0 < gas.value <= MAX_GAS
  {
    if simulation.Estimate? && 0 < simulation.gas * 120 / 100 <= MAX_GAS then Some(simulation.gas * 120 / 100) else None
  }

  /** Gas is found exactly for estimates from one to 12.5 million: six fifths of the estimate, rounded down. */
  lemma GasMeans(simulation: Simulation)
    ensures GasOf(simulation).Some? <==> simulation.Estimate? && 1 <= simulation.gas <= 12500000
    ensures GasOf(simulation).Some? ==>
              5 * GasOf(simulation).value <= 6 * simulation.gas < 5 * (GasOf(simulation).value + 1)
  {
  }

  /** What `plan` answers. */
  datatype Outcome =
    | NotBuilt
    | SimulationFailed
    | RejectedByPolicy(violations: seq<Violation>)
    | PlannedAs(entry: Entry)

  /** `reconcile_entry` sends the same bytes again and leaves the journal alone. */
  predicate Resends(copy: Entry, r: Reads, pid: nat, now: int) {
    !LeftAlone(copy, pid, now) && StepOf(copy, r).next == Rebroadcast
  }

  /** Whatever moves, the chain stays a chain. */
  lemma MovesKeepChain(cfg: Config, w: World, step: Step, w': World)
    requires ChainOk(cfg, w) && Moves(cfg, w, step, w')
    ensures ChainOk(cfg, w')
  {
    if !step.Block? {
      SameChain(cfg, w, w');
    }
  }

  lemma SameChain(cfg: Config, w: World, w': World)
    requires ChainOk(cfg, w) && w'.records == w.records && w'.points == w.points
    ensures ChainOk(cfg, w')
  {
  }

  class Executor {
    const cfg: Config
    const journal: FileJournal
    ghost var world: World

    ghost predicate Valid()
      reads this, journal
    {
      journal.entries == world.entries && ChainOk(cfg, world)
    }

    constructor (cfg: Config, ghost world: World)
      requires Init(cfg, world)
      ensures Valid() && this.cfg == cfg && this.world == world && fresh(journal)
    {
      this.cfg := cfg;
      this.journal := new FileJournal();
      this.world := world;
    }

    /** `plan`: build, simulate and estimate, then the locked body, with the identifier it draws. */
    method Plan(q: Quote, o: Order, simulation: Simulation, id: nat, owner: nat) returns (r: Outcome)
      requires Valid() && UnderConfig(cfg, q.limits) && FreshId(journal.entries, id)
      modifies this, journal
      ensures Valid()
      ensures r.NotBuilt? <==> !Builds(o, q.market)
      ensures r.SimulationFailed? <==> Builds(o, q.market) && GasOf(simulation).None?
      ensures r.RejectedByPolicy? ==>
                && GasOf(simulation).Some? && r.violations != []
                && forall v ::
                     v in r.violations <==> Refuses(q, old(journal.entries), o.(gas := GasOf(simulation).value), v)
      ensures !r.PlannedAs? ==> world == old(world)
      ensures r.PlannedAs? ==>
                && GasOf(simulation).Some? && r.entry in journal.entries
                && Next(cfg, old(world), Step.Plan(q, o.(gas := GasOf(simulation).value), id, owner), world)
    {
      if !Builds(o, q.market) {
        return NotBuilt;
      }
      var gas := GasOf(simulation);
      if gas.None? {
        return SimulationFailed;
      }
      var order := o.(gas := gas.value);
      var violations := journal.Plan(q, order, id, owner);
      if violations != [] {
        return RejectedByPolicy(violations);
      }
      var e := PlannedEntry(order, id, owner, q.now);
      assert forall v :: Refuses(q, world.entries, order, v) ==> v in violations;
      ghost var before := world;
      world := WithEntries(world, world.entries + [e]);
      SameChain(cfg, before, world);
      assert journal.entries[|before.entries|] == e;
      r := PlannedAs(e);
    }

    /** `sign`. */
    method Sign(id: nat, gate: Gate, pending: nat, now: int) returns (signed: Option<Entry>, ghost highest: Option<nat>)
      requires Valid()
      modifies this, journal
      ensures Valid()
      ensures Find(old(journal.entries), id).Some? ==>
              Next(cfg, old(world), Step.Sign(id, gate, highest, pending, now), world)
      ensures Find(old(journal.entries), id).None? ==> world == old(world)
      ensures signed.Some? ==> signed.value in world.seen && signed.value.raw.Some? && signed.value.status == Signed
    {
      ghost var before := world;
      signed, highest := journal.Sign(id, gate, pending, now);
      if Find(before.entries, id).Some? {
        world := WithEntries(world, journal.entries);
        SameChain(cfg, before, world);
      }
    }

    /** The unlocked part of `broadcast`: the bytes of a copy go to the network. */
    method SendRaw(copy: Entry)
      requires Valid() && copy in world.seen && copy.raw.Some?
      modifies this
      ensures Valid() && Next(cfg, old(world), Send(copy), world)
    {
      ghost var before := world;
      world := world.(sent := world.sent + {(copy.id, copy.raw.value)});
      SameChain(cfg, before, world);
    }

    /** The locked part of `broadcast`, once the bytes were accepted. Anything may have happened since they were
        sent. */
    method MarkBroadcast(id: nat)
      requires Valid()
      modifies this, journal
      ensures Valid()
      ensures Find(old(journal.entries), id).Some? ==> Next(cfg, old(world), Step.MarkBroadcast(id), world)
      ensures Find(old(journal.entries), id).None? ==> world == old(world)
    {
      ghost var before := world;
      journal.MarkBroadcast(id);
      if Find(before.entries, id).Some? {
        world := WithEntries(world, journal.entries);
        SameChain(cfg, before, world);
      }
    }

    /** `reconcile_entry`, on a copy taken earlier and on reads that the chain answered at moments since, torn or
        not. */
    method Reconcile(copy: Entry, r: Reads, ghost at: ReadAt, ghost mempool: bool, pid: nat, now: int)
      returns (ghost effect: Effect)
      requires Valid() && copy in world.seen && BytesOk(copy)
      requires Ordered(world, at) && r == ReadsOf(world, copy.raw, at, mempool, r.allowance)
      modifies this, journal
      ensures Valid()
      ensures Resends(copy, r, pid, now) ==> Next(cfg, old(world), Send(copy), world)
      ensures !Resends(copy, r, pid, now) && Find(old(journal.entries), copy.id).Some? ==>
                var step := Step.Reconcile(copy, at, mempool, r.allowance, effect, pid, now);
                && Moves(cfg, old(world), step, world)
                && (Believable(copy, r, old(EarlyCount(world, at))) ==> Next(cfg, old(world), step, world))
      ensures !Resends(copy, r, pid, now) && Find(old(journal.entries), copy.id).None? ==> world == old(world)
    {
      ghost var before := world;
      if Resends(copy, r, pid, now) {
        effect := Effect(Mismatch, None);
        SendRaw(copy);
        return;
      }
      effect := journal.Reconcile(copy, r, cfg.wallet, pid, now);
      if Find(before.entries, copy.id).Some? {
        world := WithEntries(world, journal.entries);
        SameChain(cfg, before, world);
      }
    }

    /** What other processes and the chain do between two calls. */
    method Meanwhile(entries: seq<Entry>, ghost step: Step, ghost after: World)
      requires Valid() && Moves(cfg, world, step, after) && entries == after.entries
      modifies this, journal
      ensures Valid() && world == after
    {
      MovesKeepChain(cfg, world, step, after);
      journal.entries := entries;
      world := after;
    }
  }
}
