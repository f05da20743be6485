/** Recovery steps and receipt effects (packages/sdk-cpp/src/policy.cpp, `recovery_step` and `verify_effect`). */
module Recovery {
  import opened Wrappers
  import opened Policy

  /** What the chain shows about an entry: its hash, a settled receipt status and the wallet's latest nonce. */
  datatype View = View(found: bool, receiptOk: Option<bool>, nonceLatest: nat)

  datatype Act = Keep | Release | Verify | Poll | Rebroadcast

  datatype Advice = Advice(status: Status, next: Act)

  function RecoveryStep(status: Status, nonce: Option<nat>, deadline: Option<int>, view: View, now: int): Advice {
    if !Unfinished(status) then Advice(status, Keep)
    else if status == Planned then Advice(Abandoned, Release)
    else if view.receiptOk == Some(true) then Advice(Broadcast, Verify)
    else if view.receiptOk == Some(false) then Advice(Reverted, Release)
    else if view.found then Advice(Broadcast, Poll)
    else if nonce.Some? && view.nonceLatest > nonce.value then Advice(Replaced, Release)
    else if deadline.Some? && now > deadline.value then Advice(Expired, Release)
    else Advice(status, Rebroadcast)
  }

  datatype PoolEvent =
    | Traded(who: nat, claim: Claim, isBuy: bool, quantity: int, amount: int)
    | Redeemed(who: nat, claim: Claim, quantity: int, amount: int)

  /** A receipt log: its contract and, when it decodes, the pool event. */
  datatype Log = Log(address: nat, event: Option<PoolEvent>)

  datatype Intent = Intent(action: Action, wallet: nat, pool: nat, claim: Option<Claim>, quantity: int, limit: int)

  datatype Effect = Effect(status: Status, collateral: Option<int>)

  /** One log shows exactly the intent. */
  predicate Shows(in_: Intent, log: Log) {
    && in_.claim.Some? && log.address == in_.pool && log.event.Some?
    && var e := log.event.value;
      && e.who == in_.wallet && e.claim == in_.claim.value && e.quantity == in_.quantity
      && (match e
          case Traded(_, _, isBuy, _, amount) =>
            (in_.action == Buy && isBuy && amount <= in_.limit) || (in_.action == Sell && !isBuy && amount >= in_.limit)
          case Redeemed(_, _, _, _) => in_.action == Redeem)
  }

  /** The one event that proves an intent, with the amount that moved. */
  function Proof(in_: Intent, amount: int): Option<PoolEvent> {
    if in_.claim.None? then None
    else
      match in_.action
      case Approve => None
      case Buy =>
        if amount > in_.limit then None else Some(Traded(in_.wallet, in_.claim.value, true, in_.quantity, amount))
      case Sell =>
        if amount < in_.limit then None else Some(Traded(in_.wallet, in_.claim.value, false, in_.quantity, amount))
      case Redeem => Some(Redeemed(in_.wallet, in_.claim.value, in_.quantity, amount))
  }

  /** A log shows an intent when it holds the event that proves it, at the pool's own address. */
  lemma ShowsMeans(in_: Intent, log: Log)
    ensures Shows(in_, log) <==>
              log.event.Some? && log == Log(in_.pool, Proof(in_, log.event.value.amount))
  {
  }

  /** A confirmed trade or redemption is backed by the first log that shows it; nothing else is confirmed. */
  ghost predicate EffectOf(in_: Intent, ok: bool, logs: seq<Log>, allowance: Option<int>, effect: Effect) {
    if !ok then effect == Effect(Mismatch, None)
    else if in_.action == Approve then
      var enough := allowance.Some? && allowance.value >= (if in_.limit > 0 then in_.limit else 0);
      effect == Effect(if enough then Confirmed else Mismatch, None)
    else if exists k :: 0 <= k < |logs| && Shows(in_, logs[k]) then
      exists k :: 0 <= k < |logs| && Shows(in_, logs[k]) && (forall j :: 0 <= j < k ==> !Shows(in_, logs[j]))
                  && effect == Effect(Confirmed, Some(logs[k].event.value.amount))
    else effect == Effect(Mismatch, None)
  }

  /** A trade or redemption is confirmed exactly when some log holds the event that proves it, with that amount. An
      approval is confirmed exactly when the allowance that was read covers the limit. */
  lemma EffectMeans(in_: Intent, ok: bool, logs: seq<Log>, allowance: Option<int>, effect: Effect)
    requires EffectOf(in_, ok, logs, allowance, effect)
    ensures effect.status == Confirmed || effect == Effect(Mismatch, None)
    ensures in_.action != Approve && effect.status == Confirmed ==>
              ok && effect.collateral.Some? && Proof(in_, effect.collateral.value).Some?
              && Log(in_.pool, Proof(in_, effect.collateral.value)) in logs
    ensures in_.action != Approve && effect.status == Mismatch ==>
              !ok || forall a: int :: Proof(in_, a).Some? ==> Log(in_.pool, Proof(in_, a)) !in logs
    ensures in_.action == Approve ==>
              effect.collateral == None
              && (effect.status == Confirmed <==>
                    ok && allowance.Some? && allowance.value >= in_.limit && allowance.value >= 0)
  {
    forall log ensures Shows(in_, log) <==>
                         log.event.Some? && log == Log(in_.pool, Proof(in_, log.event.value.amount)) {
      ShowsMeans(in_, log);
    }
    if in_.action != Approve && effect.status == Mismatch && ok {
      forall a: int | Proof(in_, a).Some? ensures Log(in_.pool, Proof(in_, a)) !in logs {
        ShowsMeans(in_, Log(in_.pool, Proof(in_, a)));
      }
    }
  }

  method VerifyEffect(in_: Intent, ok: bool, logs: seq<Log>, allowance: Option<int>) returns (effect: Effect)
    ensures EffectOf(in_, ok, logs, allowance, effect)
  {
    if !ok {
      return Effect(Mismatch, None);
    }
    if in_.action == Approve {
      var enough := allowance.Some? && allowance.value >= (if in_.limit > 0 then in_.limit else 0);
      return Effect(if enough then Confirmed else Mismatch, None);
    }
    if in_.claim.None? {
      return Effect(Mismatch, None);
    }
    for k := 0 to |logs|
      invariant forall j :: 0 <= j < k ==> !Shows(in_, logs[j])
    {
      var log := logs[k];
      if log.address != in_.pool || log.event.None? {
        continue;
      }
      var e := log.event.value;
      if e.claim != in_.claim.value || e.quantity != in_.quantity {
        continue;
      }
      if e.Traded? && e.who == in_.wallet {
        if in_.action == Buy && e.isBuy && e.amount <= in_.limit {
          return Effect(Confirmed, Some(e.amount));
        }
        if in_.action == Sell && !e.isBuy && e.amount >= in_.limit {
          return Effect(Confirmed, Some(e.amount));
        }
      }
      if e.Redeemed? && in_.action == Redeem && e.who == in_.wallet {
        return Effect(Confirmed, Some(e.amount));
      }
    }
    effect := Effect(Mismatch, None);
  }
}
