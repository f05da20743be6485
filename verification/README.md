# Flurbo verification

A Dafny model of the parts of Flurbo whose correctness is hardest to see from one function, with proofs
about whole runs and all inputs. `dafny verify dfyconfig.toml` checks the project.

## What is modelled

**The bounded-width market maker** (`crates/flurbo-core/src/factored.rs`, measured against the enumerated form in
`pricing.rs`). Bucket elimination over local tables stands in for a sum or a maximum over all 2^n joint states.
`Scopes`, `Width`, `Semiring` and `Elimination` prove that it computes exactly that aggregate, for any number of
events, any evidence and any elimination order, and that the width check replays the engine. `Factored` and `Trading`
prove that construction, cost, probability and trading on tables are those of the dense market (`Lmsr`), and `EngineRuns`, on
the moves of `TradeRuns`, what holds of every run of trades: path independence, round trips that net nothing, strict price bounds.

**The funded market** (`funded_repricing.rs`, with the learned model of `parlay_learning.rs`). `Distributions`, `Ising`,
`Funded` and `FundedRuns` prove that the stable reserve formula is the cost function, that a repricing makes prices
equal to the learned distribution and needs exactly the worst state's reserve, and that in every run of trades and
repricings subsidy, payments and funding cover every outcome.

**The learning-proposal builder** (`scripts/build_learning_proposal.py`). `FactorTables`, `Quantisation`, `Candidate`,
`Proposal`, `Builder` and `Acceptance` prove its soundness comments: liabilities cancel inside the candidate bias, the
rounding error bounds the total variation through exp(E) - 1 <= E/(1-E), the summed table spans bound every pair of
states, and an accepted bias is canonical for the next update. `ProposalTerms` says what a proposal holds table by table, and
exactly what is accepted.

**The agent's live execution protocol** (`packages/sdk-cpp/src/executor.cpp` with `policy.cpp`). `Policy` and `Recovery`
model the rules, `Journal` the bodies that run under the journal lock as methods of a journal object, and `Protocol` the
world they run in: any number of processes that may stop between any two steps, copies of entries they still hold, and an
append-only chain with nonces, block times, deadlines and cost limits enforced by the contract. `SpendSafety` proves one
invariant for every step, `ExecutionRuns` what follows for every run: spend safety, spend windows, signing discipline, and
`NonceRuns` when the nonces of a run have no gap. `FreshReads` says what recovery decides on fresh reads, exactly. `Executor`
shows that the calls of a process are steps of the protocol, `TornReads` what its one hypothesis on the chain reads is for.
`LossRuns` and `PositionRuns` follow the loss and position limits, which the policy checks only when it plans, over runs: what
keeps them, and (with `LossBreach`, from the run of `OneBuy`) runs of the code in which they do not hold.

**Codecs and bookkeeping**: the JSON printer and parser that persist the journal (`Json`, `JsonParse`, `JsonLexemes`,
`JsonLayout`, `JsonRoundTrip`, `JsonParser`, `JsonAccepted`), with the texts that they read and write set against independent
descriptions (`JsonGrammar`: exactly the texts of RFC 8259 are accepted, `JsonUnicode`: escapes and UTF-8, `JsonNumbers`:
numbers, `JsonShortest`: the printer's text is the shortest), RLP serialisation of transactions and the strict decoder that it
inverts (`Rlp`, `BigEndian`), 256-bit decimal conversion (`Words`, `Decimals`), the civil calendar (`Civil`), the integer
ledger with owners (`Ledger`) and average-cost realised profit (`Performance`, `SetSums`).

## How to read the model

- A bit mask is the set of its bit positions: scopes, joint states and claim masks are sets of numbers. A local index
  stays a number, and the bit loops that compute it are kept.
- 64-bit floating point is exact real arithmetic. `exp` and `ln` are a parameter `m` with three laws (`Exponential.Lawful`):
  exp(x+y) = exp(x) exp(y), exp(x) >= 1+x, exp(ln x) = x for positive x. Every result holds for all such pairs, so for
  the natural ones. In the engine's logarithmic mode a table entry ln(w) is represented by its weight w, `log_add` by
  addition and -inf by weight zero.
- 128-bit integers of the C++ code are unbounded; the unsigned 128-bit limits of the ledger and the 2^128 and 2^256 limits
  of bias entries and words are written out.
- Signed bytes are the transaction they encode: signing is taken as injective, which `Rlp.UnsignedDetermines` proves for
  the payload that is signed.
- A body that runs under the journal lock is one atomic step. A crash is a step that never comes.
- The successive reads of one reconciliation (executor.cpp lines 235 to 244) may be torn: blocks may be mined between them.
  The runs of `ExecutionRuns` rest on one hypothesis about them (`Protocol.Believable`): when an entry is released as replaced,
  the wallet's nonce was past it by the time of the hash lookup, or the head was past the deadline. It is weaker than one
  consistent snapshot (`SpendSafety.ConsistentIsBelievable`), and it is exact: `TornReads.ReleaseIsSoundIff` proves that a release
  is sound on what was read if and only if it holds. The code does not ensure it, because it takes the nonce after the hash;
  `TornReads.CodeReleaseIsSoundIff` says when its own reads suffice, `TornReads.OpenEntryIsExposed` which entries are exposed,
  and `TornReads.TornRunsPassEveryCap` gives runs that spend any multiple of the cap. Taking the nonce before the hash lookup
  would establish the hypothesis. Expiry, reversion and abandonment need none.
- `plan` checks the loss and position limits once. Later steps can break them, and the code lets them: a revert of an unfinished buy
  that covered another raises the loss (`LossBreach.RevertBreaksLossLimit`), and holdings read before a confirmation hide a buy
  (`PositionRuns.StaleReadBreaksLimit`). `LossRuns.QuietRunBoundsLoss` and `PositionRuns.CarefulRunKeepsPosition` are what does hold.
- A JSON text is a sequence of characters, one per byte. Reading a text as a double is a parameter of the parser.
- Methods with loops, objects and arrays follow the code that works by changing things step by step; each is tied to a
  function, and the properties are lemmas about those functions.

## Model

| member | source | states |
|---|---|---|
| Scopes.ProjectLoop | crates/flurbo-core/src/factored.rs:303-315 | the bit-packing loop gives the recursively defined local index of a joint state |
| Scopes.ExpandLoop | crates/flurbo-core/src/factored.rs:289-301 | the bit-unpacking loop gives the events that a local index switches on |
| Scopes.ProjectExpand | crates/flurbo-core/src/factored.rs:289-315 | packing an unpacked index gives the index back |
| Scopes.ExpandProject | crates/flurbo-core/src/factored.rs:289-315 | unpacking a packed state gives the state restricted to the scope |
| Scopes.StatesAreNumbered | crates/flurbo-core/src/pricing.rs:32-60 | the enumeration lists every one of the 2^n joint states exactly once, in numeric order |
| Scopes.ProjectBits | crates/flurbo-core/src/factored.rs:303-315 | the local index of a state is the one number below 2^|scope| whose bit at each event's place in the scope is the event's bit in the state |
| Scopes.NumberBits | crates/flurbo-core/src/pricing.rs:32-60 | the bits of a joint state's number are its events |
| Width.InducedWidth | crates/flurbo-core/src/factored.rs:271-287 | the loop computes the width check of a scope list and an order |
| Width.WidthMeaning | crates/flurbo-core/src/factored.rs:271-287 | it accepts exactly the scope lists of which no step joins more than three events, and returns the largest joined scope less one |
| Elimination.WidthReplaysEngine | crates/flurbo-core/src/factored.rs:224-256 | at every step the width check's scope list is the list of the engine's table scopes |
| Factored.PeakTableEntries | crates/flurbo-core/src/factored.rs:97-100 | 1 << (width + 1) is exactly the size of the largest table that the engine joins, in either reading and under any evidence, and at most eight |
| Semiring.AggregateExchange | crates/flurbo-core/src/factored.rs:317-325 | nested aggregations may be exchanged, for max and for the weight form of log_add with its -inf branches |
| Semiring.Distributive | crates/flurbo-core/src/factored.rs:317-325 | combining distributes over aggregating, in both readings |
| Elimination.BucketValue | crates/flurbo-core/src/factored.rs:240-243 | the inner sum is the bucket's combined value in the assignment |
| Elimination.SumOut | crates/flurbo-core/src/factored.rs:228-254 | the loop over the joined table's entries produces the table with one event summed out, evidence respected |
| Elimination.StepTerm | crates/flurbo-core/src/factored.rs:224-256 | replacing a bucket by its summed-out table leaves the aggregate over the event unchanged in every state of the others |
| Elimination.StepKeepsTotal | crates/flurbo-core/src/factored.rs:224-256 | one step of the engine keeps the aggregate over all remaining events |
| Elimination.OverIsEnumerated | crates/flurbo-core/src/factored.rs:215-259 | the per-event aggregate equals the aggregate over the list of all 2^n joint states |
| Elimination.RunTotal | crates/flurbo-core/src/factored.rs:215-259 | after a whole order every remaining scope is empty and the remaining values combine to the aggregate of the start |
| Elimination.Eliminate | crates/flurbo-core/src/factored.rs:215-259 | for any valid tables, evidence and permutation order, in both readings: the result is the aggregate over all joint states that agree with the evidence of the combined factor values |
| Factored.New | crates/flurbo-core/src/factored.rs:45-91 | accepts exactly the acceptable models, and otherwise reports the first check that fails, factor by factor |
| Factored.AcceptableMeans | crates/flurbo-core/src/factored.rs:45-91 | accepted is exactly: 1 to 32 events, liquidity between a millionth and a billion, at most 64 factors on up to three increasing events with a nonnegative entry per joint state, an order that lists every event once, no choice of entries over 100 b, no step joining more than three events |
| Factored.RefusalIsFirst | crates/flurbo-core/src/factored.rs:45-91 | the constructor's fault is the first check that fails: events, liquidity, factor count, order, factors one by one, domain, width |
| Factored.DomainMeans | crates/flurbo-core/src/factored.rs:74-82 | the numeric domain check passes exactly when every choice of one entry, or nothing, per factor adds up to at most 100 b |
| Factored.AcceptedLiability | crates/flurbo-core/src/factored.rs:74-82 | so every joint state of an accepted model owes between nothing and 100 b |
| Factored.ReadEvidence | crates/flurbo-core/src/factored.rs:130-137 | accepts exactly the listings of existing events without repetition |
| Factored.JointLift | crates/flurbo-core/src/factored.rs:215-223 | the product of factor weights is the weight of the summed liabilities |
| Factored.EnumeratedWeight | crates/flurbo-core/src/factored.rs:118-120 | the enumerated sum of weights is the dense market's weight of the agreeing states |
| Factored.EnumeratedMax | crates/flurbo-core/src/factored.rs:122-125 | the enumerated maximum is the largest joint liability |
| Factored.Cost | crates/flurbo-core/src/factored.rs:117-120 | the factored cost is the dense market maker's cost on the vector of joint liabilities |
| Factored.MaxLiability | crates/flurbo-core/src/factored.rs:122-125 | the result is the largest liability over all joint states |
| Factored.Probability | crates/flurbo-core/src/factored.rs:130-139 | the result is the dense market's share of the agreeing states |
| Trading.ClaimProbability | crates/flurbo-core/src/factored.rs:199-209 | summing the evidence probabilities of the paying local states gives the claim's share of the total weight |
| Trading.TradeMovesLiability | crates/flurbo-core/src/factored.rs:172-198 | after merging same-scope tables and adding the quantity, every joint liability has moved exactly where the claim pays |
| Trading.MergeTables | crates/flurbo-core/src/factored.rs:172-187 | the merging loop keeps every other table and adds up those of the claim's scope |
| Trading.SimulateTrade | crates/flurbo-core/src/factored.rs:148-213 | a nonzero trade is accepted exactly when no check refuses it and the constructor accepts the offered model, otherwise the first failed check comes back; what is accepted moves the liabilities and pays b ln(1 + p(k-1)) |
| Trading.TradeFaultMeans | crates/flurbo-core/src/factored.rs:148-171 | no check on the terms fails exactly when the claim lists one to three increasing events, pays in some but not all of their joint states, and the quantity is zero or of a size between b/10^9 and b |
| Trading.TradeFaultIsFirst | crates/flurbo-core/src/factored.rs:148-171 | a fault of the terms is the first check that fails: scope, claim, quantity |
| Trading.QuantityMeans | crates/flurbo-core/src/factored.rs:160-168 | a nonzero quantity is out of range exactly when its share of the liquidity is not between a billionth and one |
| Trading.TradeStaysInDomain | crates/flurbo-core/src/factored.rs:172-198 | after every accepted trade every joint state owes between nothing and 100 b |
| Trading.Rebuild | crates/flurbo-core/src/factored.rs:172-198 | the merged and moved factor list goes through every check of the constructor again, and owes what the old one owed, moved where the claim pays |
| Trading.TradePrice | crates/flurbo-core/src/factored.rs:148-213 | the payment is the difference of the costs after and before, on all 2^n joint states |
| Trading.TradeIsPricedMove | crates/flurbo-core/src/factored.rs:148-213 | every accepted trade is a move of the enumerated market, of a claim that pays in some state and not in another |
| Lmsr.PartitionMoved | crates/flurbo-core/src/pricing.rs:116-124 | Z' = Z + P(k-1): only the paying weights are scaled by k = exp(quantity/b) |
| Lmsr.PriceIsCostDifference | crates/flurbo-core/src/pricing.rs:123-124 | b ln(1 + p(k-1)) is the difference of the costs |
| Lmsr.PriceStrictlyBetween | crates/flurbo-core/src/factored.rs:210-211 | a proper claim costs strictly between nothing and its quantity; a sale returns strictly less than its quantity |
| Lmsr.StableCost | crates/flurbo-core/src/pricing.rs:51-65 | subtracting the largest entry before exponentiating does not change the cost |
| Lmsr.CostCovers | crates/flurbo-core/src/pricing.rs:62-65 | the cost is at least the liability of every state |
| Lmsr.OppositeIsSetLessClaim | crates/flurbo-core/examples/parlay_compare.rs:207-208 | buying the opposite costs a complete set and the sale of the claim |
| TradeRuns.RunPaysCostDifference | crates/flurbo-core/src/pricing.rs:100-124 | over any sequence of priced moves the payments add up to the difference of the costs at the ends |
| TradeRuns.PathIndependent | crates/flurbo-core/src/pricing.rs:100-124 | on the enumerated market two runs to the same liabilities cost the same; a run back to its start nets nothing |
| TradeRuns.BuyThenSell | crates/flurbo-core/src/pricing.rs:100-124 | on the enumerated market buying and then selling the same quantity of a claim nets exactly nothing |
| TradeRuns.PaidStrictlyBetween | crates/flurbo-core/src/pricing.rs:122-124 | every priced move of a proper claim costs strictly between nothing and its quantity |
| TradeRuns.ComplementPrice | crates/flurbo-core/examples/parlay_compare.rs:207-208 | the price of a complement is the quantity plus the (negative) price of selling the claim |
| EngineRuns.RunPaysCostDifference | crates/flurbo-core/src/factored.rs:148-213 | over any run of accepted calls of the engine the payments add up to the difference of the costs of its snapshots |
| EngineRuns.PathIndependent | crates/flurbo-core/src/factored.rs:148-213 | two runs of the engine between the same liabilities pay the same, however their factors, orders and claims differ; a run back to its start nets nothing |
| EngineRuns.BuyThenSell | crates/flurbo-core/src/factored.rs:148-213 | buying and then selling as much of a claim restores every liability of the engine and nets exactly nothing |
| EngineRuns.PaidStrictlyBetween | crates/flurbo-core/src/factored.rs:210-211 | every accepted buy costs strictly between nothing and its quantity, and every sale returns strictly between nothing and its quantity |
| EngineRuns.ComplementPrice | crates/flurbo-core/examples/parlay_compare.rs:207-208 | on one snapshot a complement costs the quantity less what selling the claim returns |
| Distributions.SoftmaxIs | crates/flurbo-core/src/funded_repricing.rs:89-95 | energies relative to the highest give each state's share of the total weight |
| Distributions.SoftmaxIsDistribution | crates/flurbo-core/src/parlay_learning.rs:92-110 | the result is positive and sums to one |
| Distributions.VariationBoundsClaims | crates/flurbo-core/src/funded_repricing.rs:22-23 | the total variation bounds the move of every Boolean claim's probability |
| Distributions.VariationIsReached | crates/flurbo-core/src/funded_repricing.rs:22-23 | and some claim moves by exactly that much |
| Ising.FeatureCount | crates/flurbo-core/src/parlay_learning.rs:34-48 | there are n(n+1)/2 parameters: one per event and one per pair |
| Ising.EnergyIs | crates/flurbo-core/src/parlay_learning.rs:76-89 | the energy of a state is the sum of parameter i over its events plus the sum, over its pairs i < j, of the parameter at n + i(2n-i-1)/2 + (j-i-1) |
| Ising.SpanMeans | crates/flurbo-core/src/parlay_learning.rs:92-110 | the span of the energies exceeds a limit exactly when some two joint states are further apart |
| Ising.DistributionExists | crates/flurbo-core/src/parlay_learning.rs:92-110 | a model has a distribution exactly when no two joint states are more than 24 apart |
| Funded.ReserveIsCost | crates/flurbo-core/src/funded_repricing.rs:81-87 | the stable reserve formula is the cost on liability plus bias |
| Funded.NewIsSolvent | crates/flurbo-core/src/funded_repricing.rs:41-59 | a new market holds b ln(2^n), which is its required reserve |
| Funded.ReserveCovers | crates/flurbo-core/src/funded_repricing.rs:77-87 | the required reserve is at least every state's liability |
| Funded.SolventPays | crates/flurbo-core/src/funded_repricing.rs:77-87 | cash that meets the reserve covers the largest liability and every other |
| Funded.MaxLiabilityIs | crates/flurbo-core/src/funded_repricing.rs:77-80 | the largest liability is one of the liabilities, and none is larger |
| Funded.MoveLiabilities | crates/flurbo-core/src/funded_repricing.rs:118-126 | the loop moves the liabilities where the claim pays, or stops exactly when one leaves [0, 100 b] |
| Funded.SimulateTrade | crates/flurbo-core/src/funded_repricing.rs:100-138 | refuses with the first failed check, accepts exactly under the stated conditions; then cash and reserve rise by the same payment, which lies strictly between 0 and the quantity |
| Funded.TradeSettles | crates/flurbo-core/src/funded_repricing.rs:100-138 | a trade keeps cash less required reserve constant |
| Funded.RepricedDistribution | crates/flurbo-core/src/funded_repricing.rs:171-180 | after repricing every state is priced at its learned probability |
| Funded.RepricedReserve | crates/flurbo-core/src/funded_repricing.rs:171-181 | the new bias has minimum zero and the new reserve is the largest of q(x) + b ln(1/p(x)) |
| Funded.BiasIsUnique | crates/flurbo-core/src/funded_repricing.rs:140-143 | no other bias with minimum zero prices every state the same |
| Funded.SimulateReprice | crates/flurbo-core/src/funded_repricing.rs:144-198 | refuses with the first failed check; otherwise bias, cash, revision and receipt are the learned ones, funding and variation are within their limits, and no Boolean claim's probability moves by more than the limit; MovementLimit comes back only if some claim would move by more |
| Funded.LearnedMoves | crates/flurbo-core/src/funded_repricing.rs:160-170 | a repricing moves no Boolean claim's probability by more than the variation it reports |
| Funded.SomeClaimMoves | crates/flurbo-core/src/funded_repricing.rs:160-170 | a variation over a limit means that some Boolean claim's probability would move by more |
| Funded.LearnedSettles | crates/flurbo-core/src/funded_repricing.rs:144-198 | repricing keeps the liabilities and the old cash, meets the new reserve, and adds no more funding than that takes |
| FundedRuns.RunIsSolvent | crates/flurbo-core/src/funded_repricing.rs:100-198 | every market of every run of trades and repricings holds its required reserve |
| FundedRuns.RunConserves | crates/flurbo-core/src/funded_repricing.rs:100-198 | cash is the first cash plus payments plus funding, and each liability is what the outstanding claims pay there |
| FundedRuns.RunAlwaysPays | crates/flurbo-core/src/funded_repricing.rs:100-198 | in every reachable market and outcome, subsidy plus payments plus funding covers the payout |
| FundedRuns.TradesKeepSurplus | crates/flurbo-core/src/funded_repricing.rs:100-138 | between repricings the surplus never moves, whatever the path |
| FundedRuns.RepricingIsLimited | crates/flurbo-core/src/funded_repricing.rs:144-198 | in every run each repricing moves no Boolean claim's probability by more than its own limit and adds no more than its own funding |
| Candidate.RoundedIsNearest | scripts/build_learning_proposal.py:34-36 | rounding gives the one nearest integer, ties to even, negatives included |
| FactorTables.Tables | scripts/build_learning_proposal.py:39-56 | accepts exactly the well-formed lists: at most 64 rows, distinct scopes of one to three events, right shapes, canonical when asked |
| FactorTables.WidthLoop | scripts/build_learning_proposal.py:65-76 | the width loop accepts exactly the scope lists that the pricing engine's width check accepts |
| FactorTables.Graph | scripts/build_learning_proposal.py:59-76 | accepts exactly within the factor limit, the numeric domain and width 2 |
| FactorTables.ValueAt | scripts/build_learning_proposal.py:79-86 | the two loops give the sum over the tables of the entry that the state projects to |
| Candidate.ErrorSpan | scripts/build_learning_proposal.py:146-150 | over any two states the rounding errors of the energies differ by at most the summed rounding errors |
| Candidate.RoundingErrorSmall | scripts/build_learning_proposal.py:146-150 | the summed error is at most half an atom per parameter |
| Candidate.LiabilitiesCancel | scripts/build_learning_proposal.py:145-160 | liabilities plus candidate bias are the rounded energy plus one constant, in every state |
| Proposal.MovementLoop | scripts/build_learning_proposal.py:165-169 | the sum of the tables' spans, whatever the order of the set of scopes |
| Proposal.TotalIsSum | scripts/build_learning_proposal.py:79-86 | the total over the tables is the sum over any set of scopes that holds theirs |
| Proposal.MovementBoundsPairs | scripts/build_learning_proposal.py:164-170 | the summed spans bound the change of the bias difference of any two states |
| Quantisation.RatioBound | scripts/build_learning_proposal.py:171-177 | energies that move by a span E change no probability by more than a factor exp(E) |
| Quantisation.VariationBound | scripts/build_learning_proposal.py:171-177 | ratios of at most K put two distributions at most K - 1 apart |
| Quantisation.SpanBoundsVariation | scripts/build_learning_proposal.py:171-177 | a span E gives a total variation of at most exp(E) - 1 and of at most the accepted min(1, E/(1-E)) |
| Builder.QuantiseLoop | scripts/build_learning_proposal.py:145-154 | the coefficient loop builds the coefficient tables and the summed error |
| Builder.LowerLoop | scripts/build_learning_proposal.py:158-162 | every table is lowered to least entry zero; refused exactly when an entry reaches 2^128 |
| Builder.SortedTotal | scripts/build_learning_proposal.py:198-199 | sorting the tables for output changes no state's total |
| Builder.Build | scripts/build_learning_proposal.py:100-202 | succeeds exactly when no check refuses, reports the first that does, and returns the sorted candidate |
| ProposalTerms.SnapshotMeans | scripts/build_learning_proposal.py:103-134 | the terms that pass: a permutation of the events as order, at most 18 decimals, liquidity between 10^12 and 10^27 at 18 decimals, a deadline after the snapshot and before the close, a movement limit from one atom to the liquidity, a tolerance in [0, 1] |
| ProposalTerms.SixDecimals | scripts/build_learning_proposal.py:112-114 | at six decimals that is a liquidity from 1 to 10^15 atoms |
| ProposalTerms.ModelMeans | scripts/build_learning_proposal.py:129-141 | the models that pass: n(n+1)/2 parameters of size at most 12, and no two joint states more than 24 apart |
| ProposalTerms.InputMeans | scripts/build_learning_proposal.py:100-141 | one to eight events, the same in model and snapshot, and both of these |
| ProposalTerms.TablesMean | scripts/build_learning_proposal.py:39-56 | the lists that pass: at most 64 tables of one to three events, one 128-bit entry per joint state, distinct scopes; in a bias ascending scopes and a zero in every table |
| ProposalTerms.GraphMeans | scripts/build_learning_proposal.py:59-76 | the graphs that pass: at most 64 tables, no choice of entries over 100 times the liquidity, a width that the pricing engine accepts |
| ProposalTerms.BoundMeans | scripts/build_learning_proposal.py:171-177 | the error bound is within the tolerance exactly when E <= tolerance (1 - E) with E < 1, or the tolerance is one |
| ProposalTerms.BelowWordMeans | scripts/build_learning_proposal.py:158-162 | no overflow means that every entry is below 2^128 |
| ProposalTerms.RefusalMeans | scripts/build_learning_proposal.py:142-177 | on well-formed input nothing is refused exactly when both graphs, the candidate's size, its movement and its error bound are within their limits |
| ProposalTerms.AcceptedIsWellFormed | scripts/build_learning_proposal.py:100-144 | what is not well formed is never accepted |
| ProposalTerms.SnapshotFaultIsFirst | scripts/build_learning_proposal.py:106-128 | each fault of the snapshot's terms is the first check that fails |
| ProposalTerms.InputFaultIsFirst | scripts/build_learning_proposal.py:100-141 | events first, then the terms, then the model: parameter count, parameter size, energy span |
| ProposalTerms.TablesFaultIsFirst | scripts/build_learning_proposal.py:142-143 | then the factors, then the old bias |
| ProposalTerms.CandidateFaultIsFirst | scripts/build_learning_proposal.py:144-177 | then the graph, overflow, the new graph, movement and tolerance, in this order |
| ProposalTerms.ProposedTerm | scripts/build_learning_proposal.py:145-162 | each proposed table holds the rounded coefficient of its scope where all its events happen, less the liabilities of its scope, shifted so that its least entry is zero |
| ProposalTerms.CoefficientAtListed | scripts/build_learning_proposal.py:145-154 | the coefficient of a feature is its own parameter, rounded |
| ProposalTerms.ProposedScopes | scripts/build_learning_proposal.py:151-157 | the proposed scopes are the features with a parameter other than zero, also when it rounds to zero, and the scopes of the liabilities, and no other |
| ProposalTerms.MovementMeans | scripts/build_learning_proposal.py:164-170 | the movement adds up, over the scopes of either bias, the largest difference that any two states see in the change of that scope's table |
| Acceptance.ImpliedTotal | scripts/build_learning_proposal.py:145-160 | what the pool prices by is the exact energy, less the rounding error and a constant |
| Acceptance.ImpliedWithinSpan | scripts/build_learning_proposal.py:171-177 | the implied and the learned energies differ by a constant up to a span of the summed error over the liquidity |
| Acceptance.AcceptedVariation | scripts/build_learning_proposal.py:171-177 | an accepted proposal implies a distribution within exp(E) - 1 and within the tolerance of the learned one |
| Acceptance.AcceptedMovement | scripts/build_learning_proposal.py:164-170 | an accepted proposal moves no pair of states by more than the movement limit |
| Acceptance.AcceptedIsCanonical | scripts/build_learning_proposal.py:39-56 | an accepted bias is canonical and not negative: the next run accepts it as the bias of its snapshot |
| Policy.WorstCaseLoss | packages/sdk-cpp/src/policy.cpp:111-137 | the result is the maximum over all 2^n outcomes of the cost basis less what net positive positions pay |
| Policy.Accumulate | packages/sdk-cpp/src/policy.cpp:112-128 | the map loop computes every claim's net quantity and the cost basis |
| Policy.LowestPayout | packages/sdk-cpp/src/policy.cpp:129-136 | the outcome loop finds the lowest payout |
| Policy.LossIgnoresOrder | packages/sdk-cpp/src/policy.cpp:111-137 | the loss in every outcome depends on the entries, not on their order |
| Policy.EvaluatePolicy | packages/sdk-cpp/src/policy.cpp:139-186 | the result lists exactly the violations that apply, each once, in the protocol's order |
| Policy.PassesMeans | packages/sdk-cpp/src/policy.cpp:139-186 | nothing is violated exactly when the order meets the stated limits, spelled out with their constants: request, terms and risk |
| Policy.SpendOfOne | packages/sdk-cpp/src/policy.cpp:104-109 | what one entry counts as spend: the recorded cost of a confirmed buy, the limit of a buy that is unfinished or mismatched, otherwise nothing, and inside its window only |
| Policy.TotalAdds | packages/sdk-cpp/src/policy.cpp:163-174 | the total of a journal is the total of its parts |
| Policy.HeldAdds | packages/sdk-cpp/src/policy.cpp:154-156 | what is held of a claim is the sum over the holdings of that claim |
| Policy.SumOfOne | packages/sdk-cpp/src/policy.cpp:116-127 | what one entry adds to the cost basis and to the position of its claim, status by status |
| Policy.SumAdds | packages/sdk-cpp/src/policy.cpp:116-127 | position and cost basis of a journal are the sums over its parts |
| Policy.PaysMeans | packages/sdk-cpp/src/core.cpp:272-280 | a claim pays in a state when its mask holds the one index, below 32, whose bits are the scope's events of the state |
| Policy.WindowExceeded | packages/sdk-cpp/src/policy.cpp:165-170 | the window loop reports exactly whether some window is exceeded |
| Policy.FilledLoss | packages/sdk-cpp/src/policy.cpp:111-137 | the loss that is checked for a candidate is the loss of the journal that contains it, in every outcome |
| Journal.PlannedBuyBoundsLoss | packages/sdk-cpp/src/policy.cpp:175-175 | a buy that is planned leaves a journal that loses at most the limit in every outcome of its market |
| LossRuns.UpdateMovesLoss | packages/sdk-cpp/src/policy.cpp:111-137 | an update of an entry moves the loss of every outcome by exactly the change of cost less the change of what the position of its claim pays there |
| LossRuns.ReleaseMovesLoss | packages/sdk-cpp/src/policy.cpp:117-125 | giving up an unfinished buy takes its limit off the loss and puts back exactly what its quantity would have paid |
| LossRuns.NextKeepsLoss | packages/sdk-cpp/src/executor.cpp:108-294 | every step keeps a bound on the loss in all outcomes, unless it gives up an unfinished buy of the market or confirms a sale there |
| LossRuns.QuietRunBoundsLoss | packages/sdk-cpp/src/executor.cpp:108-294 | in every run without such steps the journal loses at most the limit in every outcome, at every moment |
| LossBreach.RevertBreaksLossLimit | packages/sdk-cpp/src/executor.cpp:108-294 | a run in which every plan respects the limit and the revert of an unfinished buy then makes the journal lose twice as much |
| PositionRuns.ExposureCovered | packages/sdk-cpp/src/policy.cpp:171-174 | what the wallet holds or can still come to hold of a claim is at most the holdings that were read, the pending buys and the confirmed buys that both miss |
| PositionRuns.FreshPlanKeepsLimit | packages/sdk-cpp/src/policy.cpp:171-174 | a buy that passes the position check on holdings read after the last confirmation of its claim leaves an exposure within the limit |
| PositionRuns.NextKeepsExposure | packages/sdk-cpp/src/executor.cpp:97-160 | no other step raises the exposure, blocks and releases included |
| PositionRuns.CarefulRunKeepsPosition | packages/sdk-cpp/src/executor.cpp:97-160 | over every run whose plans read the holdings so, the exposure stays within the limit, or within what was held at the start |
| PositionRuns.StaleReadBreaksLimit | packages/sdk-cpp/src/executor.cpp:97-160 | a run in which the holdings were read before a confirmed buy: the next plan passes every check and the exposure is twice the limit |
| Policy.PublishedOnlyTightens | packages/sdk-cpp/src/policy.cpp:208-222 | with the published policy an order is refused for what the local limits refuse it for, and besides exactly when a buy passes the published cost limit or a published window |
| Policy.LiveNeeds | packages/sdk-cpp/src/policy.cpp:214-221 | live actions need exactly a fresh, enabled and unpaused published policy in live mode, and each reason is given exactly when it is the first that applies |
| Recovery.VerifyEffect | packages/sdk-cpp/src/policy.cpp:236-262 | confirms exactly what the first matching log shows, with its amount |
| Recovery.EffectMeans | packages/sdk-cpp/src/policy.cpp:236-260 | a trade or redemption is confirmed exactly when some log holds the one event that proves it, with that amount; an approval exactly when the allowance covers the limit |
| FreshReads.FreshReadsDecide | packages/sdk-cpp/src/executor.cpp:233-243 | on reads at the head with settled receipts: verify exactly what executed, release exactly what can no longer succeed and is not in the mempool, each under its own status, resend exactly the rest |
| FreshReads.FreshResend | packages/sdk-cpp/src/executor.cpp:268-276 | on such reads the same bytes are sent again exactly when the transaction is not in the mempool and can still succeed; a plan is never sent |
| FreshReads.NewestBlockWaits | packages/sdk-cpp/src/executor.cpp:237-238 | a transaction in the newest block is waited for, whatever its receipt says |
| FreshReads.UnsignedPlanIsGivenUp | packages/sdk-cpp/src/executor.cpp:229-232 | a plan that was never signed is given up by its own process at once and by others from the 60th second on |
| FreshReads.WaitingBecomes | packages/sdk-cpp/src/executor.cpp:246-292 | an entry that waits stays while its bytes are sent again, is broadcast once its hash is found, and is finished, with the moment, when it is verified or given up |
| FreshReads.OvertakenChangesNothing | packages/sdk-cpp/src/executor.cpp:285-291 | a reconciliation whose copy was overtaken changes nothing |
| FreshReads.RedemptionHasNoLimit | packages/sdk-cpp/src/executor.cpp:126-130 | whatever limit a redemption names, the same checks refuse it |
| FreshReads.OrderIsSigned | packages/sdk-cpp/src/executor.cpp:133-205 | a planned order is signed, abandoned or left exactly as the gate says, and the signed transaction carries the terms of the order and no others |
| FreshReads.BuildsMeans | packages/sdk-cpp/src/core.cpp:544-566 | which orders can be built, action by action, with their constants |
| FreshReads.ClaimValidMeans | packages/sdk-cpp/src/core.cpp:204-223 | within these bounds a claim is valid exactly when it pays in some outcome of the pool and misses in some |
| FreshReads.ClaimValidBounds | packages/sdk-cpp/src/core.cpp:204-223 | a valid claim is on one to three events of a pool of two to four |
| FreshReads.ApprovalPasses | packages/sdk-cpp/src/executor.cpp:111-118 | an approval is refused for nothing exactly when amount, market, gas and pending entries are within the limits |
| FreshReads.RunKeepsStamps | packages/sdk-cpp/src/executor.cpp:108-292 | in every run an entry says when it was finished exactly when it is, and what it cost or paid exactly when it is a confirmed trade or redemption |
| Journal.FileJournal.FindEntry | packages/sdk-cpp/src/executor.cpp:20-25 | finds the first entry with an id, or none |
| Journal.FileJournal.HighestNonce | packages/sdk-cpp/src/executor.cpp:179-181 | the highest nonce among unfinished entries |
| Journal.FileJournal.Plan | packages/sdk-cpp/src/executor.cpp:108-160 | reports exactly the checks that refuse the order on the locked journal, and appends exactly the entry that was evaluated when none does |
| Journal.FileJournal.CheckApproval | packages/sdk-cpp/src/executor.cpp:111-118 | the shorter list of checks for approvals |
| Journal.FileJournal.Sign | packages/sdk-cpp/src/executor.cpp:177-208 | the entry becomes abandoned or signed, with the least nonce above every open one and not below the pending one; nothing else changes, nothing at all on an invalid transaction |
| Journal.NonceIsLeast | packages/sdk-cpp/src/executor.cpp:197-198 | the signed nonce is the least that the node does not have yet and that is above every open nonce: the node's own, or the one right after some open nonce |
| Journal.FileJournal.MarkBroadcast | packages/sdk-cpp/src/executor.cpp:219-225 | a signed entry becomes broadcast; nothing else changes |
| Journal.FileJournal.Reconcile | packages/sdk-cpp/src/executor.cpp:229-294 | the guarded update writes exactly the reconciled entry, and only if its status is still the one that was read |
| SpendSafety.PlanKeepsWindow | packages/sdk-cpp/src/policy.cpp:165-170 | appending a plan keeps the spend of every interval of a window's length within it, even when clocks are out of order |
| SpendSafety.ReleasedIsDead | packages/sdk-cpp/src/policy.cpp:224-234 | whatever recovery releases, on reads that can be believed, has not executed and never can |
| SpendSafety.ConsistentIsBelievable | packages/sdk-cpp/src/executor.cpp:235-244 | reads between which no transaction of the wallet was mined can always be believed |
| SpendSafety.LateIsNotExecuted | packages/sdk-cpp/src/policy.cpp:231-231 | past its deadline an unknown transaction can only fail |
| SpendSafety.BuyEffect | packages/sdk-cpp/src/policy.cpp:236-262 | a confirmed buy records exactly what the chain charged |
| SpendSafety.NextKeepsInv | packages/sdk-cpp/src/executor.cpp:108-294 | every atomic step of any process or of the chain keeps the invariant |
| Executor.Executor.Plan | packages/sdk-cpp/src/executor.cpp:77-161 | a call of plan reports what cannot be built, what cannot be simulated and exactly the checks that reject it, in that order, and otherwise is a step of the protocol |
| Executor.GasMeans | packages/sdk-cpp/src/executor.cpp:84-90 | gas is found exactly for estimates from one to 12.5 million, and is six fifths of the estimate, rounded down |
| Executor.Executor.Sign | packages/sdk-cpp/src/executor.cpp:177-208 | a call of sign is a step of the protocol, and a signed entry is there to be sent |
| Executor.Executor.SendRaw | packages/sdk-cpp/src/executor.cpp:210-218 | the unlocked part of broadcast is a send step |
| Executor.Executor.MarkBroadcast | packages/sdk-cpp/src/executor.cpp:219-225 | the locked part of broadcast is a marking step, whatever happened since the bytes were sent |
| Executor.Executor.Reconcile | packages/sdk-cpp/src/executor.cpp:229-294 | a call of reconcile_entry, on any reads, sends the same bytes again or is the code's update step, which is a step of the guarded protocol whenever the reads can be believed |
| ExecutionRuns.RunInv | packages/sdk-cpp/src/executor.cpp:108-294 | the invariant holds in every reachable world |
| ExecutionRuns.SpendIsSafe | packages/sdk-cpp/src/executor.cpp:108-294 | in every reachable world the on-chain cost of executed buys is at most the journal's spend, which is at most the cap; every window and the pending limit hold |
| ExecutionRuns.ReleasedNeverExecutes | packages/sdk-cpp/src/executor.cpp:262-269 | a released entry stays released and its transaction never executes, at any later moment of any run |
| ExecutionRuns.SigningDiscipline | packages/sdk-cpp/src/executor.cpp:177-227 | entries are signed at most once, all bytes ever sent for one are the same, open nonces are distinct and final statuses absorbing |
| NonceRuns.RunHasNoGap | packages/sdk-cpp/src/executor.cpp:179-205 | when every signing reads a pending nonce with no gap below it, no signed entry ever waits for a nonce that was not signed |
| NonceRuns.OpenNoncesHaveNoGap | packages/sdk-cpp/src/executor.cpp:179-205 | so every nonce between the mined count and an open nonce is open as well, or belongs to an expired entry |
| TornReads.ReleaseIsSoundIff | packages/sdk-cpp/src/executor.cpp:235-244 | on given reads and the nonce at the hash lookup, a released transaction is dead on every chain that answers so if and only if it is no replacement, or that nonce was already past it, or the head was past the deadline |
| TornReads.CodeReleaseIsSoundIff | packages/sdk-cpp/src/policy.cpp:224-234 | on what the code reads, that holds if and only if it is no replacement or the head was past the deadline |
| TornReads.OpenEntryIsExposed | packages/sdk-cpp/src/executor.cpp:235-244 | in every reachable world, the next block can make any signed entry that is neither mined nor late look replaced although it executes in that block |
| TornReads.TornRunsPassEveryCap | packages/sdk-cpp/src/executor.cpp:108-294 | without the hypothesis, for every n a run of the code from an empty journal executes buys for n times the cap while the journal counts no spend |
| Json.Write | packages/sdk-cpp/src/json.cpp:176-212 | the recursive writer appends exactly the text of the value |
| Json.Dump | packages/sdk-cpp/src/json.cpp:214-218 | the dump is the text of the value at depth zero |
| Json.AppendQuoted | packages/sdk-cpp/src/json.cpp:142-164 | the quoting loop appends the quoted text |
| Json.SetUnique | packages/sdk-cpp/src/json.cpp:86-96 | setting a member keeps the keys distinct |
| Json.SetKeys | packages/sdk-cpp/src/json.cpp:86-96 | a key that is listed stays where it is; a new one comes last |
| Json.SetHolds | packages/sdk-cpp/src/json.cpp:86-96 | the key that is set has the new value, and no other member changes |
| JsonLexemes.QuotedParses | packages/sdk-cpp/src/json.cpp:338-376 | every byte string is read back from its quoted form |
| JsonLexemes.IntegerParses | packages/sdk-cpp/src/json.cpp:377-403 | every integer of at most 18 characters is read back from its text |
| JsonNumbers.NumberRead | packages/sdk-cpp/src/json.cpp:377-403 | every number text of RFC 8259 is scanned whole: as that integer when it has no fraction or exponent and at most 18 characters, else as the double that it reads as |
| JsonNumbers.ReadIsNumber | packages/sdk-cpp/src/json.cpp:377-403 | whatever is read as a number is a number text with that meaning |
| JsonUnicode.Utf8Decodes | packages/sdk-cpp/src/json.cpp:308-324 | a decoder of RFC 3629 reads every scalar value back from its bytes, whatever follows; the bytes of a surrogate are no UTF-8 |
| JsonUnicode.EscapedSpells | packages/sdk-cpp/src/json.cpp:325-376 | every scalar value has an escaped form, by one unit or a surrogate pair |
| JsonUnicode.TextReads | packages/sdk-cpp/src/json.cpp:338-376 | a Unicode text, each code point written as itself, by a short escape or by number in either case, is read as its UTF-8 bytes |
| JsonUnicode.UnicodeSurvives | packages/sdk-cpp/src/json.cpp:308-376 | so what a JSON string says is what the decoder finds in the bytes that were read |
| JsonUnicode.LoneSurrogate | packages/sdk-cpp/src/json.cpp:360-373 | a surrogate escape that stands alone is accepted too, and gives bytes that are no UTF-8 |
| JsonUnicode.StringsAreAllowed | packages/sdk-cpp/src/json.cpp:338-376 | the parser accepts exactly the quoted texts that the grammar of RFC 8259 allows, and stops where they end |
| JsonShortest.StringCost | packages/sdk-cpp/src/json.cpp:142-164 | no way of writing a string between quotes is shorter than the printer's |
| JsonShortest.CompactIsShortest | packages/sdk-cpp/src/json.cpp:176-218 | no layout of a value is shorter than its compact text |
| JsonLayout.LaidParses | packages/sdk-cpp/src/json.cpp:245-307 | every layout of a value, with any spaces, is read as that value, repeated keys merged, or refused as too deep beyond 200 |
| JsonLayout.LastValuesStay | packages/sdk-cpp/src/json.cpp:86-96 | of members that repeat keys exactly the last of each key stay |
| JsonLayout.FirstPlacesStay | packages/sdk-cpp/src/json.cpp:86-96 | and each key stays where it first appears |
| JsonLayout.MergedUnique | packages/sdk-cpp/src/json.cpp:86-96 | without repeated keys nothing is merged, at any depth |
| JsonLayout.LayoutDoesNotMatter | packages/sdk-cpp/src/json.cpp:223-228 | a text is read the same whatever spaces stand between its parts |
| JsonRoundTrip.TextIsLaid | packages/sdk-cpp/src/json.cpp:176-212 | what the writer prints, at any indent, is a layout of the value |
| JsonRoundTrip.RoundTrip | packages/sdk-cpp/src/json.cpp:142-404 | for distinct keys and integers of at most 18 characters: parsing the dump gives the value back exactly when it is nested at most 200 deep, and fails as too deep otherwise |
| JsonParser.Parser.Document | packages/sdk-cpp/src/json.cpp:223-228 | the parser object returns what the grammar gives for the whole text |
| JsonParser.Parser.ReadValue | packages/sdk-cpp/src/json.cpp:245-257 | a value is read as the grammar says from the index where it starts, and the index ends after it |
| JsonParser.Parser.ReadObject | packages/sdk-cpp/src/json.cpp:258-285 | the member loop agrees with the grammar, repeated keys included |
| JsonParser.Parser.ReadArray | packages/sdk-cpp/src/json.cpp:286-307 | the item loop agrees with the grammar |
| JsonParser.Parser.ReadString | packages/sdk-cpp/src/json.cpp:338-376 | the string loop agrees with the grammar, escapes and surrogates included |
| JsonParser.Parser.ReadNumber | packages/sdk-cpp/src/json.cpp:377-403 | the number scan agrees with the grammar |
| JsonAccepted.AcceptedIsSound | packages/sdk-cpp/src/json.cpp:220-404 | whatever the text, an accepted value repeats no key and is nested at most 200 deep |
| JsonGrammar.AcceptsExactlyJson | packages/sdk-cpp/src/json.cpp:220-404 | a text is accepted exactly when it is in the grammar of RFC 8259 with values nested at most 200 deep and finite numbers |
| JsonAccepted.SpacesSkipped | packages/sdk-cpp/src/json.cpp:234-236 | exactly space, tab, line feed and carriage return are skipped |
| JsonAccepted.PrintedSample | packages/sdk-cpp/src/json.cpp:176-212 | a nested array printed at an indent of two, line by line |
| JsonAccepted.PrintingIsStable | packages/sdk-cpp/src/json.cpp:142-404 | printing what was read and reading it again changes nothing |
| JsonAccepted.TextDetermines | packages/sdk-cpp/src/json.cpp:142-218 | values with the same printed text are the same |
| BigEndian.MinimalValue | packages/sdk-cpp/src/crypto.cpp:72-76 | the shifting loop's bytes stand for the integer |
| BigEndian.MinimalOfNumber | packages/sdk-cpp/src/crypto.cpp:72-76 | bytes without a leading zero are the ones that the loop gives for their integer |
| BigEndian.NumberInjective | packages/sdk-cpp/src/core.cpp:51-64 | byte strings of one length and their numbers determine each other |
| Rlp.BuildUnsigned | packages/sdk-cpp/src/crypto.cpp:52-99 | the appending functions produce the envelope of the eight items, or nothing for a recipient that is not 20 bytes |
| Rlp.ItemReads | packages/sdk-cpp/src/crypto.cpp:52-70 | an item is read back whatever follows it |
| Rlp.ItemsArePrefixFree | packages/sdk-cpp/src/crypto.cpp:52-70 | no item is a prefix of another |
| Rlp.ItemsRead | packages/sdk-cpp/src/crypto.cpp:52-83 | every list of byte strings is recovered from its items |
| Rlp.ItemsDetermine | packages/sdk-cpp/src/crypto.cpp:52-83 | lists with the same bytes are the same |
| Rlp.UnsignedReads | packages/sdk-cpp/src/crypto.cpp:152-157 | the decoder recovers every field of a transaction from its unsigned bytes |
| Rlp.UnsignedDetermines | packages/sdk-cpp/src/crypto.cpp:152-157 | unsigned bytes are injective and prefix-free in all eight fields |
| Rlp.ItemIsOnly | packages/sdk-cpp/src/crypto.cpp:52-70 | whatever the decoder reads as an item starts with the item's bytes: there is no second encoding |
| Rlp.ItemsAreOnly | packages/sdk-cpp/src/crypto.cpp:52-83 | whatever is read as items is the bytes of those items |
| Rlp.UnsignedIsOnly | packages/sdk-cpp/src/crypto.cpp:152-157 | whatever is read as a transaction starts with the transaction's unsigned bytes |
| Words.TimesTenPlus | packages/sdk-cpp/src/core.cpp:54-60 | the carry loop computes ten times the word plus the digit, with the carry that leaves it |
| Words.FromDec | packages/sdk-cpp/src/core.cpp:51-64 | succeeds exactly on canonical digits below 2^256 and gives that value |
| Words.DivideByTen | packages/sdk-cpp/src/core.cpp:117-122 | the long division divides the word by ten and leaves the remainder |
| Words.Dec | packages/sdk-cpp/src/core.cpp:113-127 | prints the decimal text of the word |
| Words.RoundTrip | packages/sdk-cpp/src/core.cpp:51-127 | printing what was read gives the text back |
| Words.ReadPrinted | packages/sdk-cpp/src/core.cpp:51-127 | reading what was printed gives the bytes back |
| Decimals.DigitsOfValue | packages/sdk-cpp/src/core.cpp:113-127 | a canonical text is the decimal text of its value |
| Civil.DateSurvives | packages/sdk-cpp/src/core.cpp:598-617 | civil undoes days_from_civil on every valid proleptic Gregorian date |
| Civil.DaySurvives | packages/sdk-cpp/src/core.cpp:598-617 | days_from_civil undoes civil on every day number, and every day is a valid date |
| Civil.NextDayIsNext | packages/sdk-cpp/src/core.cpp:610-617 | the next calendar day has the next number |
| Civil.CivilSteps | packages/sdk-cpp/src/core.cpp:598-608 | civil steps through the calendar one day at a time, negative days included |
| Civil.CivilCountsDays | packages/sdk-cpp/src/core.cpp:598-608 | civil of n is the n-th calendar day after 1970-01-01 |
| Civil.YearOfDay | packages/sdk-cpp/src/core.cpp:602-602 | the year formula recovers the year of every day of the 400-year era |
| Ledger.OutstandingPut | crates/flurbo-core/src/accounting.rs:159-167 | changing one owner's entry changes what all owners' claims pay by exactly that |
| Ledger.HeldPut | crates/flurbo-core/src/accounting.rs:159-163 | an entry that is written is held, whether kept or removed, and no other changes |
| Ledger.MoveLiabilities | crates/flurbo-core/src/accounting.rs:139-151 | the loop moves the liabilities where the claim pays; it never returns InconsistentLiability when enough is owned |
| Ledger.ReferenceLedger.OwnedIsOwed | crates/flurbo-core/src/accounting.rs:146-148 | an owner's holdings are part of every liability that the claim pays in |
| Ledger.ReferenceLedger.Headroom | crates/flurbo-core/src/accounting.rs:73-75 | the surplus and the required collateral add up to the collateral: the subtraction never underflows |
| Ledger.ReferenceLedger.New | crates/flurbo-core/src/accounting.rs:50-58 | supports one to three events and starts valid |
| Ledger.ReferenceLedger.PlanTrade | crates/flurbo-core/src/accounting.rs:108-155 | reports exactly the first failed check, never InconsistentLiability |
| Ledger.ReferenceLedger.AcceptedMeans | crates/flurbo-core/src/accounting.rs:108-155 | a trade is accepted exactly when the claim is proper and of this ledger, the quantity positive, holdings and collateral after it fit 128 bits and are not negative, and that collateral covers every liability after it |
| Ledger.ReferenceLedger.RefusalIsFirst | crates/flurbo-core/src/accounting.rs:108-155 | each refusal is given when its check is the first that fails |
| Ledger.ReferenceLedger.RecordTrade | crates/flurbo-core/src/accounting.rs:108-168 | keeps liabilities equal to the holdings and covered, and collateral equal to subsidy plus receipts less payouts; an error changes nothing |
| Performance.SortedIs | apps/web/src/portfolio-performance.ts:23-23 | the sort orders the history and keeps every trade |
| Performance.SortedAscends | apps/web/src/portfolio-performance.ts:23-23 | earlier blocks come first, and within a block lower indexes |
| Performance.SortedIsStable | apps/web/src/portfolio-performance.ts:23-23 | trades at one place of the chain keep their order |
| Performance.OfSorted | apps/web/src/portfolio-performance.ts:23-23 | stability: sorting the whole history sorts each position's own history |
| Performance.CostOutBounds | apps/web/src/portfolio-performance.ts:28-28 | the share of cost that leaves is rounded down and never more than the cost |
| Performance.RealizedPerformance | apps/web/src/portfolio-performance.ts:20-35 | the loop computes the run of the sorted history |
| Performance.NothingHeldCostsNothing | apps/web/src/portfolio-performance.ts:20-35 | a position at zero quantity has zero cost: no rounding residue |
| Performance.ProfitIsConserved | apps/web/src/portfolio-performance.ts:20-35 | in a valid history profit is sale and payout cash less purchase cash plus remaining cost |
| Performance.ClosedProfitIsCash | apps/web/src/portfolio-performance.ts:20-35 | with nothing held, profit is exactly cash out less cash in |
| Performance.LotIsOwn | apps/web/src/portfolio-performance.ts:20-35 | a position's lot depends on its own trades alone |
| Performance.PositionsAreSeparate | apps/web/src/portfolio-performance.ts:20-35 | the total is the sum over positions computed separately, however they were interleaved |
| Performance.ValidityIsSeparate | apps/web/src/portfolio-performance.ts:20-35 | a history is valid exactly when each position's own is |
| Performance.ValidMeans | apps/web/src/portfolio-performance.ts:24-32 | a history is valid exactly when at no moment more of a position has been sold or paid out than bought |
| Performance.HeldIsBought | apps/web/src/portfolio-performance.ts:24-32 | in a valid history what is held is what was bought and not sold |
| Performance.EveryExitIsReported | apps/web/src/portfolio-performance.ts:30-30 | in a valid history every sale and payout, and nothing else, is reported in order, with the profit realised so far |
| Performance.OversaleEmpties | apps/web/src/portfolio-performance.ts:27-27 | a sale of more than is held realises nothing, is not reported, empties the position and leaves the history invalid |

## Left out

- Floating-point rounding, the Decimal diagnostics of the proposal and the f64 domain checks for NaN and infinities.
- RPC, HTTP, sockets, file writes, subprocesses, command lines and logging.
- The journal's lock file and its stale-lock takeover: each locked body is one atomic step.
- Key handling, ECDSA signing and Keccak: signing is a function of the transaction.
- Chain reorganisations: the chain only grows.
- `run`, `execute`, reporting to the service and the scheduling of reconciliations: any interleaving of the steps is covered.
- The simulation, gas and fee reads of `plan` and the semantic check of `sign`: their answers are parameters of the steps.
- `check_additional_scope` of the engine, `conditional_probability` of the enumerated form, `Payoff` algebra and `encode_claim`.
- The gradient steps of `parlay_learning.rs`: only the model's distribution is used.
- `U256::from_hex`, `bits`, `iso`, `payout_fraction`: straight conversions.
- The Python ports of policy, recovery and effects, which repeat the C++ logic.
- React pages, caches and browser glue around the profit computation.
- Json.Write: the text of a double is taken as given, since doubles do not survive the round trip by design.
- JsonParser.Parser.ReadNumber: what a double is read as comes from a parameter; that an integer of at most 18 digits is finite is built in.
- Builder.Build: the snapshot is already read: text patterns, schema names, hashes and integer widths of its fields are not checked again.
- Rlp.BuildUnsigned: recipient and data are bytes; their hexadecimal texts are read before.
- Civil.DaySurvives: day numbers are unbounded integers, so 64-bit overflow at the far ends of time is not modelled.
- Performance.RealizedPerformance: trades carry natural quantities and cash, as the recorded history does; pool and owner names are already folded to one case.
- Funded.SimulateReprice: the learned model has passed its own construction, whose parameter limit of 12 is not repeated.
- Executor.Executor.Plan: the identifier it draws is taken to be new in the journal, as a random UUID is.
