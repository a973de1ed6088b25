# NeoFL recovery engine: a verified model

A Dafny 4.11 model of the parts of NeoFL in which money, orders or records depend on several
programs agreeing: the trading-recovery protocol, the sizing formulas, the telemetry log, the
cognitive loop, the research pass, the include packager, and a few self-contained mechanisms with
exact rules (calendars, the replay window, the level store, two text encodings).

`dafny verify dfyconfig.toml` checks the whole project.

## How the model is laid out

| files | what they model |
|---|---|
| `Terminal`, `BrainSizing`, `MasterBrain`, `BrainRules`, `BasketSolver` | the brain: a persistent state machine over a bus of shared variables, what it decides in prices and balances, its sizing formula and its price solver |
| `Executor`, `AdvisorRules`, `Protocol`, `Divergences` | the expert advisor's tick; the brain, the advisor, the broker and the market interleaved in every order, between the stages of a tick as well; and two runs that break a documented promise |
| `Straddle`, `Bucket`, `Risk`, `Numeric` | the sizing pipeline in Python and its MQL5 mirrors, over reals with the source's explicit slacks |
| `Telemetry`, `Bridge`, `Delivery` | the append-only JSON log, the tailing reader with its durable cursor, and whole runs of both |
| `Cognition`, `Soul`, `SoulRuns`, `SoulRules`, `Body` | the bounded perceive, critique and replan loop, every run of it, and the Body that acts on its verdict |
| `Wickless`, `WicklessRules` | the research pass over a price history, and what it finds in prices |
| `Includes`, `Packager` | finding and rewriting quoted includes, and the worklist over the include graph |
| `Calendar`, `Sessions`, `GlobalSessions` | weekdays, daylight saving, venues and sessions, and their MQL5 mirror |
| `Webhooks`, `Levels`, `Escapes`, `JsonStrings` | replay protection, the bounded level store, and the adapters' text encodings |
| `Wrappers`, `Characters` | shared helpers |

What the sources update in place is a class here, with its fields and loops, and each method is
proved equal to a function of the old state; what the source promises is then proved of that function,
for all inputs, runs and interleavings. `BrainSizing.AssumptionsCanBeMet`, `Risk.AssumptionsCanBeMet` and
`BasketSolver.SolverAssumptionsCanBeMet` show that what the sizing and solver results assume can be met.

Prices, volumes and money are reals. The broker prices a move linearly (lots times contract value
times move) in place of its own profit calculation. Volume minimum and step are assumed to be decimals
of the precision the step implies in the portable sizers, so that their last rounding is the identity.
The brain and the executor round to two decimals whatever the step; what that changes, and for which
steps, is stated exactly.

## Where the code and its documentation part

* The bridge says that a restart resumes exactly where it stopped (`python/neofl_gateway/bridge.py:64-65`).
  A poll that sees the log end between CR and LF reads the line as complete, but the text-mode position
  it then has is not a plain offset and cannot be stored as the cursor; the batch is stored again.
  `Delivery.DeliveredInOrder` proves that this, and a crash after storing, are the only ways to duplicate.
* `NeoFLMB_BasketPnl` and `NeoFLMB_BasketAtPrice` are used as one quantity; they differ by the spread on
  the straddle (`BasketSolver.FormulasDifferBySpread`).
* The basket is said to keep the result of a main that closes
  (`DEPLOYMENTS/NeoFL_CandleRevisit_v3_86/NeoFL_MasterBrain_v3_85.mqh:137-146`). It does if and only if the brain has stored a baseline by then (`Protocol.ClosingMainKeepsBasket`); a
  straddle always opens before that, so a main that closes before the next look is lost from the basket
  (`Divergences.LossBeforeTheFirstLook`, and as one whole run `Divergences.LossFromTheStart`).
* No straddle is to be sized from a position that no longer exists
  (`DEPLOYMENTS/NeoFL_CandleRevisit_v3_86/NeoFL_CandleRevisit_v3_86.mq5:1847-1858`). With a live
  heartbeat one can be (`Divergences.ArmingOutlivesItsMain`, `Divergences.OutlivedFromTheStart`): exactly
  when an entry was opened after the brain armed (`Protocol.TrustedRunsKeepTheBus`).
* The brain's request is meant to be rounded up. The rounding to two decimals that follows takes
  no request below itself when 200 steps are a whole number of lots (`BrainSizing.HalfHundredthsCover`);
  with any other step it does, again and again, unless the cap cuts the request first
  (`BrainSizing.OtherStepsUndercover`, `BrainSizing.FirstLossLoses`).
* The executor caps the volume again after validating it against the main; with a decimal step,
  what it sends exceeds the main if and only if that cap admits the minimum and is half a hundredth above the
  main (`BrainSizing.RecappedAboveMain`).
* In FIXED_DISTANCE the Python sizer refuses a non-positive ratio and its mirror does not
  (`Straddle.SizersAgree`, `Straddle.OnlyTheReferenceBlocks`).
* The packager's bare name of an include that ends in ".." names no packaged file
  (`Packager.PackageResolves`, `Packager.StepBackNamesNothing`).
* Body and Soul speak of authorising proposals; with the default tools no run ever recommends
  (`SoulRuns.RunsFailClosed`, `Body.NeoFLBody.ProposeAction`).

## Model

| member | source | states |
|---|---|---|
| Protocol.PositionsKeepTheirShape | DEPLOYMENTS/NeoFL_CandleRevisit_v3_86/NeoFL_CandleRevisit_v3_86.mq5:2658-2742 | for every positive broker minimum, over every interleaving of advisor ticks, broker closes, price moves, brain updates and arbitrary foreign writes to the bus, also between the stages of a tick, with one-position mode on: our positions are none, one main, one straddle, or a main and one opposite straddle; every straddle ever opened was opened on the opposite side of a main that was all we held, while the clock had not passed the last positive heartbeat by more than the age limit, with a validated volume above the main; the volume sent is the validated one when the execution cap admits it and minimum and guard step are whole numbers of steps, and exceeds a main of two decimals exactly when the cap admits the minimum and, as carried to the grid, is half a hundredth above the main |
| Protocol.TrustedRunsKeepTheBus | DEPLOYMENTS/NeoFL_CandleRevisit_v3_86/NeoFL_CandleRevisit_v3_86.mq5:2025-2070 | when only the brain and the advisor write the bus, in the same interleavings: the risk state and grace stay in range, arming never coexists with an exit, an armed bus holds exactly the volume the brain sized, every straddle opened while the stored baseline was 0, its validated volume is what the guard makes of exactly that sized volume, and it was sized for the very main it faces if and only if no entry was opened between the arming and the opening |
| Protocol.StepKeeps | DEPLOYMENTS/NeoFL_CandleRevisit_v3_86/NeoFL_CandleRevisit_v3_86.mq5:2658-2742 | each step of the combined system keeps the invariant over positions, tickets, openings and bus, with or without a trusted bus |
| Protocol.TickKeeps | DEPLOYMENTS/NeoFL_CandleRevisit_v3_86/NeoFL_CandleRevisit_v3_86.mq5:2658-2742 | one whole tick keeps it, whatever the broker, the gates and the signals answer and whatever happens between its stages |
| Protocol.TerminationFlattens | DEPLOYMENTS/NeoFL_CandleRevisit_v3_86/NeoFL_CandleRevisit_v3_86.mq5:2138-2170 | whenever the basket guard or a held termination reports a full close nothing of ours is left and the command is lowered; as long as a close failed the command stays up |
| Protocol.AliveExactly | DEPLOYMENTS/NeoFL_CandleRevisit_v3_86/NeoFL_CandleRevisit_v3_86.mq5:1859-1892 | the brain counts as alive if and only if it has sent a heartbeat and the clock has not passed it by more than the age limit |
| Protocol.SilentBrainOpensNothing | DEPLOYMENTS/NeoFL_CandleRevisit_v3_86/NeoFL_CandleRevisit_v3_86.mq5:2155-2206 | while it has not, a pass over the commands opens nothing, whatever the bus says |
| Protocol.TickCarries | DEPLOYMENTS/NeoFL_CandleRevisit_v3_86/NeoFL_CandleRevisit_v3_86.mq5:2658-2742 | the advisor never writes the baseline, and picks up an arming command only through the observer network, in a tick during which nobody else writes the bus |
| Protocol.RecoveryNeverDue | DEPLOYMENTS/NeoFL_CandleRevisit_v3_86/NeoFL_CandleRevisit_v3_86.mq5:1243-1305 | the recovery-basket manager never fires in a reachable state, because no position the advisor opens carries the recovery tag |
| Protocol.WithoutTheModeTheShapeBreaks | DEPLOYMENTS/NeoFL_CandleRevisit_v3_86/NeoFL_CandleRevisit_v3_86.mq5:1661-1670 | the mode is what keeps the shape: an attempt that passes its gates next to an open position is executed exactly when the mode is off, and then breaks it |
| Protocol.ShapeIsUnique | DEPLOYMENTS/NeoFL_CandleRevisit_v3_86/NeoFL_CandleRevisit_v3_86.mq5:1198-1213 | wherever other positions stand between them, the earlier of our two positions is the main and the later the straddle |
| MasterBrain.UpdateBaseline | DEPLOYMENTS/NeoFL_CandleRevisit_v3_86/NeoFL_MasterBrain_v3_85.mqh:147-152 | what one brain update does to the stored baseline in every case: the first that sees a straddle fixes it to the balance of the moment, later ones keep it, one that sees only a main clears it |
| Protocol.BaselineStaysFixed | DEPLOYMENTS/NeoFL_CandleRevisit_v3_86/NeoFL_MasterBrain_v3_85.mqh:376-441 | a positive baseline changes only in a brain update which sees a main and no straddle, and that clears it |
| Protocol.ClosingMainKeepsBasket | DEPLOYMENTS/NeoFL_CandleRevisit_v3_86/NeoFL_MasterBrain_v3_85.mqh:137-172 | closing the main at the current quote, in any state of the shape with both legs: with a stored baseline the published basket profit moves by the commission previously subtracted less the exit fee booked, without one it loses all the main contributed; it moves by the costs alone if and only if a baseline is stored or the close books nothing |
| Divergences.LossBeforeTheFirstLook | DEPLOYMENTS/NeoFL_CandleRevisit_v3_86/NeoFL_MasterBrain_v3_85.mqh:137-172 | the case without a baseline happens: from any trusted state with a lone main and ARM up, the advisor opens the straddle, the broker closes the main before the brain looks again, and what the brain then publishes is the straddle alone, the result of the main lost |
| Divergences.LossFromTheStart | DEPLOYMENTS/NeoFL_CandleRevisit_v3_86/NeoFL_MasterBrain_v3_85.mqh:137-172 | one legal run of an advisor just attached, entry, fall, arming, straddle, close of the main: the account has lost 10, the published basket is 0 |
| Divergences.BrainArms | DEPLOYMENTS/NeoFL_CandleRevisit_v3_86/NeoFL_MasterBrain_v3_85.mqh:440-535 | such a state comes about in one brain update that wants a straddle for a live lone main: ARM up, heartbeat live, the sized volume published for that main |
| Divergences.ArmingOutlivesItsMain | DEPLOYMENTS/NeoFL_CandleRevisit_v3_86/NeoFL_CandleRevisit_v3_86.mq5:1847-1858 | from any trusted state with ARM up, a live heartbeat and nothing open any more, one tick opens a new entry and the next a straddle against it, of the volume sized for the main before |
| Divergences.OutlivedFromTheStart | DEPLOYMENTS/NeoFL_CandleRevisit_v3_86/NeoFL_CandleRevisit_v3_86.mq5:1847-1858 | one legal run of an advisor just attached that ends in a straddle of the volume sized for a main closed before |
| AdvisorRules.KeepExactly | DEPLOYMENTS/NeoFL_CandleRevisit_v3_86/NeoFL_CandleRevisit_v3_86.mq5:2072-2084 | closing a set of tickets keeps or removes each position by its ticket, in place |
| AdvisorRules.ReadExactly | DEPLOYMENTS/NeoFL_CandleRevisit_v3_86/NeoFL_CandleRevisit_v3_86.mq5:2480-2517 | what the advisor holds after reading the network; without the network, what it held |
| AdvisorRules.GuardExactly | DEPLOYMENTS/NeoFL_CandleRevisit_v3_86/NeoFL_CandleRevisit_v3_86.mq5:2138-2153 | the guard reports a full close if and only if EMERGENCY or TERMINATE is up and the broker agrees to close what there is of a straddle and of a main |
| AdvisorRules.RecoveryCloses | DEPLOYMENTS/NeoFL_CandleRevisit_v3_86/NeoFL_CandleRevisit_v3_86.mq5:1288-1305 | a due recovery basket loses exactly the taken tickets whose closes are agreed |
| AdvisorRules.BookExactly | DEPLOYMENTS/NeoFL_CandleRevisit_v3_86/NeoFL_CandleRevisit_v3_86.mq5:2072-2084 | and books for each removed one its move to the bid or ask in money, its swap, less the exit fee |
| AdvisorRules.OpensExactly | DEPLOYMENTS/NeoFL_CandleRevisit_v3_86/NeoFL_CandleRevisit_v3_86.mq5:2025-2070 | a pass over the commands opens a straddle if and only if no held termination or exit closed what it is for, ARM is held, the brain was heard within the age limit, the account hedges, there is a main and no straddle, the request passes, the gate is open and the order filled; then exactly the opposite side, the executable volume and the filled price |
| AdvisorRules.ExitTakesTheStraddle | DEPLOYMENTS/NeoFL_CandleRevisit_v3_86/NeoFL_CandleRevisit_v3_86.mq5:2169-2178 | a held exit takes out the straddle and nothing else, and is lowered |
| AdvisorRules.OrphanExactly | DEPLOYMENTS/NeoFL_CandleRevisit_v3_86/NeoFL_CandleRevisit_v3_86.mq5:2103-2136 | an orphan is due if and only if a straddle and no main of ours is open, the rule is on, and the published basket has reached the published target, or the own buffer, less the tolerance |
| AdvisorRules.OrphanRuleIsTheBrains | DEPLOYMENTS/NeoFL_CandleRevisit_v3_86/NeoFL_CandleRevisit_v3_86.mq5:2103-2136 | with one tolerance on both sides the advisor lets a lone straddle out exactly when the brain raises EXIT for it |
| AdvisorRules.PublishedBasket | DEPLOYMENTS/NeoFL_CandleRevisit_v3_86/NeoFL_MasterBrain_v3_85.mqh:376-388 | what an update publishes of a basket: its worth, the target, the straddle's own result and the time |
| AdvisorRules.RecoveryExactly | DEPLOYMENTS/NeoFL_CandleRevisit_v3_86/NeoFL_CandleRevisit_v3_86.mq5:1249-1305 | the recovery basket is due if and only if it is managed, holds a recovery, at least two tickets, and has made its target together |
| AdvisorRules.OursExactly | DEPLOYMENTS/NeoFL_CandleRevisit_v3_86/NeoFL_CandleRevisit_v3_86.mq5:1259-1280 | what it has made together, leg by leg in money |
| AdvisorRules.TicketsExactly | DEPLOYMENTS/NeoFL_CandleRevisit_v3_86/NeoFL_CandleRevisit_v3_86.mq5:1255-1273 | the tickets taken are ours, all of them when there is room for them, never more than the room |
| AdvisorRules.CapIsShareOfBalance | DEPLOYMENTS/NeoFL_CandleRevisit_v3_86/NeoFL_CandleRevisit_v3_86.mq5:1977-1998 | the straddle cap is the volume on which a move of one costs the configured percentage of the balance, or the fixed cap |
| AdvisorRules.SignalExactly | DEPLOYMENTS/NeoFL_CandleRevisit_v3_86/NeoFL_CandleRevisit_v3_86.mq5:1661-1820 | a signal opens an entry if and only if the mode allows another position, it reaches an open gate and the order is filled; on the signal's side, of its volume, at the filled price |
| AdvisorRules.FirstSignalOpens | DEPLOYMENTS/NeoFL_CandleRevisit_v3_86/NeoFL_CandleRevisit_v3_86.mq5:2208-2243 | the signals open at most one entry, and one if and only if some signal would |
| AdvisorRules.TickEnds | DEPLOYMENTS/NeoFL_CandleRevisit_v3_86/NeoFL_CandleRevisit_v3_86.mq5:2691-2742 | a breach whose close is agreed takes out the main and ends the tick; signals are looked at only on a new bar |
| Executor.ExpertAdvisor.ClosePositions | DEPLOYMENTS/NeoFL_CandleRevisit_v3_86/NeoFL_CandleRevisit_v3_86.mq5:2072-2084 | the broker closing a set of tickets removes exactly those and books their floating result, swap and exit fee into the balance |
| Executor.ExpertAdvisor.ReadObserverNetwork | DEPLOYMENTS/NeoFL_CandleRevisit_v3_86/NeoFL_CandleRevisit_v3_86.mq5:2480-2517 | the held commands and lots become what the bus says, when the network is used |
| Executor.ExpertAdvisor.CloseMainAndStraddle | DEPLOYMENTS/NeoFL_CandleRevisit_v3_86/NeoFL_CandleRevisit_v3_86.mq5:2086-2101 | straddle first, then main; true exactly when everything found was closed |
| Executor.ExpertAdvisor.EnforceBasketGuard | DEPLOYMENTS/NeoFL_CandleRevisit_v3_86/NeoFL_CandleRevisit_v3_86.mq5:2138-2153 | on a raised EMERGENCY or TERMINATE closes both legs, lowering both flags and stopping the tick only if everything closed |
| Executor.ExpertAdvisor.ManageRecoveryBasket | DEPLOYMENTS/NeoFL_CandleRevisit_v3_86/NeoFL_CandleRevisit_v3_86.mq5:1249-1305 | closes the recovery basket exactly when it is due |
| Executor.ExpertAdvisor.ManageOrphanStraddle | DEPLOYMENTS/NeoFL_CandleRevisit_v3_86/NeoFL_CandleRevisit_v3_86.mq5:2103-2136 | closes a straddle without a main exactly when the published basket reaches the published target less the tolerance |
| Executor.ExpertAdvisor.TryOpenStraddle | DEPLOYMENTS/NeoFL_CandleRevisit_v3_86/NeoFL_CandleRevisit_v3_86.mq5:2025-2070 | opens exactly the executable volume, and only on a hedging account without a straddle, past its gates |
| Executor.ExpertAdvisor.ArmFromObserver | DEPLOYMENTS/NeoFL_CandleRevisit_v3_86/NeoFL_CandleRevisit_v3_86.mq5:2180-2204 | with a main and no straddle, validates the brain request and lowers ARM once an order filled |
| Executor.ExpertAdvisor.ExecuteObserverState | DEPLOYMENTS/NeoFL_CandleRevisit_v3_86/NeoFL_CandleRevisit_v3_86.mq5:2155-2206 | terminate before exit before arming, arming only under a live brain; new state given by a function of the old |
| Executor.ExpertAdvisor.TrySignal | DEPLOYMENTS/NeoFL_CandleRevisit_v3_86/NeoFL_CandleRevisit_v3_86.mq5:1661-1820 | one entry attempt; nothing of ours may be open in one-position mode |
| Executor.ExpertAdvisor.TrySignals | DEPLOYMENTS/NeoFL_CandleRevisit_v3_86/NeoFL_CandleRevisit_v3_86.mq5:2208-2243 | the attempts in order up to the first that opens |
| Executor.ExpertAdvisor.FinishTick | DEPLOYMENTS/NeoFL_CandleRevisit_v3_86/NeoFL_CandleRevisit_v3_86.mq5:2691-2742 | the rest of a tick: emergency breach, second pass over the commands, signals on a new bar |
| Executor.ExpertAdvisor.OnTick | DEPLOYMENTS/NeoFL_CandleRevisit_v3_86/NeoFL_CandleRevisit_v3_86.mq5:2658-2742 | the whole tick as a function of the old state and the outside answers |
| MasterBrain.Update | DEPLOYMENTS/NeoFL_CandleRevisit_v3_86/NeoFL_MasterBrain_v3_85.mqh:346-536 | one update of the brain: the bus becomes the update function of the old bus and one look at the terminal |
| MasterBrain.ComputeBasketPnl | DEPLOYMENTS/NeoFL_CandleRevisit_v3_86/NeoFL_MasterBrain_v3_85.mqh:139-172 | the basket profit over the legs that can be selected, storing the balance as baseline exactly when none was stored |
| MasterBrain.ResetCommands | DEPLOYMENTS/NeoFL_CandleRevisit_v3_86/NeoFL_MasterBrain_v3_85.mqh:276-282 | lowers the four commands and touches nothing else |
| MasterBrain.ManageStraddle | DEPLOYMENTS/NeoFL_CandleRevisit_v3_86/NeoFL_MasterBrain_v3_85.mqh:376-438 | the straddle branch: figures, commands, state and grace |
| MasterBrain.ManagePair | DEPLOYMENTS/NeoFL_CandleRevisit_v3_86/NeoFL_MasterBrain_v3_85.mqh:409-433 | the part of it that looks at a live main: exit, hard state and grace countdown, second road to termination |
| MasterBrain.ManageMain | DEPLOYMENTS/NeoFL_CandleRevisit_v3_86/NeoFL_MasterBrain_v3_85.mqh:440-535 | the main-only branch: trigger, adverse bars, sizing and arming |
| MasterBrain.Trigger | DEPLOYMENTS/NeoFL_CandleRevisit_v3_86/NeoFL_MasterBrain_v3_85.mqh:446-457 | the loss percentage of a main, and the state after the two activation triggers |
| MasterBrain.PublishSizing | DEPLOYMENTS/NeoFL_CandleRevisit_v3_86/NeoFL_MasterBrain_v3_85.mqh:466-532 | the published sizing figures, and ARM exactly with a positive volume |
| MasterBrain.CountAdverse | DEPLOYMENTS/NeoFL_CandleRevisit_v3_86/NeoFL_MasterBrain_v3_85.mqh:123-135 | the adverse closed M3 bars among the last two; none when fewer than four can be copied |
| BrainRules.SeenIsWorth | DEPLOYMENTS/NeoFL_CandleRevisit_v3_86/NeoFL_MasterBrain_v3_85.mqh:139-172 | the basket an update sees, in money: the balance gained since a stored baseline, and for each leg that can be selected its volume times the contract value times its move to the bid or ask, its swap, less its commission |
| BrainRules.ArmExactly | DEPLOYMENTS/NeoFL_CandleRevisit_v3_86/NeoFL_MasterBrain_v3_85.mqh:346-536 | after an update ARM is up if and only if no straddle is found and a live main has lost, its recovery has started before or starts now, the last two closed M3 bars both moved against it, and the sizing is positive |
| BrainRules.EmergencyExactly | DEPLOYMENTS/NeoFL_CandleRevisit_v3_86/NeoFL_MasterBrain_v3_85.mqh:399-407 | EMERGENCY is up if and only if a live straddle is open and the basket has lost both the tolerance and the emergency percentage of equity |
| BrainRules.ExitExactly | DEPLOYMENTS/NeoFL_CandleRevisit_v3_86/NeoFL_MasterBrain_v3_85.mqh:389-428 | EXIT is up if and only if a live straddle is open and: alone, the basket has reached its target less the tolerance; or next to a live main, it has and the main loses no more than the recovery percentage of equity, or on a new M3 bar of the hard state the basket is back at the tolerance |
| BrainRules.TerminateExactly | DEPLOYMENTS/NeoFL_CandleRevisit_v3_86/NeoFL_MasterBrain_v3_85.mqh:399-433 | TERMINATE is up if and only if a live straddle is open, and there is an emergency or the last granted bar of the hard state passes with the basket below the tolerance and at its target less the tolerance |
| BrainRules.StateExactly | DEPLOYMENTS/NeoFL_CandleRevisit_v3_86/NeoFL_MasterBrain_v3_85.mqh:361-458 | the risk state left behind: 0 when flat, 3 once the loss of a live main next to a live straddle reaches the hard percentage of equity, 2 once the loss or the distance of a live lone main activates the recovery, else unchanged |
| BrainRules.GraceExactly | DEPLOYMENTS/NeoFL_CandleRevisit_v3_86/NeoFL_MasterBrain_v3_85.mqh:411-436 | the grace left behind: granted anew when the loss turns hard, one less on a new bar of the hard state, never below zero from above |
| BrainRules.RequestEarnsWhatIsOwed | DEPLOYMENTS/NeoFL_CandleRevisit_v3_86/NeoFL_MasterBrain_v3_85.mqh:466-505 | an armed request in money: over the gap the published requirement earns exactly the floating loss, commission, swap and buffer times the safety factor, and the volume asked for is that requirement rounded and capped |
| BrainRules.CoverageIsShare | DEPLOYMENTS/NeoFL_CandleRevisit_v3_86/NeoFL_MasterBrain_v3_85.mqh:489-499 | the published coverage is the share of what is owed that the volume earns over the gap, in percent, at most 9999 |
| BrainRules.TargetEarnsTheProfit | DEPLOYMENTS/NeoFL_CandleRevisit_v3_86/NeoFL_MasterBrain_v3_85.mqh:507-530 | at the published target the volume beyond the main earns the desired profit times the factor, counted from the main's entry; without such a volume or profit the target is the entry |
| BrainRules.NoGapNoRequest | DEPLOYMENTS/NeoFL_CandleRevisit_v3_86/NeoFL_MasterBrain_v3_85.mqh:481-489 | without a gap between entry and price nothing is asked for |
| BrainRules.PublishedPrices | DEPLOYMENTS/NeoFL_CandleRevisit_v3_86/NeoFL_MasterBrain_v3_85.mqh:473-530 | the published prices of an armed request: start, entry, gap, target and its distance |
| BrainRules.BarIsNewOnce | DEPLOYMENTS/NeoFL_CandleRevisit_v3_86/NeoFL_MasterBrain_v3_85.mqh:114-121 | an update remembers the bar it saw, so a bar is new once |
| BrainRules.FlatIsCleared | DEPLOYMENTS/NeoFL_CandleRevisit_v3_86/NeoFL_MasterBrain_v3_85.mqh:364-371 | with nothing of ours open the figures are cleared |
| BrainRules.MainFigures | DEPLOYMENTS/NeoFL_CandleRevisit_v3_86/NeoFL_MasterBrain_v3_85.mqh:446-465 | the published loss of a lone main in percent of equity, its adverse bars and state |
| BrainRules.StraddleFigures | DEPLOYMENTS/NeoFL_CandleRevisit_v3_86/NeoFL_MasterBrain_v3_85.mqh:376-404 | the published baseline, and the emergency loss against which the basket is held |
| MasterBrain.ResidualLegExitsOnBasketOnly | DEPLOYMENTS/NeoFL_CandleRevisit_v3_86/NeoFL_MasterBrain_v3_85.mqh:389-397 | without a main, EXIT is up if and only if a live straddle is open and the whole basket has reached its target |
| MasterBrain.TerminateIsEmergency | DEPLOYMENTS/NeoFL_CandleRevisit_v3_86/NeoFL_MasterBrain_v3_85.mqh:425-432 | with a non-negative profit target TERMINATE and EMERGENCY agree after every update: the second road to termination is closed |
| MasterBrain.UpdateKeepsState | DEPLOYMENTS/NeoFL_CandleRevisit_v3_86/NeoFL_MasterBrain_v3_85.mqh:346-536 | the state stays in {0, 2, 3} and the grace between 0 and its configured value; the state never falls while a position is open and is 0 when flat |
| MasterBrain.UpdateKeepsCommands | DEPLOYMENTS/NeoFL_CandleRevisit_v3_86/NeoFL_MasterBrain_v3_85.mqh:346-536 | arming excludes the three exits, and comes with a cleared baseline |
| MasterBrain.RunKeepsState | DEPLOYMENTS/NeoFL_CandleRevisit_v3_86/NeoFL_MasterBrain_v3_85.mqh:346-536 | the same over every run of updates, from any bus in range |
| MasterBrain.EmptyBusInRange | DEPLOYMENTS/NeoFL_CandleRevisit_v3_86/NeoFL_MasterBrain_v3_85.mqh:361-362 | an empty bus is such a start |
| MasterBrain.BasketIsContinuous | DEPLOYMENTS/NeoFL_CandleRevisit_v3_86/NeoFL_MasterBrain_v3_85.mqh:143-172 | closing the main moves the basket by its commission and exit fee when a baseline is stored, and by all the main contributed when none is; by the costs alone if and only if a baseline is stored or the close books nothing |
| Terminal.ScanMain | DEPLOYMENTS/NeoFL_CandleRevisit_v3_86/NeoFL_MasterBrain_v3_85.mqh:50-63 | the backward scan finds the last listed main |
| Terminal.ScanStraddle | DEPLOYMENTS/NeoFL_CandleRevisit_v3_86/NeoFL_MasterBrain_v3_85.mqh:65-78 | the backward scan finds the last listed straddle |
| Terminal.PositionCommission | DEPLOYMENTS/NeoFL_CandleRevisit_v3_86/NeoFL_MasterBrain_v3_85.mqh:176-192 | the sum of the absolute commissions of the position's deals |
| BasketSolver.SolveBasketPrice | DEPLOYMENTS/NeoFL_CandleRevisit_v3_86/NeoFL_MasterBrain_v3_85.mqh:234-274 | the loop form finds a price exactly when the bracket search does, and returns the rounded bisection result |
| BasketSolver.BasketAffine | DEPLOYMENTS/NeoFL_CandleRevisit_v3_86/NeoFL_MasterBrain_v3_85.mqh:197-230 | the basket formula is affine in the price |
| BasketSolver.LargerStraddleFavours | DEPLOYMENTS/NeoFL_CandleRevisit_v3_86/NeoFL_MasterBrain_v3_85.mqh:261-263 | an opposite straddle larger than the main makes the basket gain in the straddle direction |
| BasketSolver.FavouredMono | DEPLOYMENTS/NeoFL_CandleRevisit_v3_86/NeoFL_MasterBrain_v3_85.mqh:261-271 | and then it is strictly monotone in that direction |
| BasketSolver.BracketIsFirst | DEPLOYMENTS/NeoFL_CandleRevisit_v3_86/NeoFL_MasterBrain_v3_85.mqh:250-259 | the bracket is the first of the sixty probes that meets the target |
| BasketSolver.BracketFoundExactly | DEPLOYMENTS/NeoFL_CandleRevisit_v3_86/NeoFL_MasterBrain_v3_85.mqh:250-259 | a bracket is found if and only if the last probe, 1.35^59 steps out, meets the target |
| BasketSolver.RootWithinReach | DEPLOYMENTS/NeoFL_CandleRevisit_v3_86/NeoFL_MasterBrain_v3_85.mqh:250-259 | a bracket is found whenever the exact root lies within that reach |
| BasketSolver.BisectBounds | DEPLOYMENTS/NeoFL_CandleRevisit_v3_86/NeoFL_MasterBrain_v3_85.mqh:264-271 | the upper end meets the target at every iteration, and the answer is within the starting width over 2^n of the root |
| BasketSolver.BracketWidth | DEPLOYMENTS/NeoFL_CandleRevisit_v3_86/NeoFL_MasterBrain_v3_85.mqh:250-264 | the starting width is at most 1.35 times the larger of one step and the distance to the root |
| BasketSolver.UnitExactly | DEPLOYMENTS/NeoFL_CandleRevisit_v3_86/NeoFL_MasterBrain_v3_85.mqh:244-249 | the step is the larger of the point and a quarter of the ATR, in the asked direction |
| BasketSolver.SolutionIsAccurate | DEPLOYMENTS/NeoFL_CandleRevisit_v3_86/NeoFL_MasterBrain_v3_85.mqh:234-274 | before rounding the answer meets the target, and from a start below it lies within 1.35 * max(step, distance to the root) / 2^50 of the exact root |
| BasketSolver.SolvesTheBasket | DEPLOYMENTS/NeoFL_CandleRevisit_v3_86/NeoFL_MasterBrain_v3_85.mqh:197-274 | for a main and a larger opposite straddle, with the unit step the brain uses, from any start: a solution is found whenever the exact price lies within 1.35^59 steps; it meets the target; and from a start below the target it is as close to the exact price as the bisection promises |
| BasketSolver.FormulasDifferBySpread | DEPLOYMENTS/NeoFL_CandleRevisit_v3_86/NeoFL_MasterBrain_v3_85.mqh:139-230 | the two basket formulas differ, with both legs open, by exactly the straddle volume times the spread; they agree if and only if there is no spread |
| BasketSolver.FormulasAgreeOnLoneStraddle | DEPLOYMENTS/NeoFL_CandleRevisit_v3_86/NeoFL_MasterBrain_v3_85.mqh:139-230 | for a lone straddle they agree at its closing price |
| BrainSizing.RequirementExceedsMain | DEPLOYMENTS/NeoFL_CandleRevisit_v3_86/NeoFL_MasterBrain_v3_85.mqh:477-489 | the required volume times the gap is the required money; it exceeds the main by at least the costs and buffer over the gap |
| BrainSizing.BrainRequestCovers | DEPLOYMENTS/NeoFL_CandleRevisit_v3_86/NeoFL_MasterBrain_v3_85.mqh:98-112 | with a step of half hundredths of a lot, an uncapped request covers the required money up to the slack, is never below the main, and is above it if and only if the requirement clears the main by more than the slack or the main has more than two decimals |
| BrainSizing.BrainRequestIsExecuted | DEPLOYMENTS/NeoFL_CandleRevisit_v3_86/NeoFL_CandleRevisit_v3_86.mq5:1899-2023 | with such a step, when costs and buffer exceed the slack, the request is above the main, passes the executor guard unchanged unless the cap refuses it, and is what is opened unless re-capped |
| BrainSizing.RoundUpUncapped | DEPLOYMENTS/NeoFL_CandleRevisit_v3_86/NeoFL_MasterBrain_v3_85.mqh:98-112 | an uncapped requirement goes to the grid point that reaches it up to the slack, then to two decimals, or to 0 below the minimum; the second rounding keeps it covered if and only if what is left of its hundredths is nothing or at least a half |
| BrainSizing.RoundUpCapped | DEPLOYMENTS/NeoFL_CandleRevisit_v3_86/NeoFL_MasterBrain_v3_85.mqh:98-112 | a requirement the caps cut down is sized at the lower of the broker maximum and the larger of the broker minimum and the configured cap, or refused when that maximum is below the minimum |
| BrainSizing.RoundUpRepairs | DEPLOYMENTS/NeoFL_CandleRevisit_v3_86/NeoFL_MasterBrain_v3_85.mqh:98-112 | nothing is asked for without a requirement, and broker facts that are not positive count as 0.01, 100 and the minimum |
| BrainSizing.RoundingCoversExactly | DEPLOYMENTS/NeoFL_CandleRevisit_v3_86/NeoFL_MasterBrain_v3_85.mqh:98-112 | rounding a volume to two decimals does not go below it if and only if its fraction of a hundredth is 0 or at least a half |
| BrainSizing.HalfHundredthsCover | DEPLOYMENTS/NeoFL_CandleRevisit_v3_86/NeoFL_MasterBrain_v3_85.mqh:98-112 | when 200 steps add up to a whole number of lots no grid volume is rounded below itself |
| BrainSizing.LosesExactly | DEPLOYMENTS/NeoFL_CandleRevisit_v3_86/NeoFL_MasterBrain_v3_85.mqh:98-112 | an uncapped request of n whole steps is rounded below itself if and only if n steps leave more than nothing and less than a half of a hundredth |
| BrainSizing.OtherStepsUndercover | DEPLOYMENTS/NeoFL_CandleRevisit_v3_86/NeoFL_MasterBrain_v3_85.mqh:98-112 | with any other step, from every count of steps on there is a request of at least the minimum that is rounded below itself unless the cap cuts it first |
| BrainSizing.FirstLossLoses | DEPLOYMENTS/NeoFL_CandleRevisit_v3_86/NeoFL_MasterBrain_v3_85.mqh:98-112 | the smallest such count, from the fraction of a hundredth one step leaves |
| BrainSizing.LossIsVolumeTimesGap | DEPLOYMENTS/NeoFL_CandleRevisit_v3_86/NeoFL_MasterBrain_v3_85.mqh:484-488 | under linear pricing the main loss is its volume times the gap money of one lot |
| BrainSizing.ValidatedVolume | DEPLOYMENTS/NeoFL_CandleRevisit_v3_86/NeoFL_CandleRevisit_v3_86.mq5:1899-1956 | an accepted volume is a whole number of guard steps (the larger of the step and a hundredth), above the main, within the cap, and at least the request up to the slack |
| BrainSizing.ValidatedIsHundredths | DEPLOYMENTS/NeoFL_CandleRevisit_v3_86/NeoFL_CandleRevisit_v3_86.mq5:1899-1956 | with any step whatever an accepted volume has two decimals, is above the main and within the cap |
| BrainSizing.RefusalThreshold | DEPLOYMENTS/NeoFL_CandleRevisit_v3_86/NeoFL_CandleRevisit_v3_86.mq5:1899-1956 | without a cap the guard refuses if and only if the request is within the slack of the main |
| BrainSizing.ValidateLatticeRequest | DEPLOYMENTS/NeoFL_CandleRevisit_v3_86/NeoFL_CandleRevisit_v3_86.mq5:1899-1956 | a grid request is returned unchanged or refused for the cap or the main |
| BrainSizing.ExecutesUncapped | DEPLOYMENTS/NeoFL_CandleRevisit_v3_86/NeoFL_CandleRevisit_v3_86.mq5:2000-2023 | a grid volume within the caps is executed unchanged |
| BrainSizing.CapExactly | DEPLOYMENTS/NeoFL_CandleRevisit_v3_86/NeoFL_CandleRevisit_v3_86.mq5:2000-2018 | the execution cap admits a volume if and only if the broker, the configuration and, when asked, the margin budget do |
| BrainSizing.ValidatedExecutes | DEPLOYMENTS/NeoFL_CandleRevisit_v3_86/NeoFL_CandleRevisit_v3_86.mq5:2000-2023 | a validated volume within the execution cap is opened unchanged, when minimum and guard step are whole numbers of steps |
| BrainSizing.RecappedAboveMain | DEPLOYMENTS/NeoFL_CandleRevisit_v3_86/NeoFL_CandleRevisit_v3_86.mq5:2000-2023 | the volume sent for a validated request exceeds a main of two decimals if and only if the execution cap is at least the minimum and, as carried to the grid, half a hundredth above the main; for a decimal step if and only if the cap itself is |
| BrainSizing.RecappingCanUndercutTheMain | DEPLOYMENTS/NeoFL_CandleRevisit_v3_86/NeoFL_CandleRevisit_v3_86.mq5:2000-2023 | an instance of the failing condition: validated 0.05 over a main of 0.04, sent as 0.03 |
| BrainSizing.FineStepsAreUndercovered | DEPLOYMENTS/NeoFL_CandleRevisit_v3_86/NeoFL_MasterBrain_v3_85.mqh:98-112 | an instance: a requirement of 0.014 with a step of 0.001 is rounded to 0.01 |
| Straddle.ApprovedVolume | python/neofl_core/straddle.py:122-206 | an approved volume is on the broker grid, above the main, within the maximum, at most the ceiling slack below the exact need, and below the need plus one step unless it is the minimum |
| Straddle.ApprovedDistance | python/neofl_core/straddle.py:186-190 | the reported distance times the excess volume is exactly the gap loss, and exceeds the requested distance only by what the slack costs |
| Straddle.RefusedOnlyForMaximum | python/neofl_core/straddle.py:170-184 | a need clear of the main by more than the slack is approved if and only if its rounded volume is within the maximum |
| Straddle.OutcomeExactly | python/neofl_core/straddle.py:122-206 | for every request: blocked exactly for its four guards; else approved if and only if the rounded need exceeds the main and not the maximum; a refusal carries the gap alone, an approval the zero price and the covered share |
| Straddle.ExactSolvesEquation | python/neofl_core/straddle.py:73-90 | both modes solve the same equation: excess over the main times the distance is the gap loss |
| Straddle.CeilToStepBounds | python/neofl_core/straddle.py:93-99 | the rounded volume is a grid point, at least the need less the slack and below it plus one step |
| Straddle.CeilToStepMono | python/neofl_core/straddle.py:93-99 | rounding up is monotone |
| Straddle.FixedDistanceGrowsWithGap | python/neofl_core/straddle.py:109-111 | FIXED_DISTANCE: a wider gap never sizes smaller |
| Straddle.RatioIgnoresGap | python/neofl_core/straddle.py:105-107 | RATIO: outcome and volume are the same at every positive gap |
| Straddle.BucketPLIsTotal | CORE/NeoFL_Straddle/NeoFL_Straddle.mqh:193-201 | the two-leg formula is the bucket engine total |
| Straddle.BucketConfirmsZeroPrice | python/neofl_core/straddle.py:186-192 | at the reported zero price the bucket total is exactly 0, and the bucket engine returns that same price unless the slope is below its threshold |
| Straddle.NeoFLStrCeilToStep | CORE/NeoFL_Straddle/NeoFL_Straddle.mqh:65-73 | the search loop and rounding of the mirror |
| Straddle.NeoFLStrSize | CORE/NeoFL_Straddle/NeoFL_Straddle.mqh:92-190 | the mirror fills its result step by step to the specified sizing |
| Straddle.CeilMirrorsAgree | CORE/NeoFL_Straddle/NeoFL_Straddle.mqh:65-73 | both languages round alike on a decimal grid, although their roundings of ties differ |
| Straddle.SizersAgree | CORE/NeoFL_Straddle/NeoFL_Straddle.mqh:92-190 | the mirror returns what the reference returns for the lower of the two maxima, if and only if the ratio is positive, the mode is RATIO, or the gap, the main volume or the recovery distance is not positive |
| Straddle.MirrorIgnoresTheRatio | CORE/NeoFL_Straddle/NeoFL_Straddle.mqh:92-190 | in FIXED_DISTANCE the mirror is the reference at any positive ratio |
| Straddle.OnlyTheReferenceBlocks | CORE/NeoFL_Straddle/NeoFL_Straddle.mqh:92-190 | an instance of the failing condition: a FIXED_DISTANCE request with ratio 0 is blocked by the reference and approved at 0.02 by the mirror |
| Bucket.FloatingAffine | python/neofl_core/bucket.py:104-109 | for any number of positions the floating result is one affine function of price |
| Bucket.TotalAffine | python/neofl_core/bucket.py:107-109 | the total moves by slope times price move |
| Bucket.ZeroPriceIsTheOnlyRoot | python/neofl_core/bucket.py:120-149 | a returned zero price is a root of the total, and the only one |
| Bucket.NoZeroPriceMeansFrozen | python/neofl_core/bucket.py:141-142 | without one the total moves by less than 1e-12 per unit of price |
| Bucket.NeutralReadinessIsConstant | python/neofl_core/bucket.py:172-184 | a bucket of zero slope is ready at every price or at none |
| Bucket.ReadyOnFavourableSide | python/neofl_core/bucket.py:172-184 | with a zero price a two-legged bucket is ready if and only if the price is on its favourable side |
| Bucket.ReadinessIsUpwardClosed | python/neofl_core/bucket.py:172-184 | once ready, ready at every price further in the favourable direction |
| Bucket.NeutralStateIsReadiness | python/neofl_core/bucket.py:157-170 | the state is BASKET_NEUTRAL if and only if the handover is due |
| Bucket.StateExactly | python/neofl_core/bucket.py:157-170 | the state in every case, by the legs held and the sign of the total |
| Risk.Size | python/neofl_core/risk.py:112-190 | the cascade of reassignments computes the specified size |
| Risk.VolumeDigits | python/neofl_core/risk.py:86-90 | the loop finds the first decimal count that reproduces the step |
| Risk.ApprovedShape | python/neofl_core/risk.py:112-190 | without the override a size is approved if and only if the request is evaluable, within limits, and its capped volume reaches the minimum |
| Risk.ApprovedIsLargestFit | python/neofl_core/risk.py:112-190 | an approved volume is a grid point of at least the minimum that respects every limit up to the floor slack, and no larger grid point does |
| Risk.FitsIsCap | python/neofl_core/risk.py:138-164 | all limits together, the budget in the broker's own tick facts, are one bound: the capped volume plus the slack |
| Risk.ApprovedRiskWithinBudget | python/neofl_core/risk.py:146-151 | in the percent models what the volume loses over the stop, in tick values, stays within the percentage of the account but for what 1e-9 of a step loses; and the reported risk is that loss |
| Risk.StopCostsTicks | python/neofl_core/risk.py:106-109 | money at risk times the tick size is volume times stop times tick value |
| Risk.TicksCostTheirValue | python/neofl_core/risk.py:106-109 | a stop of k ticks loses k tick values a lot |
| Risk.NothingAtRisk | python/neofl_core/risk.py:106-109 | without a volume or a stop nothing is at risk |
| Risk.OutcomeExactly | python/neofl_core/risk.py:112-190 | for every request: blocked if and only if its facts are unreadable, or the account is empty and the position count allows another; approved if and only if it is readable and funded, neither limit is used up, and the broker minimum fits or may be taken regardless |
| Risk.ApprovalExactly | python/neofl_core/risk.py:112-190 | for every approved request, the override included: the largest grid point that fits up to the slack, or the broker minimum when not even that fits; its loss over the stop; and that loss in percent of equity |
| Risk.SizeGrowsWithAccount | python/neofl_core/risk.py:112-190 | a larger account never sizes smaller |
| Risk.SizeShrinksWithStop | python/neofl_core/risk.py:112-190 | a wider stop never sizes larger |
| Risk.FloorValue | python/neofl_core/risk.py:93-103 | flooring picks the largest grid point within the volume, up to the slack, in both languages |
| Risk.NeoFLRiskOpenExposure | CORE/NeoFL_Risk/NeoFL_Risk.mqh:186-198 | the backward scan sums exactly the live volumes of the symbol and magic number |
| Risk.NeoFLRiskOpenCount | CORE/NeoFL_Risk/NeoFL_Risk.mqh:200-212 | and counts them |
| Risk.OpenExactly | CORE/NeoFL_Risk/NeoFL_Risk.mqh:186-212 | a listed position counts, with its volume, if and only if it can be selected and is of the symbol and magic number, wherever it stands |
| Risk.NeoFLRiskSize | CORE/NeoFL_Risk/NeoFL_Risk.mqh:222-375 | the mirror computes the same sizing on the counted positions; an unknown symbol is blocked |
| Risk.SizersAgree | CORE/NeoFL_Risk/NeoFL_Risk.mqh:222-375 | on a decimal grid both languages agree on outcome, volume and risk |
| Numeric.DigitSearchesAgree | CORE/NeoFL_Risk/NeoFL_Risk.mqh:151-157 | the two digit searches answer alike on every step although their roundings differ |
| Telemetry.NeoFLTelEsc | CORE/NeoFL_Logger/NeoFL_Telemetry.mqh:40-56 | the appending loop escapes character by character |
| Telemetry.EscHasNoControl | CORE/NeoFL_Logger/NeoFL_Telemetry.mqh:40-56 | an escaped string holds no raw control character |
| Telemetry.UnquoteEsc | CORE/NeoFL_Logger/NeoFL_Telemetry.mqh:40-58 | reading it back by section 7 of RFC 8259 returns the text, other control characters turned to spaces, and stops at the true closing quote |
| Telemetry.LineRoundTrip | CORE/NeoFL_Logger/NeoFL_Telemetry.mqh:72-94 | an event line read as a flat object gives the written fields in order |
| Telemetry.LineShape | CORE/NeoFL_Logger/NeoFL_Telemetry.mqh:72-94 | an event line holds no line break and is delimited by its braces |
| Telemetry.LineInFull | CORE/NeoFL_Logger/NeoFL_Telemetry.mqh:72-94 | the event line written out: seven fields by name, the texts quoted and escaped |
| Bridge.EventLog.NeoFLTelEvent | CORE/NeoFL_Logger/NeoFL_Telemetry.mqh:72-94 | appends exactly one line with its terminator, or nothing when the file cannot be opened |
| Bridge.Bridge.PollEvents | python/neofl_gateway/bridge.py:61-110 | one poll stores the records of the complete lines past the cursor, in order, and moves the cursor behind the last of them, unless the position cannot be stored |
| Bridge.ReadsExpected | python/neofl_gateway/bridge.py:83-107 | of a log cut anywhere the reader takes exactly the whole lines before the cut |
| Bridge.LineBecomesRecord | python/neofl_gateway/bridge.py:97-104 | an event line becomes exactly one record |
| Delivery.DeliveredInOrder | python/neofl_gateway/bridge.py:61-110 | over every run of growth in arbitrary pieces, polls, restarts and crashes, without rotation: the cursor is at a line start, every event before it is stored, in order; and each exactly once if and only if no poll saw the log end in a bare CR and no crash came after storing |
| Delivery.RunDelivers | python/neofl_gateway/bridge.py:61-110 | the store holds exactly one extra record for each one stored without advancing the cursor |
| Delivery.StepDelivers | python/neofl_gateway/bridge.py:61-110 | each step keeps that, and a poll that keeps its position leaves no whole line behind |
| Delivery.PollReachesLastLine | python/neofl_gateway/bridge.py:88-109 | after such a poll the cursor is the end of the last complete line |
| Delivery.BareExactly | python/neofl_gateway/bridge.py:92-96 | the position cannot be stored if and only if the visible log ends in a bare CR |
| Delivery.CutTerminatorDuplicates | python/neofl_gateway/bridge.py:61-110 | one event polled once between its CR and LF is stored twice |
| Wickless.RunPass | SCRIPTS/RESEARCH/NeoFL_WicklessResearch.mq5:116-194 | the nested loops compute the result of the state machine over the bars, oldest first |
| Wickless.VisitLevel | SCRIPTS/RESEARCH/NeoFL_WicklessResearch.mq5:154-191 | the inner loop body, for one level and one bar |
| Wickless.MeasureOutcome | SCRIPTS/RESEARCH/NeoFL_WicklessResearch.mq5:89-102 | the excursions over the forward window |
| Wickless.BestIsMaximum | SCRIPTS/RESEARCH/NeoFL_WicklessResearch.mq5:89-102 | the favourable excursion is the maximum over the window, or 0 |
| Wickless.NoLookahead | SCRIPTS/RESEARCH/NeoFL_WicklessResearch.mq5:129-192 | two histories that agree from bar i on toward the past have gone through the same levels, counts and breaks: nothing newer is read |
| Wickless.Mirror | SCRIPTS/RESEARCH/NeoFL_WicklessResearch.mq5:89-102 | the adverse excursion of one direction is the favourable one of the other |
| Wickless.TotalsMirror | SCRIPTS/RESEARCH/NeoFL_WicklessResearch.mq5:182-190 | so are the totals |
| Wickless.StateIsValid | SCRIPTS/RESEARCH/NeoFL_WicklessResearch.mq5:129-192 | after every bar the counters match the levels and every break is of a revisited, consumed level within age |
| Wickless.PassIsSound | SCRIPTS/RESEARCH/NeoFL_WicklessResearch.mq5:116-194 | the control is the exact mirror; graded = broke <= revisited <= wickless; no level breaks twice, and none past its age limit |
| WicklessRules.PassExactly | SCRIPTS/RESEARCH/NeoFL_WicklessResearch.mq5:129-192 | after every bar of every pass, in prices: the levels are exactly the clean bars, each at its mark and direction; a level is revisited if and only if a later bar within its age reached into its zone; and the breaks are exactly the first bars that close beyond the zone in the level's direction without touching it, once it has been revisited |
| WicklessRules.WicklessIsClean | SCRIPTS/RESEARCH/NeoFL_WicklessResearch.mq5:129-150 | a bar makes a level if and only if its wicks are within their share of its range and its body at least its own; the level stands at the open or, on the clean-end basis, at the end with the shorter wick |
| WicklessRules.CountsExactly | SCRIPTS/RESEARCH/NeoFL_WicklessResearch.mq5:116-194 | the counters are the numbers of those levels, revisited levels and breaks |
| WicklessRules.MfeExactly | SCRIPTS/RESEARCH/NeoFL_WicklessResearch.mq5:89-102 | the favourable excursion is the farthest move of a bar within the forward window from the entry's close |
| WicklessRules.WinsExactly | SCRIPTS/RESEARCH/NeoFL_WicklessResearch.mq5:178-190 | the wins are the breaks for which a bar of the window moves the goal |
| WicklessRules.PassInNumbers | SCRIPTS/RESEARCH/NeoFL_WicklessResearch.mq5:116-194 | one pass over six bars, in numbers |
| Cognition.PlanIsOrdered | python/neofl_gateway/agentic.py:126-143 | sorted by priority, a plan runs the risk gate first, then discovery, context and critic, and the specialists last, in the order named |
| Cognition.RiskBrainAlwaysCalled | python/neofl_gateway/agentic.py:130-134 | every plan calls the risk brain |
| Soul.CreatePlan | python/neofl_gateway/agentic.py:126-143 | builds that plan step by step |
| Soul.CognitiveSoul.RunPendingTasks | python/neofl_gateway/soul.py:123-131 | runs every pending task in order and marks it done |
| Soul.CognitiveSoul.ConsumeResult | python/neofl_gateway/agentic.py:179-195 | appends observations and hypotheses, and contradictions not yet held |
| Soul.CognitiveSoul.ReplanTasks | python/neofl_gateway/soul.py:91-96 | keeps unfinished tasks but drops specialists, adds one re-observation and one re-critique, and clears the contradictions |
| Soul.CognitiveSoul.Synthesise | python/neofl_gateway/agentic.py:214-246 | takes the reasoner's hypotheses, new contradictions, missing evidence and bounded verdict |
| Soul.CognitiveSoul.RunCycles | python/neofl_gateway/soul.py:120-144 | the bounded loop with its two exits |
| Soul.CognitiveSoul.Run | python/neofl_gateway/soul.py:117-159 | the whole run, and the episode it remembers |
| Soul.CognitiveSoul.Remember | python/neofl_gateway/soul.py:48-51 | appends and trims from the front, for positive, zero and negative limits |
| Soul.MemoryKeepsTheLatest | python/neofl_gateway/soul.py:48-51 | with a positive limit the memory is, after any run of episodes, exactly the last that many |
| SoulRuns.RunsFailClosed | python/neofl_gateway/soul.py:117-159 | for every specialist list, supplied evidence, starting bound and reasoner answer: one cycle for a lone specialist and the whole bound otherwise; observations only appended to, by exactly the gate, the instrument and one copy of the context a cycle; the critic's objection still stands; the verdict is WAIT |
| SoulRuns.CyclesOfAPlan | python/neofl_gateway/soul.py:120-144 | the exact state the loop ends in |
| SoulRuns.FirstCycle | python/neofl_gateway/agentic.py:276-305 | the first cycle: the exact observations, one thesis a specialist, all of one confidence, and one contradiction |
| SoulRuns.LaterCycles | python/neofl_gateway/soul.py:120-144 | with two specialists or more every later cycle finds the theses too close again |
| SoulRuns.ChallengeExactly | python/neofl_gateway/soul.py:76-87 | after any cycle of a plan the critic raises exactly one issue if two or more specialists spoke, and none otherwise |
| SoulRuns.PendingIsFold | python/neofl_gateway/soul.py:123-131 | running the pending tasks is a fold of their effects over the state |
| SoulRuns.PlansArePlanned | python/neofl_gateway/agentic.py:126-143 | every plan is such a start, with whatever observations are appended before the run |
| SoulRules.NamesExactly | python/neofl_gateway/agentic.py:126-134 | a specialist is called if and only if one of its words occurs in the request, or it trades and the request is to analyse or trade a symbol, or it is the risk brain |
| SoulRules.PlanExactly | python/neofl_gateway/agentic.py:126-147 | a fresh plan: nothing observed or decided, every task pending at its priority |
| SoulRules.ObservedFirst | python/neofl_gateway/agentic.py:276-305 | the observations of a first cycle written out; the gate fails closed if and only if some evidence held is bad or unknown |
| SoulRules.UsableFilter | python/neofl_gateway/agentic.py:291-296 | usable evidence is exactly that of the four usable qualities, in order |
| SoulRules.SuppliedFilter | python/neofl_gateway/agentic.py:282-289 | supplied evidence is exactly the entries that are dictionaries, in order |
| SoulRules.OpenFilter | python/neofl_gateway/soul.py:91-96 | a replan keeps exactly what is open and no specialist's, in order |
| SoulRules.SpecialistFilter | python/neofl_gateway/soul.py:146-159 | the specialists of an episode are exactly those of its tasks |
| SoulRules.ConfidenceExactly | python/neofl_gateway/agentic.py:291-299 | the confidence of a thesis is the mean confidence of the usable evidence, kept between 0 and 0.95 |
| SoulRules.SumExactly | python/neofl_gateway/agentic.py:291-299 | the sum in it, one observation at a time |
| SoulRules.CloseExactly | python/neofl_gateway/soul.py:83-86 | the leaders are too close if and only if two hypotheses are within a tenth of every other |
| SoulRules.ObjectionsExactly | python/neofl_gateway/soul.py:76-87 | what the critic objects to, in every state |
| SoulRules.DecideExactly | python/neofl_gateway/agentic.py:248-275 | the verdict in every state: none without an observation, wait unless nothing is bad, unknown or contradicted, then the reasoner's, and without it a recommendation if and only if some hypothesis is at least 0.60 sure |
| SoulRules.ReplanExactly | python/neofl_gateway/soul.py:91-96 | what a replan learns, leaves to do and clears |
| SoulRules.SynthesisExactly | python/neofl_gateway/agentic.py:214-246 | what the reasoner's answer adds, and which of its verdicts are taken |
| SoulRules.TrimmedExactly | python/neofl_gateway/soul.py:48-51 | what the memory keeps of a list under every limit |
| SoulRules.EpisodeExactly | python/neofl_gateway/soul.py:146-158 | the episode of a run, field by field |
| Body.StrippedEmpty | python/neofl_gateway/agent.py:49-51 | a text is refused as empty exactly when it is all space |
| Characters.StripExactly | python/neofl_gateway/agent.py:48-51 | stripping takes white space off both ends, all of it and nothing else |
| Body.EveryAnswerWaits | python/neofl_gateway/agent.py:48-81 | every request with a text is answered by WAIT after one or three cycles, one exactly with one specialist; its supplied observations come first; a contradiction stands |
| Body.LowerExactly | python/neofl_gateway/agentic.py:129 | the request is read in lower case, letter by letter |
| Body.EvidenceExactly | python/neofl_gateway/agent.py:48-60 | supplied evidence is used as it is; only without any the provider is asked, and only about a named symbol |
| Body.DecisionExactly | python/neofl_gateway/body.py:95-115 | how each verdict is recorded |
| Body.ProposalExactly | python/neofl_gateway/body.py:62-89 | a proposal is queued if and only if the verdict is to proceed or recommend and its order can be built; and when it is authorised |
| Body.AdmitsExactly | python/neofl_gateway/body.py:31-44 | an external event is turned away if and only if the Soul waits or does not decide and its quality is not usable |
| Body.OwnRequestsExactly | python/neofl_gateway/body.py:31-60 | the requests the Body makes on its own, field by field |
| Body.NeoFLBody.Handle | python/neofl_gateway/agent.py:48-81 | the gateway: evidence provider only without supplied observations and with a symbol, plan, run, response |
| Body.NeoFLBody.Think | python/neofl_gateway/body.py:24-29 | an answered request is stored once with a declined decision, a refused one not at all, and the queue is untouched |
| Body.NeoFLBody.ReceiveExternalEvent | python/neofl_gateway/body.py:31-44 | an external event is admitted if and only if its quality is one of the four usable names |
| Body.NeoFLBody.Authorise | python/neofl_gateway/body.py:62-89 | queues an approved, well-formed intent and nothing else |
| Body.NeoFLBody.ProposeAction | python/neofl_gateway/body.py:46-90 | no proposal is ever authorised or queued |
| Includes.PiecesSpellTheText | tools/mql5_package.sh:39 | splitting a text at its quoted includes loses nothing |
| Includes.PartsExactly | tools/mql5_package.sh:52 | the components between slashes, without empty ones and single dots |
| Includes.MatchFinds | tools/mql5_package.sh:39 | an include written out is found again whatever follows it |
| Includes.NoNewMatch | tools/mql5_package.sh:64-65 | rewriting makes no include where there was none |
| Includes.FlattenKeepsIncludes | tools/mql5_package.sh:64-65 | the rewritten text splits into the same pieces, each include replaced by its bare name |
| Includes.RewrittenIncludes | tools/mql5_package.sh:64-65 | so it includes exactly the bare names of what the text included, in order |
| Packager.FindClash | tools/mql5_package.sh:57-58 | finds a different file of the same name among those seen and queued if and only if there is one |
| Packager.ResolveExactly | tools/mql5_package.sh:52 | an include is walked from the directory of its file, or from the root |
| Packager.WalkExactly | tools/mql5_package.sh:52 | components are walked one by one, ".." leaving the last |
| Packager.Enqueue | tools/mql5_package.sh:51-62 | queues what a file includes, or says which include is missing or collides |
| Packager.Package | tools/mql5_package.sh:41-67 | terminates on every finite include graph, cycles included; succeeds if and only if every reachable file can be read and no two share a name; the folder then holds exactly the reachable files, each once, rewritten; a failure names a reachable cause |
| Packager.ExplainedIsNotPackable | tools/mql5_package.sh:53-61 | a missing include or two reachable files of one name make the graph unpackable |
| Packager.ClosedHoldsReachable | tools/mql5_package.sh:41-62 | a set that holds the entry and all its files' includes holds every reachable file |
| Packager.PackageResolves | tools/mql5_package.sh:64-66 | every rewritten include names a packaged file, the copy of the very file the source included, if and only if it does not end in ".." |
| Packager.StepBackNamesNothing | tools/mql5_package.sh:64-66 | an instance of the failing condition: a tree that packages, whose rewritten entry includes ".." and so names no packaged file |
| Calendar.YearsJoin | python/neofl_core/sessions_global.py:40-52 | the ordinals of consecutive years join up, leap years included |
| Calendar.MonthsExactly | python/neofl_core/sessions_global.py:40-52 | the lengths of the months, their sum, and one weekday that fixes all others |
| Calendar.CountByWeeks | python/neofl_core/sessions_global.py:40-44 | counting weekdays day by day agrees with the closed form |
| Calendar.NthWeekdayIsNth | python/neofl_core/sessions_global.py:40-44 | the day returned falls on the weekday and is the n-th of its month to do so |
| Calendar.LastWeekdayIsLast | python/neofl_core/sessions_global.py:47-52 | the day returned falls on the weekday, in the month, and no later day does |
| Calendar.SwitchingDays | python/neofl_core/sessions_global.py:62-73 | the switching days of a year relative to each other |
| Calendar.EuInsideUs | python/neofl_core/sessions_global.py:62-73 | in every year European daylight time lies strictly inside the US one; the US is alone for two or three weeks less six hours in March and a week and five hours in autumn |
| Calendar.EuImpliesUs | python/neofl_core/sessions_global.py:55-83 | at every instant European daylight time implies US daylight time |
| Sessions.SessionWindows | python/neofl_core/sessions_global.py:165-186 | each session in GMT by the daylight time in force |
| Sessions.VenuesInGmt | python/neofl_core/sessions_global.py:87-143 | when each of the six venues is open in GMT, by the daylight time in force, lunch breaks and the day before included |
| Sessions.WeekendExactly | python/neofl_core/sessions_global.py:204-229 | the weekend is the time of the week up to Sunday 22:00 and from Friday 22:00 GMT on |
| Sessions.LondonAheadOfNewYork | python/neofl_core/sessions_global.py:101-105 | London is four or five hours ahead of New York, four exactly while only the US has switched |
| Sessions.GoldDayIsOneSpan | python/neofl_core/sessions_global.py:204-229 | no session is open exactly from the New York close to 23:00 GMT, so outside the weekend the gold day is one span |
| Sessions.OverlapsExactly | python/neofl_core/sessions_global.py:189-201 | Asia and New York never overlap; London and New York do for four hours, or five exactly while only the US has switched; London and Asia for the hour before 08:00 GMT in European summer |
| Sessions.NewYorkAgrees | python/neofl_core/session.py:23-55 | the NEWYORK venue and the US session of session.py open and close together |
| GlobalSessions.NeoFLGS_NthWeekday | CORE/NeoFL_Session/NeoFL_GlobalSessions.mqh:61-67 | agrees with the reference on the n-th weekday |
| GlobalSessions.NeoFLGS_DaysInMonth | CORE/NeoFL_Session/NeoFL_GlobalSessions.mqh:70-76 | month lengths, leap years included |
| GlobalSessions.NeoFLGS_LastWeekday | CORE/NeoFL_Session/NeoFL_GlobalSessions.mqh:79-86 | agrees with the reference on the last weekday |
| GlobalSessions.NeoFLGS_IsDst | CORE/NeoFL_Session/NeoFL_GlobalSessions.mqh:99-132 | comparing seconds since 1970 agrees with the reference under every rule |
| GlobalSessions.NeoFLGS_MarketSpec | CORE/NeoFL_Session/NeoFL_GlobalSessions.mqh:135-166 | the venue table in minutes is the reference table |
| GlobalSessions.NeoFLGS_IsMarketOpen | CORE/NeoFL_Session/NeoFL_GlobalSessions.mqh:195-220 | testing minutes agrees with the reference at every second, all six venues, lunch breaks included |
| GlobalSessions.NeoFLGS_IsSessionOpen | CORE/NeoFL_Session/NeoFL_GlobalSessions.mqh:241-252 | and for the three sessions |
| GlobalSessions.NeoFLGS_ActiveSessions | CORE/NeoFL_Session/NeoFL_GlobalSessions.mqh:262-272 | the loop joins the names of exactly the reference's open sessions |
| GlobalSessions.NeoFLGS_ActiveSessionCount | CORE/NeoFL_Session/NeoFL_GlobalSessions.mqh:274-281 | and counts them |
| GlobalSessions.NeoFLGS_IsWeekendGmt | CORE/NeoFL_Session/NeoFL_GlobalSessions.mqh:296-303 | agrees on the weekend |
| GlobalSessions.NeoFLGS_GoldDayActive | CORE/NeoFL_Session/NeoFL_GlobalSessions.mqh:313-318 | agrees on the gold day |
| Webhooks.Webhook.CheckReplay | python/neofl_gateway/webhooks.py:71-77 | refuses exactly an id in the bounded queue, else appends it dropping the oldest; the set stays the contents of the queue, without duplicates |
| Webhooks.Webhook.Receive | python/neofl_gateway/webhooks.py:87-164 | the verdict and the new window as functions of the old window and the delivery |
| Webhooks.WindowIsLatestPassed | python/neofl_gateway/webhooks.py:71-77 | over every run of receives the window is exactly the last 4096 ids that passed the replay check |
| Webhooks.ReceivedExactly | python/neofl_gateway/webhooks.py:87-164 | refused as replayed if and only if the id is among them, whether or not those payloads were later refused; accepted if and only if also fresh (a NaN timestamp counts as fresh) and tradable |
| Webhooks.RepeatsAreFarApart | python/neofl_gateway/webhooks.py:35 | an id passes twice only with at least 4096 other passes in between |
| Webhooks.FirstSendingUsesTheId | python/neofl_gateway/webhooks.py:114-120 | a payload refused as stale has used its id up |
| Levels.LevelStore.RemoveOldestInactiveOrOldest | DEPLOYMENTS/NeoFL_CandleRevisit_v3_86/NeoFL_CandleRevisit_v3_86.mq5:1310-1350 | removes the specified victim in place |
| Levels.LevelStore.Close | DEPLOYMENTS/NeoFL_CandleRevisit_v3_86/NeoFL_CandleRevisit_v3_86.mq5:1345-1348 | the shifting loop removes one index and keeps the order of the rest |
| Levels.LevelStore.AddLevel | DEPLOYMENTS/NeoFL_CandleRevisit_v3_86/NeoFL_CandleRevisit_v3_86.mq5:1352-1387 | ignores a non-positive price or a duplicate, evicts when full, appends the normalised level |
| Levels.LevelStore.FindNextOpposingLevel | DEPLOYMENTS/NeoFL_CandleRevisit_v3_86/NeoFL_CandleRevisit_v3_86.mq5:374-424 | the nearest active opposing level on the profit side, or 0 if there is none |
| Levels.OldestIsFirst | DEPLOYMENTS/NeoFL_CandleRevisit_v3_86/NeoFL_CandleRevisit_v3_86.mq5:1330-1341 | the loop's oldest is the first of the minimal dates before the cutoff |
| Levels.EvictionIsExact | DEPLOYMENTS/NeoFL_CandleRevisit_v3_86/NeoFL_CandleRevisit_v3_86.mq5:1310-1350 | eviction takes out exactly one level, the first inactive or else the first of the oldest, and none if and only if all are active and dated from the cutoff on |
| Levels.SizeStaysBounded | DEPLOYMENTS/NeoFL_CandleRevisit_v3_86/NeoFL_CandleRevisit_v3_86.mq5:1369-1373 | over every run of adds and deactivations the size never exceeds max(1, limit) |
| Levels.LevelsStayApart | DEPLOYMENTS/NeoFL_CandleRevisit_v3_86/NeoFL_CandleRevisit_v3_86.mq5:1360-1367 | with prices in the symbol's digits active levels of one type stay more than the tolerance apart |
| Levels.LevelsNeverCloser | DEPLOYMENTS/NeoFL_CandleRevisit_v3_86/NeoFL_CandleRevisit_v3_86.mq5:1360-1379 | with any prices they are never closer than the tolerance |
| Levels.AddKeepsApartExactly | DEPLOYMENTS/NeoFL_CandleRevisit_v3_86/NeoFL_CandleRevisit_v3_86.mq5:1352-1387 | whatever the price, an add that is let in keeps active levels more than the tolerance apart if and only if the rounded price is not exactly the tolerance from an active level of its kind that eviction leaves |
| Levels.AddedExactly | DEPLOYMENTS/NeoFL_CandleRevisit_v3_86/NeoFL_CandleRevisit_v3_86.mq5:1352-1387 | what an add comes to, for every price and store |
| Levels.TargetsExactly | DEPLOYMENTS/NeoFL_CandleRevisit_v3_86/NeoFL_CandleRevisit_v3_86.mq5:374-400 | a level is a target if and only if it is active, on the profit side and of an opposing kind |
| Levels.OffGridMeetsTheTolerance | DEPLOYMENTS/NeoFL_CandleRevisit_v3_86/NeoFL_CandleRevisit_v3_86.mq5:1360-1379 | an instance of the failing condition, with a price of more digits than the symbol quotes |
| Escapes.UrlValue | mt5/NeoFL_Executioner.mq5:29 | the six ordered replacement passes are one percent-encoding |
| Escapes.UrlRoundTrip | mt5/NeoFL_Executioner.mq5:29 | percent-decoding (section 2.1 of RFC 3986, "+" as space) gives every value back |
| Escapes.TargetReadsBack | mt5/NeoFL_Executioner.mq5:110 | a request target built from such values splits back into the same fields, in order |
| JsonStrings.JsonEscape | mt5/NeoFL_Reporter.mq5:19-24 | the two ordered passes are one escaping |
| JsonStrings.JsonString | mt5/NeoFL_Executioner.mq5:30 | the scanning loops return the string after the first marker, or nothing |
| JsonStrings.BlanksExactly | mt5/NeoFL_Executioner.mq5:30 | only spaces and tabs are skipped before a value, and a character is narrowed to its low byte |
| JsonStrings.UnescapeInverts | mt5/NeoFL_Executioner.mq5:30 | unescaping gives an ASCII value back and stops at its true closing quote |
| JsonStrings.JsonStringReadsBack | mt5/NeoFL_Executioner.mq5:30 | in a flat object with plain keys the first match is the field's own key whatever the other values spell, so the field reads back exactly |

## Left out

- Protocol.PositionsKeepTheirShape: orders fill or fail at once; a fill that becomes visible only on a later tick is not modelled, and order comments are not rewritten by the broker.
- Protocol.ClosingMainKeepsBasket: the close happens at the quote the basket was valued at; slippage is not modelled.
- MasterBrain.Update: the account metrics written beside the protocol keys (balance, equity, margin, realized profit, withdrawal) are not kept; the selection failures of the main and the straddle are one flag each per update.
- MasterBrain.Update: the brain's own keys live under the fixed prefix of the basket baseline and the observer's under the configured one, taken to be different prefixes.
- BasketSolver.SolveBasketPrice: the basket zero is what the solver looks for; the published BASKET_BE_PRICE is the main's entry and nothing is claimed about it.
- Executor.ExpertAdvisor.OnTick: the internal-brain path, the dashboard, trailing and emergency stops beyond their yes-or-no answer, calendar, session, spread, volatility and margin gates; the gates are arbitrary answers.
- Executor.ExpertAdvisor.TrySignals: which levels give signals is an arbitrary list of attempts, and the level a successful attempt traded is not deactivated.
- Protocol.TickKeeps: one brain update, and each stage of a tick, is atomic; the bus and the market change between stages, not inside one.
- Protocol.TrustedRunsKeepTheBus: an arming that was on the bus before the run started is traced to no main.
- Levels: UpdateRevisitState and AgeAndInvalidateLevels are not called from OnTick; a deactivation is an arbitrary step instead.
- Risk.ApprovedIsLargestFit: the minimum-lot override is not part of this statement; `Risk.ApprovalExactly` has it.
- Straddle.NeoFLStrSize: reason and input strings and the decision record are omitted.
- Risk.NeoFLRiskSize: reason and input strings and the decision record are omitted.
- Bridge.Bridge.PollEvents: the on_event callback, lines that are not UTF-8, the ANSI code page of the writer, rotation to a shorter file within a run, and JSON beyond the flat event object are not modelled; a shrunken file restarts from 0 in a single poll.
- Delivery.DeliveredInOrder: a log that shrinks between polls is outside these runs.
- SoulRules.ObservedFirst: the value an observation carries, and the router's reason as evidence of the instrument, are omitted; no decision reads them.
- Soul.CognitiveSoul.Run: the goal and reason text of an episode, malformed observation entries or answers that raise inside the loop, a reasoner that changes the list it is handed, tools registered over the four default ones, and tasks as shared objects; tasks are values here.
- Body.NeoFLBody.Handle: the routed brains, answer text and introspection of a response are omitted; lower-casing is ASCII only, which changes which specialists are called and nothing else.
- Wickless.RunPass: the report and the pass over both level bases in one run.
- Packager.Package: symbolic links, newline translation, an output folder inside the source tree, and the partial output a failed run leaves; compiling the package.
- Sessions.GoldDayIsOneSpan: instants within hours of the first and last representable date, where the local time cannot be formed.
- Webhooks.Webhook.Receive: the snapshot returned with the verdict is omitted; the signature is a given answer; infinite timestamps and normalisers that raise other errors are not modelled.
- Escapes.TargetReadsBack: what the transport does with characters outside ASCII.
- JsonStrings.JsonString: the character conversion is the Latin-1 page; JsonNumber and JsonBool are not modelled.
- Floating-point rounding, NaN and infinities, except the NaN timestamp of a webhook.
- HTTP, MCP, the LLM call, SQLite, HMAC, file-system and terminal calls: network and platform plumbing.
- Order queue, brain and telemetry registries, post-fill manager, state store, symbol resolver, arbitrage engine: short map or list operations that would add only easy members.
