# Battery-gauge event services and power-domain sequencer: a Dafny model

This project models the parts of the repository that keep long-lived mutable state under
concurrency, and the arithmetic around them, and proves what they promise.

* **Coulomb threshold service** (`sublists.dfy`, `wait_lists.dfy`, `coulomb_service.dfy`, `coulomb_handler.dfy`,
  `coulomb_machine.dfy`, `coulomb_callbacks.dfy`, `coulomb_reset.dfy`, `coulomb_split.dfy`,
  `coulomb_runs.dfy`). Two ordered lists of consumers wait
  for the charge counter to rise or fall; a hardware comparator follows the nearest threshold; a worker
  thread pops due consumers and drops its lock around every callback; a counter reset rebases every
  threshold. The service is first a set of functions on its state, then a class whose methods update
  that state in place and are proved to be those functions, then a state machine whose steps (locked
  sections, ticks, interrupts, wake-ups, thread steps, whole and split resets) interleave freely.
* **Timer service** (`timer_service.dfy`, `timer_runs.dfy`, `timer_steps.dfy`): the same shape over time, with
  one hrtimer, a rescanning handler and suspend/resume; the service's functions are proved to be runs of
  its state machine.
* **Power-domain sequencer** (`power_scripts.dfy`, `power_domains.dfy`, `power_tree.dfy`,
  `power_gates.dfy`, `power_protect.dfy`, `power_clocks.dfy`, `power_nesting.dfy`). A script is a row of
  register writes and acknowledge waits. General results about any script come first, then the thirteen
  domains' own scripts, then the reference-counted clock tree above them (any forest of gates, any
  pre-clock lists, any callbacks), then this chip's gates and a driver object whose methods run them, the
  protect registers they share, the clocks they run on, and the order of parents and children action by
  action.
* **Charge accounting and average current** (`charge_accounting.dfy`), **profile filling**
  (`profile_table.dfy`), **thermistor arithmetic** (`thermistor.dfy`), **voltage-curve state of charge**
  (`simple_gauge.dfy`) and the **Pump Express Plus handshake** (`pump_express.dfy`). `carith.dfy` holds
  C's truncating division.

Conventions. Counters, distances and times are mathematical integers, except in the reset rebase, whose
unsigned 64-bit arithmetic is written out, and in the cast of comparator levels to unsigned. C's signed
division truncates and is modelled so. A counter or clock stands still inside one locked section and its
moves are steps of their own; only a timer scan, which reads the clock for every entry, is taken apart
further, so that the clock moves inside it. A comparator is kept as the absolute level at which it fires, or off; the
driver writes distances. A 32-bit control register is the set of its set bits, and every acknowledge bit
is kept under the control bit it acknowledges. Acknowledges move on their own between steps, but only
towards the control bits in force. Callbacks, hardware answers, clock lookups and the boot state are
parameters.

## Where the code does not do what one would expect

Where an expected property can fail there is a lemma with a concrete run or input on which it does, and
an if-and-only-if with the exact condition under which it holds.

* The coulomb handler programs a distance measured from the count it sampled on entry, while the hardware
  counts it from the present count. A comparator is therefore late by what the counter moved during the
  handler (`CoulombRuns.ArmHeadLateness`), and a slow handler can leave an overdue consumer unnoticed
  (`SlowHandlerReachable`, `SlowHandlerMissesCrossing`). No comparator is ever late in a run if and only if
  every arming by the handler finds an empty list, a counter that has not advanced, or another handler run
  already promised (`NoCrossingLateExactly`).
* The handler goes on with the count it sampled while its callbacks run. Once the counter has fallen back, a
  callback can restart its consumer behind that sample, and the consumer is called again at once, with its
  whole distance to go, any number of times (`CoulombCallbacks.HandlerNeedNotEnd`, a run from boot). A
  handler that has worked off a list has called exactly the consumers due at its sample if and only if no
  start lay behind the sample (`CallsExactly`).
* A reset inside a callback is not invisible: the handler goes on with the old count and calls consumers
  early (`CoulombReset.ResetInsideCallbackExample`, a run from boot). `ResetInvisible` is the exact condition
  for one reset, `ResetsInvisibleExactly` for a run.
* A reset is not one step in the code. Taken apart, it keeps every distance if and only if the counter did
  not move between being latched and being zeroed (`CoulombSplit.SplitResetExactly`); a start between zero
  and rebase is off by the whole latched count (`StartBeforeRebase`, `StartBeforeRebaseExample`).
* `gtimer_stop` does not reprogram the hrtimer, so the armed instant may lie far before the next deadline
  (`TimerRuns.StopLeavesTimerEarlyExample`); and the handler reads the clock anew for every entry, so a
  deadline can go by between its look and the arming, which is then more than a second late
  (`SlowScanLeavesTimerLate`). Both are runs from boot. The two-sided window holds all along a run if and only
  if no stop at rest leaves a timer a second or more beyond the programmed instant and every scan arms soon
  enough after its readings (`WindowExactly`).
* Power-down never clears the modem's reset bit: a modem that has been up ends it with reset released and
  both switches off (`PowerDomains.ModemResetStaysReleased`). Power-down leaves reset released exactly on a
  modem on which it was before (`ResetStaysReleased`).
* Domains do not own their bus-protect bits: taking a bus down sets bits in another domain's masks and
  bringing it up clears them, for exactly seven pairs of domains (`PowerDomains.OverlapExactly`,
  `BusInterferes`). So the display's bits can be protecting while it is up and held, and the camera's released
  while it is off (`PowerProtect.ProtectedWhileUp`, `ReleasedWhileDown`). Over runs a bit is set if and only
  if the last bus action of all domains that name it closed a bus (`ProtectFollowsLastBus`).
* Domains left on by the bootloader: taking and giving back the display cuts it under an image processor
  that stays on, and calls `before_off` without any `after_on` (`PowerGates.ChildLeftOverParent`). The exact
  conditions are `PowerTree.ParentHeld` (a child powered only while its parent is), `BracketsFromCut` (the
  callbacks' bracketing) and `PoweredByCount` (power follows the count).
* The state-of-charge interpolation inside a row pair always truncates to nothing, so one table never
  answers 1 percent, whatever it holds (`SimpleGauge.LookupIsFirstRow`, `LookupRange`).
* Work started before an unplug can make the next session's first pulse attempt without its 500 ms delay
  (`PumpExpress.StaleWorkExample`): possible exactly if, at the plug, such work has still not got the lock
  (`StaleWorkJumpsTheDelay`).
* The hot comparator level can end up above the cold one (`Thermistor.LevelsCross`): exactly if the battery
  current takes more than the hot divider voltage and no more than the cold one (`LevelsInOrder`).
* Filling a profile can write 101 rows (`ProfileTable.CutShort`); `HundredRows` says exactly when it is 100.

## Model

| member | source | states |
|---|---|---|
| WaitLists.AddNode | aether-rmx3171/ports/TODO/gm30-battery/mtk_gauge_coulomb_service.c:302-312 | the walk that links a consumer in front of the first one strictly beyond it is the recursive insertion of the specification |
| WaitLists.InsertSplits | aether-rmx3171/ports/TODO/gm30-battery/mtk_gauge_coulomb_service.c:302-312 | in an ordered list the new consumer goes behind everyone at or before its threshold and in front of everyone strictly beyond: first come, first served |
| WaitLists.InsertKeeps | aether-rmx3171/ports/TODO/gm30-battery/mtk_gauge_coulomb_service.c:302-312 | linking an unlinked consumer keeps the order and keeps every consumer linked once |
| WaitLists.RemoveKeeps | aether-rmx3171/ports/TODO/gm30-battery/mtk_gauge_coulomb_service.c:369-371 | unlinking keeps order and uniqueness and leaves the consumer nowhere in the list |
| WaitLists.LeadSplits | aether-rmx3171/ports/TODO/gm30-battery/mtk_gauge_coulomb_service.c:314-333 | the second walk of start stops at the nearest threshold that is still pending |
| WaitLists.DueOnlyIsPrefix | aether-rmx3171/ports/TODO/gm30-battery/mtk_gauge_coulomb_service.c:393-415 | in an ordered list the due consumers are exactly the leading ones, so popping due heads reaches all of them |
| CoulombService.StartWf | aether-rmx3171/ports/TODO/gm30-battery/mtk_gauge_coulomb_service.c:281-340 | start keeps both lists ordered and every consumer linked at most once across the two, even when it is restarted with the opposite sign |
| CoulombService.StartIsFifo | aether-rmx3171/ports/TODO/gm30-battery/mtk_gauge_coulomb_service.c:302-312 | start puts the consumer behind equal thresholds and moves nobody else |
| CoulombService.StartArmsNearest | aether-rmx3171/ports/TODO/gm30-battery/mtk_gauge_coulomb_service.c:314-343 | start always programs a strictly positive distance, the one to the nearest pending threshold, and asks for a wake-up exactly when somebody is already due |
| CoulombService.RunOpsSpareDue | aether-rmx3171/ports/TODO/gm30-battery/mtk_gauge_coulomb_service.c:258-373 | starts and stops of consumers that are not due leave the due consumers and their order alone |
| CoulombService.RunOpsDue | aether-rmx3171/ports/TODO/gm30-battery/mtk_gauge_coulomb_service.c:258-373 | under a steady counter no start or stop makes anybody due |
| CoulombService.ExpireShrinks | aether-rmx3171/ports/TODO/gm30-battery/mtk_gauge_coulomb_service.c:396-412 | one pop and callback strictly lowers the number of due consumers, whatever the callback starts or stops: the loop's termination measure |
| CoulombService.RebaseExact | aether-rmx3171/ports/TODO/gm30-battery/mtk_gauge_coulomb_service.c:209-230 | the unsigned subtraction of the rebase is exact if and only if the distance fits a long, for counts of either sign |
| CoulombService.RebaseWalk | aether-rmx3171/ports/TODO/gm30-battery/mtk_gauge_coulomb_service.c:221-233 | the walk over one list rebases every entry |
| CoulombService.ScanDue | aether-rmx3171/ports/TODO/gm30-battery/mtk_gauge_coulomb_service.c:314-336 | the walk over due entries yields the wake-up decision and the distance of the entry it stopped at |
| CoulombService.Service.WakeUpGaugeCoulomb | aether-rmx3171/ports/TODO/gm30-battery/mtk_gauge_coulomb_service.c:111-124 | both comparators are set 300 away and the thread is flagged |
| CoulombService.Service.GaugeCoulombStop | aether-rmx3171/ports/TODO/gm30-battery/mtk_gauge_coulomb_service.c:369-371 | the consumer is unlinked from whichever list holds it; nothing else changes |
| CoulombService.Service.Link | aether-rmx3171/ports/TODO/gm30-battery/mtk_gauge_coulomb_service.c:302-312 | linking in place inserts into the list for the consumer's direction and touches nothing else |
| CoulombService.Service.ProgramNearest | aether-rmx3171/ports/TODO/gm30-battery/mtk_gauge_coulomb_service.c:314-340 | the comparator is set to the nearest pending threshold, and a wake-up is asked for exactly when somebody is due |
| CoulombService.Service.Relink | aether-rmx3171/ports/TODO/gm30-battery/mtk_gauge_coulomb_service.c:281-340 | the locked section of start, in place, is the specified step, unlinking from the old list first |
| CoulombService.Service.GaugeCoulombStart | aether-rmx3171/ports/TODO/gm30-battery/mtk_gauge_coulomb_service.c:278-343 | start, with its early return for 0 and its wake-up, is the specified step |
| CoulombService.Service.PopAndCall | aether-rmx3171/ports/TODO/gm30-battery/mtk_gauge_coulomb_service.c:396-412 | one pop and callback leaves exactly the rest of the drain to do |
| CoulombService.Service.ExpireDue | aether-rmx3171/ports/TODO/gm30-battery/mtk_gauge_coulomb_service.c:393-415 | the loop terminates and leaves the state and the callback order of the specified drain |
| CoulombService.Service.GaugeCoulombBeforeReset | aether-rmx3171/ports/TODO/gm30-battery/mtk_gauge_coulomb_service.c:184-202 | both comparators are switched off |
| CoulombService.Service.GaugeCoulombAfterReset | aether-rmx3171/ports/TODO/gm30-battery/mtk_gauge_coulomb_service.c:204-256 | both lists are rebased on the latched count and the worker is woken |
| CoulombService.Service.GaugeResetHw | aether-rmx3171/ports/TODO/gm30-battery/mtk_battery_core.c:187-189 | the service's part of a reset, taken as one step |
| CoulombService.Service.GaugeCoulombIntHandler | aether-rmx3171/ports/TODO/gm30-battery/mtk_gauge_coulomb_service.c:376-486 | the handler, in place, is the specified handler |
| CoulombHandler.DrainSound | aether-rmx3171/ports/TODO/gm30-battery/mtk_gauge_coulomb_service.c:393-415 | while the counter stands still across callbacks, one loop under any callbacks ends with nothing due, expires only consumers due at entry, each at most once and in threshold order, and makes nobody due on the other list |
| CoulombHandler.HandlerSound | aether-rmx3171/ports/TODO/gm30-battery/mtk_gauge_coulomb_service.c:376-486 | while the counter stands still across callbacks, the whole handler under any callbacks returns, keeps the lists' shape, calls nobody early or twice, and leaves only consumers not yet due |
| CoulombHandler.DrainExact | aether-rmx3171/ports/TODO/gm30-battery/mtk_gauge_coulomb_service.c:393-415 | while the counter stands still, one loop under callbacks that spare the other due consumers calls back everyone due at entry, nearest threshold first |
| CoulombHandler.HandlerExact | aether-rmx3171/ports/TODO/gm30-battery/mtk_gauge_coulomb_service.c:376-486 | while the counter stands still, the whole handler under sparing callbacks calls back exactly the consumers due at entry, once per list and in threshold order |
| CoulombHandler.HandlerArms | aether-rmx3171/ports/TODO/gm30-battery/mtk_gauge_coulomb_service.c:420-475 | what the handler programs while the counter stands still, under any callbacks: the low comparator at the minus list's head, strictly ahead; the high one no later than the plus list's head, unless another run is already promised |
| CoulombHandler.HandlerArmsHigh | aether-rmx3171/ports/TODO/gm30-battery/mtk_gauge_coulomb_service.c:420-430 | and exactly at the plus list's head when the minus list has nothing due |
| CoulombHandler.BatInt1CentresBand | aether-rmx3171/ports/TODO/gm30-battery/mtk_battery_core.c:2405-2452 | whichever of the two int1 handlers is called, both consumers end up linked one gap either side of the count |
| CoulombHandler.BatInt1Exact | aether-rmx3171/ports/TODO/gm30-battery/mtk_battery_core.c:2405-2452 | the int1 handlers spare each other's consumer, so while the counter stands still the handler is exact for them |
| CoulombCallbacks.PoppedAreDue | aether-rmx3171/ports/TODO/gm30-battery/mtk_gauge_coulomb_service.c:384-486 | with a counter that moves freely and clients that do anything during callbacks: if no start lies behind the handler's sample, it calls only consumers due at the sample, each at most once and in threshold order, so no more than there were |
| CoulombCallbacks.CallsCounted | aether-rmx3171/ports/TODO/gm30-battery/mtk_gauge_coulomb_service.c:384-486 | conservation: in a handler run whose clients spare the due consumers, those due at the sample plus the starts behind it are called or still due |
| CoulombCallbacks.CallsExactly | aether-rmx3171/ports/TODO/gm30-battery/mtk_gauge_coulomb_service.c:384-486 | of such a run that has worked off a list, the calls are exactly the consumers due at the sample, in threshold order, if and only if no start lay behind the sample |
| CoulombCallbacks.LoopEndsDrained | aether-rmx3171/ports/TODO/gm30-battery/mtk_gauge_coulomb_service.c:393-415 | a loop ends only when nobody on its list is due by the sample |
| CoulombCallbacks.StaleIsCalled | aether-rmx3171/ports/TODO/gm30-battery/mtk_gauge_coulomb_service.c:396-412 | a start behind the sample is called in the same handler run, though made with its whole distance to go, unless a client stops or restarts it first |
| CoulombCallbacks.HandlerNeedNotEnd | aether-rmx3171/ports/TODO/gm30-battery/mtk_gauge_coulomb_service.c:384-412 | from boot, without a reset: a consumer whose callback restarts it after the counter has fallen back is called any number of times in one handler run |
| CoulombCallbacks.DrainIsRun | aether-rmx3171/ports/TODO/gm30-battery/mtk_gauge_coulomb_service.c:393-415 | while the counter stands still, the specified drain is a run of the state machine without starts behind the sample: same state, same calls |
| CoulombCallbacks.SteadyCalls | aether-rmx3171/ports/TODO/gm30-battery/mtk_gauge_coulomb_service.c:393-415 | so its calls are, as the steady case, consumers due at entry, once each and in order |
| CoulombCallbacks.HandleIsRun | aether-rmx3171/ports/TODO/gm30-battery/mtk_gauge_coulomb_service.c:376-486 | the whole handler, while the counter stands still, is one run of the thread from its sample back to waiting: same lists, comparators and flag, same calls from either list |
| ChargeAccounting.Battery.FgSwBatCycleAccu | aether-rmx3171/ports/TODO/gm30-battery/mtk_battery_core.c:2008-2047 | the accumulator step, in place: only downward moves are added, and a completed cycle clears the sum |
| ChargeAccounting.DischargeConserved | aether-rmx3171/ports/TODO/gm30-battery/mtk_battery_core.c:2018-2043 | over any samples, what is left plus what the cycle events cleared is what was there plus the counter's total downward variation |
| ChargeAccounting.OnlyDischargeCounts | aether-rmx3171/ports/TODO/gm30-battery/mtk_battery_core.c:2018-2026 | a rising run of samples counts nothing and a falling one the whole way from first to last |
| ChargeAccounting.CyclesBounded | aether-rmx3171/ports/TODO/gm30-battery/mtk_battery_core.c:2034-2043 | with a constant threshold, from any start, cycles times threshold never exceed what was cleared, nor the total discharge; where software counts cycles less than one threshold is left after any sample, and hardware that counts its own gives none |
| ChargeAccounting.SparserCountsLess | aether-rmx3171/ports/TODO/gm30-battery/mtk_battery_core.c:2018-2026 | sampling less often never counts more discharge |
| ChargeAccounting.Battery.FgUpdateSwIavg | aether-rmx3171/ports/TODO/gm30-battery/mtk_battery_core.c:1835-1865 | the averaging step, in place |
| ChargeAccounting.IavgBandOverRuns | aether-rmx3171/ports/TODO/gm30-battery/mtk_battery_core.c:1811-1865 | the average stays strictly inside a band of width twice the gap over every run after init, if and only if the configured gap is positive |
| ChargeAccounting.SignalsAreHysteresis | aether-rmx3171/ports/TODO/gm30-battery/mtk_battery_core.c:1835-1865 | over any samples on old hardware, the averages signalled are exactly the window averages at least the gap away from the last one signalled |
| ChargeAccounting.SignalsSpaced | aether-rmx3171/ports/TODO/gm30-battery/mtk_battery_core.c:1811-1865 | from init on, the average moves by at least the gap from each signal to the next |
| ChargeAccounting.IavgAccurate | aether-rmx3171/ports/TODO/gm30-battery/mtk_battery_core.c:1846-1849 | average times time differs from 3600 times the measured charge by less than the time |
| ChargeAccounting.AveragesAccurate | aether-rmx3171/ports/TODO/gm30-battery/mtk_battery_core.c:1835-1865 | over any samples there is one average per window of at least 60 s, each window beginning where the last one ended, and average times time differs from 3600 times the charge moved in it by less than the time |
| ChargeAccounting.InitBegins | aether-rmx3171/ports/TODO/gm30-battery/mtk_battery_core.c:1811-1829 | init begins the first window and centres the band on the current into the battery, negative while it is drawn |
| CoulombReset.StartShifted | aether-rmx3171/ports/TODO/gm30-battery/mtk_gauge_coulomb_service.c:281-340 | start does the same on a shifted counter: same order, same distances, same wake-up decision |
| CoulombReset.StepShifted | aether-rmx3171/ports/TODO/gm30-battery/mtk_gauge_coulomb_service.c:91-486 | apart from resets every step of the service treats all counter origins alike |
| CoulombReset.ResetInvisible | aether-rmx3171/ports/TODO/gm30-battery/mtk_battery_core.c:172-196 | one reset leaves the view on the never-reset counter (count plus car_diff) as an ideal step would, if and only if every distance fits a long and no handler run holds a count sampled before the reset |
| CoulombReset.ResetsInvisible | aether-rmx3171/ports/TODO/gm30-battery/mtk_battery_core.c:172-196 | every run with such resets is, on the never-reset counter, a run of the ideal machine without resets |
| CoulombReset.ResetsInvisibleExactly | aether-rmx3171/ports/TODO/gm30-battery/mtk_battery_core.c:172-196 | a run with whole resets agrees with the ideal run at every point if and only if every reset fits and finds no handler holding an older sample |
| CoulombReset.SameDistance | aether-rmx3171/ports/TODO/gm30-battery/mtk_battery_core.c:172-196 | what that says of one consumer: same place in the list, same remaining distance, threshold and last cycle sample moved by car_diff, same bat_cycle_ncar |
| CoulombReset.SameAverage | aether-rmx3171/ports/TODO/gm30-battery/mtk_battery_core.c:1835-1851 | the averaging window is the same on either counter: the charge moved since the last sample or reset |
| CoulombReset.ResetInsideCallbackFiresEarly | aether-rmx3171/ports/TODO/gm30-battery/mtk_gauge_coulomb_service.c:384-412 | a reset inside a callback is visible: the handler goes on with its stale count and expires heads that still have their whole distance to go |
| CoulombReset.ResetInsideCallbackExample | aether-rmx3171/ports/TODO/gm30-battery/mtk_gauge_coulomb_service.c:384-412 | that is reached from boot: a consumer at 900 fires, its callback starts another 100 ahead and a reset lands before it returns; the new consumer is called at once, and would have stayed without the reset |
| CoulombSplit.SplitResetExactly | aether-rmx3171/ports/TODO/gm30-battery/mtk_gauge_coulomb_service.c:184-256 | a reset taken apart, nothing started or sampled between zero and rebase: every remaining distance is that of the counter never zeroed if and only if the counter stood at the latched count when it was zeroed, or nobody waits |
| CoulombSplit.StartBeforeRebase | aether-rmx3171/ports/TODO/gm30-battery/mtk_gauge_coulomb_service.c:204-249 | a start between zero and rebase ends up off by the latched count, right if and only if that was 0 |
| CoulombSplit.StartBeforeRebaseExample | aether-rmx3171/ports/TODO/gm30-battery/mtk_gauge_coulomb_service.c:204-249 | for example 500 overdue when 500 were asked for |
| CoulombSplit.SampleBeforeRebase | aether-rmx3171/ports/TODO/gm30-battery/mtk_gauge_coulomb_service.c:384-473 | a handler that samples between zero and rebase calls a consumer of the minus list that still has its distance to go |
| CoulombRuns.ArmHeadLateness | aether-rmx3171/ports/TODO/gm30-battery/mtk_gauge_coulomb_service.c:417-430 | what the handler programs is strictly positive and late by exactly what the counter moved since the handler sampled it; late by nothing if and only if it did not move towards the thresholds |
| CoulombRuns.RebaseWf | aether-rmx3171/ports/TODO/gm30-battery/mtk_gauge_coulomb_service.c:221-249 | the rebase keeps both lists' order and uniqueness |
| CoulombRuns.StepInv | aether-rmx3171/ports/TODO/gm30-battery/mtk_gauge_coulomb_service.c:91-516 | every step of every thread keeps the invariant |
| CoulombRuns.NoCrossingLost | aether-rmx3171/ports/TODO/gm30-battery/mtk_gauge_coulomb_service.c:91-516 | over every interleaving from boot, a consumer that waits is attended to (a wake-up under way, thread flagged or in its handler, reset under way) or its comparator is armed, late by no more than the counter moved during the handler run that armed it |
| CoulombRuns.DueIsNoticed | aether-rmx3171/ports/TODO/gm30-battery/mtk_gauge_coulomb_service.c:91-516 | a consumer overdue by more than that is never left with the service at rest and no interrupt due |
| CoulombRuns.NoCrossingLateExactly | aether-rmx3171/ports/TODO/gm30-battery/mtk_gauge_coulomb_service.c:91-516 | over every interleaving from boot, no unattended comparator is ever armed beyond the nearest threshold if and only if every arming by the handler finds its list empty, or the counter not advanced since the sample, or another handler run already promised |
| CoulombRuns.NoCrossingLate | aether-rmx3171/ports/TODO/gm30-battery/mtk_gauge_coulomb_service.c:91-516 | in particular with handlers during which the counter does not advance, all along the run |
| CoulombRuns.FiresOnce | aether-rmx3171/ports/TODO/gm30-battery/mtk_gauge_coulomb_service.c:91-202 | a comparator that has fired, or that a reset switched off, interrupts no more until somebody programs it |
| CoulombRuns.SlowHandlerMissesCrossing | aether-rmx3171/ports/TODO/gm30-battery/mtk_gauge_coulomb_service.c:387-430 | without that, a tick past the next threshold during the handler leaves an overdue consumer and the service at rest |
| CoulombRuns.SlowHandlerReachable | aether-rmx3171/ports/TODO/gm30-battery/mtk_gauge_coulomb_service.c:258-430 | that situation is reached from boot by two starts and one slow callback |
| TimerService.ArmForWindow | aether-rmx3171/ports/TODO/gm30-battery/mtk_gauge_time_service.c:182-187 | whole seconds with a floor of one program an instant in (deadline - 1 s, deadline + 1 s], strictly ahead of now, for every deadline that is not overdue |
| TimerService.StartWf | aether-rmx3171/ports/TODO/gm30-battery/mtk_gauge_time_service.c:134-195 | start keeps deadlines ascending and timers linked once |
| TimerService.StartIsFifo | aether-rmx3171/ports/TODO/gm30-battery/mtk_gauge_time_service.c:168-174 | start puts the timer behind equal deadlines and moves nobody else |
| TimerService.StartArmsOrFlags | aether-rmx3171/ports/TODO/gm30-battery/mtk_gauge_time_service.c:174-194 | after any start the worker is flagged if the head's deadline has gone by, and otherwise the hrtimer is armed within a second of it |
| TimerService.ExpireShrinks | aether-rmx3171/ports/TODO/gm30-battery/mtk_gauge_time_service.c:229-242 | one firing strictly lowers the number of expired timers when callbacks start at least a second ahead |
| TimerService.ScanSound | aether-rmx3171/ports/TODO/gm30-battery/mtk_gauge_time_service.c:217-245 | under such callbacks the rescanning loop ends with nothing expired and has fired only expired timers, once each and in deadline order |
| TimerService.ScanExact | aether-rmx3171/ports/TODO/gm30-battery/mtk_gauge_time_service.c:217-245 | if callbacks also spare the other expired timers, exactly the expired timers fire, in deadline order |
| TimerService.HandlerFiresExpired | aether-rmx3171/ports/TODO/gm30-battery/mtk_gauge_time_service.c:206-258 | the whole handler under a frozen clock, including the timer it leaves armed within the window of the next deadline |
| TimerService.NeverEarly | aether-rmx3171/ports/TODO/gm30-battery/mtk_gauge_time_service.c:217-245 | with a fresh clock reading in every iteration and any callbacks, no timer fires before its deadline |
| TimerService.LeftoversPending | aether-rmx3171/ports/TODO/gm30-battery/mtk_gauge_time_service.c:217-245 | however the clock advances during the scan, nothing the loop has passed over was due when its last pass from the head began |
| TimerService.AdvancingScanArms | aether-rmx3171/ports/TODO/gm30-battery/mtk_gauge_time_service.c:217-257 | so the timer is armed later than one second before the next deadline, and past one second after it by no more than the last pass took |
| TimerService.FrozenScan | aether-rmx3171/ports/TODO/gm30-battery/mtk_gauge_time_service.c:217-245 | when the clock stands still that scan fires the same timers in the same order and leaves the same state as the scan under a frozen clock |
| TimerSteps.OpIsRun | aether-rmx3171/ports/TODO/gm30-battery/mtk_gauge_time_service.c:134-203 | start and stop, wake-up included, are steps of the state machine |
| TimerSteps.ScanIsRun | aether-rmx3171/ports/TODO/gm30-battery/mtk_gauge_time_service.c:217-245 | the handler's loop under a frozen clock is a run of it, callbacks included: same list, same timers fired |
| TimerSteps.HandleIsRun | aether-rmx3171/ports/TODO/gm30-battery/mtk_gauge_time_service.c:206-258 | the whole handler is a run of the worker from entering to waiting |
| TimerSteps.ResumeIsRun | aether-rmx3171/ports/TODO/gm30-battery/mtk_gauge_time_service.c:295-328 | resume, with its wake-up for an overdue head, is the machine's end of a suspend |
| TimerSteps.SuspendSilences | aether-rmx3171/ports/TODO/gm30-battery/mtk_gauge_time_service.c:289-293 | from a suspend notification on the hrtimer is silent until somebody arms it anew |
| TimerSteps.SleepKeepsRemaining | aether-rmx3171/ports/TODO/gm30-battery/mtk_gauge_time_service.c:117-125 | sleep moves boot time on and brings the hrtimer no closer |
| TimerService.Service.GtimerStart | aether-rmx3171/ports/TODO/gm30-battery/mtk_gauge_time_service.c:134-195 | start, in place, is the specified step |
| TimerService.Service.GtimerStop | aether-rmx3171/ports/TODO/gm30-battery/mtk_gauge_time_service.c:197-203 | the timer is unlinked and nothing is reprogrammed |
| TimerService.Service.GtimerSuspend | aether-rmx3171/ports/TODO/gm30-battery/mtk_gauge_time_service.c:289-293 | the hrtimer is cancelled |
| TimerService.Service.GtimerResume | aether-rmx3171/ports/TODO/gm30-battery/mtk_gauge_time_service.c:295-328 | an expired head flags the worker, a pending one is armed for |
| TimerService.Service.ScanOne | aether-rmx3171/ports/TODO/gm30-battery/mtk_gauge_time_service.c:217-245 | one iteration lowers the lexicographic measure (expired timers, timers left to scan) and leaves the rest of the scan to do |
| TimerService.Service.GtimerHandler | aether-rmx3171/ports/TODO/gm30-battery/mtk_gauge_time_service.c:206-258 | the handler, in place, terminates and is the specified handler |
| TimerRuns.StepInv | aether-rmx3171/ports/TODO/gm30-battery/mtk_gauge_time_service.c:103-357 | every step keeps the invariant with its lateness, suspends, resumes and every iteration of the scan included |
| TimerRuns.NoTimerLost | aether-rmx3171/ports/TODO/gm30-battery/mtk_gauge_time_service.c:134-357 | over every run, a non-empty list with nobody suspended, flagged or scanning implies an armed timer, later than deadline + 1 s by no more than the last pass took of the scan that armed it |
| TimerRuns.OverdueIsNoticed | aether-rmx3171/ports/TODO/gm30-battery/mtk_gauge_time_service.c:134-357 | a timer overdue by a second and that lateness, with the service at rest, has its interrupt due |
| TimerRuns.EveryArmingInWindow | aether-rmx3171/ports/TODO/gm30-battery/mtk_gauge_time_service.c:134-357 | every arming by a start or a resume hits the two-sided window of the head; the handler's is never a second early, late by no more than its last pass, and in the window if and only if it comes soon enough after the last reading |
| TimerRuns.StopLeavesTimerEarly | aether-rmx3171/ports/TODO/gm30-battery/mtk_gauge_time_service.c:197-203 | a stop at rest that leaves timers linked leaves the old instant armed, never too late for the deadline that is next then, and inside its window if and only if that deadline is less than a second beyond the instant |
| TimerRuns.StopLeavesTimerEarlyExample | aether-rmx3171/ports/TODO/gm30-battery/mtk_gauge_time_service.c:134-203 | from boot: timers 10 s and 100 s ahead, the first stopped, leave the timer 90 s early |
| TimerRuns.WindowExactly | aether-rmx3171/ports/TODO/gm30-battery/mtk_gauge_time_service.c:134-357 | over every run from boot, at rest the armed instant always lies in (deadline - 1 s, deadline + 1 s] of the nearest deadline if and only if no stop at rest ever left a timer a second or more beyond the programmed instant and every scan ending in rest armed soon enough after its readings |
| TimerRuns.SlowScanLeavesTimerLate | aether-rmx3171/ports/TODO/gm30-battery/mtk_gauge_time_service.c:217-257 | from boot and without a stop: the first deadline goes by while the handler looks at the second timer, and the timer is left armed more than a second after it |
| TimerRuns.WindowKept | aether-rmx3171/ports/TODO/gm30-battery/mtk_gauge_time_service.c:134-357 | in particular while the last pass of every scan takes no time and no stop at rest moves the nearest deadline, unless it empties the list |
| PowerScripts.Spm.SpmWrite | aether-rmx3171/ports/TODO/clk-mt6768/clk-mt6768-pg.c:953-1037 | one read-modify-write of a control register |
| PowerScripts.Spm.Run | aether-rmx3171/ports/TODO/clk-mt6768/clk-mt6768-pg.c:953-1037 | writing a script step by step in place leaves the registers its meaning says |
| PowerScripts.ExecOutcome | aether-rmx3171/ports/TODO/clk-mt6768/clk-mt6768-pg.c:953-1037 | after any script from any registers each bit is what the last write naming it says, or what it was |
| PowerScripts.AcceptedSafe | aether-rmx3171/ports/TODO/clk-mt6768/clk-mt6768-pg.c:953-1037 | a script accepted by the static check is safe at every single write, for any hardware timing |
| PowerScripts.ProtectInOrder | aether-rmx3171/ports/TODO/clk-mt6768/clk-mt6768-pg.c:1355-1460 | while protection is set up each protect step is written only when all earlier ones are set and acknowledged |
| PowerScripts.ReleaseInOrder | aether-rmx3171/ports/TODO/clk-mt6768/clk-mt6768-pg.c:1355-1460 | during release, steps once cleared stay clear, in release order |
| PowerDomains.BusDownInOrder | aether-rmx3171/ports/TODO/clk-mt6768/clk-mt6768-pg.c:886-2636 | while any domain's bus is taken down, with any hardware timing, a protect step is written only when every step before it, none of a higher number, is set and acknowledged; the SRAM is touched only when all are |
| PowerDomains.BusUpInOrder | aether-rmx3171/ports/TODO/clk-mt6768/clk-mt6768-pg.c:886-2636 | while it is brought up the same steps are released in the opposite order of their numbers, and each released one stays clear |
| PowerDomains.OwnersName | aether-rmx3171/ports/TODO/clk-mt6768/clk-mt6768-pg.c:245-345 | bit by bit, which domains' protect steps name which bit of the three protect registers |
| PowerDomains.ProtectedBeforeIsolated | aether-rmx3171/ports/TODO/clk-mt6768/clk-mt6768-pg.c:2640-3180 | over a whole power-down, with any timing, a domain is isolated only once its whole bus is protected |
| PowerDomains.ReleasedAfterConnected | aether-rmx3171/ports/TODO/clk-mt6768/clk-mt6768-pg.c:2640-3180 | over a whole power-up a protect bit is released only once the domain is out of isolation and reset |
| PowerDomains.IsolateInOrder | aether-rmx3171/ports/TODO/clk-mt6768/clk-mt6768-pg.c:1462-1495 | a running domain is isolated, its clock stopped, its reset held, its first switch opened, then its second |
| PowerDomains.ConnectInOrder | aether-rmx3171/ports/TODO/clk-mt6768/clk-mt6768-pg.c:1497-1526 | a domain that is down gets its first switch, its second, its clock, its isolation lifted, its reset released |
| PowerDomains.ModemInOrder | aether-rmx3171/ports/TODO/clk-mt6768/clk-mt6768-pg.c:953-1037 | the modem's own order in both directions: clock, isolation, SRAM, switches down; switches, SRAM, isolation, clock, reset up |
| PowerDomains.SramStages | aether-rmx3171/ports/TODO/clk-mt6768/clk-mt6768-pg.c:388-424 | which SRAM bits each domain has, and whether they go down with its switches or with its bus |
| PowerDomains.SramDownAcked | aether-rmx3171/ports/TODO/clk-mt6768/clk-mt6768-pg.c:1407-1415 | powering SRAM down waits for all of its acknowledges |
| PowerDomains.SramUpAcked | aether-rmx3171/ports/TODO/clk-mt6768/clk-mt6768-pg.c:1321-1350 | SRAM is released bit by bit, each only when those before it have stopped acknowledging |
| PowerDomains.EveryWriteSafe | aether-rmx3171/ports/TODO/clk-mt6768/clk-mt6768-pg.c:953-2636 | in every script of every domain, at every single write: isolation is off only while both switches are on and acknowledged, and except on the modem reset is released only while both switches are on |
| PowerDomains.PowerUpOutcome | aether-rmx3171/ports/TODO/clk-mt6768/clk-mt6768-pg.c:953-2636 | what the power-up script of each domain does to every bit of every register |
| PowerDomains.PowerDownOutcome | aether-rmx3171/ports/TODO/clk-mt6768/clk-mt6768-pg.c:953-2636 | what the power-down script of each domain does to every bit of every register |
| PowerDomains.UpIsCanonical | aether-rmx3171/ports/TODO/clk-mt6768/clk-mt6768-pg.c:886-2636 | from any starting registers power-up ends in one canonical word with the domain's protect, clamp and SRAM bits clear and every bit outside its masks untouched |
| PowerDomains.DownIsCanonical | aether-rmx3171/ports/TODO/clk-mt6768/clk-mt6768-pg.c:886-2636 | power-down ends isolated, with clock disabled, SRAM down, bus protected and switches off; the modem keeps its reset bit |
| PowerDomains.PowerCycle | aether-rmx3171/ports/TODO/clk-mt6768/clk-mt6768-pg.c:886-2636 | power-down then power-up ends where power-up alone would, and is the identity on registers that already were as power-up leaves them |
| PowerDomains.ResetStaysReleased | aether-rmx3171/ports/TODO/clk-mt6768/clk-mt6768-pg.c:953-2620 | every power-down ends with both switches off, and with reset still released if and only if the domain is the modem and it was before |
| PowerDomains.ModemResetStaysReleased | aether-rmx3171/ports/TODO/clk-mt6768/clk-mt6768-pg.c:953-1037 | so a modem that has been powered up ends every power-down with its reset released |
| PowerDomains.FrameAtEveryWrite | aether-rmx3171/ports/TODO/clk-mt6768/clk-mt6768-pg.c:886-2636 | at every single write of every script, no bit outside the running domain's masks has moved |
| PowerDomains.StatusFollowsSwitches | aether-rmx3171/ports/TODO/clk-mt6768/clk-mt6768-pg.c:2888-2894 | after a whole power-down or power-up both status registers agree with the switches, however the hardware timed its acknowledges, and other domains' agreement is kept |
| PowerDomains.OverlapExactly | aether-rmx3171/ports/TODO/clk-mt6768/clk-mt6768-pg.c:245-345 | two domains share a register bit if and only if they are the DRAM interface with the modem, the display or the graphics domain, or the display with one of its four clients |
| PowerDomains.BusInterferes | aether-rmx3171/ports/TODO/clk-mt6768/clk-mt6768-pg.c:886-2636 | taking the bus of one domain down sets a bit in another's masks, and bringing it up clears one, for exactly those pairs |
| PowerTree.BeforesReverseAfters | aether-rmx3171/ports/TODO/clk-mt6768/clk-mt6768-pg.c:3099-3163 | for any two registered callbacks, any half of which may be absent: of two after_on halves the earlier callback's runs first, of two before_off halves last; with all halves present the places are exactly mirrored |
| PowerTree.PrepareRises | aether-rmx3171/ports/TODO/clk-mt6768/clk-mt6768-pg.c:3207-3281 | pg_prepare turns on its own domain only, enables each pre-clock once per listing, and adds one way up to the domain's history |
| PowerTree.UnprepareFalls | aether-rmx3171/ports/TODO/clk-mt6768/clk-mt6768-pg.c:3284-3344 | pg_unprepare of a powered domain is the mirror image |
| PowerTree.PrepareKeeps | aether-rmx3171/ports/TODO/clk-mt6768/clk-mt6768-pg.c:3207-3281 | a reference-counted prepare, parent first, keeps the tree's invariant at any depth |
| PowerTree.UnprepareKeeps | aether-rmx3171/ports/TODO/clk-mt6768/clk-mt6768-pg.c:3284-3344 | a reference-counted unprepare, parent last, keeps it |
| PowerTree.RunInv | aether-rmx3171/ports/TODO/clk-mt6768/clk-mt6768-pg.c:3045-3344 | the invariant holds after any balanced requests from any boot state |
| PowerTree.PoweredByCount | aether-rmx3171/ports/TODO/clk-mt6768/clk-mt6768-pg.c:3207-3344 | a domain is powered exactly when its count is positive, if and only if it is not one found on at boot, never cut since and held by nobody |
| PowerTree.ParentHeld | aether-rmx3171/ports/TODO/clk-mt6768/clk-mt6768-pg.c:3475-3492 | a prepared child keeps its parent prepared and powered; a child is powered only while its parent is, if and only if it is not one boot left on and nobody has cut over a parent nobody holds, off at boot or cut since |
| PowerTree.TakenAndGivenBack | aether-rmx3171/ports/TODO/clk-mt6768/clk-mt6768-pg.c:3207-3344 | the smallest run into that exception: a root gate taken and given back is cut, and all else stays as boot left it |
| PowerTree.ClocksBalance | aether-rmx3171/ports/TODO/clk-mt6768/clk-mt6768-pg.c:3221-3242 | every pre-clock is enabled exactly as often as prepared domains list it |
| PowerClocks.UsablePrefix | aether-rmx3171/ports/TODO/clk-mt6768/clk-mt6768-pg.c:3221-3242 | the pre-clocks used are the listed ones up to the first whose lookup fails |
| PowerClocks.ClockedWhilePowered | aether-rmx3171/ports/TODO/clk-mt6768/clk-mt6768-pg.c:3207-3344 | over every balanced run a domain's switches move only while its own history keeps its first pre-clocks enabled, and its bus and callbacks are touched only while it keeps all of them |
| PowerNesting.PoweredUnderParent | aether-rmx3171/ports/TODO/clk-mt6768/clk-mt6768-pg.c:3475-3492 | after every single action of every balanced run, a child that boot did not leave on is powered only while its parent is |
| PowerTree.HistoryIsRounds | aether-rmx3171/ports/TODO/clk-mt6768/clk-mt6768-pg.c:3045-3344 | a domain's whole history is complete rounds (clocks, power, clocks, bus, after_on; before_off, bus, clocks, power, clocks), plus one way up while it is prepared |
| PowerTree.CallbacksBracket | aether-rmx3171/ports/TODO/clk-mt6768/clk-mt6768-pg.c:3099-3163 | after_on and before_off fall only inside the intervals in which the domain is powered and its own bus open, by its own actions, and its history ends where its switches say it is |
| PowerTree.BracketsFromCut | aether-rmx3171/ports/TODO/clk-mt6768/clk-mt6768-pg.c:3216-3219 | over every balanced run, read from the off state the bracketing holds if and only if the domain was not found on at boot or has not been cut since |
| PowerTree.AllGivenBack | aether-rmx3171/ports/TODO/clk-mt6768/clk-mt6768-pg.c:3207-3344 | once every prepare is given back all counts are zero, all pre-clocks disabled, and every domain is off unless boot left it on untouched |
| PowerGates.Mt6768Wf | aether-rmx3171/ports/TODO/clk-mt6768/clk-mt6768-pg.c:3475-3492 | the chip's own gates are a forest with every domain once and its own scripts, so all results about trees hold of it |
| PowerClocks.WaysWritten | aether-rmx3171/ports/TODO/clk-mt6768/clk-mt6768-pg.c:3404-3492 | every domain's way up and way down on this chip, step by step, with its own clocks |
| PowerClocks.FirstPrepare | aether-rmx3171/ports/TODO/clk-mt6768/clk-mt6768-pg.c:3475-3492 | with a gate and its ancestors off, its first prepare writes the ancestors' ways up, root first, then its own, and powers nobody else |
| PowerGates.ReadsBothStatuses | aether-rmx3171/ports/TODO/clk-mt6768/clk-mt6768-pg.c:2888-2894 | at rest a domain reads as on if and only if both status registers say so |
| PowerGates.ChildLeftOverParent | aether-rmx3171/ports/TODO/clk-mt6768/clk-mt6768-pg.c:3216-3344 | on this chip, with the display and the image processor on at boot, one prepare and unprepare of the display leaves the image processor on, held by nobody, over a display that is off, and calls before_off without after_on |
| PowerProtect.ProtectFollowsLastBus | aether-rmx3171/ports/TODO/clk-mt6768/clk-mt6768-pg.c:886-3344 | over any requests from any boot registers a protect bit is set if and only if the last bus action of all domains naming it closed a bus; one that a single domain names follows that domain's own bus |
| PowerProtect.ProtectedWhileUp | aether-rmx3171/ports/TODO/clk-mt6768/clk-mt6768-pg.c:1113-3344 | with the display held, taking and giving back the camera leaves a protect bit of the display set |
| PowerProtect.ReleasedWhileDown | aether-rmx3171/ports/TODO/clk-mt6768/clk-mt6768-pg.c:1355-3281 | bringing the display up clears a protect bit of a camera that is off |
| PowerGates.ScpSys.RegisterPgCallback | aether-rmx3171/ports/TODO/clk-mt6768/clk-mt6768-pg.c:552-565 | a new callback goes to the head of the list |
| PowerGates.ScpSys.EnableClks | aether-rmx3171/ports/TODO/clk-mt6768/clk-mt6768-pg.c:3221-3242 | the pre-clock loop enables the list up to the first clock that is not found |
| PowerGates.ScpSys.DisableClks | aether-rmx3171/ports/TODO/clk-mt6768/clk-mt6768-pg.c:3300-3319 | the mirror loop disables the same ones |
| PowerGates.ScpSys.EnableBus | aether-rmx3171/ports/TODO/clk-mt6768/clk-mt6768-pg.c:3088-3106 | the bus is opened, then after_on runs along the list |
| PowerGates.ScpSys.DisableBus | aether-rmx3171/ports/TODO/clk-mt6768/clk-mt6768-pg.c:3156-3174 | before_off runs against the list, then the bus is closed |
| PowerGates.ScpSys.PgPrepare | aether-rmx3171/ports/TODO/clk-mt6768/clk-mt6768-pg.c:3207-3281 | pg_prepare, in place, is the specified step, with its skip of a domain that reads as on |
| PowerGates.ScpSys.PgUnprepare | aether-rmx3171/ports/TODO/clk-mt6768/clk-mt6768-pg.c:3284-3344 | pg_unprepare, in place, is the specified step |
| PowerGates.ForceOffOrder | aether-rmx3171/ports/TODO/clk-mt6768/clk-mt6768-pg.c:3744-3770 | forcing everything off ends with all domains off but DPY and IFR, and never on the way leaves a child powered over a parent that is off |
| SimpleGauge.LookupIsFirstRow | aether-rmx3171/ports/power/aether-simple-gauge.c:136-158 | one table answers with the first row the voltage reaches or passes; the interpolation inside a row pair never contributes |
| SimpleGauge.LookupRange | aether-rmx3171/ports/power/aether-simple-gauge.c:136-158 | a table answers 0 or 2 to 100, never 1 |
| SimpleGauge.LookupMonotone | aether-rmx3171/ports/power/aether-simple-gauge.c:136-158 | more voltage never lowers a table's answer, whatever the table holds |
| SimpleGauge.SocMonotoneInVoltage | aether-rmx3171/ports/power/aether-simple-gauge.c:100-181 | the reported charge never falls when voltage rises, for any tables and any temperatures |
| SimpleGauge.SocBetweenTables | aether-rmx3171/ports/power/aether-simple-gauge.c:166-180 | it lies between the two tables' answers, so the final clamp never changes it |
| SimpleGauge.SocAtProfileTemp | aether-rmx3171/ports/power/aether-simple-gauge.c:111-122 | with strictly falling temperatures it equals table k's own answer at table k's temperature |
| SimpleGauge.SocUsesNeighbours | aether-rmx3171/ports/power/aether-simple-gauge.c:108-122 | with strictly falling temperatures, between two neighbouring ones the charge lies between those two tables' answers; above the hottest and below the coldest that table answers alone |
| SimpleGauge.SocDefaultTable | aether-rmx3171/ports/power/aether-simple-gauge.c:103-118 | with temperatures in disorder, a reading that fits no pair is answered by the second table |
| SimpleGauge.SocIsLinear | aether-rmx3171/ports/power/aether-simple-gauge.c:169-180 | between two tables the charge is the straight line between their answers, to within one percent |
| SimpleGauge.SocMonotoneInTemp | aether-rmx3171/ports/power/aether-simple-gauge.c:169-180 | inside one bracket it moves monotonically with temperature from one table's answer to the other's |
| SimpleGauge.DefaultSoc | aether-rmx3171/ports/power/aether-simple-gauge.c:309-313 | on the default table one percent is 9 mV from 4200 mV down, and below 3310 mV it reads empty |
| SimpleGauge.Gauge.LookupVoltage | aether-rmx3171/ports/power/aether-simple-gauge.c:136-158 | the row loop over the profile array is that lookup |
| SimpleGauge.Gauge.ComputeSoc | aether-rmx3171/ports/power/aether-simple-gauge.c:100-181 | the two stages with their overrides and default pair compute the specified charge |
| SimpleGauge.Gauge.Poll | aether-rmx3171/ports/power/aether-simple-gauge.c:183-199 | a poll updates the cached readings only when the voltage is positive |
| PumpExpress.RunInv | aether-rmx3171/ports/power/mt6370-pe-rmx3171.c:128-211 | every interleaving of notifications, expiry and execution keeps: IDLE exactly when no adapter is present, never NEGOTIATING outside the lock, DETECTING only while work is pending or about to run, at most three attempts a session |
| PumpExpress.EveryRun | aether-rmx3171/ports/power/mt6370-pe-rmx3171.c:174-211 | so every run from probe keeps it |
| PumpExpress.FollowsAdapter | aether-rmx3171/ports/power/mt6370-pe-rmx3171.c:174-211 | over every run from probe the driver is IDLE, with nothing pending, if and only if the last readable notification said offline or there was none |
| PumpExpress.PlugBeginsSession | aether-rmx3171/ports/power/mt6370-pe-rmx3171.c:193-198 | a plug begins a session of its own: detecting, no retries used, its work pending, old work left as it is |
| PumpExpress.StaleWorkIsHarmless | aether-rmx3171/ports/power/mt6370-pe-rmx3171.c:136-140 | work that runs after an unplug does nothing |
| PumpExpress.SessionFollowsVerdict | aether-rmx3171/ports/power/mt6370-pe-rmx3171.c:128-172 | while the adapter stays, the state is exactly what the answers of the executions say, whatever interleaves with them |
| PumpExpress.ThreeExecutionsSettle | aether-rmx3171/ports/power/mt6370-pe-rmx3171.c:159-170 | three executions reach RUNNING, exactly when one of the three is accepted, or FAILED |
| PumpExpress.EveryExecutionCounts | aether-rmx3171/ports/power/mt6370-pe-rmx3171.c:128-172 | in a session begun with no old work waiting every execution is an attempt: at most three, and none once the session has settled |
| PumpExpress.DetectingCanMove | aether-rmx3171/ports/power/mt6370-pe-rmx3171.c:166-170 | until it settles a session always has an expiry or an execution to go on with |
| PumpExpress.StaleWorkJumpsTheDelay | aether-rmx3171/ports/power/mt6370-pe-rmx3171.c:193-204 | a new session can make an attempt before its own 500 ms have run if and only if, at the plug, work started before the unplug still waits for the lock |
| PumpExpress.StaleWorkExample | aether-rmx3171/ports/power/mt6370-pe-rmx3171.c:128-204 | a run from probe in which it does |
| PumpExpress.SendPulsePattern | aether-rmx3171/ports/power/mt6370-pe-rmx3171.c:86-105 | all ten voltages are sent, alternating 7 V and 5 V, or sending stops right after the first refused write with its error |
| PumpExpress.CheckAdapterResponse | aether-rmx3171/ports/power/mt6370-pe-rmx3171.c:107-126 | success exactly between 8.5 V and 9.5 V; a failed read keeps its error |
| PumpExpress.Driver.PsyNotify | aether-rmx3171/ports/power/mt6370-pe-rmx3171.c:174-211 | the notifier, in place, is the specified step |
| PumpExpress.Driver.NegotiateWork | aether-rmx3171/ports/power/mt6370-pe-rmx3171.c:128-172 | the work function, in place, is the specified step |
| Thermistor.TempToResFalls | aether-rmx3171/ports/TODO/gm30-battery/mtk_battery.c:1392-1430 | hotter is never more resistive |
| Thermistor.ResToTempFalls | aether-rmx3171/ports/TODO/gm30-battery/mtk_battery.c:1432-1468 | more resistance never reads hotter, and every reading is within -400 to 600 tenths |
| Thermistor.RowsExact | aether-rmx3171/ports/TODO/gm30-battery/mtk_battery.c:1392-1468 | at a row of the table both conversions give that row; beyond the ends they stay at the ends |
| Thermistor.RoundTrip | aether-rmx3171/ports/TODO/gm30-battery/mtk_battery.c:1383-1468 | every whole temperature from -40 to 60 comes back as 10*t or 10*t - 1 tenths, at or below zero exactly, for any table falling at least 10 ohms a degree |
| Thermistor.DividerRises | aether-rmx3171/ports/TODO/gm30-battery/mtk_battery.c:1490-1496 | more resistance, more divider voltage, in spite of the truncated division |
| Thermistor.DividerShare | aether-rmx3171/ports/TODO/gm30-battery/mtk_battery.c:1490-1496 | the divider voltage is the thermistor's share of the pull-up voltage, rounded down |
| Thermistor.ThresholdsOrdered | aether-rmx3171/ports/TODO/gm30-battery/mtk_battery.c:1470-1518 | with one current sample a hotter level never sits above a colder one |
| Thermistor.LevelsInOrder | aether-rmx3171/ports/TODO/gm30-battery/mtk_battery.c:1470-1518 | as the hardware sees them, a hotter level is no higher than a colder one if and only if the battery current does not take more than the hot divider voltage and no more than the cold one |
| Thermistor.LevelsCross | aether-rmx3171/ports/TODO/gm30-battery/mtk_battery.c:1470-1518 | a table, a divider and a current for which 26 and 24 degrees give -12 and 12, crossed once cast to unsigned |
| Thermistor.Monitor.TempConverBattThermistor | aether-rmx3171/ports/TODO/gm30-battery/mtk_battery.c:1392-1429 | the table loop computes the specified resistance |
| Thermistor.Monitor.BattThermistorConverTemp | aether-rmx3171/ports/TODO/gm30-battery/mtk_battery.c:1432-1468 | the table loop computes the specified temperature |
| Thermistor.Monitor.TempToBattVolt | aether-rmx3171/ports/TODO/gm30-battery/mtk_battery.c:1470-1518 | a call that does not update reuses the last current sample |
| Thermistor.Monitor.BatTempLevels | aether-rmx3171/ports/TODO/gm30-battery/mtk_battery_core.c:2242-2250 | both programmed levels, reusing one current sample, and when the hot one is no higher than the cold one |
| ProfileTable.ReadRow | aether-rmx3171/ports/TODO/gm30-battery/mtk_battery_core.c:1004-1018 | one iteration reads a row; cells past the end keep the row before, and a missing fourth cell does not move the index |
| ProfileTable.ReadRows | aether-rmx3171/ports/TODO/gm30-battery/mtk_battery_core.c:1004-1033 | the first loop reads rows until the property, cut short or not, or the profile's size runs out, at least one if there is any |
| ProfileTable.ParseTable | aether-rmx3171/ports/TODO/gm30-battery/mtk_battery_core.c:988-1050 | the first rows equal the property's, the rest repeat the last, nothing beyond is touched; a missing property leaves the table alone |
| ProfileTable.HundredRows | aether-rmx3171/ports/TODO/gm30-battery/mtk_battery_core.c:1040-1049 | exactly 100 rows are written if and only if there is a property, at most 100 rows of it are used, and with four columns the last row used is complete |
| ProfileTable.RowsUsed | aether-rmx3171/ports/TODO/gm30-battery/mtk_battery_core.c:1004-1033 | of n complete rows the first min(n, size) are used |
| ProfileTable.CutShort | aether-rmx3171/ports/TODO/gm30-battery/mtk_battery_core.c:1017-1049 | otherwise 101 can be written: five cells of four columns |
| ProfileTable.CompleteRow | aether-rmx3171/ports/TODO/gm30-battery/mtk_battery_core.c:1004-1030 | a complete row is what the property holds there |
| ProfileTable.MissingCells | aether-rmx3171/ports/TODO/gm30-battery/mtk_battery_core.c:1004-1024 | where the property ends inside a row the missing cells repeat the row before |
| ProfileTable.FilledInOrder | aether-rmx3171/ports/TODO/gm30-battery/mtk_battery_core.c:1040-1049 | a property in order gives a table in order |

## Left out

- Machine-integer overflow, except in the reset rebase and the unsigned cast: counts, millivolts and products are taken to fit their C types.
- The consumer field `variable` is an int in the source; the rebase stores the full distance in it. Nothing but the log reads it.
- List nodes are values in a sequence, not intrusive links: a consumer's fields after it is unlinked, and aliasing between nodes, are not captured.
- CoulombSplit.SplitResetExactly: is about the consumers' distances; comparators, flag and accounting after a reset taken apart are not compared with the ideal machine's.
- TimerRuns.NoTimerLost: runs in which a suspend ends in PM_POST_HIBERNATION are not covered, because that event does not resume the timer.
- PowerTree.RunInv: clock enables succeed and callbacks are registered before the first request; a failed `clk_prepare_enable` has no rollback, and a callback registered mid-run has no matching half.
- PowerTree.PrepareKeeps: the clock core (counts, parent first on the way up, gate first on the way down, one lock) is the kernel's contract and not part of this repository; parents of the pre-clocks are not followed.
- ProfileTable.ParseTable: the columns are 3 or 4, as its caller makes sure, and the rows written fit the memory given; the narrowing of voltages and resistances to 16 bits is not modelled.
- Thermistor.ThresholdsOrdered: uses the configured pull-up voltage for both levels; where the build reads it from the PMIC on every call, the two levels may see different ones.
- PumpExpress.SendPulsePattern: the delays between writes are not modelled.
- Hardware latency: acknowledge waits end, after any number of steps; the timeout dump (`ram_console_update`) and the connectivity recovery path are left out.
- Disabled gauge, disabled power gating, uninitialised services and the bring-up branches: one-line guards.
- Wakelocks: the worker relaxes its wakelock unconditionally, so nothing useful is kept about it.
- Netlink, ioctl, sysfs, procfs, logging, device-tree reading, probe and remove code, regulators, I2C and SPI: input and output plumbing.
- `mtk_gauge_class.c`, `clk-mt6768.c`, the pin-control and clock headers, and the FM, touch, audio, panel, fingerprint and lights drivers: wrappers, constants and one-branch logic.
- `BattVoltToTemp`, `force_get_tbat_internal`, and the battery-temperature interrupt's daemon notifications.
