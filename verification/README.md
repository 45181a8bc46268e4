# Verified model of the smart-home firmware

This project models the stateful parts of the firmware and proves what they do over whole runs: the
button driver, the LED blink scheduler, the event bus, the ADC button table, the HTTP body buffer,
the breathing lights, and the Wi-Fi manager on top of the LED. `dafny verify dfyconfig.toml` checks it.

Each component has a value-level specification, and lemmas about every run of it. Where the source
changes objects in place there is also a class whose methods do what the C or C++ does, loop by loop,
and whose contracts equate the new state with that specification. Hardware, FreeRTOS and esp_timer calls
are commands and flags; the outcome of a lock, a radio call or an input reading is a parameter.

| files | what they model |
|---|---|
| Button, ButtonDebounce, ButtonRuns, ButtonSessions | one button: handler, debouncer, closed form in run lengths, event grammar |
| ButtonCalls, ButtonShown, ButtonTaps | what the callbacks and a poller read, which builds register a press, chains of quick presses |
| ButtonFleet, ButtonDriver, ButtonWrap | the linked list of buttons, its timer and its sweep, and the wrap of its count |
| AdcTable, AdcMap, AdcLedger, AdcDriver | the two-level ADC table as a bounded map, and every answer it gives |
| ButtonRegistry, ButtonApi | creating and deleting buttons of both kinds |
| LedBlink, LedTrace, LedCommands, LedLamp, LedDriver | the blink scheduler, what the lamp shows told from its log, what each command does, and what is left on the lamp at the end |
| EventBus, EventBusSafety, EventBusOrder, EventBusSteps, EventBusDrain, EventBusDriver | publishers, dispatch loop and destructor, interleaved |
| HttpBody | the growable response buffer |
| LightBreath, LightRuns, LightLasting, LightChannels, LightDriver | breathing channels, their timers, each on its own, and the registry of four lights |
| WifiLed, WifiOrders, WifiDriver | the retry counter, the ready flag and the LED together |
| Common | an option type and removal from a list |

What the proofs found where the code and its documentation part, each with the exact condition and an input
that the code can receive:

- A debounce setting of 8 is permitted (Kconfig range, and the comment "MAX 8"), but the 3-bit counter
  wraps before it gets there: such a button raises no event over any run, and a build registers presses iff
  its setting is at most 7. `EightIsMute`, `RegistersPressesIff`.
- The press count is a byte: n quick presses and a gap end in the click of n modulo 256, and
  `iot_button_get_repeat` reports that remainder. 257 presses end in a single click. `TapsAreOneChain`,
  `ManyPressesSingleClick`.
- The buttons left after a deletion are counted in 16 bits: the timer stops too early exactly when a
  deletion leaves a positive multiple of 65536 buttons. A deletion of a listed button does so only with at
  least 65537 in the list. `TimerRightIffNoWrap`, `WrapNeedsMany`, `TimerStopsTooEarly`.
- `button_adc_deinit` on channel 0 succeeds although the channel is not in use exactly while some slot was
  never taken since the table was last zero-filled; on a fresh table it does. `LedgerDecides`,
  `DeinitOfNothingSucceeds`.
- A STOP step does not turn the lamp off, as the comment on it in components/indicator/README.md:33 has it: it
  leaves the lamp as the last HOLD executed had it, so a program ends dark iff that HOLD was OFF. PROVISIONED
  holds the lamp off and stops, and still ends lit when a blink that lit the lamp came in between.
  `StopStepKeepsLamp`, `StopEndsAsLastHold`, `PreemptedStopEndsLit`.
- A stop command, and a connection lost for good, keep the lamp too: with CONNECTED stopped, or after an
  address and six disconnections, nothing blinks and the lamp is lit. `StopRunsNothing`,
  `StopCommandLeavesLit`, `FailureStopsAll`, `LostConnectionLeavesLit`.
- Stopping a ready Wi-Fi manager leaves CONNECTED blinking, and a restart then searches under it. The light
  says whether the manager is ready until such a stop takes effect, and in general shows CONNECTED iff the
  manager is ready or the stop's CONNECTED is left over. `TruthfulIffNeverStopped`, `LightTellsStory`,
  `RestartShows`, `StoppedManagerStillShowsConnected`.
- A light created when four are registered is returned, but stays out of the registry for ever, and no breath
  of it gets past its first fade, whatever slots become free: of n lights with a breath on the last, that breath
  stands still iff n is above 4. `RegistryIsRoll`, `RefusedStandsStill`, `FifthLightStandsStill`.
- A breath whose timer could not be created fails again for the same period, whatever happens later, exactly
  until a breath of another period comes or the light is deleted. `StuckUntilFreed`, `FailedTimerSticks`,
  `FailedTimerRun`.
- A release after `SetResponseData` hands out only what was appended since, not the data set: right after a set
  it hands out that data iff it is empty. `ReleaseIsConcatenation`, `SetIsNotReleased`.

## Model

| member | source | states |
|---|---|---|
| Button.OptionsAreValid | components/button/Kconfig:3-24 | in every permitted build SHORT_TICKS and LONG_TICKS are the whole periods in their times, 2..400 and 25..2500, far below the wrap of the 16-bit counter |
| Button.AdvanceKeepsInv | components/button/iot_button.c:68-156 | one tick keeps the state among 0, 1, 2, 3, 5 with its tick bounds, "down" iff the level is active, and PRESS_DOWN minus PRESS_UP equal to it |
| Button.RunKeepsInv | components/button/iot_button.c:64-156 | the button invariant over every run of readings |
| Button.CreatedRunBalances | components/button/iot_button.c:166-194 | from creation, presses exceed releases by one exactly while the debounced level is active |
| ButtonDebounce.CounterIsStreak | components/button/iot_button.c:73-81 | for settings 1..7 the 3-bit counter is the exact length of the disagreeing streak |
| ButtonDebounce.FlipsExactlyAfterStreak | components/button/iot_button.c:73-81 | the level flips at a reading iff the last DEBOUNCE_TICKS readings exist and all differ from it |
| ButtonDebounce.EightNeverFlips | components/button/iot_button.c:39-81 | from a setting of 8 on, no run of readings ever changes the level |
| ButtonDebounce.CanPressIff | components/button/iot_button.c:55-81 | some run changes the stored level iff the setting is at most 7 |
| ButtonRuns.IdleRuns | components/button/iot_button.c:84-155 | from state 0, alternating runs emit exactly the closed form in run lengths, each event at its call |
| ButtonRuns.ChainRuns | components/button/iot_button.c:111-142 | after the n-th quick press: a gap of SHORT_TICKS + 2 calls ends the chain in a click, a shorter one repeats |
| ButtonRuns.RepeatReleased | components/button/iot_button.c:131-142 | a repeat press continues the chain iff its length modulo 65536 is below SHORT_TICKS |
| ButtonRuns.RunsOf | components/button/iot_button.c:84-155 | every level sequence that starts pressed is such a list of alternating runs |
| ButtonRuns.RunsOfExpanded | components/button/iot_button.c:84-155 | and the only one: splitting the levels of a run list gives the list back |
| ButtonRuns.MachineMeetsClosedForm | components/button/iot_button.c:84-155 | on every level sequence the machine emits the closed form |
| ButtonRuns.LevelIsDebounced | components/button/iot_button.c:66-81 | the levels the machine sees are the debouncer's, reading by reading |
| ButtonRuns.HandlerMeetsClosedForm | components/button/iot_button.c:64-156 | for every build, active level and run of readings, a new button raises the closed-form events at the closed-form calls |
| ButtonSessions.IdleSessions | components/button/iot_button.c:84-155 | the sessions of a run list, of which all but the last are over |
| ButtonSessions.EventGrammar | components/button/iot_button.c:84-155 | the event stream of every run is a list of sessions: a long press with its holds, or a chain of presses closed by a time-out with the click of its count modulo 256, or by a slow press with none |
| ButtonCalls.CallsOfStream | components/button/iot_button.c:59-156 | over every run the callbacks are those of the whole event stream, and the event and press count each can read, as well as the count at the end, follow from the events before it |
| ButtonCalls.EveryCallShows | components/button/iot_button.c:293-305 | every callback reads its own event, PRESS_REPEAT excepted, and the click callbacks read a count of 1 and 2 |
| ButtonShown.IdleIffOver | components/button/iot_button.c:84-155 | after every run the machine is idle iff the sessions of its event stream are over |
| ButtonShown.EventField | components/button/iot_button.c:84-155 | after every run iot_button_get_event returns NONE_PRESS if the last tick found the sessions over and the level inactive, and otherwise the last event raised, PRESS_DOWN for PRESS_REPEAT |
| ButtonTaps.EightIsMute | components/button/iot_button.c:39-81 | with the permitted setting 8 no run of readings raises any event |
| ButtonTaps.RegistersPressesIff | components/button/iot_button.c:55-93 | some run raises PRESS_DOWN iff the setting is at most 7 |
| ButtonTaps.TapsAreOneChain | components/button/iot_button.c:111-142 | n quick presses and a long gap, on the readings, are one chain with the click of n modulo 256, which is the count reported afterwards |
| ButtonTaps.ManyPressesSingleClick | components/button/iot_button.c:111-129 | 257 quick presses end in SINGLE_CLICK with a reported count of 1 |
| ButtonFleet.TimerRightIffNoWrap | components/button/iot_button.c:178-224 | the timer runs iff there are buttons, at every point of a run, iff no deletion leaves a positive multiple of 65536 |
| ButtonFleet.WrapNeedsMany | components/button/iot_button.c:211-224 | a deletion of a listed button wraps the count only with more than 65536 buttons in the list |
| ButtonWrap.TimerStopsTooEarly | components/button/iot_button.c:211-224 | deleting one of 65537 live buttons stops the timer and leaves 65536 that are ticked no more |
| ButtonFleet.EachButtonAlone | components/button/iot_button.c:158-164 | over every run of creates, deletes and ticks each button is in the state, and has raised the events, of its own readings alone, those of the ticks at which the timer ran |
| ButtonFleet.ListedIffBorn | components/button/iot_button.c:166-226 | a handle is in the list iff it was created and not deleted since |
| ButtonFleet.LatestFirst | components/button/iot_button.c:158-209 | over every run the list, and so the order of a sweep, is that of creation, the latest first |
| ButtonFleet.TimerIsTold | components/button/iot_button.c:178-224 | over every run the calls alone tell whether the timer runs |
| ButtonDriver.ButtonDev.Handler | components/button/iot_button.c:64-156 | the in-place handler becomes what the handler function says, and runs exactly the registered callbacks among its events, each with the fields it finds at that moment |
| ButtonDriver.Driver.CreateCom | components/button/iot_button.c:166-194 | puts a new released button at the head of an acyclic list and has the timer running |
| ButtonDriver.Driver.Sweep | components/button/iot_button.c:158-164 | one tick steps every node of the list once, by its own reading |
| ButtonDriver.Driver.DeleteCom | components/button/iot_button.c:196-226 | unlinks exactly the given node, keeps order and acyclicity, and stops the timer when the 16-bit count is 0 |
| ButtonDriver.Driver.Unlink | components/button/iot_button.c:200-209 | the pointer-to-a-link loop removes exactly the given node, whether or not it is there |
| AdcTable.InitKeepsInv | components/button/button_adc.c:81-125 | init keeps the first-match invariant, is_init iff some max is non-zero, is_configured iff some slot is in use |
| AdcTable.DeinitKeepsInv | components/button/button_adc.c:127-167 | deinit keeps the same, through the reset of a channel and the clearing of the whole table |
| AdcMap.FindFindsInit | components/button/button_adc.c:71-79 | the lookup, which ignores is_init, finds the slot in use of a channel |
| AdcMap.CountIsChannels | components/button/button_adc.c:61-69 | slots in use and distinct channels are equally many |
| AdcMap.InitSucceedsIff | components/button/button_adc.c:83-95 | on valid arguments init succeeds iff the key is free and the channel is present or there is room for one more |
| AdcMap.InitErrors | components/button/button_adc.c:83-86 | which error a rejected argument gets |
| AdcMap.InitMeaning | components/button/button_adc.c:113-124 | a successful init adds its key and window to the map; a failed one changes nothing |
| AdcMap.DeinitSucceedsIff | components/button/button_adc.c:129-133 | deinit succeeds iff the channel is in use, or is 0 with a zero-filled slot in the table |
| AdcMap.DeinitMeaning | components/button/button_adc.c:135-166 | a successful deinit removes its key from the map and no other |
| AdcMap.DeinitUndoesInit | components/button/button_adc.c:81-167 | deinit after init succeeds and restores the earlier map |
| AdcMap.ReachableInv | components/button/button_adc.c:59-167 | every reachable table keeps the invariant |
| AdcLedger.InitMeetsLedger | components/button/button_adc.c:81-125 | init answers, and changes the map and the count of slots taken, as the ledger says |
| AdcLedger.DeinitMeetsLedger | components/button/button_adc.c:127-167 | deinit answers, and changes the map and the count of slots taken, as the ledger says |
| AdcLedger.LedgerDecides | components/button/button_adc.c:59-167 | after every run the next init or deinit answers what a map and a count kept from the operations alone determine |
| AdcLedger.DeinitOfNothingSucceeds | components/button/button_adc.c:127-142 | on the zero-filled table a deinit of channel 0 succeeds |
| AdcDriver.AdcButtons.FindChannel | components/button/button_adc.c:71-79 | the search loop returns the first slot with the number, or -1 |
| AdcDriver.AdcButtons.FindUnusedChannel | components/button/button_adc.c:61-69 | the search loop returns the first slot not in use, or -1 |
| AdcDriver.AdcButtons.InitButton | components/button/button_adc.c:81-125 | the in-place init is the specified one, with its error |
| AdcDriver.AdcButtons.DeinitButton | components/button/button_adc.c:127-167 | the in-place deinit, with its counting loops, is the specified one |
| ButtonRegistry.SplitCombined | components/button/include/button_adc.h:24-26 | channel and index survive packing into the user data |
| ButtonRegistry.TableHoldsLiveButtons | components/button/iot_button.c:228-273 | over every run the ADC table holds exactly the live ADC buttons, and none share a channel and index |
| ButtonRegistry.CreateAndDeleteOutcomes | components/button/iot_button.c:228-273 | deleting a live button never fails; an ADC create succeeds iff no live button has its key and there is room |
| ButtonRegistry.LiveIsTold | components/button/iot_button.c:228-273 | over every run the calls alone tell which handles are live and for which pin, or channel and index |
| ButtonApi.IotButton.CreateAdc | components/button/iot_button.c:239-253 | returns NULL, changing nothing, exactly when the table refuses; otherwise both structures gain the button |
| ButtonApi.IotButton.Delete | components/button/iot_button.c:255-273 | deleting a live button succeeds and removes it from both structures |
| LedBlink.RunOneKeepsInv | components/indicator/led_indicator.c:278-319 | one pass of the runner keeps counters in range, the active blink the first not stopped, the NULL list unselected |
| LedBlink.PassProgress | components/indicator/led_indicator.c:278-320 | every pass that stays in the loop lowers the measure: live blinks, lap taken, steps to the terminator |
| LedBlink.Runner | components/indicator/led_indicator.c:273-321 | for every well-formed table the runner ends, with nothing active or the timer armed |
| LedBlink.NeverStalls | components/indicator/led_indicator.c:416-447 | in every reachable state an active blink has an armed timer |
| LedBlink.StopRunsNothing | components/indicator/led_indicator.c:433-447 | a stop executes no step and changes neither lamp nor timer |
| LedBlink.FirmwareListsAreWellFormed | components/indicator/led_indicator.c:45-124 | the seven blink lists are well formed |
| LedCommands.FirmwareBlinks | components/indicator/led_indicator.c:45-124 | cycle time, lit time, flashes and repetition of each of the seven blinks, in the order of their priority |
| LedCommands.CommandsLogged | components/indicator/led_indicator.c:416-447 | over every run the log holds exactly the commands that name a known blink, in order |
| LedCommands.StartUnderIs | components/indicator/led_indicator.c:420-430 | a start under a playing blink sets its own counter and is recorded, and nothing else happens |
| LedCommands.StartOverRuns | components/indicator/led_indicator.c:420-430 | any other start runs the first step of its blink at once and comes to rest on a timed HOLD or with nothing active |
| LedCommands.StopIs | components/indicator/led_indicator.c:437-447 | a stop stops its blink, selects the next and is recorded, and nothing else happens |
| LedCommands.TimerStep | components/indicator/led_indicator.c:273-321 | after every command and firing the timer runs for the HOLD on the lamp if steps were executed, and is otherwise as before, or used up by the firing |
| LedTrace.EveryRunIsLegal | components/indicator/led_indicator.c:255-321 | every executed step is the next one of the playing blink of highest priority, and the lamp shows the last HOLD |
| LedTrace.PlaysOwnProgram | components/indicator/led_indicator.c:278-313 | the steps executed for a blink since its last start are a prefix of its own program, cyclic for LOOP, one pass for STOP |
| LedTrace.EveryBlinkPlays | components/indicator/led_indicator.c:255-447 | the projection in every reachable state, at most one pass for STOP; a playing blink implies an armed timer and an active blink at least as urgent |
| LedTrace.FiringMovesOn | components/indicator/led_indicator.c:273-321 | a firing resumes the active blink at once and rests on a HOLD that is on the lamp and being timed, or with nothing active |
| LedLamp.StopStepKeepsLamp | components/indicator/led_indicator.c:278-320 | a STOP step with nothing else playing ends the blinking and leaves lamp and timer as they are |
| LedLamp.StopEndsAsLastHold | components/indicator/led_indicator.c:278-320 | in every reachable state the last STOP leaves the lamp as the last HOLD executed for any blink, which is the program's own if nothing came in between |
| LedLamp.PreemptedStopEndsLit | components/indicator/led_indicator.c:106-109 | PROVISIONED, whose only HOLD is OFF, ends with the lamp lit when CONNECTED preempted it and was stopped |
| LedLamp.StopCommandLeavesLit | components/indicator/led_indicator.c:433-447 | starting and stopping CONNECTED leaves nothing active and the lamp lit |
| LedDriver.Indicator.BlinkListSwitch | components/indicator/led_indicator.c:255-266 | the search loop selects the first counter not stopped, or -1 |
| LedDriver.Indicator.BlinkListRunner | components/indicator/led_indicator.c:273-321 | the in-place runner loop ends and computes the specified runner |
| LedDriver.Indicator.StartBlink | components/indicator/led_indicator.c:416-431 | the in-place start is the specified one, refusing unknown blinks |
| LedDriver.Indicator.StopBlink | components/indicator/led_indicator.c:433-448 | the in-place stop is the specified one; its re-run branch is dead |
| EventBusSafety.NextConserves | main/core/event/event_bus.cc:97-192 | every step keeps accepted = queued + in flight + deleted, the capacity, and each publish in one place |
| EventBusSafety.NextDelivers | main/core/event/event_bus.cc:171-185 | every step keeps deliveries exact: a deleted event went to its snapshot once each, an undelivered one to nobody |
| EventBusSafety.OnePlace | main/core/event/event_bus.cc:97-192 | a fresh event is in at most one of queue, flight and deleted; a rejected one in none |
| EventBusOrder.EveryRun | main/core/event/event_bus.cc:81-195 | all invariants of the bus over every interleaving |
| EventBusOrder.ExactlyOnce | main/core/event/event_bus.cc:156-192 | accepted, dispatched to a handler and deleted at most once; deleted only after full delivery; rejected never enters |
| EventBusOrder.DrainsInOrder | main/core/event/event_bus.cc:42-46 | pops with no publish accepted in between come in non-decreasing priority value |
| EventBusOrder.SnapshotsAreSubscribers | main/core/event/event_bus.cc:172-180 | an event goes to exactly the subscribers of its name at the snapshot, or to none if the lock timed out |
| EventBusSteps.HandlersAreSubscribed | main/core/event/event_bus.cc:115-154 | over every interleaving the handlers of a name are those its granted subscribe and unsubscribe calls leave |
| EventBusSteps.SnapshotOfSubscribed | main/core/event/event_bus.cc:171-180 | an event goes to exactly the handlers the steps before its snapshot have subscribed to its name, or to none if the lock timed out |
| EventBusSteps.BooksOfSteps | main/core/event/event_bus.cc:97-113 | the steps alone tell which events were accepted and rejected, and how many are queued |
| EventBusSteps.RejectedWhenExiting | main/core/event/event_bus.cc:97-100 | a publish begun after the destructor is rejected and never accepted |
| EventBusSteps.PlaceOfSteps | main/core/event/event_bus.cc:156-195 | the steps alone tell the stage of the loop: it idles only after an empty queue under its lock, and leaves only by a check after the destructor has begun |
| EventBusSteps.EnabledIsTold | main/core/event/event_bus.cc:81-195 | which step can be taken after which run: calls of other threads at any time, the destructor's wait once the loop has left, the loop's by its stage |
| EventBusOrder.NoLoopStepAfterDestructor | main/core/event/event_bus.cc:81-84 | once the destructor has passed its wait no loop step is ever taken |
| EventBusOrder.TokenReachesDestructor | main/core/event/event_bus.cc:186-193 | the idle wait never takes the exit token, and a waiting destructor can pass once the loop is gone |
| EventBusOrder.ExitIsBounded | main/core/event/event_bus.cc:157-193 | once exit is set every loop step lowers a well-founded measure |
| EventBusOrder.OneMorePop | main/core/event/event_bus.cc:156-192 | once exit is set at most one more event is popped in any continuation, and none unless the loop was about to pop |
| EventBusOrder.LoopCanStep | main/core/event/event_bus.cc:156-195 | the loop is never stuck before it is gone |
| EventBusOrder.LockedPopIsDecided | main/core/event/event_bus.cc:160-167 | with the lock granted the loop idles iff there is nothing to pop |
| EventBusDrain.EmptyAfterAsManyTurns | main/core/event/event_bus.cc:156-192 | with the queue lock granted and no publish accepted, k turns take k events; after as many turns as events the queue is empty and all accepted events are delivered and deleted |
| EventBusDriver.EventBusImpl.Publish | main/core/event/event_bus.cc:97-113 | accepts iff not exiting, lock granted and room left; a path of the step model |
| EventBusDriver.EventBusImpl.SubscribeHandler | main/core/event/event_bus.cc:115-136 | the in-place subscribe is the specified step |
| EventBusDriver.EventBusImpl.UnsubscribeHandler | main/core/event/event_bus.cc:138-154 | the in-place unsubscribe is the specified step |
| EventBusDriver.EventBusImpl.LoopTurn | main/core/event/event_bus.cc:157-193 | one turn of the loop, with its delivery and exit handshake, is a path of the step model; it pops iff its lock is granted and the queue has an event, and ends iff exit is set |
| HttpBody.ReleaseIsConcatenation | main/core/util/http_response.cc:23-55 | over every run a release hands out exactly the chunks appended since the last release or set |
| HttpBody.CleanRunTail | main/core/util/http_response.cc:29-57 | from a fresh object the written bytes are the concatenation, zeros follow, at least one and at most max(2048, longest chunk + 1) |
| HttpBody.TailIsGiven | main/core/util/http_response.cc:23-55 | over every run each byte past the written ones is that of the vector last given, or 0 beyond its end; only zeros follow iff that vector has zeros there |
| HttpBody.SetIsNotReleased | main/core/util/http_response.cc:23-55 | a release right after a set hands out nothing, so the data set iff it is empty |
| HttpBody.GrowsByChunk | main/core/util/http_response.cc:29-36 | the vector keeps its length while a chunk fits with a byte to spare, and otherwise grows by 2048 or by one byte more than the chunk |
| HttpBody.HttpResponse.AppendResponseData | main/core/util/http_response.cc:29-40 | the in-place append is the specified one and stays inside the vector |
| HttpBody.HttpResponse.ReleaseReponseData | main/core/util/http_response.cc:50-55 | the swap hands out the written bytes and restarts on the caller's vector |
| LightBreath.FireSteps | components/light/light.c:37-52 | a firing steps exactly the channel that owns the timer, iff its light is registered |
| LightRuns.EveryChannelAlternates | components/light/light.c:37-205 | in every reachable state each channel's fades since its breath began are full, 0, full, 0, ... |
| LightRuns.RegisteredIffRoom | components/light/light.c:106-112 | a new light is registered iff one of the four slots is free |
| LightRuns.FifthLightStandsStill | components/light/light.c:37-112 | of n lights with a breath on the last, firing its timer changes nothing iff n is above 4 |
| LightLasting.StuckUntilFreed | components/light/light.c:183-205 | over every run a channel keeps a recorded period without a timer exactly until a breath of another period or the light's deletion |
| LightLasting.FailedTimerSticks | components/light/light.c:190-199 | after a failed timer creation, at any later point before such a call, a breath starts iff its period is another one and its timer can be created |
| LightLasting.FailedTimerRun | components/light/light.c:190-199 | a run that reaches such a channel |
| LightLasting.RegisteredStep | components/light/light.c:86-139 | any call keeps an existing light in or out of the registry, except its own deletion |
| LightLasting.RegistryIsRoll | components/light/light.c:86-139 | in every reachable state the registry holds exactly the lights created with fewer than four others in it and not deleted since |
| LightLasting.RefusedStandsStill | components/light/light.c:37-112 | a light refused at its creation is never registered and never faded by a timer, over every later run |
| LightChannels.EachChannelAlone | components/light/light.c:37-205 | over every run each channel has the period, the timer, the running flag and the last commanded duty that its own calls and firings determine, and each light the full duty and channels it was created with |
| LightChannels.NoTimerLeftOver | components/light/light.c:75-202 | in every reachable state a running timer belongs to a channel: none outlives its period or its light |
| LightDriver.LightGroup.BreathTimerCallback | components/light/light.c:37-52 | the nested loops compute the specified sweep |
| LightDriver.LightGroup.BreathWrite | components/light/light.c:183-205 | the in-place breath write is the specified one, with its failures, a failing timer creation among them |
| LightDriver.LightGroup.DutyWrite | components/light/light.c:159-181 | writing a duty stops the channel's timer and nothing else, also when the mode is then refused |
| WifiLed.RunnerOnLoop | components/indicator/led_indicator.c:278-320 | while the active blink loops the runner touches no other blink |
| WifiLed.ManagerAndLedAgree | main/core/manager/wifi_manager.cc:26-199 | in every reachable state ready implies CONNECTED active, CONNECTING stopped and the lamp lit; at most five reconnects between resets |
| WifiLed.DisconnectionOutcome | main/core/manager/wifi_manager.cc:28-37 | a disconnection asks for a reconnect iff the budget is not spent, and otherwise leaves nothing active and the manager not ready |
| WifiLed.FailureStopsAll | main/core/manager/wifi_manager.cc:184-199 | a failed connection leaves no active blink and the lamp as it was |
| WifiLed.LostConnectionLeavesLit | main/core/manager/wifi_manager.cc:28-43 | after any run, an address and six disconnections leave nothing active, the manager not ready and the lamp lit |
| WifiLed.LightTellsStory | main/core/manager/wifi_manager.cc:26-199 | in every reachable state the active blink is told by the calls and events alone: CONNECTED iff ready or left over from a stop, never both, CONNECTING below it, else none |
| WifiOrders.RequestsMade | main/core/manager/wifi_manager.cc:23-45 | over every run the radio has been asked for one first connect per station start, one reconnect per disconnection within the budget of five, and the budget reset per address and per start of a manager not ready, in order |
| WifiOrders.LedFollowsOrders | main/core/manager/wifi_manager.cc:136-199 | over every run the LED is where the manager's commands, told by the calls and events alone, lead a new one |
| WifiLed.TruthfulUnlessStopped | main/core/manager/wifi_manager.cc:153-165 | a step keeps "CONNECTED shows iff ready" exactly unless it stops a ready manager |
| WifiLed.TruthfulIffNeverStopped | main/core/manager/wifi_manager.cc:136-199 | over a run CONNECTED has shown exactly while ready iff no stop has taken effect |
| WifiLed.RestartShows | main/core/manager/wifi_manager.cc:136-151 | a start of a manager not ready shows CONNECTED if a stop left it, and CONNECTING otherwise |
| WifiLed.StoppedManagerStillShowsConnected | main/core/manager/wifi_manager.cc:153-165 | after a start, an address and a stop the manager is not ready and CONNECTED still shows |
| WifiDriver.WifiManager.StaEventHandler | main/core/manager/wifi_manager.cc:23-45 | the in-place event handler is the specified step on manager and indicator together |
| WifiDriver.WifiManager.StartWifi | main/core/manager/wifi_manager.cc:136-151 | the in-place start is the specified one |

## Left out

- RTOS and hardware bodies (GPIO, LEDC, ADC, esp_timer, FreeRTOS): commands and flags; timer commands succeed.
- Lock timeout of the blink runner (components/indicator/led_indicator.c:289-294) and interleavings inside it: each call and each firing is one atomic step, because the source advances the step before it holds the lock and keeps no invariant there.
- Indicator creation, deletion, its handle list, and the GPIO polarity `off_level`.
- Allocation failures, null arguments that are only logged, and callbacks that create or delete buttons during a sweep.
- Sampling of ADC buttons (components/button/button_adc.c:169-204), `last_time` and `ch_num`: one static sample is shared by all channels, so no button reads its own.
- Events still queued when the bus is destroyed (main/core/event/event_bus.cc:88-94): the cleanup loop's condition is inverted, so nothing is claimed about them. The wake-up semaphore is given and never taken.
- Vector capacity, size overflow, headers and errors of the HTTP response.
- Fade times, LEDC configuration, and the blink functions of the lights.
- Manager without an indicator, mode switching, listeners, and the Wi-Fi configuration itself.
- MQTT, HTTP client and download, SNTP, board information and start-up code: calls into libraries with shallow properties.
- EventBusDriver.EventBusImpl.Publish: states one call taken without interference; interleaved calls are the two publisher steps of the step model.
- EventBusDriver.EventBusImpl.LoopTurn: states one turn taken without interference; interleaved turns are the loop steps of the step model.
- AdcDriver.AdcButtons.DeinitButton: does not take a negative button_index, which the upper-bound check of components/button/button_adc.c:130 lets through to write before the array; iot_button_delete passes a byte.
