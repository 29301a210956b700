# Drivers of the i9305 modem kernel: GPIO and battery

This project models the parts of the repository's kernel drivers that keep state, and proves what
they promise over whole runs:

- **gpiolib** (`GpioTable`, `GpioLines`, `GpioInvariant`, `GpioRuns`, `GpioEdges`, `GpioArrays`,
  `GpioUser`, `GpioLaws`, `GpioRaces`, `Words`, `FlagPacking`, `FlagWord`, `FlagRuns`, `FlagWordRuns`, `GpioLib`): the
  descriptor table and its allocator, the life cycle of a line from request to free, array requests with
  rollback, sysfs export with its interrupt set-up, the flags words, and calls of several
  threads interleaved where the driver drops its spinlock.
- **gpio-nomadik** (`NomadikBank`, `NomadikIrq`, `NomadikPins`, `Nomadik`): interrupt and wakeup masks
  under mask, unmask, set_wake and set_type, suspend and resume, and the sequence that switches pins
  to alternate function C without glitches.
- **max77693_charger and samsung_battery** (`Max77693`, `ChargeControl`, `BatteryMonitor`,
  `SamsungBattery`, `EventWindow`): soft start, soft regulation, register writes skipped because of a
  cache, temperature hysteresis, and the event window with its timer.
- **max17050_fuelgauge and sec_battery** (`FuelGauge`, `LowBattery`, `AdcAverage`): capacity learning,
  low-battery counters and the averaging ring buffer.

`Common` holds an option type and C's division. Most modules state what one call does as a function
from state to state, prove lemmas about that function and about any sequence of calls, and a class
(`GpioLib.Gpios`, `Nomadik.NmkGpio`, `Max77693.ChargerData`, `SamsungBattery.BatteryInfo`,
`EventWindow.BatteryEvents`, `FuelGauge.Max17050`, `LowBattery.Gauge`, `AdcAverage.AdcSample`) follows
the driver statement by statement on fields and arrays and is proved to end in the state the function
gives. `dafny verify dfyconfig.toml` checks everything.

## How the world is represented

- What chips, modules, the interrupt core, the id allocator, sysfs, sensors and clocks answer is a
  parameter of the call, so every lemma holds for every answer. A battery poll reads the clock once. In GPIO
  runs an id that the allocator hands out is at least 1 and not in use by another line.
- A `gpio_chip` is a value with an identity; its `base` field lives in the map `base`. A line's entry
  also carries what the kernel holds for it: the handlers installed with its value file as cookie, and
  the references taken on that file. A chip's interrupt numbers are fixed, and a sysfs device exists
  exactly while the line is exported.
- The flags word is kept as fields; `FlagWord` and `FlagRuns` write the driver's masks and shifts out on
  32-bit words and show that after any run the words stand for those fields.
- Nomadik registers are sets of the bit positions that are 1. Bank k starts at pin 32*k.
- Charger registers are bytes; the wrap-around of the 8-bit ramp variable is written out. Other
  integers are unbounded; the places where the drivers' values could overflow 32 bits are far outside
  the ranges that the hardware can produce.
- Constants of headers that the repository does not contain are parameters: the number of GPIOs and
  banks, board settings, counter limits, table sizes, event time, and whether `previous_fullcap` is signed.

## What the code does, where its comments promise otherwise

- `gpio_request_array` undoes its work on failure exactly if it reaches no `chip->request` that returns a
  positive number (`GpioArrays.FailedArrayRestoresIff`, `GpioArrays.PositiveCallbackLeaks`).
- `sysfs_set_active_low` can report an error although the polarity has changed; the edges are then gone
  (`GpioEdges.PolarityFlipOutcome` says when, `GpioEdges.FlipFailsButTakesEffect` gives a run).
- `gpio_export` promises zero or an error, but reads `desc->chip` even for a line that is not requested and
  faults if there is none (`GpioRuns.ExportFaultsIff`, `GpioRuns.ExportFaultsAtBoot`).
- The detour of `nmk_config_pins` does not reach banks after an empty slot of the bank table
  (`NomadikPins.AgreeIff` says when that matters, `NomadikPins.GapLosesSleepBit` gives an input).
- A poll of the battery monitor that switches charging off because of a battery error goes on and may
  charge again (`BatteryMonitor.ErrorChargesAgainIff`, `BatteryMonitor.HealthErrorChargesAgain`).
- A charger that says full against the gauge is restarted even while the battery is switched off. The
  charger is then on without a start time, and later stops program currents of 0 but do not switch it off
  (`BatteryMonitor.SwitchRecordKeptIff`, `BatteryMonitor.RestartedChargerOutlivesStop`).
- The ten percent limit on capacity learning does not apply to readings beyond the absolute bounds
  (`FuelGauge.LearningIsSlowIff`, `FuelGauge.AbsoluteClampOvertakesSlowLimit`).

## Model

| member | source | states |
|---|---|---|
| `GpioTable.HighestWindow` | mainline-patches-2/tocopy/linux/drivers/gpio/gpiolib.c:123-149 | reference search: returns the highest base below a bound whose whole window is free, or none if there is none |
| `GpioLib.Gpios.FindBase` | mainline-patches-2/tocopy/linux/drivers/gpio/gpiolib.c:123-149 | the downward scan that jumps over whole chips returns exactly what the reference search returns, -ENOSPC included |
| `GpioTable.DynamicAddTakesHighestWindow` | mainline-patches-2/tocopy/linux/drivers/gpio/gpiolib.c:1048-1063 | a dynamic add succeeds exactly when some window is free, takes the highest one, and never ends with -EBUSY |
| `GpioTable.StaticAddOutcome` | mainline-patches-2/tocopy/linux/drivers/gpio/gpiolib.c:1042-1062 | a static add takes its window exactly if it fits and no number in it has a chip, reserved or not; -EINVAL exactly if it does not fit, -EBUSY exactly if some number has a chip |
| `GpioTable.AddWritesTheWindow` | mainline-patches-2/tocopy/linux/drivers/gpio/gpiolib.c:1063-1078 | a successful add writes the chip and fresh flags, with the direction that the chip implies, at exactly the numbers of its window |
| `GpioTable.ReserveOutcome` | mainline-patches-2/tocopy/linux/drivers/gpio/gpiolib.c:162-190 | reserving succeeds exactly if the numbers fit and are all unused, and marks the numbers before the first one that is not |
| `GpioTable.ReservedWindowIsForStaticAdd` | mainline-patches-2/tocopy/linux/drivers/gpio/gpiolib.c:151-190 | reserved numbers stay out of every dynamic add and are taken by a static one |
| `GpioTable.RemoveOutcome` | mainline-patches-2/tocopy/linux/drivers/gpio/gpiolib.c:1108-1135 | refused exactly while a line of the chip is requested; otherwise the chip disappears from every number and nothing else changes |
| `GpioTable.FailedAddChangesNothing` | mainline-patches-2/tocopy/linux/drivers/gpio/gpiolib.c:1033-1099 | a failed add leaves the state untouched; a chip that is in the table is refused with -EBUSY |
| `GpioTable.AddKeepsTable` | mainline-patches-2/tocopy/linux/drivers/gpio/gpiolib.c:1057-1078 | add keeps the block invariant and every other chip's base, and the new chip owns its block |
| `GpioTable.RemoveKeepsTable` | mainline-patches-2/tocopy/linux/drivers/gpio/gpiolib.c:1108-1134 | remove keeps the block invariant |
| `GpioTable.RemoveFreesTheWindow` | mainline-patches-2/tocopy/linux/drivers/gpio/gpiolib.c:1124-1127 | after a successful remove the chip is nowhere in the table and its window is free again unless reserved |
| `GpioTable.BlocksAreExactAndDisjoint` | mainline-patches-2/tocopy/linux/drivers/gpio/gpiolib.c:1058-1066 | a chip manages exactly the numbers of its block, and two chips' blocks do not meet |
| `GpioLib.Gpios.Add` | mainline-patches-2/tocopy/linux/drivers/gpio/gpiolib.c:1033-1099 | the two loops over the block produce the specified table, or an error and no change |
| `GpioLib.Gpios.Remove` | mainline-patches-2/tocopy/linux/drivers/gpio/gpiolib.c:1108-1135 | refuses with -EBUSY while a line is requested, otherwise clears exactly the block |
| `GpioLib.Gpios.Reserve` | mainline-patches-2/tocopy/linux/drivers/gpio/gpiolib.c:162-190 | marks numbers up to the first busy one and keeps them marked on error |
| `GpioLib.Gpios.Request` | mainline-patches-2/tocopy/linux/drivers/gpio/gpiolib.c:1176-1227 | request ends as specified for every answer of the module loader and the callback |
| `GpioLib.Gpios.Free` | mainline-patches-2/tocopy/linux/drivers/gpio/gpiolib.c:1230-1264 | free unexports, puts the module reference and clears the flags; keeps the invariant |
| `GpioLib.Gpios.EnsureRequested` | mainline-patches-2/tocopy/linux/drivers/gpio/gpiolib.c:95-114 | an automatic request claims the line with its reference, or fails and changes nothing |
| `GpioLaws.RequestOutcome` | mainline-patches-2/tocopy/linux/drivers/gpio/gpiolib.c:1176-1227 | the status and the whole effect of a request in the fields of line and chip: order of refusals, who is counted, and when the line is taken |
| `GpioLaws.FreeOutcome` | mainline-patches-2/tocopy/linux/drivers/gpio/gpiolib.c:1230-1264 | what freeing clears, gives back and leaves, field by field |
| `GpioLaws.DirectionOfLineInUse` | mainline-patches-2/tocopy/linux/drivers/gpio/gpiolib.c:1368-1475 | input needs the get and direction_input hooks, output set and direction_output, and nothing else; on success the direction is set |
| `GpioLaws.InputOfFreeLine` | mainline-patches-2/tocopy/linux/drivers/gpio/gpiolib.c:1368-1420 | the same for a line taken by automatic request, with the owner and the chip's answer; a refusal keeps the line |
| `GpioLaws.OutputOfFreeLine` | mainline-patches-2/tocopy/linux/drivers/gpio/gpiolib.c:1423-1475 | and for output |
| `GpioLaws.DirectionOfNoLine` | mainline-patches-2/tocopy/linux/drivers/gpio/gpiolib.c:1376-1381 | a number without a chip gives -EINVAL |
| `GpioLaws.DirectionHooksExist` | mainline-patches-2/tocopy/linux/drivers/gpio/gpiolib.c:1380-1407 | a callback is made only to a hook that the chip has |
| `GpioLib.Gpios.Direction` | mainline-patches-2/tocopy/linux/drivers/gpio/gpiolib.c:1368-1475 | direction calls, with their automatic request, end as specified |
| `GpioLib.Gpios.NewId` | mainline-patches-2/tocopy/linux/drivers/gpio/gpiolib.c:365-389 | finding the value file and allocating an id; every failure undoes what came before it, ids above 16 bits included |
| `GpioLib.Gpios.InstallHandler` | mainline-patches-2/tocopy/linux/drivers/gpio/gpiolib.c:357-363 | the handler gets the mirrored physical edges; on failure id and reference go |
| `GpioLib.Gpios.SetupIrq` | mainline-patches-2/tocopy/linux/drivers/gpio/gpiolib.c:331-407 | whatever path is taken, the line ends unchanged, armed with exactly the wanted edges, or quiet |
| `GpioLib.Gpios.EdgeStore` | mainline-patches-2/tocopy/linux/drivers/gpio/gpiolib.c:446-472 | an unknown name is refused; otherwise only an exported line is set up, for the edges that the name stands for |
| `GpioLib.Gpios.FindEdges` | mainline-patches-2/tocopy/linux/drivers/gpio/gpiolib.c:453-456 | the search through the four edge names, a trailing newline allowed |
| `GpioLib.Gpios.SetActiveLow` | mainline-patches-2/tocopy/linux/drivers/gpio/gpiolib.c:476-499 | flipping the polarity through a line whose handler is momentarily wrong ends as specified and keeps the invariant |
| `GpioLib.Gpios.Export` | mainline-patches-2/tocopy/linux/drivers/gpio/gpiolib.c:699-766 | exports a requested, unexported line if its device can be created; faults for a line without a chip |
| `GpioLib.Gpios.Unexport` | mainline-patches-2/tocopy/linux/drivers/gpio/gpiolib.c:872-903 | unexport silences the line first and keeps the invariant; an invalid number is ignored |
| `GpioLib.Gpios.ExportStore` | mainline-patches-2/tocopy/linux/drivers/gpio/gpiolib.c:607-637 | userspace export: request, export, and free again if that fails |
| `GpioLib.Gpios.UnexportStore` | mainline-patches-2/tocopy/linux/drivers/gpio/gpiolib.c:639-668 | only lines that userspace exported are freed |
| `GpioEdges.EdgeStoreOutcome` | mainline-patches-2/tocopy/linux/drivers/gpio/gpiolib.c:331-472 | success means exactly the wanted edges; a failure leaves no edge, or everything as it was; an unknown name changes nothing |
| `GpioLaws.EdgeStatus` | mainline-patches-2/tocopy/linux/drivers/gpio/gpiolib.c:331-407 | how writing an edge ends, in the line's flags, its place in the chip's block, and the kernel's answers |
| `GpioLaws.NoInterruptIff` | mainline-patches-2/tocopy/linux/drivers/gpio/gpiolib.c:341-343 | -EIO exactly if the chip has no interrupt at the line's own place in its block |
| `GpioLaws.EdgeRefusals` | mainline-patches-2/tocopy/linux/drivers/gpio/gpiolib.c:453-463 | an unknown name gives -EINVAL, then a line that is not exported -EIO, and nothing changes |
| `GpioLaws.EdgeNames` | mainline-patches-2/tocopy/linux/drivers/gpio/gpiolib.c:410-456 | the four names with or without a newline, and nothing else |
| `GpioEdges.PolarityFlipOutcome` | mainline-patches-2/tocopy/linux/drivers/gpio/gpiolib.c:476-499 | the polarity always changes; the call errs exactly if it has to set up one edge again and the kernel gives no file, no id, one beyond 16 bits, or no handler; then no edge is left, otherwise the edges stay |
| `GpioEdges.FlipFailsButTakesEffect` | mainline-patches-2/tocopy/linux/drivers/gpio/gpiolib.c:483-497 | a run from boot after which a flip returns -EBUSY, the polarity has changed and the edge is gone |
| `GpioEdges.RefusedAutorequestKeepsLine` | mainline-patches-2/tocopy/linux/drivers/gpio/gpiolib.c:1395-1404 | a refused automatic request keeps line and reference, where gpio_request would give both back |
| `GpioEdges.ClaimedLinePinsChip` | mainline-patches-2/tocopy/linux/drivers/gpio/gpiolib.c:43-46 | a requested line makes its chip unremovable |
| `GpioInvariant.SetupIrqKeepsInv` | mainline-patches-2/tocopy/linux/drivers/gpio/gpiolib.c:331-407 | setting up edges keeps the global invariant on ids, handlers, flags and references |
| `GpioInvariant.SetActiveLowKeepsInv` | mainline-patches-2/tocopy/linux/drivers/gpio/gpiolib.c:476-499 | so does flipping the polarity |
| `GpioInvariant.UnexportKeepsInv` | mainline-patches-2/tocopy/linux/drivers/gpio/gpiolib.c:872-903 | so does unexporting, after which the line has no handler and no id |
| `GpioInvariant.AddKeepsInv` | mainline-patches-2/tocopy/linux/drivers/gpio/gpiolib.c:1033-1099 | so does adding a chip, although it overwrites the flags of its lines |
| `GpioInvariant.RemoveKeepsInv` | mainline-patches-2/tocopy/linux/drivers/gpio/gpiolib.c:1108-1135 | so does removing a chip |
| `GpioInvariant.ReserveKeepsInv` | mainline-patches-2/tocopy/linux/drivers/gpio/gpiolib.c:162-190 | so does reserving |
| `GpioRuns.RunKeepsInv` | mainline-patches-2/tocopy/linux/drivers/gpio/gpiolib.c:47-75 | the invariant holds after any sequence of calls with any outcomes |
| `GpioRuns.LinesNeverLeak` | mainline-patches-2/tocopy/linux/drivers/gpio/gpiolib.c:331-407 | after any run: trigger bits, a live id naming this line alone, one handler with the mirrored edges and one reference stand and fall together, and imply exported, requested and a registered chip |
| `GpioRuns.LiveIdsAreInUse` | mainline-patches-2/tocopy/linux/drivers/gpio/gpiolib.c:372-401 | after any run every live id belongs to a line that reports edges |
| `GpioRuns.ExportFaultsIff` | mainline-patches-2/tocopy/linux/drivers/gpio/gpiolib.c:709-730 | after any run gpio_export faults exactly if sysfs is ready and the number is a GPIO without a chip; on requested lines it never does, and succeeds once |
| `GpioRuns.ExportFaultsAtBoot` | mainline-patches-2/tocopy/linux/drivers/gpio/gpiolib.c:728 | right after boot an export of any number faults where -EINVAL was due |
| `GpioRuns.ReferencesEqualRequestedLines` | mainline-patches-2/tocopy/linux/drivers/gpio/gpiolib.c:1192-1218 | after any run the references on a module equal the number of requested lines of its chips |
| `GpioEdges.PollersSeeTheEdgesTheyAskedFor` | mainline-patches-2/tocopy/linux/drivers/gpio/gpiolib.c:357-363 | after any run a level change reaches a handler exactly if the value shown changes the way the trigger bits ask |
| `GpioLaws.HandlersListenToTheirLine` | mainline-patches-2/tocopy/linux/drivers/gpio/gpiolib.c:1615-1621 | after any run a line that reports edges does so on the interrupt of its own place in its chip's block |
| `GpioLib.Gpios.RequestOne` | mainline-patches-2/tocopy/linux/drivers/gpio/gpiolib.c:1273-1291 | request with direction, freed again if the direction fails |
| `GpioLib.Gpios.RequestArray` | mainline-patches-2/tocopy/linux/drivers/gpio/gpiolib.c:1299-1314 | the loop and its backward rollback compute the recursive specification |
| `GpioLib.Gpios.Rollback` | mainline-patches-2/tocopy/linux/drivers/gpio/gpiolib.c:1310-1313 | frees the entries taken so far, last one first |
| `GpioLib.Gpios.FreeArray` | mainline-patches-2/tocopy/linux/drivers/gpio/gpiolib.c:1322-1326 | frees every entry in order |
| `GpioArrays.RequestOneAllOrNothing` | mainline-patches-2/tocopy/linux/drivers/gpio/gpiolib.c:1273-1291 | takes exactly its line, or restores lines, ids and references, unless the callback answers with a positive number |
| `GpioLaws.RequestOneOutcome` | mainline-patches-2/tocopy/linux/drivers/gpio/gpiolib.c:1273-1291 | it succeeds exactly for a free line whose chip has the hooks for the direction and whose owner and chip agree |
| `GpioArrays.RequestArrayAllOrNothing` | mainline-patches-2/tocopy/linux/drivers/gpio/gpiolib.c:1299-1314 | for any length and any duplicates, if no positive answer is reached: all entries taken with their directions and nothing else changed, or everything restored |
| `GpioArrays.ArraySucceedsIff` | mainline-patches-2/tocopy/linux/drivers/gpio/gpiolib.c:1299-1308 | an array succeeds exactly if each entry would on its own and no line is named twice |
| `GpioArrays.FailedArrayRestoresIff` | mainline-patches-2/tocopy/linux/drivers/gpio/gpiolib.c:1299-1314 | a failing call restores lines, ids and references exactly if, as seen before the call, no entry has a callback that answers positively for a line it can claim after entries that succeed on different lines |
| `GpioArrays.LeaksIff` | mainline-patches-2/tocopy/linux/drivers/gpio/gpiolib.c:1304-1308 | what the call reaches, entry by entry, is what can be seen before it |
| `GpioArrays.LeakedLineStays` | mainline-patches-2/tocopy/linux/drivers/gpio/gpiolib.c:1309-1313 | such an entry makes the call fail, and its line stays requested through the whole rollback |
| `GpioArrays.FailedRequestRestoresIff` | mainline-patches-2/tocopy/linux/drivers/gpio/gpiolib.c:1208-1219 | a failed request restores the state exactly when the callback did not return a positive number |
| `GpioArrays.PositiveCallbackLeaks` | mainline-patches-2/tocopy/linux/drivers/gpio/gpiolib.c:1277-1279 | a positive answer of chip->request leaves the line requested although the call fails |
| `GpioArrays.FreeArrayUndoesRequestArray` | mainline-patches-2/tocopy/linux/drivers/gpio/gpiolib.c:1299-1326 | requesting an array and freeing it restores the table |
| `GpioArrays.FreeArrayRestores` | mainline-patches-2/tocopy/linux/drivers/gpio/gpiolib.c:1322-1326 | freeing gives the lines back from any later state that still holds exactly them |
| `GpioUser.FailedExportStoreRestores` | mainline-patches-2/tocopy/linux/drivers/gpio/gpiolib.c:623-631 | a failing export from userspace leaves no trace |
| `GpioLaws.ExportStoreOutcome` | mainline-patches-2/tocopy/linux/drivers/gpio/gpiolib.c:623-631 | an export from userspace succeeds exactly if the line can be requested, sysfs is ready and the device can be created |
| `GpioLaws.UnexportStoreOutcome` | mainline-patches-2/tocopy/linux/drivers/gpio/gpiolib.c:655-663 | userspace may unexport exactly what it exported |
| `GpioUser.UnexportStoreUndoesExport` | mainline-patches-2/tocopy/linux/drivers/gpio/gpiolib.c:446-668 | export from userspace, any writes to the edge, active_low and direction files with any outcome, then unexport: line, handler, id and reference are given back and nothing else was touched |
| `GpioUser.ExportStoreMarks` | mainline-patches-2/tocopy/linux/drivers/gpio/gpiolib.c:623-635 | a successful export marks the line as requested and exported by userspace and touches nothing else |
| `GpioUser.CallsOnLineAreSameButEdges` | mainline-patches-2/tocopy/linux/drivers/gpio/gpiolib.c:331-499 | any run of writes to the files of a requested line changes only that line and its ids |
| `GpioUser.UnexportStoreRestores` | mainline-patches-2/tocopy/linux/drivers/gpio/gpiolib.c:660-663 | unexporting from any later state that differs only in the exported line restores the table |
| `GpioRaces.NextKeepsSysInv` | mainline-patches-2/tocopy/linux/drivers/gpio/gpiolib.c:1183-1264 | every critical section of every thread keeps what callbacks rely on, conservation included, whatever any thread does through sysfs meanwhile |
| `GpioRaces.CalledChipCannotVanish` | mainline-patches-2/tocopy/linux/drivers/gpio/gpiolib.c:1108-1127 | in every interleaving, a chip that is being called back without the lock is still registered for its line and its removal returns -EBUSY |
| `GpioRaces.CallbacksDoNotOverlap` | mainline-patches-2/tocopy/linux/drivers/gpio/gpiolib.c:1368-1420 | no two threads run callbacks for the same line |
| `GpioRaces.ReferencesBalanceAtEveryRelease` | mainline-patches-2/tocopy/linux/drivers/gpio/gpiolib.c:1192-1259 | references equal requested lines at every release of the lock |
| `GpioRaces.StrangerFreeLetsChipVanish` | mainline-patches-2/tocopy/linux/drivers/gpio/gpiolib.c:1249-1259 | without the discipline that only the holder frees, the chip can be removed under the callback exactly if no other line of it is requested |
| `GpioRaces.MoveKeepsInvIff` | mainline-patches-2/tocopy/linux/drivers/gpio/gpiolib.c:1183-1264 | from lines in order, a move of any thread leaves them in order exactly if it does not give up a line that is exported at that moment |
| `GpioRaces.LinesStayInOrderIff` | mainline-patches-2/tocopy/linux/drivers/gpio/gpiolib.c:699-1264 | over any interleaving the whole invariant on ids, handlers and flags holds at every release of the lock exactly if no line is given up while it is exported |
| `GpioRaces.BootSysInv` | mainline-patches-2/tocopy/linux/drivers/gpio/gpiolib.c:47-75 | interleavings may start at boot, with no thread in a call and no line held |
| `GpioRaces.RequestAlone` | mainline-patches-2/tocopy/linux/drivers/gpio/gpiolib.c:1183-1227 | with no other thread in between, the critical sections of a request add up to the whole call |
| `GpioRaces.FreeAlone` | mainline-patches-2/tocopy/linux/drivers/gpio/gpiolib.c:1243-1264 | so do those of a free |
| `GpioRaces.DirectionAlone` | mainline-patches-2/tocopy/linux/drivers/gpio/gpiolib.c:1378-1418 | and of a direction call |
| `GpioRaces.AutorequestAlone` | mainline-patches-2/tocopy/linux/drivers/gpio/gpiolib.c:1384-1418 | and of one with an automatic request to the chip |
| `GpioRaces.SysfsCallsAreSysfsSteps` | mainline-patches-2/tocopy/linux/drivers/gpio/gpiolib.c:446-903 | export, unexport, edge and polarity calls, in whatever state, never take or free a line nor touch chips and references |
| `GpioRaces.LinesStayTidy` | mainline-patches-2/tocopy/linux/drivers/gpio/gpiolib.c:872-1264 | if lines are exported by their holders only, that never happens |
| `GpioRaces.StrangerExportOutlivesFree` | mainline-patches-2/tocopy/linux/drivers/gpio/gpiolib.c:1244-1259 | a stranger that exports between the unexport of gpio_free and its lock leaves a line exported that nobody has requested |
| `FlagWordRuns.WordsFollowRuns` | mainline-patches-2/tocopy/linux/drivers/gpio/gpiolib.c:50-67 | after any run from boot the 32-bit word of any line, edited mask by mask, stands for the fields of the model; the id above ID_SHIFT is 0 exactly while no trigger bit is set |
| `FlagRuns.SetupInStep` | mainline-patches-2/tocopy/linux/drivers/gpio/gpiolib.c:331-407 | along every path of gpio_setup_irq - nothing to do, no interrupt, switched off, no file, no id, an id too large, no handler, armed - the word ends as the fields do |
| `FlagRuns.FlipInStep` | mainline-patches-2/tocopy/linux/drivers/gpio/gpiolib.c:476-499 | so it does through the flip and the two set-ups of a polarity change |
| `FlagRuns.StepInStep` | mainline-patches-2/tocopy/linux/drivers/gpio/gpiolib.c:1057-1264 | so it does for every line at every call, lines the call is not about included |
| `FlagWord.SetupContents` | mainline-patches-2/tocopy/linux/drivers/gpio/gpiolib.c:338-401 | the masks and shifts of gpio_setup_irq by what they leave in the word: other flags alone, the trigger bits wanted or 0, the id kept, stored or dropped |
| `FlagWord.DriverIsSound` | mainline-patches-2/tocopy/linux/drivers/gpio/gpiolib.c:52-67 | the masks and shifts of the driver are field updates, and an id is stored only if it reads back |
| `Words.StoredId` | mainline-patches-2/tocopy/linux/drivers/gpio/gpiolib.c:382-388 | the -ERANGE test on the stored word fires exactly for ids of 2^16 and more |
| `NomadikBank.MaskUnmaskFollows` | mainline-patches-2/tocopy/linux/drivers/gpio/gpio-nomadik.c:536-606 | the edge-by-edge writes of mask and unmask give the registers that the fields determine |
| `NomadikBank.SetWakeFollows` | mainline-patches-2/tocopy/linux/drivers/gpio/gpio-nomadik.c:618-646 | so do those of set_wake |
| `NomadikBank.SetTypeFollows` | mainline-patches-2/tocopy/linux/drivers/gpio/gpio-nomadik.c:667-689 | so does clearing the old edges and setting the new ones in set_type |
| `NomadikBank.RetypeNeedsMatchingWakeFlag` | mainline-patches-2/tocopy/linux/drivers/gpio/gpio-nomadik.c:650-689 | exactly when set_type keeps the masks right should genirq's wakeup flag differ from real_wake |
| `Nomadik.NmkGpio.IrqModify` | mainline-patches-2/tocopy/linux/drivers/gpio/gpio-nomadik.c:536-562 | writes only the masks of the configured edges, at one pin |
| `Nomadik.NmkGpio.IrqMaskUnmask` | mainline-patches-2/tocopy/linux/drivers/gpio/gpio-nomadik.c:576-606 | enabled changes at one pin by the driver's writes, and masks in order follow |
| `Nomadik.NmkGpio.IrqSetWake` | mainline-patches-2/tocopy/linux/drivers/gpio/gpio-nomadik.c:618-646 | real_wake changes at one pin by the driver's writes, and masks in order follow |
| `Nomadik.NmkGpio.IrqSetType` | mainline-patches-2/tocopy/linux/drivers/gpio/gpio-nomadik.c:648-694 | the edges change at one pin by the driver's writes, and the masks follow if genirq's wakeup flag equals real_wake; level types are refused |
| `NomadikIrq.RunKeepsMasks` | mainline-patches-2/tocopy/linux/drivers/gpio/gpio-nomadik.c:536-694 | any run of the driver's bit by bit writes leaves the four masks edge & enabled and edge & (enabled or real_wake), in sleep mode SLPC their wake complement, and the bank as if the masks were written afresh from the fields each time |
| `NomadikIrq.RunKeepsOtherPins` | mainline-patches-2/tocopy/linux/drivers/gpio/gpio-nomadik.c:536-694 | the driver's writes for other pins never touch a pin's bits, even in a bank out of order |
| `NomadikIrq.MasksFollowHistory` | mainline-patches-2/tocopy/linux/drivers/gpio/gpio-nomadik.c:576-694 | a pin's masks depend only on the latest mask, wake and type operation on that pin |
| `NomadikIrq.SuspendLeavesRealWakeSources` | mainline-patches-2/tocopy/linux/drivers/gpio/gpio-nomadik.c:905-929 | while suspended exactly the pins with an edge and real_wake can wake, and in sleep mode SLPC says the same |
| `NomadikIrq.ResumeUndoesSuspend` | mainline-patches-2/tocopy/linux/drivers/gpio/gpio-nomadik.c:905-947 | resume restores every register of a bank and the mask invariant |
| `Nomadik.NmkGpio.WakeupsSuspend` | mainline-patches-2/tocopy/linux/drivers/gpio/gpio-nomadik.c:905-930 | suspends every bank up to the first empty slot and no other |
| `Nomadik.NmkGpio.WakeupsResume` | mainline-patches-2/tocopy/linux/drivers/gpio/gpio-nomadik.c:932-948 | resumes the same banks |
| `Nomadik.NmkGpio.SuspendResume` | mainline-patches-2/tocopy/linux/drivers/gpio/gpio-nomadik.c:905-948 | suspend then resume restores every register of every bank, for any number of banks |
| `NomadikPins.DetourSimulatesDirect` | mainline-patches-2/tocopy/linux/drivers/gpio/gpio-nomadik.c:306-343 | pin by pin, the detour with its backup stays in step with the direct way, early stop included |
| `NomadikPins.GlitchlessRefinesDirect` | mainline-patches-2/tocopy/linux/drivers/gpio/gpio-nomadik.c:256-351 | swapping masks in, configuring and swapping back ends as the direct way in every register and in the result, up to banks after a gap |
| `NomadikPins.ContiguousBanksHaveNoGaps` | mainline-patches-2/tocopy/linux/drivers/gpio/gpio-nomadik.c:268-296 | with contiguous banks there is no exception |
| `NomadikPins.AgreeIff` | mainline-patches-2/tocopy/linux/drivers/gpio/gpio-nomadik.c:272-295 | the detour agrees with the direct way exactly if, for every pin behind the first gap that is named before the first pin without a chip, the last entry for it wants the sleep bit that it has |
| `NomadikPins.GapLosesSleepBit` | mainline-patches-2/tocopy/linux/drivers/gpio/gpio-nomadik.c:272-295 | with bank 0 missing, a new sleep bit of pin 32 is lost although the call succeeds |
| `NomadikPins.DirectSleepBit` | mainline-patches-2/tocopy/linux/drivers/gpio/gpio-nomadik.c:326-340 | the direct way leaves at every pin the sleep bit of the last configured entry for it |
| `NomadikPins.EntryOutcome` | mainline-patches-2/tocopy/linux/drivers/gpio/gpio-nomadik.c:176-254 | one entry: its pin shows the alternate function, direction, level and pull asked for, the sleep settings in sleep mode, and other pins keep theirs |
| `NomadikPins.LastEntryShows` | mainline-patches-2/tocopy/linux/drivers/gpio/gpio-nomadik.c:326-340 | after a list every pin shows the last configured entry that names it |
| `NomadikPins.UnnamedPinIsKept` | mainline-patches-2/tocopy/linux/drivers/gpio/gpio-nomadik.c:326-340 | a pin that no configured entry names keeps all its settings |
| `NomadikPins.DirectStatus` | mainline-patches-2/tocopy/linux/drivers/gpio/gpio-nomadik.c:326-336 | a list succeeds exactly if every pin has a chip |
| `Nomadik.NmkGpio.PrepareMasks` | mainline-patches-2/tocopy/linux/drivers/gpio/gpio-nomadik.c:316-324 | the masks are 0 exactly at the list's alternate-C pins |
| `Nomadik.NmkGpio.GlitchSlpmInit` | mainline-patches-2/tocopy/linux/drivers/gpio/gpio-nomadik.c:268-282 | swaps the sleep registers of the leading banks with the masks |
| `Nomadik.NmkGpio.GlitchSlpmRestore` | mainline-patches-2/tocopy/linux/drivers/gpio/gpio-nomadik.c:284-296 | writes the backup back to the leading banks |
| `Nomadik.NmkGpio.SetModeSafe` | mainline-patches-2/tocopy/linux/drivers/gpio/gpio-nomadik.c:149-174 | both wake masks of the pin are clear at every moment with IOFORCE high - before, between and after the two mode writes - and restored after it; only the mode bits change and IOFORCE ends low |
| `Nomadik.NmkGpio.SetModeRegs` | mainline-patches-2/tocopy/linux/drivers/gpio/gpio-nomadik.c:72-86 | AFSLA is written first, then AFSLB, each in its own moment |
| `Nomadik.NmkGpio.ConfigPin` | mainline-patches-2/tocopy/linux/drivers/gpio/gpio-nomadik.c:176-254 | pad, sleep bit or backup bit, and mode of one pin change, and nothing else |
| `Nomadik.NmkGpio.ConfigByDetour` | mainline-patches-2/tocopy/linux/drivers/gpio/gpio-nomadik.c:315-346 | the detour ends as the direct way, and every moment with IOFORCE high is safe |
| `Nomadik.NmkGpio.ConfigPins` | mainline-patches-2/tocopy/linux/drivers/gpio/gpio-nomadik.c:298-351 | the whole call refines the direct way, exactly if no alternate-C entry is there or nothing new lies behind a gap; pins show their last entries and others are kept; at every moment with IOFORCE high the pins with sleep bit 0 are exactly the list's alternate-C pins and the pin being switched cannot wake |
| `Max77693.ChargerData.SetInputCurrent` | mainline-patches-2/tocopy/linux/drivers/battery/max77693_charger.c:457-522 | ends with the target, and what it wrote is a soft start |
| `Max77693.ChargerData.Ramp` | mainline-patches-2/tocopy/linux/drivers/battery/max77693_charger.c:506-517 | the 8-bit ramp ends at its target, never rises by more than 100 mA, never exceeds the target or 100 mA |
| `Max77693.ChargerData.SetChargeCurrent` | mainline-patches-2/tocopy/linux/drivers/battery/max77693_charger.c:541-560 | writes the code into the low six bits, overflow going into the bits above |
| `Max77693.ChargerData.ReduceInput` | mainline-patches-2/tocopy/linux/drivers/battery/max77693_charger.c:1180-1206 | one step down, not below 100 mA, remembered in soft_reg_current |
| `Max77693.ChargerData.SoftregWorkStep` | mainline-patches-2/tocopy/linux/drivers/battery/max77693_charger.c:1268-1362 | lowers and reschedules while the power is unstable, one more step once it is stable |
| `Max77693.CodeMaIsInjective` | mainline-patches-2/tocopy/linux/drivers/battery/max77693_charger.c:535 | different charge codes read back as different currents |
| `Max77693.ProgrammedCurrent` | mainline-patches-2/tocopy/linux/drivers/battery/max77693_charger.c:524-560 | the programmed charge current is never more than asked for and at most 36 mA less |
| `Max77693.ChargeRegisterOutcome` | mainline-patches-2/tocopy/linux/drivers/battery/max77693_charger.c:541-560 | a charge current that does not fit replaces the low six bits and can only set the two above them |
| `Max77693.RequestOutcome` | mainline-patches-2/tocopy/linux/drivers/battery/max77693_charger.c:470-517 | 0 switches off and ends soft regulation, which otherwise keeps its limit; any other request is programmed in steps of 20 mA |
| `Max77693.RegulationRestoresItsLimit` | mainline-patches-2/tocopy/linux/drivers/battery/max77693_charger.c:484-497 | a request under soft regulation restores the remembered limit |
| `Max77693.ReduceOutcome` | mainline-patches-2/tocopy/linux/drivers/battery/max77693_charger.c:1180-1206 | a step takes 100 mA off, not below 100 mA, and remembers the new limit |
| `Max77693.SoftregOutcome` | mainline-patches-2/tocopy/linux/drivers/battery/max77693_charger.c:1317-1356 | what counts as unstable power, bit by bit, and what the work then does |
| `Max77693.RunKeepsSoftOk` | mainline-patches-2/tocopy/linux/drivers/battery/max77693_charger.c:485-497 | after any operations, while soft regulation holds the limit register times 20 is soft_reg_current |
| `Max77693.RegulationIsARatchet` | mainline-patches-2/tocopy/linux/drivers/battery/max77693_charger.c:1180-1356 | under soft regulation no request raises the limit, it never rises, and from 100 mA on never falls below 100 mA |
| `Max77693.ReschedulesAreBounded` | mainline-patches-2/tocopy/linux/drivers/battery/max77693_charger.c:1317-1336 | the work reschedules itself at most (limit - 20 mA) / 100 mA times, 25 at most, whatever the readings |
| `ChargeControl.InputSkipIsInvisible` | mainline-patches-2/tocopy/linux/drivers/battery/samsung_battery.c:1109-1129 | skipping the input write because of the cache leaves the register as writing would |
| `ChargeControl.ChargeSkipIsInvisible` | mainline-patches-2/tocopy/linux/drivers/battery/samsung_battery.c:1135-1154 | skipping the charge write leaves the charger exactly as writing would |
| `ChargeControl.CappedOutcome` | mainline-patches-2/tocopy/linux/drivers/battery/samsung_battery.c:1077-1103 | the cap of the thermal governor level by level, unknown levels as a USB port |
| `ChargeControl.SwitchOutcome` | mainline-patches-2/tocopy/linux/drivers/battery/samsung_battery.c:1156-1204 | when the charger is switched, and what is recorded and read again |
| `ChargeControl.ControlProgramsTheRegisters` | mainline-patches-2/tocopy/linux/drivers/battery/samsung_battery.c:1066-1218 | the registers end at the capped charge code and at min(asked, limit)/20 unless soft regulation holds, and the cache stays in step; with a right switch record the record stays right and charging is on exactly for a nonzero current |
| `ChargeControl.StaleCacheSkipsIff` | mainline-patches-2/tocopy/linux/drivers/battery/samsung_battery.c:1113-1121 | with a stale cache the limit is right exactly when the write was not skipped or the register had that value |
| `ChargeControl.OffReachesTheRegisters` | mainline-patches-2/tocopy/linux/drivers/battery/samsung_battery.c:1109-1186 | switching off reaches both registers from any state, and the charger exactly unless it is on without a start time |
| `SamsungBattery.BatteryInfo.ChargeControl` | mainline-patches-2/tocopy/linux/drivers/battery/samsung_battery.c:1066-1218 | the steps on the two objects compute the specified registers and cache |
| `SamsungBattery.BatteryInfo.TemperCond` | mainline-patches-2/tocopy/linux/drivers/battery/samsung_battery.c:967-1064 | the branch structure computes the specified stop flags |
| `SamsungBattery.BatteryInfo.UpdateInfo` | mainline-patches-2/tocopy/linux/drivers/battery/samsung_battery.c:378-478 | the cache is read back from the charger |
| `SamsungBattery.BatteryInfo.FullchargedCond` | mainline-patches-2/tocopy/linux/drivers/battery/samsung_battery.c:803-880 | full if charger and gauge agree, in one or two steps; a charger that says full against the gauge is restarted |
| `SamsungBattery.BatteryInfo.AbstimerCond` | mainline-patches-2/tocopy/linux/drivers/battery/samsung_battery.c:753-801 | the time limit applies only while a start time is recorded, in 32-bit seconds |
| `SamsungBattery.BatteryInfo.RechargeCond` | mainline-patches-2/tocopy/linux/drivers/battery/samsung_battery.c:732-751 | a battery that is not charging is recharged below its voltage |
| `SamsungBattery.BatteryInfo.MonitorWork` | mainline-patches-2/tocopy/linux/drivers/battery/samsung_battery.c:1467-1672 | a poll on both objects, with battery error, readings, temperature, full-charge, timer and recharge checks in order, is the specified one and keeps the stop flags consistent |
| `BatteryMonitor.MonitorKeepsTemperOk` | mainline-patches-2/tocopy/linux/drivers/battery/samsung_battery.c:1046-1061 | after any poll the stop flag is overheated or freezed, never both |
| `BatteryMonitor.CablePrograms` | mainline-patches-2/tocopy/linux/drivers/battery/samsung_battery.c:1582-1667 | the charge code and the input limit that a healthy poll programs for each cable, in the board's own numbers, under the cap and within the board's limit; an unknown cable leaves the registers alone |
| `BatteryMonitor.NoCablePrograms` | mainline-patches-2/tocopy/linux/drivers/battery/samsung_battery.c:1583-1598 | without a cable both currents are programmed to 0 and everything is forgotten |
| `BatteryMonitor.ReadingsTaken` | mainline-patches-2/tocopy/linux/drivers/battery/samsung_battery.c:378-478 | what a poll takes over from its readings, slate mode and a gauge that seems off included |
| `BatteryMonitor.ThresholdsInForce` | mainline-patches-2/tocopy/linux/drivers/battery/samsung_battery.c:970-994 | low-power mode first, then events, on CTIA boards only |
| `BatteryMonitor.FullPoll` | mainline-patches-2/tocopy/linux/drivers/battery/samsung_battery.c:803-851 | full at more than 95 percent above the board's voltage, in two steps if asked for: charging stops and the input limit stays |
| `BatteryMonitor.NotReallyFull` | mainline-patches-2/tocopy/linux/drivers/battery/samsung_battery.c:850-867 | a charger that is off and says full against the gauge is on after the poll |
| `BatteryMonitor.TimeLimit` | mainline-patches-2/tocopy/linux/drivers/battery/samsung_battery.c:753-801 | a charge is switched off, and waits to be recharged, exactly after the duration of its phase; USB ports and full batteries have no limit |
| `BatteryMonitor.WaitsForRecharge` | mainline-patches-2/tocopy/linux/drivers/battery/samsung_battery.c:732-751 | a waiting battery is left alone until it is not charging and its voltage is low |
| `BatteryMonitor.RunningPoll` | mainline-patches-2/tocopy/linux/drivers/battery/samsung_battery.c:1004-1025 | a poll stops a charging battery exactly at the thresholds in force, and then programs both currents to 0 and switches the charger off |
| `BatteryMonitor.StoppedPoll` | mainline-patches-2/tocopy/linux/drivers/battery/samsung_battery.c:1026-1044 | a poll resumes exactly at the matching recovery threshold in force; otherwise both currents are programmed to 0 and charging is off |
| `BatteryMonitor.OffStaysOffBetweenPolls` | mainline-patches-2/tocopy/linux/drivers/battery/max77693_charger.c:1180-1356 | the charger's own work never brings a limit of 0 back |
| `BatteryMonitor.StoppedUntilRecovery` | mainline-patches-2/tocopy/linux/drivers/battery/samsung_battery.c:1467-1556 | over runs of any length, with soft regulation in between and thresholds changing, a stopped battery stays programmed off until it recovers |
| `BatteryMonitor.PollKeepsStopOk` | mainline-patches-2/tocopy/linux/drivers/battery/samsung_battery.c:1467-1672 | any poll, disturbed or not, ends with a stopped battery programmed off and no start time recorded for it |
| `BatteryMonitor.StoppedMeansOff` | mainline-patches-2/tocopy/linux/drivers/battery/samsung_battery.c:1467-1672 | so does any run of any polls with any soft regulation in between |
| `BatteryMonitor.SwitchRecordKeptIff` | mainline-patches-2/tocopy/linux/drivers/battery/samsung_battery.c:850-867 | the start time stops telling whether the charger is on exactly if a poll restarts a charger that has none and does not go on to program a current |
| `BatteryMonitor.RestartedChargerOutlivesStop` | mainline-patches-2/tocopy/linux/drivers/battery/samsung_battery.c:850-867 | an input: after such a restart a stop for the temperature programs both currents to 0 but leaves the charger switched on |
| `BatteryMonitor.ErrorChargesAgainIff` | mainline-patches-2/tocopy/linux/drivers/battery/samsung_battery.c:1486-1605 | a poll that switches charging off for a battery error charges again before it ends exactly if the battery and a cable are found, no temperature stop applies, and the charger is restarted or the battery is not full and there is a current to program |
| `BatteryMonitor.HealthErrorChargesAgain` | mainline-patches-2/tocopy/linux/drivers/battery/samsung_battery.c:1486-1605 | an example: bad health with mains attached ends fully charging |
| `BatteryMonitor.EventThresholdsStayInForce` | mainline-patches-2/tocopy/linux/drivers/battery/samsung_battery.c:979-994 | with CTIA on and outside LPM the event thresholds apply while an event is active and for the whole period after |
| `EventWindow.WindowStaysOk` | mainline-patches-2/tocopy/linux/drivers/battery/samsung_battery.c:576-642 | in any possible history: events active iff state SET, and alarm armed iff IN_TIMER |
| `EventWindow.ActiveIff` | mainline-patches-2/tocopy/linux/drivers/battery/battery-factory.c:464-476 | an event is active exactly if a store of 1 set its bit and no store of 0 cleared it since |
| `EventWindow.WindowCoversEventsAndPeriod` | mainline-patches-2/tocopy/linux/drivers/battery/samsung_battery.c:562-642 | the window is open while an event is active and at least event_time after the last one ended |
| `EventWindow.BatteryEvents.EventControl` | mainline-patches-2/tocopy/linux/drivers/battery/samsung_battery.c:576-642 | the control step on the fields |
| `EventWindow.BatteryEvents.CtiaStore` | mainline-patches-2/tocopy/linux/drivers/battery/battery-factory.c:454-483 | a store sets or clears a bit and runs the control step, even if it cannot be parsed |
| `EventWindow.BatteryEvents.EventAlarm` | mainline-patches-2/tocopy/linux/drivers/battery/samsung_battery.c:562-574 | the alarm closes the window |
| `FuelGauge.Max17050.FullchargedCompensation` | mainline-patches-2/tocopy/linux/drivers/battery/max17050_fuelgauge.c:1330-1423 | the five cases compute the specified registers and remembered capacity |
| `FuelGauge.BandKeptIff` | mainline-patches-2/tocopy/linux/drivers/battery/max17050_fuelgauge.c:1339-1423 | exactly when both capacities stay in 50..110 percent, by the two register reads, the old register and the distance of the nominal capacity from the last one, whether the last capacity is a signed or an unsigned field |
| `FuelGauge.LearningIsSlowIff` | mainline-patches-2/tocopy/linux/drivers/battery/max17050_fuelgauge.c:1373-1409 | the capacity moves at most ten percent exactly when no absolute clamp overtakes the slow limit |
| `FuelGauge.LearnedCapacity` | mainline-patches-2/tocopy/linux/drivers/battery/max17050_fuelgauge.c:1339-1409 | the value that the register ends with, in numbers: the bounds of the nominal capacity, or the reading held within ten percent of the last capacity |
| `FuelGauge.RememberedCapacity` | mainline-patches-2/tocopy/linux/drivers/battery/max17050_fuelgauge.c:1411-1414 | what is remembered, and that both registers are written together |
| `FuelGauge.RememberedError` | mainline-patches-2/tocopy/linux/drivers/battery/max17050_fuelgauge.c:1411-1414 | a failing second read is remembered as its error number, signed or unsigned |
| `FuelGauge.AbsoluteClampOvertakesSlowLimit` | mainline-patches-2/tocopy/linux/drivers/battery/max17050_fuelgauge.c:1345-1387 | an input for which it does: from 1000 of 2000 a reading of 2300 is learned as 2200, beyond ten percent, a reading of 2200 only as 1100 |
| `FuelGauge.CapacityStaysInBand` | mainline-patches-2/tocopy/linux/drivers/battery/max17050_fuelgauge.c:1339-1423 | for any sequence of readings the capacities never leave the band |
| `LowBattery.RangeOf` | mainline-patches-2/tocopy/linux/drivers/battery/max17050_fuelgauge.c:1670-1674 | the current range a current falls in, or none |
| `LowBattery.HitIff` | mainline-patches-2/tocopy/linux/drivers/battery/max17050_fuelgauge.c:1662-1679 | a hit in fields and table entries: voltage, charge, the smaller current, its range and the range's line |
| `LowBattery.MissIff` | mainline-patches-2/tocopy/linux/drivers/battery/max17050_fuelgauge.c:1662-1679 | which samples are not looked at and which fall outside the table |
| `LowBattery.Gauge.AddCnt` | mainline-patches-2/tocopy/linux/drivers/battery/max17050_fuelgauge.c:1561-1579 | one cell counts on, all others are 0 |
| `LowBattery.Gauge.CheckCondition` | mainline-patches-2/tocopy/linux/drivers/battery/max17050_fuelgauge.c:1615-1636 | finds a full cell iff there is one |
| `LowBattery.Gauge.CountSample` | mainline-patches-2/tocopy/linux/drivers/battery/max17050_fuelgauge.c:1670-1684 | the loop over the ranges counts a sample in at most one of them |
| `LowBattery.Gauge.LowBattCompensation` | mainline-patches-2/tocopy/linux/drivers/battery/max17050_fuelgauge.c:1652-1701 | the table always holds just the latest streak of hits modulo the maximum, and compensation fires exactly when the streak completes a full group |
| `LowBattery.NextPending` | mainline-patches-2/tocopy/linux/drivers/battery/max17050_fuelgauge.c:1607-1689 | how one more check moves the single counter that the table refines |
| `AdcAverage.AdcSample.CalculateAverage` | mainline-patches-2/tocopy/linux/drivers/battery/sec_battery.c:129-171 | the ring and its running total compute the plain moving average of the effective samples, for any sequence of samples |
| `AdcAverage.LatestSlides` | mainline-patches-2/tocopy/linux/drivers/battery/sec_battery.c:159-161 | adding the new sample and dropping the oldest one is the sum of the new window |
| `AdcAverage.MeanStaysWithinSamples` | mainline-patches-2/tocopy/linux/drivers/battery/sec_battery.c:152-161 | the average lies between the smallest and the largest sample of the window |
| `AdcAverage.EffectiveWithinBounds` | mainline-patches-2/tocopy/linux/drivers/battery/sec_battery.c:141-145 | invalid samples never take the effective samples out of the bounds of the valid ones |

## Left out

- Labels, value and text files of sysfs, debugfs, printing, wake locks, delays, locks as such, and bus transfers; registers are fields.
- Probe, remove and device-tree hooks, the registration of a chip's own sysfs device (taken to succeed), and `gpio_set_debounce`.
- Undoing a partial `gpiochip_reserve`: the driver does not, and nothing is claimed beyond what is marked.
- Updates of one flags word from two locks at once: in `GpioRaces` every critical section, and every sysfs call under its mutex, is one step; a thread frees and redirects only lines it requested.
- The unlocked update of `enabled` in gpio-nomadik and charger interrupts that do not take the charger's lock: every operation is one step.
- GpioLib.Gpios.SetupIrq: the retry loop of the id allocator is represented by its final answer.
- Nomadik.NmkGpio.ConfigPins: alternate-C entries for pins outside the bank table are excluded, because the driver indexes its backup array with them unchecked; other entries out there end with -EINVAL as in the driver.
- FlagWordRuns.WordsFollowRuns: the bit that marks a line as exported by userspace is set outside the calls of a run, so runs leave it alone.
- BatteryMonitor.SwitchRecordKeptIff: for a clock past its first second, because a start time of 0 means that charging is off.
- SamsungBattery.BatteryInfo.MonitorWork: icon state, poll interval, wireless charging, factory modes and locale variants are not represented; a restart of the charger is one step.
- Max77693.ChargerData.SoftregWorkStep: scheduling of other work items is left out; only whether the work reschedules itself is kept.
- ChargeControl.ControlProgramsTheRegisters: stated for charge currents up to 2133 mA and limits up to 2540 mA, the largest that fit the registers; its part on the switch for a clock past its first second.
- EventWindow.WindowCoversEventsAndPeriod: gives a lower bound only, because the alarm may go off late.
- LowBattery.Gauge.LowBattCompensation: what the compensation writes to the gauge, and `prevent_early_poweroff`, are left out.
- AdcAverage.AdcSample.CalculateAverage: one channel; channels do not share state.
- gpio-omap and the other GPIO drivers, the other fuel gauges and chargers, and the temperature handling of sec_battery.
