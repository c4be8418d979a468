# work_timer firmware core in Dafny

This project models the logic of the work_timer firmware, which drives a
battery-powered e-ink clock with Wi-Fi. It shows time, weather, a calendar,
timers and a CHIP-8 emulator. The rendering is not modelled. The model
covers the rule systems behind the screens:

- **Provisioning web service** (`web_service.dfy`): the `multipart/form-data`
  parser `parse_form`, the `GET /config` and `POST /configure_wifi` routing in
  `process_http` that updates the stored Wi-Fi credentials, and the
  header-complete test of the read loop in `web_tcp_socket`.
- **URL splitter** (`request.dfy`): scheme, host, port and path of
  `send_request`, and the address choice of `resolve`.
- **Wi-Fi access broker and connection state machine** (`wifi.dfy`): the
  shared `WIFI_STATE`, `WIFI_LOCK`, last-use time and the stop/reconnect
  signals. Each task step (one `use_wifi` poll, `finish_wifi`, one `do_stop`
  tick, one resumption of `connection_wifi`) is one atomic method of the
  `WifiBroker` class.
- **Clock, NTP and sleep** (`worldtime.dfy`, `sleep.dfy`, `gregorian.dfy`):
  the offset clock, the +8 h local time, the date string and weekday labels,
  the SNTP endpoint conversions, the NTP worker's wake/resync/backoff rules,
  and the idle test and wake-source list of `to_sleep`. `gregorian.dfy` is the
  proleptic Gregorian calendar arithmetic that the `time` crate supplies.
- **Persistent records** (`storage.dfy`): the flash layout, the init-tag boot
  decision, the defaults written on (re)initialisation, and `write_flash`,
  which always reports success.
- **Input decoding** (`event.dfy`, `ec11.dfy`): the bounded listener table,
  the key press classifier and the EC11 quadrature decoder.
- **Weather and battery** (`seniverse.dfy`, `weather.dfy`, `battery.dfy`):
  `form_json` over an abstract JSON tree, the weather worker's polling and
  its lock discipline, and the voltage-to-percent arithmetic.
- **UI state** (`list_widget.dfy`, `calendar.dfy`, `calender.dfy`,
  `main_page.dfy`, `timer_page.dfy`, `count_down_page.dfy`,
  `setting_page.dfy`, `pages.dfy`, `chip8.dfy`, `geometry.dfy`): list
  selection and scrolling, calendar cell placement, menu and counter
  cursors, the long-press factory reset, the configuration URL, and ROM
  loading into emulator memory.
- **Helpers**:
  - `wrappers.dfy` holds `Option` and `Result`.
  - `heapless.dfy` is the fixed-capacity `heapless::Vec` and `String`.
  - `rust_str.dfy` holds the `&str` operations the parsers use: `find`,
    `split`, `split_once`, `trim`, `trim_matches` and `strip_prefix`.

State that the firmware keeps in mutable statics or objects is modelled as
classes. Their methods change the fields step by step, and each method's
`ensures` ties the new state to a pure step function of the old state.
Properties are then proved about those functions: lock discipline, allowed
state transitions, timeouts, bounds and round trips. A Rust panic (an
out-of-bounds index, a `heapless` capacity overflow, integer overflow) is
modelled as an explicit outcome such as `Panicked` or `Overflow`. Network,
radio, ADC, flash and clock results are parameters of the methods that use
them.

Some behaviour of the code is easy to get wrong, and the model keeps it as
the code has it:

- The firmware has no DHCP or DNS responder of its own. A captive portal
  would need them, but none of the source files contains one, so neither is
  modelled.
- In the connection task, the `select` at src/wifi.rs:136 lists the
  disconnect event first, ahead of the stop signal. The model lets either
  event arrive, and it does not give stop priority.
- A form body that splits into more than 20 parts overflows a
  `heapless::Vec` and panics (src/web_service.rs:224). It does not just close
  the connection, and the model keeps that panic.
- `write_flash` always returns `Ok`, even when the driver's write fails
  (src/storage.rs:10-24). So the reset follows every accepted form, whether
  or not the credentials reached flash.

## Model

| member | source | states |
|---|---|---|
| Battery.Voltage | src/battery.rs:41 | the voltage is twice the 16-bit ADC reading, so it is even and fits a u32 |
| Battery.AsWrittenUnderflows | src/battery.rs:44-45 | as written, a reading of 1500 (3000 mV, below empty) makes the u32 subtraction wrap and the percentage 4772163 |
| Battery.Percent | src/battery.rs:42-45 | with the voltage clamped to [3200, 4100] mV the percentage is at most 100, is 100 from 4100 mV up and 0 up to 3200 mV |
| Battery.AsWrittenAgreesAboveEmpty | src/battery.rs:44-45 | from 3200 mV up the code as written and the clamped percentage agree |
| Battery.PercentMonotone | src/battery.rs:44-45 | a higher voltage never gives a lower percentage |
| Battery.BatteryMonitor.constructor | src/battery.rs:20-26 | a new monitor holds voltage 0 and percent 0 |
| Battery.BatteryMonitor.Sample | src/battery.rs:36-53 | an ADC error leaves voltage and percent unchanged; a reading sets the voltage to twice the reading and the percent to the clamped percentage of it |
| Chip8.Loaded | src/chip8.rs:37-42 | loading keeps memory at 4096 bytes |
| Chip8.LoadedPlacesRom | src/chip8.rs:37-42 | after loading, ROM byte i is at address 0x200 + i and every address outside [0x200, 0x200 + len) keeps its old byte |
| Chip8.LoadIdempotent | src/chip8.rs:37-42 | loading the same ROM twice leaves the same memory as loading it once |
| Chip8.Frames | src/chip8.rs:44-49 | n frames are n times thirty-one steps |
| Chip8.FramesTickRate | src/chip8.rs:44-49 | in a run of whole frames, step k is a timer tick exactly when k mod 31 is 30, so every tick follows thirty cycles |
| Chip8.Chip8.constructor | src/chip8.rs:12-34 | memory, registers, display, keypad, stack and the random generator's state are all zero; pc, sp, i and dt are 0 |
| Chip8.Chip8.LoadRom | src/chip8.rs:37-42 | the loop leaves memory equal to the loaded image; it requires 0x200 + len <= 4096, beyond which the indexing panics |
| Chip8.Chip8.ExecuteCycle | src/chip8.rs:87-89 | records one instruction cycle; the arrays stay the same objects, and their contents may change in any way |
| Chip8.Chip8.DecrementTimers | src/chip8.rs:91-93 | records one timer tick; the arrays stay the same objects, and their contents may change in any way |
| Chip8.Chip8.Run | src/chip8.rs:44-49 | one call performs thirty cycles and then one timer tick, in that order |
| Heapless.PushBounded | src/event.rs:43-58 | a push appends the element while the vector is below capacity and leaves it unchanged when it is full |
| Heapless.PushBoundedKeeps | src/event.rs:43-58 | a bounded push never exceeds the capacity and keeps the earlier elements as a prefix |
| Heapless.PushStr | src/pages/setting_page.rs:59-62 | text is appended only when the result fits the string's byte capacity, otherwise the string is unchanged |
| Geometry.WeekGridStep | src/widgets/calendar.rs:167-171 | one step right along a seven-column grid reaches the right edge exactly from the last column, and then continues in column 0 of the next row |
| Geometry.WalkReachesNextCell | src/widgets/calender.rs:95-99 | one step of the x/y walk takes the cell of day i to the cell of day i + 1 |
| Pages.DispatchTable | src/event.rs:84-97 | in a page's table with one handler per event, toggling an event calls that handler exactly once with the page's target, and toggling an unbound event calls nothing |
| Sleep.WakeSources | src/sleep.rs:32-36 | the RTC-IO source comes first, and the timer source is present, as the second entry, exactly when the sleep time is nonzero |
| Sleep.SleepDecision | src/sleep.rs:22-41 | it panics exactly when last-active lies after now; it sleeps exactly when the idle span exceeds the idle time, stopping Wi-Fi first and then sleeping with the wake sources |
| Sleep.SleepBeforeRefreshPanics | src/sleep.rs:15-23 | before the first refresh the last-active instant is Instant::MAX, so `to_sleep` panics |
| Sleep.SleepManager.constructor | src/sleep.rs:15-16 | last-active starts at Instant::MAX and the pin list empty |
| Sleep.SleepManager.RefreshActiveTime | src/sleep.rs:18-20 | last-active becomes now; the pins are unchanged |
| Sleep.SleepManager.AddRtcio | src/sleep.rs:45-48 | the pin is appended while fewer than five are stored and dropped otherwise; the list never exceeds five |
| Sleep.SleepManager.ToSleep | src/sleep.rs:22-41 | the method's outcome is exactly the sleep decision |
| Ec11.EdgeStep | src/ec11.rs:38-88 | an ambiguous channel leaves the state and emits nothing; A down records Front or Back from B and emits nothing; A up resets to NoState and emits WheelFront iff B is up after Front, WheelBack iff B is down after Back |
| Ec11.WheelEventsPerEdge | src/ec11.rs:30-97 | over any sequence of wake-ups, the decoder task emits no more wheel events than there are edges on channel A |
| Ec11.PressNotWheel | src/ec11.rs:92-94 | the push key's detection never emits a wheel event |
| Ec11.ForwardDetent | src/ec11.rs:66-88 | a falling A edge with B down then a rising A edge with B up emits WheelFront; with B up then down it emits WheelBack |
| Ec11.DecodeEdge | src/ec11.rs:38-88 | the sampling, debounce and decision of one A edge compute exactly the edge step |
| Ec11.Ec11Task | src/ec11.rs:24-98 | the decoder task loop emits exactly the events of the run from NoState and ends in the run's recorded direction |
| Event.LastIndexOf | src/event.rs:64-69 | the index found holds a listener of type t and no later one has that type; there is none exactly when no listener has type t |
| Event.Unregister | src/event.rs:60-73 | without a listener of type t the table is unchanged, otherwise it loses exactly one entry |
| Event.Dispatch | src/event.rs:81-100 | `toggle_event` makes at most one call per listener |
| Event.DispatchConcat | src/event.rs:84-98 | the calls from two tables joined are the first table's calls then the second's |
| Event.RegisterDispatchedLast | src/event.rs:43-98 | a listener registered while there is room is called after every earlier listener of its type, with its own target |
| Event.DispatchNone | src/event.rs:84-98 | a table with no listener of type t makes no call for t |
| Event.DispatchOne | src/event.rs:84-98 | a single listener is called exactly when its type matches, with its stored target |
| Event.DispatchRemove | src/event.rs:70-98 | removing the entry at i removes its call, and only its call, from the dispatch of every type |
| Event.UnregisterKeepsOthers | src/event.rs:60-73 | `un(t)` leaves the calls made for every other type unchanged |
| Event.UnregisterDropsLast | src/event.rs:60-73 | `un(t)` drops exactly the last call for t and keeps the earlier calls in order; with no listener of type t nothing changes |
| Event.NoneAfterLast | src/event.rs:65-69 | no listener after the one `un` finds is called for t |
| Event.RegisterThenUnregister | src/event.rs:43-73 | registering a listener while there is room and then calling `un` on its type restores the table |
| Event.EventBus.constructor | src/event.rs:43 | the table starts empty |
| Event.EventBus.Register | src/event.rs:43-58 | the push appends while there are fewer than 20 listeners and leaves a full table unchanged |
| Event.EventBus.On | src/event.rs:44-48 | appends one listener with no target when there is room |
| Event.EventBus.OnTarget | src/event.rs:49-53 | appends one non-resident listener carrying the target when there is room |
| Event.EventBus.OnFixed | src/event.rs:54-58 | appends one resident listener carrying the target when there is room |
| Event.EventBus.Un | src/event.rs:60-73 | the scan and removal leave exactly the unregistered table |
| Event.EventBus.Clear | src/event.rs:75-78 | the table becomes empty, resident listeners included |
| Event.EventBus.ToggleEvent | src/event.rs:81-100 | the loop makes exactly the dispatched calls, in registration order |
| Event.LowCount | src/event.rs:137-142 | the low count never exceeds the number of samples |
| Event.CountLow | src/event.rs:137-142 | the sampling loop counts exactly the low samples |
| Event.PressedNotReleased | src/event.rs:143-155 | no reading is both pressed and released; all-low samples are pressed and all-high samples released |
| Event.AfterShortRelease | src/event.rs:163-183 | the wait after a short release ends exactly when it emits, and it emits nothing, one KeyShort or one KeyDouble |
| Event.LongPressTail | src/event.rs:146-161 | once the long press has started, the events are exactly one KeyLongIng per pressed reading past 500 ms before the first released reading, then one KeyLongEnd at that released reading, where detection ends; with no released reading detection has not ended |
| Event.KeyDetectShape | src/event.rs:131-189 | one press yields nothing yet, a single KeyShort or KeyDouble, or exactly one KeyLongStart followed by the long-press tail; detection never ends silently; KeyLongStart is emitted iff a pressed reading past 500 ms comes before any released reading |
| Event.LongBeforeReleaseShift | src/event.rs:143-156 | a reading that is neither released nor a pressed reading past 500 ms leaves open whether a long reading comes before a release |
| Event.LongStartsAtFirstLong | src/event.rs:143-152 | KeyLongStart is emitted at the first pressed reading past 500 ms, and the long-press tail runs over the readings after it |
| Event.DoubleIff | src/event.rs:165-182 | after a short release KeyDouble is emitted iff a pressed reading comes while at most 400 ms have passed and no earlier reading was pressed or late |
| Event.ShortIff | src/event.rs:165-170 | after a short release KeyShort is emitted iff more than 400 ms pass before any pressed reading |
| Event.AwaitSecondPress | src/event.rs:165-183 | the inner loop computes exactly the wait after a short release |
| Event.KeyDetection | src/event.rs:131-189 | the detection loop emits exactly the modelled events and returns exactly when the model does |
| ListWidget.OffsetByChoose | src/widgets/list_widget.rs:80-102 | x is unchanged; content shorter than the viewport, or a chosen row in the top half, keeps the list at its position; otherwise y lies between position.y - (content - height) and position.y |
| ListWidget.OffsetRegimes | src/widgets/list_widget.rs:89-101 | the three regimes: at the top while the row's y is within half the height, clamped at content - height past that plus half the height, and otherwise shifted by row y - height/2 |
| ListWidget.ChosenRowVisible | src/widgets/list_widget.rs:80-108 | in a viewport at least two rows tall, the chosen row is drawn wholly inside it |
| ListWidget.ListWidget.ItemPosition | src/widgets/list_widget.rs:104-108 | a row is drawn in the column of the current offset |
| ListWidget.ListWidget.constructor | src/widgets/list_widget.rs:30-47 | one unchosen row per label, row i at position.y + 20 i and width size.width - 10; offset at the position; index 0; every label must fit the 20 UTF-8 bytes of `String<20>`, where `from_str(..).unwrap()` would otherwise panic |
| ListWidget.ListWidget.Choose | src/widgets/list_widget.rs:49-73 | an index past the row count changes nothing; otherwise row j is chosen iff j is the index (so index = count chooses none), the offset is the offset for that index, and row j sits at (offset.x, offset.y + 20 j) |
| MainPage.MainDispatch | src/pages/main_page.rs:127-192 | toggling an event calls exactly one of the page's handlers when the page reacts to it, and none otherwise; the handler called is the one for that event's action (KeyShort(1) and WheelFront increase, KeyShort(2) and WheelBack decrease, KeyShort(5) opens) |
| MainPage.TableAgrees | src/pages/main_page.rs:127-192 | each of the nine registrations is bound to the action the event-to-action mapping gives |
| MainPage.Apply | src/pages/main_page.rs:82-94 | the index stays in [0, 4]; increase and decrease move it by one inside the bounds and otherwise not at all; `need_render` is raised iff the index changes; opening sets the current page to the index (the handlers bound at lines 169-176) |
| MainPage.Repeat | src/pages/main_page.rs:288-326 | repeated steps keep the index in [0, 4] |
| MainPage.RepeatClamps | src/pages/main_page.rs:288-326 | n auto-repeat ticks move the index n entries, stopping at the first or last entry, and leave the open page alone |
| MainPage.IncreaseThenDecrease | src/pages/main_page.rs:82-94 | below the last entry, increase then decrease returns to the same index |
| MainPage.MainPage.constructor | src/pages/main_page.rs:104-126 | five entries in the order clock, timer, weather, calendar, games; index 0; no open page; `need_render` set |
| MainPage.MainPage.Increase | src/pages/main_page.rs:82-87 | the new state is the increase step of the old one |
| MainPage.MainPage.Decrease | src/pages/main_page.rs:89-94 | the new state is the decrease step of the old one |
| MainPage.MainPage.Back | src/pages/main_page.rs:96-100 | the open page is cleared, `need_render` set, the index kept, and the table holds exactly the page's nine handlers |
| MainPage.MainPage.Handle | src/pages/main_page.rs:129-191 | the handler for an action changes the page exactly as the action's step says |
| MainPage.MainPage.AutoRepeat | src/pages/main_page.rs:288-305 | an auto-repeat round of n ticks leaves the page in the state of n repeated steps |
| MainPage.MainPage.Render | src/pages/main_page.rs:197-224 | `need_render` is cleared only when a display exists; a list is laid out exactly when a change was pending and there is a display, with the five titles in order and only the cursor's entry chosen |
| MainPage.MainPage.BindEvent | src/pages/main_page.rs:127-192 | the table is cleared and then holds exactly the nine handlers, in order |
| TimerPage.TableAgrees | src/pages/timer_page.rs:106-132 | the three registrations are for distinct events, each bound to the action the event-to-action mapping gives (KeyShort(2) only logs) |
| TimerPage.TimerDispatch | src/pages/timer_page.rs:106-132 | toggling KeyShort(1), KeyShort(2) or KeyShort(5) calls exactly one handler, passed this page, with that event's action; any other event calls nothing |
| TimerPage.Apply | src/pages/timer_page.rs:49-64 | the index stays in [0, 500]; increase and decrease change it by one only inside the bounds; `need_render` is raised iff the index changes; only back clears `running` |
| TimerPage.RunLoop | src/pages/timer_page.rs:184-196 | the loop keeps the index in bounds and makes at most one iteration per handler action |
| TimerPage.FirstBack | src/pages/timer_page.rs:184-196 | the index found is the first back action, and without one there is no back action at all |
| TimerPage.RunEndsAtFirstBack | src/pages/timer_page.rs:184-196 | a running page iterates once per action up to and including the first back and then returns with `running` false; without a back it is still running |
| TimerPage.TimerPage.constructor | src/pages/timer_page.rs:95-105 | all counters 0, `need_render` and `running` set, not loading, no error |
| TimerPage.TimerPage.Increase | src/pages/timer_page.rs:49-54 | the new state is the increase step of the old one; nothing else changes |
| TimerPage.TimerPage.Decrease | src/pages/timer_page.rs:56-61 | the new state is the decrease step of the old one; nothing else changes |
| TimerPage.TimerPage.Back | src/pages/timer_page.rs:62-64 | `running` becomes false and no other field changes |
| TimerPage.TimerPage.Handle | src/pages/timer_page.rs:109-131 | the handler for an action changes the page exactly as the action's step says |
| TimerPage.TimerPage.Render | src/pages/timer_page.rs:134-136 | the pending change is taken, display or not, and nothing else in the state changes |
| TimerPage.TimerPage.BindEvent | src/pages/timer_page.rs:106-132 | the table is cleared and then holds exactly the three handlers, each passed this page |
| TimerPage.TimerPage.Run | src/pages/timer_page.rs:184-196 | `running` is set, and the loop ends in the state and after the iterations of the run loop |
| CountDownPage.Increased | src/pages/count_down_page.rs:61-66 | the index rises by one below 500 and stays put at 500; `need_render` is raised iff it changes |
| CountDownPage.Decreased | src/pages/count_down_page.rs:68-73 | the index falls by one above 0 and stays put at 0; `need_render` is raised iff it changes |
| CountDownPage.Changes | src/pages/count_down_page.rs:131-135 | the number of changes of second is at most the number of readings |
| CountDownPage.TicksCount | src/pages/count_down_page.rs:124-141 | after the loop the counter has advanced once per change of the whole-second reading, capped at 500; the pending change is taken and the last reading is recorded |
| CountDownPage.ChangesWithinElapsed | src/pages/count_down_page.rs:124-141 | on a monotonic clock the counter advances by no more than the seconds elapsed |
| CountDownPage.CountDownPage.constructor | src/pages/count_down_page.rs:77-84 | all counters 0 and `need_render` set |
| CountDownPage.CountDownPage.Increase | src/pages/count_down_page.rs:61-66 | the new state is the increased state; the other counters are unchanged |
| CountDownPage.CountDownPage.Decrease | src/pages/count_down_page.rs:68-73 | the new state is the decreased state; the other counters are unchanged |
| CountDownPage.CountDownPage.Render | src/pages/count_down_page.rs:86-88 | the pending change is taken, display or not |
| CountDownPage.CountDownPage.Run | src/pages/count_down_page.rs:124-141 | `increase` is called exactly when the reading differs from the last one recorded, which then becomes that reading; the loop ends in the state the ticks give |
| CountDownPage.CountDownSlot.constructor | src/pages/count_down_page.rs:30 | the slot starts empty |
| CountDownPage.CountDownSlot.Init | src/pages/count_down_page.rs:40-60 | a new page is installed and the listener table is left empty |
| CountDownPage.CountDownSlot.Close | src/pages/count_down_page.rs:44-47 | the listener table is emptied and the page dropped |
| SettingPage.PushThreeShape | src/pages/setting_page.rs:59-62 | three capacity-checked pushes give all three parts when they fit, drop only the last when only it overflows, and drop only the middle when only the middle overflows |
| SettingPage.UrlShape | src/pages/setting_page.rs:59-62 | the URL is "http://" ++ ip ++ ":8080/config" for any address of up to 31 bytes; a longer one up to 43 bytes loses the suffix; a longer one still is dropped |
| SettingPage.ResetTiming | src/pages/setting_page.rs:111-124 | a hold with no recorded start never resets on that report; with a start recorded the reset is due iff more than five seconds have passed |
| SettingPage.RoundsRun | src/pages/setting_page.rs:79-87 | the loop runs up to and including the first round with a short press, and all the rounds when there is none |
| SettingPage.RoundsEndAtLeave | src/pages/setting_page.rs:79-87 | a short press arrives iff the loop's last round is one with a short press |
| SettingPage.SettingPage.constructor | src/pages/setting_page.rs:44-51 | `need_render` and `running` false, `long_start_time` 0, empty ip |
| SettingPage.SettingPage.Render | src/pages/setting_page.rs:53-72 | a pending change is taken; the QR code is drawn exactly when a change was pending and there is a display, and it encodes the URL |
| SettingPage.SettingPage.OnShortPress | src/pages/setting_page.rs:96-101 | `running` becomes false and nothing else changes |
| SettingPage.SettingPage.OnLongStart | src/pages/setting_page.rs:104-109 | the current second is recorded as the hold start and nothing else changes |
| SettingPage.SettingPage.OnLongHold | src/pages/setting_page.rs:111-126 | a start of 0 is replaced by now; it resets iff the hold is due and the Wi-Fi record is loaded, and then the record is written back with `wifi_finish` cleared; otherwise nothing is written |
| SettingPage.SettingPage.BindEvent | src/pages/setting_page.rs:93-129 | the table is cleared and then holds exactly the three push-key handlers, each passed this page |
| SettingPage.SettingPage.Run | src/pages/setting_page.rs:74-91 | the loop makes the rounds up to the first short press, each refreshing the Wi-Fi last-use time, so the broker keeps the last round's time and nothing else changes; the stop-web-service signal is raised iff the loop ended |
| Gregorian.DaysInMonth | src/widgets/calendar.rs:36-41 | every month has between 28 and 31 days |
| Gregorian.DaysBeforeYearIs | src/widgets/calendar.rs:36-41 | the year-by-year day count equals the closed form: 365 a year plus one per leap year |
| Gregorian.FromDayNumber | src/widgets/calendar.rs:37 | the date found for a day number is a well-formed date with exactly that day number |
| Gregorian.FromDayNumberOfDate | src/widgets/calendar.rs:37 | round trip: every well-formed date is the date of its own day number |
| Gregorian.DayNumberInjective | src/widgets/calendar.rs:37 | distinct well-formed dates have distinct day numbers |
| Gregorian.DateOfNumber | src/widgets/calendar.rs:37 | a well-formed date is the date of any number equal to its day number |
| Gregorian.DaysFromSunday | src/widgets/calendar.rs:134 | the weekday counted from Sunday lies in 0..6 |
| Gregorian.WeekdayOfNumber | src/widgets/calendar.rs:134 | the weekday of the date of day number n is (n + 6) mod 7, since 0000-01-01 is a Saturday |
| Gregorian.WeekdayAdvances | src/widgets/calendar.rs:134 | the next day falls on the next weekday, wrapping from Saturday to Sunday |
| Gregorian.EpochIsThursday | src/widgets/calendar.rs:134 | 1970-01-01 has day number 719528 and is a Thursday, as the `time` crate has it |
| Gregorian.WeekdayInMonth | src/widgets/calendar.rs:134-171 | day d of a month falls d - 1 weekdays after the first of that month |
| Gregorian.FromCalendarDate | src/widgets/calendar.rs:36 | it succeeds exactly for a representable date, and then returns that date |
| Gregorian.AddDays | src/widgets/calendar.rs:37 | adding k days gives a representable date whose day number is k more, and fails only when the result is out of range |
| Gregorian.AddDaysTo | src/widgets/calendar.rs:37 | adding k days to a date reaches any representable date whose day number is k more |
| Gregorian.ReplaceDay | src/widgets/calendar.rs:38-39 | replacing the day succeeds exactly for a day of that month, and changes only the day |
| Gregorian.PreviousDay | src/widgets/calendar.rs:40-41 | the previous day is representable and has a day number one less |
| Gregorian.NextMonthStart | src/widgets/calendar.rs:37-39 | the first of the next month is a well-formed date |
| Gregorian.NextMonthStartNumber | src/widgets/calendar.rs:37-39 | the first of the next month comes the month's length in days after the first of the month |
| Gregorian.MonthLastDaySteps | src/widgets/calendar.rs:36-41 | the first of the month plus 31 days lands in the next month, on day 32 minus the month's length, and the day before the next month's first is the month's last day |
| Gregorian.MonthLastDayIsMonthEnd | src/widgets/calendar.rs:36-41 | the month-end chain succeeds exactly for representable months other than December of year 9999, and then yields the month's last day |
| Gregorian.MonthLastDayInRange | src/widgets/calendar.rs:36-41 | for a representable month other than December 9999 the chain yields the month's last day |
| Gregorian.LastMonthEndPanics | src/widgets/calendar.rs:37 | for December 9999 adding 31 days leaves the range, so the chain panics |
| Gregorian.DecemberPlus31 | src/widgets/calendar.rs:37 | the first of December plus 31 days is the first of January of the next year when that year is representable, and fails otherwise |
| Gregorian.MonthEnd | src/widgets/calendar.rs:36-41 | in every month where no `unwrap` panics, the computation yields the last day of that month (the same computation stands at src/widgets/calender.rs:25-26) |
| Calendar.TitleRoundTrip | src/widgets/calendar.rs:97 | for years from 0 on, the title "year-month" splits at '-' into the unpadded year and month, which read back as those numbers |
| Calendar.Headers | src/widgets/calendar.rs:102-116 | seven headers, Sunday first, header i at the position moved right by i cells and down by one cell height |
| Calendar.Cells | src/widgets/calendar.rs:138-171 | the walk draws one cell per day |
| Calendar.DayCells | src/widgets/calendar.rs:119-171 | one cell is drawn for every day of the month |
| Calendar.EveryDayOnce | src/widgets/calendar.rs:138-164 | cell i is day i + 1, labelled with its number, so every day 1..last is drawn exactly once and in order |
| Calendar.HighlightIffToday | src/widgets/calendar.rs:125-149 | a cell is highlighted iff the month shown has today's year and month and the cell's day is today's day |
| Calendar.ColumnIsWeekday | src/widgets/calendar.rs:134-171 | each day's cell sits in the column of its own weekday counted from Sunday |
| Calendar.AtMostSixWeeks | src/widgets/calendar.rs:134-171 | every day falls in rows 2 to 7 of the grid, so a month fits the six rows below the headers |
| Calendar.RowsWithin | src/widgets/calendar.rs:134-171 | up to 31 days starting on any weekday fill at most six rows below the headers |
| Calendar.CellsDistinct | src/widgets/calendar.rs:134-171 | on a grid of positive size no two days of the month share a cell |
| Calendar.CellsApart | src/widgets/calendar.rs:134-171 | distinct days starting on any weekday lie in distinct cells |
| Calendar.Calendar.constructor | src/widgets/calendar.rs:27-52 | the first day is the 1st of (year, month) and the last day that month's last day; position, size and today as given; it requires a month in which no `unwrap` panics |
| Calendar.Calendar.SetDateOfMonth | src/widgets/calendar.rs:54-63 | the first and last day become those of the new month; position, size and today are unchanged |
| Calendar.Calendar.Draw | src/widgets/calendar.rs:73-175 | draws exactly the title, the headers and the day cells of the month shown |
| Calendar.DrawHeaders | src/widgets/calendar.rs:108-116 | the header loop draws exactly the seven headers |
| Calendar.DrawDays | src/widgets/calendar.rs:134-171 | the day loop with its x/y walk draws exactly the cells of the month's days |
| Calender.Headers | src/widgets/calender.rs:62-67 | seven headers, Sunday first, header i at (16 i, 12) |
| Calender.DayTexts | src/widgets/calender.rs:86-88 | one number is drawn per day |
| Calender.BoxesUpTo | src/widgets/calender.rs:89-93 | at most one box is drawn |
| Calender.DaysInWeekdayColumns | src/widgets/calender.rs:79-100 | day d's number is drawn at x = 16 times its weekday counted from Sunday, on a row between y = 24 and y = 84 |
| Calender.TextsInColumns | src/widgets/calender.rs:79-100 | day i + 1 of up to 31 days from column w is drawn at x = 16 × ((w + i) mod 7) and on one of the six rows below the headers |
| Calender.BoxOnlyAroundToday | src/widgets/calender.rs:72-93 | a box is drawn iff the month shown is today's month, and then it sits at (x - 3, y + 3) of today's number |
| Calender.BoxesStep | src/widgets/calender.rs:89-93 | each day adds a box exactly when it is today |
| Calender.Calender.constructor | src/widgets/calender.rs:24-35 | the first day is the 1st of (year, month), the last day that month's last day, and today as given |
| Calender.Calender.SetDateOfMonth | src/widgets/calender.rs:37-42 | the first and last day become those of the new month; today is kept |
| Calender.Calender.Render | src/widgets/calender.rs:49-102 | draws exactly the title at (0, 0), the headers, the day numbers and today's box |
| Calender.DrawHeaders | src/widgets/calender.rs:63-67 | the header loop draws exactly the seven headers |
| Calender.DrawDays | src/widgets/calender.rs:79-100 | the day loop draws exactly the month's numbers and the box around today |
| Calender.NextCell | src/widgets/calender.rs:95-99 | one step moves 16 px right, or to x = 0 one row lower after the seventh column |
| Request.SplitPath | src/request.rs:75 | with a '/' the text is host + "/" + path split at the first '/', otherwise the whole text is the host and the path is empty; the host never holds a '/' |
| Request.SplitPort | src/request.rs:77-79 | with a ':' the text is host + ":" + port split at the first ':', otherwise the port text is the scheme's default; the host holds no ':' |
| Request.Locate | src/request.rs:75-81 | a port parse error iff the port text (after the first ':' before the first '/', or the default) is not a 16-bit number; otherwise a target of the given scheme whose port is that number and whose host is free of '/' and ':' |
| Request.LocateRebuilds | src/request.rs:75-81 | a located target's host and path, with the port text, rebuild the text after the scheme |
| Request.RebuildParts | src/request.rs:75-79 | the splits at the first '/' and the first ':' lose nothing but those separators: host, then ':' and the port text if there was one, then '/' and the path if there was one, give back the text |
| Request.SplitUrl | src/request.rs:72-95 | UnsupportedScheme exactly when the URL starts with neither "https://" nor "http://"; on success the scheme is Https iff the URL starts with "https://", the port fits 16 bits and the host holds no '/' or ':' |
| Request.SplitUrlOf | src/request.rs:73-91 | a URL is split by the branch of its own scheme with that scheme's default port |
| Request.LocateRoundTrip | src/request.rs:75-81 | host ":" port "/" path splits back into that host, port and path |
| Request.LocateBadPort | src/request.rs:77-81 | host ":" text "/" path with a port text that is not a 16-bit number is a port parse error |
| Request.SplitUrlRoundTrip | src/request.rs:72-92 | scheme prefix + host ":" port "/" path splits back into exactly that target |
| Request.SchemeDispatch | src/request.rs:73-83 | an "http://" URL is not taken by the "https://" branch, and each prefix strips off to give the rest |
| Request.SplitUrlDefaults | src/request.rs:75-89 | a bare host gets port 443 under https and 80 under http, and an empty path |
| Request.DefaultPortsParse | src/request.rs:79-91 | the default port texts "443" and "80" parse as 443 and 80 |
| Request.LocateDefaults | src/request.rs:75-81 | a host without '/' or ':' gets the empty path and the parsed default port |
| Request.FirstOccurrence | src/request.rs:75-78 | splitting before + sep + after at the first one-character sep gives before and after when before has no sep |
| Request.Resolve | src/request.rs:204-212 | a DnsLookup error exactly when the query fails or answers nothing, otherwise the last address of the answer |
| RustStr.StripPrefix | src/request.rs:73 | Some exactly when the text starts with the prefix, and then prefix + rest is the text |
| RustStr.FindFrom | src/web_service.rs:205 | the first index from `from` on at which the pattern occurs, None when it occurs nowhere from there |
| RustStr.Find | src/web_service.rs:205 | the first index at which the pattern occurs, None exactly when it occurs nowhere |
| RustStr.SplitOnce | src/request.rs:75 | Some exactly when the pattern occurs, and then the text is before + pattern + after with before ending at the first occurrence |
| RustStr.SplitOnceFirst | src/web_service.rs:235 | a piece free of the separator followed by the separator splits there |
| RustStr.SplitOnceBeforeFree | src/request.rs:75 | the part before the first occurrence does not contain the pattern |
| RustStr.Split | src/web_service.rs:224 | splitting always yields at least one piece |
| RustStr.SplitAbsent | src/web_service.rs:224 | splitting on an absent pattern yields the whole text |
| RustStr.SplitJoin | src/web_service.rs:224 | splitting pieces joined by a separator the pieces do not hold gives back the pieces |
| RustStr.TrimStart | src/web_service.rs:228 | the result is no longer than the text and does not start with whitespace |
| RustStr.TrimEnd | src/web_service.rs:228 | the result is no longer than the text and does not end with whitespace |
| RustStr.TrimEndPrefix | src/web_service.rs:228 | trim_end leaves a prefix of the text |
| RustStr.TrimUnchanged | src/web_service.rs:228 | text without leading or trailing whitespace is its own trim |
| RustStr.TrimMatches | src/web_service.rs:242-243 | the result neither starts nor ends with the trimmed character |
| RustStr.TrimMatchesUnchanged | src/web_service.rs:242-243 | text not starting or ending with the character is left as is |
| RustStr.FirstWithPrefix | src/web_service.rs:216 | the first piece from `from` whose trim starts with the prefix, None when no piece from there does |
| RustStr.FindMapStripPrefix | src/web_service.rs:216-240 | None exactly when no trimmed piece starts with the prefix |
| RustStr.Utf8LenConcat | src/pages/setting_page.rs:60-62 | the UTF-8 length of a concatenation is the sum of the lengths |
| RustStr.Utf8LenAscii | src/pages/setting_page.rs:60-62 | ASCII text takes one byte per character |
| RustStr.Utf8LenAtMost | src/widgets/list_widget.rs:34 | a string takes at most four UTF-8 bytes per character |
| RustStr.NatToString | src/widgets/calender.rs:87 | the decimal text is nonempty, all digits, and has no leading zero |
| RustStr.DigitsValueOfNatToString | src/widgets/calender.rs:87 | the decimal text of n reads back as n |
| RustStr.ParseU16 | src/request.rs:81 | a successful parse is below 65536 |
| RustStr.ParseU16OfNatToString | src/request.rs:81 | a number below 65536 printed in decimal parses back to itself |
| Seniverse.Blank | src/model/seniverse.rs:12-43 | a default record has exactly the struct's fields, all empty (the records are created at line 67) |
| Seniverse.Lookup | src/model/seniverse.rs:66 | `get` finds nothing exactly when no entry has the key |
| Seniverse.Collect | src/model/seniverse.rs:48 | collecting into a fixed-capacity string returns the text exactly when its UTF-8 length fits, and panics otherwise (also used at line 109) |
| Seniverse.SetField | src/model/seniverse.rs:44-52 | an unlisted key (of at most 40 bytes) leaves the record alone; a listed key must carry a string, which replaces that field |
| Seniverse.FillRecord | src/model/seniverse.rs:67-103 | a filled record keeps exactly the struct's fields |
| Seniverse.LastValue | src/model/seniverse.rs:69-79 | there is no last value exactly when no entry has the key |
| Seniverse.FillRecordLastWins | src/model/seniverse.rs:69-79 | each field holds the string of the last entry with that key, or stays empty when none names it |
| Seniverse.FillRecordLoop | src/model/seniverse.rs:69-79 | the entry loop yields the record FillRecord describes, panicking exactly when it does |
| Seniverse.FillPanicsOn | src/model/seniverse.rs:69-79 | once a prefix of the entries panics the whole object does |
| Seniverse.DailyRecords | src/model/seniverse.rs:83-106 | one record per daily item |
| Seniverse.Take | src/model/seniverse.rs:61-105 | at most five records are kept, a prefix of those pushed, all of them when they fit |
| Seniverse.TakePush | src/model/seniverse.rs:105 | a push onto a full vector of five drops the record, so the kept records are the first five |
| Seniverse.ResultStep | src/model/seniverse.rs:66-110 | a result without location keeps the previous one, one with a location replaces it by the filled record; the daily records are appended and bounded to five |
| Seniverse.FormJson | src/model/seniverse.rs:55-134 | a parse error gives None; a forecast always has exactly one result |
| Seniverse.LastLocationWins | src/model/seniverse.rs:66-81 | a location is collected iff some result has one, and it is filled from the last such result |
| Seniverse.FormJsonNoneIff | src/model/seniverse.rs:113-127 | form_json returns None iff no result carries a location |
| Seniverse.LastUpdateWins | src/model/seniverse.rs:62-110 | last_update is the string of the last result that has one, and empty when none has |
| Seniverse.TakeAppend | src/model/seniverse.rs:105 | bounding twice is bounding once |
| Seniverse.DailyInOrder | src/model/seniverse.rs:82-107 | the daily records are the first five of all results' daily records, in input order |
| Seniverse.DailyLoop | src/model/seniverse.rs:83-106 | the daily loop pushes each filled item, keeping the first five, and panics exactly when an item does |
| Seniverse.ResultBody | src/model/seniverse.rs:66-110 | the loop body computes ResultStep |
| Seniverse.FormJsonLoop | src/model/seniverse.rs:55-134 | the function with its results loop computes FormJson |
| Seniverse.CollectPanicsOn | src/model/seniverse.rs:65-111 | once a prefix of the results panics the whole array does |
| Storage.RecordsDisjoint | src/storage.rs:67-106 | the byte ranges of two different records never overlap |
| Storage.LayoutOffsets | src/storage.rs:78-95 | the records sit at 0x9008, 0x9054 and 0x90A0, the weather slot being sized by the Wi-Fi record, which is larger |
| Storage.Write | src/storage.rs:10-24 | the record is stored at its own offset iff the driver's write succeeds, and Ok is reported in every case; each slot keeps its kind (used by the write of each record at lines 60-63) |
| Storage.Read | src/storage.rs:25-28 | Err exactly when the driver's read fails, otherwise the record stored at the offset (used by the read of each record at lines 49-58) |
| Storage.ReadAfterWrite | src/storage.rs:49-63 | a record read back after a successful write is that record |
| Storage.WriteLeavesOthers | src/storage.rs:60-63 | a write leaves every other slot as it was |
| Storage.Initialised | src/storage.rs:128-140 | each default record (version 1 with the init tag, empty Wi-Fi, empty tokens) is in place where its write succeeded; with no write succeeding nothing changes |
| Storage.InitialisedPassesCheck | src/storage.rs:111-136 | after a full initialisation the version record carries the init tag and the Wi-Fi record is the empty default |
| Storage.Nvs.constructor | src/storage.rs:67-109 | the flash as given, each slot holding its own kind of record, and WIFI_INFO empty |
| Storage.Nvs.InitStorageArea | src/storage.rs:128-140 | the flash becomes Initialised of the old flash; WIFI_INFO is unchanged |
| Storage.Nvs.WriteRecord | src/storage.rs:60-63 | flash and result are those of Write |
| Storage.Nvs.EnterProcess | src/storage.rs:111-126 | an unreadable version record re-initialises and boots; a readable one re-initialises only on a wrong init tag, and the process panics exactly when the Wi-Fi read then fails, otherwise WIFI_INFO holds the flash's Wi-Fi record |
| Weather.Request | src/weather.rs:23-49 | without the link only use_wifi is called and Err results; otherwise the link is released; Ok exactly when a response came and form_json did not panic; the stored forecast changes only when form_json returns one |
| Weather.RequestReleases | src/weather.rs:24-45 | use_wifi comes first, finish_wifi follows exactly when the link was granted, and nothing else is called |
| Weather.RequestStoresForecast | src/weather.rs:33-36 | a forecast that parses becomes the stored one, popped from the single result, and the call succeeds |
| Weather.UnparsableBodyKeepsForecast | src/weather.rs:33-38 | a body form_json rejects leaves the stored forecast and still reports success |
| Weather.WeatherService.constructor | src/weather.rs:18-22 | no forecast stored and the sync flag down (the initial flag is at line 54) |
| Weather.WeatherService.RequestCall | src/weather.rs:23-49 | result, broker calls and stored forecast are those of Request; the sync flag is untouched |
| Weather.WeatherService.WorkerRound | src/weather.rs:70-84 | after a success the flag is raised and the wait is 3600 s; after a failure the flag is kept and the wait is 5 s |
| Weather.WorkerRun | src/weather.rs:63-86 | every wait is 3600 or 5 seconds and a raised flag stays raised |
| Weather.FlagIffSuccess | src/weather.rs:73-81 | starting lowered, the flag is raised iff some round succeeded, that is, iff some wait was the hourly one |
| WebService.FirstContentType | src/web_service.rs:206-210 | the first header named exactly "Content-Type", None exactly when no header is |
| WebService.BoundaryOf | src/web_service.rs:212-220 | NotMultipart exactly when the value does not start with multipart/form-data; NoBoundary exactly when no `;`-piece, trimmed, starts with "boundary="; no other error |
| WebService.ParsePart | src/web_service.rs:226-248 | a piece is skipped exactly when, trimmed, it lacks the Content-Disposition prefix or a blank line after it; a named field has its quotes and its surrounding whitespace stripped |
| WebService.DispositionPart | src/web_service.rs:231-233 | a trimmed piece is skipped exactly when it lacks the prefix or a blank line after it |
| WebService.AttributesPart | src/web_service.rs:235 | skipped exactly when there is no blank line after the attributes |
| WebService.NamedPart | src/web_service.rs:238-243 | never skipped; a missing name= is an error; otherwise the field is cleaned |
| WebService.TrimEndsClean | src/web_service.rs:243 | trimmed text neither starts nor ends with whitespace |
| WebService.Map | src/web_service.rs:226-250 | each piece is parsed in place, in order |
| WebService.Parts | src/web_service.rs:226-250 | one part per piece, every named one clean |
| WebService.CollectFields | src/web_service.rs:223-245 | the fields extend what came before; a missing name= or a 21st field is the only error, and the latter cannot arise within 20 parts |
| WebService.FieldsOf | src/web_service.rs:223-257 | too many fields is impossible; a result holds 1 to 20 clean fields, no more than there are pieces |
| WebService.FieldsOfParts | src/web_service.rs:226-257 | at least one field, at most one per part |
| WebService.Form | src/web_service.rs:201-257 | parse_form returns 1 to 20 clean fields, or an error other than "too many fields" |
| WebService.FormNeedsBlankLine | src/web_service.rs:205 | the request is rejected exactly when it has no blank line; the body follows the first one |
| WebService.FormContentTypeErrors | src/web_service.rs:206-220 | no Content-Type header is exactly the error NoContentType; a first Content-Type that is not multipart gives NotMultipart |
| WebService.BodyPieces | src/web_service.rs:224 | a multipart body has two more pieces than fields |
| WebService.ParsePartText | src/web_service.rs:228-245 | a part in the form a browser sends parses to its own field |
| WebService.ParseOpening | src/web_service.rs:228-231 | the piece before the first delimiter yields nothing |
| WebService.ParseClosing | src/web_service.rs:228-231 | the piece after the closing delimiter yields nothing |
| WebService.PartsOfBody | src/web_service.rs:224-250 | the pieces of a multipart body parse to its fields framed by two skipped pieces |
| WebService.CollectNamed | src/web_service.rs:245 | named parts are pushed in order while they fit |
| WebService.SplitBody | src/web_service.rs:224 | splitting a multipart body on its boundary gives back its pieces |
| WebService.FieldsOfBody | src/web_service.rs:223-257 | a multipart body of up to 18 plain fields yields exactly those fields |
| WebService.BoundaryRoundTrip | src/web_service.rs:212-217 | "multipart/form-data; boundary=b" yields b |
| WebService.FormRoundTrip | src/web_service.rs:201-257 | fields a browser posts as multipart/form-data come back unchanged and in order |
| WebService.ParseForm | src/web_service.rs:201-257 | the method computes Form |
| WebService.CollectPieces | src/web_service.rs:223-257 | the loop computes FieldsOf, panicking (SplitOverflow) when the pieces do not fit 20 |
| WebService.LastValue | src/web_service.rs:150-161 | None exactly when no field has the name; otherwise the value of some field with that name |
| WebService.LastValueWins | src/web_service.rs:153-161 | a later field of the same name overrides every earlier one |
| WebService.Credentials | src/web_service.rs:163-167 | defined exactly when the last ssid and the last password both exist and fit 32 bytes; then the record holds them and is marked finished |
| WebService.RoutesOnly | src/web_service.rs:130-145 | the configuration page is served iff the request is GET /config; other routes get nothing |
| WebService.RejectedForm | src/web_service.rs:146-149 | a body with more than 20 pieces panics; any other rejected form gets no reply (the collect that panics is at line 224) |
| WebService.StoredFormResets | src/web_service.rs:163-176 | with WIFI_INFO loaded a valid form always resets the device (the write reports Ok) or panics on a missing or too long credential |
| WebService.CredentialsOfForm | src/web_service.rs:150-167 | a form ending with ssid and password fields stores exactly those |
| WebService.ProvisioningRoundTrip | src/web_service.rs:144-176 | a browser posting fields ending with ssid and password has both stored, marked finished, and the device reset |
| WebService.LastCredentials | src/web_service.rs:150-161 | the loop yields the last ssid and the last password |
| WebService.ProcessHttp | src/web_service.rs:122-200 | the outcome is Respond; only a reset stores the new credentials into WIFI_INFO and flash, and nothing changes otherwise |
| WebService.StoreForm | src/web_service.rs:149-176 | without WIFI_INFO the outcome is the restart page and nothing changes; a missing or oversized ssid or password panics; otherwise the last ssid and password are stored, marked finished, written to flash, and the device resets |
| WebService.Zeroed | src/web_service.rs:77 | the buffer holds 2048 bytes |
| WebService.ReceiveRequest | src/web_service.rs:77-104 | the read loop as written computes ReceiveAsWritten from a zeroed buffer |
| WebService.ReceiveIntended | src/web_service.rs:77-104 | no overflow; a handled text holds a blank line, fits the buffer and extends what was seen by received bytes only |
| WebService.NoBlankLine | src/web_service.rs:89 | a text with no two carriage returns two apart holds no blank line |
| WebService.SplitRequestDropped | src/web_service.rs:80-97 | as written, a request line and its blank line arriving in two reads is never handled: the second read overwrites the start of the buffer |
| WebService.SplitRequestHandled | src/web_service.rs:80-97 | when each read fills the buffer from pos on, the same two reads deliver the whole header block |
| Wifi.Enter | src/wifi.rs:197-203 | the reconnect signal is raised iff it was already or the connection is Stopped; nothing else changes |
| Wifi.AwaitLock | src/wifi.rs:214-225 | only the lock changes, and it is held after any poll; Acquired iff some poll finds the lock free while every earlier poll found it held and within the time-out; Failed(TimeOut) iff some poll finds it held past the time-out while every earlier poll found it held and within the time-out; still waiting iff every poll found it held within the time-out |
| Wifi.AwaitLink | src/wifi.rs:207-235 | only the lock and the last-use time change; without a stack the first poll fails with Infallible; with one, if the first poll that finds the link up or passes the time-out is poll k, the result is the inner wait on the polls after k when the link was up, and Failed(TimeOut) otherwise, with the last-use time of poll k in both cases; if no poll ends the wait, it is still waiting with the time of the last poll |
| Wifi.AwaitLinkOutcome | src/wifi.rs:207-235 | in terms of the polls alone: Acquired iff a stack is registered, the link is found up before the time-out, and a later poll finds the lock free before it; Failed(TimeOut) iff a stack is registered and the time-out passes at the link, or at the lock after the link is found up |
| Wifi.LinkWaitEnds | src/wifi.rs:207-235 | the outer loop either waits through every poll or ends at one that finds the link up or passes the time-out |
| Wifi.LinkEndUnique | src/wifi.rs:207-235 | the poll ending the outer loop is unique, and a wait that ends there does not also run through every poll |
| Wifi.LockEndUnique | src/wifi.rs:214-225 | the poll ending the inner loop, free or timed out, is unique |
| Wifi.TimeOutEndsWait | src/wifi.rs:218-228 | once more than 10 s have passed the next poll ends the wait, at the link or at the lock |
| Wifi.NoStackInfallible | src/wifi.rs:210-232 | without a registered stack use_wifi fails with Infallible at its first poll, after refreshing the last-use time |
| Wifi.Finish | src/wifi.rs:238-242 | the lock is cleared and nothing else changes |
| Wifi.DoStop | src/wifi.rs:246-258 | a tick raises the stop signal and clears the lock exactly when the connection is Connected and unused for more than 30 s, and otherwise changes nothing |
| Wifi.Connection | src/wifi.rs:125-184 | only the state, the connection task's position and the two signals change; consistency of state and position is kept and every state change is one the connection task makes; the stop signal is consumed only when going from Connected to Stopped, the reconnect signal only from Stopped to Disconnected; a lost link wins over a pending stop |
| Wifi.RunKeepsConsistent | src/wifi.rs:125-184 | every run of the connection task keeps its state consistent with where it is suspended |
| Wifi.StoppedUntilReconnect | src/wifi.rs:141-149 | after a stop the state stays Stopped until the connection task wakes with the reconnect signal raised |
| Wifi.StopThenReconnect | src/wifi.rs:141-171 | a stop while connected gives Stopped and consumes the signal; a reconnect then gives Disconnected and a new attempt Connecting |
| Wifi.ConnectOutcome | src/wifi.rs:171-182 | a failed attempt leaves the state Connecting, a successful one makes it Connected |
| Wifi.WifiBroker.constructor | src/wifi.rs:43-47 | the statics at boot: Stopped, unlocked, last use 0, no signal, no stack (the lock flag starts clear at line 193) |
| Wifi.WifiBroker.RegisterStack | src/wifi.rs:112-114 | the stack becomes registered and nothing else changes |
| Wifi.WifiBroker.RefreshLastTime | src/wifi.rs:186-188 | the last-use time becomes now and nothing else changes |
| Wifi.WifiBroker.UseWifiCall | src/wifi.rs:194-236 | statics and outcome are those of UseWifi |
| Wifi.WifiBroker.WaitForLink | src/wifi.rs:207-235 | the outer loop computes AwaitLink |
| Wifi.WifiBroker.WaitForLock | src/wifi.rs:214-223 | the inner loop computes AwaitLock |
| Wifi.WifiBroker.FinishWifi | src/wifi.rs:238-242 | the statics become Finish of the old ones |
| Wifi.WifiBroker.DoStopTick | src/wifi.rs:247-256 | the statics become DoStop of the old ones |
| Wifi.WifiBroker.ConnectionStep | src/wifi.rs:128-183 | the statics become Connection of the old ones |
| WorldTime.NowAt | src/worldtime.rs:73-77 | the current instant minus the elapsed milliseconds is the instant of boot |
| WorldTime.NowAdvances | src/worldtime.rs:73-77 | between two readings the clock advances by exactly the milliseconds elapsed |
| WorldTime.LocalDate | src/worldtime.rs:78-80 | a well-formed date whose day number is that of the instant shifted by eight hours, in whole days |
| WorldTime.LocalDateTurnsAtSixteenUtc | src/worldtime.rs:79 | the local date turns over exactly at 16:00 UTC |
| WorldTime.WeekdayLabel | src/worldtime.rs:82-99 | a two-character label beginning with 周, 周日 exactly on Sundays |
| WorldTime.EpochLabel | src/worldtime.rs:85-93 | 1970-01-01 is labelled 周四 (Thursday) |
| WorldTime.DateStringRoundTrip | src/worldtime.rs:101-112 | the date text splits at '-' into three unpadded numbers that read back as year, month and day |
| WorldTime.Clock.constructor | src/worldtime.rs:58-62 | the clock boots at the Unix epoch |
| WorldTime.Clock.SetTime | src/worldtime.rs:64-71 | afterwards the clock reads t at the same counter reading and advances from there with the counter |
| WorldTime.EndpointToSockAddr | src/worldtime.rs:149-161 | always IPv4 with the same port; IPv4 keeps its address, anything else becomes 0.0.0.0 |
| WorldTime.SockAddrToEndpoint | src/worldtime.rs:163-173 | defined exactly on IPv4 (IPv6 reaches `todo!()`), keeping address and port |
| WorldTime.EndpointRoundTrip | src/worldtime.rs:149-173 | the conversions are inverse on IPv4 |
| WorldTime.NtpResult | src/worldtime.rs:202-256 | NoAddr when the DNS query fails, DnsEmptyResponse on an empty answer, BadNtpResponse on a bad reply or the 5 s timeout; Ok exactly with an address and a reply, holding the server's seconds |
| WorldTime.NtpRequest | src/worldtime.rs:202-256 | the result is NtpResult; on success the clock reads the server's time, on an error it is untouched |
| WorldTime.AsU64 | src/worldtime.rs:311 | the cast is below 2^64 and keeps every value already in range |
| WorldTime.WrappingSub | src/worldtime.rs:311 | the difference when it is not negative, otherwise the difference plus 2^64 |
| WorldTime.ResyncDue | src/worldtime.rs:309-312 | due when no sync has succeeded; for a clock at or after the last sync, due exactly when none has succeeded or it is over an hour old |
| WorldTime.FailureBackoff | src/worldtime.rs:318-328 | a 10 s wait exactly past ten errors and 1 s otherwise; the counter restarts at 1 past ten errors and otherwise counts up |
| WorldTime.NtpIteration | src/worldtime.rs:307-350 | without a resync due, nothing changes and the wait is an hour; otherwise Wi-Fi is released exactly when it was obtained, no Wi-Fi waits 1 s, a sync resets the counter and records the second, a failure backs off; the sync second changes only on a sync |
| WorldTime.ErrTimesBounded | src/worldtime.rs:321-327 | the error counter never exceeds eleven |
| WorldTime.SyncedMarksSuccess | src/worldtime.rs:274-278 | after a sync at a positive second sync_time_success holds and no resync is due at that second (the flag is read at line 333) |
| WorldTime.FailureWaits | src/worldtime.rs:318-328 | one wait per failure |
| WorldTime.BackoffPattern | src/worldtime.rs:321-327 | failure k from count e waits 10 s exactly when e + k is a positive multiple of 11, and 1 s otherwise |
| WorldTime.NtpWorker.RestoreClock | src/worldtime.rs:296-305 | with a saved timestamp the clock is set to it plus the whole seconds slept, failing only past the year 9999; without one the clock is untouched |
| WorldTime.NtpWorker.SaveTimeToRtc | src/worldtime.rs:280-284 | the saved timestamp is the clock's second cast to u64; nothing else changes |
| WorldTime.NtpWorker.Iterate | src/worldtime.rs:307-350 | state, wait and release are those of NtpIteration; the saved timestamp is untouched |
| WorldTime.NtpRun | src/worldtime.rs:307-350 | one wait per round, each 1, 10 or 3600 s; the error counter stays at most eleven |
| WorldTime.RunWorker | src/worldtime.rs:307-350 | the loop computes NtpRun |
| Pages.Table | src/pages/main_page.rs:127-150 | a page's bind_event after `clear` registers one listener per event, in order, numbered by position, with the page's target (the table is the one of src/event.rs:44-60) |
| Ec11.KeyEventsNotWheel | src/ec11.rs:92-94 | a run of key events holds no wheel event |
| Ec11.WheelCountConcat | src/ec11.rs:30-97 | the wheel events of two runs add up |
| Seniverse.DailyPanicsOn | src/model/seniverse.rs:83-85 | once a prefix of the daily items panics, so does the whole array |
| Gregorian.MonthsFillYear | src/widgets/calendar.rs:36-41 | the twelve months add up to the length of the year |
| Gregorian.DayNumberInYear | src/widgets/calendar.rs:36-41 | a date's day number lies within its year's days |

## Left out

- Concurrency: the embassy executor, mutexes and signals are not modelled. Each task step is one atomic method. Races appear only as the order in which an environment calls those methods, which includes the suspension in `use_wifi` between the lock test and the set (src/wifi.rs:194-236).
- Network I/O (TCP, TLS, HTTP, UDP/SNTP, socket accept, write and flush, and the `connect_wifi` driver setup): results enter as parameters, such as link-up and lock samples, read chunks, resolver answers and NTP outcomes.
- `httparse`: the model takes the request's verb, path and headers as given.
- `mini_json`: the parsed JSON tree is an input datatype. The `from_utf8(...).unwrap()` calls (src/model/seniverse.rs:56, src/weather.rs:37, src/web_service.rs:213) are left out, because the model works on strings rather than bytes.
- The `time` crate is not imported. Its Gregorian date arithmetic is written out in `gregorian.dfy`.
- `qrcodegen` and the CHIP-8 instruction set are left out. `execute_cycle` and `decrement_timers` are each recorded as one opaque step of the frame loop, and they may change the CPU's memory, registers, display, keys, stack and generator state in any way.
- Floating point (scroll bar, clock widget, sound) is left out.
- Display drawing, fonts and colours are left out, and so are the page files without state logic of their own.
- The `run` loop of the main page (src/pages/main_page.rs:226-280), which launches the sub-pages, is not modelled. Only its menu actions are.
- The `increase` and `decrease` auto-repeat tasks of the count-down page (src/pages/count_down_page.rs:148-187) are left out, because no handler is bound to them.
- Byte reinterpretation through `unsafe` raw-address casts is not modelled. Flash records are abstract values laid out at their offsets.
- Dead code is left out: the `detection` function of the encoder (src/ec11.rs:101-144), and the SNTP error conversions that end in `todo!()`.
- The DHCP and DNS captive-portal responders are not modelled, because no source file implements them.
- Names used but not defined in the source (`force_stop_wifi`, `IP_ADDRESS`, `AP_STACK_MUT`, `WIFI_MODEL`, `get_sleep_ms`, `CLOCK_SYNC_SUCCESS`) are abstract inputs or effects.
- Wifi.WifiBroker.DoStopTick: requires `lastUse <= now`. The source's u64 subtraction would panic on a clock that goes back, and the monotonic clock rules that out.
- Wifi.WifiBroker.UseWifiCall: requires every poll time to be at or after the start (`NotBefore`), for the same reason.
- WorldTime.ResyncDue: models a release build, where the u64 subtraction wraps (`WrappingSub`) instead of panicking.
- Battery.BatteryMonitor.Sample: stores the clamped `Percent`, which is the corrected formula of the Findings table. Below 3200 mV the code as written stores the wrapped u32 value in a release build, or panics with overflow checks. `Battery.PercentAsWritten` and `Battery.AsWrittenUnderflows` model that behaviour; the monitor does not.
- Wifi.Connection: the driver calls of `connection_wifi` always succeed. The panics of `controller.stop().await.expect(..)` (src/wifi.rs:143), of the `SSID`/`PASSWORD` conversions with `try_into().unwrap()` (src/wifi.rs:159-160), and of `set_configuration(..).unwrap()` and `start().await.unwrap()` (src/wifi.rs:162-164) are not modelled, because the driver's results are outside the model.
- Wifi.WifiBroker.ConnectionStep: follows `Wifi.Connection`, so it leaves out the same driver panics.
- Once a panic outcome is produced, whatever follows in the program is not modelled; a panic resets the device.

## Findings

| source | as written | input that shows it | evidently intended | confidence | as-written member | corrected member |
|---|---|---|---|---|---|---|
| src/web_service.rs:80-97 | every `socket.read(&mut buffer)` writes from `buffer[0]`, while the header test inspects `buffer[..pos+len]` | `GET /config HTTP/1.0\r\n` in one read, then `\r\n` in a second read: the inspected text holds no blank line, and the request is dropped | read into `buffer[pos..]`, so that the inspected text is the concatenation of the reads | not executed | WebService.SplitRequestDropped | WebService.SplitRequestHandled |
| src/battery.rs:44-45 | `(min(4100, v) - 3200)` in u32 wraps (or panics with overflow checks) below 3200 mV | a reading of 1500 (3000 mV) gives 4772163 per cent | clamp the voltage to [3200, 4100] mV before subtracting | not executed | Battery.AsWrittenUnderflows | Battery.PercentMonotone |
