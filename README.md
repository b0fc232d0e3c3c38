# LED state machine and touch-button debouncer

A Dafny model of the two cooperating FreeRTOS tasks of this firmware for
the EK-TM4C123GXL board:

- The **switch task** (`switch_task.c`) reads the resistive touch screen.
  It maps a reading to two virtual buttons by its normalised touch
  coordinates: `Switch1` is a firm touch with x <= 50 and y >= 200,
  `Switch2` one with x <= 120 and y <= 90. The source does not say how
  these axes lie on the glass. It debounces their combined
  state. It then sends one message per press, `LEFT_BUTTON` or
  `RIGHT_BUTTON`, into a queue of five bytes.
- The **LED task** (`led_task.c`) is a four-state machine: 0 off, 1 red,
  2 green, 3 yellow.
  - Each iteration polls the queue once without blocking. A message picks
    the next state from the event column. An empty poll picks it from the
    timeout-aging column.
  - It then drives the three LEDs of port E.
  - It then holds the state for 50 ticks, polling once per tick. A
    preempting message ends the hold early and sets the `changed` flag.
    The flag makes the next iteration skip its own poll.

Files:

- `messages.dfy` (module `Messages`): the byte type, the button codes, and
  the queue as a class with a bounded `seq` field.
- `led_port.dfy` (module `LedPort`): the data register `GPIO_PORTE_DATA_R`
  as a `bv32` field of class `PortE`, with the six on/off routines and the
  four "set state" routines.
- `led_task.dfy` (module `LedTask`): the next-state and preemption
  functions, the hold loop and one iteration as specification functions,
  and class `LedTask`. `LedTask` keeps `ps`, `ns` and `changed` as fields.
  Its `Iterate` and `HoldWindow` methods are proved against those
  functions.
- `switch_task.dfy` (module `SwitchTask`): reading normalisation,
  `Switch1`, `Switch2`, `buttonState`, one debounce iteration as a function,
  and class `SwitchTask`, whose `Iterate` sends into the queue and, while
  the queue is full, keeps retrying the send.

Modelling choices:

- **LED task polls.** Each call of `xQueueReceive` is modelled by its
  result, `Some(m)` or `None`. A sequence of such results stands for the
  queue together with any interleaving of the switch task's sends.
- **Touch readings.** Each `Switch1()`/`Switch2()` call re-reads the touch
  controller, so one iteration of the switch task gets a separate reading
  per call site (`Samples`). A call that C's `||` short-circuits leaves its
  reading unused.
- **Arithmetic.** C's truncating division is written out as `TruncDiv`.
  Raw readings are 32-bit signed and the pressure is 32-bit unsigned.
- **Button codes.** `LEFT_BUTTON` is `0x10` (GPIO pin 4) and
  `RIGHT_BUTTON` is `0x01` (GPIO pin 0), as in the board's button driver
  header. That header is not part of this model. The proofs use only that
  the two codes differ. Every other byte takes the source's `else`
  branches.

Behaviour of the code worth knowing:

- From off, `LEFT_BUTTON` turns red on (`led_task.c:174-176`), so repeated
  `LEFT_BUTTON` messages alternate between off and red.
- `LEFT_BUTTON` preempts the hold window from every state, off included,
  where it goes to red (`led_task.c:250-253`). `RIGHT_BUTTON` preempts it
  only from green.
- At the top of the loop, bytes other than the two button codes are not
  ignored (`led_task.c:172-213`). From off, red and yellow they act like
  `RIGHT_BUTTON`; from green they go to red. During the hold window they
  are consumed and discarded (`led_task.c:249-263`).
- The send waits for room in the queue with `portMAX_DELAY`
  (`switch_task.c:203`). With FreeRTOS's `INCLUDE_vTaskSuspend` set to 1
  this wait has no time bound.
- After the settle delay, the debouncer checks only that a button is
  pressed (`switch_task.c:162`). It does not check that the state still
  differs from the one it remembered.
- The classifying calls re-read the touch controller. If neither reports a
  press, the previous value of `ui8Message` is sent (`StaleMessageSent`).

## Model

| member | source | states |
|---|---|---|
| Messages.MessageQueue.constructor | led_task.c:301 | the queue starts empty and within its capacity of five |
| Messages.MessageQueue.Send | switch_task.c:203-204 | one send attempt succeeds exactly when fewer than five messages wait; it then appends at the back, otherwise the queue is unchanged (never overwritten) |
| Messages.MessageQueue.Receive | led_task.c:170 | a zero-wait receive returns the oldest message and removes it, or reports an empty queue and changes nothing |
| LedPort.Light | led_task.c:117-137 | the register with its LED bits 0x0E replaced by one pattern: LED bits equal the pattern, every other bit is the old one |
| LedPort.LightIdempotent | led_task.c:117-137 | applying a set-state routine twice is the same as applying it once |
| LedPort.LightForgetsLeds | led_task.c:117-137 | what a set-state routine leaves does not depend on which LEDs were lit before |
| LedPort.LightShowsAtMostOne | led_task.c:117-137 | after any set-state routine at most one of the three LED bits is set |
| LedPort.PortE.GreenOn | led_task.c:98-100 | sets bit 0x08, nothing else changes |
| LedPort.PortE.GreenOff | led_task.c:101-103 | clears bit 0x08, nothing else changes |
| LedPort.PortE.YellowOn | led_task.c:104-106 | sets bit 0x04, nothing else changes |
| LedPort.PortE.YellowOff | led_task.c:107-109 | clears bit 0x04, nothing else changes |
| LedPort.PortE.RedOn | led_task.c:110-112 | sets bit 0x02, nothing else changes |
| LedPort.PortE.RedOff | led_task.c:113-115 | clears bit 0x02, nothing else changes |
| LedPort.PortE.AllOff | led_task.c:118-122 | LED bits become 0x00, other bits unchanged |
| LedPort.PortE.SetRed | led_task.c:123-127 | LED bits become 0x02, other bits unchanged |
| LedPort.PortE.SetGreen | led_task.c:128-132 | LED bits become 0x08, other bits unchanged |
| LedPort.PortE.SetYellow | led_task.c:133-137 | LED bits become 0x04, other bits unchanged |
| LedTask.NextOnEvent | led_task.c:172-216 | from off, LEFT gives red and anything else off; from a lit state, the result is off iff the message is LEFT; yellow is reached iff green gets RIGHT; red with non-LEFT goes green; the result is a state; a ps outside 0..3 keeps ns |
| LedTask.NextOnTimeout | led_task.c:218-226 | aging never gives yellow, keeps off off and never turns a lit state off, always moves a lit state, takes red to green |
| LedTask.EventTableAgrees | led_task.c:172-226 | the nested case analysis equals the transition table written as data (three message columns, one aging column) |
| LedTask.Preempt | led_task.c:249-262 | a message preempts iff it is LEFT, or RIGHT while green; a preemption always leads to a different state: red from off, off on LEFT from a lit state, yellow on RIGHT |
| LedTask.PreemptAgreesWithEvent | led_task.c:172-262 | a preemption leads where the same message would have led at the top of the loop |
| LedTask.Hold | led_task.c:247-265 | the hold loop ends early only right after a preempting poll, with ns the preempted state (different from ps) and changed set; otherwise it runs all 50 ticks, keeps ns and clears changed |
| LedTask.HoldDiscards | led_task.c:247-265 | every message polled during the hold before the last poll was non-preempting and was discarded |
| LedTask.GreenPreemptedByRight | led_task.c:247-262 | green with RIGHT arriving at the third tick ends the hold after three polls in yellow |
| LedTask.Step | led_task.c:169-265 | one iteration keeps ps and ns within 0..3 and consumes at most 51 polls; after a preemption it skips the poll and shows the preempted ns; it ends either with changed clear and ns == ps after all 50 ticks, or with changed set and ns != ps |
| LedTask.QuietStep | led_task.c:169-265 | when no hold poll preempts, the iteration ends at the state its top poll chose, with ns == ps and changed clear |
| LedTask.Run | led_task.c:164-266 | k iterations of the forever loop; after at least one, changed is set exactly when ns differs from ps |
| LedTask.RunKeepsInv | led_task.c:146-266 | ps and ns stay within 0..3 over any number of iterations from a valid start |
| LedTask.Replay | led_task.c:169-229 | the states shown by iterations whose hold is not preempted, one per top-of-loop poll result; from a state, every one of them is a state within 0..3 |
| LedTask.RunReplays | led_task.c:164-266 | k loop iterations whose top polls deliver the inputs and whose holds find the queue empty end in Replay's k-th state, with ns equal to it and changed clear |
| LedTask.Scenarios | led_task.c:172-229 | from off, LEFT, RIGHT, RIGHT, LEFT show red, green, yellow, off; from red, three empty polls show green, red, green; the loop started as the task starts is yellow after LEFT, RIGHT, RIGHT |
| LedTask.Pattern | led_task.c:233-242 | a state's LED pattern is all-off or a single LED, and is all-off exactly for off |
| LedTask.PatternsDistinct | led_task.c:233-242 | different states show different LED patterns |
| LedTask.ShownMeansState | led_task.c:233-242 | after driving a state, the LED bits equal that state's pattern, at most one LED is lit, other bits are unchanged, and driving again changes nothing |
| LedTask.LedTask.constructor | led_task.c:146-149 | the task starts off, with ns off and changed clear |
| LedTask.LedTask.Drive | led_task.c:233-242 | the register afterwards shows ps's pattern (unchanged for a ps outside 0..3) |
| LedTask.LedTask.Iterate | led_task.c:169-265 | the new ps, ns and changed and the number of polls consumed are those of Step; the register shows the new ps |
| LedTask.LedTask.HoldWindow | led_task.c:247-265 | the for/break loop leaves ns, changed and the poll count that Hold gives, with ps unchanged |
| SwitchTask.TruncDiv | switch_task.c:67-68 | C division: the quotient truncates toward zero, with the remainder taking the sign of the dividend |
| SwitchTask.Clamp | switch_task.c:69-79 | the result lies in the range and equals the value when that is already in range |
| SwitchTask.ClampKeepsThreshold | switch_task.c:69-85 | clamping never moves a value across a threshold strictly inside the range |
| SwitchTask.ScreenX | switch_task.c:67-73 | the normalised x always lies in [0,320] |
| SwitchTask.ScreenY | switch_task.c:68-79 | the normalised y always lies in [0,240] |
| SwitchTask.Switch1 | switch_task.c:63-86 | returns 0 or 1, and 1 only under pressure above 1000 |
| SwitchTask.Switch2 | switch_task.c:88-111 | returns 0 or 1, and 1 only under pressure above 1000 |
| SwitchTask.Switch1Region | switch_task.c:63-86 | Switch1 is 1 exactly when z1 > 1000, raw x <= 1502 and raw y >= 2250 (normalised x <= 50, y >= 200) |
| SwitchTask.Switch2Region | switch_task.c:88-111 | Switch2 is 1 exactly when z1 > 1000, raw x <= 1712 and raw y <= 1704 (normalised x <= 120, y <= 90) |
| SwitchTask.SwitchesExclusive | switch_task.c:81-106 | no reading makes both Switch1 and Switch2 return 1 |
| SwitchTask.ButtonState | switch_task.c:113-119 | returns 1 iff Switch1 or Switch2 returns 1, otherwise 0 |
| SwitchTask.ButtonStateRegion | switch_task.c:113-119 | for one reading, buttonState is 1 exactly for a firm touch in either raw region |
| SwitchTask.Debounce | switch_task.c:148-215 | the remembered state becomes the sampled one; a message is sent iff the sampled state changed and the post-settle check sees a press; it is LEFT if Switch1 holds on re-check, else RIGHT if Switch2 does, else the old ui8Message; at most one message per iteration |
| SwitchTask.SteadyPress | switch_task.c:148-198 | with a steady reading, an iteration sends iff a button is pressed and the remembered state was not 1, and sends the button touched, never a stale value |
| SwitchTask.HeldPressSentOnce | switch_task.c:148-156 | after an iteration, a next one with the same sampled state sends nothing |
| SwitchTask.StaleMessageSent | switch_task.c:162-203 | a press seen by the check but gone at classification sends the old ui8Message |
| SwitchTask.SwitchTask.constructor | switch_task.c:126-131 | the remembered state starts at 0, no send is waiting; ui8Message starts at a given, unknown value |
| SwitchTask.SwitchTask.Iterate | switch_task.c:143-216 | the new remembered state and ui8Message are those of Debounce; a message to send is appended to the queue, or waits while the queue is full, and the task does nothing else until it is in; messages are never lost or reordered |

## Left out

- GPIO and clock setup (`LED_Init`, the port-F unlock, `ButtonsInit`), the
  RGB driver calls and their floating-point intensity in `LEDTaskInit`,
  and the variables `g_pui32Colors`, `g_ui8ColorsIndx`, `ledColor` and
  `ui32LEDToggleDelay`. These are hardware setup or values that are never
  read.
- All LCD drawing, `printf`, `UARTprintf` and the UART semaphore. These are
  display and console output and do not affect state.
- Task creation, tick counts and `vTaskDelayUntil`. Delays are not
  modelled, only the order of polls and samples. The 50-tick hold is
  modelled as 50 polls.
- The `while(1)` loops: one iteration of each is modelled, plus the
  function `Run` over k LED iterations.
- SwitchTask.SwitchTask.Iterate: assumes the kernel configuration sets
  `INCLUDE_vTaskSuspend` to 1, so that a send with `portMAX_DELAY` waits
  until there is room. The configuration file is not part of this model.
  The wait is modelled by `pending`: each later iteration retries the send.
  With any other setting the send times out after `portMAX_DELAY` ticks
  and the task hangs (`switch_task.c:205-213`); that timeout-then-halt
  path is not modelled.
- The LED task does not receive from the `MessageQueue` object. Its polls
  are a supplied sequence of receive results, which covers every
  interleaving with the producer. No lemma ties that sequence to the
  queue's contents.
- `Touch_ReadX`, `Touch_ReadY` and `Touch_ReadZ1` are foreign calls. Their
  results are parameters.
- LedTask.LedTask.Iterate: requires at least 51 poll results and
  LedTask.Step at least 51 as well, because one iteration can make 51
  polls; the source polls a live queue and needs no such supply.
- LedTask.Run: requires 51 poll results per iteration for the same reason.
- LedTask.Hold: requires 50 poll results, one per hold tick, for the same
  reason.
- LedTask.LedTask.HoldWindow: requires 50 poll results, as `Hold` does.
