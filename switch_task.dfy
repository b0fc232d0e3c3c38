/** The switch task (switch_task.c:62-223): it turns touch-screen readings
    into two virtual buttons, debounces them and sends one message per
    press to the LED task's queue.

    The touch controller is read again by every call of Switch1() and
    Switch2(), so each call site of one iteration is given its own
    reading; the readings themselves are parameters. */
module SwitchTask {
  import opened Messages

  /** C `int` and `unsigned long` on the target (both 32 bits). */
  type int32 = x: int | -0x8000_0000 <= x < 0x8000_0000
  type uint32 = x: int | 0 <= x < 0x1_0000_0000

  /** One reading of the touch controller: Touch_ReadX, Touch_ReadY and
      Touch_ReadZ1 (the pressure). */
  datatype Reading = Reading(x: int32, y: int32, z1: uint32)

  // ---------------------------------------------------------------------
  // Normalising a reading
  // ---------------------------------------------------------------------

  /** C integer division, which truncates toward zero. */
  function TruncDiv(a: int, b: int): (q: int)
    requires b > 0
    ensures 0 <= a ==> 0 <= q && q * b <= a < q * b + b
    ensures a < 0 ==> q <= 0 && q * b - b < a <= q * b
  {
    if a >= 0 then
      NatDiv(a, b);
      a / b
    else
      NatDiv(-a, b);
      -((-a) / b)
  }

  /** Dafny's division of a natural number by a positive one, bounded. */
  lemma NatDiv(n: int, b: int)
    requires 0 <= n && 0 < b
    ensures 0 <= n / b && (n / b) * b <= n < (n / b) * b + b
  {
    assert (n / b) * b + n % b == n && 0 <= n % b < b;
  }

  /** v limited to the range lo..hi. */
  function Clamp(v: int, lo: int, hi: int): (r: int)
    requires lo <= hi
    ensures lo <= r <= hi
    ensures lo <= v <= hi ==> r == v
  {
    if v < lo then lo else if v > hi then hi else v
  }

  /** Clamping to a range does not move v across a threshold inside it. */
  lemma ClampKeepsThreshold(v: int, lo: int, hi: int, t: int)
    requires lo < t < hi
    ensures Clamp(v, lo, hi) <= t <==> v <= t
    ensures Clamp(v, lo, hi) >= t <==> v >= t
  {
  }

  /** The screen column of a raw x reading (switch_task.c:67-73). */
  function ScreenX(x: int32): (r: int)
    ensures 0 <= r <= 320
  {
    Clamp(TruncDiv(x, 3) - 450, 0, 320)
  }

  /** The screen row of a raw y reading (switch_task.c:68-79). */
  function ScreenY(y: int32): (r: int)
    ensures 0 <= r <= 240
  {
    Clamp(TruncDiv(y, 5) - 250, 0, 240)
  }

  // ---------------------------------------------------------------------
  // The two virtual buttons
  // ---------------------------------------------------------------------

  /** Switch1 (switch_task.c:63-86): a firm touch with normalised x at
      most 50 and y at least 200. */
  function Switch1(s: Reading): (r: uint32)
    ensures r == 0 || r == 1
    ensures r == 1 ==> s.z1 > 1000
  {
    if s.z1 > 1000 && ScreenX(s.x) <= 50 && ScreenY(s.y) >= 200 then 1 else 0
  }

  /** Switch2 (switch_task.c:88-111): a firm touch with normalised x at
      most 120 and y at most 90. */
  function Switch2(s: Reading): (r: uint32)
    ensures r == 0 || r == 1
    ensures r == 1 ==> s.z1 > 1000
  {
    if s.z1 > 1000 && ScreenX(s.x) <= 120 && ScreenY(s.y) <= 90 then 1 else 0
  }

  /** Switch1 holds exactly for firm touches with raw x at most 1502 and
      raw y at least 2250. */
  lemma Switch1Region(s: Reading)
    ensures Switch1(s) == 1 <==> s.z1 > 1000 && s.x <= 1502 && s.y >= 2250
  {
  }

  /** Switch2 holds exactly for firm touches with raw x at most 1712 and
      raw y at most 1704. */
  lemma Switch2Region(s: Reading)
    ensures Switch2(s) == 1 <==> s.z1 > 1000 && s.x <= 1712 && s.y <= 1704
  {
  }

  /** No reading presses both buttons: the screen rows they accept are
      disjoint. */
  lemma SwitchesExclusive(s: Reading)
    ensures !(Switch1(s) == 1 && Switch2(s) == 1)
  {
  }

  /** buttonState (switch_task.c:113-119): 1 when either button is pressed.
      Switch1 reads a, and Switch2, called only when Switch1 gave 0,
      reads b. */
  function ButtonState(a: Reading, b: Reading): (r: byte)
    ensures r == 0 || r == 1
    ensures r == 1 <==> Switch1(a) == 1 || Switch2(b) == 1
  {
    if Switch1(a) == 1 || Switch2(b) == 1 then 1 else 0
  }

  /** For a single reading, buttonState reports a firm touch in either
      region. */
  lemma ButtonStateRegion(s: Reading)
    ensures ButtonState(s, s) == 1 <==>
              s.z1 > 1000 && ((s.x <= 1502 && s.y >= 2250) || (s.x <= 1712 && s.y <= 1704))
  {
  }

  // ---------------------------------------------------------------------
  // One iteration of the task
  // ---------------------------------------------------------------------

  /** The readings of one iteration, one per call site: buttonState's
      Switch1 and Switch2 (line 148), the press check's Switch1 and
      Switch2 (line 162), the classification's Switch1 (line 164) and
      Switch2 (line 184). A call the C short-circuit skips leaves its
      reading unused. */
  datatype Samples = Samples(
    sample1: Reading, sample2: Reading,
    check1: Reading, check2: Reading,
    left: Reading, right: Reading)

  /** The same reading at every call site. */
  function Steady(s: Reading): Samples {
    Samples(s, s, s, s, s, s)
  }

  /** What an iteration leaves: the remembered button state, the value of
      ui8Message, and the message it sends, if any. */
  datatype Debounced = Debounced(prev: byte, message: byte, send: Option<byte>)

  /** One iteration of SwitchTask's forever loop (switch_task.c:148-215)
      up to the send. When the press check succeeds but neither
      classification call reports a press, ui8Message keeps the value it
      had and that value is sent. */
  function Debounce(prev: byte, message: byte, s: Samples): (r: Debounced)
    // The remembered state is always the state just sampled.
    ensures r.prev == ButtonState(s.sample1, s.sample2)
    // A message is sent exactly when the sampled state changed and the
    // check after the settle delay still sees a press.
    ensures r.send.Some? <==>
              ButtonState(s.sample1, s.sample2) != prev && ButtonState(s.check1, s.check2) == 1
    // What is sent is what ui8Message holds afterwards.
    ensures r.send.Some? ==> r.send.value == r.message
    ensures r.send.None? ==> r.message == message
    // LEFT when Switch1 holds on re-check, else RIGHT when Switch2 holds.
    ensures r.send.Some? && Switch1(s.left) == 1 ==> r.message == LEFT_BUTTON
    ensures r.send.Some? && Switch1(s.left) == 0 && Switch2(s.right) == 1 ==> r.message == RIGHT_BUTTON
    ensures r.send.Some? && Switch1(s.left) == 0 && Switch2(s.right) == 0 ==> r.message == message
  {
    var current := ButtonState(s.sample1, s.sample2);
    if current == prev then
      Debounced(prev, message, None)
    else if ButtonState(s.check1, s.check2) == 0 then
      Debounced(current, message, None)
    else
      var m := if Switch1(s.left) == 1 then LEFT_BUTTON
               else if Switch2(s.right) == 1 then RIGHT_BUTTON
               else message;
      Debounced(current, m, Some(m))
  }

  /** With a steady reading, a press sends the button it touches and a
      release sends nothing; the stale ui8Message is never sent. */
  lemma SteadyPress(prev: byte, message: byte, s: Reading)
    ensures var r := Debounce(prev, message, Steady(s));
            r.send.Some? <==> ButtonState(s, s) == 1 && prev != 1
    ensures var r := Debounce(prev, message, Steady(s));
            r.send.Some? ==> r.send == Some(if Switch1(s) == 1 then LEFT_BUTTON else RIGHT_BUTTON)
  {
  }

  /** A press held across iterations is sent once: after an iteration the
      next one with the same sampled state sends nothing. */
  lemma HeldPressSentOnce(prev: byte, message: byte, s: Samples, t: Samples)
    requires ButtonState(t.sample1, t.sample2) == ButtonState(s.sample1, s.sample2)
    ensures var r := Debounce(prev, message, s);
            Debounce(r.prev, r.message, t) == Debounced(r.prev, r.message, None)
  {
  }

  /** The press check and the classification calls read the controller
      separately, so a press seen by the check can be gone at
      classification time; the stale ui8Message is then sent. */
  lemma StaleMessageSent()
    ensures var press := Reading(0, 3000, 2000);
            var none := Reading(0, 3000, 0);
            var s := Samples(press, press, press, press, none, none);
            Debounce(0, 0x7F, s).send == Some(0x7F)
  {
  }

  /** SwitchTask's state across iterations. `pending` holds a message the
      task is blocked sending: xQueueSend waits with portMAX_DELAY until
      the queue has room, so each later iteration is one more attempt and
      the task does nothing else until the message is in the queue. */
  class SwitchTask {
    var prev: byte
    var message: byte
    var pending: Option<byte>
    const queue: MessageQueue

    /** What the task has sent or is sending, oldest first: the queue's
        messages followed by the one it is blocked on. */
    ghost function Outbox(): seq<byte>
      reads this, queue
    {
      queue.items + (if pending.Some? then [pending.value] else [])
    }

    /** The task as it enters its loop (switch_task.c:131). ui8Message is
        not initialised by the source; its first value is a parameter. */
    constructor (queue: MessageQueue, message: byte)
      ensures prev == 0 && this.message == message && pending == None && this.queue == queue
    {
      prev := 0;
      this.message := message;
      pending := None;
      this.queue := queue;
    }

    /** One iteration of the forever loop (switch_task.c:148-215), or one
        more attempt of a send that is waiting for room. */
    method Iterate(s: Samples)
      requires queue.Valid()
      modifies this, queue
      ensures queue.Valid()
      // A waiting send completes as soon as there is room; nothing else
      // happens meanwhile.
      ensures old(pending).Some? ==>
                prev == old(prev) && message == old(message) &&
                (pending == None <==> |old(queue.items)| < LED_QUEUE_SIZE) &&
                (pending == None ==> queue.items == old(queue.items) + [old(pending).value]) &&
                (pending != None ==> pending == old(pending) && queue.items == old(queue.items))
      // Otherwise the iteration is Debounce; its message goes into the
      // queue, or waits for room when the queue is full.
      ensures old(pending).None? ==>
                var r := Debounce(old(prev), old(message), s);
                prev == r.prev && message == r.message &&
                match r.send
                case None => pending == None && queue.items == old(queue.items)
                case Some(m) =>
                  if |old(queue.items)| < LED_QUEUE_SIZE
                  then pending == None && queue.items == old(queue.items) + [m]
                  else pending == Some(m) && queue.items == old(queue.items)
      // No message is lost or reordered: the outbox only grows, by the
      // message this iteration sends.
      ensures old(pending).Some? ==> Outbox() == old(Outbox())
      ensures old(pending).None? ==>
                var r := Debounce(old(prev), old(message), s);
                Outbox() == old(Outbox()) + (if r.send.Some? then [r.send.value] else [])
    {
      if pending.Some? {
        var ok := queue.Send(pending.value);
        if ok {
          pending := None;
        }
        return;
      }
      var current := ButtonState(s.sample1, s.sample2);
      if current != prev {
        prev := current;
        if Switch1(s.check1) == 1 || Switch2(s.check2) == 1 {
          if Switch1(s.left) == 1 {
            message := LEFT_BUTTON;
          } else if Switch2(s.right) == 1 {
            message := RIGHT_BUTTON;
          }
          var ok := queue.Send(message);
          if !ok {
            pending := Some(message);
          }
        }
      }
    }
  }
}
