/** The LED task (led_task.c:140-267): a four-state machine that reads
    button messages, shows its state on the LEDs and holds it for a window
    of 50 ticks during which a message may preempt the hold.

    Each call of xQueueReceive is modelled by the poll result it returns:
    `Some(m)` when a message was taken, `None` when the queue was empty.
    A sequence of poll results therefore stands for the queue together
    with whatever the switch task sent in between. */
module LedTask {
  import opened Messages
  import LedPort

  // The values of ps and ns.
  const OFF := 0
  const RED := 1
  const GREEN := 2
  const YELLOW := 3

  /** Polls of the queue while a state is held. */
  const HOLD_TICKS: nat := 50

  /** Poll results one outer iteration may consume: the top-of-loop poll
      and one per hold tick. */
  const MAX_POLLS: nat := 1 + HOLD_TICKS

  predicate IsState(s: int) {
    OFF <= s <= YELLOW
  }

  // ---------------------------------------------------------------------
  // Next-state choice
  // ---------------------------------------------------------------------

  /** The state chosen when the top-of-loop poll delivered m
      (led_task.c:172-216). A ps outside 0..3 matches no case of the
      switch, and ns keeps its value. */
  function NextOnEvent(ps: int, ns: int, m: byte): (r: int)
    ensures IsState(ps) ==> IsState(r)
    ensures !IsState(ps) ==> r == ns
    // From Off, LEFT turns red on and anything else leaves it off.
    ensures ps == OFF ==> (r == RED <==> m == LEFT_BUTTON) && (r == OFF <==> m != LEFT_BUTTON)
    // From a lit state, LEFT turns the LEDs off and nothing else does.
    ensures IsState(ps) && ps != OFF ==> (r == OFF <==> m == LEFT_BUTTON)
    // Yellow is reached only from green with RIGHT.
    ensures IsState(ps) ==> (r == YELLOW <==> ps == GREEN && m == RIGHT_BUTTON)
    // From red, any message other than LEFT moves on to green.
    ensures ps == RED && m != LEFT_BUTTON ==> r == GREEN
  {
    if ps == OFF then
      (if m == LEFT_BUTTON then RED else OFF)
    else if ps == RED then
      (if m == LEFT_BUTTON then OFF else GREEN)
    else if ps == GREEN then
      (if m == LEFT_BUTTON then OFF else if m == RIGHT_BUTTON then YELLOW else RED)
    else if ps == YELLOW then
      (if m == LEFT_BUTTON then OFF else RED)
    else
      ns
  }

  /** The state chosen when the top-of-loop poll found the queue empty:
      timeout aging (led_task.c:218-226). */
  function NextOnTimeout(ps: int): (r: int)
    ensures IsState(r)
    // Aging never lights yellow.
    ensures r != YELLOW
    // Off stays off, and aging never turns a lit state off.
    ensures r == OFF <==> ps == OFF
    // Every lit state moves on: red to green, green and yellow to red.
    ensures IsState(ps) && ps != OFF ==> r != ps
    ensures ps == RED ==> r == GREEN
  {
    if ps == RED then GREEN
    else if ps == OFF then OFF
    else RED
  }

  /** The choice at the top of the loop for one poll result. */
  function Select(ps: int, ns: int, poll: Option<byte>): int {
    match poll
    case Some(m) => NextOnEvent(ps, ns, m)
    case None => NextOnTimeout(ps)
  }

  // ---------------------------------------------------------------------
  // The transition table, as data
  // ---------------------------------------------------------------------

  /** Column of EventTable a message selects: LEFT, RIGHT, any other byte. */
  function Column(m: byte): (c: nat)
    ensures c < 3
  {
    if m == LEFT_BUTTON then 0 else if m == RIGHT_BUTTON then 1 else 2
  }

  /** The next state on a message, one row per state, as a table. */
  const EventTable: seq<seq<int>> :=
    [ [RED, OFF, OFF],      // off
      [OFF, GREEN, GREEN],  // red
      [OFF, YELLOW, RED],   // green
      [OFF, RED, RED] ]     // yellow

  /** The next state on an empty poll, one entry per state. */
  const AgingTable: seq<int> := [OFF, GREEN, RED, RED]

  /** The nested case analysis of the source is exactly the table. */
  lemma EventTableAgrees(ps: int, ns: int, m: byte)
    requires IsState(ps)
    ensures NextOnEvent(ps, ns, m) == EventTable[ps][Column(m)]
    ensures NextOnTimeout(ps) == AgingTable[ps]
  {
  }

  // ---------------------------------------------------------------------
  // Preemption of the hold window
  // ---------------------------------------------------------------------

  /** The state a message received during the hold preempts to, if any
      (led_task.c:250-262). */
  function Preempt(ps: int, m: byte): (r: Option<int>)
    // LEFT always preempts; RIGHT preempts only green; nothing else does.
    ensures r.Some? <==> m == LEFT_BUTTON || (ps == GREEN && m == RIGHT_BUTTON)
    // A preemption always changes the state.
    ensures r.Some? ==> r.value != ps && IsState(r.value)
    ensures r.Some? && ps == OFF ==> r.value == RED
    ensures r.Some? && ps != OFF ==> (r.value == OFF <==> m == LEFT_BUTTON)
    // The only other preemption, RIGHT while green, leads to yellow.
    ensures r.Some? && m != LEFT_BUTTON ==> r.value == YELLOW
  {
    if ps == OFF && m == LEFT_BUTTON then Some(RED)
    else if ps == GREEN && m == RIGHT_BUTTON then Some(YELLOW)
    else if ps != OFF && m == LEFT_BUTTON then Some(OFF)
    else None
  }

  /** A preemption goes where the same message would have led at the top
      of the loop. */
  lemma PreemptAgreesWithEvent(ps: int, ns: int, m: byte)
    requires IsState(ps)
    requires Preempt(ps, m).Some?
    ensures Preempt(ps, m).value == NextOnEvent(ps, ns, m)
  {
  }

  /** A poll result that ends the hold window early. */
  predicate Preempts(ps: int, poll: Option<byte>) {
    poll.Some? && Preempt(ps, poll.value).Some?
  }

  /** What the hold loop leaves behind: ns, the changed flag, and how many
      poll results it consumed. */
  datatype Held = Held(ns: int, changed: bool, polls: nat)

  /** The hold loop of led_task.c:247-265 from tick i on, holding state
      ps, with ns and changed as they are at that tick; the poll of tick
      j is polls[j]. Each tick polls once; a preempting message sets ns
      and changed and breaks out, anything else is consumed and changed
      is cleared. The result counts the polls of all ticks up to the end. */
  function Hold(ps: int, ns: int, changed: bool, polls: seq<Option<byte>>, i: nat): (r: Held)
    requires i <= HOLD_TICKS <= |polls|
    decreases HOLD_TICKS - i
    ensures i <= r.polls <= HOLD_TICKS
    // The loop ends early only on a preemption, and right after it.
    ensures r.changed && i < HOLD_TICKS ==>
              i < r.polls && Preempts(ps, polls[r.polls - 1]) && Preempt(ps, polls[r.polls - 1].value) == Some(r.ns)
    ensures r.changed && i < HOLD_TICKS ==> r.ns != ps
    // Without a preemption every tick runs, ns is kept and changed is cleared.
    ensures i < HOLD_TICKS && !r.changed ==> r.polls == HOLD_TICKS && r.ns == ns
  {
    if i == HOLD_TICKS then
      Held(ns, changed, i)
    else if Preempts(ps, polls[i]) then
      Held(Preempt(ps, polls[i].value).value, true, i + 1)
    else
      Hold(ps, ns, false, polls, i + 1)
  }

  /** Every message the hold loop consumed before its last poll was
      discarded, and all of them were when it ran to the end. */
  lemma {:induction false} HoldDiscards(ps: int, ns: int, changed: bool, polls: seq<Option<byte>>, i: nat)
    requires i <= HOLD_TICKS <= |polls|
    ensures var r := Hold(ps, ns, changed, polls, i);
            forall j :: i <= j < r.polls - 1 ==> !Preempts(ps, polls[j])
    ensures var r := Hold(ps, ns, changed, polls, i);
            !r.changed ==> forall j :: i <= j < r.polls ==> !Preempts(ps, polls[j])
    decreases HOLD_TICKS - i
  {
    if i < HOLD_TICKS && !Preempts(ps, polls[i]) {
      HoldDiscards(ps, ns, false, polls, i + 1);
    }
  }

  /** The scenario of a preempted hold: green is shown, a RIGHT message
      arrives at the third tick, and the hold ends there in yellow. */
  lemma GreenPreemptedByRight()
    ensures Hold(GREEN, GREEN, false, [None, None, Some(RIGHT_BUTTON)] + seq(47, _ => None), 0)
         == Held(YELLOW, true, 3)
  {
  }

  // ---------------------------------------------------------------------
  // One outer iteration
  // ---------------------------------------------------------------------

  /** The variables LEDTask carries from one iteration to the next. */
  datatype Control = Control(ps: int, ns: int, changed: bool)

  /** ps and ns are both states. */
  predicate Inv(c: Control) {
    IsState(c.ps) && IsState(c.ns)
  }

  /** The values LEDTask starts with (led_task.c:146-149). */
  const Start := Control(OFF, OFF, false)

  /** What one iteration of the forever loop leaves, and how many poll
      results it consumed. */
  datatype Stepped = Stepped(next: Control, polls: nat)

  /** One iteration of the forever loop (led_task.c:169-265). */
  function Step(c: Control, polls: seq<Option<byte>>): (r: Stepped)
    requires MAX_POLLS <= |polls|
    ensures Inv(c) ==> Inv(r.next)
    ensures 1 <= r.polls <= MAX_POLLS
    // After a preemption the next iteration skips the top-of-loop poll
    // and shows the preempted ns.
    ensures c.changed ==> r.next.ps == c.ns
    ensures !c.changed ==> r.next.ps == Select(c.ps, c.ns, polls[0])
    // The hold either ran all its ticks, leaving ns == ps and changed
    // clear, or a preemption set a different ns and changed.
    ensures !r.next.changed ==>
              r.next.ns == r.next.ps && r.polls == HOLD_TICKS + (if c.changed then 0 else 1)
    ensures r.next.changed ==> r.next.ns != r.next.ps
  {
    var top := if c.changed then 0 else 1;
    var ps := if c.changed then c.ns else Select(c.ps, c.ns, polls[0]);
    var h := Hold(ps, ps, c.changed, polls[top..], 0);
    Stepped(Control(ps, h.ns, h.changed), top + h.polls)
  }

  /** An iteration whose hold sees no preempting message ends where the
      top-of-loop poll led, with changed clear. */
  lemma QuietStep(c: Control, polls: seq<Option<byte>>)
    requires MAX_POLLS <= |polls|
    requires !c.changed
    requires forall j :: 1 <= j < MAX_POLLS ==> !Preempts(Select(c.ps, c.ns, polls[0]), polls[j])
    ensures Step(c, polls).next == Control(Select(c.ps, c.ns, polls[0]), Select(c.ps, c.ns, polls[0]), false)
  {
  }

  /** k outer iterations. After at least one, changed is set exactly when
      a preemption left ns different from ps. */
  function Run(c: Control, polls: seq<Option<byte>>, k: nat): (r: Control)
    requires k * MAX_POLLS <= |polls|
    decreases k
    ensures k == 0 ==> r == c
    ensures k > 0 ==> (r.changed <==> r.ns != r.ps)
  {
    if k == 0 then c
    else
      var s := Step(c, polls);
      assert (k - 1) * MAX_POLLS == k * MAX_POLLS - MAX_POLLS;
      Run(s.next, polls[s.polls..], k - 1)
  }

  /** ps and ns stay states through any number of iterations. */
  lemma {:induction false} RunKeepsInv(c: Control, polls: seq<Option<byte>>, k: nat)
    requires k * MAX_POLLS <= |polls|
    requires Inv(c)
    ensures Inv(Run(c, polls, k))
    decreases k
  {
    if k > 0 {
      var s := Step(c, polls);
      RunKeepsInv(s.next, polls[s.polls..], k - 1);
    }
  }

  /** The states shown when the top-of-loop poll of each iteration
      delivers the next entry of inputs and no hold is preempted. */
  function Replay(ps: int, inputs: seq<Option<byte>>): (r: seq<int>)
    ensures |r| == |inputs|
    // A replay from a state never leaves the four states.
    ensures IsState(ps) ==> forall i :: 0 <= i < |r| ==> IsState(r[i])
    decreases |inputs|
  {
    if inputs == [] then []
    else
      var next := Select(ps, ps, inputs[0]);
      [next] + Replay(next, inputs[1..])
  }

  /** The poll results of iterations whose top-of-loop polls deliver
      inputs in turn and whose holds find the queue empty. */
  function Quiet(inputs: seq<Option<byte>>): (r: seq<Option<byte>>)
    ensures |r| == |inputs| * MAX_POLLS
    ensures forall k :: 0 <= k < |inputs| ==> r[k * MAX_POLLS] == inputs[k]
    decreases |inputs|
  {
    if inputs == [] then []
    else
      var rest := Quiet(inputs[1..]);
      assert |inputs| * MAX_POLLS == MAX_POLLS + |rest|;
      var r := [inputs[0]] + seq(HOLD_TICKS, _ => None) + rest;
      assert forall k :: 1 <= k < |inputs| ==> r[k * MAX_POLLS] == rest[(k - 1) * MAX_POLLS];
      r
  }

  /** Replay is what the forever loop does: k iterations over Quiet(inputs)
      end in the k-th replayed state, with ns equal to it and changed clear. */
  lemma {:induction false} RunReplays(ps: int, inputs: seq<Option<byte>>, k: nat)
    requires 1 <= k <= |inputs|
    ensures k * MAX_POLLS <= |Quiet(inputs)|
    ensures var r := Replay(ps, inputs)[k - 1];
            Run(Control(ps, ps, false), Quiet(inputs), k) == Control(r, r, false)
    decreases k
  {
    var polls := Quiet(inputs);
    var next := Select(ps, ps, inputs[0]);
    QuietStep(Control(ps, ps, false), polls);
    assert polls[MAX_POLLS..] == Quiet(inputs[1..]);
    if k > 1 {
      RunReplays(next, inputs[1..], k - 1);
    }
  }

  /** Two scenarios: from off, LEFT, RIGHT, RIGHT, LEFT show red, green,
      yellow, off; from red, three empty polls show green, red, green.
      The loop itself, started as the task starts, is yellow after the
      first three of those messages. */
  lemma Scenarios()
    ensures Replay(OFF, [Some(LEFT_BUTTON), Some(RIGHT_BUTTON), Some(RIGHT_BUTTON), Some(LEFT_BUTTON)])
         == [RED, GREEN, YELLOW, OFF]
    ensures Replay(RED, [None, None, None]) == [GREEN, RED, GREEN]
    // The same, run through the forever loop from the task's start.
    ensures Run(Start, Quiet([Some(LEFT_BUTTON), Some(RIGHT_BUTTON), Some(RIGHT_BUTTON), Some(LEFT_BUTTON)]), 3)
         == Control(YELLOW, YELLOW, false)
  {
    var buttons := [Some(LEFT_BUTTON), Some(RIGHT_BUTTON), Some(RIGHT_BUTTON), Some(LEFT_BUTTON)];
    assert Replay(YELLOW, buttons[3..]) == [OFF];
    assert Replay(GREEN, buttons[2..]) == [YELLOW, OFF];
    assert Replay(RED, buttons[1..]) == [GREEN, YELLOW, OFF];
    var empties: seq<Option<byte>> := [None, None, None];
    assert Replay(RED, empties[2..]) == [GREEN];
    assert Replay(GREEN, empties[1..]) == [RED, GREEN];
    RunReplays(OFF, buttons, 3);
  }

  // ---------------------------------------------------------------------
  // The task itself
  // ---------------------------------------------------------------------

  /** The LED pattern shown for a state: each state its own pattern, with
      only off showing none. */
  function Pattern(s: int): (p: bv32)
    requires IsState(s)
    ensures LedPort.IsPattern(p)
    ensures p == 0 <==> s == OFF
  {
    if s == OFF then 0
    else if s == RED then LedPort.RED_BIT
    else if s == GREEN then LedPort.GREEN_BIT
    else LedPort.YELLOW_BIT
  }

  /** Different states show different patterns. */
  lemma PatternsDistinct(s: int, t: int)
    requires IsState(s) && IsState(t) && s != t
    ensures Pattern(s) != Pattern(t)
  {
  }

  /** The register after showing state s on d (led_task.c:233-242); a
      value outside 0..3 matches no branch and leaves d as it was. */
  function Shown(s: int, d: bv32): bv32 {
    if IsState(s) then LedPort.Light(d, Pattern(s)) else d
  }

  /** The LEDs show exactly the pattern of a state, at most one is lit,
      and the other bits of the register are untouched. */
  lemma ShownMeansState(s: int, d: bv32)
    requires IsState(s)
    ensures LedPort.Leds(Shown(s, d)) == Pattern(s)
    ensures LedPort.AtMostOneLit(Shown(s, d))
    ensures Shown(s, d) & !LedPort.LED_MASK == d & !LedPort.LED_MASK
    ensures Shown(s, Shown(s, d)) == Shown(s, d)
  {
    LedPort.LightShowsAtMostOne(d, Pattern(s));
    LedPort.LightIdempotent(d, Pattern(s));
  }

  /** LEDTask's variables, kept across iterations of its forever loop. */
  class LedTask {
    var ps: int
    var ns: int
    var changed: bool
    const port: LedPort.PortE

    ghost function Vars(): Control
      reads this
    {
      Control(ps, ns, changed)
    }

    constructor (port: LedPort.PortE)
      ensures Vars() == Start && this.port == port
    {
      ps, ns, changed := OFF, OFF, false;
      this.port := port;
    }

    /** Turns on the LEDs for ps (led_task.c:233-242). */
    method Drive()
      modifies port
      ensures port.data == Shown(ps, old(port.data))
    {
      ghost var d := port.data;
      if ps == OFF {
        port.AllOff();
        assert Shown(ps, d) == LedPort.Light(d, 0);
      } else if ps == RED {
        port.SetRed();
        assert Shown(ps, d) == LedPort.Light(d, LedPort.RED_BIT);
      } else if ps == GREEN {
        port.SetGreen();
        assert Shown(ps, d) == LedPort.Light(d, LedPort.GREEN_BIT);
      } else if ps == YELLOW {
        port.SetYellow();
        assert Shown(ps, d) == LedPort.Light(d, LedPort.YELLOW_BIT);
      }
    }

    /** One iteration of the forever loop (led_task.c:169-265), taking its
        poll results from the front of polls; used says how many it took. */
    method Iterate(polls: seq<Option<byte>>) returns (used: nat)
      requires MAX_POLLS <= |polls|
      modifies this, port
      ensures Vars() == Step(old(Vars()), polls).next
      ensures used == Step(old(Vars()), polls).polls
      ensures port.data == Shown(ps, old(port.data))
    {
      used := 0;
      if !changed {
        var poll := polls[0];
        used := 1;
        match poll {
          case Some(m) => ns := NextOnEvent(ps, ns, m);
          case None => ns := NextOnTimeout(ps);
        }
      }
      ps := ns;
      Drive();
      var held := HoldWindow(polls[used..]);
      used := used + held;
    }

    /** The hold loop (led_task.c:247-265): up to HOLD_TICKS polls taken
        from the front of polls while ps is shown; held says how many. */
    method HoldWindow(polls: seq<Option<byte>>) returns (held: nat)
      requires HOLD_TICKS <= |polls|
      modifies this
      ensures ps == old(ps)
      ensures Held(ns, changed, held) == Hold(ps, old(ns), old(changed), polls, 0)
    {
      var shown, next, preempted := ps, ns, changed;
      ghost var h := Hold(shown, next, preempted, polls, 0);
      held := 0;
      for i := 0 to HOLD_TICKS
        invariant held == i && unchanged(this)
        invariant h == Hold(shown, next, preempted, polls, i)
      {
        var poll := polls[i];
        held := held + 1;
        if poll.Some? {
          var pre := Preempt(shown, poll.value);
          if pre.Some? {
            next := pre.value;
            preempted := true;
            break;
          }
        }
        preempted := false;
      }
      ns, changed := next, preempted;
    }
  }
}
