/** The three LEDs on port E and the routines that switch them
    (led_task.c:97-137). Each routine rewrites single bits of the port's
    32-bit data register with `|=` and `&= ~`. */
module LedPort {

  const RED_BIT: bv32 := 0x02
  const YELLOW_BIT: bv32 := 0x04
  const GREEN_BIT: bv32 := 0x08

  /** The register bits wired to LEDs. */
  const LED_MASK: bv32 := 0x0E

  /** The LED bits of a register value. */
  function Leds(d: bv32): bv32 {
    d & LED_MASK
  }

  /** A register value shows at most one lit LED. */
  predicate AtMostOneLit(d: bv32) {
    Leds(d) == 0 || Leds(d) == RED_BIT || Leds(d) == YELLOW_BIT || Leds(d) == GREEN_BIT
  }

  /** An LED pattern a "set state" routine can leave: all off, or one LED. */
  predicate IsPattern(p: bv32) {
    p == 0 || p == RED_BIT || p == YELLOW_BIT || p == GREEN_BIT
  }

  /** The register value d with its LED bits replaced by pattern p. */
  function Light(d: bv32, p: bv32): (r: bv32)
    requires IsPattern(p)
    ensures Leds(r) == p
    ensures r & !LED_MASK == d & !LED_MASK
  {
    (d & !LED_MASK) | p
  }

  /** Lighting a pattern twice is the same as lighting it once. */
  lemma LightIdempotent(d: bv32, p: bv32)
    requires IsPattern(p)
    ensures Light(Light(d, p), p) == Light(d, p)
  {
  }

  /** What is shown does not depend on the LED bits that were set before. */
  lemma LightForgetsLeds(d: bv32, e: bv32, p: bv32)
    requires IsPattern(p)
    requires d & !LED_MASK == e & !LED_MASK
    ensures Light(d, p) == Light(e, p)
  {
  }

  /** After any pattern is lit at most one LED is on. */
  lemma LightShowsAtMostOne(d: bv32, p: bv32)
    requires IsPattern(p)
    ensures AtMostOneLit(Light(d, p))
  {
  }

  /** The three bit updates of GREENled, composed. */
  lemma GreenSteps(d: bv32)
    ensures ((d | GREEN_BIT) & !YELLOW_BIT) & !RED_BIT == Light(d, GREEN_BIT)
  {
  }

  /** GPIO_PORTE_DATA_R, the data register of port E. */
  class PortE {
    var data: bv32

    constructor (data: bv32)
      ensures this.data == data
    {
      this.data := data;
    }

    method GreenOn()
      modifies this
      ensures data == old(data) | GREEN_BIT
    {
      data := data | GREEN_BIT;
    }

    method GreenOff()
      modifies this
      ensures data == old(data) & !GREEN_BIT
    {
      data := data & !GREEN_BIT;
    }

    method YellowOn()
      modifies this
      ensures data == old(data) | YELLOW_BIT
    {
      data := data | YELLOW_BIT;
    }

    method YellowOff()
      modifies this
      ensures data == old(data) & !YELLOW_BIT
    {
      data := data & !YELLOW_BIT;
    }

    method RedOn()
      modifies this
      ensures data == old(data) | RED_BIT
    {
      data := data | RED_BIT;
    }

    method RedOff()
      modifies this
      ensures data == old(data) & !RED_BIT
    {
      data := data & !RED_BIT;
    }

    /** All_Off: every LED dark, every other bit kept. */
    method AllOff()
      modifies this
      ensures data == Light(old(data), 0)
    {
      GreenOff();
      YellowOff();
      RedOff();
    }

    /** REDled: only the red LED lit, every other bit kept. */
    method SetRed()
      modifies this
      ensures data == Light(old(data), RED_BIT)
    {
      GreenOff();
      YellowOff();
      RedOn();
    }

    /** GREENled: only the green LED lit, every other bit kept. */
    method SetGreen()
      modifies this
      ensures data == Light(old(data), GREEN_BIT)
    {
      ghost var d := data;
      GreenOn();
      YellowOff();
      RedOff();
      GreenSteps(d);
    }

    /** YELLOWled: only the yellow LED lit, every other bit kept. */
    method SetYellow()
      modifies this
      ensures data == Light(old(data), YELLOW_BIT)
    {
      GreenOff();
      YellowOn();
      RedOff();
    }
  }
}
