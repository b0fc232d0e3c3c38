/** Messages passed from the switch task to the LED task, and the bounded
    FIFO queue (g_pLEDQueue) that carries them. */
module Messages {

  /** An unsigned 8-bit value (uint8_t); the queue item size is one byte. */
  type byte = x: int | 0 <= x < 256

  /** Button codes from the board's button driver header: LEFT_BUTTON is
      GPIO pin 4 and RIGHT_BUTTON is GPIO pin 0. The proofs only use that
      the two are distinct bytes. */
  const LEFT_BUTTON: byte := 0x10
  const RIGHT_BUTTON: byte := 0x01

  /** Number of messages the queue holds (LED_QUEUE_SIZE). */
  const LED_QUEUE_SIZE: nat := 5

  datatype Option<+T> = None | Some(value: T)

  /** The message queue created by LEDTaskInit with xQueueCreate. The
      switch task is its only producer and the LED task its only consumer. */
  class MessageQueue {
    /** Messages waiting to be received, oldest first. */
    var items: seq<byte>

    ghost predicate Valid()
      reads this
    {
      |items| <= LED_QUEUE_SIZE
    }

    constructor ()
      ensures Valid() && items == []
    {
      items := [];
    }

    /** One attempt of xQueueSend: appends m at the back when there is
        room; otherwise it reports failure and leaves the queue as it was.
        A message is never overwritten. */
    method Send(m: byte) returns (ok: bool)
      requires Valid()
      modifies this
      ensures Valid()
      ensures ok <==> |old(items)| < LED_QUEUE_SIZE
      ensures items == if ok then old(items) + [m] else old(items)
    {
      ok := |items| < LED_QUEUE_SIZE;
      if ok {
        items := items + [m];
      }
    }

    /** xQueueReceive with a zero wait: takes the oldest message, or
        reports an empty queue without blocking. */
    method Receive() returns (r: Option<byte>)
      requires Valid()
      modifies this
      ensures Valid()
      ensures old(items) == [] ==> r == None && items == []
      ensures old(items) != [] ==> r == Some(old(items)[0]) && items == old(items)[1..]
    {
      if items == [] {
        r := None;
      } else {
        r := Some(items[0]);
        items := items[1..];
      }
    }
  }
}
