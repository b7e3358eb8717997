/** The bounded, topic-filtered channel that both in-process brokers hand their subscribers. */
module Channels {
  import opened DiskTables
  import opened Topic

  const CHANNEL_CAPACITY: nat := 256

  /** The sending half with its pattern; `open` while the receiving half exists. */
  datatype Channel = Channel(pattern: string, buffer: seq<Event>, open: bool)

  datatype SendResult = Skipped | Sent | Full | Closed

  /** What offering an event does: filtered out, or `try_send` (a closed channel reports closed even when full). */
  function Outcome(ch: Channel, topic: string): SendResult {
    if !TopicMatches(ch.pattern, topic) then Skipped
    else if !ch.open then Closed
    else if |ch.buffer| >= CHANNEL_CAPACITY then Full
    else Sent
  }

  function Offered(ch: Channel, topic: string, event: Event): Channel {
    if Outcome(ch, topic) == Sent then ch.(buffer := ch.buffer + [event]) else ch
  }
}
