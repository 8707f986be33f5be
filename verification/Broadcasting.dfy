/** Publishing a notification: the channel it goes to and the message it becomes. */
module Broadcasting {
  import opened Domain
  import Hex

  const CHANNEL_PREFIX := "notifications:"

  /** What WebSocket clients are sent: a row without its read mark, its owner and its hash. */
  datatype Message = Message(
    id: Uuid,
    ticketID: string,
    kind: string,
    previousStatus: string,
    newStatus: string,
    title: string,
    description: Option<string>,
    eventTimestamp: int,
    receivedAt: int)

  function ChannelFor(citizen: Bytes): string {
    CHANNEL_PREFIX + Hex.Encode(citizen)
  }

  function ToMessage(n: Notification): Message {
    Message(n.id, n.ticketID, n.kind, n.previousStatus, n.newStatus, n.title, n.description,
            n.eventTimestamp, n.receivedAt)
  }

  /** What one call to Publish puts on Redis. */
  datatype Post = Post(channel: string, message: Message)

  function PostOf(n: Notification): Post {
    Post(ChannelFor(n.citizenRef), ToMessage(n))
  }

  /** The row a message was made from, given the four columns the message leaves out. */
  function RowOf(m: Message, citizen: Bytes, hash: Bytes, read: bool, readAt: Option<int>): Notification {
    Notification(m.id, m.ticketID, m.kind, citizen, m.previousStatus, m.newStatus, m.title, m.description,
                 m.eventTimestamp, m.receivedAt, read, readAt, hash)
  }

  /** Messages and rows determine each other but for owner, hash and read mark. */
  lemma MessageRoundTrip(n: Notification, m: Message)
    ensures ToMessage(n) == m <==> RowOf(m, n.citizenRef, n.eventHash, n.read, n.readAt) == n
  {
  }

  /** No two citizens share a channel, whatever bytes and however many their references have. */
  lemma ChannelsAreSeparate(a: Bytes, b: Bytes)
    ensures ChannelFor(a) == ChannelFor(b) <==> a == b
  {
    Hex.EncodeInjective(a, b);
    assert ChannelFor(a)[|CHANNEL_PREFIX|..] == Hex.Encode(a);
    assert ChannelFor(b)[|CHANNEL_PREFIX|..] == Hex.Encode(b);
  }

  /** A post says of its row what the row will say for ever: of all its columns only the read mark can
      change, and a post does not carry it. */
  lemma PostStaysTrue(n: Notification, later: Notification)
    requires n.eventHash == later.eventHash && (n.read ==> later.read)
    ensures PostOf(later) == PostOf(n) <==> OnlyReadMarkChanged(n, later)
  {
    ChannelsAreSeparate(n.citizenRef, later.citizenRef);
  }
}
