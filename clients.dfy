/** A connected party (src/client.rs): its handle, its outbound channel, and
    the read loop that turns socket reads into command lines and, at the end,
    one disconnect event. The socket is abstracted as the sequence of results
    its successive `read_line` calls return. */
module Clients {
  import opened Wrappers
  import opened Text
  import opened Utf8

  /** The outbound byte channel of one connection. Every copy of a client
      handle refers to the same channel, so it is an object; `queue` holds
      the payloads enqueued so far, oldest first. */
  class Channel {
    var queue: seq<seq<byte>>

    constructor ()
      ensures queue == []
    {
      queue := [];
    }
  }

  /** A client handle: the peer address, which identifies the client, and
      its outbound channel. Freely copied. */
  datatype Client = Client(addr: string, channel: Channel)

  /** One line of input, tagged with the client it came from. */
  datatype ClientInput = ClientInput(client: Client, raw: string)

  /** The lifecycle events a connection sends to the registry consumer. */
  datatype ConnectionStatus = Connected | Disconnected
  datatype ConnectionUpdate = ConnectionUpdate(client: Client, status: ConnectionStatus)

  /** What one `read_line` call returns: the text read (with its line
      terminator, if any; the empty text means end of stream) or an error. */
  datatype ReadResult = ReadLine(data: string) | ReadError

  /** A read that ends the loop: an error, or a read of zero bytes. */
  predicate Ends(r: ReadResult)
  {
    r.ReadError? || r.data == []
  }

  /** The position of the first read that ends the loop, or `|results|` when
      none does. */
  function FirstEnd(results: seq<ReadResult>): (k: nat)
    ensures k <= |results|
    ensures k < |results| ==> Ends(results[k])
    ensures forall j :: 0 <= j < k ==> !Ends(results[j])
  {
    if results == [] then 0
    else if Ends(results[0]) then 0
    else 1 + FirstEnd(results[1..])
  }

  /** The first ending read is the one at `k` when `k` ends the loop (or is
      past the end) and no earlier read does. */
  lemma FirstEndIs(results: seq<ReadResult>, k: nat)
    requires k <= |results|
    requires k < |results| ==> Ends(results[k])
    requires forall j :: 0 <= j < k ==> !Ends(results[j])
    ensures FirstEnd(results) == k
  {
  }

  /** `send`: enqueues the UTF-8 bytes of `text` on the client's channel. */
  method Send(c: Client, text: string)
    modifies c.channel
    ensures c.channel.queue == old(c.channel.queue) + [Encode(text)]
  {
    c.channel.queue := c.channel.queue + [Encode(text)];
  }

  /** The read task of `Client::new`. Every line read before the first
      ending read is trimmed and forwarded, blank lines included, in read
      order and tagged with this client; the ending read forwards nothing
      and is followed by exactly one Disconnected update. When the results run
      out without an ending one, the connection is still open: no update. */
  method ReadLoop(client: Client, results: seq<ReadResult>)
    returns (forwarded: seq<ClientInput>, disconnect: Option<ConnectionUpdate>)
    ensures |forwarded| == FirstEnd(results)
    ensures forall i :: 0 <= i < |forwarded| ==>
              forwarded[i] == ClientInput(client, Trim(results[i].data))
    ensures disconnect.Some? <==> FirstEnd(results) < |results|
    ensures disconnect.Some? ==> disconnect.value == ConnectionUpdate(client, Disconnected)
  {
    forwarded := [];
    disconnect := None;
    var input: string := [];
    var i := 0;
    while i < |results|
      invariant 0 <= i <= |results|
      invariant input == []
      invariant forall j :: 0 <= j < i ==> !Ends(results[j])
      invariant |forwarded| == i
      invariant forall j :: 0 <= j < i ==> forwarded[j] == ClientInput(client, Trim(results[j].data))
    {
      if results[i].ReadError? {
        break;
      }
      var len := |results[i].data|;
      input := input + results[i].data;
      assert input == results[i].data;
      var line := Trim(input);
      if len == 0 {
        break;
      }
      assert line == Trim(results[i].data);
      forwarded := forwarded + [ClientInput(client, line)];
      input := [];
      i := i + 1;
    }
    FirstEndIs(results, i);
    if i < |results| {
      disconnect := Some(ConnectionUpdate(client, Disconnected));
    }
  }

  /** `Client::new` for a peer at `addr`: a fresh outbound channel, the
      Connected update its spawned task sends, and what the read task does
      with `results`. */
  method NewClient(addr: string, results: seq<ReadResult>)
    returns (client: Client, connected: ConnectionUpdate,
             forwarded: seq<ClientInput>, disconnect: Option<ConnectionUpdate>)
    ensures client.addr == addr && fresh(client.channel) && client.channel.queue == []
    ensures connected == ConnectionUpdate(client, Connected)
    ensures |forwarded| == FirstEnd(results)
    ensures forall i :: 0 <= i < |forwarded| ==>
              forwarded[i] == ClientInput(client, Trim(results[i].data))
    ensures disconnect.Some? <==> FirstEnd(results) < |results|
    ensures disconnect.Some? ==> disconnect.value == ConnectionUpdate(client, Disconnected)
  {
    var channel := new Channel();
    client := Client(addr, channel);
    forwarded, disconnect := ReadLoop(client, results);
    connected := ConnectionUpdate(client, Connected);
  }

  /** Every forwarded line is trimmed, so the dispatch loop's precondition
      holds of everything the read loop produces. */
  lemma ForwardedAreTrimmed(client: Client, results: seq<ReadResult>, forwarded: seq<ClientInput>)
    requires |forwarded| == FirstEnd(results)
    requires forall i :: 0 <= i < |forwarded| ==>
               forwarded[i] == ClientInput(client, Trim(results[i].data))
    ensures forall i :: 0 <= i < |forwarded| ==> Trimmed(forwarded[i].raw) && forwarded[i].client == client
  {
  }
}
