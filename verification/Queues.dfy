/**
 The boundary between the network threads and the tick thread: validated
 commands in, serialized messages out, through a locked queue whose operations
 take effect one at a time.
 */
module Queues {
  import opened Bits

  datatype CommandKind =
    ClientConnected | LoginUser | LoginPassword | ActionInput | WantUpdates | Reincarnate | Disconnected

  datatype ClientCommand = ClientCommand(
    kind: CommandKind, sessionId: nat,
    channel: int, value: real,
    team: int, unitId: int, padId: int,
    text: Text)

  function Plain(kind: CommandKind, sessionId: nat, text: Text): ClientCommand {
    ClientCommand(kind, sessionId, 0, 0.0, 0, 0, 0, text)
  }

  datatype OutboundMessage = OutboundMessage(sessionId: nat, reliable: bool, bytes: seq<Byte>)

  class ConcurrentQueue<T> {
    var items: seq<T>

    constructor ()
      ensures items == []
    {
      items := [];
    }

    method Push(item: T)
      modifies this
      ensures items == old(items) + [item]
    {
      items := items + [item];
    }

    method TryPop() returns (item: Option<T>)
      modifies this
      ensures old(items) == [] ==> item == None && items == []
      ensures old(items) != [] ==> item.Some? && old(items) == [item.value] + items
    {
      if items == [] {
        return None;
      }
      item := Some(items[0]);
      items := items[1..];
    }

    method DrainAll() returns (out: seq<T>)
      modifies this
      ensures out == old(items) && items == []
    {
      out := items;
      items := [];
    }
  }

  // ---- First in, first out over whole runs ------------------------------------------------

  datatype QueueOp<T> = Pushed(item: T) | Popped | Drained

  /** What is queued and what has come out, in order. */
  datatype QueueState<T> = QueueState(items: seq<T>, delivered: seq<T>)

  function QueueStep<T>(q: QueueState<T>, op: QueueOp<T>): QueueState<T> {
    match op
    case Pushed(x) => q.(items := q.items + [x])
    case Popped => if q.items == [] then q else QueueState(q.items[1..], q.delivered + [q.items[0]])
    case Drained => QueueState([], q.delivered + q.items)
  }

  function QueueRun<T>(q: QueueState<T>, ops: seq<QueueOp<T>>): QueueState<T>
    decreases |ops|
  {
    if ops == [] then q else QueueRun(QueueStep(q, ops[0]), ops[1..])
  }

  function PushesOf<T>(ops: seq<QueueOp<T>>): seq<T> {
    if ops == [] then [] else (if ops[0].Pushed? then [ops[0].item] else []) + PushesOf(ops[1..])
  }

  /** Nothing is lost, repeated or reordered: what came out followed by what is queued is what went in. */
  lemma {:induction false} FirstInFirstOut<T>(q: QueueState<T>, ops: seq<QueueOp<T>>)
    ensures var r := QueueRun(q, ops);
            r.delivered + r.items == q.delivered + q.items + PushesOf(ops)
    decreases |ops|
  {
    if ops != [] {
      var q' := QueueStep(q, ops[0]);
      FirstInFirstOut(q', ops[1..]);
      var now := if ops[0].Pushed? then [ops[0].item] else [];
      assert q'.delivered + q'.items == q.delivered + q.items + now;
      ConcatAssoc(q.delivered + q.items, now, PushesOf(ops[1..]));
    } else {
      assert q.delivered + q.items + [] == q.delivered + q.items;
    }
  }
}
