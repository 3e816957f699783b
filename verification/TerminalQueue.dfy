/** One browser's bounded channel (`BrowserChannel`). Its critical sections hold
    no suspension point, so each method is one step. */
module TerminalQueue {
  import opened Nums

  datatype Item = Output(payload: seq<Byte>) | Control(text: string) | Overflow | End

  datatype Limits = Limits(bytes: nat, frames: nat, control: nat)

  datatype Channel = Channel(limits: Limits, items: seq<Item>, bytes: int, frames: int, control: int,
                             overflows: nat, closed: bool, overflowed: bool)

  function Empty(limits: Limits): Channel {
    Channel(limits, [], 0, 0, 0, 0, false, false)
  }

  // ------------------------------------------------------------ the four steps

  function PushOutput(c: Channel, payload: seq<Byte>): Channel {
    if c.closed || c.overflowed then c
    else if c.frames >= c.limits.frames || c.bytes + |payload| > c.limits.bytes then
      c.(overflowed := true, overflows := c.overflows + 1, items := c.items + [Overflow])
    else
      c.(bytes := c.bytes + |payload|, frames := c.frames + 1, items := c.items + [Output(payload)])
  }

  /** Whether `send_control` raises QueueOverflow. */
  predicate ControlRefused(c: Channel) {
    c.closed || c.control >= c.limits.control
  }

  function PushControl(c: Channel, text: string): Channel {
    if c.closed then c
    else if c.control >= c.limits.control then c.(overflows := c.overflows + 1)
    else c.(control := c.control + 1, items := c.items + [Control(text)])
  }

  /** `get` on a channel that has an item; on an empty one it waits. */
  function Take(c: Channel): Channel
    requires c.items != []
  {
    var item, rest := c.items[0], c.(items := c.items[1..]);
    match item
    case Output(payload) => rest.(bytes := c.bytes - |payload|, frames := c.frames - 1)
    case Control(_) => rest.(control := c.control - 1)
    case _ => rest
  }

  function Shut(c: Channel): Channel {
    if c.closed then c
    else c.(closed := true, items := [End], bytes := 0, frames := 0, control := 0)
  }

  // ------------------------------------------------------------ what a queue holds

  function Outputs(items: seq<Item>): seq<seq<Byte>> {
    if items == [] then []
    else (if items[0].Output? then [items[0].payload] else []) + Outputs(items[1..])
  }

  function Controls(items: seq<Item>): nat {
    if items == [] then 0 else (if items[0].Control? then 1 else 0) + Controls(items[1..])
  }

  function Overflows(items: seq<Item>): nat {
    if items == [] then 0 else (if items[0].Overflow? then 1 else 0) + Overflows(items[1..])
  }

  function Total(payloads: seq<seq<Byte>>): nat {
    if payloads == [] then 0 else |payloads[0]| + Total(payloads[1..])
  }

  lemma {:induction false} TotalAppend(a: seq<seq<Byte>>, b: seq<seq<Byte>>)
    ensures Total(a + b) == Total(a) + Total(b)
  {
    if a == [] {
      assert a + b == b;
    } else {
      TotalAppend(a[1..], b);
      assert (a + b)[1..] == a[1..] + b;
    }
  }

  lemma TotalOne(payload: seq<Byte>)
    ensures Total([payload]) == |payload|
  {
    assert [payload][1..] == [];
  }

  lemma {:induction false} OutputsAppend(items: seq<Item>, more: seq<Item>)
    ensures Outputs(items + more) == Outputs(items) + Outputs(more)
  {
    if items == [] {
      assert items + more == more;
    } else {
      OutputsAppend(items[1..], more);
      assert (items + more)[1..] == items[1..] + more && (items + more)[0] == items[0];
      OutputsFirst(items);
      OutputsFirst(items + more);
      var first: seq<seq<Byte>> := if items[0].Output? then [items[0].payload] else [];
      hide *;
      Reassociated(first, Outputs(items[1..]), Outputs(more));
    }
  }

  lemma Reassociated(a: seq<seq<Byte>>, b: seq<seq<Byte>>, c: seq<seq<Byte>>)
    ensures a + b + c == a + (b + c)
  {
  }

  lemma OutputsFirst(items: seq<Item>)
    requires items != []
    ensures Outputs(items) == (if items[0].Output? then [items[0].payload] else []) + Outputs(items[1..])
  {
  }

  lemma {:induction false} CountsAppend(items: seq<Item>, more: seq<Item>)
    ensures Controls(items + more) == Controls(items) + Controls(more)
    ensures Overflows(items + more) == Overflows(items) + Overflows(more)
  {
    if items == [] {
      assert items + more == more;
    } else {
      CountsAppend(items[1..], more);
      assert (items + more)[1..] == items[1..] + more;
    }
  }

  lemma One(item: Item)
    ensures Outputs([item]) == if item.Output? then [item.payload] else []
    ensures Controls([item]) == if item.Control? then 1 else 0
    ensures Overflows([item]) == if item.Overflow? then 1 else 0
  {
    assert [item][1..] == [];
  }

  /** No output comes after the overflow sentinel. */
  predicate EndsAtOverflow(items: seq<Item>) {
    forall i, j :: 0 <= i < j < |items| && items[i].Overflow? ==> !items[j].Output?
  }

  // ------------------------------------------------------------ the invariant of one channel

  /** The counters say exactly what is queued, and stay within the limits. */
  predicate CountersExact(c: Channel) {
    && c.bytes == Total(Outputs(c.items)) <= c.limits.bytes
    && c.frames == |Outputs(c.items)| <= c.limits.frames
    && c.control == Controls(c.items) <= c.limits.control
  }

  predicate Sound(c: Channel) {
    && CountersExact(c)
    && Overflows(c.items) <= (if c.overflowed then 1 else 0)
    && EndsAtOverflow(c.items)
    && (c.closed ==> c.items == [End] || c.items == [])
    && (!c.closed ==> End !in c.items)
    && (c.overflowed && Overflows(c.items) == 0 ==> Outputs(c.items) == [])
  }

  lemma EmptySound(limits: Limits)
    ensures Sound(Empty(limits))
  {
  }

  lemma {:induction false} NoOverflowItem(items: seq<Item>)
    ensures Overflows(items) == 0 <==> forall i :: 0 <= i < |items| ==> !items[i].Overflow?
  {
    if items != [] {
      NoOverflowItem(items[1..]);
      assert forall i :: 0 < i < |items| ==> items[i] == items[1..][i - 1];
    }
  }

  lemma {:induction false} NoOutputItem(items: seq<Item>)
    ensures Outputs(items) == [] <==> forall i :: 0 <= i < |items| ==> !items[i].Output?
  {
    if items != [] {
      NoOutputItem(items[1..]);
      assert forall i :: 0 < i < |items| ==> items[i] == items[1..][i - 1];
    }
  }

  lemma OneMore(items: seq<Item>, item: Item)
    requires EndsAtOverflow(items) && (item.Output? ==> Overflows(items) == 0)
    ensures EndsAtOverflow(items + [item])
    ensures Outputs(items + [item]) == if item.Output? then Outputs(items) + [item.payload] else Outputs(items)
    ensures Controls(items + [item]) == Controls(items) + if item.Control? then 1 else 0
    ensures Overflows(items + [item]) == Overflows(items) + if item.Overflow? then 1 else 0
  {
    hide Outputs, Controls, Overflows;
    One(item);
    OutputsAppend(items, [item]);
    CountsAppend(items, [item]);
    NoOverflowItem(items);
  }

  lemma OneLess(items: seq<Item>)
    requires items != [] && EndsAtOverflow(items)
    ensures EndsAtOverflow(items[1..])
    ensures Outputs(items)
         == if items[0].Output? then [items[0].payload] + Outputs(items[1..]) else Outputs(items[1..])
    ensures Controls(items) == (if items[0].Control? then 1 else 0) + Controls(items[1..])
    ensures Overflows(items) == (if items[0].Overflow? then 1 else 0) + Overflows(items[1..])
    ensures items[0].Overflow? ==> Outputs(items[1..]) == []
  {
    var rest := items[1..];
    assert forall i :: 0 <= i < |rest| ==> rest[i] == items[i + 1];
    NoOutputItem(rest);
  }

  lemma PushOutputSound(c: Channel, payload: seq<Byte>)
    requires Sound(c)
    ensures Sound(PushOutput(c, payload))
  {
    hide Outputs, Controls, Overflows, Total, EndsAtOverflow;
    if !c.closed && !c.overflowed {
      OneMore(c.items, Overflow);
      OneMore(c.items, Output(payload));
      TotalAppend(Outputs(c.items), [payload]);
      TotalOne(payload);
    }
  }

  lemma PushControlSound(c: Channel, text: string)
    requires Sound(c)
    ensures Sound(PushControl(c, text))
  {
    hide Outputs, Controls, Overflows, Total, EndsAtOverflow;
    OneMore(c.items, Control(text));
  }

  lemma TakeSound(c: Channel)
    requires Sound(c) && c.items != []
    ensures Sound(Take(c))
  {
    hide Outputs, Controls, Overflows, Total, EndsAtOverflow;
    OneLess(c.items);
    if c.items[0].Output? {
      TotalAppend([c.items[0].payload], Outputs(c.items[1..]));
      TotalOne(c.items[0].payload);
    }
    assert c.closed ==> c.items[1..] == [];
    assert End in c.items[1..] ==> End in c.items;
  }

  lemma ShutSound(c: Channel)
    requires Sound(c)
    ensures Sound(Shut(c))
  {
    One(End);
  }

  // ------------------------------------------------------------ the history of a channel

  /** What a channel is to its browser, without counters or flags: everything it has
      queued so far, how much of that was dequeued, and how often it refused a frame. */
  datatype History = History(stream: seq<Item>, taken: nat, closed: bool, refused: nat)

  predicate IsHistory(h: History) { h.taken <= |h.stream| }

  function Waiting(h: History): seq<Item>
    requires IsHistory(h)
  {
    h.stream[h.taken..]
  }

  /** Whether an output of that size does not fit beside what is waiting. */
  predicate NoRoom(waiting: seq<Item>, limits: Limits, size: nat) {
    |Outputs(waiting)| >= limits.frames || Total(Outputs(waiting)) > limits.bytes - size
  }

  /** A frame offered to a channel: queued, refused, or the overflow. */
  function Heard(h: History, limits: Limits, item: Item): (r: History)
    requires IsHistory(h)
    ensures IsHistory(r)
  {
    if h.closed then h
    else
      match item
      case Output(payload) =>
        if Overflow in h.stream then h
        else if NoRoom(Waiting(h), limits, |payload|) then
          h.(stream := h.stream + [Overflow], refused := h.refused + 1)
        else h.(stream := h.stream + [item])
      case Control(_) =>
        if Controls(Waiting(h)) >= limits.control then h.(refused := h.refused + 1)
        else h.(stream := h.stream + [item])
      case _ => h
  }

  /** Closing drops what is waiting and leaves the end mark. */
  function Finished(h: History): (r: History)
    requires IsHistory(h)
    ensures IsHistory(r)
  {
    if h.closed then h else h.(stream := h.stream[..h.taken] + [End], closed := true)
  }

  /** The channel with its counters and flags stands for that history. */
  predicate Refines(c: Channel, h: History) {
    && IsHistory(h)
    && c.items == Waiting(h)
    && c.closed == h.closed
    && c.overflows == h.refused
    && (!h.closed ==> (c.overflowed <==> Overflow in h.stream))
    && CountersExact(c)
  }

  lemma EmptyRefines(limits: Limits)
    ensures Refines(Empty(limits), History([], 0, false, 0))
  {
  }

  lemma StreamGrows(stream: seq<Item>, taken: nat, item: Item)
    requires taken <= |stream|
    ensures (stream + [item])[taken..] == stream[taken..] + [item]
    ensures Overflow in stream + [item] <==> Overflow in stream || item == Overflow
  {
  }

  lemma CountsOfOneMore(items: seq<Item>, item: Item)
    ensures Outputs(items + [item]) == if item.Output? then Outputs(items) + [item.payload] else Outputs(items)
    ensures Controls(items + [item]) == Controls(items) + if item.Control? then 1 else 0
    ensures Total(Outputs(items + [item])) == Total(Outputs(items)) + if item.Output? then |item.payload| else 0
  {
    hide Outputs, Controls, Overflows, Total;
    One(item);
    OutputsAppend(items, [item]);
    CountsAppend(items, [item]);
    if item.Output? {
      TotalAppend(Outputs(items), [item.payload]);
      TotalOne(item.payload);
    } else {
      assert Outputs(items) + [] == Outputs(items);
    }
  }

  lemma OutputHeard(c: Channel, h: History, payload: seq<Byte>)
    requires Refines(c, h)
    ensures Refines(PushOutput(c, payload), Heard(h, c.limits, Output(payload)))
  {
    hide Outputs, Controls, Total;
    StreamGrows(h.stream, h.taken, Output(payload));
    StreamGrows(h.stream, h.taken, Overflow);
    CountsOfOneMore(c.items, Output(payload));
    CountsOfOneMore(c.items, Overflow);
  }

  lemma ControlHeard(c: Channel, h: History, text: string)
    requires Refines(c, h)
    ensures Refines(PushControl(c, text), Heard(h, c.limits, Control(text)))
    ensures ControlRefused(c) <==> h.closed || Controls(Waiting(h)) >= c.limits.control
  {
    hide Outputs, Controls, Total;
    StreamGrows(h.stream, h.taken, Control(text));
    CountsOfOneMore(c.items, Control(text));
  }

  /** A `get` returns the first item that was not dequeued yet. */
  lemma TakenFromHistory(c: Channel, h: History)
    requires Refines(c, h) && c.items != []
    ensures h.taken < |h.stream| && c.items[0] == h.stream[h.taken]
    ensures Refines(Take(c), h.(taken := h.taken + 1))
  {
    assert Waiting(h.(taken := h.taken + 1)) == c.items[1..];
    assert c.items == [c.items[0]] + c.items[1..];
    hide Outputs, Controls, Total;
    FirstCounts(c.items);
  }

  lemma FirstCounts(items: seq<Item>)
    requires items != []
    ensures Outputs(items) == (if items[0].Output? then [items[0].payload] else []) + Outputs(items[1..])
    ensures Controls(items) == (if items[0].Control? then 1 else 0) + Controls(items[1..])
    ensures Total(Outputs(items)) == (if items[0].Output? then |items[0].payload| else 0) + Total(Outputs(items[1..]))
  {
    hide Total;
    var first := if items[0].Output? then [items[0].payload] else [];
    TotalAppend(first, Outputs(items[1..]));
    if items[0].Output? {
      TotalOne(items[0].payload);
    } else {
      assert first + Outputs(items[1..]) == Outputs(items[1..]);
    }
  }

  lemma CloseFinishes(c: Channel, h: History)
    requires Refines(c, h)
    ensures Refines(Shut(c), Finished(h))
  {
    One(End);
    assert !h.closed ==> Waiting(Finished(h)) == [End];
  }

  // ------------------------------------------------------------ the class

  class BrowserChannel {
    const limits: Limits
    var items: seq<Item>
    var bytes: int
    var frames: int
    var control: int
    var overflows: nat
    var closed: bool
    var overflowed: bool

    function State(): Channel
      reads this
    {
      Channel(limits, items, bytes, frames, control, overflows, closed, overflowed)
    }

    constructor (maxBytes: nat, maxFrames: nat, maxControl: nat)
      ensures State() == Empty(Limits(maxBytes, maxFrames, maxControl))
    {
      limits := Limits(maxBytes, maxFrames, maxControl);
      items, bytes, frames, control, overflows := [], 0, 0, 0, 0;
      closed, overflowed := false, false;
    }

    method SendOutput(payload: seq<Byte>)
      modifies this
      ensures State() == PushOutput(old(State()), payload)
      ensures Sound(old(State())) ==> Sound(State())
    {
      ghost var before := State();
      if Sound(before) {
        PushOutputSound(before, payload);
      }
      if closed || overflowed {
        return;
      }
      if frames >= limits.frames || bytes + |payload| > limits.bytes {
        overflowed := true;
        overflows := overflows + 1;
        items := items + [Overflow];
        return;
      }
      bytes := bytes + |payload|;
      frames := frames + 1;
      items := items + [Output(payload)];
    }

    /** `refused` stands for QueueOverflow. */
    method SendControl(text: string) returns (refused: bool)
      modifies this
      ensures State() == PushControl(old(State()), text)
      ensures refused == ControlRefused(old(State()))
      ensures Sound(old(State())) ==> Sound(State())
    {
      ghost var before := State();
      if Sound(before) {
        PushControlSound(before, text);
      }
      if closed {
        return true;
      }
      if control >= limits.control {
        overflows := overflows + 1;
        return true;
      }
      control := control + 1;
      items := items + [Control(text)];
      refused := false;
    }

    method Get() returns (item: Item)
      requires items != []
      modifies this
      ensures item == old(items[0]) && State() == Take(old(State()))
      ensures old(Sound(State())) ==> Sound(State())
    {
      ghost var before := State();
      if Sound(before) {
        TakeSound(before);
      }
      item := items[0];
      items := items[1..];
      if item.Output? {
        bytes := bytes - |item.payload|;
        frames := frames - 1;
      } else if item.Control? {
        control := control - 1;
      }
    }

    method Close()
      modifies this
      ensures State() == Shut(old(State()))
      ensures Sound(old(State())) ==> Sound(State())
    {
      ghost var before := State();
      if Sound(before) {
        ShutSound(before);
      }
      if closed {
        return;
      }
      closed := true;
      while items != []
        invariant State() == before.(closed := true, items := items)
        decreases |items|
      {
        items := items[1..];
      }
      bytes, frames, control := 0, 0, 0;
      items := items + [End];
    }
  }
}
