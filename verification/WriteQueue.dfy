/** The outgoing queue of a client: `PlainUser` over TCP, `WebUser` over a websocket.
    Deliveries and completions of asynchronous writes arrive in any order. */
module WriteQueue {
  import opened Text

  /** A write that completed, and whether it succeeded. */
  datatype Done = Done(text: string, ok: bool)

  /** `posted`: calls of `on_send` the executor has not run yet, oldest first.
      `outstanding`: writes begun and not completed. `done`: completed ones, in order. */
  datatype Client =
    Client(open: bool, posted: seq<string>, queue: seq<string>, outstanding: seq<string>, done: seq<Done>)

  /** Sent: the executor runs the oldest posted `on_send`. */
  datatype Event = Deliver(msg: string) | Sent | Completed(ok: bool) | Closed

  function NewClient(): Client { Client(true, [], [], [], []) }

  function Begin(c: Client): Client {
    if |c.queue| == 0 then c else c.(outstanding := c.outstanding + [c.queue[0]])
  }

  function Complete(c: Client, ok: bool): Client
    requires |c.outstanding| > 0
  {
    c.(outstanding := c.outstanding[1..], done := c.done + [Done(c.outstanding[0], ok)])
  }

  function Line(msg: string): string { msg + "\r\n" }

  /** One event at a `PlainUser`; None is a pop of an empty queue. */
  function PlainNext(c: Client, e: Event): Option<Client> {
    match e
    case Deliver(msg) =>
      if !c.open then Some(c)
      else
        var c' := c.(queue := c.queue + [Line(msg)]);
        Some(if |c.queue| > 0 then c' else Begin(c'))
    case Completed(ok) =>
      if |c.outstanding| == 0 then Some(c)
      else
        var c' := Complete(c, ok);
        if !ok then Some(c')
        else if |c'.queue| == 0 then None
        else Some(Begin(c'.(queue := c'.queue[1..])))
    case Closed => Some(c.(open := false))
    case Sent => Some(c)
  }

  predicate IsAscii(c: char) { c as int < 128 }

  function StripUnicode(msg: string): string {
    seq(|msg|, i requires 0 <= i < |msg| => if IsAscii(msg[i]) then msg[i] else '?')
  }

  /** One event at a `WebUser`. */
  function WebNext(c: Client, e: Event): Option<Client> {
    match e
    case Deliver(msg) => Some(if c.open then c.(posted := c.posted + [StripUnicode(msg)]) else c)
    case Sent =>
      if |c.posted| == 0 then Some(c)
      else
        var c' := c.(posted := c.posted[1..], queue := c.queue + [c.posted[0]]);
        Some(if |c'.queue| > 1 then c' else Begin(c'))
    case Completed(ok) =>
      if |c.outstanding| == 0 then Some(c)
      else
        var c' := Complete(c, ok);
        if |c'.queue| == 0 then None
        else Some(Begin(c'.(queue := c'.queue[1..])))
    case Closed => Some(c.(open := false))
  }

  // ---------------------------------------------------------------- the classes

  class PlainUser {
    var open: bool
    var queue: seq<string>
    ghost var outstanding: seq<string>
    ghost var done: seq<Done>

    constructor ()
      ensures View() == NewClient()
    {
      open, queue, outstanding, done := true, [], [], [];
    }

    ghost function View(): Client
      reads this
    {
      Client(open, [], queue, outstanding, done)
    }

    /** `deliver`: a closed socket is an exception, caught on the spot. */
    method Deliver(msg: string)
      modifies this
      ensures PlainNext(old(View()), Event.Deliver(msg)) == Some(View())
    {
      if !open { return; }
      var writeInProgress := |queue| > 0;
      queue := queue + [Line(msg)];
      if writeInProgress { return; }
      DoWrite();
    }

    method DoWrite()
      modifies this
      ensures View() == Begin(old(View()))
    {
      if |queue| == 0 { return; }
      AsyncWrite(queue[0]);
    }

    /** `async_write` only starts the write. */
    method AsyncWrite(buffer: string)
      modifies this`outstanding
      ensures outstanding == old(outstanding) + [buffer]
    {
      outstanding := outstanding + [buffer];
    }

    /** The handler `do_write` leaves behind. */
    method OnWritten(ok: bool)
      requires |outstanding| > 0 && (ok ==> |queue| > 0)
      modifies this
      ensures PlainNext(old(View()), Completed(ok)) == Some(View())
    {
      outstanding, done := outstanding[1..], done + [Done(outstanding[0], ok)];
      if ok {
        queue := queue[1..];
        DoWrite();
      }
    }
  }

  class WebUser {
    var open: bool
    var queue: seq<string>
    ghost var posted: seq<string>
    ghost var outstanding: seq<string>
    ghost var done: seq<Done>

    constructor ()
      ensures View() == NewClient()
    {
      open, queue, posted, outstanding, done := true, [], [], [], [];
    }

    ghost function View(): Client
      reads this
    {
      Client(open, posted, queue, outstanding, done)
    }

    method Deliver(msg: string) returns (thrown: bool)
      modifies this
      ensures thrown == !open && WebNext(old(View()), Event.Deliver(msg)) == Some(View())
    {
      thrown := !open;
      if open { posted := posted + [StripUnicode(msg)]; }
    }

    /** The executor calls `on_send` with what was posted first. */
    method OnSend(ss: string)
      requires |posted| > 0 && ss == posted[0]
      modifies this
      ensures WebNext(old(View()), Sent) == Some(View())
    {
      posted := posted[1..];
      queue := queue + [ss];
      if |queue| > 1 { return; }
      outstanding := outstanding + [queue[0]];
    }

    /** `on_write`: on an error too, the message is dropped and the next one is written. */
    method OnWrite(ok: bool)
      requires |outstanding| > 0 && |queue| > 0
      modifies this
      ensures WebNext(old(View()), Completed(ok)) == Some(View())
    {
      outstanding, done := outstanding[1..], done + [Done(outstanding[0], ok)];
      queue := queue[1..];
      if |queue| > 0 { outstanding := outstanding + [queue[0]]; }
    }
  }

  // ---------------------------------------------------------------- runs

  function PlainRun(es: seq<Event>): Option<Client> {
    if |es| == 0 then Some(NewClient())
    else match PlainRun(es[..|es| - 1]) case None => None case Some(c) => PlainNext(c, es[|es| - 1])
  }

  function WebRun(es: seq<Event>): Option<Client> {
    if |es| == 0 then Some(NewClient())
    else match WebRun(es[..|es| - 1]) case None => None case Some(c) => WebNext(c, es[|es| - 1])
  }

  predicate StaysOpen(es: seq<Event>) { Closed !in es }

  /** The messages delivered while the socket was open, as `form` writes them. */
  function Delivered(es: seq<Event>, form: string -> string): seq<string> {
    if |es| == 0 then []
    else
      var e := es[|es| - 1];
      Delivered(es[..|es| - 1], form) + if e.Deliver? && StaysOpen(es) then [form(e.msg)] else []
  }

  /** What reached the peer. */
  function Wire(done: seq<Done>): seq<string> {
    if |done| == 0 then []
    else Wire(done[..|done| - 1]) + if done[|done| - 1].ok then [done[|done| - 1].text] else []
  }

  /** What was tried, in order. */
  function Attempted(done: seq<Done>): (r: seq<string>)
    ensures |r| == |done|
  {
    if |done| == 0 then [] else Attempted(done[..|done| - 1]) + [done[|done| - 1].text]
  }

  predicate Failed(done: seq<Done>) { exists i :: 0 <= i < |done| && !done[i].ok }

  ghost predicate PlainSafe(c: Client, delivered: seq<string>) {
    Wire(c.done) + c.queue == delivered &&
    c.outstanding == (if |c.queue| == 0 || Failed(c.done) then [] else [c.queue[0]]) &&
    (Failed(c.done) ==> |c.queue| > 0 && |Wire(c.done)| == |c.done| - 1)
  }

  /** At most one write is ever outstanding, and it is of the message at the head of the
      queue; no empty queue is popped; what reached the peer followed by the queue is what
      was delivered, in order. The first error stops the writing for good. */
  lemma {:induction false} PlainKeepsOrder(es: seq<Event>)
    ensures PlainRun(es).Some? && PlainSafe(PlainRun(es).value, Delivered(es, Line))
    ensures PlainRun(es).value.open == StaysOpen(es)
  {
    if |es| > 0 {
      hide PlainNext;
      hide PlainSafe;
      hide StaysOpen;
      var before := es[..|es| - 1];
      PlainKeepsOrder(before);
      OpenSoFar(before, es[|es| - 1]);
      assert es == before + [es[|es| - 1]];
      PlainStep(PlainRun(before).value, es[|es| - 1], Delivered(before, Line));
    }
  }

  lemma OpenSoFar(before: seq<Event>, e: Event)
    ensures StaysOpen(before + [e]) <==> StaysOpen(before) && !e.Closed?
  {}

  lemma PlainStep(c: Client, e: Event, delivered: seq<string>)
    requires PlainSafe(c, delivered)
    ensures PlainNext(c, e).Some? && PlainNext(c, e).value.open == (c.open && !e.Closed?)
    ensures PlainSafe(PlainNext(c, e).value, delivered + if e.Deliver? && c.open then [Line(e.msg)] else [])
  {
    hide Line;
    hide Wire;
    hide Failed;
    assert delivered + [] == delivered;
    match e
    case Deliver(msg) =>
      assert Wire(c.done) + (c.queue + [Line(msg)]) == delivered + [Line(msg)];
    case Completed(ok) =>
      if |c.outstanding| > 0 { PlainCompletes(c, ok, delivered); }
    case _ =>
  }

  lemma PlainCompletes(c: Client, ok: bool, delivered: seq<string>)
    requires PlainSafe(c, delivered) && |c.outstanding| > 0
    ensures PlainNext(c, Completed(ok)).Some? && PlainSafe(PlainNext(c, Completed(ok)).value, delivered)
  {
    hide Wire;
    hide Failed;
    hide Attempted;
    OneMoreDone(c.done, c.outstanding[0], ok);
    AllSucceeded(c.done);
    assert |Attempted(c.done)| == |c.done|;
    assert c.outstanding[1..] == [];
    if ok { assert Wire(c.done) + [c.queue[0]] + c.queue[1..] == delivered; }
    else { assert Wire(c.done) + [] == Wire(c.done); }
  }

  lemma OneMoreDone(done: seq<Done>, text: string, ok: bool)
    ensures var more := done + [Done(text, ok)];
            Wire(more) == Wire(done) + (if ok then [text] else []) && Attempted(more) == Attempted(done) + [text] &&
            (Failed(more) <==> Failed(done) || !ok)
  {
    hide Failed;
    var more := done + [Done(text, ok)];
    assert more[..|done|] == done;
    FailedLater(done, Done(text, ok));
  }

  lemma FailedLater(done: seq<Done>, last: Done)
    ensures Failed(done + [last]) <==> Failed(done) || !last.ok
  {
    var more := done + [last];
    assert more[|done|] == last;
    if Failed(done) {
      var i :| 0 <= i < |done| && !done[i].ok;
      assert !more[i].ok;
    }
  }

  lemma {:induction false} AllSucceeded(done: seq<Done>)
    requires !Failed(done)
    ensures Wire(done) == Attempted(done)
  {
    if |done| > 0 {
      var before := done[..|done| - 1];
      AllSucceeded(before);
      assert done[|done| - 1].ok;
    }
  }

  ghost predicate WebSafe(c: Client, delivered: seq<string>) {
    Attempted(c.done) + c.queue + c.posted == delivered &&
    c.outstanding == (if |c.queue| == 0 then [] else [c.queue[0]])
  }

  /** The same over a websocket, except that an error costs its own message only: the k-th
      write to complete is always of the k-th message delivered. */
  lemma {:induction false} WebKeepsOrder(es: seq<Event>)
    ensures WebRun(es).Some? && WebSafe(WebRun(es).value, Delivered(es, StripUnicode))
    ensures WebRun(es).value.open == StaysOpen(es)
  {
    if |es| > 0 {
      hide WebNext;
      hide WebSafe;
      hide StaysOpen;
      var before := es[..|es| - 1];
      WebKeepsOrder(before);
      OpenSoFar(before, es[|es| - 1]);
      assert es == before + [es[|es| - 1]];
      WebStep(WebRun(before).value, es[|es| - 1], Delivered(before, StripUnicode));
    }
  }

  lemma WebStep(c: Client, e: Event, delivered: seq<string>)
    requires WebSafe(c, delivered)
    ensures WebNext(c, e).Some? && WebNext(c, e).value.open == (c.open && !e.Closed?)
    ensures WebSafe(WebNext(c, e).value, delivered + if e.Deliver? && c.open then [StripUnicode(e.msg)] else [])
  {
    hide StripUnicode;
    hide Attempted;
    assert delivered + [] == delivered;
    match e
    case Deliver(msg) =>
      assert Attempted(c.done) + c.queue + (c.posted + [StripUnicode(msg)]) == delivered + [StripUnicode(msg)];
    case Sent =>
      if |c.posted| > 0 {
        assert Attempted(c.done) + (c.queue + [c.posted[0]]) + c.posted[1..] == delivered;
      }
    case Completed(ok) =>
      if |c.outstanding| > 0 {
        OneMoreDone(c.done, c.outstanding[0], ok);
        assert Attempted(c.done) + [c.queue[0]] + c.queue[1..] + c.posted == delivered;
      }
    case _ =>
  }

  lemma {:induction false} WireCount(done: seq<Done>)
    ensures |Wire(done)| <= |done|
    ensures Failed(done) ==> |Wire(done)| < |done|
  {
    if |done| > 0 {
      var before, last := done[..|done| - 1], done[|done| - 1];
      WireCount(before);
      assert done == before + [last];
      FailedLater(before, last);
      hide Failed;
    }
  }

  /** A TCP client has received everything exactly when no write failed and none is under
      way: no message is ever forgotten in the queue. */
  lemma PlainAllWritten(es: seq<Event>)
    requires PlainRun(es).Some?
    ensures var c := PlainRun(es).value;
            Wire(c.done) == Delivered(es, Line) <==> !Failed(c.done) && |c.outstanding| == 0
  {
    hide PlainRun;
    hide Wire;
    hide Delivered;
    hide Failed;
    PlainKeepsOrder(es);
    var c := PlainRun(es).value;
    assert |Wire(c.done) + c.queue| == |Wire(c.done)| + |c.queue|;
    if |c.queue| == 0 { assert Wire(c.done) + c.queue == Wire(c.done); }
  }

  /** For a websocket client nothing may be waiting for the executor either. */
  lemma WebAllWritten(es: seq<Event>)
    requires WebRun(es).Some?
    ensures var c := WebRun(es).value;
            Wire(c.done) == Delivered(es, StripUnicode) <==> !Failed(c.done) && |c.outstanding| == 0 && |c.posted| == 0
  {
    hide WebRun;
    hide Wire;
    hide Delivered;
    hide Failed;
    WebKeepsOrder(es);
    var c := WebRun(es).value;
    WireCount(c.done);
    if !Failed(c.done) { AllSucceeded(c.done); }
    assert |Attempted(c.done) + c.queue + c.posted| == |c.done| + |c.queue| + |c.posted|;
    if |c.queue| == 0 && |c.posted| == 0 { assert Attempted(c.done) + c.queue + c.posted == Attempted(c.done); }
  }

  /** Until the first error a websocket client too has received exactly a prefix of what was
      delivered, and with everything completed, all of it. */
  lemma WebWithoutErrors(es: seq<Event>)
    requires WebRun(es).Some? && !Failed(WebRun(es).value.done)
    ensures var c := WebRun(es).value;
            Wire(c.done) + c.queue + c.posted == Delivered(es, StripUnicode)
  {
    WebKeepsOrder(es);
    AllSucceeded(WebRun(es).value.done);
  }

  // ---------------------------------------------------------------- the text on the wire

  /** What a message is on the wire of a TCP client: the message and the codes 13 and 10. */
  lemma LineIs(msg: string)
    ensures var t := Line(msg);
            |t| == |msg| + 2 && t[..|msg|] == msg && t[|msg|] as int == 13 && t[|msg| + 1] as int == 10
  {}

  /** And on that of a websocket client: the codes from 128 on are question marks, code 63. */
  lemma StripIs(msg: string, i: nat)
    requires i < |msg|
    ensures |StripUnicode(msg)| == |msg|
    ensures StripUnicode(msg)[i] as int == if 128 <= msg[i] as int then 63 else msg[i] as int
  {}
}
