/** Packets, guards and the byte stream of a connection. */
module Framing {
  import opened Bytes
  import opened Codec
  import opened Messages
  import opened Wrappers

  /** One end of a connection: nesting depth of buffering, the buffer, the queue
      of packets, and all bytes that were given to the connection so far. */
  datatype State = State(buffering: nat, buf: seq<Byte>, packets: seq<seq<Byte>>, wire: seq<Byte>)

  predicate Valid(st: State) {
    st.buffering == 0 ==> st.buf == []
  }

  const FRESH := State(0, [], [], [])

  function Out(st: State, data: seq<Byte>): State {
    if st.buffering > 0 then st.(buf := st.buf + data) else st.(wire := st.wire + data)
  }

  function Opened(st: State): State {
    st.(buffering := st.buffering + 1)
  }

  function Flushed(st: State): State
    requires st.buffering > 0
  {
    if st.buffering > 1 then st.(buffering := st.buffering - 1)
    else State(0, [], st.packets, st.wire + st.buf)
  }

  function RolledBack(st: State, n0: nat): State
    requires st.buffering > 0 && n0 <= |st.buf|
  {
    st.(buffering := st.buffering - 1, buf := st.buf[..n0])
  }

  function Finished(st: State): State
    requires st.buffering == 1
  {
    State(0, [], if st.buf == [] then st.packets else st.packets + [st.buf], st.wire)
  }

  /** What the code that composes a message does with a socket: plain sends, and
      the scopes of guards, whose body either runs to its end or is left early. */
  datatype Act = Raw(data: seq<Byte>) | Guard(body: seq<Act>, done: bool)

  function Exec(st: State, act: Act): (after: State)
    ensures after.buffering == st.buffering
    ensures st.buffering > 0 ==> |after.buf| >= |st.buf|
    decreases act
  {
    match act
    case Raw(data) => Out(st, data)
    case Guard(body, done) =>
      var inner := ExecAll(Opened(st), body);
      if done then Flushed(inner) else RolledBack(inner, |st.buf|)
  }

  function ExecAll(st: State, acts: seq<Act>): (after: State)
    ensures after.buffering == st.buffering
    ensures st.buffering > 0 ==> |after.buf| >= |st.buf|
    decreases acts
  {
    if acts == [] then st else ExecAll(Exec(st, acts[0]), acts[1..])
  }

  /** The bytes that a list of acts stands for. */
  function Effect(act: Act): seq<Byte>
    decreases act
  {
    match act
    case Raw(data) => data
    case Guard(body, done) => if done then EffectAll(body) else []
  }

  function EffectAll(acts: seq<Act>): seq<Byte>
    decreases acts
  {
    if acts == [] then [] else Effect(acts[0]) + EffectAll(acts[1..])
  }

  lemma OutOut(st: State, a: seq<Byte>, b: seq<Byte>)
    ensures Out(Out(st, a), b) == Out(st, a + b)
  {
    Assoc(st.buf, a, b);
    Assoc(st.wire, a, b);
  }

  lemma OutNothing(st: State)
    ensures Out(st, []) == st
  {
    assert st.buf + [] == st.buf;
    assert st.wire + [] == st.wire;
  }

  /** Guards, however they nest, neither split nor reorder nor leak anything:
      only the bytes the acts stand for go out, in one place. */
  lemma {:induction false} GuardIsTransparent(st: State, act: Act)
    requires Valid(st)
    ensures Exec(st, act) == Out(st, Effect(act))
    decreases act
  {
    if act.Guard? {
      GuardsAreTransparent(Opened(st), act.body);
      OutNothing(st);
      assert (st.buf + EffectAll(act.body))[..|st.buf|] == st.buf;
      assert st.buffering == 0 ==> st.buf + EffectAll(act.body) == EffectAll(act.body);
    }
  }

  lemma {:induction false} GuardsAreTransparent(st: State, acts: seq<Act>)
    requires Valid(st)
    ensures ExecAll(st, acts) == Out(st, EffectAll(acts))
    decreases acts
  {
    if acts == [] {
      OutNothing(st);
    } else {
      GuardIsTransparent(st, acts[0]);
      GuardsAreTransparent(Out(st, Effect(acts[0])), acts[1..]);
      OutOut(st, Effect(acts[0]), EffectAll(acts[1..]));
    }
  }

  /** Bytes that leave a guard that is not done: none. */
  lemma LeftGuardUndoes(st: State, body: seq<Act>)
    requires Valid(st)
    ensures Exec(st, Guard(body, false)) == st
  {
    GuardIsTransparent(st, Guard(body, false));
    OutNothing(st);
  }

  // The life of a server's connection.

  /** Queueing an event; writing a reply; a queue's packet that went out whole. */
  datatype Op = Event(m: Message, acts: seq<Act>) | Reply(m: Message, acts: seq<Act>) | Transmit

  /** A message on the wire, and whether it came from the queue. */
  datatype Sent = Sent(m: Message, queued: bool)

  datatype Life = Life(st: State, sent: seq<Sent>, queue: seq<Message>)

  /** The acts compose the message, guards and all. */
  predicate Composes(acts: seq<Act>, m: Message) {
    EffectAll(acts) == PutValues(m.values)
  }

  predicate Enabled(op: Op, life: Life) {
    match op
    case Event(m, acts) => Composes(acts, m)
    case Reply(m, acts) => Composes(acts, m)
    case Transmit => life.st.packets != []
  }

  function Compose(st: State, m: Message, acts: seq<Act>): State {
    ExecAll(Out(st, Put(I(m.number))), acts)
  }

  function Do(life: Life, op: Op): Life
    requires Enabled(op, life) && Valid(life.st) && life.st.buffering == 0
    requires |life.queue| == |life.st.packets|
  {
    match op
    case Event(m, acts) =>
      Life(Finished(Compose(Opened(life.st), m, acts)), life.sent, life.queue + [m])
    case Reply(m, acts) =>
      Life(Compose(life.st, m, acts), life.sent + [Sent(m, false)], life.queue)
    case Transmit =>
      Life(life.st.(packets := life.st.packets[1..], wire := life.st.wire + life.st.packets[0]),
           life.sent + [Sent(life.queue[0], true)], life.queue[1..])
  }

  function Said(sent: seq<Sent>): seq<Message> {
    if sent == [] then [] else Said(sent[..|sent| - 1]) + [sent[|sent| - 1].m]
  }

  /** Between two operations: no buffer is open, every packet is one whole message
      and the wire is whole messages, in the order in which they were sent. */
  predicate Inv(life: Life) {
    && life.st.buffering == 0 && life.st.buf == []
    && |life.st.packets| == |life.queue|
    && (forall k :: 0 <= k < |life.queue| ==> life.st.packets[k] == PutMessage(life.queue[k]))
    && life.st.wire == PutStream(Said(life.sent))
  }

  lemma ComposeIsPut(st: State, m: Message, acts: seq<Act>)
    requires Valid(st) && Composes(acts, m)
    ensures Compose(st, m, acts) == Out(st, PutMessage(m))
  {
    GuardsAreTransparent(Out(st, Put(I(m.number))), acts);
    OutOut(st, Put(I(m.number)), PutValues(m.values));
  }

  lemma SaidMore(sent: seq<Sent>, s: Sent)
    ensures PutStream(Said(sent + [s])) == PutStream(Said(sent)) + PutMessage(s.m)
  {
    assert (sent + [s])[..|sent|] == sent;
    PutStreamLast(Said(sent), s.m);
  }

  lemma OpKeepsInv(life: Life, op: Op)
    requires Inv(life) && Enabled(op, life)
    ensures Inv(Do(life, op))
  {
    match op {
      case Event(m, acts) =>
        ComposeIsPut(Opened(life.st), m, acts);
        assert [] + PutMessage(m) == PutMessage(m);
      case Reply(m, acts) =>
        ComposeIsPut(life.st, m, acts);
        SaidMore(life.sent, Sent(m, false));
      case Transmit =>
        SaidMore(life.sent, Sent(life.queue[0], true));
    }
  }

  predicate Run(ops: seq<Op>, life: Life)
    requires Inv(life)
  {
    ops == [] || (Enabled(ops[0], life) && (OpKeepsInv(life, ops[0]); Run(ops[1..], Do(life, ops[0]))))
  }

  function After(ops: seq<Op>, life: Life): (end: Life)
    requires Inv(life) && Run(ops, life)
    ensures Inv(end)
  {
    if ops == [] then life else
      OpKeepsInv(life, ops[0]);
      After(ops[1..], Do(life, ops[0]))
  }

  /** Events of a run, in the order in which they were queued. */
  function Events(ops: seq<Op>): seq<Message> {
    if ops == [] then []
    else EventsOf(ops[0]) + Events(ops[1..])
  }

  function Replies(ops: seq<Op>): seq<Message> {
    if ops == [] then []
    else RepliesOf(ops[0]) + Replies(ops[1..])
  }

  function Only(sent: seq<Sent>, queued: bool): seq<Message> {
    if sent == [] then [] else
      Only(sent[..|sent| - 1], queued)
      + (if sent[|sent| - 1].queued == queued then [sent[|sent| - 1].m] else [])
  }

  lemma OnlyMore(sent: seq<Sent>, s: Sent, queued: bool)
    ensures Only(sent + [s], queued) == Only(sent, queued) + if s.queued == queued then [s.m] else []
  {
    assert (sent + [s])[..|sent|] == sent;
  }

  /** Events sent and events waiting. */
  function Told(life: Life): seq<Message> {
    Only(life.sent, true) + life.queue
  }

  function EventsOf(op: Op): seq<Message> {
    if op.Event? then [op.m] else []
  }

  function RepliesOf(op: Op): seq<Message> {
    if op.Reply? then [op.m] else []
  }

  lemma EventTold(sent: seq<Sent>, queue: seq<Message>, m: Message)
    ensures Only(sent, true) + (queue + [m]) == (Only(sent, true) + queue) + [m]
  {
    Assoc(Only(sent, true), queue, [m]);
  }

  lemma ReplyTold(sent: seq<Sent>, queue: seq<Message>, m: Message)
    ensures Only(sent + [Sent(m, false)], true) + queue == (Only(sent, true) + queue) + []
  {
    OnlyMore(sent, Sent(m, false), true);
  }

  lemma TransmitTold(sent: seq<Sent>, m: Message, queue: seq<Message>)
    ensures Only(sent + [Sent(m, true)], true) + queue == (Only(sent, true) + ([m] + queue)) + []
  {
    OnlyMore(sent, Sent(m, true), true);
    Assoc(Only(sent, true), [m], queue);
  }

  /** What an operation does to the log and the queue of messages. */
  lemma OpQueues(life: Life, op: Op)
    requires Inv(life) && Enabled(op, life)
    ensures op.Transmit? ==> life.queue != []
    ensures Do(life, op).sent == if op.Event? then life.sent else if op.Reply? then life.sent + [Sent(op.m, false)]
                                 else life.sent + [Sent(life.queue[0], true)]
    ensures Do(life, op).queue == if op.Event? then life.queue + [op.m] else if op.Reply? then life.queue
                                  else life.queue[1..]
  {
  }

  /** One operation: no event is lost, doubled or overtaken by another. */
  lemma OpKeepsEvents(life: Life, op: Op)
    requires Inv(life) && Enabled(op, life)
    ensures Told(Do(life, op)) == Told(life) + EventsOf(op)
  {
    OpQueues(life, op);
    var next := Do(life, op);
    ToldStep(life.sent, life.queue, op, next.sent, next.queue);
  }

  lemma ToldStep(sent: seq<Sent>, queue: seq<Message>, op: Op, sent': seq<Sent>, queue': seq<Message>)
    requires op.Transmit? ==> queue != []
    requires sent' == if op.Event? then sent else if op.Reply? then sent + [Sent(op.m, false)]
                      else sent + [Sent(queue[0], true)]
    requires queue' == if op.Event? then queue + [op.m] else if op.Reply? then queue else queue[1..]
    ensures Only(sent', true) + queue' == (Only(sent, true) + queue) + EventsOf(op)
  {
    match op {
      case Event(m, acts) => EventTold(sent, queue, m);
      case Reply(m, acts) => ReplyTold(sent, queue, m);
      case Transmit =>
        TransmitTold(sent, queue[0], queue[1..]);
        assert queue == [queue[0]] + queue[1..];
    }
  }

  lemma OpKeepsReplies(life: Life, op: Op)
    requires Inv(life) && Enabled(op, life)
    ensures Only(Do(life, op).sent, false) == Only(life.sent, false) + RepliesOf(op)
  {
    match op {
      case Event(m, acts) =>
      case Reply(m, acts) =>
        OnlyMore(life.sent, Sent(m, false), false);
      case Transmit =>
        OnlyMore(life.sent, Sent(life.queue[0], true), false);
    }
  }

  lemma {:induction false} RunKeepsOrder(ops: seq<Op>, life: Life)
    requires Inv(life) && Run(ops, life)
    ensures Told(After(ops, life)) == Told(life) + Events(ops)
    ensures Only(After(ops, life).sent, false) == Only(life.sent, false) + Replies(ops)
  {
    if ops != [] {
      var next := Do(life, ops[0]);
      OpKeepsInv(life, ops[0]);
      OpKeepsEvents(life, ops[0]);
      OpKeepsReplies(life, ops[0]);
      RunKeepsOrder(ops[1..], next);
      Assoc(Told(life), EventsOf(ops[0]), Events(ops[1..]));
      Assoc(Only(life.sent, false), RepliesOf(ops[0]), Replies(ops[1..]));
    }
  }

  const BORN := Life(FRESH, [], [])

  /** Whatever a server queues, writes and transmits, in whatever order: a client
      that reads its end of the wire finds the messages that were sent and nothing
      else; these are the replies in their order merged with the events in theirs,
      as many of them as were transmitted. */
  lemma WireDecodes(ops: seq<Op>, replies: seq<seq<Kind>>)
    requires Run(ops, BORN)
    requires ProperStream(Said(After(ops, BORN).sent), replies)
    ensures var end := After(ops, BORN);
            && GetStream(replies, end.st.wire) == (Said(end.sent), [])
            && Only(end.sent, true) + end.queue == Events(ops)
            && Only(end.sent, false) == Replies(ops)
  {
    var end := After(ops, BORN);
    assert Told(end) == Only(end.sent, true) + end.queue;
    RunKeepsOrder(ops, BORN);
    StreamRoundTrip(Said(end.sent), replies, []);
    assert end.st.wire + [] == end.st.wire;
  }

  /** The same for a connection that breaks within a packet: everything sent before
      is read, the cut packet is not. */
  lemma CutWireDecodes(ops: seq<Op>, replies: seq<seq<Kind>>, n: nat)
    requires Run(ops, BORN)
    requires var end := After(ops, BORN);
             && end.queue != [] && n < |end.st.packets[0]|
             && ProperStream(Said(end.sent), replies)
             && Proper(end.queue[0], RepliesLeft(Said(end.sent), replies))
    ensures var end := After(ops, BORN);
            GetStream(replies, end.st.wire + end.st.packets[0][..n]) == (Said(end.sent), end.st.packets[0][..n])
  {
    var end := After(ops, BORN);
    CutMessageFails(end.queue[0], RepliesLeft(Said(end.sent), replies), n);
    StreamRoundTrip(Said(end.sent), replies, end.st.packets[0][..n]);
  }
}
