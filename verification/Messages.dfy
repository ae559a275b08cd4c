/** Events and commands of the protocol (server/protocol.h). */
module Messages {
  import opened Bytes
  import opened Codec
  import opened Wrappers

  // Their numbers, what follows each number, and how a stream of them is read.

  datatype Message = Message(number: Int, values: seq<Value>)

  const EV_DATA: Int := 301
  const CMD_PLAY: Int := 2001

  const INT := One(KInt)
  const STR := One(KStr)
  const LIST := Many(KStr, false)
  const RENAMES := Many(KStr, true)

  /** What follows an event, for those the client knows; EV_PONG is not among
      them.  Neither is EV_DATA: what follows it depends on the request that it
      answers. */
  function EventKinds(number: int): Option<seq<Kind>> {
    if number in {102, 103, 401, 501} then Some([])  // BUSY EXIT, PLIST_NEW, STATE
    else if number in {201, 202} then Some([STR])  // SRV_ERROR, STATUS_MSG
    else if number == 302 then Some([STR, Tags])  // FILE_TAGS
    else if number == 303 then Some([STR, INT])  // FILE_RATING
    else if number == 402 then Some([LIST, INT])  // PLIST_ADD
    else if number in {403, 404} then Some([INT, INT])  // PLIST_DEL, PLIST_MOVE
    else if number == 405 then Some([LIST])  // PLIST_RM
    else if number == 406 then Some([RENAMES])  // PLIST_MOD
    else if 502 <= number <= 507 then Some([INT])  // CTIME BITRATE RATE CHANNELS OPTIONS AVG_BITRATE
    else if number == 508 then Some([STR, INT])  // MIXER_CHANGE
    else None
  }

  /** What follows a command other than CMD_PLAY. */
  function CommandKinds(number: int): Option<seq<Kind>> {
    if 1001 <= number <= 1003 || 2002 <= number <= 2006 then Some([])  // PING QUIT DISCONNECT, STOP to PREV
    else if number in {2007, 2008, 4008, 5003} then Some([INT])  // SEEK JUMP_TO, SET_MIXER, OPTION_REPEAT
    else if number == 3002 then Some([LIST, INT])  // PLIST_ADD
    else if number in {3003, 3004} then Some([INT, INT])  // PLIST_DEL PLIST_MOVE
    else if number == 3005 then Some([STR])  // GET_FILE_TAGS
    else if number == 3006 then Some([STR, Changes])  // SET_FILE_TAGS
    else if number == 3007 then Some([STR, INT])  // SET_RATING
    else if number == 3008 then Some([LIST])  // FILES_RM
    else if number == 3009 then Some([LIST, STR])  // FILES_MV
    else if number == 3010 then Some([STR, STR])  // FILES_RENAME
    else if number == 5002 then Some([One(KBool)])  // OPTION_SHUFFLE
    else if number == 3001 || 4001 <= number <= 4010 || 5001 <= number <= 5010 then Some([])  // the rest
    else None
  }

  function PutValues(vs: seq<Value>): seq<Byte> {
    if vs == [] then [] else PutValue(vs[0]) + PutValues(vs[1..])
  }

  function GetValues(ks: seq<Kind>, b: seq<Byte>): (r: Read<seq<Value>>)
    ensures r.Ok? ==> |r.rest| <= |b|
  {
    if ks == [] then Ok([], b) else
      match GetValue(ks[0], b)
      case Fail => Fail
      case Ok(v, rest) => Cons(v, GetValues(ks[1..], rest))
  }

  predicate OfKinds(vs: seq<Value>, ks: seq<Kind>) {
    |vs| == |ks| && forall k :: 0 <= k < |vs| ==> WellTyped(vs[k]) && KindOfValue(vs[k]) == ks[k]
  }

  predicate AllSendable(vs: seq<Value>) {
    forall v <- vs :: Sendable(v)
  }

  lemma ReadIsSendable(k: Kind, b: seq<Byte>)
    ensures GetValue(k, b).Ok? ==> Sendable(GetValue(k, b).value)
  {
    if k.Many? {
      NeverStop(k.key, k.paired, b);
    }
  }

  /** A row of values arrives exactly if none of them contains its end mark. */
  lemma {:induction false} ValuesRoundTrip(ks: seq<Kind>, vs: seq<Value>, rest: seq<Byte>)
    requires OfKinds(vs, ks)
    ensures GetValues(ks, PutValues(vs) + rest) == Ok(vs, rest) <==> AllSendable(vs)
  {
    if vs == [] {
      assert PutValues(vs) + rest == rest;
    } else {
      var v, tail := vs[0], vs[1..];
      assert vs == [v] + tail;
      Assoc(PutValue(v), PutValues(tail), rest);
      ValueRoundTrip(v, PutValues(tail) + rest);
      ReadIsSendable(ks[0], PutValues(vs) + rest);
      ValuesRoundTrip(ks[1..], tail, rest);
      assert AllSendable(vs) <==> Sendable(v) && AllSendable(tail);
    }
  }

  lemma {:induction false} ValuesExtends(ks: seq<Kind>, b: seq<Byte>, more: seq<Byte>)
    ensures Extends(GetValues(ks, b), more, GetValues(ks, b + more))
  {
    if ks != [] && GetValues(ks, b).Ok? {
      ValueExtends(ks[0], b, more);
      ValuesExtends(ks[1..], GetValue(ks[0], b).rest, more);
    }
  }

  // Messages, as a client reads them.

  function PutMessage(m: Message): (b: seq<Byte>)
    ensures |b| >= 1
  {
    Put(I(m.number)) + PutValues(m.values)
  }

  /** `replies` are the kinds of the answers the client still waits for. */
  function KindsNow(number: Int, replies: seq<seq<Kind>>): Option<seq<Kind>> {
    if number != EV_DATA then EventKinds(number)
    else if replies == [] then None
    else Some(replies[0])
  }

  function RepliesAfter(number: Int, replies: seq<seq<Kind>>): seq<seq<Kind>> {
    if number != EV_DATA || replies == [] then replies else replies[1..]
  }

  function GetMessage(replies: seq<seq<Kind>>, b: seq<Byte>): (r: Read<Message>)
    ensures r.Ok? ==> |r.rest| < |b|
  {
    match Get(KInt, b)
    case Fail => Fail
    case Ok(number, after) =>
      match KindsNow(number.i, replies)
      case None => Fail
      case Some(ks) =>
        match GetValues(ks, after)
        case Fail => Fail
        case Ok(vs, rest) => Ok(Message(number.i, vs), rest)
  }

  predicate Proper(m: Message, replies: seq<seq<Kind>>) {
    && KindsNow(m.number, replies).Some?
    && OfKinds(m.values, KindsNow(m.number, replies).value)
    && AllSendable(m.values)
  }

  lemma MessageRoundTrip(m: Message, replies: seq<seq<Kind>>, rest: seq<Byte>)
    requires Proper(m, replies)
    ensures GetMessage(replies, PutMessage(m) + rest) == Ok(m, rest)
  {
    Assoc(Put(I(m.number)), PutValues(m.values), rest);
    ScalarRoundTrip(I(m.number), PutValues(m.values) + rest);
    ValuesRoundTrip(KindsNow(m.number, replies).value, m.values, rest);
  }

  lemma MessageExtends(replies: seq<seq<Kind>>, b: seq<Byte>, more: seq<Byte>)
    ensures Extends(GetMessage(replies, b), more, GetMessage(replies, b + more))
  {
    if GetMessage(replies, b).Ok? {
      ScalarExtends(KInt, b, more);
      var number, after := Get(KInt, b).value.i, Get(KInt, b).rest;
      ValuesExtends(KindsNow(number, replies).value, after, more);
    }
  }

  lemma CutReadFails(replies: seq<seq<Kind>>, part: seq<Byte>, more: seq<Byte>)
    requires GetMessage(replies, part + more).Ok? && GetMessage(replies, part + more).rest == []
    requires more != []
    ensures GetMessage(replies, part) == Fail
  {
    if GetMessage(replies, part).Ok? {
      MessageExtends(replies, part, more);
    }
  }

  /** A message cut short is never taken for a whole one. */
  lemma CutMessageFails(m: Message, replies: seq<seq<Kind>>, n: nat)
    requires Proper(m, replies) && n < |PutMessage(m)|
    ensures GetMessage(replies, PutMessage(m)[..n]) == Fail
  {
    var b := PutMessage(m);
    MessageRoundTrip(m, replies, []);
    assert b + [] == b == b[..n] + b[n..];
    CutReadFails(replies, b[..n], b[n..]);
  }

  // The stream.

  function PutStream(ms: seq<Message>): seq<Byte> {
    if ms == [] then [] else PutMessage(ms[0]) + PutStream(ms[1..])
  }

  /** Reading messages for as long as whole ones can be read: they, and the bytes
      left over. */
  function GetStream(replies: seq<seq<Kind>>, b: seq<Byte>): (seq<Message>, seq<Byte>)
    decreases |b|
  {
    match GetMessage(replies, b)
    case Fail => ([], b)
    case Ok(m, rest) =>
      var (ms, left) := GetStream(RepliesAfter(m.number, replies), rest);
      ([m] + ms, left)
  }

  /** Every message is readable where it stands in the stream. */
  predicate ProperStream(ms: seq<Message>, replies: seq<seq<Kind>>) {
    ms == [] || (Proper(ms[0], replies) && ProperStream(ms[1..], RepliesAfter(ms[0].number, replies)))
  }

  function RepliesLeft(ms: seq<Message>, replies: seq<seq<Kind>>): seq<seq<Kind>> {
    if ms == [] then replies else RepliesLeft(ms[1..], RepliesAfter(ms[0].number, replies))
  }

  lemma {:induction false} StreamRoundTrip(ms: seq<Message>, replies: seq<seq<Kind>>, tail: seq<Byte>)
    requires ProperStream(ms, replies)
    requires GetMessage(RepliesLeft(ms, replies), tail).Fail?
    ensures GetStream(replies, PutStream(ms) + tail) == (ms, tail)
  {
    if ms == [] {
      assert PutStream(ms) + tail == tail;
    } else {
      Assoc(PutMessage(ms[0]), PutStream(ms[1..]), tail);
      MessageRoundTrip(ms[0], replies, PutStream(ms[1..]) + tail);
      StreamRoundTrip(ms[1..], RepliesAfter(ms[0].number, replies), tail);
      assert ms == [ms[0]] + ms[1..];
    }
  }

  /** Two streams of proper messages with the same bytes are the same. */
  lemma StreamsAreUnique(ms: seq<Message>, ns: seq<Message>, replies: seq<seq<Kind>>)
    ensures ProperStream(ms, replies) && ProperStream(ns, replies) ==> (PutStream(ms) == PutStream(ns) <==> ms == ns)
  {
    if ProperStream(ms, replies) && ProperStream(ns, replies) && PutStream(ms) == PutStream(ns) {
      StreamRoundTrip(ms, replies, []);
      StreamRoundTrip(ns, replies, []);
      assert PutStream(ms) + [] == PutStream(ms);
    }
  }

  lemma {:induction false} PutStreamLast(ms: seq<Message>, m: Message)
    ensures PutStream(ms + [m]) == PutStream(ms) + PutMessage(m)
  {
    if ms == [] {
      assert PutStream([m]) == PutMessage(m) + PutStream([m][1..]);
      assert ms + [m] == [m];
    } else {
      PutStreamLast(ms[1..], m);
      assert (ms + [m])[1..] == ms[1..] + [m];
      Assoc(PutMessage(ms[0]), PutStream(ms[1..]), PutMessage(m));
    }
  }

  // Commands, as the server reads them.

  function GetCommand(b: seq<Byte>): (r: Read<Message>) {
    match Get(KInt, b)
    case Fail => Fail
    case Ok(number, after) =>
      if number.i == CMD_PLAY then GetPlay(after) else
        match CommandKinds(number.i)
        case None => Fail
        case Some(ks) =>
          match GetValues(ks, after)
          case Fail => Fail
          case Ok(vs, rest) => Ok(Message(number.i, vs), rest)
  }

  /** An index and a path; after an index other than -1 and a path that is not
      empty, the path is the first one of a list, whose other paths follow. */
  function GetPlay(b: seq<Byte>): (r: Read<Message>) {
    match Get(KInt, b)
    case Fail => Fail
    case Ok(idx, after) =>
      match Get(KStr, after)
      case Fail => Fail
      case Ok(path, next) =>
        if idx.i == -1 || path.s == [] then Ok(Message(CMD_PLAY, [Single(idx), Single(path)]), next) else
          match GetMany(KStr, false, next)
          case Fail => Fail
          case Ok(es, rest) =>
            Ok(Message(CMD_PLAY, [Single(idx), Collection(KStr, false, [Entry(path, None)] + es)]), rest)
  }

  lemma CommandRoundTrip(m: Message, rest: seq<Byte>)
    requires m.number != CMD_PLAY && CommandKinds(m.number).Some?
    requires OfKinds(m.values, CommandKinds(m.number).value)
    ensures GetCommand(PutMessage(m) + rest) == Ok(m, rest) <==> AllSendable(m.values)
  {
    Assoc(Put(I(m.number)), PutValues(m.values), rest);
    ScalarRoundTrip(I(m.number), PutValues(m.values) + rest);
    ValuesRoundTrip(CommandKinds(m.number).value, m.values, rest);
  }

  /** CMD_PLAY as a client sends it with its own list. */
  function PutPlay(idx: Int, list: seq<Entry>): seq<Byte> {
    Put(I(CMD_PLAY)) + (Put(I(idx)) + PutMany(KStr, list))
  }

  function PlayRead(idx: Int, list: seq<Entry>): Message {
    Message(CMD_PLAY, [Single(I(idx)), if list == [] then Single(S([])) else Collection(KStr, false, list)])
  }

  /** The server takes a CMD_PLAY with a list for what it is, and finds the next
      command behind it, exactly if the index is not -1 or the list is empty. */
  lemma PlayRoundTrip(idx: Int, list: seq<Entry>, rest: seq<Byte>)
    requires Typed(KStr, false, list) && NoStop(KStr, list)
    ensures GetCommand(PutPlay(idx, list) + rest) == Ok(PlayRead(idx, list), rest)
       <==> idx != -1 || list == []
  {
    var bytes := PutMany(KStr, list);
    Assoc(Put(I(CMD_PLAY)), Put(I(idx)) + bytes, rest);
    Assoc(Put(I(idx)), bytes, rest);
    ScalarRoundTrip(I(CMD_PLAY), Put(I(idx)) + (bytes + rest));
    ScalarRoundTrip(I(idx), bytes + rest);
    if list == [] {
      ScalarRoundTrip(S([]), rest);
      assert bytes == Put(S([]));
    } else {
      FirstPath(list, rest);
    }
  }

  /** The first path of a list, and the others behind it. */
  lemma FirstPath(list: seq<Entry>, rest: seq<Byte>)
    requires Typed(KStr, false, list) && NoStop(KStr, list) && list != []
    ensures Get(KStr, PutMany(KStr, list) + rest) == Ok(list[0].key, PutMany(KStr, list[1..]) + rest)
    ensures GetMany(KStr, false, PutMany(KStr, list[1..]) + rest) == Ok(list[1..], rest)
    ensures list[0].key.s != [] && [Entry(list[0].key, None)] + list[1..] == list
  {
    var first, others := Put(list[0].key), PutMany(KStr, list[1..]);
    Assoc(first, PutEntries(list[1..]), Put(Stop(KStr)));
    Assoc(first, others, rest);
    ScalarRoundTrip(list[0].key, others + rest);
    ManyRoundTrip(KStr, false, list[1..], rest);
  }
}
