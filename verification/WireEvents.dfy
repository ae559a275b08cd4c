/** Playlist events and commands as the messages that carry them. */
module WireEvents {
  import opened Bytes
  import opened Codec
  import opened Wrappers
  import M = Messages
  import R = Replication

  // Paths are bytes on the wire.  `enc` says which, and `dec` is how the other side takes
  // them; nothing is asked of the two but that they agree on the paths that are sent.

  type Path = string

  function Number(i: Int): Value {
    Single(I(i))
  }

  function PathEntry(p: Path, enc: Path -> Str): Entry {
    Entry(S(enc(p)), None)
  }

  function PathList(paths: seq<Path>, enc: Path -> Str): (es: seq<Entry>)
    ensures |es| == |paths| && forall k :: 0 <= k < |es| ==> es[k] == PathEntry(paths[k], enc)
  {
    seq(|paths|, k requires 0 <= k < |paths| => PathEntry(paths[k], enc))
  }

  function ListValue(es: seq<Entry>): Value {
    Collection(KStr, false, es)
  }

  function RenamesValue(es: seq<Entry>): Value {
    Collection(KStr, true, es)
  }

  /** The elements of a set, in some order. */
  ghost predicate ListsPaths(es: seq<Entry>, files: set<Path>, enc: Path -> Str) {
    && (forall e <- es :: exists p :: p in files && e == PathEntry(p, enc))
    && (forall p :: p in files ==> PathEntry(p, enc) in es)
  }

  function RenameEntry(p: Path, q: Path, enc: Path -> Str): Entry {
    Entry(S(enc(p)), Some(enc(q)))
  }

  ghost predicate ListsRenames(es: seq<Entry>, change: map<Path, Path>, enc: Path -> Str) {
    && (forall e <- es :: exists p :: p in change && e == RenameEntry(p, change[p], enc))
    && (forall p :: p in change ==> RenameEntry(p, change[p], enc) in es)
  }

  const LIST_EVENTS := {401, 402, 403, 404, 405, 406}

  /** The message the server writes for an event about the list, the elements of
      sets and maps in any order. */
  ghost predicate Carries(m: M.Message, e: R.Event, enc: Path -> Str) {
    match e
    case New => m == M.Message(401, [])
    case Add(paths, idx) => m.number == 402 && |m.values| == 2 && m.values[0] == ListValue(PathList(paths, enc)) && IsNumber(m.values[1], idx)
    case Del(i, n) => m.number == 403 && |m.values| == 2 && IsNumber(m.values[0], i) && IsNumber(m.values[1], n)
    case MoveItem(i, j) => m.number == 404 && |m.values| == 2 && IsNumber(m.values[0], i) && IsNumber(m.values[1], j)
    case Rm(files) => m.number == 405 && |m.values| == 1 && m.values[0] == ListValue(Entries(m.values[0])) && ListsPaths(Entries(m.values[0]), files, enc)
    case Mod(change) =>
      m.number == 406 && |m.values| == 1 && m.values[0] == RenamesValue(Entries(m.values[0])) && ListsRenames(Entries(m.values[0]), change, enc)
    case Other => m.number !in LIST_EVENTS && m.number != M.EV_DATA && M.EventKinds(m.number).Some? && M.OfKinds(m.values, M.EventKinds(m.number).value)
  }

  predicate IsNumber(v: Value, i: int) {
    v.Single? && v.v.I? && v.v.i == i
  }

  function Entries(v: Value): seq<Entry> {
    if v.Collection? then v.entries else []
  }

  /** What the client's handler takes a message for. */
  function EventOf(m: M.Message, dec: Str -> Path): R.Event {
    if m.number == 401 then R.New
    else if m.number == 402 && |m.values| == 2 then R.Add(Paths(Entries(m.values[0]), dec), NumberOf(m.values[1]))
    else if m.number == 403 && |m.values| == 2 then R.Del(NumberOf(m.values[0]), NumberOf(m.values[1]))
    else if m.number == 404 && |m.values| == 2 then R.MoveItem(NumberOf(m.values[0]), NumberOf(m.values[1]))
    else if m.number == 405 && |m.values| == 1 then R.Rm(set p <- Paths(Entries(m.values[0]), dec) :: p)
    else if m.number == 406 && |m.values| == 1 then R.Mod(Renames(Entries(m.values[0]), dec))
    else R.Other
  }

  function NumberOf(v: Value): int {
    if v.Single? && v.v.I? then v.v.i else 0
  }

  function StrOf(s: Scalar): Str {
    if s.S? then s.s else []
  }

  function Paths(es: seq<Entry>, dec: Str -> Path): (ps: seq<Path>)
    ensures |ps| == |es| && forall k :: 0 <= k < |es| ==> ps[k] == dec(StrOf(es[k].key))
  {
    seq(|es|, k requires 0 <= k < |es| => dec(StrOf(es[k].key)))
  }

  /** Pairs are put into the map one by one. */
  function Renames(es: seq<Entry>, dec: Str -> Path): map<Path, Path> {
    if es == [] then map[]
    else
      var e := es[|es| - 1];
      Renames(es[..|es| - 1], dec)[dec(StrOf(e.key)) := dec(if e.payload.Some? then e.payload.value else [])]
  }

  /** All paths that an event names, and whether the other side takes them for
      what they are. */
  function Named(e: R.Event): set<Path> {
    match e
    case Add(paths, _) => set p <- paths
    case Rm(files) => files
    case Mod(change) => change.Keys + change.Values
    case _ => {}
  }

  ghost predicate Agree(e: R.Event, enc: Path -> Str, dec: Str -> Path) {
    forall p :: p in Named(e) ==> dec(enc(p)) == p
  }

  /** The paths whose encoding a collection cannot carry: the empty one ends it. */
  ghost predicate Carriable(e: R.Event, enc: Path -> Str) {
    match e
    case Add(paths, _) => forall p <- paths :: enc(p) != []
    case Rm(files) => forall p <- files :: enc(p) != []
    case Mod(change) => forall p :: p in change ==> enc(p) != []
    case _ => true
  }

  /** The map read from entries that all are pairs of `change`. */
  lemma {:induction false} RenamesAre(es: seq<Entry>, change: map<Path, Path>, enc: Path -> Str, dec: Str -> Path)
    requires forall e <- es :: IsRename(e, change, enc) && Agrees(e, change, enc, dec)
    ensures forall p :: p in Renames(es, dec) ==> p in change && Renames(es, dec)[p] == change[p]
    ensures forall p :: p in change && dec(enc(p)) == p && RenameEntry(p, change[p], enc) in es ==> p in Renames(es, dec)
  {
    if es != [] {
      var n := |es| - 1;
      var front, e := es[..n], es[n];
      assert es == front + [e];
      RenamesAre(front, change, enc, dec);
      assert e in es;
    }
  }

  ghost predicate IsRename(e: Entry, change: map<Path, Path>, enc: Path -> Str) {
    exists p :: p in change && e == RenameEntry(p, change[p], enc)
  }

  /** A pair is read as one of the map. */
  predicate Agrees(e: Entry, change: map<Path, Path>, enc: Path -> Str, dec: Str -> Path) {
    e.payload.Some? && dec(StrOf(e.key)) in change && change[dec(StrOf(e.key))] == dec(e.payload.value)
  }

  predicate AgreeOn(p: Path, change: map<Path, Path>, enc: Path -> Str, dec: Str -> Path) {
    p in change && dec(enc(p)) == p && dec(enc(change[p])) == change[p]
  }

  lemma RenamesAgree(change: map<Path, Path>, enc: Path -> Str, dec: Str -> Path, p: Path)
    requires Agree(R.Mod(change), enc, dec) && p in change
    ensures AgreeOn(p, change, enc, dec)
  {
    assert change[p] in change.Values;
    assert p in Named(R.Mod(change)) && change[p] in Named(R.Mod(change));
  }

  lemma RenameIsRead(p: Path, change: map<Path, Path>, enc: Path -> Str, dec: Str -> Path)
    requires AgreeOn(p, change, enc, dec)
    ensures IsRename(RenameEntry(p, change[p], enc), change, enc) && Agrees(RenameEntry(p, change[p], enc), change, enc, dec)
  {
  }

  lemma ModIsRead(es: seq<Entry>, change: map<Path, Path>, enc: Path -> Str, dec: Str -> Path)
    requires ListsRenames(es, change, enc) && forall p :: p in change ==> AgreeOn(p, change, enc, dec)
    ensures Renames(es, dec) == change
  {
    forall e | e in es
      ensures IsRename(e, change, enc) && Agrees(e, change, enc, dec)
    {
      var p :| p in change && e == RenameEntry(p, change[p], enc);
      RenameIsRead(p, change, enc, dec);
    }
    RenamesAre(es, change, enc, dec);
    SameMap(Renames(es, dec), change, enc, dec);
  }

  lemma SameMap(a: map<Path, Path>, change: map<Path, Path>, enc: Path -> Str, dec: Str -> Path)
    requires forall p :: p in a ==> p in change && a[p] == change[p]
    requires forall p :: p in change ==> AgreeOn(p, change, enc, dec) && p in a
    ensures a == change
  {
  }

  /** The message for an event is read as that event, and no other. */
  lemma CarriedIsRead(m: M.Message, e: R.Event, enc: Path -> Str, dec: Str -> Path)
    requires Carries(m, e, enc) && Agree(e, enc, dec)
    ensures EventOf(m, dec) == e
  {
    match e {
      case Add(paths, _) =>
        assert forall p <- paths :: p in Named(e);
        PathsAreRead(paths, enc, dec);
      case Rm(files) => FilesAreRead(Entries(m.values[0]), files, enc, dec);
      case Mod(change) =>
        forall p | p in change ensures AgreeOn(p, change, enc, dec) { RenamesAgree(change, enc, dec, p); }
        ModIsRead(Entries(m.values[0]), change, enc, dec);
      case _ =>
    }
  }

  lemma FilesAreRead(es: seq<Entry>, files: set<Path>, enc: Path -> Str, dec: Str -> Path)
    requires ListsPaths(es, files, enc) && forall p :: p in files ==> dec(enc(p)) == p
    ensures (set p <- Paths(es, dec) :: p) == files
  {
    var ps := Paths(es, dec);
    forall p | p in files
      ensures p in ps
    {
      var k :| 0 <= k < |es| && es[k] == PathEntry(p, enc);
      assert ps[k] == p;
    }
    forall p | p in ps
      ensures p in files
    {
      var k :| 0 <= k < |ps| && ps[k] == p;
      assert es[k] in es;
    }
  }

  lemma CarriedIsTyped(m: M.Message, e: R.Event, enc: Path -> Str)
    requires Carries(m, e, enc)
    ensures m.number != M.EV_DATA && M.EventKinds(m.number).Some? && M.OfKinds(m.values, M.EventKinds(m.number).value)
    ensures !e.Other? ==> (M.AllSendable(m.values) <==> Carriable(e, enc))
  {
    match e {
      case Add(paths, _) => AddIsSendable(paths, enc);
      case Rm(files) => RmIsSendable(Entries(m.values[0]), files, enc);
      case Mod(change) => ModIsSendable(Entries(m.values[0]), change, enc);
      case _ =>
    }
    assert |m.values| == 2 ==> m.values == [m.values[0], m.values[1]];
    assert |m.values| == 1 ==> m.values == [m.values[0]];
  }

  lemma AddIsSendable(paths: seq<Path>, enc: Path -> Str)
    ensures WellTyped(ListValue(PathList(paths, enc)))
    ensures Sendable(ListValue(PathList(paths, enc))) <==> forall p <- paths :: enc(p) != []
  {
    var es := PathList(paths, enc);
    forall p | p in paths
      ensures PathEntry(p, enc) in es
    {
      var k :| 0 <= k < |paths| && paths[k] == p;
      assert es[k] == PathEntry(p, enc);
    }
    assert forall p <- paths :: PathEntry(p, enc).key == Stop(KStr) <==> enc(p) == [];
  }

  lemma RmIsSendable(es: seq<Entry>, files: set<Path>, enc: Path -> Str)
    requires ListsPaths(es, files, enc)
    ensures WellTyped(ListValue(es)) && (Sendable(ListValue(es)) <==> forall p <- files :: enc(p) != [])
  {
    assert forall p <- files :: PathEntry(p, enc).key == Stop(KStr) <==> enc(p) == [];
  }

  lemma ModIsSendable(es: seq<Entry>, change: map<Path, Path>, enc: Path -> Str)
    requires ListsRenames(es, change, enc)
    ensures WellTyped(RenamesValue(es)) && (Sendable(RenamesValue(es)) <==> forall p :: p in change ==> enc(p) != [])
  {
    assert forall p :: p in change ==> (RenameEntry(p, change[p], enc).key == Stop(KStr) <==> enc(p) == []);
  }

  /** An event about the list that the server writes is read by the client as that
      event, whatever follows it, exactly if no path it names is empty. */
  lemma EventArrivesIff(m: M.Message, e: R.Event, enc: Path -> Str, dec: Str -> Path, replies: seq<seq<Kind>>, rest: seq<Byte>)
    requires !e.Other? && Carries(m, e, enc) && Agree(e, enc, dec)
    ensures M.GetMessage(replies, M.PutMessage(m) + rest) == Ok(m, rest) <==> Carriable(e, enc)
    ensures EventOf(m, dec) == e
  {
    CarriedIsTyped(m, e, enc);
    CarriedIsRead(m, e, enc, dec);
    var ks := M.EventKinds(m.number).value;
    Assoc(Put(I(m.number)), M.PutValues(m.values), rest);
    ScalarRoundTrip(I(m.number), M.PutValues(m.values) + rest);
    M.ValuesRoundTrip(ks, m.values, rest);
  }

  // ----- commands

  /** The message a client writes for a command on the list. */
  predicate CarriesCommand(m: M.Message, c: R.Command, enc: Path -> Str) {
    match c
    case AddItems(paths, idx) => m.number == 3002 && |m.values| == 2 && m.values[0] == ListValue(PathList(paths, enc)) && IsNumber(m.values[1], idx)
    case DelItems(i, n) => m.number == 3003 && |m.values| == 2 && IsNumber(m.values[0], i) && IsNumber(m.values[1], n)
    case MoveItems(i, j) => m.number == 3004 && |m.values| == 2 && IsNumber(m.values[0], i) && IsNumber(m.values[1], j)
    case GetList => m == M.Message(3001, [])
    case _ => false
  }

  /** What the server takes it for. */
  function CommandOf(m: M.Message, dec: Str -> Path): R.Command {
    if m.number == 3002 && |m.values| == 2 then R.AddItems(Paths(Entries(m.values[0]), dec), NumberOf(m.values[1]))
    else if m.number == 3003 && |m.values| == 2 then R.DelItems(NumberOf(m.values[0]), NumberOf(m.values[1]))
    else if m.number == 3004 && |m.values| == 2 then R.MoveItems(NumberOf(m.values[0]), NumberOf(m.values[1]))
    else if m.number == 3001 then R.GetList
    else R.NoListCommand
  }

  /** An edit that a synced client sends is read by the server as that edit,
      whatever follows it, exactly if no path in it is empty. */
  lemma CommandArrivesIff(m: M.Message, c: R.Command, enc: Path -> Str, dec: Str -> Path, rest: seq<Byte>)
    requires CarriesCommand(m, c, enc) && (c.AddItems? ==> forall p <- c.paths :: dec(enc(p)) == p)
    ensures M.GetCommand(M.PutMessage(m) + rest) == Ok(m, rest) <==> (c.AddItems? ==> forall p <- c.paths :: enc(p) != [])
    ensures CommandOf(m, dec) == c
  {
    if c.AddItems? {
      AddIsSendable(c.paths, enc);
      PathsAreRead(c.paths, enc, dec);
    }
    assert |m.values| == 2 ==> m.values == [m.values[0], m.values[1]];
    CommandReads(m, rest);
  }

  lemma PathsAreRead(paths: seq<Path>, enc: Path -> Str, dec: Str -> Path)
    requires forall p <- paths :: dec(enc(p)) == p
    ensures Paths(PathList(paths, enc), dec) == paths
  {
    var ps := Paths(PathList(paths, enc), dec);
    assert forall k :: 0 <= k < |paths| ==> paths[k] in paths && ps[k] == paths[k];
  }

  lemma CommandReads(m: M.Message, rest: seq<Byte>)
    requires m.number != M.CMD_PLAY && M.CommandKinds(m.number).Some? && M.OfKinds(m.values, M.CommandKinds(m.number).value)
    ensures M.GetCommand(M.PutMessage(m) + rest) == Ok(m, rest) <==> M.AllSendable(m.values)
  {
    Assoc(Put(I(m.number)), M.PutValues(m.values), rest);
    ScalarRoundTrip(I(m.number), M.PutValues(m.values) + rest);
    M.ValuesRoundTrip(M.CommandKinds(m.number).value, m.values, rest);
  }
}
