/** The client's tag table (client/Util/Tags.h). */
module TagTable {
  import opened Wrappers

  // Entries counted by their users, items that point at entries, and the pending changes
  // laid over them.

  type Path = string

  datatype Field = Title | Artist | Album

  datatype Info = Info(text: map<Field, string>, track: int)

  /** A file_tags object with its reference count. */
  datatype Entry = Entry(info: Info, usage: nat)

  /** A plist_item.  Nodes of a std::map stay where they are, so a pointer to an
      entry is the key the entry was found under; it dangles if the key is gone. */
  datatype Item = Item(path: Path, ptr: Option<Path>)

  type Entries = map<Path, Entry>

  // ----- the operations

  function Connected(es: Entries, it: Item): (Entries, Item) {
    if it.ptr.Some? || it.path !in es then (es, it)
    else (es[it.path := es[it.path].(usage := es[it.path].usage + 1)], it.(ptr := Some(it.path)))
  }

  /** The usage is that of the entry pointed at; what is erased is the entry
      under the item's path. */
  function Released(es: Entries, it: Item): (Entries, Item) {
    if it.ptr.None? || it.ptr.value !in es || es[it.ptr.value].usage == 0 then (es, it)
    else
      var e := es[it.ptr.value];
      var es' := es[it.ptr.value := e.(usage := e.usage - 1)];
      (if e.usage == 1 then es' - {it.path} else es', it.(ptr := None))
  }

  /** Copying an item counts another user. */
  function Copied(es: Entries, it: Item): (Entries, Item) {
    if it.ptr.Some? && it.ptr.value in es then
      (es[it.ptr.value := es[it.ptr.value].(usage := es[it.ptr.value].usage + 1)], it)
    else (es, it)
  }

  /** Assigning an entry leaves its usage as it is. */
  function Updated(es: Entries, path: Path, info: Info): Entries {
    es[path := Entry(info, if path in es then es[path].usage else 0)]
  }

  function Swept(es: Entries): Entries {
    map p | p in es && es[p].usage != 0 :: es[p]
  }

  class Tags {
    var tags: Entries
    var requests: set<Path>
    var changes: Pending

    method Connect(it: Item) returns (it': Item)
      modifies this`tags
      ensures (tags, it') == Connected(old(tags), it)
    {
      it' := it;
      if it.ptr.Some? { return; }
      if it.path !in tags { return; }
      tags := tags[it.path := tags[it.path].(usage := tags[it.path].usage + 1)];
      it' := it.(ptr := Some(it.path));
    }

    method Release(it: Item) returns (it': Item)
      requires it.ptr.Some? ==> it.ptr.value in tags && tags[it.ptr.value].usage > 0
      modifies this
      ensures (tags, it') == Released(old(tags), it) && requests == old(requests) - {it.path}
    {
      it' := it;
      requests := requests - {it.path};
      if it.ptr.None? { return; }
      var e := tags[it.ptr.value];
      tags := tags[it.ptr.value := e.(usage := e.usage - 1)];
      if e.usage - 1 == 0 { tags := tags - {it.path}; }
      it' := it.(ptr := None);
    }

    method Update(path: Path, info: Info)
      modifies this
      ensures tags == Updated(old(tags), path, info) && requests == old(requests) - {path}
    {
      tags := tags[path := Entry(info, if path in tags then tags[path].usage else 0)];
      requests := requests - {path};
    }

    /** set_title, set_artist and set_album. */
    method ChangeText(it: Item, f: Field, val: string) returns (it': Item)
      modifies this`tags, this`changes
      ensures (tags, it') == Connected(old(tags), it)
      ensures changes == SetText(Stored(tags, it'), old(changes), it.path, f, val)
    {
      it' := Connect(it);
      var stored := Stored(tags, it');
      if stored.Some? && TextOf(stored.value, f) == val {
        if it.path !in changes { return; }
        var c := changes[it.path].(text := changes[it.path].text - {f});
        changes := changes[it.path := c];
        if NoChange(c) { changes := changes - {it.path}; }
        return;
      }
      if it.path !in changes { changes := changes[it.path := Changes(map[], None)]; }
      changes := changes[it.path := changes[it.path].(text := changes[it.path].text[f := val])];
    }

    method ChangeTrack(it: Item, val: int) returns (it': Item)
      modifies this`tags, this`changes
      ensures (tags, it') == Connected(old(tags), it)
      ensures changes == SetTrack(Stored(tags, it'), old(changes), it.path, val)
    {
      it' := Connect(it);
      var stored := Stored(tags, it');
      if stored.Some? && NonNegative(stored.value.track) == NonNegative(val) {
        if it.path !in changes { return; }
        var c := changes[it.path].(track := None);
        changes := changes[it.path := c];
        if NoChange(c) { changes := changes - {it.path}; }
        return;
      }
      if it.path !in changes { changes := changes[it.path := Changes(map[], None)]; }
      changes := changes[it.path := changes[it.path].(track := Some(NonNegative(val)))];
    }

    method RemoveUnused()
      modifies this`tags
      ensures tags == Swept(old(tags))
    {
      var todo := tags.Keys;
      while todo != {}
        invariant todo <= old(tags).Keys
        invariant tags == map p | p in old(tags) && (p in todo || old(tags)[p].usage != 0) :: old(tags)[p]
        decreases todo
      {
        var p :| p in todo;
        if tags[p].usage == 0 { tags := tags - {p}; }
        todo := todo - {p};
      }
    }
  }

  // ----- runs

  datatype State = State(entries: Entries, items: map<nat, Item>)

  datatype Step =
    | NewItem(id: nat, path: Path)
    | CopyItem(id: nat, from: nat)
    | ConnectItem(id: nat)
    | ReleaseItem(id: nat)
    | DropItem(id: nat)
    | UpdateEntry(path: Path, info: Info)
    | RemoveUnusedEntries

  predicate Enabled(s: State, x: Step) {
    match x
    case NewItem(id, _) => id !in s.items
    case CopyItem(id, from) => id !in s.items && from in s.items
    case ConnectItem(id) => id in s.items
    case ReleaseItem(id) => id in s.items
    case DropItem(id) => id in s.items
    case _ => true
  }

  function Next(s: State, x: Step): State
    requires Enabled(s, x)
  {
    match x
    case NewItem(id, path) => s.(items := s.items[id := Item(path, None)])
    case CopyItem(id, from) => var (es, it) := Copied(s.entries, s.items[from]); State(es, s.items[id := it])
    case ConnectItem(id) => var (es, it) := Connected(s.entries, s.items[id]); State(es, s.items[id := it])
    case ReleaseItem(id) => var (es, it) := Released(s.entries, s.items[id]); State(es, s.items[id := it])
    case DropItem(id) => s.(items := s.items - {id})
    case UpdateEntry(path, info) => s.(entries := Updated(s.entries, path, info))
    case RemoveUnusedEntries => s.(entries := Swept(s.entries))
  }

  /** The live items that point at the entry of `p`. */
  function Users(items: map<nat, Item>, p: Path): set<nat> {
    set id | id in items && items[id].ptr == Some(p)
  }

  function Usage(s: State, p: Path): nat {
    if p in s.entries then s.entries[p].usage else 0
  }

  /** No pointer dangles, and every entry's count covers its users. */
  ghost predicate Inv(s: State) {
    && (forall id :: id in s.items && s.items[id].ptr.Some? ==>
          s.items[id].ptr.value == s.items[id].path && s.items[id].path in s.entries)
    && (forall p :: |Users(s.items, p)| <= Usage(s, p))
  }

  /** The counts are exact. */
  ghost predicate Exact(s: State) {
    forall p :: |Users(s.items, p)| == Usage(s, p)
  }

  /** A drop that the code precedes by a release. */
  predicate Careful(s: State, x: Step)
    requires Enabled(s, x)
  {
    x.DropItem? ==> s.items[x.id].ptr.None?
  }

  lemma UsersOfUpdate(items: map<nat, Item>, id: nat, it: Item, p: Path)
    ensures Users(items[id := it], p) == (if it.ptr == Some(p) then Users(items, p) + {id} else Users(items, p) - {id})
  {
  }

  lemma UsersOfDrop(items: map<nat, Item>, id: nat, p: Path)
    ensures Users(items - {id}, p) == Users(items, p) - {id}
  {
  }

  /** Exact counts imply that a pointed-at entry has a positive count. */
  lemma UserCounts(s: State, id: nat)
    requires Inv(s) && id in s.items && s.items[id].ptr.Some?
    ensures s.items[id].path in s.entries && s.entries[s.items[id].path].usage >= 1
  {
    var p := s.items[id].path;
    assert id in Users(s.items, p);
    assert |Users(s.items, p)| >= 1 by { assert {id} <= Users(s.items, p); CardSubset({id}, Users(s.items, p)); }
  }

  lemma {:induction false} CardSubset<T>(a: set<T>, b: set<T>)
    ensures a <= b ==> |a| <= |b|
  {
    if a <= b {
      assert b == a + (b - a);
    }
  }

  lemma CardChange(u: set<nat>, id: nat)
    ensures |u - {id}| == |u| - (if id in u then 1 else 0)
    ensures |u + {id}| == |u| + (if id in u then 0 else 1)
  {
    if id in u { assert u + {id} == u; } else { assert u - {id} == u; }
  }

  predicate CountFits(s: State, p: Path, exact: bool) {
    if exact then |Users(s.items, p)| == Usage(s, p) else |Users(s.items, p)| <= Usage(s, p)
  }

  lemma NewUserCounts(s: State, x: Step, p: Path, exact: bool)
    requires Inv(s) && Enabled(s, x) && (x.NewItem? || x.CopyItem? || x.ConnectItem?) && CountFits(s, p, exact)
    ensures CountFits(Next(s, x), p, exact)
  {
    UsersOfUpdate(s.items, x.id, Next(s, x).items[x.id], p);
    CardChange(Users(s.items, p), x.id);
    if x.CopyItem? && s.items[x.from].ptr.Some? { UserCounts(s, x.from); }
  }

  lemma LostUserCounts(s: State, id: nat, p: Path, exact: bool)
    requires Inv(s) && id in s.items && CountFits(s, p, exact)
    ensures CountFits(Next(s, ReleaseItem(id)), p, exact)
  {
    UsersOfUpdate(s.items, id, Next(s, ReleaseItem(id)).items[id], p);
    CardChange(Users(s.items, p), id);
    if s.items[id].ptr.Some? { UserCounts(s, id); }
  }

  lemma StepKeepsInv(s: State, x: Step)
    requires Inv(s) && Enabled(s, x)
    ensures Inv(Next(s, x))
    ensures Exact(s) && Careful(s, x) ==> Exact(Next(s, x))
  {
    var s' := Next(s, x);
    forall p
      ensures |Users(s'.items, p)| <= Usage(s', p)
      ensures Exact(s) && Careful(s, x) ==> |Users(s'.items, p)| == Usage(s', p)
    {
      match x {
        case DropItem(id) =>
          UsersOfDrop(s.items, id, p);
          CardSubset(Users(s.items, p) - {id}, Users(s.items, p));
          if s.items[id].ptr.None? { assert Users(s.items, p) - {id} == Users(s.items, p); }
        case UpdateEntry(_, _) =>
        case RemoveUnusedEntries =>
        case ReleaseItem(id) => LostUserCounts(s, id, p, Exact(s));
        case _ => NewUserCounts(s, x, p, Exact(s));
      }
    }
    forall id | id in s'.items && s'.items[id].ptr.Some?
      ensures s'.items[id].ptr.value == s'.items[id].path && s'.items[id].path in s'.entries
    {
      PointerStays(s, x, id);
    }
  }

  /** An item that points somewhere after the step points at its own entry: an
      entry is erased only when its last user lets go of it. */
  lemma PointerStays(s: State, x: Step, id: nat)
    requires Inv(s) && Enabled(s, x) && id in Next(s, x).items && Next(s, x).items[id].ptr.Some?
    ensures var s' := Next(s, x); s'.items[id].ptr.value == s'.items[id].path && s'.items[id].path in s'.entries
  {
    var s' := Next(s, x);
    if x.ReleaseItem? && s.items[x.id].ptr.Some? {
      UserCounts(s, x.id);
      var p := s.items[x.id].path;
      if id != x.id && s.items[id].path == p {
        assert {id, x.id} <= Users(s.items, p);
        CardSubset({id, x.id}, Users(s.items, p));
        assert s.entries[p].usage >= 2;
      }
    } else if x.RemoveUnusedEntries? {
      UserCounts(s, id);
    } else if x.CopyItem? && s.items[x.from].ptr.Some? {
      UserCounts(s, x.from);
    }
  }

  predicate Run(s: State, steps: seq<Step>)
    decreases |steps|
  {
    steps == [] || (Enabled(s, steps[0]) && Run(Next(s, steps[0]), steps[1..]))
  }

  predicate CarefulRun(s: State, steps: seq<Step>)
    requires Run(s, steps)
    decreases |steps|
  {
    steps == [] || (Careful(s, steps[0]) && CarefulRun(Next(s, steps[0]), steps[1..]))
  }

  function After(s: State, steps: seq<Step>): State
    requires Run(s, steps)
    decreases |steps|
  {
    if steps == [] then s else After(Next(s, steps[0]), steps[1..])
  }

  /** Every run keeps what a step keeps. */
  lemma {:induction false} RunKeepsInv(s: State, steps: seq<Step>)
    requires Inv(s) && Run(s, steps)
    ensures Inv(After(s, steps))
    ensures Exact(s) && CarefulRun(s, steps) ==> Exact(After(s, steps))
    decreases |steps|
  {
    if steps != [] {
      StepKeepsInv(s, steps[0]);
      RunKeepsInv(Next(s, steps[0]), steps[1..]);
    }
  }

  const NOTHING := State(map[], map[])

  /** Over every run from the empty table no pointer dangles and every count covers
      its users; if every dropped item is released first, the counts are exact. */
  lemma NoDanglingTags(steps: seq<Step>)
    requires Run(NOTHING, steps)
    ensures var s := After(NOTHING, steps);
            && (forall id :: id in s.items && s.items[id].ptr.Some? ==> s.items[id].ptr.value in s.entries)
            && (forall p :: |Users(s.items, p)| <= Usage(s, p))
            && (CarefulRun(NOTHING, steps) ==> forall p :: |Users(s.items, p)| == Usage(s, p))
  {
    forall p: Path
      ensures Users(map[], p) == {}
    {
    }
    RunKeepsInv(NOTHING, steps);
  }

  // ----- what the operations are for

  function Stored(es: Entries, it: Item): Option<Info> {
    if it.ptr.Some? && it.ptr.value in es then Some(es[it.ptr.value].info) else None
  }

  /** Connecting points an item at the entry of its path, if there is one. */
  lemma ConnectPoints(s: State, id: nat)
    requires Inv(s) && id in s.items
    ensures var s', p := Next(s, ConnectItem(id)), s.items[id].path;
            && s'.items[id].path == p && s'.entries.Keys == s.entries.Keys
            && s'.items[id].ptr == (if p in s.entries then Some(p) else None)
            && Stored(s'.entries, s'.items[id]) == (if p in s.entries then Some(s.entries[p].info) else None)
  {
  }

  /** A copy points at the same entry and counts as another user. */
  lemma CopyShares(s: State, id: nat, from: nat)
    requires Inv(s) && id !in s.items && from in s.items
    ensures var s', p := Next(s, CopyItem(id, from)), s.items[from].path;
            && s'.items[id] == s.items[from] && Stored(s'.entries, s'.items[id]) == Stored(s.entries, s.items[from])
            && Usage(s', p) == Usage(s, p) + (if s.items[from].ptr.Some? then 1 else 0)
  {
    if s.items[from].ptr.Some? { UserCounts(s, from); }
  }

  /** Releasing lets go of the entry; with exact counts the entry is erased
      exactly if nobody else points at it, and no other entry ever. */
  lemma ReleaseErasesLast(s: State, id: nat)
    requires Inv(s) && Exact(s) && id in s.items
    ensures var s', p := Next(s, ReleaseItem(id)), s.items[id].path;
            && s'.items[id] == Item(p, None)
            && (s.items[id].ptr.Some? ==> (p in s'.entries <==> Users(s.items, p) != {id}))
            && (s.items[id].ptr.None? ==> s' == s)
            && forall q :: q != p ==> (q in s'.entries <==> q in s.entries)
  {
    if s.items[id].ptr.Some? {
      var p := s.items[id].path;
      UserCounts(s, id);
      assert id in Users(s.items, p);
      if |Users(s.items, p)| == 1 {
        assert |Users(s.items, p) - {id}| == 0;
        assert Users(s.items, p) == {id};
      }
    } else {
      assert s.items[id := s.items[id]] == s.items;
    }
  }

  /** Sweeping removes exactly the entries that nobody points at. */
  lemma SweepRemovesUnused(s: State, p: Path)
    requires Exact(s)
    ensures var es := Next(s, RemoveUnusedEntries).entries;
            && (p in es <==> p in s.entries && Users(s.items, p) != {})
            && (p in es ==> es[p] == s.entries[p])
  {
    assert |Users(s.items, p)| == Usage(s, p);
  }

  /** The tags that came last for a path, in a run. */
  function LastInfo(steps: seq<Step>, p: Path): Option<Info> {
    if steps == [] then None
    else if LastInfo(steps[1..], p).Some? then LastInfo(steps[1..], p)
    else if steps[0].UpdateEntry? && steps[0].path == p then Some(steps[0].info)
    else None
  }

  lemma EntriesKeepInfo(s: State, x: Step, p: Path)
    requires Inv(s) && Enabled(s, x) && p in Next(s, x).entries
    ensures x.UpdateEntry? && x.path == p ==> Next(s, x).entries[p].info == x.info
    ensures !(x.UpdateEntry? && x.path == p) ==> p in s.entries && Next(s, x).entries[p].info == s.entries[p].info
  {
    if x.CopyItem? && s.items[x.from].ptr.Some? { UserCounts(s, x.from); }
    if x.ReleaseItem? && s.items[x.id].ptr.Some? { UserCounts(s, x.id); }
  }

  lemma {:induction false} LatestFrom(s: State, steps: seq<Step>, p: Path)
    requires Inv(s) && Run(s, steps) && p in After(s, steps).entries
    ensures var i := After(s, steps).entries[p].info;
            if LastInfo(steps, p).Some? then LastInfo(steps, p) == Some(i) else p in s.entries && s.entries[p].info == i
    decreases |steps|
  {
    if steps != [] {
      StepKeepsInv(s, steps[0]);
      LatestFrom(Next(s, steps[0]), steps[1..], p);
      if LastInfo(steps[1..], p).None? { EntriesKeepInfo(s, steps[0], p); }
    }
  }

  /** Over every run from the empty table, what an item that points somewhere shows
      are the tags that came last for its path. */
  lemma ItemsShowLatest(steps: seq<Step>, id: nat)
    requires Run(NOTHING, steps)
    ensures var s := After(NOTHING, steps);
            id in s.items && s.items[id].ptr.Some? ==>
              LastInfo(steps, s.items[id].path).Some? && Stored(s.entries, s.items[id]) == LastInfo(steps, s.items[id].path)
  {
    forall p: Path ensures Users(map[], p) == {} {}
    RunKeepsInv(NOTHING, steps);
    var s := After(NOTHING, steps);
    if id in s.items && s.items[id].ptr.Some? { LatestFrom(NOTHING, steps, s.items[id].path); }
  }

  // ----- an item whose path is changed while it points at its entry

  predicate Dangles(s: State, id: nat) {
    id in s.items && s.items[id].ptr.Some? && s.items[id].ptr.value !in s.entries
  }

  function Renamed(s: State, a: nat, q: Path): State
    requires a in s.items
  {
    s.(items := s.items[a := s.items[a].(path := q)])
  }

  /** Releasing such an item erases the entry of its new path if it was the last
      user of its own.  That leaves no pointer dangling exactly if the path is the
      same, or its entry has further users counted, or nobody uses the new path. */
  lemma RenamedReleaseIsHarmlessIff(s: State, a: nat, q: Path)
    requires Inv(s) && a in s.items && s.items[a].ptr.Some?
    ensures var p := s.items[a].path;
            (forall id :: !Dangles(Next(Renamed(s, a, q), ReleaseItem(a)), id)) <==>
              q == p || s.entries[p].usage > 1 || Users(s.items, q) == {}
  {
    var p := s.items[a].path;
    UserCounts(s, a);
    if q == p {
      assert s.items[a].(path := q) == s.items[a];
      assert Renamed(s, a, q).items == s.items;
      StepKeepsInv(s, ReleaseItem(a));
    } else {
      RenamedReleaseErases(s, a, q);
    }
  }

  lemma RenamedReleaseErases(s: State, a: nat, q: Path)
    requires Inv(s) && a in s.items && s.items[a].ptr.Some? && q != s.items[a].path
    ensures (forall id :: !Dangles(Next(Renamed(s, a, q), ReleaseItem(a)), id)) <==>
              s.entries[s.items[a].path].usage > 1 || Users(s.items, q) == {}
  {
    var p, s' := s.items[a].path, Next(Renamed(s, a, q), ReleaseItem(a));
    UserCounts(s, a);
    if s.entries[p].usage == 1 && Users(s.items, q) != {} {
      var b :| b in Users(s.items, q);
      assert Dangles(s', b);
    } else if s.entries[p].usage == 1 {
      forall id
        ensures !Dangles(s', id)
      {
        assert id in s.items && s.items[id].ptr == Some(q) ==> id in Users(s.items, q);
      }
    }
  }

  // ----- pending changes

  datatype Changes = Changes(text: map<Field, string>, track: Option<int>)

  predicate NoChange(c: Changes) {
    c.text == map[] && c.track == None
  }

  type Pending = map<Path, Changes>

  function TextOf(i: Info, f: Field): string {
    if f in i.text then i.text[f] else ""
  }

  /** What the interface shows: the pending value if there is one, else the
      stored one. */
  function GetText(stored: Option<Info>, ch: Pending, path: Path, f: Field): string {
    if path in ch && f in ch[path].text then ch[path].text[f]
    else if stored.Some? then TextOf(stored.value, f) else ""
  }

  function GetTrack(stored: Option<Info>, ch: Pending, path: Path): int {
    if path in ch && ch[path].track.Some? then ch[path].track.value
    else if stored.Some? then stored.value.track else -1
  }

  function ChangesOf(ch: Pending, path: Path): Changes {
    if path in ch then ch[path] else Changes(map[], None)
  }

  function Keep(ch: Pending, path: Path, c: Changes): Pending {
    if NoChange(c) then ch - {path} else ch[path := c]
  }

  /** A value equal to the stored one withdraws the pending change. */
  function SetText(stored: Option<Info>, ch: Pending, path: Path, f: Field, val: string): Pending {
    if stored.Some? && TextOf(stored.value, f) == val then
      if path !in ch then ch else Keep(ch, path, ch[path].(text := ch[path].text - {f}))
    else
      var c := ChangesOf(ch, path);
      ch[path := c.(text := c.text[f := val])]
  }

  function NonNegative(t: int): int {
    if t <= 0 then 0 else t
  }

  function SetTrack(stored: Option<Info>, ch: Pending, path: Path, val: int): Pending {
    if stored.Some? && NonNegative(stored.value.track) == NonNegative(val) then
      if path !in ch then ch else Keep(ch, path, ch[path].(track := None))
    else
      ch[path := ChangesOf(ch, path).(track := Some(NonNegative(val)))]
  }

  /** What is set is shown; no other field, track or file is touched; and setting
      the stored value leaves no pending change for the field. */
  lemma SetShows(stored: Option<Info>, ch: Pending, path: Path, f: Field, val: string, path': Path, f': Field, stored': Option<Info>)
    ensures var ch' := SetText(stored, ch, path, f, val);
            && GetText(stored, ch', path, f) == val
            && (path' != path || f' != f ==> (path' == path ==> stored' == stored) ==>
                  GetText(stored', ch', path', f') == GetText(stored', ch, path', f'))
            && GetTrack(stored', ch', path') == GetTrack(stored', ch, path')
            && (stored.Some? && TextOf(stored.value, f) == val ==> !(path in ch' && f in ch'[path].text))
  {
    if path in ch {
      assert f' in ch[path].text && f' != f ==> f' in ch[path].text - {f};
    }
  }

  lemma SetTrackShows(stored: Option<Info>, ch: Pending, path: Path, val: int, path': Path, f': Field, stored': Option<Info>)
    ensures var ch' := SetTrack(stored, ch, path, val);
            && NonNegative(GetTrack(stored, ch', path)) == NonNegative(val)
            && (path in ch' && ch'[path].track.Some? ==> GetTrack(stored, ch', path) == NonNegative(val))
            && (path in ch' && ch'[path].track.Some? <==> stored.None? || NonNegative(stored.value.track) != NonNegative(val))
            && GetText(stored', ch', path', f') == GetText(stored', ch, path', f')
            && (path' != path ==> GetTrack(stored', ch', path') == GetTrack(stored', ch, path'))
  {
  }

  /** A file is pending only with a change: none is ever left without one. */
  ghost predicate NoneEmpty(ch: Pending) {
    forall p :: p in ch ==> !NoChange(ch[p])
  }

  lemma NoEmptyChanges(stored: Option<Info>, ch: Pending, path: Path, f: Field, val: string, track: int)
    requires NoneEmpty(ch)
    ensures NoneEmpty(SetText(stored, ch, path, f, val)) && NoneEmpty(SetTrack(stored, ch, path, track))
  {
    var c := ChangesOf(ch, path).(text := ChangesOf(ch, path).text[f := val]);
    assert f in c.text;
  }
}
