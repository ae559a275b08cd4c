/** The values that travel between client and server, and their bytes. */
module Codec {
  import opened Bytes
  import opened Wrappers

  /** What a read gives: the value and the bytes after it, or the exception that
      ends the connection because the bytes ran out. */
  datatype Read<T> = Ok(value: T, rest: seq<Byte>) | Fail

  datatype ScalarKind = KInt | KBool | KStr
  datatype Scalar = I(i: Int) | B(b: bool) | S(s: Str)

  function KindOf(v: Scalar): ScalarKind {
    match v
    case I(_) => KInt
    case B(_) => KBool
    case S(_) => KStr
  }

  function Put(v: Scalar): (b: seq<Byte>)
    ensures |b| >= 1
  {
    match v
    case I(i) => IntFits(i); FromInt(i, 4)
    case B(b) => [if b then 1 else 0]
    case S(s) => Little(|s|, 8) + s
  }

  function Take(b: seq<Byte>, n: nat): Read<seq<Byte>> {
    if |b| < n then Fail else Ok(b[..n], b[n..])
  }

  function Get(k: ScalarKind, b: seq<Byte>): (r: Read<Scalar>)
    ensures r.Ok? ==> KindOf(r.value) == k && |r.rest| < |b|
  {
    match k
    case KInt => (
      match Take(b, 4)
      case Fail => Fail
      case Ok(x, rest) => Pow256Known(); Ok(I(ToInt(x)), rest))
    case KBool => (
      match Take(b, 1)
      case Fail => Fail
      case Ok(x, rest) => Ok(B(x[0] != 0), rest))
    case KStr => (
      match Take(b, 8)
      case Fail => Fail
      case Ok(x, after) =>
        match Take(after, Number(x))
        case Fail => Fail
        case Ok(s, rest) => LittleOfNumber(x); Pow256Known(); Ok(S(s), rest))
  }

  lemma ScalarRoundTrip(v: Scalar, rest: seq<Byte>)
    ensures Get(KindOf(v), Put(v) + rest) == Ok(v, rest)
  {
    Front(Put(v), rest);
    match v {
      case I(i) =>
        IntFits(i);
        ToIntOfFromInt(i, 4);
      case B(b) =>
      case S(s) =>
        Pow256Known();
        NumberOfLittle(|s|, 8);
        Assoc(Little(|s|, 8), s, rest);
        Front(Little(|s|, 8), s + rest);
        Front(s, rest);
    }
  }

  /** If the first read succeeded, the second one made the same of it and left
      `more` too. */
  predicate Extends<T(==)>(r: Read<T>, more: seq<Byte>, r': Read<T>) {
    r.Ok? ==> r' == Ok(r.value, r.rest + more)
  }

  lemma TakeExtends(b: seq<Byte>, n: nat, more: seq<Byte>)
    ensures Extends(Take(b, n), more, Take(b + more, n))
  {
    if n <= |b| {
      assert (b + more)[..n] == b[..n];
      assert (b + more)[n..] == b[n..] + more;
    }
  }

  /** What a read made of some bytes does not depend on the bytes after them. */
  lemma ScalarExtends(k: ScalarKind, b: seq<Byte>, more: seq<Byte>)
    ensures Extends(Get(k, b), more, Get(k, b + more))
  {
    if Get(k, b).Ok? {
      match k {
        case KInt => TakeExtends(b, 4, more);
        case KBool => TakeExtends(b, 1, more);
        case KStr =>
          TakeExtends(b, 8, more);
          TakeExtends(b[8..], Number(b[..8]), more);
      }
    }
  }

  /** The bytes themselves: lowest first, negative numbers as complements, a
      length of eight bytes in front of a string. */
  lemma ScalarBytes()
    ensures Put(I(402)) == [0x92, 1, 0, 0] && Put(I(-2)) == [0xFE, 0xFF, 0xFF, 0xFF]
    ensures Put(B(true)) == [1] && Put(B(false)) == [0]
    ensures Put(S([47, 97])) == [2, 0, 0, 0, 0, 0, 0, 0, 47, 97]
  {
    Pow256Known();
    LittleBytes4(402);
    LittleBytes4(0xFFFF_FFFE);
    LittleBytes4(2);
    assert Little(2, 8) == [2] + Little(0, 7);
    ZeroBytes(7);
  }

  lemma LittleBytes4(n: nat)
    ensures Little(n, 4) == [(n % 256) as Byte, (n / 256 % 256) as Byte, (n / 256 / 256 % 256) as Byte, (n / 256 / 256 / 256 % 256) as Byte]
  {
    var a, b, c := n / 256, n / 256 / 256, n / 256 / 256 / 256;
    assert Little(c, 1) == [(c % 256) as Byte] + Little(c / 256, 0);
    assert Little(b, 2) == [(b % 256) as Byte] + Little(c, 1);
    assert Little(a, 3) == [(a % 256) as Byte] + Little(b, 2);
  }

  lemma {:induction false} ZeroBytes(w: nat)
    ensures Little(0, w) == seq(w, _ => 0)
  {
    if w > 0 {
      ZeroBytes(w - 1);
      assert seq(w, _ => 0) == [0] + seq(w - 1, _ => 0 as Byte);
    }
  }

  // Collections: the elements, or the pairs of key and string, and a key that
  // stands for the end.

  datatype Entry = Entry(key: Scalar, payload: Option<Str>)

  function Stop(k: ScalarKind): Scalar {
    match k
    case KInt => I(-1)
    case KBool => B(false)
    case KStr => S([])
  }

  function PutEntry(e: Entry): seq<Byte> {
    match e.payload
    case None => Put(e.key)
    case Some(s) => Put(e.key) + Put(S(s))
  }

  function PutEntries(es: seq<Entry>): seq<Byte> {
    if es == [] then [] else PutEntry(es[0]) + PutEntries(es[1..])
  }

  function PutMany(k: ScalarKind, es: seq<Entry>): seq<Byte> {
    PutEntries(es) + Put(Stop(k))
  }

  function Cons<T>(x: T, r: Read<seq<T>>): Read<seq<T>> {
    match r
    case Fail => Fail
    case Ok(xs, rest) => Ok([x] + xs, rest)
  }

  function GetPayload(paired: bool, b: seq<Byte>): (r: Read<Option<Str>>)
    ensures r.Ok? ==> |r.rest| <= |b| && r.value.Some? == paired
  {
    if !paired then Ok(None, b) else
      match Get(KStr, b)
      case Fail => Fail
      case Ok(v, rest) => Ok(Some(v.s), rest)
  }

  function GetMany(k: ScalarKind, paired: bool, b: seq<Byte>): (r: Read<seq<Entry>>)
    ensures r.Ok? ==> |r.rest| < |b|
    decreases |b|
  {
    match Get(k, b)
    case Fail => Fail
    case Ok(key, after) =>
      if key == Stop(k) then Ok([], after) else
        match GetPayload(paired, after)
        case Fail => Fail
        case Ok(p, next) => Cons(Entry(key, p), GetMany(k, paired, next))
  }

  predicate Typed(k: ScalarKind, paired: bool, es: seq<Entry>) {
    forall e <- es :: KindOf(e.key) == k && e.payload.Some? == paired
  }

  predicate NoStop(k: ScalarKind, es: seq<Entry>) {
    forall e <- es :: e.key != Stop(k)
  }

  lemma EntryRoundTrip(k: ScalarKind, paired: bool, e: Entry, rest: seq<Byte>)
    requires KindOf(e.key) == k && e.payload.Some? == paired
    ensures GetMany(k, paired, PutEntry(e) + rest) ==
            if e.key == Stop(k) then Ok([], PutEntry(e)[|Put(e.key)|..] + rest)
            else Cons(e, GetMany(k, paired, rest))
  {
    match e.payload {
      case None =>
        ScalarRoundTrip(e.key, rest);
        assert PutEntry(e)[|Put(e.key)|..] == [];
      case Some(s) =>
        Assoc(Put(e.key), Put(S(s)), rest);
        ScalarRoundTrip(e.key, Put(S(s)) + rest);
        ScalarRoundTrip(S(s), rest);
        Front(Put(e.key), Put(S(s)));
    }
  }

  /** A collection arrives whole, and nothing after it is read, exactly if the
      key that marks the end is not one of its own. */
  lemma {:induction false} ManyRoundTrip(k: ScalarKind, paired: bool, es: seq<Entry>, rest: seq<Byte>)
    requires Typed(k, paired, es)
    ensures GetMany(k, paired, PutMany(k, es) + rest) == Ok(es, rest) <==> NoStop(k, es)
  {
    if es == [] {
      assert PutMany(k, es) == Put(Stop(k));
      ScalarRoundTrip(Stop(k), rest);
    } else {
      var e, tail := es[0], es[1..];
      assert es == [e] + tail;
      ManyRoundTrip(k, paired, tail, rest);
      Assoc(PutEntry(e), PutEntries(tail), Put(Stop(k)));
      Assoc(PutEntry(e), PutMany(k, tail), rest);
      EntryRoundTrip(k, paired, e, PutMany(k, tail) + rest);
      assert NoStop(k, es) <==> e.key != Stop(k) && NoStop(k, tail);
    }
  }

  lemma {:induction false} ManyExtends(k: ScalarKind, paired: bool, b: seq<Byte>, more: seq<Byte>)
    ensures Extends(GetMany(k, paired, b), more, GetMany(k, paired, b + more))
    decreases |b|
  {
    if GetMany(k, paired, b).Ok? {
      ScalarExtends(k, b, more);
      var key, after := Get(k, b).value, Get(k, b).rest;
      if key != Stop(k) {
        if paired {
          ScalarExtends(KStr, after, more);
        }
        ManyExtends(k, paired, GetPayload(paired, after).rest, more);
      }
    }
  }

  // The file_tags and tag_changes records, both optional.

  datatype FileTags = FileTags(title: Str, artist: Str, album: Str, track: Int, time: Int, rating: Int)
  datatype TagChanges =
    TagChanges(title: Option<Str>, artist: Option<Str>, album: Option<Str>, track: Option<Int>)

  function PutAll(vs: seq<Scalar>): seq<Byte> {
    if vs == [] then [] else Put(vs[0]) + PutAll(vs[1..])
  }

  function KindsOf(vs: seq<Scalar>): (ks: seq<ScalarKind>)
    ensures |ks| == |vs|
  {
    if vs == [] then [] else [KindOf(vs[0])] + KindsOf(vs[1..])
  }

  function GetAll(ks: seq<ScalarKind>, b: seq<Byte>): (r: Read<seq<Scalar>>)
    ensures r.Ok? ==> |r.rest| <= |b| && KindsOf(r.value) == ks
  {
    if ks == [] then Ok([], b) else
      match Get(ks[0], b)
      case Fail => Fail
      case Ok(v, rest) => Cons(v, GetAll(ks[1..], rest))
  }

  lemma {:induction false} AllRoundTrip(vs: seq<Scalar>, rest: seq<Byte>)
    ensures GetAll(KindsOf(vs), PutAll(vs) + rest) == Ok(vs, rest)
  {
    if vs == [] {
      assert PutAll(vs) + rest == rest;
    } else {
      Assoc(Put(vs[0]), PutAll(vs[1..]), rest);
      ScalarRoundTrip(vs[0], PutAll(vs[1..]) + rest);
      AllRoundTrip(vs[1..], rest);
      assert KindsOf(vs)[1..] == KindsOf(vs[1..]);
      assert vs == [vs[0]] + vs[1..];
    }
  }

  lemma {:induction false} AllExtends(ks: seq<ScalarKind>, b: seq<Byte>, more: seq<Byte>)
    ensures Extends(GetAll(ks, b), more, GetAll(ks, b + more))
  {
    if ks != [] && GetAll(ks, b).Ok? {
      ScalarExtends(ks[0], b, more);
      AllExtends(ks[1..], Get(ks[0], b).rest, more);
    }
  }

  function TagFields(t: FileTags): seq<Scalar> {
    [S(t.title), S(t.artist), S(t.album), I(t.track), I(t.time), I(t.rating)]
  }

  const TAG_KINDS := [KStr, KStr, KStr, KInt, KInt, KInt]

  function PutTags(tags: Option<FileTags>): (b: seq<Byte>)
    ensures |b| >= 1
  {
    match tags
    case None => Put(B(false))
    case Some(t) => Put(B(true)) + PutAll(TagFields(t))
  }

  function GetTags(b: seq<Byte>): (r: Read<Option<FileTags>>)
    ensures r.Ok? ==> |r.rest| < |b|
  {
    match Get(KBool, b)
    case Fail => Fail
    case Ok(present, after) =>
      if !present.b then Ok(None, after) else
        match GetAll(TAG_KINDS, after)
        case Fail => Fail
        case Ok(f, rest) =>
          FieldKinds(f);
          Ok(Some(FileTags(f[0].s, f[1].s, f[2].s, f[3].i, f[4].i, f[5].i)), rest)
  }

  lemma FieldKinds(f: seq<Scalar>)
    ensures forall k :: 0 <= k < |f| ==> KindsOf(f)[k] == KindOf(f[k])
  {
    if f != [] {
      FieldKinds(f[1..]);
    }
  }

  lemma TagsRoundTrip(tags: Option<FileTags>, rest: seq<Byte>)
    ensures GetTags(PutTags(tags) + rest) == Ok(tags, rest)
  {
    match tags {
      case None => ScalarRoundTrip(B(false), rest);
      case Some(t) =>
        var fields := TagFields(t);
        Assoc(Put(B(true)), PutAll(fields), rest);
        ScalarRoundTrip(B(true), PutAll(fields) + rest);
        AllRoundTrip(fields, rest);
        FieldKinds(fields);
        assert KindsOf(fields) == TAG_KINDS;
    }
  }

  lemma TagsExtends(b: seq<Byte>, more: seq<Byte>)
    ensures Extends(GetTags(b), more, GetTags(b + more))
  {
    if GetTags(b).Ok? {
      ScalarExtends(KBool, b, more);
      if Get(KBool, b).value.b {
        AllExtends(TAG_KINDS, Get(KBool, b).rest, more);
      }
    }
  }

  function PutOptional(o: Option<Scalar>): seq<Byte> {
    match o
    case None => Put(B(false))
    case Some(v) => Put(B(true)) + Put(v)
  }

  function GetOptional(k: ScalarKind, b: seq<Byte>): (r: Read<Option<Scalar>>)
    ensures r.Ok? ==> |r.rest| < |b|
    ensures r.Ok? ==> OfKind(r.value, k)
  {
    match Get(KBool, b)
    case Fail => Fail
    case Ok(present, after) =>
      if !present.b then Ok(None, after) else
        match Get(k, after)
        case Fail => Fail
        case Ok(v, rest) => Ok(Some(v), rest)
  }

  lemma OptionalRoundTrip(k: ScalarKind, o: Option<Scalar>, rest: seq<Byte>)
    requires OfKind(o, k)
    ensures GetOptional(k, PutOptional(o) + rest) == Ok(o, rest)
  {
    match o {
      case None => ScalarRoundTrip(B(false), rest);
      case Some(v) =>
        Assoc(Put(B(true)), Put(v), rest);
        ScalarRoundTrip(B(true), Put(v) + rest);
        ScalarRoundTrip(v, rest);
    }
  }

  lemma OptionalExtends(k: ScalarKind, b: seq<Byte>, more: seq<Byte>)
    ensures Extends(GetOptional(k, b), more, GetOptional(k, b + more))
  {
    if GetOptional(k, b).Ok? {
      ScalarExtends(KBool, b, more);
      if Get(KBool, b).value.b {
        ScalarExtends(k, Get(KBool, b).rest, more);
      }
    }
  }

  function AsStr(s: Option<Str>): Option<Scalar> {
    if s.None? then None else Some(S(s.value))
  }

  function AsInt(i: Option<Int>): Option<Scalar> {
    if i.None? then None else Some(I(i.value))
  }

  function OfStr(o: Option<Scalar>): Option<Str>
    requires o.Some? ==> o.value.S?
  {
    if o.None? then None else Some(o.value.s)
  }

  function OfInt(o: Option<Scalar>): Option<Int>
    requires o.Some? ==> o.value.I?
  {
    if o.None? then None else Some(o.value.i)
  }

  function ChangeFields(c: TagChanges): seq<Option<Scalar>> {
    [AsStr(c.title), AsStr(c.artist), AsStr(c.album), AsInt(c.track)]
  }

  const CHANGE_KINDS := [KStr, KStr, KStr, KInt]

  predicate OfKind(o: Option<Scalar>, k: ScalarKind) {
    o.Some? ==> KindOf(o.value) == k
  }

  predicate OfKinds(os: seq<Option<Scalar>>, ks: seq<ScalarKind>) {
    |os| == |ks| && forall k :: 0 <= k < |os| ==> OfKind(os[k], ks[k])
  }

  function PutOptionals(os: seq<Option<Scalar>>): seq<Byte> {
    if os == [] then [] else PutOptional(os[0]) + PutOptionals(os[1..])
  }

  function GetOptionals(ks: seq<ScalarKind>, b: seq<Byte>): (r: Read<seq<Option<Scalar>>>)
    ensures r.Ok? ==> |r.rest| <= |b| && OfKinds(r.value, ks)
  {
    if ks == [] then Ok([], b) else
      match GetOptional(ks[0], b)
      case Fail => Fail
      case Ok(o, rest) => Cons(o, GetOptionals(ks[1..], rest))
  }

  lemma OptionalsStep(ks: seq<ScalarKind>, os: seq<Option<Scalar>>, b: seq<Byte>, next: seq<Byte>, rest: seq<Byte>)
    requires ks != [] && os != []
    requires GetOptional(ks[0], b) == Ok(os[0], next)
    requires GetOptionals(ks[1..], next) == Ok(os[1..], rest)
    ensures GetOptionals(ks, b) == Ok(os, rest)
  {
    assert os == [os[0]] + os[1..];
  }

  lemma {:induction false} OptionalsRoundTrip(ks: seq<ScalarKind>, os: seq<Option<Scalar>>, rest: seq<Byte>)
    requires OfKinds(os, ks)
    ensures GetOptionals(ks, PutOptionals(os) + rest) == Ok(os, rest)
  {
    if os == [] {
      assert PutOptionals(os) + rest == rest;
    } else {
      Assoc(PutOptional(os[0]), PutOptionals(os[1..]), rest);
      OptionalRoundTrip(ks[0], os[0], PutOptionals(os[1..]) + rest);
      OptionalsRoundTrip(ks[1..], os[1..], rest);
      OptionalsStep(ks, os, PutOptionals(os) + rest, PutOptionals(os[1..]) + rest, rest);
    }
  }

  lemma {:induction false} OptionalsExtends(ks: seq<ScalarKind>, b: seq<Byte>, more: seq<Byte>)
    ensures Extends(GetOptionals(ks, b), more, GetOptionals(ks, b + more))
  {
    if ks != [] && GetOptionals(ks, b).Ok? {
      OptionalExtends(ks[0], b, more);
      OptionalsExtends(ks[1..], GetOptional(ks[0], b).rest, more);
    }
  }

  function ChangesOf(f: seq<Option<Scalar>>): TagChanges
    requires OfKinds(f, CHANGE_KINDS)
  {
    TagChanges(OfStr(f[0]), OfStr(f[1]), OfStr(f[2]), OfInt(f[3]))
  }

  lemma ChangesOfFields(c: TagChanges)
    ensures OfKinds(ChangeFields(c), CHANGE_KINDS)
    ensures ChangesOf(ChangeFields(c)) == c
  {
    assert OfStr(AsStr(c.title)) == c.title;
    assert OfStr(AsStr(c.artist)) == c.artist;
    assert OfStr(AsStr(c.album)) == c.album;
    assert OfInt(AsInt(c.track)) == c.track;
  }

  function PutChanges(changes: Option<TagChanges>): (b: seq<Byte>)
    ensures |b| >= 1
  {
    match changes
    case None => Put(B(false))
    case Some(c) => Put(B(true)) + PutOptionals(ChangeFields(c))
  }

  function GetChanges(b: seq<Byte>): (r: Read<Option<TagChanges>>)
    ensures r.Ok? ==> |r.rest| < |b|
  {
    match Get(KBool, b)
    case Fail => Fail
    case Ok(present, after) =>
      if !present.b then Ok(None, after) else
        match GetOptionals(CHANGE_KINDS, after)
        case Fail => Fail
        case Ok(f, rest) => Ok(Some(ChangesOf(f)), rest)
  }

  lemma ChangesRoundTrip(changes: Option<TagChanges>, rest: seq<Byte>)
    ensures GetChanges(PutChanges(changes) + rest) == Ok(changes, rest)
  {
    match changes {
      case None => ScalarRoundTrip(B(false), rest);
      case Some(c) =>
        var fields := ChangeFields(c);
        ChangesOfFields(c);
        OptionalsRoundTrip(CHANGE_KINDS, fields, rest);
        Assoc(Put(B(true)), PutOptionals(fields), rest);
        ScalarRoundTrip(B(true), PutOptionals(fields) + rest);
    }
  }

  lemma ChangesExtends(b: seq<Byte>, more: seq<Byte>)
    ensures Extends(GetChanges(b), more, GetChanges(b + more))
  {
    if GetChanges(b).Ok? {
      ScalarExtends(KBool, b, more);
      if Get(KBool, b).value.b {
        OptionalsExtends(CHANGE_KINDS, Get(KBool, b).rest, more);
      }
    }
  }

  // All values, and lists of them.

  datatype Kind = One(k: ScalarKind) | Many(key: ScalarKind, paired: bool) | Tags | Changes

  datatype Value =
    | Single(v: Scalar)
    | Collection(key: ScalarKind, paired: bool, entries: seq<Entry>)
    | TagsValue(tags: Option<FileTags>)
    | ChangesValue(changes: Option<TagChanges>)

  function KindOfValue(v: Value): Kind {
    match v
    case Single(s) => One(KindOf(s))
    case Collection(key, paired, _) => Many(key, paired)
    case TagsValue(_) => Tags
    case ChangesValue(_) => Changes
  }

  predicate WellTyped(v: Value) {
    v.Collection? ==> Typed(v.key, v.paired, v.entries)
  }

  /** What a caller of send can check: the end mark is not in the collection. */
  predicate Sendable(v: Value) {
    v.Collection? ==> NoStop(v.key, v.entries)
  }

  function PutValue(v: Value): seq<Byte> {
    match v
    case Single(s) => Put(s)
    case Collection(key, _, entries) => PutMany(key, entries)
    case TagsValue(tags) => PutTags(tags)
    case ChangesValue(changes) => PutChanges(changes)
  }

  function GetValue(k: Kind, b: seq<Byte>): (r: Read<Value>)
    ensures r.Ok? ==> |r.rest| < |b|
  {
    match k
    case One(kind) => (
      match Get(kind, b)
      case Fail => Fail
      case Ok(v, rest) => Ok(Single(v), rest))
    case Many(key, paired) => (
      match GetMany(key, paired, b)
      case Fail => Fail
      case Ok(es, rest) => Ok(Collection(key, paired, es), rest))
    case Tags => (
      match GetTags(b)
      case Fail => Fail
      case Ok(t, rest) => Ok(TagsValue(t), rest))
    case Changes => (
      match GetChanges(b)
      case Fail => Fail
      case Ok(c, rest) => Ok(ChangesValue(c), rest))
  }

  lemma ValueRoundTrip(v: Value, rest: seq<Byte>)
    requires WellTyped(v)
    ensures GetValue(KindOfValue(v), PutValue(v) + rest) == Ok(v, rest) <==> Sendable(v)
  {
    match v {
      case Single(s) => ScalarRoundTrip(s, rest);
      case Collection(key, paired, entries) => ManyRoundTrip(key, paired, entries, rest);
      case TagsValue(tags) => TagsRoundTrip(tags, rest);
      case ChangesValue(changes) => ChangesRoundTrip(changes, rest);
    }
  }

  lemma ValueExtends(k: Kind, b: seq<Byte>, more: seq<Byte>)
    ensures Extends(GetValue(k, b), more, GetValue(k, b + more))
  {
    if GetValue(k, b).Ok? {
      match k {
        case One(kind) => ScalarExtends(kind, b, more);
        case Many(key, paired) => ManyExtends(key, paired, b, more);
        case Tags => TagsExtends(b, more);
        case Changes => ChangesExtends(b, more);
      }
    }
  }

  // The containers built from the entries.

  function KeySet(es: seq<Entry>): set<Scalar> {
    set e <- es :: e.key
  }

  function Pairs(es: seq<Entry>): map<Scalar, Option<Str>> {
    if es == [] then map[] else Pairs(es[..|es| - 1])[es[|es| - 1].key := es[|es| - 1].payload]
  }

  /** The entries are those of the map, one for each key, in some order. */
  ghost predicate Lists(m: map<Scalar, Option<Str>>, es: seq<Entry>) {
    && (forall e <- es :: e.key in m && m[e.key] == e.payload)
    && (forall k :: k in m ==> exists e :: e in es && e.key == k)
  }

  lemma {:induction false} PairsLookup(es: seq<Entry>, m: map<Scalar, Option<Str>>)
    requires forall e <- es :: e.key in m && m[e.key] == e.payload
    ensures forall k :: k in Pairs(es) <==> exists e :: e in es && e.key == k
    ensures forall k :: k in Pairs(es) ==> k in m && Pairs(es)[k] == m[k]
  {
    if es != [] {
      var front, last := es[..|es| - 1], es[|es| - 1];
      assert es == front + [last];
      PairsLookup(front, m);
      assert forall e :: e in es <==> e in front || e == last;
    }
  }

  /** A map sent entry by entry, in whatever order, is the map that arrives,
      exactly if the end mark is not among its keys. */
  lemma MapArrives(k: ScalarKind, paired: bool, m: map<Scalar, Option<Str>>, es: seq<Entry>, rest: seq<Byte>)
    requires Typed(k, paired, es) && Lists(m, es)
    ensures var r := GetMany(k, paired, PutMany(k, es) + rest);
            (r.Ok? && Pairs(r.value) == m && KeySet(r.value) == m.Keys && r.rest == rest) <==> Stop(k) !in m
  {
    ManyRoundTrip(k, paired, es, rest);
    PairsLookup(es, m);
    assert NoStop(k, es) <==> Stop(k) !in m;
    if Stop(k) !in m {
      assert Pairs(es) == m;
    } else {
      NeverStop(k, paired, PutMany(k, es) + rest);
    }
  }

  /** A read never yields the end mark as an element. */
  lemma {:induction false} NeverStop(k: ScalarKind, paired: bool, b: seq<Byte>)
    ensures var r := GetMany(k, paired, b); r.Ok? ==> NoStop(k, r.value) && Typed(k, paired, r.value)
    decreases |b|
  {
    var first := Get(k, b);
    if first.Ok? && first.value != Stop(k) && GetPayload(paired, first.rest).Ok? {
      NeverStop(k, paired, GetPayload(paired, first.rest).rest);
    }
  }
}
