// What the game messages mean: their fields, their encoding, and how they merge.
module ProtoSpec {
  import opened ProtoWire
  import opened ProtoUtf8

  // ----- Values.  Fields that a message does not know are kept in order.

  datatype Event = Event(seatid: Int32, optType: Int32, x: Int32, y: Int32, unknown: seq<Field>)
  datatype Frame = Frame(frameid: Int32, opts: seq<Event>, unknown: seq<Field>)
  datatype Logic = Logic(frameid: Int32, frames: seq<Frame>, unknown: seq<Field>)
  datatype User = User(unick: seq<Byte>, uface: Int32, usex: Int32, uvip: Int32, uid: Int32, unknown: seq<Field>)
  datatype Guest = Guest(status: Int32, userinfo: Option<User>, unknown: seq<Field>)

  const NO_EVENT := Event(0, 0, 0, 0, [])
  const NO_FRAME := Frame(0, [], [])
  const NO_LOGIC := Logic(0, [], [])
  const NO_USER := User([], 0, 0, 0, 0, [])
  const NO_GUEST := Guest(0, None, [])

  // ----- Encoding: a field that is zero or empty is not sent.

  function Int(number: nat, v: Int32): seq<Field> {
    if v == 0 then [] else [Varint(number, SignExtended(v))]
  }

  function EventFields(m: Event): seq<Field> {
    Int(1, m.seatid) + Int(2, m.optType) + Int(3, m.x) + Int(4, m.y) + m.unknown
  }

  function EncodeEvent(m: Event): seq<Byte> {
    EncodeAll(EventFields(m))
  }

  function OptFields(ms: seq<Event>): seq<Field> {
    if ms == [] then [] else OptFields(ms[..|ms| - 1]) + [Bytes(2, EncodeEvent(ms[|ms| - 1]))]
  }

  function FrameFields(m: Frame): seq<Field> {
    Int(1, m.frameid) + OptFields(m.opts) + m.unknown
  }

  function EncodeFrame(m: Frame): seq<Byte> {
    EncodeAll(FrameFields(m))
  }

  function UnsyncFields(ms: seq<Frame>): seq<Field> {
    if ms == [] then [] else UnsyncFields(ms[..|ms| - 1]) + [Bytes(2, EncodeFrame(ms[|ms| - 1]))]
  }

  function LogicFields(m: Logic): seq<Field> {
    Int(1, m.frameid) + UnsyncFields(m.frames) + m.unknown
  }

  function EncodeLogic(m: Logic): seq<Byte> {
    EncodeAll(LogicFields(m))
  }

  function NickField(nick: seq<Byte>): seq<Field> {
    if nick == [] then [] else [Bytes(1, nick)]
  }

  function UserFields(m: User): seq<Field> {
    NickField(m.unick) + Int(2, m.uface) + Int(3, m.usex) + Int(4, m.uvip) + Int(5, m.uid) + m.unknown
  }

  function EncodeUser(m: User): seq<Byte> {
    EncodeAll(UserFields(m))
  }

  function InfoField(info: Option<User>): seq<Field> {
    if info.None? then [] else [Bytes(2, EncodeUser(info.value))]
  }

  function GuestFields(m: Guest): seq<Field> {
    Int(1, m.status) + InfoField(m.userinfo) + m.unknown
  }

  function EncodeGuest(m: Guest): seq<Byte> {
    EncodeAll(GuestFields(m))
  }

  // ----- Merging a field: one of another number or type is kept as it is.  What
  // is nested in the message may be nested `depth` deep.

  predicate EventKnows(f: Field) {
    f.Varint? && 1 <= f.number <= 4
  }

  function ApplyEvent(m: Event, f: Field, depth: nat): Option<Event> {
    Some(if !EventKnows(f) then m.(unknown := m.unknown + [f])
         else if f.number == 1 then m.(seatid := ToInt32(f.value))
         else if f.number == 2 then m.(optType := ToInt32(f.value))
         else if f.number == 3 then m.(x := ToInt32(f.value))
         else m.(y := ToInt32(f.value)))
  }

  const EVENT := Kind(ApplyEvent, 0)

  function ParseEvent(m: Event, b: seq<Byte>, depth: nat): Option<Event> {
    Parse(EVENT, m, b, depth)
  }

  // The fields of the three messages with one number and sub-messages
  predicate NestedKnows(f: Field) {
    (f.Varint? && f.number == 1) || (f.Bytes? && f.number == 2)
  }

  function ApplyFrame(m: Frame, f: Field, depth: nat): Option<Frame> {
    if !NestedKnows(f) then Some(m.(unknown := m.unknown + [f]))
    else if f.Varint? then Some(m.(frameid := ToInt32(f.value)))
    else if depth == 0 then None
    else
      match ParseEvent(NO_EVENT, f.bytes, depth - 1) { case None => None case Some(e) => Some(m.(opts := m.opts + [e])) }
  }

  const FRAME := Kind(ApplyFrame, 2)

  function ParseFrame(m: Frame, b: seq<Byte>, depth: nat): Option<Frame> {
    Parse(FRAME, m, b, depth)
  }

  function ApplyLogic(m: Logic, f: Field, depth: nat): Option<Logic> {
    if !NestedKnows(f) then Some(m.(unknown := m.unknown + [f]))
    else if f.Varint? then Some(m.(frameid := ToInt32(f.value)))
    else if depth == 0 then None
    else
      match ParseFrame(NO_FRAME, f.bytes, depth - 1) { case None => None case Some(e) => Some(m.(frames := m.frames + [e])) }
  }

  const LOGIC := Kind(ApplyLogic, 2)

  function ParseLogic(m: Logic, b: seq<Byte>, depth: nat): Option<Logic> {
    Parse(LOGIC, m, b, depth)
  }

  predicate UserKnows(f: Field) {
    (f.Bytes? && f.number == 1) || (f.Varint? && 2 <= f.number <= 5)
  }

  function ApplyUser(m: User, f: Field, depth: nat): Option<User> {
    if !UserKnows(f) then Some(m.(unknown := m.unknown + [f]))
    else if f.Bytes? then (if IsUtf8(f.bytes) then Some(m.(unick := f.bytes)) else None)
    else Some(WithInt(m, f.number, ToInt32(f.value)))
  }

  function WithInt(m: User, number: nat, v: Int32): User {
    if number == 2 then m.(uface := v)
    else if number == 3 then m.(usex := v)
    else if number == 4 then m.(uvip := v)
    else m.(uid := v)
  }

  const USER := Kind(ApplyUser, 0)

  function ParseUser(m: User, b: seq<Byte>, depth: nat): Option<User> {
    Parse(USER, m, b, depth)
  }

  // The singular sub-message, created when it is first asked for
  function UserOf(m: Guest): User {
    match m.userinfo { case None => NO_USER case Some(u) => u }
  }

  function ApplyGuest(m: Guest, f: Field, depth: nat): Option<Guest> {
    if !NestedKnows(f) then Some(m.(unknown := m.unknown + [f]))
    else if f.Varint? then Some(m.(status := ToInt32(f.value)))
    else if depth == 0 then None
    else
      match ParseUser(UserOf(m), f.bytes, depth - 1) { case None => None case Some(u) => Some(m.(userinfo := Some(u))) }
  }

  const GUEST := Kind(ApplyGuest, 2)

  function ParseGuest(m: Guest, b: seq<Byte>, depth: nat): Option<Guest> {
    Parse(GUEST, m, b, depth)
  }

  // ----- MergeFrom

  function Over(v: Int32, from: Int32): Int32 {
    if from != 0 then from else v
  }

  function MergeEvent(m: Event, from: Event): Event {
    Event(Over(m.seatid, from.seatid), Over(m.optType, from.optType), Over(m.x, from.x), Over(m.y, from.y),
          m.unknown + from.unknown)
  }

  function MergeFrame(m: Frame, from: Frame): Frame {
    Frame(Over(m.frameid, from.frameid), m.opts + from.opts, m.unknown + from.unknown)
  }

  function MergeLogic(m: Logic, from: Logic): Logic {
    Logic(Over(m.frameid, from.frameid), m.frames + from.frames, m.unknown + from.unknown)
  }

  function MergeUser(m: User, from: User): User {
    User(if from.unick != [] then from.unick else m.unick,
         Over(m.uface, from.uface), Over(m.usex, from.usex), Over(m.uvip, from.uvip), Over(m.uid, from.uid),
         m.unknown + from.unknown)
  }

  function MergeGuest(m: Guest, from: Guest): Guest {
    Guest(Over(m.status, from.status),
          if from.userinfo.Some? then Some(MergeUser(UserOf(m), from.userinfo.value)) else m.userinfo,
          m.unknown + from.unknown)
  }

  // ----- Messages as they come from parsing and setting fields: what they keep
  // as unknown is unknown to them.

  predicate GoodEvent(m: Event) {
    ValidFields(m.unknown) && forall i :: 0 <= i < |m.unknown| ==> !EventKnows(m.unknown[i])
  }

  predicate GoodUnknown(us: seq<Field>) {
    ValidFields(us) && forall i :: 0 <= i < |us| ==> !NestedKnows(us[i])
  }

  predicate GoodFrame(m: Frame) {
    GoodUnknown(m.unknown) && forall i :: 0 <= i < |m.opts| ==> GoodEvent(m.opts[i])
  }

  predicate GoodLogic(m: Logic) {
    GoodUnknown(m.unknown) && forall i :: 0 <= i < |m.frames| ==> GoodFrame(m.frames[i])
  }

  predicate GoodUser(m: User) {
    && |m.unick| <= INT_MAX && ValidFields(m.unknown)
    && forall i :: 0 <= i < |m.unknown| ==> !UserKnows(m.unknown[i])
  }

  predicate GoodGuest(m: Guest) {
    GoodUnknown(m.unknown) && (m.userinfo.Some? ==> GoodUser(m.userinfo.value))
  }

  // Every sub-message has a length that is an int.
  predicate SizedFrame(m: Frame) {
    forall i :: 0 <= i < |m.opts| ==> |EncodeEvent(m.opts[i])| <= INT_MAX
  }

  predicate SizedLogic(m: Logic) {
    forall i :: 0 <= i < |m.frames| ==> SizedFrame(m.frames[i]) && |EncodeFrame(m.frames[i])| <= INT_MAX
  }

  predicate SizedGuest(m: Guest) {
    m.userinfo.Some? ==> |EncodeUser(m.userinfo.value)| <= INT_MAX
  }

  // What is nested in the message stays within the depth that is left, and a
  // nickname is UTF-8.
  predicate ReadableEvent(m: Event, depth: nat) {
    AllWithin(m.unknown, depth)
  }

  predicate ReadableOpts(ms: seq<Event>, depth: nat) {
    forall i :: 0 <= i < |ms| ==> depth > 0 && ReadableEvent(ms[i], depth - 1)
  }

  predicate ReadableFrame(m: Frame, depth: nat) {
    AllWithin(m.unknown, depth) && ReadableOpts(m.opts, depth)
  }

  predicate ReadableFrames(ms: seq<Frame>, depth: nat) {
    forall i :: 0 <= i < |ms| ==> depth > 0 && ReadableFrame(ms[i], depth - 1)
  }

  predicate ReadableLogic(m: Logic, depth: nat) {
    AllWithin(m.unknown, depth) && ReadableFrames(m.frames, depth)
  }

  predicate ReadableUser(m: User, depth: nat) {
    IsUtf8(m.unick) && AllWithin(m.unknown, depth)
  }

  predicate ReadableInfo(info: Option<User>, depth: nat) {
    info.Some? ==> depth > 0 && ReadableUser(info.value, depth - 1)
  }

  predicate ReadableGuest(m: Guest, depth: nat) {
    AllWithin(m.unknown, depth) && ReadableInfo(m.userinfo, depth)
  }

  // ----- Parsing what was encoded

  lemma FoldConcat<M>(k: Kind<M>, m: M, a: seq<Field>, b: seq<Field>, depth: nat)
    ensures Fold(k, m, a + b, depth) ==
            match Fold(k, m, a, depth) { case None => None case Some(mid) => Fold(k, mid, b, depth) }
    decreases |a|
  {
    if a == [] {
      assert a + b == b;
    } else {
      assert (a + b)[1..] == a[1..] + b;
      var next := k.apply(m, a[0], depth);
      if next.Some? {
        FoldConcat(k, next.value, a[1..], b, depth);
      }
    }
  }

  lemma FoldOne<M>(k: Kind<M>, m: M, f: Field, depth: nat)
    ensures Fold(k, m, [f], depth) == k.apply(m, f, depth)
  {
    var next := k.apply(m, f, depth);
    if next.Some? {
      assert Fold(k, next.value, [f][1..], depth) == Some(next.value);
    }
  }

  lemma FoldNothing<M>(k: Kind<M>, m: M, depth: nat)
    ensures Fold(k, m, [], depth) == Some(m)
  {
  }

  // What holds of fields in which nothing is nested
  predicate Flat(fs: seq<Field>) {
    ValidFields(fs) && forall i :: 0 <= i < |fs| ==> !fs[i].Group?
  }

  lemma IntIsFlat(number: nat, v: Int32)
    requires 1 <= number < 16
    ensures Flat(Int(number, v))
  {
  }

  lemma FlatConcat(a: seq<Field>, b: seq<Field>)
    requires Flat(a) && Flat(b)
    ensures Flat(a + b)
  {
    hide ValidField;
  }

  // Flat fields and unknown ones
  lemma FlatAndUnknown(a: seq<Field>, us: seq<Field>, depth: nat)
    requires Flat(a) && ValidFields(us)
    ensures ValidFields(a + us) && (AllWithin(a + us, depth) <==> AllWithin(us, depth))
  {
    hide ValidField;
    if AllWithin(a + us, depth) {
      forall i | 0 <= i < |us| ensures Within(us[i], depth) {
        assert us[i] == (a + us)[|a| + i];
      }
    }
  }

  // An int32 field sets what it belongs to, unless it is zero and not there.
  lemma FoldInt<M>(k: Kind<M>, m: M, number: nat, v: Int32, next: M, depth: nat)
    requires v == 0 ==> next == m
    requires k.apply(m, Varint(number, SignExtended(v)), depth) == Some(next) || v == 0
    ensures Fold(k, m, Int(number, v), depth) == Some(next)
  {
    FoldOne(k, m, Varint(number, SignExtended(v)), depth);
  }

  lemma {:induction false} FoldUnknownEvent(m: Event, us: seq<Field>, depth: nat)
    requires forall i :: 0 <= i < |us| ==> !EventKnows(us[i])
    ensures Fold(EVENT, m, us, depth) == Some(m.(unknown := m.unknown + us))
    decreases |us|
  {
    if us == [] {
      assert m.unknown + us == m.unknown;
    } else {
      FoldUnknownEvent(m.(unknown := m.unknown + [us[0]]), us[1..], depth);
      assert m.unknown + [us[0]] + us[1..] == m.unknown + us;
    }
  }

  lemma {:induction false} FoldUnknownFrame(m: Frame, us: seq<Field>, depth: nat)
    requires forall i :: 0 <= i < |us| ==> !NestedKnows(us[i])
    ensures Fold(FRAME, m, us, depth) == Some(m.(unknown := m.unknown + us))
    decreases |us|
  {
    hide ParseEvent;
    if us == [] {
      assert m.unknown + us == m.unknown;
    } else {
      FoldUnknownFrame(m.(unknown := m.unknown + [us[0]]), us[1..], depth);
      assert m.unknown + [us[0]] + us[1..] == m.unknown + us;
    }
  }

  lemma {:induction false} FoldUnknownLogic(m: Logic, us: seq<Field>, depth: nat)
    requires forall i :: 0 <= i < |us| ==> !NestedKnows(us[i])
    ensures Fold(LOGIC, m, us, depth) == Some(m.(unknown := m.unknown + us))
    decreases |us|
  {
    hide ParseFrame;
    if us == [] {
      assert m.unknown + us == m.unknown;
    } else {
      FoldUnknownLogic(m.(unknown := m.unknown + [us[0]]), us[1..], depth);
      assert m.unknown + [us[0]] + us[1..] == m.unknown + us;
    }
  }

  lemma {:induction false} FoldUnknownUser(m: User, us: seq<Field>, depth: nat)
    requires forall i :: 0 <= i < |us| ==> !UserKnows(us[i])
    ensures Fold(USER, m, us, depth) == Some(m.(unknown := m.unknown + us))
    decreases |us|
  {
    if us == [] {
      assert m.unknown + us == m.unknown;
    } else {
      FoldUnknownUser(m.(unknown := m.unknown + [us[0]]), us[1..], depth);
      assert m.unknown + [us[0]] + us[1..] == m.unknown + us;
    }
  }

  lemma {:induction false} FoldUnknownGuest(m: Guest, us: seq<Field>, depth: nat)
    requires forall i :: 0 <= i < |us| ==> !NestedKnows(us[i])
    ensures Fold(GUEST, m, us, depth) == Some(m.(unknown := m.unknown + us))
    decreases |us|
  {
    hide ParseUser;
    if us == [] {
      assert m.unknown + us == m.unknown;
    } else {
      FoldUnknownGuest(m.(unknown := m.unknown + [us[0]]), us[1..], depth);
      assert m.unknown + [us[0]] + us[1..] == m.unknown + us;
    }
  }

  lemma MergeEventFields(m: Event, from: Event, depth: nat)
    requires GoodEvent(from)
    ensures Fold(EVENT, m, EventFields(from), depth) == Some(MergeEvent(m, from))
  {
    hide Fold, SignExtended, ToInt32, Int;
    Int32RoundTrip(from.seatid);
    Int32RoundTrip(from.optType);
    Int32RoundTrip(from.x);
    Int32RoundTrip(from.y);
    var m1 := m.(seatid := Over(m.seatid, from.seatid));
    var m2 := m1.(optType := Over(m.optType, from.optType));
    var m3 := m2.(x := Over(m.x, from.x));
    var m4 := m3.(y := Over(m.y, from.y));
    FoldInt(EVENT, m, 1, from.seatid, m1, depth);
    FoldInt(EVENT, m1, 2, from.optType, m2, depth);
    FoldInt(EVENT, m2, 3, from.x, m3, depth);
    FoldInt(EVENT, m3, 4, from.y, m4, depth);
    FoldUnknownEvent(m4, from.unknown, depth);
    var f2 := Int(1, from.seatid) + Int(2, from.optType);
    FoldConcat(EVENT, m, Int(1, from.seatid), Int(2, from.optType), depth);
    FoldConcat(EVENT, m, f2, Int(3, from.x), depth);
    FoldConcat(EVENT, m, f2 + Int(3, from.x), Int(4, from.y), depth);
    FoldConcat(EVENT, m, f2 + Int(3, from.x) + Int(4, from.y), from.unknown, depth);
  }

  lemma EventIsWithin(m: Event, depth: nat)
    requires GoodEvent(m)
    ensures ValidFields(EventFields(m)) && (AllWithin(EventFields(m), depth) <==> ReadableEvent(m, depth))
  {
    hide Int, Flat, ValidField;
    IntIsFlat(1, m.seatid);
    IntIsFlat(2, m.optType);
    IntIsFlat(3, m.x);
    IntIsFlat(4, m.y);
    var f2 := Int(1, m.seatid) + Int(2, m.optType);
    FlatConcat(Int(1, m.seatid), Int(2, m.optType));
    FlatConcat(f2, Int(3, m.x));
    FlatConcat(f2 + Int(3, m.x), Int(4, m.y));
    FlatAndUnknown(f2 + Int(3, m.x) + Int(4, m.y), m.unknown, depth);
  }

  lemma ParseEncodedEvent(m: Event, from: Event, depth: nat)
    requires GoodEvent(from)
    ensures ParseEvent(m, EncodeEvent(from), depth) == if ReadableEvent(from, depth) then Some(MergeEvent(m, from)) else None
  {
    hide Fold, Parse, EncodeAll, EventFields, GoodEvent, AllWithin, ApplyEvent;
    MergeEventFields(m, from, depth);
    EventIsWithin(from, depth);
    ParseEncoded(EVENT, m, EventFields(from), depth);
  }

  lemma {:induction false} EncodeAllConcat(a: seq<Field>, b: seq<Field>)
    ensures EncodeAll(a + b) == EncodeAll(a) + EncodeAll(b)
    decreases |a|
  {
    hide Encode;
    if a == [] {
      assert a + b == b;
    } else {
      EncodeAllConcat(a[1..], b);
      assert (a + b)[1..] == a[1..] + b;
    }
  }

  lemma EncodeOne(f: Field)
    ensures EncodeAll([f]) == Encode(f)
  {
    hide Encode;
    assert EncodeAll([f][1..]) == [];
  }

  lemma EncodeNothing()
    ensures EncodeAll([]) == []
  {
  }

  // What ByteSizeLong adds for an int32 field
  function IntSize(v: Int32): nat {
    if v == 0 then 0 else 1 + Int32Size(v)
  }

  lemma IntSizeIsLength(number: nat, v: Int32)
    requires 1 <= number < 16
    ensures |EncodeAll(Int(number, v))| == IntSize(v)
  {
    hide EncodeAll, VarintBytes, SignExtended, Int32Size;
    if v == 0 {
      EncodeNothing();
    } else {
      EncodeOne(Varint(number, SignExtended(v)));
      Int32SizeIsLength(v);
      OneByte(8 * number);
    }
  }

  // Parsing an encoding in full gives the message.
  lemma ParseAnew(e: Event, f: Frame)
    ensures MergeEvent(NO_EVENT, e) == e && MergeFrame(NO_FRAME, f) == f
  {
    assert [] + e.unknown == e.unknown && [] + f.unknown == f.unknown && [] + f.opts == f.opts;
  }

  lemma OptsSnoc(init: seq<Event>, last: Event, depth: nat)
    ensures ReadableOpts(init + [last], depth) <==>
            ReadableOpts(init, depth) && depth > 0 && ReadableEvent(last, depth - 1)
  {
    hide ReadableEvent;
    var ms := init + [last];
    if ReadableOpts(ms, depth) {
      assert ms[|init|] == last;
      assert forall i :: 0 <= i < |init| ==> ms[i] == init[i];
    }
  }

  lemma AppliedOpt(m: Frame, e: Event, depth: nat)
    requires GoodEvent(e)
    ensures ApplyFrame(m, Bytes(2, EncodeEvent(e)), depth) ==
            if depth > 0 && ReadableEvent(e, depth - 1) then Some(m.(opts := m.opts + [e])) else None
  {
    hide EncodeEvent, ParseEvent, GoodEvent, ReadableEvent, MergeEvent;
    if depth > 0 {
      ParseEncodedEvent(NO_EVENT, e, depth - 1);
      ParseAnew(e, NO_FRAME);
    }
  }

  lemma {:induction false} MergeOptFields(m: Frame, opts: seq<Event>, depth: nat)
    requires forall i :: 0 <= i < |opts| ==> GoodEvent(opts[i]) && |EncodeEvent(opts[i])| <= INT_MAX
    ensures Fold(FRAME, m, OptFields(opts), depth) ==
            if ReadableOpts(opts, depth) then Some(m.(opts := m.opts + opts)) else None
    ensures Flat(OptFields(opts))
  {
    hide Fold, EncodeEvent, ApplyFrame, GoodEvent, ReadableEvent;
    if opts == [] {
      FoldNothing(FRAME, m, depth);
      assert m.opts + opts == m.opts;
    } else {
      var init, last := opts[..|opts| - 1], opts[|opts| - 1];
      assert opts == init + [last];
      MergeOptFields(m, init, depth);
      OptsSnoc(init, last, depth);
      var mid := m.(opts := m.opts + init);
      AppliedOpt(mid, last, depth);
      FoldOne(FRAME, mid, Bytes(2, EncodeEvent(last)), depth);
      FoldConcat(FRAME, m, OptFields(init), [Bytes(2, EncodeEvent(last))], depth);
      assert m.opts + init + [last] == m.opts + opts;
    }
  }

  lemma MergeFrameFields(m: Frame, from: Frame, depth: nat)
    requires GoodFrame(from) && SizedFrame(from)
    ensures Fold(FRAME, m, FrameFields(from), depth) ==
            if ReadableOpts(from.opts, depth) then Some(MergeFrame(m, from)) else None
    ensures ValidFields(FrameFields(from)) && (AllWithin(FrameFields(from), depth) <==> AllWithin(from.unknown, depth))
  {
    hide Fold, SignExtended, ToInt32, Int, OptFields, EncodeEvent, GoodEvent, ReadableOpts, Flat, AllWithin, ValidField, ParseEvent;
    IntIsFlat(1, from.frameid);
    Int32RoundTrip(from.frameid);
    var m1 := m.(frameid := Over(m.frameid, from.frameid));
    FoldInt(FRAME, m, 1, from.frameid, m1, depth);
    MergeOptFields(m1, from.opts, depth);
    FoldUnknownFrame(m1.(opts := m.opts + from.opts), from.unknown, depth);
    FoldConcat(FRAME, m, Int(1, from.frameid), OptFields(from.opts), depth);
    FoldConcat(FRAME, m, Int(1, from.frameid) + OptFields(from.opts), from.unknown, depth);
    FlatConcat(Int(1, from.frameid), OptFields(from.opts));
    FlatAndUnknown(Int(1, from.frameid) + OptFields(from.opts), from.unknown, depth);
  }

  lemma ParseEncodedFrame(m: Frame, from: Frame, depth: nat)
    requires GoodFrame(from) && SizedFrame(from)
    ensures ParseFrame(m, EncodeFrame(from), depth) == if ReadableFrame(from, depth) then Some(MergeFrame(m, from)) else None
  {
    hide Fold, Parse, EncodeAll, FrameFields, GoodFrame, SizedFrame, AllWithin, ReadableOpts, ApplyFrame;
    MergeFrameFields(m, from, depth);
    ParseEncoded(FRAME, m, FrameFields(from), depth);
  }

  lemma FramesSnoc(init: seq<Frame>, last: Frame, depth: nat)
    ensures ReadableFrames(init + [last], depth) <==>
            ReadableFrames(init, depth) && depth > 0 && ReadableFrame(last, depth - 1)
  {
    hide ReadableFrame;
    var ms := init + [last];
    if ReadableFrames(ms, depth) {
      assert ms[|init|] == last;
      assert forall i :: 0 <= i < |init| ==> ms[i] == init[i];
    }
  }

  lemma AppliedFrame(m: Logic, f: Frame, depth: nat)
    requires GoodFrame(f) && SizedFrame(f)
    ensures ApplyLogic(m, Bytes(2, EncodeFrame(f)), depth) ==
            if depth > 0 && ReadableFrame(f, depth - 1) then Some(m.(frames := m.frames + [f])) else None
  {
    hide EncodeFrame, ParseFrame, GoodFrame, SizedFrame, ReadableFrame, MergeFrame;
    if depth > 0 {
      ParseEncodedFrame(NO_FRAME, f, depth - 1);
      ParseAnew(NO_EVENT, f);
    }
  }

  lemma {:induction false} MergeUnsyncFields(m: Logic, frames: seq<Frame>, depth: nat)
    requires forall i :: 0 <= i < |frames| ==>
                           GoodFrame(frames[i]) && SizedFrame(frames[i]) && |EncodeFrame(frames[i])| <= INT_MAX
    ensures Fold(LOGIC, m, UnsyncFields(frames), depth) ==
            if ReadableFrames(frames, depth) then Some(m.(frames := m.frames + frames)) else None
    ensures Flat(UnsyncFields(frames))
  {
    hide Fold, EncodeFrame, ApplyLogic, GoodFrame, SizedFrame, ReadableFrame;
    if frames == [] {
      FoldNothing(LOGIC, m, depth);
      assert m.frames + frames == m.frames;
    } else {
      var init, last := frames[..|frames| - 1], frames[|frames| - 1];
      assert frames == init + [last];
      MergeUnsyncFields(m, init, depth);
      FramesSnoc(init, last, depth);
      var mid := m.(frames := m.frames + init);
      AppliedFrame(mid, last, depth);
      FoldOne(LOGIC, mid, Bytes(2, EncodeFrame(last)), depth);
      FoldConcat(LOGIC, m, UnsyncFields(init), [Bytes(2, EncodeFrame(last))], depth);
      assert m.frames + init + [last] == m.frames + frames;
    }
  }

  lemma MergeLogicFields(m: Logic, from: Logic, depth: nat)
    requires GoodLogic(from) && SizedLogic(from)
    ensures Fold(LOGIC, m, LogicFields(from), depth) ==
            if ReadableFrames(from.frames, depth) then Some(MergeLogic(m, from)) else None
    ensures ValidFields(LogicFields(from)) && (AllWithin(LogicFields(from), depth) <==> AllWithin(from.unknown, depth))
  {
    hide Fold, SignExtended, ToInt32, Int, UnsyncFields, EncodeFrame, GoodFrame, SizedFrame, ReadableFrames, Flat, AllWithin,
         ValidField, ParseFrame;
    IntIsFlat(1, from.frameid);
    Int32RoundTrip(from.frameid);
    var m1 := m.(frameid := Over(m.frameid, from.frameid));
    FoldInt(LOGIC, m, 1, from.frameid, m1, depth);
    MergeUnsyncFields(m1, from.frames, depth);
    FoldUnknownLogic(m1.(frames := m.frames + from.frames), from.unknown, depth);
    FoldConcat(LOGIC, m, Int(1, from.frameid), UnsyncFields(from.frames), depth);
    FoldConcat(LOGIC, m, Int(1, from.frameid) + UnsyncFields(from.frames), from.unknown, depth);
    FlatConcat(Int(1, from.frameid), UnsyncFields(from.frames));
    FlatAndUnknown(Int(1, from.frameid) + UnsyncFields(from.frames), from.unknown, depth);
  }

  lemma ParseEncodedLogic(m: Logic, from: Logic, depth: nat)
    requires GoodLogic(from) && SizedLogic(from)
    ensures ParseLogic(m, EncodeLogic(from), depth) == if ReadableLogic(from, depth) then Some(MergeLogic(m, from)) else None
  {
    hide Fold, Parse, EncodeAll, LogicFields, GoodLogic, SizedLogic, AllWithin, ReadableFrames, ApplyLogic;
    MergeLogicFields(m, from, depth);
    ParseEncoded(LOGIC, m, LogicFields(from), depth);
  }

  lemma FoldNick(m: User, nick: seq<Byte>, depth: nat)
    requires |nick| <= INT_MAX
    ensures Fold(USER, m, NickField(nick), depth) ==
            if IsUtf8(nick) then Some(m.(unick := if nick != [] then nick else m.unick)) else None
    ensures Flat(NickField(nick))
  {
    FoldNothing(USER, m, depth);
    FoldOne(USER, m, Bytes(1, nick), depth);
  }

  // The fields behind the nickname
  function NumberFields(m: User): seq<Field> {
    Int(2, m.uface) + Int(3, m.usex) + Int(4, m.uvip) + Int(5, m.uid)
  }

  lemma FoldNumbers(m: User, from: User, depth: nat)
    ensures Fold(USER, m, NumberFields(from), depth) ==
            Some(m.(uface := Over(m.uface, from.uface), usex := Over(m.usex, from.usex), uvip := Over(m.uvip, from.uvip),
                    uid := Over(m.uid, from.uid)))
    ensures Flat(NumberFields(from))
  {
    hide Fold, SignExtended, ToInt32, Int, Flat;
    IntIsFlat(2, from.uface);
    IntIsFlat(3, from.usex);
    IntIsFlat(4, from.uvip);
    IntIsFlat(5, from.uid);
    Int32RoundTrip(from.uface);
    Int32RoundTrip(from.usex);
    Int32RoundTrip(from.uvip);
    Int32RoundTrip(from.uid);
    var m2 := m.(uface := Over(m.uface, from.uface));
    var m3 := m2.(usex := Over(m.usex, from.usex));
    var m4 := m3.(uvip := Over(m.uvip, from.uvip));
    var m5 := m4.(uid := Over(m.uid, from.uid));
    FoldInt(USER, m, 2, from.uface, m2, depth);
    FoldInt(USER, m2, 3, from.usex, m3, depth);
    FoldInt(USER, m3, 4, from.uvip, m4, depth);
    FoldInt(USER, m4, 5, from.uid, m5, depth);
    var f3 := Int(2, from.uface) + Int(3, from.usex);
    FoldConcat(USER, m, Int(2, from.uface), Int(3, from.usex), depth);
    FoldConcat(USER, m, f3, Int(4, from.uvip), depth);
    FoldConcat(USER, m, f3 + Int(4, from.uvip), Int(5, from.uid), depth);
    FlatConcat(Int(2, from.uface), Int(3, from.usex));
    FlatConcat(f3, Int(4, from.uvip));
    FlatConcat(f3 + Int(4, from.uvip), Int(5, from.uid));
  }

  lemma UserIsConcat(m: User)
    ensures UserFields(m) == NickField(m.unick) + NumberFields(m) + m.unknown
  {
    hide Int, NickField;
  }

  lemma MergeUserFields(m: User, from: User, depth: nat)
    requires GoodUser(from)
    ensures Fold(USER, m, UserFields(from), depth) == if IsUtf8(from.unick) then Some(MergeUser(m, from)) else None
    ensures ValidFields(UserFields(from)) && (AllWithin(UserFields(from), depth) <==> AllWithin(from.unknown, depth))
  {
    hide Fold, NickField, NumberFields, UserFields, Flat, IsUtf8, AllWithin, ValidField;
    UserIsConcat(from);
    var m1 := m.(unick := if from.unick != [] then from.unick else m.unick);
    var m2 := MergeUser(m, from).(unknown := m.unknown);
    FoldNick(m, from.unick, depth);
    FoldNumbers(m1, from, depth);
    FoldUnknownUser(m2, from.unknown, depth);
    FoldConcat(USER, m, NickField(from.unick), NumberFields(from), depth);
    FoldConcat(USER, m, NickField(from.unick) + NumberFields(from), from.unknown, depth);
    FlatConcat(NickField(from.unick), NumberFields(from));
    FlatAndUnknown(NickField(from.unick) + NumberFields(from), from.unknown, depth);
  }

  lemma ParseEncodedUser(m: User, from: User, depth: nat)
    requires GoodUser(from)
    ensures ParseUser(m, EncodeUser(from), depth) == if ReadableUser(from, depth) then Some(MergeUser(m, from)) else None
  {
    hide Fold, Parse, EncodeAll, UserFields, GoodUser, AllWithin, IsUtf8, ApplyUser;
    MergeUserFields(m, from, depth);
    ParseEncoded(USER, m, UserFields(from), depth);
  }

  lemma FoldInfo(m: Guest, info: Option<User>, depth: nat)
    requires info.Some? ==> GoodUser(info.value) && |EncodeUser(info.value)| <= INT_MAX
    ensures var next := if info.Some? then Some(MergeUser(UserOf(m), info.value)) else m.userinfo;
            Fold(GUEST, m, InfoField(info), depth) == if ReadableInfo(info, depth) then Some(m.(userinfo := next)) else None
    ensures Flat(InfoField(info))
  {
    hide Fold, EncodeUser, ParseUser, GoodUser, ReadableUser;
    if info.Some? {
      if depth > 0 {
        ParseEncodedUser(UserOf(m), info.value, depth - 1);
      }
      FoldOne(GUEST, m, Bytes(2, EncodeUser(info.value)), depth);
    } else {
      FoldNothing(GUEST, m, depth);
    }
  }

  lemma MergeGuestFields(m: Guest, from: Guest, depth: nat)
    requires GoodGuest(from) && SizedGuest(from)
    ensures Fold(GUEST, m, GuestFields(from), depth) ==
            if ReadableInfo(from.userinfo, depth) then Some(MergeGuest(m, from)) else None
    ensures ValidFields(GuestFields(from)) && (AllWithin(GuestFields(from), depth) <==> AllWithin(from.unknown, depth))
  {
    hide Fold, SignExtended, ToInt32, Int, InfoField, EncodeUser, ParseUser, GoodUser, MergeUser, ReadableInfo, Flat, AllWithin,
         ValidField;
    IntIsFlat(1, from.status);
    Int32RoundTrip(from.status);
    var m1 := m.(status := Over(m.status, from.status));
    var m2 := MergeGuest(m, from).(unknown := m.unknown);
    FoldInt(GUEST, m, 1, from.status, m1, depth);
    FoldInfo(m1, from.userinfo, depth);
    FoldUnknownGuest(m2, from.unknown, depth);
    FoldConcat(GUEST, m, Int(1, from.status), InfoField(from.userinfo), depth);
    FoldConcat(GUEST, m, Int(1, from.status) + InfoField(from.userinfo), from.unknown, depth);
    FlatConcat(Int(1, from.status), InfoField(from.userinfo));
    FlatAndUnknown(Int(1, from.status) + InfoField(from.userinfo), from.unknown, depth);
  }

  lemma ParseEncodedGuest(m: Guest, from: Guest, depth: nat)
    requires GoodGuest(from) && SizedGuest(from)
    ensures ParseGuest(m, EncodeGuest(from), depth) == if ReadableGuest(from, depth) then Some(MergeGuest(m, from)) else None
  {
    hide Fold, Parse, EncodeAll, GuestFields, GoodGuest, SizedGuest, AllWithin, ReadableInfo, ApplyGuest;
    MergeGuestFields(m, from, depth);
    ParseEncoded(GUEST, m, GuestFields(from), depth);
  }

  // ----- Round trip and merge homomorphism

  // A serialized message is parsed exactly if it nests nothing too deep, and
  // then it comes back.
  lemma LogicRoundTrip(a: Logic, depth: nat)
    requires GoodLogic(a) && SizedLogic(a)
    ensures ParseLogic(NO_LOGIC, EncodeLogic(a), depth) == if ReadableLogic(a, depth) then Some(a) else None
  {
    hide ParseLogic, EncodeLogic, GoodLogic, SizedLogic, ReadableLogic;
    ParseEncodedLogic(NO_LOGIC, a, depth);
    assert [] + a.frames == a.frames && [] + a.unknown == a.unknown;
  }

  // Exactly if it nests nothing too deep and the nickname is UTF-8
  lemma GuestRoundTrip(a: Guest, depth: nat)
    requires GoodGuest(a) && SizedGuest(a)
    ensures ParseGuest(NO_GUEST, EncodeGuest(a), depth) == if ReadableGuest(a, depth) then Some(a) else None
  {
    hide ParseGuest, EncodeGuest, GoodGuest, SizedGuest, ReadableGuest;
    ParseEncodedGuest(NO_GUEST, a, depth);
    assert [] + a.unknown == a.unknown;
    if a.userinfo.Some? {
      assert [] + a.userinfo.value.unknown == a.userinfo.value.unknown;
    }
  }

  lemma TwoWithin(a: seq<Field>, b: seq<Field>, depth: nat)
    requires ValidFields(a) && ValidFields(b)
    ensures ValidFields(a + b) && (AllWithin(a + b, depth) <==> AllWithin(a, depth) && AllWithin(b, depth))
  {
    hide ValidField, Within;
    if AllWithin(a + b, depth) {
      assert forall i :: 0 <= i < |a| ==> a[i] == (a + b)[i];
      assert forall i :: 0 <= i < |b| ==> b[i] == (a + b)[|a| + i];
    }
  }

  // Parsing two encodings in a row is the same as merging the two messages.
  lemma LogicMergeHomomorphism(a: Logic, b: Logic, depth: nat)
    requires GoodLogic(a) && SizedLogic(a) && GoodLogic(b) && SizedLogic(b)
    ensures ParseLogic(NO_LOGIC, EncodeLogic(a) + EncodeLogic(b), depth) ==
            if ReadableLogic(a, depth) && ReadableLogic(b, depth) then Some(MergeLogic(a, b)) else None
  {
    hide LogicFields, GoodLogic, SizedLogic, Parse, Fold, EncodeAll, AllWithin, ReadableFrames, ApplyLogic;
    var fa, fb := LogicFields(a), LogicFields(b);
    MergeLogicFields(NO_LOGIC, a, depth);
    MergeLogicFields(a, b, depth);
    TwoWithin(fa, fb, depth);
    EncodeAllConcat(fa, fb);
    FoldConcat(LOGIC, NO_LOGIC, fa, fb, depth);
    ParseEncoded(LOGIC, NO_LOGIC, fa + fb, depth);
    assert [] + a.frames == a.frames && [] + a.unknown == a.unknown;
  }

  lemma GuestMergeHomomorphism(a: Guest, b: Guest, depth: nat)
    requires GoodGuest(a) && SizedGuest(a) && GoodGuest(b) && SizedGuest(b)
    ensures ParseGuest(NO_GUEST, EncodeGuest(a) + EncodeGuest(b), depth) ==
            if ReadableGuest(a, depth) && ReadableGuest(b, depth) then Some(MergeGuest(a, b)) else None
  {
    hide GuestFields, GoodGuest, SizedGuest, Parse, Fold, EncodeAll, AllWithin, ReadableInfo, ApplyGuest;
    var fa, fb := GuestFields(a), GuestFields(b);
    MergeGuestFields(NO_GUEST, a, depth);
    MergeGuestFields(a, b, depth);
    TwoWithin(fa, fb, depth);
    EncodeAllConcat(fa, fb);
    FoldConcat(GUEST, NO_GUEST, fa, fb, depth);
    ParseEncoded(GUEST, NO_GUEST, fa + fb, depth);
    assert [] + a.unknown == a.unknown;
    if a.userinfo.Some? {
      assert [] + a.userinfo.value.unknown == a.userinfo.value.unknown;
    }
  }

  // ----- No part is longer than the whole.

  lemma {:induction false} PartIsShorter(fs: seq<Field>, i: nat)
    requires i < |fs| && fs[i].Bytes?
    ensures |fs[i].bytes| <= |EncodeAll(fs)|
    decreases i
  {
    hide VarintBytes;
    if i == 0 {
      assert Encode(fs[0]) == VarintBytes(Tag(fs[0])) + Payload(fs[0]);
    } else {
      PartIsShorter(fs[1..], i - 1);
    }
  }

  lemma {:induction false} OptAt(ms: seq<Event>, i: nat)
    requires i < |ms|
    ensures |OptFields(ms)| == |ms| && OptFields(ms)[i] == Bytes(2, EncodeEvent(ms[i]))
  {
    hide EncodeEvent;
    if i < |ms| - 1 {
      OptAt(ms[..|ms| - 1], i);
    } else if i > 0 {
      OptAt(ms[..|ms| - 1], 0);
    }
  }

  lemma {:induction false} UnsyncAt(ms: seq<Frame>, i: nat)
    requires i < |ms|
    ensures |UnsyncFields(ms)| == |ms| && UnsyncFields(ms)[i] == Bytes(2, EncodeFrame(ms[i]))
  {
    hide EncodeFrame;
    if i < |ms| - 1 {
      UnsyncAt(ms[..|ms| - 1], i);
    } else if i > 0 {
      UnsyncAt(ms[..|ms| - 1], 0);
    }
  }

  lemma FrameIsSized(m: Frame)
    requires |EncodeFrame(m)| <= INT_MAX
    ensures SizedFrame(m)
  {
    hide EncodeAll, EncodeEvent, OptFields, Int;
    forall i | 0 <= i < |m.opts| ensures |EncodeEvent(m.opts[i])| <= INT_MAX {
      OptAt(m.opts, i);
      PartIsShorter(FrameFields(m), |Int(1, m.frameid)| + i);
    }
  }

  lemma LogicIsSized(m: Logic)
    requires |EncodeLogic(m)| <= INT_MAX
    ensures SizedLogic(m)
  {
    hide EncodeAll, EncodeFrame, UnsyncFields, Int, SizedFrame;
    forall i | 0 <= i < |m.frames| ensures SizedFrame(m.frames[i]) && |EncodeFrame(m.frames[i])| <= INT_MAX {
      UnsyncAt(m.frames, i);
      PartIsShorter(LogicFields(m), |Int(1, m.frameid)| + i);
      FrameIsSized(m.frames[i]);
    }
  }

  lemma GuestIsSized(m: Guest)
    requires |EncodeGuest(m)| <= INT_MAX
    ensures SizedGuest(m)
  {
    hide EncodeAll, EncodeUser, Int;
    if m.userinfo.Some? {
      PartIsShorter(GuestFields(m), |Int(1, m.status)|);
    }
  }

  // ----- Whatever is parsed is good: it could have been written, and can be read again.

  lemma AddUnknown(us: seq<Field>, f: Field, depth: nat)
    requires ValidField(f) && Within(f, depth)
    ensures ValidFields(us) ==> ValidFields(us + [f])
    ensures AllWithin(us, depth) ==> AllWithin(us + [f], depth)
  {
    hide ValidField, Within;
  }

  lemma {:induction false} ParsedEventIsGood(m: Event, b: seq<Byte>, depth: nat)
    requires GoodEvent(m) && ReadableEvent(m, depth) && ParseEvent(m, b, depth).Some?
    ensures GoodEvent(ParseEvent(m, b, depth).value) && ReadableEvent(ParseEvent(m, b, depth).value, depth)
    decreases |b|
  {
    hide ReadField, ValidField, ToInt32, ValidFields, AllWithin;
    if b != [] {
      var f, size := ReadField(b, depth, 0).value, ReadField(b, depth, 0).size;
      ReadIsValid(b, depth, 0);
      AddUnknown(m.unknown, f, depth);
      ParsedEventIsGood(ApplyEvent(m, f, depth).value, b[size..], depth);
    }
  }

  lemma {:induction false} ParsedFrameIsGood(m: Frame, b: seq<Byte>, depth: nat)
    requires GoodFrame(m) && ReadableFrame(m, depth) && ParseFrame(m, b, depth).Some?
    ensures GoodFrame(ParseFrame(m, b, depth).value) && ReadableFrame(ParseFrame(m, b, depth).value, depth)
    decreases |b|
  {
    hide ReadField, ValidField, ToInt32, ParseEvent, ValidFields, AllWithin;
    if b != [] {
      var f, size := ReadField(b, depth, 2).value, ReadField(b, depth, 2).size;
      ReadIsValid(b, depth, 2);
      AddUnknown(m.unknown, f, depth);
      if NestedKnows(f) && f.Bytes? {
        NothingIsGood(depth - 1);
        ParsedEventIsGood(NO_EVENT, f.bytes, depth - 1);
      }
      ParsedFrameIsGood(ApplyFrame(m, f, depth).value, b[size..], depth);
    }
  }

  lemma {:induction false} ParsedLogicIsGood(m: Logic, b: seq<Byte>, depth: nat)
    requires GoodLogic(m) && ReadableLogic(m, depth) && ParseLogic(m, b, depth).Some?
    ensures GoodLogic(ParseLogic(m, b, depth).value) && ReadableLogic(ParseLogic(m, b, depth).value, depth)
    decreases |b|
  {
    hide ReadField, ValidField, ToInt32, ParseFrame, ValidFields, AllWithin;
    if b != [] {
      var f, size := ReadField(b, depth, 2).value, ReadField(b, depth, 2).size;
      ReadIsValid(b, depth, 2);
      AddUnknown(m.unknown, f, depth);
      if NestedKnows(f) && f.Bytes? {
        NothingIsGood(depth - 1);
        ParsedFrameIsGood(NO_FRAME, f.bytes, depth - 1);
      }
      ParsedLogicIsGood(ApplyLogic(m, f, depth).value, b[size..], depth);
    }
  }

  lemma {:induction false} ParsedUserIsGood(m: User, b: seq<Byte>, depth: nat)
    requires GoodUser(m) && ReadableUser(m, depth) && ParseUser(m, b, depth).Some?
    ensures GoodUser(ParseUser(m, b, depth).value) && ReadableUser(ParseUser(m, b, depth).value, depth)
    decreases |b|
  {
    hide ReadField, ToInt32, ValidFields, AllWithin, IsUtf8;
    if b != [] {
      var f, size := ReadField(b, depth, 0).value, ReadField(b, depth, 0).size;
      ReadIsValid(b, depth, 0);
      AddUnknown(m.unknown, f, depth);
      ParsedUserIsGood(ApplyUser(m, f, depth).value, b[size..], depth);
    }
  }

  lemma {:induction false} ParsedGuestIsGood(m: Guest, b: seq<Byte>, depth: nat)
    requires GoodGuest(m) && ReadableGuest(m, depth) && ParseGuest(m, b, depth).Some?
    ensures GoodGuest(ParseGuest(m, b, depth).value) && ReadableGuest(ParseGuest(m, b, depth).value, depth)
    decreases |b|
  {
    hide ReadField, ValidField, ToInt32, ParseUser, ValidFields, AllWithin, IsUtf8;
    if b != [] {
      var f, size := ReadField(b, depth, 2).value, ReadField(b, depth, 2).size;
      ReadIsValid(b, depth, 2);
      AddUnknown(m.unknown, f, depth);
      if NestedKnows(f) && f.Bytes? {
        NothingIsGood(depth - 1);
        ParsedUserIsGood(UserOf(m), f.bytes, depth - 1);
      }
      ParsedGuestIsGood(ApplyGuest(m, f, depth).value, b[size..], depth);
    }
  }

  lemma NothingIsGood(depth: nat)
    ensures GoodEvent(NO_EVENT) && ReadableEvent(NO_EVENT, depth)
    ensures GoodFrame(NO_FRAME) && ReadableFrame(NO_FRAME, depth)
    ensures GoodUser(NO_USER) && ReadableUser(NO_USER, depth)
  {
  }

  // ----- Fields that are not known

  // A message with more unknown fields in front parses the same, with those in front.
  lemma {:induction false} UnknownInFront(m: Logic, us: seq<Field>, b: seq<Byte>, depth: nat)
    ensures var r := ParseLogic(m, b, depth);
            ParseLogic(m.(unknown := us + m.unknown), b, depth) ==
            if r.None? then None else Some(r.value.(unknown := us + r.value.unknown))
    decreases |b|
  {
    hide ReadField, ParseFrame, ToInt32;
    if b != [] && ReadField(b, depth, 2).Read? {
      var f, size := ReadField(b, depth, 2).value, ReadField(b, depth, 2).size;
      var next := ApplyLogic(m, f, depth);
      if next.Some? {
        assert us + (m.unknown + [f]) == us + m.unknown + [f];
        UnknownInFront(next.value, us, b[size..], depth);
      }
    }
  }

  // A field that the message does not know may stand anywhere between others:
  // it is kept, in its place among the unknown ones, and changes nothing else,
  // exactly if it nests nothing too deep.
  lemma LogicKeepsUnknown(m: Logic, a: seq<Byte>, f: Field, b: seq<Byte>, depth: nat)
    requires ParseLogic(m, a, depth).Some? && Whole(a, depth, 2) && ValidField(f) && !NestedKnows(f)
    ensures var before, without := ParseLogic(m, a, depth).value.unknown, ParseLogic(m, a + b, depth);
            && (without.Some? ==> |before| <= |without.value.unknown|)
            && ParseLogic(m, a + (Encode(f) + b), depth) ==
               if without.None? || !Within(f, depth) then None
               else
                 Some(without.value.(unknown := before + [f] + without.value.unknown[|before|..]))
  {
    hide Encode, ReadField, ValidField, Parse, Within, Whole, ApplyLogic;
    ParseConcat(LOGIC, m, a, b, depth);
    ParseConcat(LOGIC, m, a, Encode(f) + b, depth);
    var mid := ParseLogic(m, a, depth).value;
    var bare := mid.(unknown := []);
    ParseField(mid, f, b, depth);
    UnknownInFront(bare, mid.unknown, b, depth);
    UnknownInFront(bare, mid.unknown + [f], b, depth);
    assert mid.unknown + [] == mid.unknown && mid.unknown + [f] + [] == mid.unknown + [f];
  }

  lemma ParseField(m: Logic, f: Field, b: seq<Byte>, depth: nat)
    requires ValidField(f) && !NestedKnows(f)
    ensures ParseLogic(m, Encode(f) + b, depth) ==
            if Within(f, depth) then ParseLogic(m.(unknown := m.unknown + [f]), b, depth) else None
  {
    hide Encode, ReadField, ValidField, Within;
    FieldRoundTrip(f, b, depth, 2);
    assert (Encode(f) + b)[|Encode(f)|..] == b;
    assert Encode(f) + b != [];
  }
  // ----- Messages cut short

  // The last field of `a` is a sub-message that says it is longer than what is
  // left, and is parsed all the same.  So what is parsed of `a` goes together
  // with what is parsed of any bytes behind it exactly if `a` is whole.
  lemma LogicConcatExactly(m: Logic, a: seq<Byte>, depth: nat)
    requires ParseLogic(m, a, depth).Some?
    ensures Whole(a, depth, 2) <==>
            forall b :: ParseLogic(m, a + b, depth) == ParseLogic(ParseLogic(m, a, depth).value, b, depth)
  {
    hide Parse, Whole, ApplyLogic;
    if Whole(a, depth, 2) {
      forall b ensures ParseLogic(m, a + b, depth) == ParseLogic(ParseLogic(m, a, depth).value, b, depth) {
        ParseConcat(LOGIC, m, a, b, depth);
      }
    } else {
      var id := ParseLogic(m, a, depth).value.frameid;
      var b: seq<Byte> := [8, if id == 1 then 2 else 1];
      SwallowsNext(m, a, b, depth);
      ParseId(ParseLogic(m, a, depth).value, b, depth);
    }
  }

  // A frameid of 1 or 2
  lemma ParseId(m: Logic, b: seq<Byte>, depth: nat)
    requires |b| == 2 && b[0] == 8 && b[1] in {1, 2}
    ensures ParseLogic(m, b, depth) == Some(m.(frameid := b[1]))
  {
    hide Parse, ApplyLogic;
    assert b == EncodeAll(Int(1, b[1])) by {
      EncodeOne(Varint(1, b[1]));
    }
    assert m.frames + [] == m.frames && m.unknown + [] == m.unknown;
    ParseEncodedLogic(m, Logic(b[1], [], []), depth);
    assert Int(1, b[1]) + [] + [] == Int(1, b[1]);
  }

  // A length that says more than there is
  lemma ClippedShort(b: seq<Byte>, more: seq<Byte>)
    requires ReadClipped(b).Read? && ReadDelimited(b).Fail? && |more| == 2
    ensures ReadClipped(b).size == |b|
    ensures ReadClipped(b + more).Read? && |b| < ReadClipped(b + more).size <= |b| + 2
  {
    hide ReadVarintIn;
    VarintPrefix(b, more, MAX_VARINT);
  }

  lemma FieldCutShort(a: seq<Byte>, b: seq<Byte>, depth: nat)
    requires ReadField(a, depth, 2).Read? && !IsWhole(a, depth, 2) && |b| == 2
    ensures var (r, s) := (ReadField(a, depth, 2), ReadField(a + b, depth, 2));
            && r.value.Bytes? && r.value.number == 2 && r.size == |a|
            && s.Read? && s.value.Bytes? && s.value.number == 2 && |a| < s.size
  {
    hide ReadTag, ReadPayload, ReadClipped, ReadDelimited;
    TagPrefix(a, b);
    ClippedShort(a[ReadTag(a).size..], b);
  }

  lemma NoFieldLeft(m: Logic, c: Byte, depth: nat)
    requires c in {1, 2}
    ensures ParseLogic(m, [c], depth).None? && ParseLogic(m, [], depth) == Some(m)
  {
    hide ReadPayload;
    assert ReadVarintIn([c], MAX_VARINT) == Read(c, 1);
    NoFieldZero(c, [], depth);
  }

  lemma NoFieldZero(tag: nat, b: seq<Byte>, depth: nat)
    requires tag < 8
    ensures ReadPayload(tag, b, depth).Fail?
  {
  }

  lemma BytesKeepId(m: Logic, f: Field, depth: nat)
    requires f.Bytes? && f.number == 2 && ApplyLogic(m, f, depth).Some?
    ensures ApplyLogic(m, f, depth).value.frameid == m.frameid
  {
    hide ParseFrame;
  }

  lemma {:induction false} SwallowsNext(m: Logic, a: seq<Byte>, b: seq<Byte>, depth: nat)
    requires ParseLogic(m, a, depth).Some? && !Whole(a, depth, 2)
    requires |b| == 2 && b[1] in {1, 2}
    ensures var r := ParseLogic(m, a + b, depth);
            r.Some? ==> r.value.frameid == ParseLogic(m, a, depth).value.frameid
    decreases |a|
  {
    hide ReadField, IsWhole, ApplyLogic;
    var r, s := ReadField(a, depth, 2), ReadField(a + b, depth, 2);
    if IsWhole(a, depth, 2) {
      FieldPrefix(a, b, depth, 2);
      assert (a + b)[r.size..] == a[r.size..] + b;
      SwallowsNext(ApplyLogic(m, r.value, depth).value, a[r.size..], b, depth);
    } else {
      FieldCutShort(a, b, depth);
      BytesKeepId(m, r.value, depth);
      NoFieldLeft(ApplyLogic(m, r.value, depth).value, b[1], depth);
      assert a[r.size..] == [];
      if ApplyLogic(m, s.value, depth).Some? {
        BytesKeepId(m, s.value, depth);
        var next := ApplyLogic(m, s.value, depth).value;
        NoFieldLeft(next, b[1], depth);
        assert (a + b)[s.size..] == if s.size == |a| + 1 then [b[1]] else [];
        assert ParseLogic(m, a + b, depth) == ParseLogic(next, (a + b)[s.size..], depth);
      }
    }
  }

  // A length of five with nothing behind it: one frame without fields
  lemma CutShortIsParsed(depth: nat)
    requires depth > 0
    ensures ParseLogic(NO_LOGIC, [18, 5], depth) == Some(Logic(0, [NO_FRAME], [])) && !Whole([18, 5], depth, 2)
  {
    hide ReadClipped, ReadDelimited, ReadVarint;
    var b: seq<Byte> := [18, 5];
    LengthOfFive();
    assert b[1..] == [5] && b[2..] == [];
    assert ReadField(b, depth, 2) == Read(Bytes(2, []), 2);
    assert ParseFrame(NO_FRAME, [], depth - 1) == Some(NO_FRAME) && [] + [NO_FRAME] == [NO_FRAME];
    assert ApplyLogic(NO_LOGIC, Bytes(2, []), depth) == Some(Logic(0, [NO_FRAME], []));
  }

  lemma LengthOfFive()
    ensures ReadTag([18, 5]) == Read(18, 1) && ReadClipped([5]) == Read([], 1) && ReadDelimited([5]).Fail?
  {
    assert ReadVarintIn([18, 5], MAX_VARINT) == Read(18, 1) && ReadVarintIn([5], MAX_VARINT) == Read(5, 1);
    assert [5][1..] == [];
  }
}
