// The reference system of lauxlib.c: a free list threaded through a table.
module LuaRef {
  // A Lua value, as far as references can tell values apart
  datatype Value = Nil | Integer(n: int) | Object(id: nat)

  // The integer keys of a table; a key that holds nil is absent.
  type Table = m: map<int, Value> | forall k :: k in m ==> !m[k].Nil?

  const FREELIST: int := 0
  const REFNIL: int := -1
  const MAX_INT: int := 0x7FFF_FFFF

  // lua_rawgeti and lua_rawseti
  function Get(t: Table, k: int): Value {
    if k in t then t[k] else Nil
  }

  function Set(t: Table, k: int, v: Value): (r: Table)
    ensures forall j :: Get(r, j) == if j == k then v else Get(t, j)
  {
    if v.Nil? then t - {k} else t[k := v]
  }

  // lua_tointeger
  function ToInteger(v: Value): int {
    if v.Integer? then v.n else 0
  }

  // What lua_rawlen may return
  predicate IsBorder(t: Table, n: nat) {
    (n == 0 || !Get(t, n).Nil?) && Get(t, n + 1).Nil?
  }

  // ----- The list threaded through the table

  predicate Threads(t: Table, k: int, l: seq<int>)
    decreases l
  {
    var next := ToInteger(Get(t, k));
    if l == [] then next == 0 else next == l[0] && l[0] != 0 && Threads(t, l[0], l[1..])
  }

  // There is one list at most, so it is finite and does not come back on itself.
  lemma {:induction false} ThreadsOnce(t: Table, k: int, l: seq<int>, l': seq<int>)
    requires Threads(t, k, l) && Threads(t, k, l')
    ensures l == l'
    decreases l
  {
    if l != [] && l' != [] {
      ThreadsOnce(t, l[0], l[1..], l'[1..]);
    }
  }

  lemma {:induction false} ThreadsAlike(t: Table, t': Table, k: int, l: seq<int>)
    requires Threads(t, k, l) && Get(t', k) == Get(t, k) && forall i :: i in l ==> Get(t', i) == Get(t, i)
    ensures Threads(t', k, l)
    decreases l
  {
    if l != [] {
      assert l[0] in l && forall i :: i in l[1..] ==> i in l;
      ThreadsAlike(t, t', l[0], l[1..]);
    }
  }

  // ----- What the table stands for

  // The free references, in the order they will be given out again, and the
  // live ones with the values they stand for, out of 1..used
  datatype Owners = Owners(free: seq<int>, live: map<int, Value>, used: nat)

  predicate Distinct(l: seq<int>) {
    forall i, j :: 0 <= i < j < |l| ==> l[i] != l[j]
  }

  ghost predicate Represents(t: Table, o: Owners) {
    && Threads(t, FREELIST, o.free) && Distinct(o.free)
    && (forall r :: 1 <= r <= o.used <==> (r in o.free || r in o.live))
    && (forall r :: r in o.live ==> r !in o.free && Get(t, r) == o.live[r] && !o.live[r].Nil?)
    && (forall k :: k > o.used ==> Get(t, k).Nil?)
  }

  function TakenKeys(t: Table): map<int, Value> {
    map k | k in t && k > 0 :: t[k]
  }

  // A table with its first `n` keys taken and nothing else
  predicate FreshTable(t: Table, n: nat) {
    && Get(t, FREELIST).Nil? && (forall k :: k in t && k > 0 ==> k <= n)
    && forall k :: 1 <= k <= n ==> k in t
  }

  lemma FreshRepresents(t: Table, n: nat)
    requires FreshTable(t, n)
    ensures Represents(t, Owners([], TakenKeys(t), n))
  {
  }

  // ----- luaL_ref

  function RefOf(t: Table, len: nat): int {
    var head := ToInteger(Get(t, FREELIST));
    if head != 0 then head else len + 1
  }

  function RefTable(t: Table, v: Value, len: nat): Table {
    var ref := RefOf(t, len);
    var unlinked := if ToInteger(Get(t, FREELIST)) != 0 then Set(t, FREELIST, Get(t, ref)) else t;
    Set(unlinked, ref, v)
  }

  // What a reference to `v` should do: reuse the last one freed, or else the next index.
  function Taken(o: Owners, v: Value): (int, Owners) {
    if o.free == [] then (o.used + 1, Owners([], o.live[o.used + 1 := v], o.used + 1))
    else (o.free[0], o.(free := o.free[1..], live := o.live[o.free[0] := v]))
  }

  // When nothing is free, the border is where the indices in use end.
  lemma BorderIsUsed(t: Table, o: Owners, n: nat)
    requires Represents(t, o) && o.free == []
    ensures IsBorder(t, n) <==> n == o.used
  {
  }

  lemma RefKeeps(t: Table, o: Owners, v: Value, len: nat)
    requires Represents(t, o) && !v.Nil? && (o.free == [] ==> IsBorder(t, len))
    ensures var (ref, next) := Taken(o, v);
            && RefOf(t, len) == ref && ref !in o.live && 1 <= ref <= next.used
            && Represents(RefTable(t, v, len), next)
  {
    if o.free == [] {
      BorderIsUsed(t, o, len);
      ThreadsAlike(t, RefTable(t, v, len), FREELIST, []);
    } else {
      ReuseKeeps(t, o, v, len);
    }
  }

  lemma ReuseKeeps(t: Table, o: Owners, v: Value, len: nat)
    requires Represents(t, o) && !v.Nil? && o.free != []
    ensures var (ref, next) := Taken(o, v);
            && RefOf(t, len) == ref && ref !in o.live && 1 <= ref <= next.used
            && Represents(RefTable(t, v, len), next)
  {
    hide RefTable, RefOf;
    var ref, rest, t' := o.free[0], o.free[1..], RefTable(t, v, len);
    RestOfFree(o.free);
    assert ref in o.free && ref != FREELIST;
    ReuseSlots(t, v, len);
    assert forall i :: i in rest ==> i in o.free && i != FREELIST;
    ThreadsFrom(t, t', ref, FREELIST, rest);
  }

  lemma RestOfFree(free: seq<int>)
    requires free != [] && Distinct(free)
    ensures Distinct(free[1..]) && free[0] !in free[1..]
    ensures forall r :: r in free <==> r == free[0] || r in free[1..]
  {
    assert free == [free[0]] + free[1..];
  }

  lemma ReuseSlots(t: Table, v: Value, len: nat)
    requires ToInteger(Get(t, FREELIST)) != 0
    ensures RefOf(t, len) == ToInteger(Get(t, FREELIST))
    ensures forall k ::
              Get(RefTable(t, v, len), k) ==
              if k == RefOf(t, len) then v else if k == FREELIST then Get(t, RefOf(t, len)) else Get(t, k)
  {
  }

  // The list behind one slot is the list behind any other that holds the same.
  lemma ThreadsFrom(t: Table, t': Table, k: int, k': int, l: seq<int>)
    requires Threads(t, k, l) && Get(t', k') == Get(t, k) && forall i :: i in l ==> Get(t', i) == Get(t, i)
    ensures Threads(t', k', l)
  {
    if l != [] {
      assert l[0] in l && forall i :: i in l[1..] ==> i in l;
      ThreadsAlike(t, t', l[0], l[1..]);
    }
  }

  // ----- luaL_unref

  function UnrefTable(t: Table, ref: int): Table {
    if ref >= 0 then Set(Set(t, ref, Get(t, FREELIST)), FREELIST, Integer(ref)) else t
  }

  function Freed(o: Owners, ref: int): Owners {
    if ref >= 0 then o.(free := [ref] + o.free, live := o.live - {ref}) else o
  }

  lemma UnrefKeeps(t: Table, o: Owners, ref: int)
    requires Represents(t, o) && (ref < 0 || ref in o.live)
    ensures Represents(UnrefTable(t, ref), Freed(o, ref))
  {
    if ref >= 0 {
      var t', next := UnrefTable(t, ref), Freed(o, ref);
      assert 1 <= ref <= o.used && ref !in o.free;
      forall i | i in o.free ensures i != ref && i != FREELIST {
        assert 1 <= i <= o.used;
      }
      ThreadsFrom(t, t', FREELIST, ref, o.free);
      assert next.free[1..] == o.free;
    }
  }

  // ----- What is wrong with freeing what is not live

  // Slot `i` of the list leads to the slot behind it.
  lemma {:induction false} NextInList(t: Table, k: int, l: seq<int>, i: nat)
    requires Threads(t, k, l) && i < |l|
    ensures l[i] != 0 && ToInteger(Get(t, if i == 0 then k else l[i - 1])) == l[i]
    decreases l
  {
    if i > 0 {
      NextInList(t, l[0], l[1..], i - 1);
    }
  }

  // Slot 0 and the list up to a reference in it, once it is freed again
  predicate InLoop(o: Owners, i: nat, k: int) {
    k == FREELIST || exists j :: 0 <= j <= i < |o.free| && o.free[j] == k
  }

  lemma LoopGoesOn(t: Table, o: Owners, i: nat, k: int)
    requires Represents(t, o) && i < |o.free| && InLoop(o, i, k)
    ensures var next := ToInteger(Get(UnrefTable(t, o.free[i]), k)); next != 0 && InLoop(o, i, next)
  {
    var ref, t' := o.free[i], UnrefTable(t, o.free[i]);
    assert ref in o.free && 1 <= ref;
    if k == FREELIST {
      assert o.free[i] == ref;
    } else {
      var j :| 0 <= j <= i < |o.free| && o.free[j] == k;
      if j == i {
        NextInList(t, FREELIST, o.free, 0);
        assert o.free[0] == ToInteger(Get(t', k));
      } else {
        NextInList(t, FREELIST, o.free, j + 1);
        assert k in o.free && 1 <= k && k != ref;
        assert o.free[j + 1] == ToInteger(Get(t', k));
      }
    }
  }

  lemma {:induction false} LoopHasNoEnd(t: Table, o: Owners, i: nat, k: int, l: seq<int>)
    requires Represents(t, o) && i < |o.free| && InLoop(o, i, k)
    ensures !Threads(UnrefTable(t, o.free[i]), k, l)
    decreases l
  {
    hide Represents, InLoop, UnrefTable;
    LoopGoesOn(t, o, i, k);
    if l != [] && l[0] == ToInteger(Get(UnrefTable(t, o.free[i]), k)) {
      LoopHasNoEnd(t, o, i, l[0], l[1..]);
    }
  }

  // Freeing any reference that is free already ties the list into a loop.
  lemma FreedTwiceLoops(t: Table, o: Owners, ref: int, l: seq<int>)
    requires Represents(t, o) && ref in o.free
    ensures !Threads(UnrefTable(t, ref), FREELIST, l)
  {
    hide Represents, UnrefTable;
    var i :| 0 <= i < |o.free| && o.free[i] == ref;
    LoopHasNoEnd(t, o, i, FREELIST, l);
  }

  // The list that is left when a reference that is not free is freed
  function ThreadedAfter(o: Owners, ref: int): seq<int> {
    if ref < 0 then o.free else if ref == 0 then [] else [ref] + o.free
  }

  lemma FreedOnceThreads(t: Table, o: Owners, ref: int)
    requires Represents(t, o) && ref !in o.free
    ensures Threads(UnrefTable(t, ref), FREELIST, ThreadedAfter(o, ref))
  {
    var t' := UnrefTable(t, ref);
    if ref > 0 {
      assert forall i :: i in o.free ==> 1 <= i;
      ThreadsFrom(t, t', FREELIST, ref, o.free);
      assert ([ref] + o.free)[1..] == o.free;
    }
  }

  // For every number at all, the list stays finite exactly if that number was not free.
  lemma UnrefThreads(t: Table, o: Owners, ref: int)
    requires Represents(t, o)
    ensures (exists l :: Threads(UnrefTable(t, ref), FREELIST, l)) <==> ref !in o.free
  {
    hide Represents, UnrefTable;
    if ref in o.free {
      forall l ensures !Threads(UnrefTable(t, ref), FREELIST, l) {
        FreedTwiceLoops(t, o, ref, l);
      }
    } else {
      FreedOnceThreads(t, o, ref);
      assert Threads(UnrefTable(t, ref), FREELIST, ThreadedAfter(o, ref));
    }
  }

  // The table goes on standing for the references as freed exactly if the
  // number was that of a live reference, or one of those that are ignored.
  lemma UnrefRepresents(t: Table, o: Owners, ref: int)
    requires Represents(t, o)
    ensures Represents(UnrefTable(t, ref), Freed(o, ref)) <==> ref < 0 || ref in o.live
  {
    hide Threads, UnrefTable;
    if ref < 0 || ref in o.live {
      UnrefKeeps(t, o, ref);
    } else if ref in o.free {
      var i :| 0 <= i < |o.free| && o.free[i] == ref;
      var l := Freed(o, ref).free;
      assert l[0] == ref && l[i + 1] == ref;
    } else {
      assert Freed(o, ref).free[0] == ref && ref in Freed(o, ref).free;
    }
  }

  // Freeing the newest reference again undoes taking it, but for the value left in it.
  lemma TakenThenFreed(o: Owners, v: Value)
    requires o.free != [] && o.free[0] !in o.live && o.free[0] > 0
    ensures Freed(Taken(o, v).1, Taken(o, v).0) == o
  {
  }

  // ----- Histories

  datatype Op = Ref(v: Value, len: nat) | Unref(ref: int)

  datatype World = World(table: Table, owners: Owners)

  // What the callers of the two functions have to see to, and what Lua does:
  // the length asked for is a border of the table.
  predicate Allowed(w: World, op: Op) {
    match op
    case Ref(v, len) => w.owners.free == [] ==> IsBorder(w.table, len)
    case Unref(ref) => ref < 0 || ref in w.owners.live
  }

  function Do(w: World, op: Op): World {
    match op
    case Ref(v, len) =>
      if v.Nil? then w else World(RefTable(w.table, v, len), Taken(w.owners, v).1)
    case Unref(ref) => World(UnrefTable(w.table, ref), Freed(w.owners, ref))
  }

  function Worlds(w: World, ops: seq<Op>): World {
    if ops == [] then w else Do(Worlds(w, ops[..|ops| - 1]), ops[|ops| - 1])
  }

  predicate History(w: World, ops: seq<Op>) {
    forall i :: 0 <= i < |ops| ==> Allowed(Worlds(w, ops[..i]), ops[i])
  }

  lemma HistoryPrefix(w: World, ops: seq<Op>)
    requires History(w, ops) && ops != []
    ensures History(w, ops[..|ops| - 1]) && Allowed(Worlds(w, ops[..|ops| - 1]), ops[|ops| - 1])
  {
    var init := ops[..|ops| - 1];
    forall i | 0 <= i < |init| ensures Allowed(Worlds(w, init[..i]), init[i]) {
      assert init[..i] == ops[..i];
    }
  }

  // Over any history, free and live references share out the indices in use,
  // and the table holds exactly the values of the live ones.
  lemma {:induction false} HistoryKeeps(w: World, ops: seq<Op>)
    requires Represents(w.table, w.owners) && History(w, ops)
    ensures Represents(Worlds(w, ops).table, Worlds(w, ops).owners)
  {
    hide Represents;
    if ops != [] {
      HistoryPrefix(w, ops);
      HistoryKeeps(w, ops[..|ops| - 1]);
      var before, op := Worlds(w, ops[..|ops| - 1]), ops[|ops| - 1];
      if op.Unref? {
        UnrefKeeps(before.table, before.owners, op.ref);
      } else if !op.v.Nil? {
        RefKeeps(before.table, before.owners, op.v, op.len);
      }
    }
  }

  // A live reference keeps its value until it is freed.
  lemma {:induction false} LiveKeepsValue(w: World, ops: seq<Op>, ref: int)
    requires Represents(w.table, w.owners) && History(w, ops) && ref in w.owners.live
    requires forall i :: 0 <= i < |ops| ==> ops[i] != Unref(ref)
    ensures ref in Worlds(w, ops).owners.live && Get(Worlds(w, ops).table, ref) == Get(w.table, ref)
  {
    hide Represents, RefTable, UnrefTable;
    if ops != [] {
      HistoryPrefix(w, ops);
      var init, op := ops[..|ops| - 1], ops[|ops| - 1];
      LiveKeepsValue(w, init, ref);
      HistoryKeeps(w, init);
      HistoryKeeps(w, ops);
      var before, after := Worlds(w, init), Worlds(w, ops);
      LiveValue(before, ref);
      if op.Ref? && !op.v.Nil? {
        RefKeeps(before.table, before.owners, op.v, op.len);
      }
      LiveValue(after, ref);
    }
  }

  lemma LiveValue(w: World, ref: int)
    requires Represents(w.table, w.owners) && ref in w.owners.live
    ensures Get(w.table, ref) == w.owners.live[ref]
  {
  }

  // ----- The functions themselves

  class Registry {
    var t: Table
    ghost var owners: Owners

    ghost predicate Valid()
      reads this
    {
      Represents(t, owners) && owners.used <= MAX_INT
    }

    constructor (t: Table, n: nat)
      requires FreshTable(t, n) && n <= MAX_INT
      ensures Valid() && this.t == t && owners == Owners([], TakenKeys(t), n)
    {
      FreshRepresents(t, n);
      this.t := t;
      owners := Owners([], TakenKeys(t), n);
    }

    // luaL_ref, where `len` is what lua_rawlen returns if it is called
    method Ref(v: Value, len: nat) returns (ref: int)
      requires Valid() && (owners.free == [] ==> IsBorder(t, len) && owners.used < MAX_INT)
      modifies this
      ensures Valid()
      ensures v.Nil? ==> ref == REFNIL && t == old(t) && owners == old(owners)
      ensures !v.Nil? ==> (ref, owners) == Taken(old(owners), v) && ref !in old(owners.live) && 1 <= ref <= MAX_INT
    {
      hide Represents, Threads;
      if v.Nil? {
        return REFNIL;
      }
      RefKeeps(t, owners, v, len);
      ref := ToInteger(Get(t, FREELIST));
      if ref != 0 {
        t := Set(t, FREELIST, Get(t, ref));
      } else {
        ref := len + 1;
      }
      t := Set(t, ref, v);
      owners := Taken(owners, v).1;
    }

    // luaL_unref
    method Unref(ref: int)
      requires Valid() && (ref < 0 || ref in owners.live)
      modifies this
      ensures Valid() && owners == Freed(old(owners), ref)
    {
      hide Represents, Threads;
      UnrefKeeps(t, owners, ref);
      if ref >= 0 {
        t := Set(t, ref, Get(t, FREELIST));
        t := Set(t, FREELIST, Integer(ref));
        owners := Freed(owners, ref);
      }
    }
  }
}
