/**
 Renderer handles. A retained command names an object by a number whose id is
 never given out again, so a command that outlives its object resolves to
 nothing. The handle rides in the low 40 bits of the command's word, under an
 opacity byte and two clip bytes.
 */
module Handles {
  import opened Options

  const ID_WRAP := 0x1_0000_0000

  /** A handle by its two fields; Pack below is the number it travels as. */
  datatype Handle = Handle(kind: nat, id: nat)

  datatype Entry = Entry(obj: nat, kind: nat, id: nat)

  /** handles[..handles_len] and handle_next, an unsigned 32-bit counter. */
  datatype Registry = Registry(entries: seq<Entry>, next: nat)

  const Empty := Registry([], 1)

  // --- the registry ---

  function FindObject(es: seq<Entry>, obj: nat): (i: nat)
    ensures i <= |es| && (i < |es| ==> es[i].obj == obj)
    ensures forall j | 0 <= j < i :: es[j].obj != obj
  {
    if es == [] || es[0].obj == obj then 0 else 1 + FindObject(es[1..], obj)
  }

  function FindId(es: seq<Entry>, id: nat): (i: nat)
    ensures i <= |es| && (i < |es| ==> es[i].id == id)
    ensures forall j | 0 <= j < i :: es[j].id != id
  {
    if es == [] || es[0].id == id then 0 else 1 + FindId(es[1..], id)
  }

  /** declare_handle_for: an object keeps the kind it was registered with. */
  function For(r: Registry, obj: nat, kind: nat): (Registry, Handle) {
    var i := FindObject(r.entries, obj);
    if i < |r.entries| then (r, Handle(r.entries[i].kind, r.entries[i].id))
    else (Registry(r.entries + [Entry(obj, kind, r.next)], (r.next + 1) % ID_WRAP), Handle(kind, r.next))
  }

  /** declare_handle_get */
  function Get(r: Registry, handle: Handle): Option<Entry> {
    var i := FindId(r.entries, handle.id);
    if i == |r.entries| || r.entries[i].kind != handle.kind then None else Some(r.entries[i])
  }

  /** declare_handle_drop: the last entry takes the dropped one's place. */
  function Drop(r: Registry, obj: nat): Registry {
    var i := FindObject(r.entries, obj);
    if i == |r.entries| then r
    else var n := |r.entries| - 1; r.(entries := r.entries[i := r.entries[n]][..n])
  }

  ghost predicate Valid(r: Registry) {
    && (forall i | 0 <= i < |r.entries| :: r.entries[i].id < r.next)
    && (forall i, j | 0 <= i < j < |r.entries| ::
          r.entries[i].id != r.entries[j].id && r.entries[i].obj != r.entries[j].obj)
  }

  datatype Step = Register(obj: nat, kind: nat) | Forget(obj: nat)

  function Take(r: Registry, s: Step): Registry {
    match s
    case Register(o, k) => For(r, o, k).0
    case Forget(o) => Drop(r, o)
  }

  function Run(r: Registry, steps: seq<Step>): Registry {
    if steps == [] then r else Take(Run(r, steps[..|steps| - 1]), steps[|steps| - 1])
  }

  /** The counter has not wrapped in this many steps. */
  predicate BelowWrap(r: Registry, steps: seq<Step>) {
    steps != [] ==>
      BelowWrap(r, steps[..|steps| - 1]) && Run(r, steps[..|steps| - 1]).next < ID_WRAP - 1
  }

  /** An id that was given out and is not registered any more. */
  ghost predicate Spent(r: Registry, id: nat) {
    id < r.next && forall i | 0 <= i < |r.entries| :: r.entries[i].id != id
  }

  lemma DropExact(r: Registry, obj: nat)
    requires Valid(r)
    ensures Valid(Drop(r, obj)) && Drop(r, obj).next == r.next
    ensures forall e :: e in Drop(r, obj).entries <==> e in r.entries && e.obj != obj
  {
    if FindObject(r.entries, obj) < |r.entries| {
      DropMoves(r, obj);
      DropValid(r, obj);
      DropMembers(r, obj);
    } else {
      assert forall j | 0 <= j < |r.entries| :: r.entries[j].obj != obj;
    }
  }

  /** Where the entries are after a drop. */
  predicate Moved(es: seq<Entry>, left: seq<Entry>, i: nat) {
    && i < |es| && |left| == |es| - 1
    && forall j | 0 <= j < |left| :: left[j] == if j == i then es[|left|] else es[j]
  }

  lemma DropMoves(r: Registry, obj: nat)
    requires FindObject(r.entries, obj) < |r.entries|
    ensures Moved(r.entries, Drop(r, obj).entries, FindObject(r.entries, obj)) && Drop(r, obj).next == r.next
  {
  }

  lemma DropValid(r: Registry, obj: nat)
    requires Valid(r) && Moved(r.entries, Drop(r, obj).entries, FindObject(r.entries, obj))
             && Drop(r, obj).next == r.next
    ensures Valid(Drop(r, obj))
  {
    var i, n, es := FindObject(r.entries, obj), |r.entries| - 1, Drop(r, obj).entries;
    forall j, k | 0 <= j < k < n ensures es[j].id != es[k].id && es[j].obj != es[k].obj {
      assert es[j] == r.entries[if j == i then n else j] && es[k] == r.entries[if k == i then n else k];
    }
  }

  lemma DropMembers(r: Registry, obj: nat)
    requires Valid(r) && Moved(r.entries, Drop(r, obj).entries, FindObject(r.entries, obj))
    ensures forall e :: e in Drop(r, obj).entries <==> e in r.entries && e.obj != obj
  {
    var i, n, es := FindObject(r.entries, obj), |r.entries| - 1, Drop(r, obj).entries;
    forall e ensures e in es <==> e in r.entries && e.obj != obj {
      if e in es {
        var j :| 0 <= j < n && es[j] == e;
        assert r.entries[if j == i then n else j] == e;
      }
      if e in r.entries && e.obj != obj {
        var j :| 0 <= j < |r.entries| && r.entries[j] == e;
        assert es[if j == n then i else j] == e;
      }
    }
  }

  lemma ForExact(r: Registry, obj: nat, kind: nat)
    requires Valid(r) && r.next < ID_WRAP - 1
    ensures Valid(For(r, obj, kind).0) && r.next <= For(r, obj, kind).0.next
    ensures forall e | e in r.entries :: e in For(r, obj, kind).0.entries
    ensures forall e | e in For(r, obj, kind).0.entries :: e in r.entries || (e.obj == obj && e.id == r.next)
    ensures exists e :: e in For(r, obj, kind).0.entries && e.obj == obj && For(r, obj, kind).1 == Handle(e.kind, e.id)
  {
    var i := FindObject(r.entries, obj);
    var t := For(r, obj, kind).0;
    if i < |r.entries| {
      assert r.entries[i] in t.entries;
    } else {
      assert t.entries[|r.entries|] == Entry(obj, kind, r.next);
    }
  }

  lemma StepValid(r: Registry, s: Step)
    requires Valid(r) && r.next < ID_WRAP - 1
    ensures Valid(Take(r, s)) && r.next <= Take(r, s).next
  {
    match s
    case Register(o, k) => ForExact(r, o, k);
    case Forget(o) => DropExact(r, o);
  }

  lemma {:induction false} RunValid(r: Registry, steps: seq<Step>)
    requires Valid(r) && BelowWrap(r, steps)
    ensures Valid(Run(r, steps)) && r.next <= Run(r, steps).next
    decreases |steps|
  {
    if steps != [] {
      RunValid(r, steps[..|steps| - 1]);
      StepValid(Run(r, steps[..|steps| - 1]), steps[|steps| - 1]);
    }
  }

  /** A registered entry is what its handle resolves to, and nothing else is. */
  lemma GetExact(r: Registry, kind: nat, id: nat)
    requires Valid(r)
    ensures forall e :: Get(r, Handle(kind, id)) == Some(e) <==> e in r.entries && e.id == id && e.kind == kind
  {
    var i := FindId(r.entries, id);
    forall e | e in r.entries && e.id == id ensures i < |r.entries| && r.entries[i] == e {
      var j :| 0 <= j < |r.entries| && r.entries[j] == e;
    }
  }

  lemma {:induction false} SpentStays(r: Registry, id: nat, steps: seq<Step>)
    requires Valid(r) && Spent(r, id) && BelowWrap(r, steps)
    ensures Spent(Run(r, steps), id)
    decreases |steps|
  {
    if steps != [] {
      var t := Run(r, steps[..|steps| - 1]);
      RunValid(r, steps[..|steps| - 1]);
      SpentStays(r, id, steps[..|steps| - 1]);
      match steps[|steps| - 1] {
        case Register(o, k) => ForExact(t, o, k);
        case Forget(o) => DropExact(t, o);
      }
      forall i | 0 <= i < |Run(r, steps).entries| ensures Run(r, steps).entries[i].id != id {
        var e := Run(r, steps).entries[i];
        assert e in Run(r, steps).entries;
        if e in t.entries { var j :| 0 <= j < |t.entries| && t.entries[j] == e; }
      }
    }
  }

  /** A dropped entry's id is spent. */
  lemma DroppedIsSpent(t: Registry, e: Entry)
    requires Valid(t) && e in t.entries
    ensures Valid(Drop(t, e.obj)) && e.id < Drop(t, e.obj).next
    ensures forall f | f in Drop(t, e.obj).entries :: f.id != e.id
  {
    DropExact(t, e.obj);
    var k :| 0 <= k < |t.entries| && t.entries[k] == e;
    forall f | f in Drop(t, e.obj).entries ensures f.id != e.id {
      var j :| 0 <= j < |t.entries| && t.entries[j] == f;
    }
  }

  /** Once an object is dropped its handle resolves to nothing, in every later
      state, whatever is registered after, the same object included. */
  lemma {:induction false} DroppedNeverResolves(r: Registry, obj: nat, kind: nat, steps: seq<Step>)
    requires Valid(r) && r.next < ID_WRAP - 1
    requires BelowWrap(Drop(For(r, obj, kind).0, obj), steps)
    ensures Get(Run(Drop(For(r, obj, kind).0, obj), steps), For(r, obj, kind).1) == None
  {
    var (t, h) := For(r, obj, kind);
    ForExact(r, obj, kind);
    var e :| e in t.entries && e.obj == obj && h == Handle(e.kind, e.id);
    DroppedIsSpent(t, e);
    var d := Drop(t, obj);
    SpentStays(d, e.id, steps);
    RunValid(d, steps);
    GetExact(Run(d, steps), e.kind, e.id);
  }

  predicate NeverForgets(steps: seq<Step>, obj: nat) {
    forall i | 0 <= i < |steps| :: steps[i] != Forget(obj)
  }

  /** Until its object is dropped a handle resolves to exactly that object, and asking
      for it again gives the same handle, whatever kind is asked for. */
  lemma {:induction false} LiveResolves(r: Registry, obj: nat, kind: nat, steps: seq<Step>, again: nat)
    requires Valid(r) && r.next < ID_WRAP - 1
    requires BelowWrap(For(r, obj, kind).0, steps) && NeverForgets(steps, obj)
    ensures var h := For(r, obj, kind).1; var last := Run(For(r, obj, kind).0, steps);
            && Get(last, h).Some? && Get(last, h).value.obj == obj
            && For(last, obj, again) == (last, h)
  {
    var (t, h) := For(r, obj, kind);
    ForExact(r, obj, kind);
    var e :| e in t.entries && e.obj == obj && h == Handle(e.kind, e.id);
    EntryStays(t, e, steps);
    var last := Run(t, steps);
    RunValid(t, steps);
    GetExact(last, e.kind, e.id);
    assert Get(last, h) == Some(e);
    var j :| 0 <= j < |last.entries| && last.entries[j] == e;
    assert FindObject(last.entries, obj) == j;
  }

  lemma {:induction false} EntryStays(r: Registry, e: Entry, steps: seq<Step>)
    requires Valid(r) && BelowWrap(r, steps) && e in r.entries && NeverForgets(steps, e.obj)
    ensures e in Run(r, steps).entries
    decreases |steps|
  {
    if steps != [] {
      var t := Run(r, steps[..|steps| - 1]);
      EntryStays(r, e, steps[..|steps| - 1]);
      RunValid(r, steps[..|steps| - 1]);
      match steps[|steps| - 1] {
        case Register(o, k) => ForExact(t, o, k);
        case Forget(o) => DropExact(t, o);
      }
    }
  }

  /** The static array, its length and the counter. */
  class Table {
    var entries: array<Entry>
    var len: nat
    var next: nat

    ghost predicate Valid()
      reads this
    {
      len <= entries.Length
    }

    ghost function Model(): Registry
      requires Valid()
      reads this, entries
    {
      Registry(entries[..len], next)
    }

    constructor ()
      ensures Valid() && Model() == Empty
    {
      entries, len, next := new Entry[0], 0, 1;
    }

    method HandleFor(obj: nat, kind: nat) returns (handle: Handle)
      requires Valid()
      modifies this, entries
      ensures Valid() && (Model(), handle) == For(old(Model()), obj, kind)
    {
      for i := 0 to len
        invariant forall j | 0 <= j < i :: entries[j].obj != obj
      {
        if entries[i].obj == obj {
          assert entries[..len][i].obj == obj;
          return Handle(entries[i].kind, entries[i].id);
        }
      }
      assert FindObject(entries[..len], obj) == len;
      ghost var es := entries[..len];
      if len == entries.Length {
        var grown := new Entry[if len == 0 then 32 else len * 2];
        forall i | 0 <= i < len { grown[i] := entries[i]; }
        assert grown[..len] == es;
        entries := grown;
      }
      entries[len] := Entry(obj, kind, next);
      len, next := len + 1, (next + 1) % ID_WRAP;
      assert entries[..len] == es + [entries[len - 1]];
      handle := Handle(kind, entries[len - 1].id);
    }

    method HandleGet(handle: Handle) returns (e: Option<Entry>)
      requires Valid()
      ensures e == Get(Model(), handle)
    {
      for i := 0 to len
        invariant forall j | 0 <= j < i :: entries[j].id != handle.id
      {
        if entries[i].id == handle.id {
          assert entries[..len][i].id == handle.id;
          if entries[i].kind != handle.kind { return None; }
          return Some(entries[i]);
        }
      }
      assert FindId(entries[..len], handle.id) == len;
      e := None;
    }

    method HandleDrop(obj: nat)
      requires Valid()
      modifies this, entries
      ensures Valid() && Model() == Drop(old(Model()), obj)
    {
      ghost var es := entries[..len];
      for i := 0 to len
        invariant entries[..len] == es
        invariant forall j | 0 <= j < i :: entries[j].obj != obj
      {
        if entries[i].obj == obj {
          assert es[i].obj == obj && FindObject(es, obj) == i;
          len := len - 1;
          entries[i] := entries[len];
          assert entries[..len] == es[i := es[len]][..len];
          return;
        }
      }
      assert FindObject(es, obj) == len;
    }
  }

  // --- the word ---

  const OWNER_MASK: bv64 := 0xFF_FFFF_FFFF

  /** handle_pack: the kind in bits 32 to 39, the id below. */
  function Pack(kind: bv64, id: bv64): bv64 {
    (kind << 32) | id
  }

  /** leaf_userdata and userdata_clip, with the opacity byte given. */
  function Word(handle: bv64, opacity: bv64, opens: bv64, clip: bv64): bv64 {
    handle | (opacity << 40) | (opens << 48) | (clip << 56)
  }

  /** declare_userdata_handle */
  function HandleOf(word: bv64): bv64 {
    word & OWNER_MASK
  }

  /** declare_handle_get's two fields */
  function IdOf(handle: bv64): bv64 { handle & 0xFFFF_FFFF }
  function KindOf(handle: bv64): bv64 { handle >> 32 }

  /** Any handle is recovered unchanged from a word with any opacity and clip bytes,
      and so are its two fields and each byte. */
  lemma WordKeepsHandle(kind: bv64, id: bv64, opacity: bv64, opens: bv64, clip: bv64)
    requires kind <= 0xFF && id <= 0xFFFF_FFFF && opacity <= 0xFF && opens <= 0xFF && clip <= 0xFF
    ensures var w := Word(Pack(kind, id), opacity, opens, clip);
            && HandleOf(w) == Pack(kind, id) && IdOf(HandleOf(w)) == id && KindOf(HandleOf(w)) == kind
            && (w >> 40) & 0xFF == opacity && (w >> 48) & 0xFF == opens && (w >> 56) & 0xFF == clip
  {
  }

  /** The byte for an opacity, 1 + opacity * 254 rounded, and the opacity for a byte. */
  function OpacityByte(opacity: real): int {
    1 + (opacity * 254.0 + 0.5).Floor
  }

  function Opacity(byte: int): real {
    if byte == 0 then 1.0 else (byte - 1) as real / 254.0
  }

  /** Opacity survives the byte within half a step, and the ends exactly. */
  lemma OpacityWithinHalfStep(opacity: real)
    requires 0.0 <= opacity <= 1.0
    ensures 1 <= OpacityByte(opacity) <= 255
    ensures -1.0 / 508.0 <= Opacity(OpacityByte(opacity)) - opacity <= 1.0 / 508.0
    ensures opacity == 0.0 || opacity == 1.0 ==> Opacity(OpacityByte(opacity)) == opacity
  {
    var f := (opacity * 254.0 + 0.5).Floor;
    assert f as real <= opacity * 254.0 + 0.5 < f as real + 1.0;
    assert Opacity(OpacityByte(opacity)) * 254.0 == f as real;
  }
}
