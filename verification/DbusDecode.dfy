/**
 Turning the arguments of a D-Bus message into Lua values: a walk with an iterator
 that builds tables on the Lua stack with negative indices.
 */
module DbusDecode {
  import opened LuaValues

  datatype Basic = Boolean(flag: bool) | Byte(octet: int) | Integer(n: int) | Double(r: real) | Text(chars: seq<int>)

  /** The element type of an array whose elements have a fixed size. */
  datatype FixedKind = BooleanItems | ByteItems | IntegerItems | DoubleItems | FdItems

  /** A D-Bus value. Undecoded stands for the basic types without a case of their
      own: object paths, signatures and file descriptors. */
  datatype Arg =
    | Plain(v: Basic)
    | Undecoded
    | Variant(inner: Arg)
    | Struct(fields: seq<Arg>)
    | Entry(key: Arg, val: Arg)
    | FixedArray(kind: FixedKind, items: seq<Basic>)
    | DictArray(dict: seq<Arg>)
    | ListArray(elems: seq<Arg>)

  // --- the type system of the message ---

  predicate OfKind(kind: FixedKind, b: Basic) {
    match kind
    case BooleanItems => b.Boolean?
    case ByteItems => b.Byte?
    case IntegerItems => b.Integer?
    case DoubleItems => b.Double?
    case FdItems => b.Integer?
  }

  /** Dictionary entries occur as elements of their array and nowhere else, and
      their keys are basic. */
  predicate WellTyped(a: Arg)
    decreases a, 1
  {
    match a
    case Plain(_) => true
    case Undecoded => true
    case Variant(v) => WellTyped(v)
    case Struct(fs) => WellTypedAll(fs)
    case Entry(_, _) => false
    case FixedArray(kind, items) => forall i | 0 <= i < |items| :: OfKind(kind, items[i])
    case DictArray(es) => WellTypedEntries(es)
    case ListArray(es) => WellTypedAll(es)
  }

  predicate WellTypedAll(args: seq<Arg>)
    decreases args, 0
  {
    args != [] ==> WellTyped(args[0]) && WellTypedAll(args[1..])
  }

  predicate WellTypedEntries(es: seq<Arg>)
    decreases es, 0
  {
    es != [] ==> WellTypedEntry(es[0]) && WellTypedEntries(es[1..])
  }

  predicate WellTypedEntry(e: Arg)
    decreases e, 1
  {
    e.Entry? && (e.key.Plain? || e.key.Undecoded?) && WellTyped(e.val)
  }

  // --- what a message means ---

  // Denote says what a value must become, without a stack. The decoder is proved to leave
  // exactly those values, for every message tree that has no array of file descriptors and
  // no dictionary key of a type the decoder does not read, and for no other.

  /** A 64-bit integer as lua_Integer. */
  function Wrap(n: int): (w: int)
    ensures -TWO63 <= n < 2 * TWO63 ==> -TWO63 <= w < TWO63
    ensures w == n || w == n - 2 * TWO63
  {
    if n >= TWO63 then n - 2 * TWO63 else n
  }

  /** The Lua value that says the same: the flag, the one byte, the number, the string; an
      integer beyond lua_Integer comes around. */
  predicate SaysTheSame(b: Basic, v: Value) {
    match v
    case Bool(f) => b == Boolean(f)
    case Str(s) => b == Text(s) || (|s| == 1 && b == Byte(s[0]))
    case Num(r) => b == Double(r)
    case Int(n) => b == Integer(n) || (n < 0 && b == Integer(n + 2 * TWO63)) || (b.Integer? && b.n >= 2 * TWO63)
    case _ => false
  }

  function DenoteBasic(b: Basic): (v: Value)
    ensures v != Nil && SaysTheSame(b, v)
  {
    match b
    case Boolean(f) => Bool(f)
    case Byte(o) => Str([o])
    case Integer(n) => Int(Wrap(n))
    case Double(r) => Num(r)
    case Text(s) => Str(s)
  }

  function DenoteItems(items: seq<Basic>): (vs: seq<Value>)
    ensures |vs| == |items| && forall i | 0 <= i < |items| :: vs[i] == DenoteBasic(items[i])
  {
    seq(|items|, i requires 0 <= i < |items| => DenoteBasic(items[i]))
  }

  /** The bytes of an array of bytes, one string. */
  function Octets(items: seq<Basic>): (os: seq<int>)
    ensures |os| == |items| && forall i | 0 <= i < |items| && items[i].Byte? :: os[i] == items[i].octet
  {
    seq(|items|, i requires 0 <= i < |items| => if items[i].Byte? then items[i].octet else 0)
  }

  function Denote(a: Arg): Value
    decreases a, 1
  {
    match a
    case Plain(b) => DenoteBasic(b)
    case Undecoded => Nil
    case Variant(v) => Denote(v)
    case Struct(fs) => ArrayOf(DenoteAll(fs))
    case Entry(_, _) => Nil
    case FixedArray(kind, items) =>
      if kind == ByteItems then Str(Octets(items)) else ArrayOf(DenoteItems(items))
    case DictArray(es) => DictOf(DenotePairs(es))
    case ListArray(es) => ArrayOf(DenoteAll(es))
  }

  function DenoteAll(args: seq<Arg>): (vs: seq<Value>)
    ensures |vs| == |args|
    decreases args, 0
  {
    if args == [] then [] else [Denote(args[0])] + DenoteAll(args[1..])
  }

  function DenotePairs(es: seq<Arg>): (ps: seq<(Value, Value)>)
    ensures |ps| == |es|
    decreases es, 0
  {
    if es == [] then [] else [DenoteEntry(es[0])] + DenotePairs(es[1..])
  }

  function DenoteEntry(e: Arg): (Value, Value)
    decreases e, 1
  {
    if e.Entry? then (Denote(e.key), Denote(e.val)) else (Nil, Nil)
  }

  // --- which trees the decoder cannot read ---

  /** The arrays of file descriptors anywhere in a. */
  function FdArrays(a: Arg): nat
    decreases a, 1
  {
    match a
    case Plain(_) => 0
    case Undecoded => 0
    case Variant(v) => FdArrays(v)
    case Struct(fs) => FdArraysAll(fs)
    case Entry(k, v) => FdArrays(k) + FdArrays(v)
    case FixedArray(kind, _) => if kind == FdItems then 1 else 0
    case DictArray(es) => FdArraysAll(es)
    case ListArray(es) => FdArraysAll(es)
  }

  function FdArraysAll(args: seq<Arg>): nat
    decreases args, 0
  {
    if args == [] then 0 else FdArrays(args[0]) + FdArraysAll(args[1..])
  }

  /** Every dictionary key has a type the decoder reads. */
  predicate KeysRead(a: Arg)
    decreases a, 1
  {
    match a
    case Plain(_) => true
    case Undecoded => true
    case Variant(v) => KeysRead(v)
    case Struct(fs) => KeysReadAll(fs)
    case Entry(k, v) => k.Plain? && KeysRead(v)
    case FixedArray(_, _) => true
    case DictArray(es) => KeysReadAll(es)
    case ListArray(es) => KeysReadAll(es)
  }

  predicate KeysReadAll(args: seq<Arg>)
    decreases args, 0
  {
    args != [] ==> KeysRead(args[0]) && KeysReadAll(args[1..])
  }

  // --- the decoder as a function of the stack ---

  /** Fault is a Lua error or an index outside the stack. */
  datatype Outcome = Fault | Done(stack: seq<Value>, nargs: nat)

  /** lua_createtable, lua_insert below n values, then n times lua_rawseti. */
  function Collect(stack: seq<Value>, n: nat): Outcome {
    if |stack| < n then Fault
    else var k := |stack| - n; Done(stack[..k] + [ArrayOf(stack[k..])], 1)
  }

  function PairUp(vs: seq<Value>): (ps: seq<(Value, Value)>)
    requires |vs| % 2 == 0
    ensures |ps| == |vs| / 2
    ensures forall i | 0 <= i < |ps| :: ps[i] == (vs[2 * i], vs[2 * i + 1])
  {
    seq(|vs| / 2, i requires 0 <= i < |vs| / 2 => (vs[2 * i], vs[2 * i + 1]))
  }

  predicate NilKey(ps: seq<(Value, Value)>) {
    exists i :: 0 <= i < |ps| && ps[i].0 == Nil
  }

  /** The same for a dictionary: 2n values, n times lua_rawset, which refuses a nil key. */
  function CollectPairs(stack: seq<Value>, n: nat): Outcome {
    if |stack| < 2 * n then Fault
    else
      var k := |stack| - 2 * n;
      var ps := PairUp(stack[k..]);
      if NilKey(ps) then Fault else Done(stack[..k] + [DictOf(ps)], 1)
  }

  /** One argument of the message, with the count the loop adds for it. */
  function Item(stack: seq<Value>, a: Arg): (r: Outcome)
    ensures r.Done? ==> r.nargs == 1
    decreases a, 1
  {
    match a
    case Plain(b) => Done(stack + [DenoteBasic(b)], 1)
    case Undecoded => Done(stack + [Nil], 1)
    case Variant(v) => Item(stack, v)
    case Struct(fs) =>
      (match Iter(stack, fs) case Fault => Fault case Done(s, n) => Collect(s, n))
    case Entry(k, v) =>
      (match Item(stack, k) case Fault => Fault case Done(s, _) => Item(s, v))
    case FixedArray(kind, items) =>
      (match kind
       case FdItems => Done(stack, 1)
       case ByteItems => Done(stack + [Str(Octets(items))], 1)
       case _ => Done(stack + [ArrayOf(DenoteItems(items))], 1))
    case DictArray(es) =>
      (match Iter(stack, es) case Fault => Fault case Done(s, n) => CollectPairs(s, n))
    case ListArray(es) =>
      (match Iter(stack, es) case Fault => Fault case Done(s, n) => Collect(s, n))
  }

  /** All arguments from here to the end of the iterator. */
  function Iter(stack: seq<Value>, args: seq<Arg>): (r: Outcome)
    ensures r.Done? ==> r.nargs == |args|
    decreases args, 0
  {
    if args == [] then Done(stack, 0)
    else
      match Item(stack, args[0])
      case Fault => Fault
      case Done(s, _) =>
        match Iter(s, args[1..])
        case Fault => Fault
        case Done(t, n) => Done(t, n + 1)
  }

  // --- the decoder against the denotation ---

  /** The number of values an entry, or any other argument, leaves when all goes well. */
  function Width(a: Arg): nat {
    if a.Entry? then 2 else 1
  }

  function WidthAll(args: seq<Arg>): nat {
    if args == [] then 0 else Width(args[0]) + WidthAll(args[1..])
  }

  /** Every array of file descriptors costs one value, at any depth. */
  lemma {:induction false} ItemHeight(stack: seq<Value>, a: Arg)
    requires WellTyped(a) || (a.Entry? && WellTyped(a.key) && WellTyped(a.val))
    ensures Item(stack, a).Done? ==> |Item(stack, a).stack| == |stack| + Width(a) - FdArrays(a)
    decreases a, 1
  {
    match a
    case Plain(_) =>
    case Undecoded =>
    case Variant(v) => ItemHeight(stack, v);
    case Struct(fs) => IterHeight(stack, fs); WidthOfList(fs);
    case Entry(k, v) =>
      ItemHeight(stack, k);
      if Item(stack, k).Done? { ItemHeight(Item(stack, k).stack, v); }
    case FixedArray(_, _) =>
    case DictArray(es) => EntriesHeight(stack, es);
    case ListArray(es) => IterHeight(stack, es); WidthOfList(es);
  }

  lemma {:induction false} WidthOfList(args: seq<Arg>)
    requires WellTypedAll(args)
    ensures WidthAll(args) == |args|
    decreases |args|
  {
    if args != [] { WidthOfList(args[1..]); }
  }

  lemma {:induction false} IterHeight(stack: seq<Value>, args: seq<Arg>)
    requires WellTypedAll(args)
    ensures Iter(stack, args).Done? ==> |Iter(stack, args).stack| == |stack| + WidthAll(args) - FdArraysAll(args)
    decreases args, 0
  {
    if args != [] {
      ItemHeight(stack, args[0]);
      if Item(stack, args[0]).Done? { IterHeight(Item(stack, args[0]).stack, args[1..]); }
    }
  }

  lemma {:induction false} EntriesHeight(stack: seq<Value>, es: seq<Arg>)
    requires WellTypedEntries(es)
    ensures Iter(stack, es).Done? ==> |Iter(stack, es).stack| == |stack| + 2 * |es| - FdArraysAll(es)
    decreases es, 0
  {
    if es != [] {
      assert es[0] in es;
      ItemHeight(stack, es[0]);
      if Item(stack, es[0]).Done? { EntriesHeight(Item(stack, es[0]).stack, es[1..]); }
    }
  }

  function Flatten(ps: seq<(Value, Value)>): (vs: seq<Value>)
    ensures |vs| == 2 * |ps|
    ensures forall i | 0 <= i < |ps| :: vs[2 * i] == ps[i].0 && vs[2 * i + 1] == ps[i].1
  {
    if ps == [] then [] else [ps[0].0, ps[0].1] + Flatten(ps[1..])
  }

  lemma {:induction false} PairUpFlatten(ps: seq<(Value, Value)>)
    ensures PairUp(Flatten(ps)) == ps
  {
  }

  /** Without arrays of file descriptors the decoder leaves what Denote says, or
      faults at the first dictionary key it does not read. */
  lemma {:induction false} ItemCorrect(stack: seq<Value>, a: Arg)
    requires WellTyped(a) && FdArrays(a) == 0
    ensures Item(stack, a) == if KeysRead(a) then Done(stack + [Denote(a)], 1) else Fault
    decreases a, 1
  {
    match a
    case Plain(_) =>
    case Undecoded =>
    case Variant(v) => ItemCorrect(stack, v);
    case Struct(fs) => ListCorrect(stack, fs);
    case FixedArray(_, _) =>
    case DictArray(es) => DictCorrect(stack, es);
    case ListArray(es) => ListCorrect(stack, es);
  }

  lemma {:induction false} ListCorrect(stack: seq<Value>, args: seq<Arg>)
    requires WellTypedAll(args) && FdArraysAll(args) == 0
    ensures Iter(stack, args) == if KeysReadAll(args) then Done(stack + DenoteAll(args), |args|) else Fault
    ensures KeysReadAll(args) ==>
              Collect(stack + DenoteAll(args), |args|) == Done(stack + [ArrayOf(DenoteAll(args))], 1)
    decreases args, 0
  {
    if args == [] {
      assert stack + [] == stack;
    } else {
      ItemCorrect(stack, args[0]);
      ListCorrect(stack + [Denote(args[0])], args[1..]);
      assert stack + [Denote(args[0])] + DenoteAll(args[1..]) == stack + DenoteAll(args);
    }
    CollectTop(stack, DenoteAll(args));
  }

  lemma {:induction false} CollectTop(stack: seq<Value>, vs: seq<Value>)
    ensures Collect(stack + vs, |vs|) == Done(stack + [ArrayOf(vs)], 1)
  {
    var s := stack + vs;
    assert s[..|s| - |vs|] == stack && s[|s| - |vs|..] == vs;
  }

  lemma {:induction false} DictCorrect(stack: seq<Value>, es: seq<Arg>)
    requires WellTypedEntries(es) && FdArraysAll(es) == 0
    ensures Item(stack, DictArray(es)) ==
            if KeysReadAll(es) then Done(stack + [DictOf(DenotePairs(es))], 1) else Fault
    decreases es, 2
  {
    DictEntries(stack, es);
    ReadParts(es);
    if ValuesRead(es) {
      CollectFlattened(stack, DenotePairs(es));
      NilKeyIffUnread(es);
    }
  }

  lemma {:induction false} DictEntries(stack: seq<Value>, es: seq<Arg>)
    requires WellTypedEntries(es) && FdArraysAll(es) == 0
    ensures Item(stack, DictArray(es)) ==
            if ValuesRead(es) then CollectPairs(stack + Flatten(DenotePairs(es)), |es|) else Fault
    decreases es, 1
  {
    EntriesCorrect(stack, es);
  }

  lemma {:induction false} CollectFlattened(stack: seq<Value>, ps: seq<(Value, Value)>)
    ensures CollectPairs(stack + Flatten(ps), |ps|) ==
            if NilKey(ps) then Fault else Done(stack + [DictOf(ps)], 1)
  {
    var s := stack + Flatten(ps);
    assert s[..|s| - 2 * |ps|] == stack && s[|s| - 2 * |ps|..] == Flatten(ps);
    PairUpFlatten(ps);
  }

  predicate ValuesRead(es: seq<Arg>) {
    es != [] ==> (es[0].Entry? ==> KeysRead(es[0].val)) && ValuesRead(es[1..])
  }

  lemma {:induction false} ReadParts(es: seq<Arg>)
    requires WellTypedEntries(es)
    ensures KeysReadAll(es) ==> ValuesRead(es)
    decreases |es|
  {
    if es != [] {
      ReadParts(es[1..]);
      var e := es[0];
      assert KeysRead(e) == (e.key.Plain? && KeysRead(e.val));
    }
  }

  lemma {:induction false} NilKeyIffUnread(es: seq<Arg>)
    requires WellTypedEntries(es) && ValuesRead(es)
    ensures NilKey(DenotePairs(es)) <==> !KeysReadAll(es)
    decreases |es|
  {
    if es != [] {
      var ps := DenotePairs(es);
      NilKeyIffUnread(es[1..]);
      assert ps[1..] == DenotePairs(es[1..]);
      if NilKey(ps[1..]) {
        var i :| 0 <= i < |ps[1..]| && ps[1..][i].0 == Nil;
        assert ps[i + 1].0 == Nil;
      }
      if ps[0].0 != Nil && NilKey(ps) {
        var i :| 0 <= i < |ps| && ps[i].0 == Nil;
        assert ps[1..][i - 1].0 == Nil;
      }
      assert ps[0] == DenoteEntry(es[0]) == (Denote(es[0].key), Denote(es[0].val));
    }
  }

  lemma {:induction false} EntryCorrect(stack: seq<Value>, e: Arg)
    requires WellTypedEntry(e) && FdArrays(e) == 0
    ensures Item(stack, e) ==
            if KeysRead(e.val) then Done(stack + [Denote(e.key), Denote(e.val)], 1) else Fault
    decreases e, 1
  {
    var k, v := Denote(e.key), Denote(e.val);
    assert Item(stack, e.key) == Done(stack + [k], 1);
    ItemCorrect(stack + [k], e.val);
    assert stack + [k] + [v] == stack + [k, v];
  }

  lemma {:induction false} EntriesCorrect(stack: seq<Value>, es: seq<Arg>)
    requires WellTypedEntries(es) && FdArraysAll(es) == 0
    ensures Iter(stack, es) ==
            if ValuesRead(es) then Done(stack + Flatten(DenotePairs(es)), |es|) else Fault
    decreases es, 0
  {
    if es == [] {
      assert stack + [] == stack;
    } else {
      EntryCorrect(stack, es[0]);
      var k, v := Denote(es[0].key), Denote(es[0].val);
      EntriesCorrect(stack + [k, v], es[1..]);
      FlattenCons(stack, k, v, DenotePairs(es[1..]));
    }
  }

  lemma {:induction false} FlattenCons(stack: seq<Value>, k: Value, v: Value, ps: seq<(Value, Value)>)
    ensures stack + Flatten([(k, v)] + ps) == stack + [k, v] + Flatten(ps)
  {
    assert ([(k, v)] + ps)[1..] == ps;
    assert stack + [k, v] + Flatten(ps) == stack + ([k, v] + Flatten(ps));
  }

  /** For every message: the decoder leaves the old stack and exactly the denoted
      values, and returns their number, if and only if no array of file
      descriptors and no unread dictionary key occurs anywhere in it. */
  lemma {:induction false} DecodesExactly(stack: seq<Value>, args: seq<Arg>)
    requires WellTypedAll(args)
    ensures Iter(stack, args) == Done(stack + DenoteAll(args), |args|)
            <==> FdArraysAll(args) == 0 && KeysReadAll(args)
  {
    if FdArraysAll(args) == 0 {
      ListCorrect(stack, args);
    } else {
      IterHeight(stack, args);
      WidthOfList(args);
    }
  }

  /** A run of n dictionary entries pushes 2n values and counts n. */
  lemma {:induction false} EntryRunPushesPairs(stack: seq<Value>, es: seq<Arg>)
    requires WellTypedEntries(es) && FdArraysAll(es) == 0 && ValuesRead(es)
    ensures Iter(stack, es) == Done(stack + Flatten(DenotePairs(es)), |es|)
    ensures |Iter(stack, es).stack| == |stack| + 2 * |es|
  {
    EntriesCorrect(stack, es);
  }

  /** The first of duplicate keys wins. */
  lemma {:induction false} FirstKeyWins(es: seq<Arg>, i: nat)
    requires i < |es| && forall j | 0 <= j < i :: Key(DenotePairs(es)[j].0) != Key(DenotePairs(es)[i].0)
    ensures var d := Denote(DictArray(es)).entries; var p := DenotePairs(es)[i];
            if p.1 == Nil then Key(p.0) !in d else Key(p.0) in d && d[Key(p.0)] == p.1
  {
    var ps := DenotePairs(es);
    LookupFirst(ps, i);
    assert Key(ps[i].0) in Keys(ps);
  }

  lemma {:induction false} LookupFirst(ps: seq<(Value, Value)>, i: nat)
    requires i < |ps| && forall j | 0 <= j < i :: Key(ps[j].0) != Key(ps[i].0)
    ensures Lookup(ps, Key(ps[i].0)) == ps[i].1
    decreases i
  {
    if i > 0 {
      assert forall j | 0 <= j < i - 1 :: ps[1..][j] == ps[j + 1];
      LookupFirst(ps[1..], i - 1);
    }
  }

  /** An array of file descriptors is counted but pushes nothing: the struct around
      it takes a value of its caller into the table. */
  lemma FdArrayTakesForeignValue()
    ensures Iter([Int(7)], [Struct([FixedArray(FdItems, [])])]) == Done([ArrayOf([Int(7)])], 1)
  {
    var fs := [FixedArray(FdItems, [])];
    assert fs[1..] == [];
    assert Iter([Int(7)], fs) == Done([Int(7)], 1);
    assert [Int(7)][0..] == [Int(7)];
    assert Collect([Int(7)], 1) == Done([] + [ArrayOf([Int(7)])], 1);
    var args := [Struct(fs)];
    assert args[1..] == [];
  }
}
