/** Lua values, and the two raw table stores the decoder uses. */
module LuaValues {

  datatype Value =
    | Nil
    | Bool(b: bool)
    | Int(n: int)
    | Num(r: real)
    | Str(chars: seq<int>)
    | Table(entries: map<Value, Value>)

  const TWO63 := 0x8000_0000_0000_0000

  /** A float key with an integral value is the integer key. */
  function Key(v: Value): (k: Value)
    ensures forall n: int | -TWO63 <= n < TWO63 && v == Num(n as real) :: k == Int(n)
    ensures k == v || (k.Int? && -TWO63 <= k.n < TWO63 && v == Num(k.n as real))
  {
    if v.Num? && v.r.Floor as real == v.r && -TWO63 <= v.r.Floor < TWO63 then Int(v.r.Floor) else v
  }

  /** Storing nil takes the key out. */
  function Store(m: map<Value, Value>, k: Value, v: Value): map<Value, Value> {
    if v == Nil then m - {k} else m[k := v]
  }

  function Indices(from: nat, to: nat): (ks: set<Value>)
    ensures forall k :: k in ks <==> k.Int? && from < k.n <= to
  {
    set i | from < i <= to :: Int(i)
  }

  /** The entries of {vs[0], vs[1], ...} above index from; a nil leaves a hole. */
  function ArrayFrom(vs: seq<Value>, from: nat): map<Value, Value> {
    map k | k in Indices(from, |vs|) && vs[k.n - 1] != Nil :: vs[k.n - 1]
  }

  function ArrayOf(vs: seq<Value>): Value {
    Table(ArrayFrom(vs, 0))
  }

  function Keys(pairs: seq<(Value, Value)>): set<Value> {
    set i | 0 <= i < |pairs| :: Key(pairs[i].0)
  }

  /** The value of the first pair with this key, nil if there is none. */
  function Lookup(pairs: seq<(Value, Value)>, k: Value): Value {
    if pairs == [] then Nil
    else if Key(pairs[0].0) == k then pairs[0].1
    else Lookup(pairs[1..], k)
  }

  /** The table of a list of pairs in which the first of equal keys wins. */
  function DictOf(pairs: seq<(Value, Value)>): Value {
    Table(map k | k in Keys(pairs) && Lookup(pairs, k) != Nil :: Lookup(pairs, k))
  }

  lemma ArrayOfSnoc(vs: seq<Value>, v: Value)
    ensures ArrayFrom(vs + [v], 0) == Store(ArrayFrom(vs, 0), Int(|vs| + 1), v)
  {
    var a, b := ArrayFrom(vs + [v], 0), Store(ArrayFrom(vs, 0), Int(|vs| + 1), v);
    forall k ensures (k in a <==> k in b) && (k in a ==> a[k] == b[k]) {
      EntryAt(vs + [v], 0, k);
      EntryAt(vs, 0, k);
    }
    assert a.Keys == b.Keys;
    assert a == b;
  }

  lemma EntryAt(vs: seq<Value>, from: nat, k: Value)
    ensures k in ArrayFrom(vs, from) <==> k.Int? && from < k.n <= |vs| && vs[k.n - 1] != Nil
    ensures k in ArrayFrom(vs, from) ==> ArrayFrom(vs, from)[k] == vs[k.n - 1]
  {
  }

  lemma ArrayFromBelow(vs: seq<Value>, i: nat)
    requires 1 <= i <= |vs|
    ensures ArrayFrom(vs, i - 1) == Store(ArrayFrom(vs, i), Int(i), vs[i - 1])
  {
    var a, b := ArrayFrom(vs, i - 1), Store(ArrayFrom(vs, i), Int(i), vs[i - 1]);
    forall k ensures (k in a <==> k in b) && (k in a ==> a[k] == b[k]) {
      EntryAt(vs, i - 1, k);
      EntryAt(vs, i, k);
    }
    assert a.Keys == b.Keys;
    assert a == b;
  }

  /** A pair put in front overrides the same key behind it. */
  lemma DictOfCons(k: Value, v: Value, pairs: seq<(Value, Value)>)
    ensures DictOf([(k, v)] + pairs).entries == Store(DictOf(pairs).entries, Key(k), v)
  {
    var all := [(k, v)] + pairs;
    var a, b := DictOf(all).entries, Store(DictOf(pairs).entries, Key(k), v);
    forall x ensures x in a <==> x in b {
      KeysOfCons(k, v, pairs, x);
    }
    forall x | x in a ensures a[x] == b[x] {
      KeysOfCons(k, v, pairs, x);
    }
    assert a == b;
  }

  lemma KeysOfCons(k: Value, v: Value, pairs: seq<(Value, Value)>, x: Value)
    ensures x in Keys([(k, v)] + pairs) <==> x == Key(k) || x in Keys(pairs)
    ensures Lookup([(k, v)] + pairs, x) == if x == Key(k) then v else Lookup(pairs, x)
  {
    var all := [(k, v)] + pairs;
    assert all[0] == (k, v) && all[1..] == pairs;
    if x in Keys(pairs) {
      var i :| 0 <= i < |pairs| && Key(pairs[i].0) == x;
      assert all[i + 1] == pairs[i];
    }
    if x in Keys(all) && x != Key(k) {
      var i :| 0 <= i < |all| && Key(all[i].0) == x;
      assert pairs[i - 1] == all[i];
    }
  }
}
