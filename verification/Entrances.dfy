/**
 The order in which transition records run: those of elements that enter this frame
 with an initial state come first, each group in the order it had. The array is
 rearranged in place, one entering record at a time, by moving what stands between
 the group and the record up by one.
 */
module Entrances {
  /** The elements a predicate picks, in order. */
  function Picked<T>(s: seq<T>, p: T -> bool): seq<T> {
    if s == [] then []
    else Picked(s[..|s| - 1], p) + if p(s[|s| - 1]) then [s[|s| - 1]] else []
  }

  function Not<T>(p: T -> bool): T -> bool { x => !p(x) }

  lemma {:induction false} PickedSnoc<T>(s: seq<T>, x: T, p: T -> bool)
    ensures Picked(s + [x], p) == Picked(s, p) + if p(x) then [x] else []
  {
    assert (s + [x])[..|s|] == s;
  }

  /** Nothing is lost or doubled. */
  lemma {:induction false} PartitionPermutes<T>(s: seq<T>, p: T -> bool)
    ensures multiset(Picked(s, p) + Picked(s, Not(p))) == multiset(s)
  {
    if s != [] {
      var before, x := s[..|s| - 1], s[|s| - 1];
      assert s == before + [x];
      PartitionPermutes(before, p);
    }
  }

  /** The place in s of each picked element, in order. */
  function PlacesOf<T>(s: seq<T>, p: T -> bool): (r: seq<nat>)
    ensures |r| == |Picked(s, p)|
    ensures forall k | 0 <= k < |r| :: r[k] < |s| && p(s[r[k]]) && Picked(s, p)[k] == s[r[k]]
    ensures forall j, k | 0 <= j < k < |r| :: r[j] < r[k]
  {
    if s == [] then []
    else
      var before := PlacesOf(s[..|s| - 1], p);
      if p(s[|s| - 1]) then before + [|s| - 1] else before
  }

  /** No element overtakes one of its own group, even among equal records: the k-th of a
      group in the result is the k-th of that group in the array, by place. */
  lemma {:induction false} GroupsKeepTheirOrder<T>(s: seq<T>, p: T -> bool, j: nat, k: nat)
    requires j < k < |Picked(s, p)|
    ensures PlacesOf(s, p)[j] < PlacesOf(s, p)[k] < |s|
    ensures Picked(s, p)[j] == s[PlacesOf(s, p)[j]] && Picked(s, p)[k] == s[PlacesOf(s, p)[k]]
  {
  }

  /** clay_entrances_first over the transition records. */
  method EntrancesFirst<T>(records: array<T>, entering: T -> bool)
    modifies records
    ensures records[..] == Picked(old(records[..]), entering) + Picked(old(records[..]), Not(entering))
  {
    ghost var was := records[..];
    var first := 0;
    assert was[..0] == [];
    for i := 0 to records.Length
      invariant 0 <= first <= i
      invariant records[..first] == Picked(was[..i], entering)
      invariant records[first..i] == Picked(was[..i], Not(entering))
      invariant records[i..] == was[i..]
    {
      assert was[..i + 1] == was[..i] + [was[i]];
      PickedSnoc(was[..i], was[i], entering);
      PickedSnoc(was[..i], was[i], Not(entering));
      assert records[i] == records[i..][0] == was[i];
      assert was[i + 1..] == was[i..][1..];
      if !entering(records[i]) {
        assert records[first..i + 1] == records[first..i] + [was[i]];
        assert records[i + 1..] == records[i..][1..];
        continue;
      }
      MoveToFront(records, first, i);
      first := first + 1;
    }
    assert was[..records.Length] == was && records[first..records.Length] == records[first..];
    assert records[..] == records[..first] + records[first..];
  }

  /** One record moves to the end of the front group; memmove shifts those between. */
  method MoveToFront<T>(records: array<T>, first: nat, i: nat)
    requires first <= i < records.Length
    modifies records
    ensures var was, now := old(records[..]), records[..];
            && now[..first] == was[..first] && now[first] == was[i]
            && now[..first + 1] == was[..first] + [was[i]]
            && now[first + 1..i + 1] == was[first..i]
            && now[i + 1..] == was[i + 1..]
  {
    var record := records[i];
    var j := i;
    while j > first
      invariant first <= j <= i
      invariant forall k | 0 <= k <= j :: records[k] == old(records[k])
      invariant forall k | j < k <= i :: records[k] == old(records[k - 1])
      invariant forall k | i < k < records.Length :: records[k] == old(records[k])
    {
      records[j] := records[j - 1];
      j := j - 1;
    }
    records[first] := record;
    ShiftedSlices(old(records[..]), records[..], first, i);
  }

  /** What the shift does to the parts of the array. */
  lemma ShiftedSlices<T>(was: seq<T>, now: seq<T>, first: nat, i: nat)
    requires first <= i < |was| == |now| && now[first] == was[i]
    requires forall k | 0 <= k < first :: now[k] == was[k]
    requires forall k | first < k <= i :: now[k] == was[k - 1]
    requires forall k | i < k < |now| :: now[k] == was[k]
    ensures now[..first] == was[..first] && now[..first + 1] == was[..first] + [was[i]]
    ensures now[first + 1..i + 1] == was[first..i] && now[i + 1..] == was[i + 1..]
  {
  }
}
