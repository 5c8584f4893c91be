/** Handing out the selected roles: the i-th seat of an alliance (in seat
    order) gets entry perm[i] of that alliance's role list, where perm is a
    fresh shuffle of 0..k-1 for the k seats of the alliance; a seat whose
    entry does not exist keeps no role and later takes its alliance's name. */
module Deal {
  import opened Collections
  import opened Tables

  /** The slot a seat draws when its permutation entry is `p` and the role list
      holds `count` roles: JavaScript's `list[p]` is `undefined` past the end. */
  function SlotFor(p: nat, count: nat): Option<nat> {
    if p < count then Some(p) else None
  }

  /** One dealing loop: for each i, seat targets[i] gets the slot of perm[i]. */
  function Place(slots: seq<Option<nat>>, targets: seq<nat>, perm: seq<nat>, count: nat): (r: seq<Option<nat>>)
    requires |perm| == |targets| && InBounds(targets, |slots|)
    ensures |r| == |slots|
    ensures forall j :: 0 <= j < |slots| && j !in targets ==> r[j] == slots[j]
    ensures Distinct(targets) ==>
              forall i :: 0 <= i < |targets| ==> r[targets[i]] == SlotFor(perm[i], count)
  {
    if targets == [] then slots
    else
      var k := |targets| - 1;
      var r := Place(slots, targets[..k], perm[..k], count);
      assert forall j :: j in targets <==> j in targets[..k] || j == targets[k];
      r[targets[k] := SlotFor(perm[k], count)]
  }

  /** The role list size of each alliance. */
  function CountOf(a: Alliance, resCount: nat, spyCount: nat): nat {
    match a
    case Resistance => resCount
    case Spy => spyCount
  }

  function PermOf(a: Alliance, resPerm: seq<nat>, spyPerm: seq<nat>): seq<nat> {
    match a
    case Resistance => resPerm
    case Spy => spyPerm
  }

  function NoSlots(n: nat): (r: seq<Option<nat>>)
    ensures |r| == n
  {
    seq(n, j => None)
  }

  /** Both dealing loops of `startGame`, resistance seats first. */
  function DealSlots(alliances: seq<Alliance>, resPerm: seq<nat>, spyPerm: seq<nat>, resCount: nat, spyCount: nat)
    : (slots: seq<Option<nat>>)
    requires |resPerm| == multiset(alliances)[Resistance] && |spyPerm| == multiset(alliances)[Spy]
    ensures |slots| == |alliances|
  {
    var afterRes := Place(NoSlots(|alliances|), Positions(alliances, Resistance), resPerm, resCount);
    Place(afterRes, Positions(alliances, Spy), spyPerm, spyCount)
  }

  /** A seat is listed among the seats of its own alliance only. */
  lemma NotAmongOthers(alliances: seq<Alliance>, j: nat, b: Alliance)
    requires j < |alliances| && alliances[j] != b
    ensures j !in Positions(alliances, b)
  {
  }

  /** Seat j is the i-th seat of its alliance and holds the slot of entry i of
      its alliance's permutation. */
  lemma SeatSlot(alliances: seq<Alliance>, resPerm: seq<nat>, spyPerm: seq<nat>, resCount: nat, spyCount: nat, j: nat)
    returns (i: nat)
    requires |resPerm| == multiset(alliances)[Resistance] && |spyPerm| == multiset(alliances)[Spy]
    requires j < |alliances|
    ensures i < |Positions(alliances, alliances[j])| && Positions(alliances, alliances[j])[i] == j
    ensures alliances[j] == Resistance ==>
              DealSlots(alliances, resPerm, spyPerm, resCount, spyCount)[j] == SlotFor(resPerm[i], resCount)
    ensures alliances[j] == Spy ==>
              DealSlots(alliances, resPerm, spyPerm, resCount, spyCount)[j] == SlotFor(spyPerm[i], spyCount)
  {
    if alliances[j] == Resistance {
      i := ResistanceSeatSlot(alliances, resPerm, spyPerm, resCount, spyCount, j);
    } else {
      i := SpySeatSlot(alliances, resPerm, spyPerm, resCount, spyCount, j);
    }
  }

  lemma ResistanceSeatSlot(alliances: seq<Alliance>, resPerm: seq<nat>, spyPerm: seq<nat>, resCount: nat, spyCount: nat,
                           j: nat)
    returns (i: nat)
    requires |resPerm| == multiset(alliances)[Resistance] && |spyPerm| == multiset(alliances)[Spy]
    requires j < |alliances| && alliances[j] == Resistance
    ensures i < |Positions(alliances, Resistance)| && Positions(alliances, Resistance)[i] == j
    ensures DealSlots(alliances, resPerm, spyPerm, resCount, spyCount)[j] == SlotFor(resPerm[i], resCount)
  {
    var res, spy := Positions(alliances, Resistance), Positions(alliances, Spy);
    var afterRes := Place(NoSlots(|alliances|), res, resPerm, resCount);
    i := PositionsComplete(alliances, Resistance, j);
    IncreasingIsDistinct(res);
    NotAmongOthers(alliances, j, Spy);
    assert afterRes[res[i]] == SlotFor(resPerm[i], resCount);
  }

  lemma SpySeatSlot(alliances: seq<Alliance>, resPerm: seq<nat>, spyPerm: seq<nat>, resCount: nat, spyCount: nat,
                    j: nat)
    returns (i: nat)
    requires |resPerm| == multiset(alliances)[Resistance] && |spyPerm| == multiset(alliances)[Spy]
    requires j < |alliances| && alliances[j] == Spy
    ensures i < |Positions(alliances, Spy)| && Positions(alliances, Spy)[i] == j
    ensures DealSlots(alliances, resPerm, spyPerm, resCount, spyCount)[j] == SlotFor(spyPerm[i], spyCount)
  {
    var spy := Positions(alliances, Spy);
    i := PositionsComplete(alliances, Spy, j);
    IncreasingIsDistinct(spy);
  }

  /** Two seats of the same alliance never draw the same slot. */
  lemma SlotsDiffer(alliances: seq<Alliance>, resPerm: seq<nat>, spyPerm: seq<nat>, resCount: nat, spyCount: nat,
                    j1: nat, j2: nat)
    requires |resPerm| == multiset(alliances)[Resistance] && |spyPerm| == multiset(alliances)[Spy]
    requires Distinct(resPerm) && Distinct(spyPerm)
    requires j1 < |alliances| && j2 < |alliances| && j1 != j2 && alliances[j1] == alliances[j2]
    ensures var slots := DealSlots(alliances, resPerm, spyPerm, resCount, spyCount);
      slots[j1].Some? ==> slots[j1] != slots[j2]
  {
    var i1 := SeatSlot(alliances, resPerm, spyPerm, resCount, spyCount, j1);
    var i2 := SeatSlot(alliances, resPerm, spyPerm, resCount, spyCount, j2);
    assert i1 != i2;
    if alliances[j1] == Resistance {
      assert resPerm[i1] != resPerm[i2];
    } else {
      assert spyPerm[i1] != spyPerm[i2];
    }
  }

  /** Every slot lies inside its alliance's role list, and two seats of the
      same alliance never draw the same slot. */
  lemma DealSlotsSound(alliances: seq<Alliance>, resPerm: seq<nat>, spyPerm: seq<nat>, resCount: nat, spyCount: nat)
    requires |resPerm| == multiset(alliances)[Resistance] && |spyPerm| == multiset(alliances)[Spy]
    requires IsPermutation(resPerm, multiset(alliances)[Resistance])
    requires IsPermutation(spyPerm, multiset(alliances)[Spy])
    ensures var slots := DealSlots(alliances, resPerm, spyPerm, resCount, spyCount);
      && (forall j :: 0 <= j < |slots| && slots[j].Some? ==>
            slots[j].value < CountOf(alliances[j], resCount, spyCount))
      && (forall j1, j2 :: 0 <= j1 < j2 < |slots| && alliances[j1] == alliances[j2] && slots[j1].Some? ==>
            slots[j1] != slots[j2])
  {
    PermutationFacts(resPerm, multiset(alliances)[Resistance]);
    PermutationFacts(spyPerm, multiset(alliances)[Spy]);
    var slots := DealSlots(alliances, resPerm, spyPerm, resCount, spyCount);
    forall j | 0 <= j < |slots| && slots[j].Some?
      ensures slots[j].value < CountOf(alliances[j], resCount, spyCount)
    {
      var i := SeatSlot(alliances, resPerm, spyPerm, resCount, spyCount, j);
    }
    forall j1, j2 | 0 <= j1 < j2 < |slots| && alliances[j1] == alliances[j2] && slots[j1].Some?
      ensures slots[j1] != slots[j2]
    {
      SlotsDiffer(alliances, resPerm, spyPerm, resCount, spyCount, j1, j2);
    }
  }

  /** When an alliance has at least as many seats as roles, every one of its
      roles is dealt to one of its seats. */
  lemma DealSlotsComplete(alliances: seq<Alliance>, resPerm: seq<nat>, spyPerm: seq<nat>, resCount: nat, spyCount: nat,
                          a: Alliance, k: nat)
    requires |resPerm| == multiset(alliances)[Resistance] && |spyPerm| == multiset(alliances)[Spy]
    requires IsPermutation(resPerm, multiset(alliances)[Resistance])
    requires IsPermutation(spyPerm, multiset(alliances)[Spy])
    requires k < CountOf(a, resCount, spyCount) <= multiset(alliances)[a]
    ensures var slots := DealSlots(alliances, resPerm, spyPerm, resCount, spyCount);
      exists j :: 0 <= j < |slots| && alliances[j] == a && slots[j] == Some(k)
  {
    var perm := PermOf(a, resPerm, spyPerm);
    var t := Positions(alliances, a);
    assert IsPermutation(perm, |t|);
    RangeMultiplicity(|t|, k);
    assert k in multiset(perm);
    var i :| 0 <= i < |perm| && perm[i] == k;
    var j := t[i];
    var res, spy := Positions(alliances, Resistance), Positions(alliances, Spy);
    IncreasingIsDistinct(res);
    IncreasingIsDistinct(spy);
    if a == Resistance {
      assert j !in spy;
    } else {
      assert j !in res;
    }
  }

  /** The role a seat ends up with: its slot's entry, or its alliance's name. */
  function RoleName(a: Alliance, slot: Option<nat>, resRoles: seq<string>, spyRoles: seq<string>): (role: string)
    requires slot.Some? ==> slot.value < CountOf(a, |resRoles|, |spyRoles|)
    ensures role == AllianceName(a) || (a == Resistance && role in resRoles) || (a == Spy && role in spyRoles)
  {
    match slot
    case None => AllianceName(a)
    case Some(k) => if a == Resistance then resRoles[k] else spyRoles[k]
  }

  /** ASCII `toLowerCase`, the role's file name. */
  function Lower(s: string): (r: string)
    ensures |r| == |s|
    ensures forall i :: 0 <= i < |s| ==> !('A' <= r[i] <= 'Z')
    ensures forall i :: 0 <= i < |s| && !('A' <= s[i] <= 'Z') ==> r[i] == s[i]
  {
    seq(|s|, i requires 0 <= i < |s| =>
      if 'A' <= s[i] <= 'Z' then (s[i] as int - 'A' as int + 'a' as int) as char else s[i])
  }
}
