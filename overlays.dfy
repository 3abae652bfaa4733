/** Maps laid over each other in order, as a sequence of dictionary writes
    builds them, and the map identities the write loops rely on. */
module Overlays {

  /** Maps laid over each other in order: a later map's entry replaces an
      earlier one's. */
  function Overlay<K, V>(ms: seq<map<K, V>>): map<K, V>
    decreases |ms|
  {
    if |ms| == 0 then map[] else Overlay(ms[..|ms| - 1]) + ms[|ms| - 1]
  }

  /** A key is in an overlay exactly when one of the maps has it. */
  lemma {:induction false} OverlayKeys<K, V>(ms: seq<map<K, V>>, key: K)
    ensures key in Overlay(ms) <==> exists i :: 0 <= i < |ms| && key in ms[i]
    decreases |ms|
  {
    if |ms| > 0 {
      var init := ms[..|ms| - 1];
      OverlayKeys(init, key);
      if key in Overlay(ms) && key !in ms[|ms| - 1] {
        var i :| 0 <= i < |init| && key in init[i];
        assert init[i] == ms[i];
      }
      if key !in Overlay(ms) {
        forall i | 0 <= i < |ms| ensures key !in ms[i] {
          if i < |init| { assert init[i] == ms[i]; }
        }
      }
    }
  }

  /** The value of a key in an overlay is the one its last holder gives. */
  lemma {:induction false} OverlayLastWins<K, V>(ms: seq<map<K, V>>, key: K, i: nat)
    requires i < |ms| && key in ms[i]
    requires forall j :: i < j < |ms| ==> key !in ms[j]
    ensures key in Overlay(ms) && Overlay(ms)[key] == ms[i][key]
    decreases |ms|
  {
    if i < |ms| - 1 {
      var init := ms[..|ms| - 1];
      assert forall j :: 0 <= j < |init| ==> init[j] == ms[j];
      OverlayLastWins(init, key, i);
    }
  }

  /** Laying one more map on top is a map union. */
  lemma OverlaySnoc<K, V>(ms: seq<map<K, V>>, m: map<K, V>)
    ensures Overlay(ms + [m]) == Overlay(ms) + m
  {
    assert (ms + [m])[..|ms|] == ms;
  }

  lemma UpdateIsUnion<K, V>(m: map<K, V>, k: K, v: V)
    ensures m[k := v] == m + map[k := v]
  {
  }

  lemma EmptyUnion<K, V>(m: map<K, V>)
    ensures m + map[] == m
  {
  }

  lemma UnionUpdate<K, V>(m: map<K, V>, e: map<K, V>, k: K, v: V)
    ensures (m + e)[k := v] == m + e[k := v]
  {
  }
}
