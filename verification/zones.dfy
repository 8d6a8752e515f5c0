/**
 * Ordered card zones (hand, reserve, discard pile, selection) and the
 * identifier-based operations the store applies to them: `filter` by id,
 * `find`, `findIndex`, and the bookkeeping lemmas that turn those filters
 * into multiset (card-conservation) facts.
 */
module Zones {

  import opened Wrappers
  import opened Cards

  /** The identifiers of the cards in a zone. */
  function IdsOf(z: seq<Card>): set<CardId>
  {
    set c | c in z :: c.id
  }

  /** `z.some(c => c.id === id)`. */
  predicate HasId(z: seq<Card>, id: CardId)
  {
    exists i :: 0 <= i < |z| && z[i].id == id
  }

  /** No identifier occurs twice in the zone. */
  predicate DistinctIds(z: seq<Card>)
  {
    forall i, j :: 0 <= i < j < |z| ==> z[i].id != z[j].id
  }

  /** `z.filter(c => !ids.has(c.id))`: the cards whose identifier is not in `ids`, in order. */
  function WithoutIds(z: seq<Card>, ids: set<CardId>): (r: seq<Card>)
    ensures |r| <= |z|
    ensures forall c :: c in r <==> c in z && c.id !in ids
  {
    if |z| == 0 then []
    else (if z[0].id in ids then [] else [z[0]]) + WithoutIds(z[1..], ids)
  }

  /** Filtering identifiers out leaves none of them. */
  lemma WithoutIdsDropsIds(z: seq<Card>, ids: set<CardId>)
    ensures IdsOf(WithoutIds(z, ids)) !! ids
  {
  }

  /** The complementary filter: the cards whose identifier is in `ids`, in order. */
  function WithIds(z: seq<Card>, ids: set<CardId>): (r: seq<Card>)
    ensures |r| <= |z|
    ensures forall c :: c in r <==> c in z && c.id in ids
  {
    if |z| == 0 then []
    else (if z[0].id in ids then [z[0]] else []) + WithIds(z[1..], ids)
  }

  /** `z.find(p)`: the first card satisfying `p`, if any. */
  function Find(z: seq<Card>, p: Card -> bool): (r: Option<Card>)
    ensures r.Some? ==> r.value in z && p(r.value)
    ensures r.None? <==> forall c :: c in z ==> !p(c)
    ensures r.Some? ==> exists i :: 0 <= i < |z| && z[i] == r.value && forall k :: 0 <= k < i ==> !p(z[k])
  {
    if |z| == 0 then None
    else if p(z[0]) then Some(z[0])
    else
      var r := Find(z[1..], p);
      assert forall c :: c in z ==> c == z[0] || c in z[1..];
      if r.Some? then
        var i :| 0 <= i < |z[1..]| && z[1..][i] == r.value && forall k :: 0 <= k < i ==> !p(z[1..][k]);
        assert z[i + 1] == r.value && forall k :: 0 <= k < i + 1 ==> !p(z[k]);
        r
      else r
  }

  /** Searching a two-card list tries the first card, then the second. */
  lemma FindPair(a: Card, b: Card, p: Card -> bool)
    ensures Find([a, b], p) == (if p(a) then Some(a) else if p(b) then Some(b) else None)
  {
    assert [a, b][1..] == [b] && [b][1..] == [];
  }

  /** `z.findIndex(c => c.id === id)`: the first position holding `id`, or -1. */
  function IndexOfId(z: seq<Card>, id: CardId): (r: int)
    ensures -1 <= r < |z|
    ensures r >= 0 ==> z[r].id == id && forall k :: 0 <= k < r ==> z[k].id != id
    ensures r == -1 <==> !HasId(z, id)
  {
    if |z| == 0 then -1
    else if z[0].id == id then 0
    else
      var r := IndexOfId(z[1..], id);
      if r == -1 then
        assert forall i :: 0 < i < |z| ==> z[i] == z[1..][i - 1];
        -1
      else r + 1
  }

  /** The first position holding `id` is the one the search returns. */
  lemma FirstIdAt(z: seq<Card>, id: CardId, i: nat)
    requires i < |z| && z[i].id == id && forall k :: 0 <= k < i ==> z[k].id != id
    ensures IndexOfId(z, id) == i
  {
  }

  lemma HasIdIsIdsOf(z: seq<Card>, id: CardId)
    ensures HasId(z, id) <==> id in IdsOf(z)
  {
    if HasId(z, id) {
      var i :| 0 <= i < |z| && z[i].id == id;
      assert z[i] in z;
    }
  }

  /** Filtering by a set of identifiers splits a zone into two parts, losing nothing. */
  lemma {:induction false} SplitByIds(z: seq<Card>, ids: set<CardId>)
    ensures multiset(z) == multiset(WithoutIds(z, ids)) + multiset(WithIds(z, ids))
  {
    if |z| > 0 {
      var t := z[1..];
      SplitByIds(t, ids);
      var H, T, W, I := multiset{z[0]}, multiset(t), multiset(WithoutIds(t, ids)), multiset(WithIds(t, ids));
      assert multiset(z) == H + T by { assert z == [z[0]] + t; }
      if z[0].id in ids {
        assert multiset(WithIds(z, ids)) == H + I by { assert WithIds(z, ids) == [z[0]] + WithIds(t, ids); }
        assert multiset(WithoutIds(z, ids)) == W by { assert WithoutIds(z, ids) == WithoutIds(t, ids); }
        MoveIntoPart(H, T, I, W);
      } else {
        assert multiset(WithoutIds(z, ids)) == H + W by { assert WithoutIds(z, ids) == [z[0]] + WithoutIds(t, ids); }
        assert multiset(WithIds(z, ids)) == I by { assert WithIds(z, ids) == WithIds(t, ids); }
        MoveIntoPart(H, T, W, I);
      }
    }
  }

  /** Adding one part to the first of two summands. */
  lemma MoveIntoPart(h: multiset<Card>, t: multiset<Card>, a: multiset<Card>, b: multiset<Card>)
    requires t == b + a || t == a + b
    ensures h + t == b + (h + a) && h + t == (h + a) + b
  {
  }

  lemma {:induction false} WithoutIdsConcat(a: seq<Card>, b: seq<Card>, ids: set<CardId>)
    ensures WithoutIds(a + b, ids) == WithoutIds(a, ids) + WithoutIds(b, ids)
  {
    if |a| > 0 {
      var t := a[1..];
      WithoutIdsConcat(t, b, ids);
      var head := if a[0].id in ids then [] else [a[0]];
      ConcatTail(a, b);
      assert WithoutIds(a + b, ids) == head + WithoutIds(t + b, ids);
      assert WithoutIds(a, ids) == head + WithoutIds(t, ids);
      ConcatAssoc(head, WithoutIds(t, ids), WithoutIds(b, ids));
    } else {
      assert a + b == b;
    }
  }

  lemma ConcatTail(a: seq<Card>, b: seq<Card>)
    requires |a| > 0
    ensures (a + b)[0] == a[0] && (a + b)[1..] == a[1..] + b
  {
  }

  lemma ConcatAssoc(x: seq<Card>, y: seq<Card>, z: seq<Card>)
    ensures x + (y + z) == (x + y) + z
  {
  }

  lemma {:induction false} WithIdsConcat(a: seq<Card>, b: seq<Card>, ids: set<CardId>)
    ensures WithIds(a + b, ids) == WithIds(a, ids) + WithIds(b, ids)
  {
    if |a| > 0 {
      var t := a[1..];
      WithIdsConcat(t, b, ids);
      var head := if a[0].id in ids then [a[0]] else [];
      ConcatTail(a, b);
      assert WithIds(a + b, ids) == head + WithIds(t + b, ids);
      assert WithIds(a, ids) == head + WithIds(t, ids);
      ConcatAssoc(head, WithIds(t, ids), WithIds(b, ids));
    } else {
      assert a + b == b;
    }
  }

  /** Filtering out identifiers the zone does not hold leaves it as it was. */
  lemma {:induction false} WithoutAbsentIds(z: seq<Card>, ids: set<CardId>)
    requires forall c :: c in z ==> c.id !in ids
    ensures WithoutIds(z, ids) == z
  {
    if |z| > 0 {
      var t := z[1..];
      assert z[0] in z;
      assert forall c :: c in t ==> c in z;
      WithoutAbsentIds(t, ids);
      assert WithoutIds(z, ids) == [z[0]] + t;
      assert z == [z[0]] + t;
    }
  }

  /** Filtering out one more identifier the zone does not hold changes nothing. */
  lemma {:induction false} WithoutAbsentId(z: seq<Card>, ids: set<CardId>, id: CardId)
    requires forall c :: c in z ==> c.id != id
    ensures WithoutIds(z, ids + {id}) == WithoutIds(z, ids)
  {
    if |z| > 0 {
      var t := z[1..];
      assert z[0] in z;
      assert forall c :: c in t ==> c in z;
      WithoutAbsentId(t, ids, id);
    }
  }

  /** Selecting identifiers the zone does not hold yields nothing. */
  lemma {:induction false} WithIdsAbsent(z: seq<Card>, ids: set<CardId>)
    requires forall c :: c in z ==> c.id !in ids
    ensures WithIds(z, ids) == []
  {
    if |z| > 0 {
      assert z[0] in z;
      assert forall c :: c in z[1..] ==> c in z;
      WithIdsAbsent(z[1..], ids);
    }
  }

  /** With distinct identifiers, selecting one card's identifier yields exactly that card. */
  lemma {:induction false} WithIdsSingle(z: seq<Card>, c: Card)
    requires DistinctIds(z) && c in z
    ensures WithIds(z, {c.id}) == [c]
  {
    assert DistinctIds(z[1..]) by {
      forall i, j | 0 <= i < j < |z[1..]| ensures z[1..][i].id != z[1..][j].id {
        assert z[1..][i] == z[i + 1] && z[1..][j] == z[j + 1];
      }
    }
    if z[0] == c {
      forall x | x in z[1..] ensures x.id != c.id {
        var k :| 0 <= k < |z[1..]| && z[1..][k] == x;
        assert z[k + 1] == x;
      }
      WithIdsAbsent(z[1..], {c.id});
    } else {
      assert z[0].id != c.id by {
        var k :| 0 <= k < |z| && z[k] == c;
        assert k != 0;
      }
      assert c in z[1..] by {
        var k :| 0 <= k < |z| && z[k] == c;
        assert z[1..][k - 1] == c;
      }
      WithIdsSingle(z[1..], c);
    }
  }

  /** Selecting the union of disjoint identifier sets selects both parts, as a multiset. */
  lemma {:induction false} WithIdsUnion(z: seq<Card>, a: set<CardId>, b: set<CardId>)
    requires a !! b
    ensures multiset(WithIds(z, a + b)) == multiset(WithIds(z, a)) + multiset(WithIds(z, b))
  {
    if |z| > 0 {
      WithIdsUnion(z[1..], a, b);
    }
  }

  /**
   * Removing one held card by identifier from the hand-and-reserve pair:
   * exactly that card leaves, nothing else.
   */
  lemma RemoveOneFromZones(hand: seq<Card>, reserve: seq<Card>, c: Card)
    requires DistinctIds(hand + reserve) && c in hand + reserve
    ensures multiset(WithoutIds(hand, {c.id})) + multiset(WithoutIds(reserve, {c.id})) + multiset{c}
         == multiset(hand) + multiset(reserve)
  {
    var z := hand + reserve;
    SplitByIds(z, {c.id});
    WithIdsSingle(z, c);
    WithoutIdsConcat(hand, reserve, {c.id});
  }

  /** Removing two held cards with different identifiers: exactly those two leave. */
  lemma RemovePairFromZones(hand: seq<Card>, reserve: seq<Card>, a: Card, b: Card)
    requires DistinctIds(hand + reserve) && a in hand + reserve && b in hand + reserve && a.id != b.id
    ensures multiset(WithoutIds(hand, {a.id, b.id})) + multiset(WithoutIds(reserve, {a.id, b.id})) + multiset{a, b}
         == multiset(hand) + multiset(reserve)
  {
    var z := hand + reserve;
    var ids := {a.id, b.id};
    SplitByIds(z, ids);
    PairSelected(z, a, b);
    WithoutIdsConcat(hand, reserve, ids);
    assert multiset(WithoutIds(z, ids)) == multiset(WithoutIds(hand, ids)) + multiset(WithoutIds(reserve, ids));
    assert multiset(z) == multiset(hand) + multiset(reserve);
  }

  /** With distinct identifiers, selecting two cards' identifiers yields exactly those two cards. */
  lemma PairSelected(z: seq<Card>, a: Card, b: Card)
    requires DistinctIds(z) && a in z && b in z && a.id != b.id
    ensures multiset(WithIds(z, {a.id, b.id})) == multiset{a, b}
  {
    assert {a.id, b.id} == {a.id} + {b.id};
    WithIdsUnion(z, {a.id}, {b.id});
    WithIdsSingle(z, a);
    WithIdsSingle(z, b);
  }

  /** Removing one card from a single zone with distinct identifiers. */
  lemma RemoveOne(z: seq<Card>, c: Card)
    requires DistinctIds(z) && c in z
    ensures multiset(WithoutIds(z, {c.id})) + multiset{c} == multiset(z)
    ensures |WithoutIds(z, {c.id})| == |z| - 1
  {
    SplitByIds(z, {c.id});
    WithIdsSingle(z, c);
    assert |multiset(WithoutIds(z, {c.id}))| + 1 == |multiset(z)|;
  }

  /** A card of the hand-and-reserve pair sits in exactly one of them. */
  lemma HeldOnce(hand: seq<Card>, reserve: seq<Card>, c: Card)
    requires DistinctIds(hand + reserve) && c in hand + reserve
    ensures c in hand ==> c.id !in IdsOf(reserve) && DistinctIds(hand)
    ensures c !in hand ==> c in reserve && c.id !in IdsOf(hand) && DistinctIds(reserve)
  {
    var z := hand + reserve;
    assert forall i :: 0 <= i < |hand| ==> z[i] == hand[i];
    assert forall j :: 0 <= j < |reserve| ==> z[|hand| + j] == reserve[j];
    if c in hand {
      var i :| 0 <= i < |hand| && hand[i] == c;
      forall x | x in reserve ensures x.id != c.id {
        var j :| 0 <= j < |reserve| && reserve[j] == x;
        assert z[i] == c && z[|hand| + j] == x;
      }
    } else {
      var j :| 0 <= j < |reserve| && reserve[j] == c;
      forall x | x in hand ensures x.id != c.id {
        var i :| 0 <= i < |hand| && hand[i] == x;
        assert z[i] == x && z[|hand| + j] == c;
      }
    }
  }
}
