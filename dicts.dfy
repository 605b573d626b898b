/**
 * The Python values the favorites store holds: strings, integers, booleans
 * and dicts. A dict is an association list in insertion order, which is the
 * order Python iterates a dict in; its keys are distinct when it was built by
 * `Set` (assignment `d[k] = v`).
 */
module Dicts {

  datatype Value = Str(s: string) | Int(n: int) | Bool(b: bool) | Dict(items: seq<Item>)

  datatype Item = Item(key: string, val: Value)

  /** `k in d`. */
  predicate Has(items: seq<Item>, k: string) {
    exists i :: 0 <= i < |items| && items[i].key == k
  }

  /** The keys in iteration order (`list(d)`). */
  function Keys(items: seq<Item>): (ks: seq<string>)
    ensures |ks| == |items|
    ensures forall i :: 0 <= i < |items| ==> ks[i] == items[i].key
  {
    if items == [] then [] else [items[0].key] + Keys(items[1..])
  }

  predicate DistinctKeys(items: seq<Item>) {
    forall i, j :: 0 <= i < j < |items| ==> items[i].key != items[j].key
  }

  /** Position of the entry for `k`. */
  function Position(items: seq<Item>, k: string): (i: nat)
    requires Has(items, k)
    ensures i < |items| && items[i].key == k
    ensures forall j :: 0 <= j < i ==> items[j].key != k
  {
    if items[0].key == k then 0
    else
      assert items[1..][0] == items[1] || |items| == 1;
      assert Has(items[1..], k) by {
        var j :| 0 <= j < |items| && items[j].key == k;
        assert j > 0 && items[1..][j - 1] == items[j];
      }
      1 + Position(items[1..], k)
  }

  /** `d[k]` for a key that is present. */
  function Lookup(items: seq<Item>, k: string): Value
    requires Has(items, k)
  {
    items[Position(items, k)].val
  }

  /** `d.get(k, default)`. */
  function Get(items: seq<Item>, k: string, default: Value): (v: Value)
    ensures Has(items, k) ==> v == Lookup(items, k)
    ensures !Has(items, k) ==> v == default
  {
    if Has(items, k) then Lookup(items, k) else default
  }

  /** Two lists with the same key at every position find every key at the same position. */
  lemma {:induction false} SamePosition(a: seq<Item>, b: seq<Item>, k: string)
    requires |a| == |b| && forall i :: 0 <= i < |a| ==> a[i].key == b[i].key
    requires Has(a, k)
    ensures Has(b, k) && Position(a, k) == Position(b, k)
  {
    var i := Position(a, k);
    assert b[i].key == k;
    var j := Position(b, k);
    assert a[j].key == k;
  }

  /**
   * `d[k] = v`: replaces the value of an existing key where it stands, or
   * appends a new key at the end; every other key keeps its value and place.
   */
  function Set(items: seq<Item>, k: string, v: Value): (r: seq<Item>)
    ensures Has(r, k) && Lookup(r, k) == v
  {
    if Has(items, k) then
      var i := Position(items, k);
      ReplaceAt(items, i, v);
      items[i := Item(k, v)]
    else
      Append(items, k, v);
      items + [Item(k, v)]
  }

  /** `d[k] = v` leaves every other key as it was: present or absent, with the same value. */
  lemma SetOthers(items: seq<Item>, k: string, v: Value)
    ensures forall k' :: k' != k ==> (Has(Set(items, k, v), k') <==> Has(items, k'))
    ensures forall k' :: k' != k && Has(items, k') ==> Lookup(Set(items, k, v), k') == Lookup(items, k')
  {
    if Has(items, k) {
      ReplaceAt(items, Position(items, k), v);
    } else {
      Append(items, k, v);
    }
  }

  /** `d[k] = v` keeps the iteration order, appending a new key last, and keeps keys distinct. */
  lemma SetOrder(items: seq<Item>, k: string, v: Value)
    ensures Keys(Set(items, k, v)) == if Has(items, k) then Keys(items) else Keys(items) + [k]
    ensures DistinctKeys(items) ==> DistinctKeys(Set(items, k, v))
  {
    if Has(items, k) {
      ReplaceAt(items, Position(items, k), v);
    } else {
      Append(items, k, v);
    }
  }

  lemma ReplaceAt(items: seq<Item>, i: nat, v: Value)
    requires i < |items|
    ensures var r := items[i := Item(items[i].key, v)];
      && Has(r, items[i].key)
      && (forall k' :: Has(r, k') <==> Has(items, k'))
      && (forall k' :: k' != items[i].key && Has(items, k') ==> Lookup(r, k') == Lookup(items, k'))
      && Keys(r) == Keys(items)
      && (DistinctKeys(items) ==> DistinctKeys(r))
      && (Position(items, items[i].key) == i ==> Lookup(r, items[i].key) == v)
  {
    var k := items[i].key;
    var r := items[i := Item(k, v)];
    assert forall j :: 0 <= j < |r| ==> r[j].key == items[j].key;
    forall k' | Has(items, k')
      ensures Has(r, k') && Position(r, k') == Position(items, k')
    {
      SamePosition(items, r, k');
    }
    forall k' | Has(r, k')
      ensures Has(items, k')
    {
      var j := Position(r, k');
      assert items[j].key == k';
    }
  }

  lemma Append(items: seq<Item>, k: string, v: Value)
    requires !Has(items, k)
    ensures var r := items + [Item(k, v)];
      && Has(r, k) && Lookup(r, k) == v
      && (forall k' :: k' != k ==> (Has(r, k') <==> Has(items, k')))
      && (forall k' :: k' != k && Has(items, k') ==> Lookup(r, k') == Lookup(items, k'))
      && Keys(r) == Keys(items) + [k]
      && (DistinctKeys(items) ==> DistinctKeys(r))
  {
    var r := items + [Item(k, v)];
    assert r[|items|].key == k;
    assert Position(r, k) == |items|;
    forall k' | k' != k && Has(items, k')
      ensures Has(r, k') && Lookup(r, k') == Lookup(items, k')
    {
      var i := Position(items, k');
      assert r[i].key == k';
      var j := Position(r, k');
      assert r[j] == items[j];
    }
    forall k' | k' != k && Has(r, k')
      ensures Has(items, k')
    {
      var j := Position(r, k');
      assert items[j].key == k';
    }
  }
}
