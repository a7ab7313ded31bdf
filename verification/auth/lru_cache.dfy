/**
 The LRU cache of pkg/auth/blocker.go as the class it is there: an index from keys to entry objects and a list of the
 same objects, front most recently used. Every method is proved to do to `View()` what Lru.Step says.
 */
module LruCaches {
  import opened Options
  import opened Records
  import opened Lru

  class LruEntry {
    const key: string
    var rec: FailureRecord

    constructor (key: string, rec: FailureRecord)
      ensures this.key == key && this.rec == rec
    {
      this.key, this.rec := key, rec;
    }
  }

  ghost function Recs(view: seq<Entry<FailureRecord>>): set<FailureRecord> {
    if |view| == 0 then {} else {view[0].val} + Recs(view[1..])
  }

  /**
   The list, the index and the view are in step: list and index are in bijection, the view shows each entry's key and
   record object, and no two entries share a record object.
   */
  ghost predicate InStep(order: seq<LruEntry>, items: map<string, LruEntry>, view: seq<Entry<FailureRecord>>)
    reads order
  {
    |order| == |view| &&
    if |order| == 0 then items == map[]
    else
      var el := order[0];
      && el.key in items && items[el.key] == el
      && view[0] == Entry(el.key, el.rec)
      && el.rec !in Recs(view[1..])
      && InStep(order[1..], items - {el.key}, view[1..])
  }

  lemma {:induction false} InStepFacts(order: seq<LruEntry>, items: map<string, LruEntry>,
                                       view: seq<Entry<FailureRecord>>)
    requires InStep(order, items, view)
    ensures Keys(view) == items.Keys && Distinct(view)
    ensures forall e :: e in order ==> e.key in items && items[e.key] == e && e.rec in Recs(view)
  {
    if |order| > 0 {
      InStepFacts(order[1..], items - {order[0].key}, view[1..]);
    }
  }

  lemma {:induction false} Position(order: seq<LruEntry>, items: map<string, LruEntry>,
                                    view: seq<Entry<FailureRecord>>, k: string)
    returns (i: nat)
    requires InStep(order, items, view) && k in items
    ensures i < |order| && order[i] == items[k] && order[i].key == k && view[i] == Entry(k, items[k].rec)
    ensures forall j :: 0 <= j < i ==> order[j] != order[i]
  {
    InStepFacts(order, items, view);
    if order[0].key == k {
      i := 0;
    } else {
      i := Position(order[1..], items - {order[0].key}, view[1..], k);
      i := i + 1;
      assert order[i] == order[1..][i - 1] && order[i] in order;
      forall j | 0 <= j < i ensures order[j] != order[i] {
        assert j > 0 ==> order[j] == order[1..][j - 1];
      }
    }
  }

  lemma {:induction false} CutInStep(order: seq<LruEntry>, items: map<string, LruEntry>,
                                     view: seq<Entry<FailureRecord>>, i: nat)
    requires InStep(order, items, view) && i < |order|
    ensures InStep(Cut(order, i), items - {order[i].key}, Cut(view, i))
    ensures order[i] !in Cut(order, i) && order[i].rec !in Recs(Cut(view, i)) && Recs(Cut(view, i)) <= Recs(view)
    ensures order[i].key in items
  {
    var el := order[0];
    InStepFacts(order[1..], items - {el.key}, view[1..]);
    if i == 0 {
      assert Cut(order, i) == order[1..] && Cut(view, i) == view[1..];
    } else {
      CutInStep(order[1..], items - {el.key}, view[1..], i - 1);
      assert Cut(order, i)[1..] == Cut(order[1..], i - 1);
      assert Cut(view, i)[1..] == Cut(view[1..], i - 1);
      var q := order[i].key;
      assert order[i] in order[1..];
      assert items - {q} - {el.key} == items - {el.key} - {q};
    }
  }

  lemma PushInStep(order: seq<LruEntry>, items: map<string, LruEntry>, view: seq<Entry<FailureRecord>>, el: LruEntry)
    requires InStep(order, items, view) && el.key !in items && el.rec !in Recs(view)
    ensures InStep([el] + order, items[el.key := el], [Entry(el.key, el.rec)] + view)
  {
    assert ([el] + order)[1..] == order;
    assert ([Entry(el.key, el.rec)] + view)[1..] == view;
    assert items[el.key := el] - {el.key} == items;
  }

  class LruCache {
    ghost var Repr: set<object>
    ghost var view: seq<Entry<FailureRecord>>

    const capacity: int
    var items: map<string, LruEntry>
    var order: seq<LruEntry>

    ghost predicate Valid()
      reads this, Repr
    {
      && this in Repr
      && (forall e :: e in order ==> e in Repr)
      && (forall k :: k in items ==> items[k] in Repr)
      && (forall r :: r in Recs(view) ==> r in Repr)
      && 1 <= capacity && |order| <= capacity
      && InStep(order, items, view)
    }

    lemma ViewIsWellformed()
      requires Valid()
      ensures Wellformed(capacity, view) && Keys(view) == items.Keys
    {
      InStepFacts(order, items, view);
    }

    /** The record cached for a key belongs to the cache, and to no other key. */
    lemma OwnRecord(key: string)
      requires Valid()
      ensures forall r :: r in Recs(Without(view, key)) ==> r in Repr
      ensures Find(view, key).Some? ==>
        Find(view, key).value in Repr && Find(view, key).value !in Recs(Without(view, key))
    {
      InStepFacts(order, items, view);
      FindKeys(view, key);
      if key in items {
        var i := Position(order, items, view, key);
        StepAt(capacity, view, i, key, items[key].rec);
        CutInStep(order, items, view, i);
        assert order[i] in order;
      } else {
        KeyAbsent(view, key);
      }
    }

    constructor (capacity: int)
      ensures Valid() && fresh(Repr) && view == []
      ensures this.capacity == if capacity <= 0 then 1000 else capacity
    {
      this.capacity := if capacity <= 0 then DEFAULT_LRU_SIZE else capacity;
      items, order, view := map[], [], [];
      Repr := {this};
    }

    /** container/list's Remove: cut an element out of the list. */
    method Unlink(el: LruEntry, ghost i: nat)
      requires i < |order| && order[i] == el && forall j :: 0 <= j < i ==> order[j] != el
      modifies this`order
      ensures order == Cut(old(order), i)
    {
      var at := 0;
      while order[at] != el
        invariant 0 <= at <= i
        decreases i - at
      {
        at := at + 1;
      }
      order := order[..at] + order[at + 1..];
    }

    /** container/list's MoveToFront, once the rest of the list is known to be in step. */
    method MoveToFront(el: LruEntry, ghost i: nat)
      requires |view| == |order| && i < |order| && order[i] == el && forall j :: 0 <= j < i ==> order[j] != el
      requires el.key in items && items[el.key] == el
      requires InStep(Cut(order, i), items - {el.key}, Cut(view, i)) && el.rec !in Recs(Cut(view, i))
      modifies this`order, this`view
      ensures InStep(order, items, view)
      ensures order == [el] + Cut(old(order), i) && view == [Entry(el.key, el.rec)] + Cut(old(view), i)
    {
      Unlink(el, i);
      PushInStep(order, items - {el.key}, Cut(view, i), el);
      assert (items - {el.key})[el.key := el] == items;
      order := [el] + order;
      view := [Entry(el.key, el.rec)] + Cut(view, i);
    }

    method Get(key: string) returns (rec: FailureRecord?)
      requires Valid()
      modifies this`order, this`view
      ensures Valid()
      ensures view == Touch(old(view), key)
      ensures match Find(old(view), key) case None => rec == null case Some(o) => rec == o
    {
      InStepFacts(order, items, view);
      rec := null;
      if key in items {
        var el := items[key];
        ghost var i := Position(order, items, view, key);
        StepAt(capacity, view, i, key, el.rec);
        CutInStep(order, items, view, i);
        MoveToFront(el, i);
        rec := el.rec;
      } else {
        KeyAbsent(view, key);
      }
    }

    method Put(key: string, rec: FailureRecord)
      requires Valid()
      requires rec !in Recs(Without(view, key))
      modifies this`order, this`items, this`view, this`Repr, items.Values`rec
      ensures Valid() && Repr >= old(Repr) && fresh(Repr - old(Repr) - {rec})
      ensures view == Insert(capacity, old(view), key, rec)
    {
      InStepFacts(order, items, view);
      Repr := Repr + {rec};
      if key in items {
        ghost var i := Position(order, items, view, key);
        Refresh(key, items[key], rec);
      } else {
        KeyAbsent(view, key);
        PushNew(key, rec);
        StepAbsent(capacity, old(view), key, rec);
      }
    }

    /** put on a known key. */
    method Refresh(key: string, el: LruEntry, rec: FailureRecord)
      requires Valid() && key in items && items[key] == el && rec !in Recs(Without(view, key)) && rec in Repr
      modifies this`order, this`view, el`rec
      ensures Valid() && view == Insert(capacity, old(view), key, rec)
    {
      InStepFacts(order, items, view);
      ghost var i := Position(order, items, view, key);
      StepAt(capacity, view, i, key, rec);
      CutInStep(order, items, view, i);
      el.rec := rec;
      MoveToFront(el, i);
    }

    /** put on a new key; the one entry too many, if any, is dropped from the back. */
    method PushNew(key: string, rec: FailureRecord)
      requires Valid() && key !in items && rec !in Recs(view) && rec in Repr
      modifies this`order, this`items, this`view, this`Repr
      ensures Valid() && Repr >= old(Repr) && fresh(Repr - old(Repr))
      ensures var v := [Entry(key, rec)] + old(view); view == if |v| > capacity then v[..|v| - 1] else v
    {
      var el := new LruEntry(key, rec);
      PushInStep(order, items, view, el);
      order := [el] + order;
      items := items[key := el];
      view := [Entry(key, rec)] + view;
      Repr := Repr + {el};
      if |order| > capacity {
        DropOldest();
      }
    }

    /** The eviction in put. */
    method DropOldest()
      requires |order| > 0 && InStep(order, items, view)
      modifies this`order, this`items, this`view
      ensures InStep(order, items, view)
      ensures order == old(order)[..|old(order)| - 1] && view == old(view)[..|old(view)| - 1]
      ensures Recs(view) <= Recs(old(view)) && (forall k :: k in items ==> k in old(items) && items[k] == old(items)[k])
    {
      var oldest := order[|order| - 1];
      CutInStep(order, items, view, |order| - 1);
      assert Cut(order, |order| - 1) == order[..|order| - 1];
      assert Cut(view, |view| - 1) == view[..|view| - 1];
      order := order[..|order| - 1];
      items := items - {oldest.key};
      view := view[..|view| - 1];
    }

    method Remove(key: string)
      requires Valid()
      modifies this`items, this`order, this`view
      ensures Valid()
      ensures view == Without(old(view), key)
    {
      InStepFacts(order, items, view);
      if key in items {
        var el := items[key];
        ghost var i := Position(order, items, view, key);
        StepAt(capacity, view, i, key, el.rec);
        CutInStep(order, items, view, i);
        Unlink(el, i);
        items := items - {key};
        view := Cut(view, i);
      } else {
        KeyAbsent(view, key);
      }
    }
  }
}
