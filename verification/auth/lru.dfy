/**
 The recency list of pkg/auth/blocker.go (lruCache) as a value: the entries in order, most recently used first.

 `Step` is what one call of get, put or remove does to that list. The class in lru_cache.dfy is proved to follow it,
 and the laws of the cache (structure, order, retention, inclusion of a smaller cache in a larger one) are proved here,
 for every run.
 */
module Lru {
  import opened Basics
  import opened Options

  datatype Entry<V> = Entry(key: string, val: V)

  datatype Op<V> = Get(key: string) | Put(key: string, val: V) | Remove(key: string)

  ghost function Keys<V>(l: seq<Entry<V>>): set<string> {
    if |l| == 0 then {} else {l[0].key} + Keys(l[1..])
  }

  ghost predicate Distinct<V>(l: seq<Entry<V>>) {
    |l| == 0 || (l[0].key !in Keys(l[1..]) && Distinct(l[1..]))
  }

  ghost function Find<V>(l: seq<Entry<V>>, k: string): Option<V> {
    if |l| == 0 then None else if l[0].key == k then Some(l[0].val) else Find(l[1..], k)
  }

  ghost function Without<V>(l: seq<Entry<V>>, k: string): seq<Entry<V>> {
    if |l| == 0 then [] else if l[0].key == k then Without(l[1..], k) else [l[0]] + Without(l[1..], k)
  }

  /** get: a hit moves the entry to the front, a miss changes nothing. */
  ghost function Touch<V>(l: seq<Entry<V>>, k: string): seq<Entry<V>> {
    match Find(l, k)
    case Some(v) => [Entry(k, v)] + Without(l, k)
    case None => l
  }

  /** put: a known key is updated and moved to the front; a new one is pushed, and one dropped if that is too many. */
  ghost function Insert<V>(cap: int, l: seq<Entry<V>>, k: string, v: V): seq<Entry<V>> {
    var r := [Entry(k, v)] + Without(l, k);
    if k in Keys(l) then r else if |r| > cap then r[..|r| - 1] else r
  }

  ghost function Step<V>(cap: int, l: seq<Entry<V>>, op: Op<V>): seq<Entry<V>> {
    match op
    case Get(k) => Touch(l, k)
    case Put(k, v) => Insert(cap, l, k, v)
    case Remove(k) => Without(l, k)
  }

  ghost function Run<V>(cap: int, l: seq<Entry<V>>, ops: seq<Op<V>>): seq<Entry<V>> {
    if |ops| == 0 then l else Step(cap, Run(cap, l, ops[..|ops| - 1]), ops[|ops| - 1])
  }

  ghost predicate Wellformed<V>(cap: int, l: seq<Entry<V>>) {
    Distinct(l) && |l| <= cap
  }

  // ---------- the list functions ----------

  /** The list without position i. */
  ghost function Cut<T>(s: seq<T>, i: nat): (c: seq<T>)
    requires i < |s|
    ensures c == s[..i] + s[i + 1..]
  {
    seq(|s| - 1, j requires 0 <= j < |s| - 1 => if j < i then s[j] else s[j + 1])
  }

  lemma {:induction false} WithoutKeys<V>(l: seq<Entry<V>>, k: string)
    ensures Keys(Without(l, k)) == Keys(l) - {k}
    ensures Distinct(l) ==> Distinct(Without(l, k))
    ensures |Without(l, k)| <= |l|
    ensures k !in Keys(l) ==> Without(l, k) == l
    ensures k in Keys(l) ==> |Without(l, k)| < |l|
  {
    if |l| > 0 {
      WithoutKeys(l[1..], k);
      var w := Without(l[1..], k);
      assert ([l[0]] + w)[1..] == w;
    }
  }

  lemma {:induction false} WithoutFind<V>(l: seq<Entry<V>>, k: string, q: string)
    ensures Find(Without(l, k), q) == if q == k then None else Find(l, q)
  {
    if |l| > 0 {
      WithoutFind(l[1..], k, q);
      var w := Without(l[1..], k);
      assert ([l[0]] + w)[1..] == w;
    }
  }

  lemma {:induction false} FindKeys<V>(l: seq<Entry<V>>, k: string)
    ensures Find(l, k).Some? <==> k in Keys(l)
  {
    if |l| > 0 {
      FindKeys(l[1..], k);
    }
  }

  lemma {:induction false} AtIndex<V>(l: seq<Entry<V>>, i: nat)
    requires i < |l|
    ensures l[i].key in Keys(l)
    ensures Distinct(l) ==> Find(l, l[i].key) == Some(l[i].val)
  {
    if i > 0 {
      AtIndex(l[1..], i - 1);
    }
  }

  lemma {:induction false} IndexOf<V>(l: seq<Entry<V>>, k: string) returns (i: nat)
    requires k in Keys(l)
    ensures i < |l| && l[i].key == k
    ensures Find(l, k) == Some(l[i].val)
  {
    if l[0].key == k {
      i := 0;
    } else {
      i := IndexOf(l[1..], k);
      i := i + 1;
    }
  }

  lemma {:induction false} ConcatKeys<V>(a: seq<Entry<V>>, b: seq<Entry<V>>)
    ensures Keys(a + b) == Keys(a) + Keys(b)
    ensures Distinct(a + b) <==> Distinct(a) && Distinct(b) && Keys(a) !! Keys(b)
  {
    if |a| == 0 {
      assert a + b == b;
    } else {
      assert (a + b)[1..] == a[1..] + b;
      ConcatKeys(a[1..], b);
    }
  }

  lemma {:induction false} KeysSize<V>(l: seq<Entry<V>>)
    requires Distinct(l)
    ensures |Keys(l)| == |l|
  {
    if |l| > 0 {
      KeysSize(l[1..]);
    }
  }

  /** In a distinct list, cutting out position i is the same as removing the key found there. */
  lemma {:induction false} WithoutAt<V>(l: seq<Entry<V>>, i: nat)
    requires i < |l| && Distinct(l)
    ensures Without(l, l[i].key) == l[..i] + l[i + 1..]
  {
    if i == 0 {
      WithoutKeys(l[1..], l[0].key);
    } else {
      AtIndex(l[1..], i - 1);
      WithoutAt(l[1..], i - 1);
      assert l[..i] + l[i + 1..] == [l[0]] + (l[1..][..i - 1] + l[1..][i..]);
    }
  }

  /** What one step does, told by the position of its key. */
  lemma StepAt<V>(cap: int, l: seq<Entry<V>>, i: nat, k: string, v: V)
    requires i < |l| && Distinct(l) && l[i].key == k
    ensures Find(l, k) == Some(l[i].val)
    ensures Touch(l, k) == [l[i]] + Cut(l, i)
    ensures Insert(cap, l, k, v) == [Entry(k, v)] + Cut(l, i)
    ensures Without(l, k) == Cut(l, i)
  {
    AtIndex(l, i);
    WithoutAt(l, i);
  }

  lemma KeyAbsent<V>(l: seq<Entry<V>>, k: string)
    requires k !in Keys(l)
    ensures Find(l, k) == None && Touch(l, k) == l && Without(l, k) == l
  {
    FindKeys(l, k);
    WithoutKeys(l, k);
  }

  lemma StepAbsent<V>(cap: int, l: seq<Entry<V>>, k: string, v: V)
    requires k !in Keys(l)
    ensures Insert(cap, l, k, v) == if |l| + 1 > cap then ([Entry(k, v)] + l)[..|l|] else [Entry(k, v)] + l
  {
    WithoutKeys(l, k);
  }

  lemma FrontKeys<V>(e: Entry<V>, l: seq<Entry<V>>)
    ensures Keys([e] + l) == {e.key} + Keys(l)
    ensures Distinct([e] + l) <==> e.key !in Keys(l) && Distinct(l)
    ensures forall q :: Find([e] + l, q) == if q == e.key then Some(e.val) else Find(l, q)
  {
    assert ([e] + l)[1..] == l;
  }

  lemma DropLastKeys<V>(l: seq<Entry<V>>)
    requires |l| > 0
    ensures Keys(l) == Keys(l[..|l| - 1]) + {l[|l| - 1].key}
    ensures Distinct(l) ==> Distinct(l[..|l| - 1]) && l[|l| - 1].key !in Keys(l[..|l| - 1])
  {
    var last := l[|l| - 1..];
    assert l == l[..|l| - 1] + last;
    ConcatKeys(l[..|l| - 1], last);
    assert Keys(last) == {l[|l| - 1].key};
  }

  // ---------- structure ----------

  /** One step keeps keys distinct and the size within the capacity: the single `if` of put is enough. */
  lemma StepWellformed<V>(cap: int, l: seq<Entry<V>>, op: Op<V>)
    requires cap >= 1 && Wellformed(cap, l)
    ensures Wellformed(cap, Step(cap, l, op))
    ensures op.Put? ==> Find(Step(cap, l, op), op.key) == Some(op.val)
    ensures forall q :: q in Keys(Step(cap, l, op)) ==>
      if q == op.key then !op.Remove? && (op.Get? ==> Find(Step(cap, l, op), q) == Find(l, q))
      else q in Keys(l) && Find(Step(cap, l, op), q) == Find(l, q)
  {
    var k := op.key;
    WithoutKeys(l, k);
    FindKeys(l, k);
    var w := Without(l, k);
    if op.Remove? || (op.Get? && k !in Keys(l)) {
    } else {
      var e := Entry(k, if op.Put? then op.val else Find(l, k).value);
      FrontKeys(e, w);
      var r := [e] + w;
      if op.Put? && k !in Keys(l) && |r| > cap {
        DropLastKeys(r);
        assert r[..|r| - 1] == [e] + w[..|w| - 1];
        FrontKeys(e, w[..|w| - 1]);
        if |w| > 0 { DropLastKeys(w); }
      }
    }
    forall q | q in Keys(Step(cap, l, op)) && q != k
      ensures q in Keys(l) && Find(Step(cap, l, op), q) == Find(l, q)
    {
      WithoutFind(l, k, q);
      if op.Put? && k !in Keys(l) && |w| + 1 > cap {
        FindPrefix(w, |w| - 1, q);
      }
    }
  }

  /** What a put leaves to be found. */
  lemma InsertFind<V>(cap: int, l: seq<Entry<V>>, k: string, v: V, q: string)
    requires cap >= 1 && Wellformed(cap, l)
    ensures Wellformed(cap, Insert(cap, l, k, v))
    ensures var f := Find(Insert(cap, l, k, v), q);
      if q == k then f == Some(v) else f == None || f == Find(l, q)
  {
    StepWellformed(cap, l, Op.Put(k, v));
    FindKeys(Insert(cap, l, k, v), q);
  }

  lemma TouchFind<V>(cap: int, l: seq<Entry<V>>, k: string, q: string)
    requires cap >= 1 && Wellformed(cap, l)
    ensures Wellformed(cap, Touch(l, k))
    ensures Find(Touch(l, k), q) == Find(l, q)
  {
    StepWellformed(cap, l, Op<V>.Get(k));
    FindKeys(l, k);
    WithoutFind(l, k, q);
    if Find(l, k).Some? {
      FrontKeys(Entry(k, Find(l, k).value), Without(l, k));
    }
  }

  lemma {:induction false} FindPrefix<V>(l: seq<Entry<V>>, n: nat, q: string)
    requires n <= |l| && q in Keys(l[..n])
    ensures q in Keys(l) && Find(l[..n], q) == Find(l, q)
  {
    assert l[..n][1..] == l[1..][..n - 1];
    if l[0].key != q {
      FindPrefix(l[1..], n - 1, q);
    }
  }

  lemma {:induction false} RunWellformed<V>(cap: int, l: seq<Entry<V>>, ops: seq<Op<V>>)
    requires cap >= 1 && Wellformed(cap, l)
    ensures Wellformed(cap, Run(cap, l, ops))
  {
    if |ops| > 0 {
      RunWellformed(cap, l, ops[..|ops| - 1]);
      StepWellformed(cap, Run(cap, l, ops[..|ops| - 1]), ops[|ops| - 1]);
    }
  }

  // ---------- order of last use ----------

  /** Does this operation, on this list, use key k? A put always does, a get only when it hits. */
  ghost predicate Uses<V>(l: seq<Entry<V>>, op: Op<V>, k: string) {
    op.key == k && (op.Put? || (op.Get? && k in Keys(l)))
  }

  /** The position in the run of the last operation that used k, or -1. */
  ghost function LastUse<V>(cap: int, l: seq<Entry<V>>, ops: seq<Op<V>>, k: string): int {
    if |ops| == 0 then -1
    else if Uses(Run(cap, l, ops[..|ops| - 1]), ops[|ops| - 1], k) then |ops| - 1
    else LastUse(cap, l, ops[..|ops| - 1], k)
  }

  lemma {:induction false} DistinctAt<V>(l: seq<Entry<V>>, i: nat, j: nat)
    requires i < j < |l| && Distinct(l)
    ensures l[i].key != l[j].key
  {
    if i == 0 {
      AtIndex(l[1..], j - 1);
    } else {
      DistinctAt(l[1..], i - 1, j - 1);
    }
  }

  /** Position i of the list after a step came from position `Source(..)` of the list before it. */
  ghost function Source(used: bool, cut: nat, i: int): int {
    var j := if used then i - 1 else i;
    if j < cut then j else j + 1
  }

  /** Removing a key cuts its one position out, or none. */
  lemma WithoutSources<V>(l: seq<Entry<V>>, k: string) returns (cut: nat)
    requires Distinct(l)
    ensures cut <= |l| && |Without(l, k)| == |l| - (if cut < |l| then 1 else 0)
    ensures forall i :: 0 <= i < |Without(l, k)| ==>
      var s := if i < cut then i else i + 1; s < |l| && Without(l, k)[i] == l[s] && l[s].key != k
  {
    if k in Keys(l) {
      cut := IndexOf(l, k);
      WithoutAt(l, cut);
      forall s | 0 <= s < |l| && s != cut ensures l[s].key != k {
        DistinctAt(l, if s < cut then s else cut, if s < cut then cut else s);
      }
    } else {
      cut := |l|;
      WithoutKeys(l, k);
      forall s | 0 <= s < |l| ensures l[s].key != k {
        AtIndex(l, s);
      }
    }
  }

  /** The list r is l with one position cut out and, if `used`, an entry of this key put in front. */
  ghost predicate Traced<V>(l: seq<Entry<V>>, r: seq<Entry<V>>, key: string, used: bool, cut: nat) {
    && (used ==> |r| > 0 && r[0].key == key)
    && forall i :: (if used then 1 else 0) <= i < |r| ==>
         var s := Source(used, cut, i); 0 <= s < |l| && r[i] == l[s] && r[i].key != key
  }

  lemma StepSources<V>(cap: int, l: seq<Entry<V>>, op: Op<V>) returns (cut: nat)
    requires cap >= 1 && Wellformed(cap, l)
    ensures Traced(l, Step(cap, l, op), op.key, Uses(l, op, op.key), cut)
  {
    FindKeys(l, op.key);
    cut := WithoutSources(l, op.key);
    var w := Without(l, op.key);
    if Uses(l, op, op.key) {
      var e := Entry(op.key, if op.Put? then op.val else Find(l, op.key).value);
      FrontSources(e, w);
      assert |Step(cap, l, op)| <= |w| + 1 && Step(cap, l, op) == ([e] + w)[..|Step(cap, l, op)|];
    } else if op.Get? {
      KeyAbsent(l, op.key);
    }
  }

  lemma FrontSources<V>(e: Entry<V>, w: seq<Entry<V>>)
    ensures ([e] + w)[0] == e && forall i :: 1 <= i < |[e] + w| ==> ([e] + w)[i] == w[i - 1]
  {
  }

  ghost predicate Ordered<V>(l: seq<Entry<V>>, use: string -> int, n: int) {
    && (forall i :: 0 <= i < |l| ==> n > use(l[i].key) >= 0)
    && (forall i, j :: 0 <= i < j < |l| ==> use(l[i].key) > use(l[j].key))
  }

  lemma TracedOrdered<V>(l: seq<Entry<V>>, r: seq<Entry<V>>, key: string, used: bool, cut: nat,
                         use: string -> int, use': string -> int, n: int)
    requires n >= 0 && Ordered(l, use, n) && Traced(l, r, key, used, cut)
    requires forall k :: use'(k) == if used && k == key then n else use(k)
    ensures Ordered(r, use', n + 1)
  {
    forall i, j | 0 <= i < j < |r|
      ensures use'(r[i].key) > use'(r[j].key)
    {
      assert !(used && i == 0) ==> Source(used, cut, i) < Source(used, cut, j);
    }
  }

  lemma StepOrdered<V>(cap: int, l: seq<Entry<V>>, op: Op<V>, use: string -> int, use': string -> int, n: int)
    requires cap >= 1 && Wellformed(cap, l) && n >= 0 && Ordered(l, use, n)
    requires forall k :: use'(k) == if Uses(l, op, k) then n else use(k)
    ensures Ordered(Step(cap, l, op), use', n + 1)
  {
    var cut := StepSources(cap, l, op);
    TracedOrdered(l, Step(cap, l, op), op.key, Uses(l, op, op.key), cut, use, use', n);
  }

  /** From an empty cache, the list is always in the order of last use, most recent first. */
  lemma {:induction false} ListIsInLastUseOrder<V>(cap: int, ops: seq<Op<V>>)
    requires cap >= 1
    ensures Ordered(Run(cap, [], ops), k => LastUse(cap, [], ops, k), |ops|)
  {
    if |ops| > 0 {
      var before := ops[..|ops| - 1];
      ListIsInLastUseOrder(cap, before);
      RunWellformed<V>(cap, [], before);
      StepOrdered(cap, Run(cap, [], before), ops[|ops| - 1],
                  k => LastUse(cap, [], before, k), k => LastUse(cap, [], ops, k), |before|);
    }
  }

  // ---------- retention ----------

  /** The keys used by a run, other than k. */
  ghost function OthersUsed<V>(cap: int, l: seq<Entry<V>>, ops: seq<Op<V>>, k: string): set<string> {
    if |ops| == 0 then {}
    else
      var op := ops[|ops| - 1];
      OthersUsed(cap, l, ops[..|ops| - 1], k)
        + (if op.key != k && Uses(Run(cap, l, ops[..|ops| - 1]), op, op.key) then {op.key} else {})
  }

  /** The keys that stand in front of k. */
  ghost function Ahead<V>(l: seq<Entry<V>>, k: string): set<string> {
    if |l| == 0 || l[0].key == k then {} else {l[0].key} + Ahead(l[1..], k)
  }

  lemma {:induction false} AheadWithout<V>(l: seq<Entry<V>>, k: string, q: string)
    requires q != k
    ensures Ahead(Without(l, q), k) == Ahead(l, k) - {q}
  {
    if |l| > 0 && l[0].key != k {
      AheadWithout(l[1..], k, q);
      var w := Without(l[1..], q);
      assert ([l[0]] + w)[1..] == w;
    } else if |l| > 0 {
      var w := Without(l[1..], q);
      assert ([l[0]] + w)[0] == l[0];
    }
  }

  lemma AheadFront<V>(e: Entry<V>, l: seq<Entry<V>>, k: string)
    ensures Ahead([e] + l, k) == if e.key == k then {} else {e.key} + Ahead(l, k)
  {
    assert ([e] + l)[1..] == l;
  }

  /** Dropping the last entry loses k exactly when every other key stands in front of it. */
  lemma {:induction false} AheadDropLast<V>(l: seq<Entry<V>>, k: string)
    requires |l| > 0 && Distinct(l) && k in Keys(l)
    ensures var d := l[..|l| - 1];
      if k in Keys(d) then Ahead(d, k) == Ahead(l, k) && Ahead(l, k) < Keys(l) - {k}
      else Ahead(l, k) == Keys(l) - {k}
  {
    var d := l[..|l| - 1];
    DropLastKeys(l);
    if |l| == 1 {
      assert d == [];
    } else if l[0].key == k {
      assert d[0] == l[0];
      AtIndex(l, |l| - 1);
      DistinctAt(l, 0, |l| - 1);
    } else {
      assert d[1..] == l[1..][..|l[1..]| - 1];
      AheadDropLast(l[1..], k);
    }
  }

  /** What one step that neither uses nor removes k does to k and to the keys in front of it. */
  lemma StepAhead<V>(cap: int, l: seq<Entry<V>>, op: Op<V>, k: string)
    requires cap >= 1 && Wellformed(cap, l) && k in Keys(l) && op.key != k
    ensures var l' := Step(cap, l, op);
      var ahead := if Uses(l, op, op.key) then Ahead(l, k) + {op.key} else Ahead(l, k) - {op.key};
      if op.Put? && op.key !in Keys(l) && |l| == cap && Ahead(l, k) == Keys(l) - {k}
      then k !in Keys(l')
      else
        && k in Keys(l') && Find(l', k) == Find(l, k)
        && Ahead(l', k) == if op.Get? && !Uses(l, op, op.key) then Ahead(l, k) else ahead
  {
    var q := op.key;
    AheadWithout(l, k, q);
    WithoutKeys(l, q);
    FindKeys(l, q);
    StepWellformed(cap, l, op);
    var w := Without(l, q);
    if Uses(l, op, q) {
      var e := Entry(q, if op.Put? then op.val else Find(l, q).value);
      AheadFront(e, w, k);
      FrontKeys(e, w);
      if q !in Keys(l) && |l| + 1 > cap {
        AheadDropLast([e] + w, k);
      }
    }
  }

  /** k is cached with its value v if fewer than `cap` others were used and, unless something was removed, only then. */
  ghost predicate Retained<V>(cap: int, l: seq<Entry<V>>, k: string, v: V, used: set<string>, kept: bool) {
    && (|used| < cap ==> k in Keys(l) && Find(l, k) == Some(v) && Ahead(l, k) <= used)
    && (kept ==> (k in Keys(l) <==> |used| < cap) && (k in Keys(l) ==> Ahead(l, k) == used))
  }

  /** A key that is still cached has at most capacity less one others in front of it. */
  lemma AheadSize<V>(cap: int, l: seq<Entry<V>>, k: string)
    requires Wellformed(cap, l) && k in Keys(l)
    ensures Ahead(l, k) <= Keys(l) - {k} && |Keys(l) - {k}| == |l| - 1 && |Ahead(l, k)| < cap
  {
    AheadKeys(l, k);
    KeysSize(l);
    SetSize(Ahead(l, k), Keys(l) - {k});
  }

  lemma RetentionStep<V>(cap: int, l: seq<Entry<V>>, op: Op<V>, k: string, v: V, used: set<string>, kept: bool)
    requires cap >= 1 && Wellformed(cap, l) && op.key != k && Retained(cap, l, k, v, used, kept)
    ensures var used' := used + if Uses(l, op, op.key) then {op.key} else {};
      Retained(cap, Step(cap, l, op), k, v, used', kept && !op.Remove?)
  {
    var l' := Step(cap, l, op);
    var used' := used + if Uses(l, op, op.key) then {op.key} else {};
    SetSize(used, used');
    StepWellformed(cap, l, op);
    if k in Keys(l) {
      StepAhead(cap, l, op, k);
      AheadSize(cap, l, k);
      if k in Keys(l') {
        AheadSize(cap, l', k);
      } else if |used| < cap {
        assert op.key !in Ahead(l, k);
        SetSize(Ahead(l, k) + {op.key}, used');
      }
    }
  }

  /**
   Retention, exactly. Let k be at the front (just used). Over a run that neither uses nor removes k, it survives,
   with its value, while fewer than `cap` other keys have been used; and if nothing was removed, only then.
   */
  lemma {:induction false} Retention<V>(cap: int, l: seq<Entry<V>>, ops: seq<Op<V>>, k: string)
    requires cap >= 1 && Wellformed(cap, l) && |l| > 0 && l[0].key == k
    requires forall i :: 0 <= i < |ops| ==> ops[i].key != k
    ensures var kept := forall i :: 0 <= i < |ops| ==> !ops[i].Remove?;
      Retained(cap, Run(cap, l, ops), k, l[0].val, OthersUsed(cap, l, ops, k), kept)
  {
    if |ops| > 0 {
      var before, op := ops[..|ops| - 1], ops[|ops| - 1];
      var kept := forall i :: 0 <= i < |before| ==> !before[i].Remove?;
      Retention(cap, l, before, k);
      RunWellformed(cap, l, before);
      RetentionStep(cap, Run(cap, l, before), op, k, l[0].val, OthersUsed(cap, l, before, k), kept);
      assert (forall i :: 0 <= i < |ops| ==> !ops[i].Remove?) ==> kept && !op.Remove? by {
        assert forall i :: 0 <= i < |before| ==> before[i] == ops[i];
      }
    }
  }

  lemma {:induction false} AheadKeys<V>(l: seq<Entry<V>>, k: string)
    ensures Ahead(l, k) <= Keys(l) - {k}
  {
    if |l| > 0 {
      AheadKeys(l[1..], k);
    }
  }

  // ---------- inclusion of a smaller cache in a larger one ----------

  /** a is a subsequence of b: same entries, same order, some left out. */
  ghost predicate Sub<V>(a: seq<Entry<V>>, b: seq<Entry<V>>) {
    |a| == 0 || (|b| > 0 && ((a[0] == b[0] && Sub(a[1..], b[1..])) || Sub(a, b[1..])))
  }

  lemma {:induction false} SubKeys<V>(a: seq<Entry<V>>, b: seq<Entry<V>>)
    requires Sub(a, b)
    ensures Keys(a) <= Keys(b) && |a| <= |b|
  {
    if |a| > 0 {
      if a[0] == b[0] && Sub(a[1..], b[1..]) { SubKeys(a[1..], b[1..]); } else { SubKeys(a, b[1..]); }
    }
  }

  lemma {:induction false} SubFind<V>(a: seq<Entry<V>>, b: seq<Entry<V>>, k: string)
    requires Sub(a, b) && Distinct(b) && k in Keys(a)
    ensures Find(b, k) == Find(a, k)
    decreases |b|
  {
    if a[0] == b[0] && Sub(a[1..], b[1..]) {
      if a[0].key != k { SubFind(a[1..], b[1..], k); }
    } else {
      SubKeys(a, b[1..]);
      SubFind(a, b[1..], k);
    }
  }

  lemma {:induction false} SubTail<V>(a: seq<Entry<V>>, b: seq<Entry<V>>)
    requires Sub(a, b) && |a| > 0
    ensures Sub(a[1..], b)
    decreases |b|
  {
    if !(a[0] == b[0] && Sub(a[1..], b[1..])) {
      SubTail(a, b[1..]);
    }
  }

  lemma {:induction false} SubWithout<V>(a: seq<Entry<V>>, b: seq<Entry<V>>, k: string)
    requires Sub(a, b)
    ensures Sub(Without(a, k), Without(b, k))
    decreases |b|
  {
    if |a| > 0 {
      var wb := Without(b[1..], k);
      assert ([b[0]] + wb)[1..] == wb;
      if a[0] == b[0] && Sub(a[1..], b[1..]) {
        SubWithout(a[1..], b[1..], k);
        var wa := Without(a[1..], k);
        assert ([a[0]] + wa)[1..] == wa;
      } else {
        SubWithout(a, b[1..], k);
      }
    }
  }

  lemma {:induction false} SubFront<V>(e: Entry<V>, a: seq<Entry<V>>, b: seq<Entry<V>>)
    requires Sub(a, b)
    ensures Sub([e] + a, [e] + b) && Sub(a, [e] + b)
  {
    assert ([e] + a)[1..] == a && ([e] + b)[1..] == b;
  }

  lemma {:induction false} SubDropLast<V>(a: seq<Entry<V>>, b: seq<Entry<V>>)
    requires Sub(a, b) && |a| > 0
    ensures |b| > 0 && Sub(a[..|a| - 1], b[..|b| - 1]) && Sub(a[..|a| - 1], b)
    decreases |b|
  {
    var a', b' := a[..|a| - 1], b[..|b| - 1];
    if a[0] == b[0] && Sub(a[1..], b[1..]) {
      if |a| > 1 {
        SubDropLast(a[1..], b[1..]);
        SubKeys(a[1..], b[1..]);
        assert a'[1..] == a[1..][..|a[1..]| - 1];
        assert b'[1..] == b[1..][..|b[1..]| - 1];
        assert a'[0] == b'[0] == b[0];
      }
    } else {
      SubKeys(a, b[1..]);
      SubDropLast(a, b[1..]);
      assert b'[1..] == b[1..][..|b[1..]| - 1];
    }
  }

  /**
   A small cache stands in a large one: it lists a subsequence of its entries, and lags no further than the capacities
   do.
   */
  ghost predicate Included<V>(small: int, large: int, a: seq<Entry<V>>, b: seq<Entry<V>>) {
    Sub(a, b) && |b| - |a| <= large - small
  }

  lemma StepInclusion<V>(small: int, large: int, a: seq<Entry<V>>, b: seq<Entry<V>>, op: Op<V>)
    requires 1 <= small <= large && Wellformed(small, a) && Wellformed(large, b) && Included(small, large, a, b)
    ensures Included(small, large, Step(small, a, op), Step(large, b, op))
  {
    var k := op.key;
    SubKeys(a, b);
    SubWithout(a, b, k);
    WithoutKeys(a, k);
    WithoutKeys(b, k);
    FindKeys(a, k);
    FindKeys(b, k);
    WithoutSize(a, k);
    WithoutSize(b, k);
    if k in Keys(a) { SubFind(a, b, k); }
    var wa, wb := Without(a, k), Without(b, k);
    if op.Put? {
      var e := Entry(k, op.val);
      SubFront(e, wa, wb);
      if k !in Keys(a) && |wa| + 1 > small {
        SubDropLast([e] + wa, [e] + wb);
      }
    } else if op.Get? && k in Keys(b) {
      SubFront(Entry(k, Find(b, k).value), wa, wb);
    }
  }

  lemma {:induction false} WithoutSize<V>(l: seq<Entry<V>>, k: string)
    requires Distinct(l)
    ensures |Without(l, k)| == if k in Keys(l) then |l| - 1 else |l|
  {
    WithoutKeys(l, k);
    KeysSize(l);
    KeysSize(Without(l, k));
  }

  /**
   LRU inclusion: on any common trace a cache of capacity `large` holds, in the same order and with the same values,
   everything a cache of capacity `small` holds; so it hits, with the same answer, whenever the small one does.
   */
  lemma {:induction false} Inclusion<V>(small: int, large: int, ops: seq<Op<V>>, k: string)
    requires 1 <= small <= large
    ensures var a, b := Run(small, [], ops), Run(large, [], ops);
      Included(small, large, a, b) && (Find(a, k).Some? ==> Find(b, k) == Find(a, k))
  {
    RunWellformed<V>(small, [], ops);
    RunWellformed<V>(large, [], ops);
    var a, b := Run(small, [], ops), Run(large, [], ops);
    if |ops| > 0 {
      var before := ops[..|ops| - 1];
      Inclusion(small, large, before, k);
      RunWellformed<V>(small, [], before);
      RunWellformed<V>(large, [], before);
      StepInclusion(small, large, Run(small, [], before), Run(large, [], before), ops[|ops| - 1]);
    }
    FindKeys(a, k);
    if k in Keys(a) { SubFind(a, b, k); }
  }
}
