/** The stub registry: function name -> argument key -> queue of return
    values, with keyed replacement on `stub` and sequential consumption on
    `value` (the front is popped while more than one element remains, so the
    last value repeats). */
module StubRegistry {
  import opened Values

  type Registry<V> = map<string, map<string, seq<Boxed<V>>>>

  function Min(a: int, b: int): int
  {
    if a <= b then a else b
  }

  /** `stubbings[function]?[key]` */
  function QueueAt<V>(reg: Registry<V>, f: string, k: string): Option<seq<Boxed<V>>>
  {
    if f in reg && k in reg[f] then Some(reg[f][k]) else None
  }

  /** `stubbings[function]`, with an absent entry read as no stubbings */
  function StubsOf<V>(reg: Registry<V>, f: string): map<string, seq<Boxed<V>>>
  {
    if f in reg then reg[f] else map[]
  }

  /** The number of distinct argument keys stubbed for `f` (not the number of
      queued values). */
  function StubCount<V>(reg: Registry<V>, f: string): (n: nat)
    ensures f !in reg ==> n == 0
    ensures forall k :: k in StubsOf(reg, f) ==> n > 0
  {
    |StubsOf(reg, f)|
  }

  /** Every queue in the registry holds at least one value. */
  ghost predicate QueuesNonEmpty<V>(reg: Registry<V>)
  {
    forall f, k :: f in reg && k in reg[f] ==> |reg[f][k]| > 0
  }

  /** `stub(function: f, whenCalledWith: p, return: values)` with `k` the key
      of `p`: an empty list changes nothing; otherwise the queue at `(f, k)`
      becomes exactly `values`, replacing whatever was there, and every other
      queue stays as it was. */
  function Stub<V>(reg: Registry<V>, f: string, k: string, values: seq<Boxed<V>>): (r: Registry<V>)
    ensures values == [] ==> r == reg
    ensures values != [] ==> QueueAt(r, f, k) == Some(values)
    ensures forall g, j :: (g != f || j != k) ==> QueueAt(r, g, j) == QueueAt(reg, g, j)
    ensures values != [] ==> r.Keys == reg.Keys + {f}
  {
    if |values| == 0 then reg
    else if f !in reg then reg[f := map[k := values]]
    else reg[f := reg[f][k := values]]
  }

  /** `(stubbings[f]?[k] as? [T])?.first`: the front of the queue, provided
      the whole queue can be read as `T`s. */
  function Front<V>(reg: Registry<V>, f: string, k: string, t: TypeTag): (r: Option<Boxed<V>>)
    ensures r.Some? <==>
      QueueAt(reg, f, k).Some? && QueueAt(reg, f, k).value != [] &&
      CastQueue(QueueAt(reg, f, k).value, t).Some?
    ensures r.Some? ==> r.value == QueueAt(reg, f, k).value[0]
  {
    match QueueAt(reg, f, k)
    case None => None
    case Some(q) =>
      match CastQueue(q, t)
      case None => None
      case Some(values) => if |values| == 0 then None else Some(values[0])
  }

  /** `removeSequentialStubbing`: drop the front of the queue at `(f, k)` when
      it holds more than one value; otherwise change nothing. The queue never
      becomes empty, and no other queue changes. */
  function RemoveSequentialStubbing<V>(reg: Registry<V>, f: string, k: string): (r: Registry<V>)
    ensures QueueAt(reg, f, k).Some? && |QueueAt(reg, f, k).value| > 1 ==>
      QueueAt(r, f, k) == Some(QueueAt(reg, f, k).value[1..])
    ensures !(QueueAt(reg, f, k).Some? && |QueueAt(reg, f, k).value| > 1) ==> r == reg
    ensures forall g, j :: (g != f || j != k) ==> QueueAt(r, g, j) == QueueAt(reg, g, j)
    ensures r.Keys == reg.Keys
  {
    if f in reg && k in reg[f] && |reg[f][k]| > 1 then
      reg[f := reg[f][k := reg[f][k][1..]]]
    else
      reg
  }

  /** What `value(forFunction: f, whenCalledWith: p)` returns as a `T?` when
      `k` is the key of `p`. */
  function ValueResult<V>(reg: Registry<V>, f: string, k: string, t: TypeTag): (r: Option<Boxed<V>>)
    ensures QueueAt(reg, f, k).None? ==> r.None?
    ensures QueueAt(reg, f, k).Some? && CastQueue(QueueAt(reg, f, k).value, t).None? ==> r.None?
    ensures r.Some? ==> Front(reg, f, k, t) == r
    ensures Front(reg, f, k, t).Some? ==>
      (r.None? <==> Front(reg, f, k, t).value.Optional? && Front(reg, f, k, t).value.payload.None?)
  {
    match Front(reg, f, k, t)
    case None => None
    case Some(value) => UnwrappedReturnValue(value)
  }

  /** The registry after that call: the pop happens whenever there is a front
      value, also when that value is an optional without a payload. A missing
      queue or a failed cast leaves the registry as it was. */
  function AfterValue<V>(reg: Registry<V>, f: string, k: string, t: TypeTag): (r: Registry<V>)
    ensures Front(reg, f, k, t).None? ==> r == reg
    ensures forall g, j :: (g != f || j != k) ==> QueueAt(r, g, j) == QueueAt(reg, g, j)
    ensures r.Keys == reg.Keys
  {
    if Front(reg, f, k, t).Some? then RemoveSequentialStubbing(reg, f, k) else reg
  }

  /** The results of `n` successive calls of `value` for `(f, k)` as a `T`. */
  function Successive<V>(reg: Registry<V>, f: string, k: string, t: TypeTag, n: nat): (r: seq<Option<Boxed<V>>>)
    ensures |r| == n
    decreases n
  {
    if n == 0 then []
    else [ValueResult(reg, f, k, t)] + Successive(AfterValue(reg, f, k, t), f, k, t, n - 1)
  }

  /** The registry after `n` successive calls of `value` for `(f, k)`. */
  function Consumed<V>(reg: Registry<V>, f: string, k: string, t: TypeTag, n: nat): Registry<V>
    decreases n
  {
    if n == 0 then reg else Consumed(AfterValue(reg, f, k, t), f, k, t, n - 1)
  }

  /** `stub` keeps every queue non-empty. */
  lemma StubKeepsQueuesNonEmpty<V>(reg: Registry<V>, f: string, k: string, values: seq<Boxed<V>>)
    requires QueuesNonEmpty(reg)
    ensures QueuesNonEmpty(Stub(reg, f, k, values))
  {
    var r := Stub(reg, f, k, values);
    forall g, j | g in r && j in r[g] ensures |r[g][j]| > 0 {
      assert QueueAt(r, g, j) == Some(r[g][j]);
    }
  }

  /** `removeSequentialStubbing` keeps every queue non-empty: it pops only
      when more than one value remains. */
  lemma RemoveKeepsQueuesNonEmpty<V>(reg: Registry<V>, f: string, k: string)
    requires QueuesNonEmpty(reg)
    ensures QueuesNonEmpty(RemoveSequentialStubbing(reg, f, k))
  {
    var r := RemoveSequentialStubbing(reg, f, k);
    forall g, j | g in r && j in r[g] ensures |r[g][j]| > 0 {
      assert QueueAt(r, g, j) == Some(r[g][j]);
      if g != f || j != k {
        assert QueueAt(reg, g, j) == Some(r[g][j]);
      }
    }
  }

  /** `value` keeps every queue non-empty. */
  lemma ValueKeepsQueuesNonEmpty<V>(reg: Registry<V>, f: string, k: string, t: TypeTag)
    requires QueuesNonEmpty(reg)
    ensures QueuesNonEmpty(AfterValue(reg, f, k, t))
  {
    RemoveKeepsQueuesNonEmpty(reg, f, k);
  }

  /** A queue whose values all read as `T` keeps doing so, and is never
      emptied, by one `value` call: it loses its front exactly when it held
      more than one value. */
  lemma {:induction false} ValueOnQueue<V>(reg: Registry<V>, f: string, k: string, t: TypeTag, q: seq<Boxed<V>>)
    requires QueueAt(reg, f, k) == Some(q) && q != []
    requires forall i :: 0 <= i < |q| ==> Conforms(q[i], t)
    ensures ValueResult(reg, f, k, t) == UnwrappedReturnValue(q[0])
    ensures QueueAt(AfterValue(reg, f, k, t), f, k) == Some(if |q| > 1 then q[1..] else q)
  {
    assert Front(reg, f, k, t) == Some(q[0]);
  }

  /** Sequential stubbing over an existing queue `q`: the i-th call returns
      element `min(i, |q| - 1)`. */
  lemma {:induction false} SuccessiveOnQueue<V>(reg: Registry<V>, f: string, k: string, t: TypeTag, q: seq<Boxed<V>>, n: nat)
    requires QueueAt(reg, f, k) == Some(q) && q != []
    requires forall i :: 0 <= i < |q| ==> Conforms(q[i], t)
    ensures forall i :: 0 <= i < n ==>
      Successive(reg, f, k, t, n)[i] == UnwrappedReturnValue(q[Min(i, |q| - 1)])
    decreases n
  {
    if n > 0 {
      ValueOnQueue(reg, f, k, t, q);
      var next := AfterValue(reg, f, k, t);
      var q' := if |q| > 1 then q[1..] else q;
      SuccessiveOnQueue(next, f, k, t, q', n - 1);
      forall i | 0 <= i < n
        ensures Successive(reg, f, k, t, n)[i] == UnwrappedReturnValue(q[Min(i, |q| - 1)])
      {
        if i > 0 {
          assert Successive(reg, f, k, t, n)[i] == Successive(next, f, k, t, n - 1)[i - 1];
          if |q| > 1 {
            assert q'[Min(i - 1, |q'| - 1)] == q[Min(i, |q| - 1)];
          }
        }
      }
    }
  }

  /** After `n` calls the queue is the suffix of `q` from `min(n, |q| - 1)`:
      it shrinks by one per call and its last value stays. */
  lemma {:induction false} ConsumedOnQueue<V>(reg: Registry<V>, f: string, k: string, t: TypeTag, q: seq<Boxed<V>>, n: nat)
    requires QueueAt(reg, f, k) == Some(q) && q != []
    requires forall i :: 0 <= i < |q| ==> Conforms(q[i], t)
    ensures QueueAt(Consumed(reg, f, k, t, n), f, k) == Some(q[Min(n, |q| - 1)..])
    decreases n
  {
    if n > 0 {
      ValueOnQueue(reg, f, k, t, q);
      var q' := if |q| > 1 then q[1..] else q;
      ConsumedOnQueue(AfterValue(reg, f, k, t), f, k, t, q', n - 1);
      if |q| > 1 {
        assert q'[Min(n - 1, |q'| - 1)..] == q[Min(n, |q| - 1)..];
      }
    }
  }

  /** Stub-then-retrieve: after `stub(f, k, [v1, ..., vn])`, successive calls
      of `value` return v1, ..., vn, vn, vn, ... */
  lemma SequentialStubbing<V>(reg: Registry<V>, f: string, k: string, t: TypeTag, values: seq<Boxed<V>>, n: nat)
    requires values != []
    requires forall i :: 0 <= i < |values| ==> Conforms(values[i], t)
    ensures forall i :: 0 <= i < n ==>
      Successive(Stub(reg, f, k, values), f, k, t, n)[i] == UnwrappedReturnValue(values[Min(i, |values| - 1)])
  {
    SuccessiveOnQueue(Stub(reg, f, k, values), f, k, t, values, n);
  }

  /** Unstubbed miss: a key with no queue yields absent on every call,
      however often it is asked for. */
  lemma {:induction false} UnstubbedMiss<V>(reg: Registry<V>, f: string, k: string, t: TypeTag, n: nat)
    requires QueueAt(reg, f, k).None?
    ensures forall i :: 0 <= i < n ==> Successive(reg, f, k, t, n)[i].None?
    decreases n
  {
    if n > 0 {
      UnstubbedMiss(AfterValue(reg, f, k, t), f, k, t, n - 1);
      assert forall i :: 0 < i < n ==> Successive(reg, f, k, t, n)[i] == Successive(reg, f, k, t, n - 1)[i - 1];
    }
  }

  /** Last in wins: a second `stub` on the same key replaces the first queue,
      even when none of it has been read. */
  lemma LastInWins<V>(reg: Registry<V>, f: string, k: string, first: seq<Boxed<V>>, second: seq<Boxed<V>>)
    requires second != []
    ensures Stub(Stub(reg, f, k, first), f, k, second) == Stub(reg, f, k, second)
  {
    if first != [] && f in reg {
      assert reg[f][k := first][k := second] == reg[f][k := second];
    } else if first != [] {
      assert map[k := first][k := second] == map[k := second];
    }
  }

  /** Stubbing a key for the first time adds one to the stub count of `f`;
      re-stubbing a key, or stubbing with no values, leaves it. */
  lemma StubCountAfterStub<V>(reg: Registry<V>, f: string, k: string, values: seq<Boxed<V>>)
    ensures StubCount(Stub(reg, f, k, values), f) ==
      StubCount(reg, f) + (if values != [] && k !in StubsOf(reg, f) then 1 else 0)
  {
    if values != [] {
      var r := Stub(reg, f, k, values);
      assert StubsOf(r, f) == StubsOf(reg, f)[k := values];
    }
  }
}
