/** The telemetry history: a fixed-capacity circular buffer that overwrites its oldest element. */
module Rings {

  function Min(a: nat, b: nat): nat { if a < b then a else b }

  /** The last `n` elements of a sequence. */
  function Suffix<T>(s: seq<T>, n: nat): seq<T>
    requires n <= |s|
  {
    s[|s| - n..]
  }

  lemma WrapOnce(a: nat, m: nat)
    requires a < m + m
    ensures a % m == if a < m then a else a - m
  {
    if a >= m {
      assert a == m * 1 + (a - m);
      assert a / m == 1;
    }
  }

  /** The fields of the buffer at one moment. */
  datatype Ring<T> = Ring(buf: seq<T>, head: nat, total: nat, cap: nat) {

    predicate Valid() {
      && cap >= 1
      && |buf| == Min(total, cap)
      && (if |buf| < cap then head == 0 else head < cap)
    }

    /** Where the i-th oldest element is stored: `(head_ + i) % cap_`, which wraps at most once. */
    function Slot(i: nat): (k: nat)
      requires Valid() && i < |buf|
      ensures k < |buf|
      ensures k == if head + i < cap then head + i else head + i - cap
    {
      WrapOnce(head + i, cap);
      (head + i) % cap
    }

    /** `log` is everything pushed since the last clear: the buffer, read from `head` around the
        wrap, is the newest part of it. */
    ghost predicate Represents(log: seq<T>) {
      && Valid()
      && total == |log|
      && forall i :: 0 <= i < |buf| ==> buf[Slot(i)] == log[|log| - |buf| + i]
    }

    function Push(value: T): Ring<T>
      requires Valid()
    {
      if |buf| < cap then
        this.(buf := buf + [value], total := total + 1)
      else
        this.(buf := buf[head := value], head := (head + 1) % cap, total := total + 1)
    }

    function Clear(): Ring<T> {
      this.(buf := [], head := 0, total := 0)
    }

    function LastN(n: nat): (out: seq<T>)
      requires Valid()
    {
      var count := Min(n, |buf|);
      seq(count, i requires 0 <= i < count => buf[Slot(|buf| - count + i)])
    }

    /** `History(seconds)`: the argument is clamped to [0, capacity] first. */
    function History(seconds: int): seq<T>
      requires Valid()
    {
      LastN(if seconds < 0 then 0 else if seconds > cap then cap else seconds)
    }
  }

  function Empty<T>(capacity: nat): (r: Ring<T>)
    ensures r.Represents([])
  {
    Ring([], 0, 0, if capacity == 0 then 1 else capacity)
  }

  lemma PushRepresents<T>(r: Ring<T>, log: seq<T>, value: T)
    requires r.Represents(log)
    ensures r.Push(value).Represents(log + [value])
  {
    var r' := r.Push(value);
    var log' := log + [value];
    WrapOnce(r.head + 1, r.cap);
    forall i | 0 <= i < |r'.buf|
      ensures r'.buf[r'.Slot(i)] == log'[|log'| - |r'.buf| + i]
    {
      if |r.buf| < r.cap {
        if i < |r.buf| { assert r.buf[r.Slot(i)] == log[i]; }
      } else if i < r.cap - 1 {
        assert r'.Slot(i) == r.Slot(i + 1);
        assert r.buf[r.Slot(i + 1)] == log[|log| - |r.buf| + (i + 1)];
      }
    }
  }

  /** Reading back: the most recent n elements are the suffix of the log of length min(n, capacity, pushes). */
  lemma LastNIsSuffix<T>(r: Ring<T>, log: seq<T>, n: nat)
    requires r.Represents(log)
    ensures r.LastN(n) == Suffix(log, Min(n, Min(r.cap, |log|)))
  {
    var count := Min(n, |r.buf|);
    forall i | 0 <= i < count
      ensures r.LastN(n)[i] == log[|log| - count + i]
    {
      var k := |r.buf| - count + i;
      assert r.buf[r.Slot(k)] == log[|log| - |r.buf| + k];
    }
  }

  // ---------------------------------------------------------------- every sequence of operations

  datatype Op<T> = PushOp(value: T) | ClearOp

  function AfterOps<T>(r: Ring<T>, ops: seq<Op<T>>): (r': Ring<T>)
    requires r.Valid()
    ensures r'.Valid() && r'.cap == r.cap
  {
    if ops == [] then r
    else
      var prev := AfterOps(r, ops[..|ops| - 1]);
      match ops[|ops| - 1]
      case PushOp(v) => prev.Push(v)
      case ClearOp => prev.Clear()
  }

  /** What has been pushed since the last clear. */
  function Pushed<T>(ops: seq<Op<T>>): seq<T> {
    if ops == [] then []
    else match ops[|ops| - 1]
      case PushOp(v) => Pushed(ops[..|ops| - 1]) + [v]
      case ClearOp => []
  }

  lemma {:induction false} AfterOpsRepresents<T>(capacity: nat, ops: seq<Op<T>>)
    ensures AfterOps(Empty(capacity), ops).Represents(Pushed(ops))
  {
    if ops != [] {
      var before := ops[..|ops| - 1];
      AfterOpsRepresents(capacity, before);
      match ops[|ops| - 1]
      case PushOp(v) => PushRepresents(AfterOps(Empty(capacity), before), Pushed(before), v);
      case ClearOp =>
    }
  }

  /** For every capacity and every sequence of pushes and clears, `LastN` and `History` (for every
      int, negatives included) are suffixes of the pushed log. */
  lemma RingRefinesLog<T>(capacity: nat, ops: seq<Op<T>>, n: nat, seconds: int)
    ensures var r := AfterOps(Empty(capacity), ops);
            var log := Pushed(ops);
            var cap := if capacity == 0 then 1 else capacity;
            && r.LastN(n) == Suffix(log, Min(n, Min(cap, |log|)))
            && r.History(seconds) == Suffix(log, Min(if seconds < 0 then 0 else seconds, Min(cap, |log|)))
  {
    var r := AfterOps(Empty(capacity), ops);
    AfterOpsRepresents(capacity, ops);
    LastNIsSuffix(r, Pushed(ops), n);
    LastNIsSuffix(r, Pushed(ops), if seconds < 0 then 0 else if seconds > r.cap then r.cap else seconds);
  }

  // ---------------------------------------------------------------- the class

  class RingBuffer<T> {
    var buf: seq<T>
    var head: nat
    var total: nat
    const cap: nat

    /** Everything pushed since construction or the last `Clear`. */
    ghost var log: seq<T>

    ghost predicate Valid()
      reads this
    {
      Fields().Represents(log)
    }

    ghost function Fields(): Ring<T>
      reads this
    {
      Ring(buf, head, total, cap)
    }

    constructor (capacity: nat)
      ensures Valid() && log == []
      ensures cap == if capacity == 0 then 1 else capacity
    {
      buf, head, total := [], 0, 0;
      cap := if capacity == 0 then 1 else capacity;
      log := [];
    }

    method Push(value: T)
      requires Valid()
      modifies this
      ensures Valid() && log == old(log) + [value]
      ensures Fields() == old(Fields()).Push(value)
    {
      PushRepresents(Fields(), log, value);
      if |buf| < cap {
        buf := buf + [value];
      } else {
        buf := buf[head := value];
        head := (head + 1) % cap;
      }
      total := total + 1;
      log := log + [value];
    }

    method Size() returns (n: nat)
      requires Valid()
      ensures n == Min(cap, |log|)
    {
      n := |buf|;
    }

    method TotalPushed() returns (n: nat)
      requires Valid()
      ensures n == |log|
    {
      n := total;
    }

    method LastN(n: nat) returns (out: seq<T>)
      requires Valid()
      ensures out == Suffix(log, Min(n, Min(cap, |log|)))
      ensures out == Fields().LastN(n)
    {
      var count := Min(n, |buf|);
      out := [];
      var i := |buf| - count;
      while i < |buf|
        invariant |buf| - count <= i <= |buf|
        invariant out == log[|log| - count..|log| - |buf| + i]
      {
        assert Fields().Slot(i) == (head + i) % cap;
        assert buf[Fields().Slot(i)] == log[|log| - |buf| + i];
        out := out + [buf[(head + i) % cap]];
        i := i + 1;
      }
      LastNIsSuffix(Fields(), log, n);
    }

    method All() returns (out: seq<T>)
      requires Valid()
      ensures out == Suffix(log, Min(cap, |log|))
    {
      var size := Size();
      out := LastN(size);
    }

    method Clear()
      requires Valid()
      modifies this
      ensures Valid() && log == [] && Fields() == old(Fields()).Clear()
    {
      buf, head, total := [], 0, 0;
      log := [];
    }
  }
}
