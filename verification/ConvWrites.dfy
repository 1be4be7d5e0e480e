// Which output elements are written, and how often, when rows of channels are written out one
// position after the other.
module ConvWrites {
  import opened Arithmetic

  // The first n channels of position p; channel o of it is at Pos(o, T, p).
  function RowLog(T: nat, p: nat, n: nat): (log: seq<int>) {
    if n == 0 then [] else RowLog(T, p, n - 1) + [Pos(n - 1, T, p)]
  }

  // All OC channels of `rows` positions from base on.
  function RowsLog(OC: nat, T: nat, base: nat, rows: nat): (log: seq<int>) {
    if rows == 0 then [] else RowsLog(OC, T, base, rows - 1) + RowLog(T, base + rows - 1, OC)
  }

  // How often k occurs.
  function Count(log: seq<int>, k: int): (n: nat) {
    if log == [] then 0 else Count(log[..|log| - 1], k) + if log[|log| - 1] == k then 1 else 0
  }

  lemma CountNext(log: seq<int>, at: int, k: int)
    ensures Count([], k) == 0
    ensures Count(log + [at], k) == Count(log, k) + if at == k then 1 else 0
  {
    assert (log + [at])[..|log|] == log;
  }

  lemma {:induction false} CountAppend(a: seq<int>, b: seq<int>, k: int)
    ensures Count(a + b, k) == Count(a, k) + Count(b, k)
  {
    if b == [] {
      assert a + b == a;
    } else {
      var c, at := b[..|b| - 1], b[|b| - 1];
      assert a + b == (a + c) + [at];
      CountAppend(a, c, k);
      CountNext(a + c, at, k);
    }
  }

  lemma RowsLogNone(OC: nat, T: nat)
    ensures RowsLog(OC, T, 0, 0) == []
  {
  }

  lemma {:induction false} RowsLogAppend(OC: nat, T: nat, base: nat, m: nat, n: nat)
    ensures RowsLog(OC, T, base, m + n) == RowsLog(OC, T, base, m) + RowsLog(OC, T, base + m, n)
  {
    if n > 0 {
      RowsLogAppend(OC, T, base, m, n - 1);
    }
  }

  lemma {:induction false} RowLogOnce(T: nat, p: nat, n: nat, o: nat, p': nat)
    requires p < T && p' < T
    ensures Count(RowLog(T, p, n), Pos(o, T, p')) == if p' == p && o < n then 1 else 0
  {
    hide Pos, Count;
    if n == 0 {
      CountNext([], 0, Pos(o, T, p'));
    } else {
      RowLogOnce(T, p, n - 1, o, p');
      PosInjective(n - 1, p, o, p', T);
      CountNext(RowLog(T, p, n - 1), Pos(n - 1, T, p), Pos(o, T, p'));
    }
  }

  lemma {:induction false} RowsLogOnce(OC: nat, T: nat, base: nat, rows: nat, o: nat, p: nat)
    requires base + rows <= T && o < OC && p < T
    ensures Count(RowsLog(OC, T, base, rows), Pos(o, T, p)) == if base <= p < base + rows then 1 else 0
  {
    hide Pos, RowLog, Count;
    if rows == 0 {
      CountNext([], 0, Pos(o, T, p));
    } else {
      RowsLogOnce(OC, T, base, rows - 1, o, p);
      RowLogOnce(T, base + rows - 1, OC, o, p);
      CountAppend(RowsLog(OC, T, base, rows - 1), RowLog(T, base + rows - 1, OC), Pos(o, T, p));
    }
  }

  // Every element of an output of OC channels of T positions is written exactly once.
  ghost predicate WrittenOnce(log: seq<int>, OC: nat, T: nat) {
    forall o, p | 0 <= o < OC && 0 <= p < T :: Count(log, Pos(o, T, p)) == 1
  }

  // So it is by position in the array.
  lemma EachIndexOnce(log: seq<int>, OC: nat, T: nat, k: nat)
    requires WrittenOnce(log, OC, T) && k < OC * T
    ensures Count(log, k) == 1
  {
    var o, p := k / T, k % T;
    if o >= OC {
      MulMono(OC, o, T);
    }
    assert k == Pos(o, T, p);
  }

  lemma AllWrittenOnce(OC: nat, T: nat)
    ensures WrittenOnce(RowsLog(OC, T, 0, T), OC, T)
  {
    hide Pos, Count;
    forall o, p | 0 <= o < OC && 0 <= p < T ensures Count(RowsLog(OC, T, 0, T), Pos(o, T, p)) == 1 {
      RowsLogOnce(OC, T, 0, T, o, p);
    }
  }
}
