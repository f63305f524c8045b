/** Values derived from an account's list of movements: the balance, the
    income/out summary and the deposit/withdrawal label of each movement. */
module Movements {

  /** `movements.reduce((acc, mov) => acc + mov, 0)`: a left fold, so the
      last movement is added last. */
  function Sum(s: seq<int>): (r: int)
    ensures r == SumFromFront(s)
  {
    if s == [] then 0
    else
      var init := s[..|s| - 1];
      assert s == init + [s[|s| - 1]];
      SumFromFrontAppend(init, s[|s| - 1]);
      Sum(init) + s[|s| - 1]
  }

  /** Reference definition: the movements added up first to last, the
      order in which they were pushed. */
  function SumFromFront(s: seq<int>): int
  {
    if s == [] then 0 else s[0] + SumFromFront(s[1..])
  }

  lemma {:induction false} SumFromFrontAppend(s: seq<int>, x: int)
    ensures SumFromFront(s + [x]) == SumFromFront(s) + x
  {
    if s != [] {
      SumFromFrontAppend(s[1..], x);
      assert (s + [x])[1..] == s[1..] + [x];
    } else {
      assert ([] + [x])[1..] == [];
    }
  }

  lemma SumAppend(s: seq<int>, x: int)
    ensures Sum(s + [x]) == Sum(s) + x
  {
    assert (s + [x])[..|s|] == s;
  }

  lemma {:induction false} SumConcat(a: seq<int>, b: seq<int>)
    ensures Sum(a + b) == Sum(a) + Sum(b)
  {
    if b == [] {
      assert a + b == a;
    } else {
      var init := b[..|b| - 1];
      SumConcat(a, init);
      assert (a + b)[..|a + b| - 1] == a + init;
    }
  }

  /** The sum of a list whose elements all have one sign has that sign. */
  lemma {:induction false} SumSign(s: seq<int>, positive: bool)
    requires forall i :: 0 <= i < |s| ==> if positive then s[i] > 0 else s[i] < 0
    ensures positive ==> Sum(s) >= 0
    ensures !positive ==> Sum(s) <= 0
    ensures s != [] ==> Sum(s) != 0
  {
    if s != [] {
      SumSign(s[..|s| - 1], positive);
    }
  }

  /** `movements.filter(mov => mov > 0)` */
  function Deposits(s: seq<int>): (r: seq<int>)
    ensures forall x :: multiset(r)[x] == if x > 0 then multiset(s)[x] else 0
    ensures forall x :: x in r <==> x in s && x > 0
    ensures forall i :: 0 <= i < |r| ==> r[i] > 0
    ensures |r| <= |s|
  {
    if s == [] then []
    else
      assert s == [s[0]] + s[1..];
      (if s[0] > 0 then [s[0]] else []) + Deposits(s[1..])
  }

  /** `movements.filter(mov => mov < 0)` */
  function Withdrawals(s: seq<int>): (r: seq<int>)
    ensures forall x :: multiset(r)[x] == if x < 0 then multiset(s)[x] else 0
    ensures forall x :: x in r <==> x in s && x < 0
    ensures forall i :: 0 <= i < |r| ==> r[i] < 0
    ensures |r| <= |s|
  {
    if s == [] then []
    else
      assert s == [s[0]] + s[1..];
      (if s[0] < 0 then [s[0]] else []) + Withdrawals(s[1..])
  }

  /** The "in" figure of the summary: the total of all deposits. */
  function Incomes(s: seq<int>): (r: int)
    ensures r >= 0
    ensures r == 0 <==> Deposits(s) == []
  {
    SumSign(Deposits(s), true);
    Sum(Deposits(s))
  }

  /** The "out" figure of the summary: the withdrawals' total, negated. */
  function Out(s: seq<int>): (r: int)
    ensures r >= 0
    ensures r == 0 <==> Withdrawals(s) == []
  {
    SumSign(Withdrawals(s), false);
    -Sum(Withdrawals(s))
  }

  /** The summary is consistent with the balance: in minus out is the sum
      of all movements (zero movements appear in neither). */
  lemma {:induction false} IncomesMinusOut(s: seq<int>)
    ensures Incomes(s) - Out(s) == Sum(s)
  {
    if s != [] {
      IncomesMinusOut(s[1..]);
      var d := if s[0] > 0 then [s[0]] else [];
      var w := if s[0] < 0 then [s[0]] else [];
      SumConcat(d, Deposits(s[1..]));
      SumConcat(w, Withdrawals(s[1..]));
      assert s == [s[0]] + s[1..];
      SumConcat([s[0]], s[1..]);
      assert Sum(d) + Sum(w) == s[0] by {
        assert Sum([]) == 0;
        assert Sum([s[0]]) == s[0] by { assert [s[0]][..0] == []; }
      }
    }
  }

  datatype MovementType = Deposit | Withdrawal

  /** `mov > 0 ? 'deposit' : 'withdrawal'` */
  function Classify(mov: int): (t: MovementType)
    ensures t == Deposit <==> mov > 0
    ensures t == Withdrawal <==> mov <= 0
  {
    if mov > 0 then Deposit else Withdrawal
  }

  /** The label agrees with the summary filters, except that a zero
      movement is labelled a withdrawal but is counted in neither total. */
  lemma LabelsAgreeWithSummary(s: seq<int>, k: nat)
    requires k < |s|
    ensures Classify(s[k]) == Deposit <==> s[k] in Deposits(s)
    ensures Classify(s[k]) == Withdrawal <==> s[k] in Withdrawals(s) || s[k] == 0
  {
  }

  /** One rendered movement row: its 1-based position in the list, its
      label and its amount. */
  datatype Row = Row(number: nat, kind: MovementType, value: int)

  /** `displayMovements`: clears the container, then inserts one row per
      movement at the top, so the rows read newest first. */
  method DisplayMovements(movements: seq<int>) returns (rows: seq<Row>)
    ensures |rows| == |movements|
    ensures forall k :: 0 <= k < |rows| ==>
      var i := |movements| - 1 - k;
      rows[k] == Row(i + 1, Classify(movements[i]), movements[i])
  {
    rows := [];
    var i := 0;
    while i < |movements|
      invariant 0 <= i <= |movements|
      invariant |rows| == i
      invariant forall k :: 0 <= k < i ==>
        rows[k] == Row(i - k, Classify(movements[i - 1 - k]), movements[i - 1 - k])
    {
      var mov := movements[i];
      rows := [Row(i + 1, Classify(mov), mov)] + rows;
      i := i + 1;
    }
  }
}
