/** The value that `setup_ipc` loads into the barrier against the children that `run_test` forks. */
module SetupIpc {
  import opened Basics
  import ShmProtocol

  // C division truncates toward zero and its remainder takes the sign of the dividend.
  function TruncDiv(a: int, b: int): int
    requires b > 0
  {
    if a >= 0 then a / b else -((-a) / b)
  }

  function TruncMod(a: int, b: int): int
    requires b > 0
  {
    a - TruncDiv(a, b) * b
  }

  /** These are the quotient and the remainder of C: they make up the dividend, the remainder is smaller than the divisor and
      has the sign of the dividend; and no other two numbers do. */
  lemma {:induction false} TruncatesTowardZero(a: int, b: int, q: int, m: int)
    requires b > 0
    ensures q == TruncDiv(a, b) && m == TruncMod(a, b)
       <==> a == q * b + m && -b < m < b && (a >= 0 ==> m >= 0) && (a <= 0 ==> m <= 0)
  {
    if a == q * b + m && -b < m < b && (a >= 0 ==> m >= 0) && (a <= 0 ==> m <= 0) {
      if a >= 0 {
        DivModUnique(a, b, q, m);
      } else {
        assert -a == (-q) * b + (-m);
        DivModUnique(-a, b, -q, -m);
      }
    }
  }

  /** shm_child_num after `setup_ipc`; tShm is -1 when no test case is `shm_test`. */
  function ShmChildNum(childNum: int, testTypes: int, tShm: int): int
    requires tShm != -1 ==> testTypes > 0
  {
    if tShm == -1 then 0
    else if TruncMod(childNum - 1, testTypes) >= tShm then TruncDiv(childNum - 1, testTypes) + 1
    else TruncDiv(childNum - 1, testTypes)
  }

  /** The instances below n whose test case is t. */
  function InstancesOf(n: int, testTypes: int, t: int): set<int>
    requires testTypes > 0
  {
    set i | 0 <= i < n && i % testTypes == t
  }

  /** The fork loop: child i runs test case `instance % test_types`, and `instance` counts the forks so far. */
  method RunTest(children: int, testTypes: int) returns (testids: seq<int>)
    requires testTypes > 0
    ensures |testids| == if children > 0 then children else 0
    ensures forall i :: 0 <= i < |testids| ==> testids[i] == i % testTypes
    ensures forall t :: |set i | 0 <= i < |testids| && testids[i] == t| == |InstancesOf(children, testTypes, t)|
  {
    testids := [];
    var instance, i := 0, 0;
    while i < children
      invariant 0 <= i && (children >= 0 ==> i <= children) && (children < 0 ==> i == 0)
      invariant instance == i == |testids|
      invariant forall k :: 0 <= k < i ==> testids[k] == k % testTypes
    {
      testids := testids + [instance % testTypes];
      instance := instance + 1;
      i := i + 1;
    }
    forall t ensures (set k | 0 <= k < |testids| && testids[k] == t) == InstancesOf(children, testTypes, t) { }
  }

  /** On non-negative operands C division and Dafny division agree. */
  lemma {:induction false} NonNegative(childNum: int, testTypes: int, tShm: int)
    requires childNum >= 1 && 0 <= tShm < testTypes
    ensures ShmChildNum(childNum, testTypes, tShm)
         == (childNum - 1) / testTypes + (if (childNum - 1) % testTypes >= tShm then 1 else 0)
  {
  }

  lemma {:induction false} OneMoreInstance(n: int, testTypes: int, t: int)
    requires n >= 0 && testTypes > 0
    ensures |InstancesOf(n + 1, testTypes, t)| == |InstancesOf(n, testTypes, t)| + (if n % testTypes == t then 1 else 0)
  {
    var before, after := InstancesOf(n, testTypes, t), InstancesOf(n + 1, testTypes, t);
    forall i ensures i in after <==> i in before + (if n % testTypes == t then {n} else {}) { }
    assert after == before + (if n % testTypes == t then {n} else {});
  }

  /** For every child_num >= 1 the barrier value is the number of children sent into `shm_test`. */
  lemma {:induction false} BarrierCountsShmChildren(childNum: int, testTypes: int, tShm: int)
    requires childNum >= 1 && 0 <= tShm < testTypes
    ensures ShmChildNum(childNum, testTypes, tShm) == |InstancesOf(childNum, testTypes, tShm)|
  {
    NonNegative(childNum, testTypes, tShm);
    OneMoreInstance(childNum - 1, testTypes, tShm);
    if childNum == 1 {
      DivModUnique(0, testTypes, 0, 0);
      assert InstancesOf(0, testTypes, tShm) == {};
    } else {
      BarrierCountsShmChildren(childNum - 1, testTypes, tShm);
      NonNegative(childNum - 1, testTypes, tShm);
      NextDivMod(childNum - 2, testTypes);
    }
  }

  lemma {:induction false} NegativeChildNum(childNum: int, testTypes: int, tShm: int)
    requires childNum <= 0 && 0 <= tShm < testTypes
    ensures ShmChildNum(childNum, testTypes, tShm) == 0
       <==> childNum - 1 > -testTypes - (if tShm == 0 then 1 else 0)
  {
    var m := 1 - childNum;
    var q, r := m / testTypes, m % testTypes;
    assert m == q * testTypes + r;
    assert TruncDiv(childNum - 1, testTypes) == -q && TruncMod(childNum - 1, testTypes) == -r;
    MulAwayFromZero(q - 1, testTypes);
  }

  /** Over all integers that `-i` can produce, the two numbers agree exactly down to this bound; below it the
      computed value is negative although no child is forked. */
  lemma {:induction false} BarrierExactRange(childNum: int, testTypes: int, tShm: int)
    requires 0 <= tShm < testTypes
    ensures ShmChildNum(childNum, testTypes, tShm) == |InstancesOf(childNum, testTypes, tShm)|
       <==> childNum - 1 > -testTypes - (if tShm == 0 then 1 else 0)
  {
    if childNum >= 1 {
      BarrierCountsShmChildren(childNum, testTypes, tShm);
    } else {
      assert InstancesOf(childNum, testTypes, tShm) == {};
      NegativeChildNum(childNum, testTypes, tShm);
    }
  }

  /** Without a shared-memory test there is no barrier, and no child for it either. */
  lemma {:induction false} NoShmTest(childNum: int, testTypes: int)
    requires testTypes > 0
    ensures ShmChildNum(childNum, testTypes, -1) == 0 && InstancesOf(childNum, testTypes, -1) == {}
  {
    forall i ensures i !in InstancesOf(childNum, testTypes, -1) { assert i % testTypes >= 0; }
  }

  /** Below the bound: with nine test cases and the shared-memory test in front, child number -20 gives -2 for no child. */
  lemma {:induction false} NegativeBarrierValue()
    ensures ShmChildNum(-20, 9, 0) == -2 && InstancesOf(-20, 9, 0) == {}
  {
    BarrierExactRange(-20, 9, 0);
  }

  /** The barrier that `setup_ipc` sets up lets the shared-memory children `run_test` forks run to completion. */
  lemma {:induction false} SetupOpensBarrier(childNum: int, testTypes: int, tShm: int)
    requires childNum > tShm && 0 <= tShm < testTypes
    ensures var n := |InstancesOf(childNum, testTypes, tShm)|;
      n >= 1 && ShmChildNum(childNum, testTypes, tShm) == n && ShmProtocol.CanComplete(n, n)
  {
    BarrierCountsShmChildren(childNum, testTypes, tShm);
    DivModUnique(tShm, testTypes, 0, tShm);
    assert tShm in InstancesOf(childNum, testTypes, tShm);
    ShmProtocol.BarrierValueExact(|InstancesOf(childNum, testTypes, tShm)|, |InstancesOf(childNum, testTypes, tShm)|);
  }
}
