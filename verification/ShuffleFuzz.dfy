/** Random programs of vector shuffles and selects, and the values that are expected of them although
    some lanes are undefined. */
module ShuffleFuzz {

  /** An input, the zero vector, or the result of an earlier instruction. */
  datatype Operand = Input(i: nat) | Zero | Result(k: nat)

  /** The elements of a shuffle's mask number the lanes of both operands, those of a select's mask are 1
      for the first operand and 0 for the second; -1 is undefined. */
  datatype Inst =
    | Shuffle(op0: Operand, op1: Operand, mask: seq<int>)
    | Select(op0: Operand, op1: Operand, mask: seq<int>)

  type Vector = seq<int>

  const UNDEF := -1

  // ----- programs -----

  predicate OperandOf(op: Operand, inputs: nat, k: nat) {
    (op.Input? ==> op.i < inputs) && (op.Result? ==> op.k < k)
  }

  predicate Mask(inst: Inst, n: nat) {
    && |inst.mask| == n
    && forall lane :: 0 <= lane < n ==> UNDEF <= inst.mask[lane] < if inst.Shuffle? then 2 * n else 2
  }

  predicate WellFormed(insts: seq<Inst>, inputs: nat, n: nat) {
    forall k :: 0 <= k < |insts| ==>
      && Mask(insts[k], n)
      && OperandOf(insts[k].op0, inputs, k) && OperandOf(insts[k].op1, inputs, k)
      && insts[k].op0 != Zero && (insts[k].Shuffle? ==> insts[k].op1 != Zero)
  }

  // ----- what programs mean -----

  /** Where a lane of a result comes from. */
  function SourceOperand(inst: Inst, lane: nat, n: nat): Operand
    requires Mask(inst, n) && lane < n
  {
    if (if inst.Shuffle? then inst.mask[lane] < n else inst.mask[lane] == 1) then inst.op0 else inst.op1
  }

  function SourceLane(inst: Inst, lane: nat, n: nat): (l: nat)
    requires Mask(inst, n) && lane < n && inst.mask[lane] != UNDEF
    ensures l < n
  {
    if inst.Select? then lane else if inst.mask[lane] < n then inst.mask[lane] else inst.mask[lane] - n
  }

  /** A lane is undefined if its mask element is, or if it comes from an undefined lane. */
  predicate Undefined(insts: seq<Inst>, inputs: nat, n: nat, k: nat, lane: nat)
    requires WellFormed(insts, inputs, n) && k < |insts| && lane < n
  {
    || insts[k].mask[lane] == UNDEF
    || match SourceOperand(insts[k], lane, n)
       case Result(j) => Undefined(insts, inputs, n, j, SourceLane(insts[k], lane, n))
       case _ => false
  }

  function Lane(op: Operand, inputs: seq<Vector>, results: seq<Vector>, lane: nat): int
    requires OperandOf(op, |inputs|, |results|)
    requires (op.Input? ==> lane < |inputs[op.i]|) && (op.Result? ==> lane < |results[op.k]|)
  {
    match op case Input(i) => inputs[i][lane] case Zero => 0 case Result(k) => results[k][lane]
  }

  ghost predicate Vectors(vs: seq<Vector>, n: nat) { forall k :: 0 <= k < |vs| ==> |vs[k]| == n }

  /** A possible execution: undefined lanes may have any value, even for each use another one. */
  ghost predicate Executes(insts: seq<Inst>, inputs: seq<Vector>, n: nat, run: seq<Vector>) {
    && WellFormed(insts, |inputs|, n) && Vectors(inputs, n) && |run| == |insts| && Vectors(run, n)
    && forall k: nat, lane: nat {:trigger run[k][lane]} :: k < |insts| && lane < n ==>
         (!Undefined(insts, |inputs|, n, k, lane) ==>
            run[k][lane] == Lane(SourceOperand(insts[k], lane, n), inputs, run, SourceLane(insts[k], lane, n)))
  }

  // ----- computing expected values -----

  /** The values that are expected: lane by lane, -1 where it is undefined. */
  ghost predicate Expected(insts: seq<Inst>, inputs: seq<Vector>, n: nat, values: seq<Vector>) {
    && WellFormed(insts, |inputs|, n) && Vectors(inputs, n) && |values| == |insts| && Vectors(values, n)
    && forall k: nat, lane: nat {:trigger values[k][lane]} :: k < |insts| && lane < n ==>
         values[k][lane] == (if insts[k].mask[lane] == UNDEF then UNDEF
                             else Lane(SourceOperand(insts[k], lane, n), inputs, values, SourceLane(insts[k], lane, n)))
  }

  method CalcShuffle(op0: Vector, op1: Vector, mask: seq<int>, n: nat) returns (result: Vector)
    requires |op0| == |op1| == |mask| == n && forall i :: 0 <= i < n ==> UNDEF <= mask[i] < 2 * n
    ensures |result| == n
    ensures forall i :: 0 <= i < n ==> result[i] == if mask[i] == UNDEF then UNDEF else (op0 + op1)[mask[i]]
  {
    result := [];
    for i := 0 to |mask|
      invariant |result| == i
      invariant forall j :: 0 <= j < i ==> result[j] == if mask[j] == UNDEF then UNDEF else (op0 + op1)[mask[j]]
    {
      var index := mask[i];
      if index < n && index >= 0 {
        result := result + [op0[index]];
      } else if index >= n {
        Wrap(index, n);
        index := index % n;
        result := result + [op1[index]];
      } else {
        result := result + [UNDEF];
      }
    }
  }

  lemma Wrap(index: int, n: nat)
    requires n <= index < 2 * n
    ensures index % n == index - n
  {
  }

  method CalcSelect(op0: Vector, op1: Vector, mask: seq<int>, n: nat) returns (result: Vector)
    requires |op0| == |op1| == |mask| == n
    ensures |result| == n
    ensures forall i :: 0 <= i < n ==>
              result[i] == if mask[i] == 1 then op0[i] else if mask[i] == 0 then op1[i] else UNDEF
  {
    result := [];
    for i := 0 to |mask|
      invariant |result| == i
      invariant forall j :: 0 <= j < i ==>
                  result[j] == if mask[j] == 1 then op0[j] else if mask[j] == 0 then op1[j] else UNDEF
    {
      if mask[i] == 1 {
        result := result + [op0[i]];
      } else if mask[i] == 0 {
        result := result + [op1[i]];
      } else {
        result := result + [UNDEF];
      }
    }
  }

  // ----- generating programs -----

  method GenMask(n: nat, limit: nat) returns (mask: seq<int>)
    requires limit > 0
    ensures |mask| == n && forall i :: 0 <= i < n ==> UNDEF <= mask[i] < limit
  {
    mask := [];
    for i := 0 to n
      invariant |mask| == i && forall j :: 0 <= j < i ==> UNDEF <= mask[j] < limit
    {
      var undefined: bool := *;
      if undefined {
        mask := mask + [UNDEF];
      } else {
        var index :| 0 <= index < limit;
        mask := mask + [index];
      }
    }
  }

  function VectorOf(op: Operand, inputs: seq<Vector>, values: seq<Vector>, n: nat): Vector
    requires OperandOf(op, |inputs|, |values|)
  {
    match op case Input(i) => inputs[i] case Zero => seq(n, _ => 0) case Result(k) => values[k]
  }

  predicate Uses(inst: Inst, op: Operand) { inst.op0 == op || inst.op1 == op }

  predicate Used(insts: seq<Inst>, op: Operand) { exists k :: 0 <= k < |insts| && Uses(insts[k], op) }

  /** The available values are inputs or results, and what is not available any more has been used. */
  ghost predicate Available(available: seq<Operand>, insts: seq<Inst>, inputs: nat) {
    && (forall a :: 0 <= a < |available| ==> available[a] != Zero && OperandOf(available[a], inputs, |insts|))
    && (forall op :: op != Zero && OperandOf(op, inputs, |insts|) ==> op in available || Used(insts, op))
  }

  function Removed(available: seq<Operand>, idx0: nat, idx1: nat): seq<Operand>
    requires idx0 < idx1 < |available|
  {
    available[..idx0] + available[idx0 + 1..idx1] + available[idx1 + 1..]
  }

  /** Generates a program whose last value is the only one that is not used. All random choices are
      arbitrary. */
  method GenInsts(inputs: seq<Vector>, n: nat) returns (insts: seq<Inst>, values: seq<Vector>, last: Operand)
    requires |inputs| > 0 && n > 0 && Vectors(inputs, n)
    ensures Expected(insts, inputs, n, values)
    ensures last != Zero && OperandOf(last, |inputs|, |insts|)
    ensures forall op :: op != Zero && OperandOf(op, |inputs|, |insts|) && op != last ==> Used(insts, op)
  {
    var available := seq(|inputs|, i requires 0 <= i < |inputs| => Input(i));
    insts, values := [], [];
    forall op | op != Zero && OperandOf(op, |inputs|, 0)
      ensures op in available
    {
      assert available[op.i] == op;
    }
    while |available| > 1
      invariant |available| >= 1 && Available(available, insts, |inputs|) && Expected(insts, inputs, n, values)
      decreases |available|
    {
      var idx0: nat, idx1: nat :| idx0 < idx1 < |available|;
      var op0, op1 := available[idx0], available[idx1];
      var left := Removed(available, idx0, idx1);
      var mask := GenMask(n, 2 * n);
      ghost var insts0 := insts;
      insts, values := AddShuffle(insts, values, inputs, n, op0, op1, mask);
      var shuffle := Result(|insts| - 1);
      var addSelect: bool := *;
      if addSelect {
        var op2: Operand;
        var merge: bool := *;
        if merge {
          var pick: nat :| pick < |available|;
          op2 := available[pick];
        } else {
          op2 := Zero;
        }
        mask := GenMask(n, 2);
        ghost var insts1 := insts;
        insts, values := AddSelect(insts, values, inputs, n, shuffle, op2, mask);
        AvailableAfter(available, idx0, idx1, insts0, insts1, |inputs|);
        AvailableSelect(left, shuffle, insts1, insts, |inputs|);
        available := left + [Result(|insts| - 1)];
      } else {
        AvailableAfter(available, idx0, idx1, insts0, insts, |inputs|);
        available := left + [shuffle];
      }
    }
    last := available[0];
  }

  lemma Lanes(insts: seq<Inst>, inputs: seq<Vector>, n: nat, values: seq<Vector>, op: Operand)
    requires Expected(insts, inputs, n, values) && OperandOf(op, |inputs|, |insts|)
    ensures |values| == |insts| && Vectors(values, n) && Vectors(inputs, n)
    ensures |VectorOf(op, inputs, values, n)| == n
    ensures forall lane: nat :: lane < n ==> VectorOf(op, inputs, values, n)[lane] == Lane(op, inputs, values, lane)
  {
  }

  lemma {:induction false} ExpectedNext(insts: seq<Inst>, values: seq<Vector>, inputs: seq<Vector>, n: nat, inst: Inst,
                                        result: Vector)
    requires Expected(insts, inputs, n, values) && Mask(inst, n) && |result| == n
    requires OperandOf(inst.op0, |inputs|, |insts|) && OperandOf(inst.op1, |inputs|, |insts|)
    requires inst.op0 != Zero && (inst.Shuffle? ==> inst.op1 != Zero)
    requires forall lane: nat :: lane < n ==>
               result[lane] == (if inst.mask[lane] == UNDEF then UNDEF
                                else Lane(SourceOperand(inst, lane, n), inputs, values, SourceLane(inst, lane, n)))
    ensures Expected(insts + [inst], inputs, n, values + [result])
  {
    var insts', values' := insts + [inst], values + [result];
    forall k: nat, lane: nat {:trigger values'[k][lane]} | k < |insts'| && lane < n
      ensures values'[k][lane]
              == (if insts'[k].mask[lane] == UNDEF then UNDEF
                  else Lane(SourceOperand(insts'[k], lane, n), inputs, values', SourceLane(insts'[k], lane, n)))
    {
      assert k < |insts| ==> values'[k][lane] == values[k][lane];
    }
  }

  method AddShuffle(insts: seq<Inst>, values: seq<Vector>, inputs: seq<Vector>, n: nat, op0: Operand, op1: Operand,
                    mask: seq<int>)
      returns (insts': seq<Inst>, values': seq<Vector>)
    requires Expected(insts, inputs, n, values) && op0 != Zero && op1 != Zero
    requires OperandOf(op0, |inputs|, |insts|) && OperandOf(op1, |inputs|, |insts|)
    requires |mask| == n && forall i :: 0 <= i < n ==> UNDEF <= mask[i] < 2 * n
    ensures insts' == insts + [Shuffle(op0, op1, mask)] && Expected(insts', inputs, n, values')
  {
    hide Expected, VectorOf;
    Lanes(insts, inputs, n, values, op0);
    Lanes(insts, inputs, n, values, op1);
    var result := CalcShuffle(VectorOf(op0, inputs, values, n), VectorOf(op1, inputs, values, n), mask, n);
    var inst := Shuffle(op0, op1, mask);
    ExpectedNext(insts, values, inputs, n, inst, result);
    insts', values' := insts + [inst], values + [result];
  }

  method AddSelect(insts: seq<Inst>, values: seq<Vector>, inputs: seq<Vector>, n: nat, op0: Operand, op1: Operand,
                   mask: seq<int>)
      returns (insts': seq<Inst>, values': seq<Vector>)
    requires Expected(insts, inputs, n, values) && op0 != Zero
    requires OperandOf(op0, |inputs|, |insts|) && OperandOf(op1, |inputs|, |insts|)
    requires |mask| == n && forall i :: 0 <= i < n ==> UNDEF <= mask[i] < 2
    ensures insts' == insts + [Select(op0, op1, mask)] && Expected(insts', inputs, n, values')
  {
    hide Expected, VectorOf;
    Lanes(insts, inputs, n, values, op0);
    Lanes(insts, inputs, n, values, op1);
    var result := CalcSelect(VectorOf(op0, inputs, values, n), VectorOf(op1, inputs, values, n), mask, n);
    var inst := Select(op0, op1, mask);
    ExpectedNext(insts, values, inputs, n, inst, result);
    insts', values' := insts + [inst], values + [result];
  }

  lemma {:induction false} AvailableAfter(available: seq<Operand>, idx0: nat, idx1: nat, insts: seq<Inst>,
                                          insts': seq<Inst>, inputs: nat)
    requires idx0 < idx1 < |available| && Available(available, insts, inputs)
    requires |insts'| == |insts| + 1 && insts'[..|insts|] == insts
    requires Uses(insts'[|insts|], available[idx0]) && Uses(insts'[|insts|], available[idx1])
    ensures Available(Removed(available, idx0, idx1) + [Result(|insts|)], insts', inputs)
  {
    var left := Removed(available, idx0, idx1);
    forall op | op != Zero && OperandOf(op, inputs, |insts'|)
      ensures op in left + [Result(|insts|)] || Used(insts', op)
    {
      if op == Result(|insts|) {
        assert (left + [Result(|insts|)])[|left|] == op;
      } else if op in available {
        var a :| 0 <= a < |available| && available[a] == op;
        if a != idx0 && a != idx1 {
          assert op in left by {
            assert left[if a < idx0 then a else if a < idx1 then a - 1 else a - 2] == op;
          }
        }
      } else {
        var k :| 0 <= k < |insts| && Uses(insts[k], op);
        assert insts'[k] == insts[k];
      }
    }
  }

  lemma {:induction false} AvailableSelect(left: seq<Operand>, shuffle: Operand, insts: seq<Inst>, insts': seq<Inst>,
                                           inputs: nat)
    requires Available(left + [shuffle], insts, inputs)
    requires |insts'| == |insts| + 1 && insts'[..|insts|] == insts && Uses(insts'[|insts|], shuffle)
    ensures Available(left + [Result(|insts|)], insts', inputs)
  {
    assert forall a :: 0 <= a < |left| ==> left[a] == (left + [shuffle])[a];
    forall op | op != Zero && OperandOf(op, inputs, |insts'|)
      ensures op in left + [Result(|insts|)] || Used(insts', op)
    {
      if op != Result(|insts|) && op !in left + [shuffle] {
        var k :| 0 <= k < |insts| && Uses(insts[k], op);
        assert insts'[k] == insts[k];
      }
    }
  }

  // ----- the expected values are right -----

  /** Exactly the undefined lanes are marked; all others have their expected value in every execution. */
  lemma {:induction false} ExpectedIsRight(insts: seq<Inst>, inputs: seq<Vector>, n: nat, values: seq<Vector>, k: nat,
                                           lane: nat)
    requires Expected(insts, inputs, n, values) && k < |insts| && lane < n
    requires forall i, l :: 0 <= i < |inputs| && 0 <= l < n ==> inputs[i][l] >= 0
    ensures values[k][lane] == UNDEF <==> Undefined(insts, |inputs|, n, k, lane)
    ensures values[k][lane] != UNDEF ==> values[k][lane] >= 0
    ensures forall run :: Executes(insts, inputs, n, run) && values[k][lane] != UNDEF ==>
              run[k][lane] == values[k][lane]
  {
    if insts[k].mask[lane] != UNDEF {
      var op, l := SourceOperand(insts[k], lane, n), SourceLane(insts[k], lane, n);
      if op.Result? {
        ExpectedIsRight(insts, inputs, n, values, op.k, l);
      }
    }
  }

  /** There is an execution: the expected values are one. */
  lemma ExpectedExecutes(insts: seq<Inst>, inputs: seq<Vector>, n: nat, values: seq<Vector>)
    requires Expected(insts, inputs, n, values)
    ensures Executes(insts, inputs, n, values)
  {
  }
}
