/** Gauss-Jordan elimination with partial pivoting on a 3 by 4 array, in place. */
module LinearSolve {
  import opened RealFacts
  import opened Geometry

  const SINGULAR: real := 0.000000000000001

  datatype Row = Row(a: real, b: real, c: real, rhs: real)

  type System = s: seq<Row> | |s| == 3 witness [Row(1.0, 0.0, 0.0, 0.0), Row(0.0, 1.0, 0.0, 0.0), Row(0.0, 0.0, 1.0, 0.0)]

  function Lhs(r: Row, v: Vec3): real {
    r.a * v.x + r.b * v.y + r.c * v.z
  }

  predicate Holds(r: Row, v: Vec3) {
    Lhs(r, v) == r.rhs
  }

  predicate Solves(s: System, v: Vec3) {
    Holds(s[0], v) && Holds(s[1], v) && Holds(s[2], v)
  }

  /** The same vectors solve both systems. */
  ghost predicate Equivalent(s: System, t: System) {
    forall v :: Solves(s, v) <==> Solves(t, v)
  }

  function Entry(r: Row, column: nat): real
    requires column < 4
  {
    if column == 0 then r.a else if column == 1 then r.b else if column == 2 then r.c else r.rhs
  }

  // ---------------------------------------------------------------------------
  // Row operations.

  function Scaled(r: Row, p: real): Row
    requires p != 0.0
  {
    Row(r.a / p, r.b / p, r.c / p, r.rhs / p)
  }

  function Reduced(r: Row, k: Row, t: real): Row {
    Row(r.a - Times(t, k.a), r.b - Times(t, k.b), r.c - Times(t, k.c), r.rhs - Times(t, k.rhs))
  }

  lemma ScaledLhs(r: Row, p: real, v: Vec3)
    requires p != 0.0
    ensures Times(p, Lhs(Scaled(r, p), v)) == Lhs(r, v) && Times(p, r.rhs / p) == r.rhs
  {
    assert p * (r.a / p) == r.a && p * (r.b / p) == r.b && p * (r.c / p) == r.c;
    Distribute(p, r.a / p, r.b / p, r.c / p, v);
  }

  lemma Distribute(p: real, a: real, b: real, c: real, v: Vec3)
    ensures p * (a * v.x + b * v.y + c * v.z) == (p * a) * v.x + (p * b) * v.y + (p * c) * v.z
  {
  }

  lemma TimesCancels(p: real, x: real, y: real)
    requires p != 0.0 && Times(p, x) == Times(p, y)
    ensures x == y
  {
  }

  lemma SelfQuotient(p: real)
    requires p != 0.0
    ensures p / p == 1.0
  {
  }

  lemma TimesUnits(t: real)
    ensures Times(t, 0.0) == 0.0 && Times(t, 1.0) == t
  {
  }

  lemma ScaledHolds(r: Row, p: real, v: Vec3)
    requires p != 0.0
    ensures Holds(Scaled(r, p), v) <==> Holds(r, v)
  {
    hide Times, Lhs;
    ScaledLhs(r, p, v);
    if Holds(r, v) {
      TimesCancels(p, Lhs(Scaled(r, p), v), r.rhs / p);
    }
  }

  lemma ReducedHolds(r: Row, k: Row, t: real, v: Vec3)
    requires Holds(k, v)
    ensures Holds(Reduced(r, k, t), v) <==> Holds(r, v)
  {
    assert Lhs(Reduced(r, k, t), v) == Lhs(r, v) - t * Lhs(k, v);
  }

  function Swapped(s: System, k: nat, other: nat): System
    requires k < 3 && other < 3
  {
    s[k := s[other]][other := s[k]]
  }

  function ScaleRow(s: System, k: nat, p: real): System
    requires k < 3 && p != 0.0
  {
    s[k := Scaled(s[k], p)]
  }

  function ReduceRow(s: System, row: nat, k: nat, t: real): System
    requires row < 3 && k < 3
  {
    s[row := Reduced(s[row], s[k], t)]
  }

  lemma SwappedEquivalent(s: System, k: nat, other: nat)
    requires k < 3 && other < 3
    ensures Equivalent(Swapped(s, k, other), s)
  {
    hide Holds;
  }

  lemma ScaleRowEquivalent(s: System, k: nat, p: real)
    requires k < 3 && p != 0.0
    ensures Equivalent(ScaleRow(s, k, p), s)
  {
    forall v: Vec3 | true
      ensures Solves(ScaleRow(s, k, p), v) <==> Solves(s, v)
    {
      ScaledHolds(s[k], p, v);
      hide Holds, Scaled;
    }
  }

  lemma ReduceRowEquivalent(s: System, row: nat, k: nat, t: real)
    requires row < 3 && k < 3 && row != k
    ensures Equivalent(ReduceRow(s, row, k, t), s)
  {
    forall v: Vec3 | true
      ensures Solves(ReduceRow(s, row, k, t), v) <==> Solves(s, v)
    {
      if Holds(s[k], v) {
        ReducedHolds(s[row], s[k], t, v);
      }
      hide Holds, Reduced;
    }
  }

  lemma EquivalentChain(s: System, t: System, u: System)
    requires Equivalent(s, t) && Equivalent(t, u)
    ensures Equivalent(s, u)
  {
    hide Solves;
    forall v: Vec3 | true
      ensures Solves(s, v) <==> Solves(u, v)
    {
      assert Solves(s, v) <==> Solves(t, v);
    }
  }

  // ---------------------------------------------------------------------------
  // Which systems are taken: every column offers a pivot that is large enough.

  /** First row from k on with the largest entry in column k, given the best before `row`. */
  function BestFrom(s: System, k: nat, row: nat, selected: nat): (best: nat)
    requires k < row <= 3 && k <= selected < 3
    ensures k <= best < 3
    decreases 3 - row
  {
    if row == 3 then selected
    else BestFrom(s, k, row + 1, if Abs(Entry(s[row], k)) > Abs(Entry(s[selected], k)) then row else selected)
  }

  predicate FirstLargest(s: System, k: nat, from: nat, to: nat, best: nat)
    requires k < 3 && best < 3 && to <= 3
  {
    && (forall r :: from <= r < to ==> Abs(Entry(s[r], k)) <= Abs(Entry(s[best], k)))
    && (forall r :: from <= r < to && r < best ==> Abs(Entry(s[r], k)) < Abs(Entry(s[best], k)))
  }

  lemma {:induction false} BestFromIsFirstLargest(s: System, k: nat, row: nat, selected: nat)
    requires k < row <= 3 && k <= selected < row && FirstLargest(s, k, k, row, selected)
    ensures FirstLargest(s, k, k, 3, BestFrom(s, k, row, selected))
    decreases 3 - row
  {
    hide Entry;
    if row < 3 {
      BestFromIsFirstLargest(s, k, row + 1, if Abs(Entry(s[row], k)) > Abs(Entry(s[selected], k)) then row else selected);
    }
  }

  function Best(s: System, k: nat): (best: nat)
    requires k < 3
    ensures k <= best < 3
  {
    BestFrom(s, k, k + 1, k)
  }

  /** Rows from `row` on freed of column k. */
  function Cleared(s: System, k: nat, row: nat): System
    requires k < 3 && row <= 3
    decreases 3 - row
  {
    if row == 3 then s
    else Cleared(if row == k then s else ReduceRow(s, row, k, Entry(s[row], k)), k, row + 1)
  }

  predicate PivotFound(s: System, k: nat)
    requires k < 3
  {
    Abs(Entry(s[Best(s, k)], k)) >= SINGULAR
  }

  /** One column of the elimination. */
  function Eliminated(s: System, k: nat): System
    requires k < 3 && PivotFound(s, k)
  {
    var t := Swapped(s, k, Best(s, k));
    Cleared(ScaleRow(t, k, Entry(t[k], k)), k, 0)
  }

  predicate Solvable(s: System, k: nat)
    requires k <= 3
    decreases 3 - k
  {
    k == 3 || (PivotFound(s, k) && Solvable(Eliminated(s, k), k + 1))
  }

  // Whether a system is taken depends on its matrix alone, and a system taken has a solution.

  predicate SameMatrix(s: System, t: System) {
    forall r :: 0 <= r < 3 ==> s[r].a == t[r].a && s[r].b == t[r].b && s[r].c == t[r].c
  }

  lemma {:induction false} BestIgnoresRhs(s: System, t: System, k: nat, row: nat, selected: nat)
    requires SameMatrix(s, t) && k < row <= 3 && k <= selected < 3
    ensures BestFrom(s, k, row, selected) == BestFrom(t, k, row, selected)
    decreases 3 - row
  {
    if row < 3 {
      BestIgnoresRhs(s, t, k, row + 1, if Abs(Entry(s[row], k)) > Abs(Entry(s[selected], k)) then row else selected);
    }
  }

  lemma {:induction false} ClearedIgnoresRhs(s: System, t: System, k: nat, row: nat)
    requires SameMatrix(s, t) && k < 3 && row <= 3
    ensures SameMatrix(Cleared(s, k, row), Cleared(t, k, row))
    decreases 3 - row
  {
    hide Times;
    if row < 3 {
      ClearedIgnoresRhs(if row == k then s else ReduceRow(s, row, k, Entry(s[row], k)),
                        if row == k then t else ReduceRow(t, row, k, Entry(t[row], k)), k, row + 1);
    }
  }

  lemma {:induction false} PivotsIgnoreRhs(s: System, t: System, k: nat)
    requires SameMatrix(s, t) && k <= 3
    ensures Solvable(s, k) <==> Solvable(t, k)
    decreases 3 - k
  {
    if k < 3 {
      BestIgnoresRhs(s, t, k, k + 1, k);
      if PivotFound(s, k) {
        var u, v := Swapped(s, k, Best(s, k)), Swapped(t, k, Best(t, k));
        ClearedIgnoresRhs(ScaleRow(u, k, Entry(u[k], k)), ScaleRow(v, k, Entry(v[k], k)), k, 0);
        PivotsIgnoreRhs(Eliminated(s, k), Eliminated(t, k), k + 1);
      }
    }
  }

  /** The first k columns are those of the identity. */
  predicate UnitRows(s: System, k: nat)
    requires k <= 3
  {
    forall r, c :: 0 <= r < 3 && 0 <= c < k ==> Entry(s[r], c) == if r == c then 1.0 else 0.0
  }

  lemma {:induction false} ClearedRows(s: System, k: nat, row: nat)
    requires k < 3 && row <= 3 && UnitRows(s, k) && Entry(s[k], k) == 1.0
    requires forall r :: 0 <= r < row && r != k ==> Entry(s[r], k) == 0.0
    ensures UnitRows(Cleared(s, k, row), k + 1) && Equivalent(Cleared(s, k, row), s)
    decreases 3 - row
  {
    if row == 3 {
      SameEquivalent(s);
    } else if row == k {
      ClearedRows(s, k, row + 1);
    } else {
      var t := ReduceRow(s, row, k, Entry(s[row], k));
      ReducedRow(s, row, k);
      ReduceRowEquivalent(s, row, k, Entry(s[row], k));
      ClearedRows(t, k, row + 1);
      EquivalentChain(Cleared(t, k, row + 1), t, s);
    }
  }

  lemma ReducedRow(s: System, row: nat, k: nat)
    requires k < 3 && row < 3 && row != k && UnitRows(s, k) && Entry(s[k], k) == 1.0
    ensures var t := ReduceRow(s, row, k, Entry(s[row], k));
            UnitRows(t, k) && t[k] == s[k] && Entry(t[row], k) == 0.0
            && forall r :: 0 <= r < 3 && r != row ==> t[r] == s[r]
  {
    hide Times;
    var f := Entry(s[row], k);
    TimesUnits(f);
    forall c | 0 <= c < 4
      ensures Entry(Reduced(s[row], s[k], f), c) == Entry(s[row], c) - Times(f, Entry(s[k], c))
    {
    }
  }

  lemma PivotRow(s: System, k: nat, best: nat)
    requires k <= best < 3 && UnitRows(s, k) && Entry(s[best], k) != 0.0
    ensures var t := Swapped(s, k, best);
            var u := ScaleRow(t, k, Entry(t[k], k));
            UnitRows(u, k) && Entry(u[k], k) == 1.0
  {
    var p := Entry(s[best], k);
    SelfQuotient(p);
    forall c | 0 <= c < 4
      ensures Entry(Scaled(s[best], p), c) == Entry(s[best], c) / p
    {
    }
  }

  lemma EliminatedRows(s: System, k: nat)
    requires k < 3 && UnitRows(s, k) && PivotFound(s, k)
    ensures UnitRows(Eliminated(s, k), k + 1) && Equivalent(Eliminated(s, k), s)
  {
    var best := Best(s, k);
    var t := Swapped(s, k, best);
    var u := ScaleRow(t, k, Entry(t[k], k));
    PivotRow(s, k, best);
    SwappedEquivalent(s, k, best);
    ScaleRowEquivalent(t, k, Entry(t[k], k));
    EquivalentChain(u, t, s);
    ClearedRows(u, k, 0);
    EquivalentChain(Eliminated(s, k), u, s);
  }

  lemma {:induction false} SolvableHasOne(s: System, k: nat) returns (v: Vec3)
    requires k <= 3 && UnitRows(s, k) && Solvable(s, k)
    ensures Solves(s, v)
    decreases 3 - k
  {
    if k == 3 {
      v := Vec3(s[0].rhs, s[1].rhs, s[2].rhs);
      assert s[0] == Row(1.0, 0.0, 0.0, v.x) by { UnitRow(s, 0); }
      assert s[1] == Row(0.0, 1.0, 0.0, v.y) by { UnitRow(s, 1); }
      assert s[2] == Row(0.0, 0.0, 1.0, v.z) by { UnitRow(s, 2); }
    } else {
      EliminatedRows(s, k);
      v := SolvableHasOne(Eliminated(s, k), k + 1);
    }
  }

  lemma UnitRow(s: System, r: nat)
    requires r < 3 && UnitRows(s, 3)
    ensures s[r].a == (if r == 0 then 1.0 else 0.0) && s[r].b == (if r == 1 then 1.0 else 0.0)
    ensures s[r].c == if r == 2 then 1.0 else 0.0
  {
    assert Entry(s[r], 0) == s[r].a && Entry(s[r], 1) == s[r].b && Entry(s[r], 2) == s[r].c;
  }

  // ---------------------------------------------------------------------------
  // In place.

  function Rows(m: array2<real>): System
    requires m.Length0 == 3 && m.Length1 == 4
    reads m
  {
    [Row(m[0, 0], m[0, 1], m[0, 2], m[0, 3]), Row(m[1, 0], m[1, 1], m[1, 2], m[1, 3]),
     Row(m[2, 0], m[2, 1], m[2, 2], m[2, 3])]
  }

  /** The first k columns are those of the identity. */
  ghost predicate UnitColumns(m: array2<real>, k: nat)
    requires m.Length0 == 3 && m.Length1 == 4 && k <= 3
    reads m
  {
    forall row, c :: 0 <= row < 3 && 0 <= c < k ==> m[row, c] == if row == c then 1.0 else 0.0
  }

  lemma EntryOf(m: array2<real>, row: nat, column: nat)
    requires m.Length0 == 3 && m.Length1 == 4 && row < 3 && column < 4
    ensures Entry(Rows(m)[row], column) == m[row, column]
  {
  }

  method SelectPivot(m: array2<real>, k: nat) returns (selected: nat)
    requires m.Length0 == 3 && m.Length1 == 4 && k < 3
    ensures selected == Best(Rows(m), k)
    ensures k <= selected < 3 && forall row :: k <= row < 3 ==> Abs(m[row, k]) <= Abs(m[selected, k])
    ensures forall row :: k <= row < selected ==> Abs(m[row, k]) < Abs(m[selected, k])
  {
    selected := k;
    for row := k + 1 to 3
      invariant k <= selected < 3 && BestFrom(Rows(m), k, row, selected) == Best(Rows(m), k)
    {
      EntryOf(m, row, k);
      EntryOf(m, selected, k);
      if Abs(m[row, k]) > Abs(m[selected, k]) {
        selected := row;
      }
    }
    BestFromIsFirstLargest(Rows(m), k, k + 1, k);
    forall row | k <= row < 3
      ensures Entry(Rows(m)[row], k) == m[row, k]
    {
      EntryOf(m, row, k);
    }
  }

  /** Columns before k are zero in both rows, so swapping the rest swaps the rows. */
  method SwapRows(m: array2<real>, k: nat, other: nat)
    requires m.Length0 == 3 && m.Length1 == 4 && k < other < 3 && UnitColumns(m, k)
    modifies m
    ensures Rows(m) == Swapped(old(Rows(m)), k, other) && UnitColumns(m, k)
  {
    for column := k to 4
      invariant forall r, c :: 0 <= r < 3 && 0 <= c < 4 && (c < k || c >= column || (r != k && r != other)) ==>
                  m[r, c] == old(m[r, c])
      invariant forall c :: k <= c < column ==> m[k, c] == old(m[other, c]) && m[other, c] == old(m[k, c])
    {
      var temporary := m[k, column];
      m[k, column] := m[other, column];
      m[other, column] := temporary;
    }
  }

  method DivideRow(m: array2<real>, k: nat, pivot: real)
    requires m.Length0 == 3 && m.Length1 == 4 && k < 3 && UnitColumns(m, k) && pivot == m[k, k] != 0.0
    modifies m
    ensures Rows(m) == ScaleRow(old(Rows(m)), k, pivot) && UnitColumns(m, k) && m[k, k] == 1.0
  {
    for column := k to 4
      invariant forall r, c :: 0 <= r < 3 && 0 <= c < 4 && (c < k || c >= column || r != k) ==> m[r, c] == old(m[r, c])
      invariant forall c :: k <= c < column ==> m[k, c] == old(m[k, c]) / pivot
    {
      m[k, column] := m[k, column] / pivot;
    }
    assert forall c :: 0 <= c < k ==> m[k, c] == old(m[k, c]) / pivot;
    SelfQuotient(pivot);
  }

  method SubtractRow(m: array2<real>, row: nat, k: nat)
    requires m.Length0 == 3 && m.Length1 == 4 && k < 3 && row < 3 && row != k && UnitColumns(m, k) && m[k, k] == 1.0
    modifies m
    ensures Rows(m) == ReduceRow(old(Rows(m)), row, k, old(m[row, k])) && UnitColumns(m, k)
    ensures m[row, k] == 0.0 && forall r :: 0 <= r < 3 && r != row ==> m[r, k] == old(m[r, k])
  {
    hide Times;
    var t := m[row, k];
    TimesUnits(t);
    for column := k to 4
      invariant forall r, c :: 0 <= r < 3 && 0 <= c < 4 && (c < k || c >= column || r != row) ==> m[r, c] == old(m[r, c])
      invariant forall c :: k <= c < column ==> m[row, c] == old(m[row, c]) - Times(t, old(m[k, c]))
    {
      m[row, column] := m[row, column] - Times(t, m[k, column]);
    }
    assert forall c :: 0 <= c < k ==> m[row, c] == old(m[row, c]) - Times(t, old(m[k, c]));
  }

  /** Clears column k in every row but the k-th. */
  method ClearColumn(m: array2<real>, k: nat)
    requires m.Length0 == 3 && m.Length1 == 4 && k < 3 && UnitColumns(m, k) && m[k, k] == 1.0
    modifies m
    ensures UnitColumns(m, k + 1) && Equivalent(Rows(m), old(Rows(m))) && Rows(m) == Cleared(old(Rows(m)), k, 0)
  {
    hide Equivalent, ReduceRow;
    SameEquivalent(Rows(m));
    for row := 0 to 3
      invariant UnitColumns(m, k) && m[k, k] == 1.0 && Equivalent(Rows(m), old(Rows(m)))
      invariant forall r :: 0 <= r < row && r != k ==> m[r, k] == 0.0
      invariant Cleared(Rows(m), k, row) == Cleared(old(Rows(m)), k, 0)
    {
      if row != k {
        ghost var before := Rows(m);
        EntryOf(m, row, k);
        SubtractRow(m, row, k);
        ReduceRowEquivalent(before, row, k, Entry(before[row], k));
        EquivalentChain(Rows(m), before, old(Rows(m)));
      }
    }
  }

  lemma SameEquivalent(s: System)
    ensures Equivalent(s, s)
  {
  }

  /** Solves the system, or reports that some column has no pivot above the threshold.  A
      solution returned is the one and only solution of the input. */
  method Solve3(input: System) returns (ok: bool, result: Vec3)
    ensures ok <==> Solvable(input, 0)
    ensures ok ==> forall v :: Solves(input, v) <==> v == result
  {
    hide Equivalent, Solves, Swapped, ScaleRow, Best, Cleared, Rows;
    var m := new real[3, 4];
    for row := 0 to 3
      invariant forall r, c :: 0 <= r < row && 0 <= c < 4 ==> m[r, c] == Entry(input[r], c)
    {
      for column := 0 to 4
        invariant forall r, c :: 0 <= r < row && 0 <= c < 4 ==> m[r, c] == Entry(input[r], c)
        invariant forall c :: 0 <= c < column ==> m[row, c] == Entry(input[row], c)
      {
        m[row, column] := Entry(input[row], column);
      }
    }
    Loaded(m, input);
    SameEquivalent(input);
    for k := 0 to 3
      invariant UnitColumns(m, k) && Equivalent(Rows(m), input)
      invariant Solvable(Rows(m), k) == Solvable(input, 0)
    {
      var selected := SelectPivot(m, k);
      EntryOf(m, selected, k);
      if Abs(m[selected, k]) < SINGULAR {
        return false, Vec3(0.0, 0.0, 0.0);
      }
      ghost var s0 := Rows(m);
      if selected != k {
        SwapRows(m, k, selected);
        SwappedEquivalent(s0, k, selected);
        EquivalentChain(Rows(m), s0, input);
      }
      NoSwap(s0, k);
      PivotKept(s0, k, selected);
      ghost var s1 := Rows(m);
      var pivot := m[k, k];
      EntryOf(m, k, k);
      DivideRow(m, k, pivot);
      ScaleRowEquivalent(s1, k, pivot);
      EquivalentChain(Rows(m), s1, input);
      ghost var s2 := Rows(m);
      ClearColumn(m, k);
      EquivalentChain(Rows(m), s2, input);
    }
    result := Vec3(m[0, 3], m[1, 3], m[2, 3]);
    ReadOff(m);
    UnitSolution(Rows(m), input, result);
    return true, result;
  }

  lemma Loaded(m: array2<real>, input: System)
    requires m.Length0 == 3 && m.Length1 == 4
    requires forall r, c :: 0 <= r < 3 && 0 <= c < 4 ==> m[r, c] == Entry(input[r], c)
    ensures Rows(m) == input
  {
    forall r | 0 <= r < 3
      ensures Rows(m)[r] == input[r]
    {
      assert m[r, 0] == Entry(input[r], 0) && m[r, 1] == Entry(input[r], 1) && m[r, 2] == Entry(input[r], 2)
             && m[r, 3] == Entry(input[r], 3);
    }
  }

  lemma ReadOff(m: array2<real>)
    requires m.Length0 == 3 && m.Length1 == 4 && UnitColumns(m, 3)
    ensures Rows(m)[0] == Row(1.0, 0.0, 0.0, m[0, 3]) && Rows(m)[1] == Row(0.0, 1.0, 0.0, m[1, 3])
    ensures Rows(m)[2] == Row(0.0, 0.0, 1.0, m[2, 3])
  {
  }

  lemma NoSwap(s: System, k: nat)
    requires k < 3
    ensures Swapped(s, k, k) == s
  {
  }

  /** The pivot is now in row k. */
  lemma PivotKept(s: System, k: nat, selected: nat)
    requires k <= selected < 3
    ensures Entry(Swapped(s, k, selected)[k], k) == Entry(s[selected], k)
  {
  }

  lemma UnitSolution(s: System, input: System, v: Vec3)
    requires Equivalent(s, input)
    requires s[0] == Row(1.0, 0.0, 0.0, v.x) && s[1] == Row(0.0, 1.0, 0.0, v.y) && s[2] == Row(0.0, 0.0, 1.0, v.z)
    ensures forall u :: Solves(input, u) <==> u == v
  {
    forall u: Vec3 | true
      ensures Solves(input, u) <==> u == v
    {
      assert Solves(s, u) <==> Solves(input, u);
    }
  }
}
