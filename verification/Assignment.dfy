/** Laying a plant-by-vendor matrix out as one order per employee, and rebuilding the matrix from the orders. */
module Assignment {
  import opened Wrappers
  import opened Apportion
  import opened Grouping
  import opened LunchRecords

  datatype Plant = Plant(code: nat, count: int)

  datatype Vendor = Vendor(id: nat, total: int)

  datatype Employee = Employee(plant: nat, vendor: Option<nat>)

  datatype Cell = Cell(plant: nat, vendor: nat)

  // ---------------------------------------------------------------- the layout

  function Repeat<T>(x: T, n: nat): (r: seq<T>)
    ensures |r| == n && forall i | 0 <= i < n :: r[i] == x
  {
    if n == 0 then [] else Repeat(x, n - 1) + [x]
  }

  ghost predicate NonNegative(xs: seq<int>) {
    forall i | 0 <= i < |xs| :: 0 <= xs[i]
  }

  ghost predicate IsMatrix(matrix: seq<seq<int>>, vendors: nat) {
    forall p | 0 <= p < |matrix| :: |matrix[p]| == vendors && NonNegative(matrix[p])
  }

  /** The cells of one row, each as often as its entry says, in order. */
  function RowCells(p: nat, row: seq<int>): seq<Cell> {
    if row == [] then []
    else
      var m := |row| - 1;
      RowCells(p, row[..m]) + if row[m] < 0 then [] else Repeat(Cell(p, m), row[m])
  }

  function Cells(matrix: seq<seq<int>>): seq<Cell> {
    if matrix == [] then [] else Cells(matrix[..|matrix| - 1]) + RowCells(|matrix| - 1, matrix[|matrix| - 1])
  }

  /** The plant of every employee: each plant's index as often as its count. */
  function Blocks(counts: seq<int>): seq<nat> {
    if counts == [] then []
    else
      var p := |counts| - 1;
      Blocks(counts[..p]) + if counts[p] < 0 then [] else Repeat(p, counts[p])
  }

  ghost predicate RowsMatch(matrix: seq<seq<int>>, counts: seq<int>) {
    |matrix| == |counts| && forall p | 0 <= p < |matrix| :: Sum(matrix[p]) == counts[p]
  }

  /** How often a cell occurs. */
  function Count(cells: seq<Cell>, c: Cell): nat {
    if cells == [] then 0 else Count(cells[..|cells| - 1], c) + if cells[|cells| - 1] == c then 1 else 0
  }

  lemma {:induction false} CountConcat(a: seq<Cell>, b: seq<Cell>, c: Cell)
    ensures Count(a + b, c) == Count(a, c) + Count(b, c)
  {
    if b == [] {
      assert a + b == a;
    } else {
      assert (a + b)[..|a + b| - 1] == a + b[..|b| - 1];
      CountConcat(a, b[..|b| - 1], c);
    }
  }

  lemma CountSnoc(cells: seq<Cell>, last: Cell, c: Cell)
    ensures Count(cells + [last], c) == Count(cells, c) + if last == c then 1 else 0
  {
    assert (cells + [last])[..|cells|] == cells;
  }

  lemma {:induction false} RepeatCount(x: Cell, n: nat, c: Cell)
    ensures Count(Repeat(x, n), c) == if x == c then n else 0
  {
    if n > 0 {
      RepeatCount(x, n - 1, c);
      assert Repeat(x, n)[..n - 1] == Repeat(x, n - 1);
    }
  }

  lemma {:induction false} RowCellsCount(p: nat, row: seq<int>, c: Cell)
    requires NonNegative(row)
    ensures Count(RowCells(p, row), c) == if c.plant == p && c.vendor < |row| then row[c.vendor] else 0
  {
    if row != [] {
      var m := |row| - 1;
      RowCellsCount(p, row[..m], c);
      assert c == Cell(c.plant, c.vendor);
      RepeatCount(Cell(p, m), row[m], c);
      CountConcat(RowCells(p, row[..m]), Repeat(Cell(p, m), row[m]), c);
    }
  }

  lemma {:induction false} RowCellsShape(p: nat, row: seq<int>)
    requires NonNegative(row)
    ensures |RowCells(p, row)| == Sum(row)
    ensures forall i | 0 <= i < |RowCells(p, row)| :: RowCells(p, row)[i].plant == p && RowCells(p, row)[i].vendor < |row|
  {
    if row != [] { RowCellsShape(p, row[..|row| - 1]); }
  }

  /** Each cell appears exactly as often as its entry says. */
  lemma {:induction false} CellsCount(matrix: seq<seq<int>>, vendors: nat, c: Cell)
    requires IsMatrix(matrix, vendors)
    ensures Count(Cells(matrix), c) == if c.plant < |matrix| && c.vendor < vendors then matrix[c.plant][c.vendor] else 0
  {
    if matrix != [] {
      var n := |matrix| - 1;
      CellsCount(matrix[..n], vendors, c);
      RowCellsCount(n, matrix[n], c);
      CountConcat(Cells(matrix[..n]), RowCells(n, matrix[n]), c);
    }
  }

  lemma {:induction false} CellsShape(matrix: seq<seq<int>>, vendors: nat)
    requires IsMatrix(matrix, vendors)
    ensures forall i | 0 <= i < |Cells(matrix)| :: Cells(matrix)[i].plant < |matrix| && Cells(matrix)[i].vendor < vendors
  {
    if matrix != [] {
      var n := |matrix| - 1;
      CellsShape(matrix[..n], vendors);
      RowCellsShape(n, matrix[n]);
    }
  }

  /** The cells of a matrix whose rows add up to the counts lie block by block in their own plants. */
  lemma {:induction false} CellsInBlocks(matrix: seq<seq<int>>, vendors: nat, counts: seq<int>)
    requires IsMatrix(matrix, vendors) && RowsMatch(matrix, counts)
    ensures |Cells(matrix)| == |Blocks(counts)|
    ensures forall i | 0 <= i < |Cells(matrix)| :: Cells(matrix)[i].plant == Blocks(counts)[i]
  {
    if matrix != [] {
      var n := |matrix| - 1;
      CellsInBlocks(matrix[..n], vendors, counts[..n]);
      RowCellsShape(n, matrix[n]);
    }
  }

  // ---------------------------------------------------------------- setup

  /** Plant codes are numbered by position. */
  method MakePlants(counts: seq<int>) returns (plants: array<Plant>)
    ensures fresh(plants) && plants.Length == |counts|
    ensures forall i | 0 <= i < |counts| :: plants[i] == Plant(i + 1, counts[i])
  {
    plants := new Plant[|counts|](_ => Plant(0, 0));
    for i := 0 to |counts|
      invariant forall k | 0 <= k < i :: plants[k] == Plant(k + 1, counts[k])
    {
      plants[i] := Plant(i + 1, counts[i]);
    }
  }

  function Column(matrix: seq<seq<int>>, m: nat): seq<int>
    requires forall p | 0 <= p < |matrix| :: m < |matrix[p]|
  {
    seq(|matrix|, p requires 0 <= p < |matrix| => matrix[p][m])
  }

  lemma ColumnStep(matrix: seq<seq<int>>, n: nat, p: nat, m: nat)
    requires IsMatrix(matrix, n) && p < |matrix| && m < n
    ensures Sum(Column(matrix[..p + 1], m)) == Sum(Column(matrix[..p], m)) + matrix[p][m]
  {
    assert Column(matrix[..p + 1], m)[..p] == Column(matrix[..p], m);
  }

  method ColumnTotals(matrix: seq<seq<int>>, n: nat) returns (totals: array<int>)
    requires IsMatrix(matrix, n)
    ensures fresh(totals) && totals.Length == n
    ensures forall m | 0 <= m < n :: totals[m] == Sum(Column(matrix, m))
  {
    totals := new int[n](_ => 0);
    for p := 0 to |matrix|
      invariant forall m | 0 <= m < n :: totals[m] == Sum(Column(matrix[..p], m))
    {
      for m := 0 to n
        invariant forall k | m <= k < n :: totals[k] == Sum(Column(matrix[..p], k))
        invariant forall k | 0 <= k < m :: totals[k] == Sum(Column(matrix[..p + 1], k))
      {
        ColumnStep(matrix, n, p, m);
        totals[m] := totals[m] + matrix[p][m];
      }
    }
    assert matrix[..|matrix|] == matrix;
  }

  method MakeVendors(ids: seq<nat>, matrix: seq<seq<int>>) returns (vendors: array<Vendor>)
    requires IsMatrix(matrix, |ids|)
    ensures fresh(vendors) && vendors.Length == |ids|
    ensures forall m | 0 <= m < |ids| :: vendors[m] == Vendor(ids[m], Sum(Column(matrix, m)))
  {
    var totals := ColumnTotals(matrix, |ids|);
    vendors := new Vendor[|ids|](_ => Vendor(0, 0));
    for m := 0 to |ids|
      invariant forall k | 0 <= k < |ids| :: totals[k] == Sum(Column(matrix, k))
      invariant forall k | 0 <= k < m :: vendors[k] == Vendor(ids[k], Sum(Column(matrix, k)))
    {
      vendors[m] := Vendor(ids[m], totals[m]);
    }
  }

  function PlantCounts(plants: seq<Plant>): seq<int> {
    seq(|plants|, i requires 0 <= i < |plants| => plants[i].count)
  }

  /** One employee per unit of count, plant after plant. */
  method MakeEmployees(plants: seq<Plant>) returns (employees: seq<Employee>)
    ensures |employees| == |Blocks(PlantCounts(plants))|
    ensures forall i | 0 <= i < |employees| ::
              var p := Blocks(PlantCounts(plants))[i];
              p < |plants| && employees[i] == Employee(plants[p].code, None)
  {
    employees := [];
    ghost var counts := PlantCounts(plants);
    for p := 0 to |plants|
      invariant |employees| == |Blocks(counts[..p])|
      invariant forall i | 0 <= i < |employees| ::
                  Blocks(counts[..p])[i] < p && employees[i] == Employee(plants[Blocks(counts[..p])[i]].code, None)
    {
      assert counts[..p + 1][..p] == counts[..p];
      ghost var done := employees;
      var i := 0;
      while i < plants[p].count
        invariant 0 <= i && (i > 0 ==> i <= plants[p].count)
        invariant employees == done + Repeat(Employee(plants[p].code, None), i)
      {
        employees := employees + [Employee(plants[p].code, None)];
        i := i + 1;
      }
    }
    assert counts[..|plants|] == counts;
  }

  // ---------------------------------------------------------------- assignment in place

  /** What is laid out before entry i of cell (p, m). */
  function Before(matrix: seq<seq<int>>, p: nat, m: nat, i: nat): seq<Cell>
    requires p < |matrix| && m <= |matrix[p]|
  {
    Cells(matrix[..p]) + RowCells(p, matrix[p][..m]) + Repeat(Cell(p, m), i)
  }

  lemma {:induction false} RowPrefix(p: nat, row: seq<int>, m: nat)
    requires m <= |row|
    ensures RowCells(p, row[..m]) <= RowCells(p, row)
  {
    if m == |row| {
      assert row[..m] == row;
    } else {
      RowPrefix(p, row[..|row| - 1], m);
      assert row[..|row| - 1][..m] == row[..m];
    }
  }

  lemma {:induction false} CellsPrefix(matrix: seq<seq<int>>, p: nat)
    requires p <= |matrix|
    ensures Cells(matrix[..p]) <= Cells(matrix)
  {
    if p == |matrix| {
      assert matrix[..p] == matrix;
    } else {
      CellsPrefix(matrix[..|matrix| - 1], p);
      assert matrix[..|matrix| - 1][..p] == matrix[..p];
    }
  }

  /** The next position belongs to the cell being laid out. */
  /** Within the cells of one row. */
  lemma NextInRow(p: nat, row: seq<int>, m: nat, i: nat)
    requires m < |row| && i < row[m]
    ensures var at := |RowCells(p, row[..m])| + i; at < |RowCells(p, row)| && RowCells(p, row)[at] == Cell(p, m)
  {
    RowPrefix(p, row, m + 1);
    assert row[..m + 1][..m] == row[..m];
    assert RowCells(p, row[..m + 1]) == RowCells(p, row[..m]) + Repeat(Cell(p, m), row[m]);
    assert RowCells(p, row[..m + 1])[|RowCells(p, row[..m])| + i] == Cell(p, m);
  }

  lemma NextCell(matrix: seq<seq<int>>, p: nat, m: nat, i: nat)
    requires p < |matrix| && m < |matrix[p]| && i < matrix[p][m]
    ensures var pos := |Before(matrix, p, m, i)|; pos < |Cells(matrix)| && Cells(matrix)[pos] == Cell(p, m)
  {
    CellsPrefix(matrix, p + 1);
    assert matrix[..p + 1][..p] == matrix[..p];
    NextInRow(p, matrix[p], m, i);
    var full := Cells(matrix[..p]) + RowCells(p, matrix[p]);
    assert full == Cells(matrix[..p + 1]) <= Cells(matrix);
    var pos := |Before(matrix, p, m, i)|;
    assert full[pos] == RowCells(p, matrix[p])[|RowCells(p, matrix[p][..m])| + i];
  }

  /** Where each plant's block starts. */
  method BlockStarts(plants: seq<Plant>, ghost matrix: seq<seq<int>>, ghost vendors: nat) returns (starts: seq<nat>)
    requires IsMatrix(matrix, vendors) && RowsMatch(matrix, PlantCounts(plants))
    ensures |starts| == |plants| && forall k | 0 <= k < |starts| :: starts[k] == |Cells(matrix[..k])|
  {
    starts := [];
    var cursor := 0;
    for i := 0 to |plants|
      invariant cursor == |Cells(matrix[..i])|
      invariant |starts| == i && forall k | 0 <= k < i :: starts[k] == |Cells(matrix[..k])|
    {
      assert matrix[..i + 1][..i] == matrix[..i];
      RowCellsShape(i, matrix[i]);
      assert PlantCounts(plants)[i] == plants[i].count;
      starts := starts + [cursor];
      cursor := cursor + plants[i].count;
    }
  }

  /** Every employee gets exactly one vendor, that of its cell; nothing else about it changes. */
  method AssignOrders(plants: seq<Plant>, vendors: seq<Vendor>, employees: array<Employee>, matrix: seq<seq<int>>)
    requires IsMatrix(matrix, |vendors|) && RowsMatch(matrix, PlantCounts(plants))
    requires employees.Length == |Cells(matrix)|
    modifies employees
    ensures forall k | 0 <= k < employees.Length ::
              var m := Cells(matrix)[k].vendor;
              m < |vendors| && employees[k] == old(employees[k]).(vendor := Some(vendors[m].id))
  {
    var starts := BlockStarts(plants, matrix, |vendors|);
    for p := 0 to |matrix|
      invariant forall k | 0 <= k < employees.Length :: Assigned(employees[k], old(employees[k]), vendors, matrix, k, |Cells(matrix[..p])|)
    {
      AssignRow(vendors, employees, matrix, p, starts[p], old(employees[..]));
    }
    assert matrix[..|matrix|] == matrix;
    forall k | 0 <= k < employees.Length
      ensures var m := Cells(matrix)[k].vendor;
              m < |vendors| && employees[k] == old(employees[k]).(vendor := Some(vendors[m].id))
    {
      assert Assigned(employees[k], old(employees[k]), vendors, matrix, k, |Cells(matrix)|);
    }
  }

  /** Before position `done` the employee has the vendor of its cell; from there on it is untouched. */
  ghost predicate Assigned(now: Employee, was: Employee, vendors: seq<Vendor>, matrix: seq<seq<int>>, k: nat, done: nat)
    requires k < |Cells(matrix)|
  {
    var m := Cells(matrix)[k].vendor;
    if k < done then m < |vendors| && now == was.(vendor := Some(vendors[m].id)) else now == was
  }

  method AssignRow(vendors: seq<Vendor>, employees: array<Employee>, matrix: seq<seq<int>>, p: nat, start: nat, ghost was: seq<Employee>)
    requires IsMatrix(matrix, |vendors|) && p < |matrix|
    requires employees.Length == |Cells(matrix)| == |was| && start == |Cells(matrix[..p])|
    requires forall k | 0 <= k < employees.Length :: Assigned(employees[k], was[k], vendors, matrix, k, start)
    modifies employees
    ensures forall k | 0 <= k < employees.Length :: Assigned(employees[k], was[k], vendors, matrix, k, |Cells(matrix[..p + 1])|)
  {
    var row := matrix[p];
    RowEnd(matrix, p);
    assert NonNegative(row);
    var pos := start;
    for m := 0 to |row|
      invariant pos == |Before(matrix, p, m, 0)|
      invariant forall k | 0 <= k < employees.Length :: Assigned(employees[k], was[k], vendors, matrix, k, pos)
    {
      CellEnd(matrix, p, m);
      pos := AssignCell(vendors, employees, matrix, p, m, pos, was);
    }
  }

  lemma CellEnd(matrix: seq<seq<int>>, p: nat, m: nat)
    requires p < |matrix| && m < |matrix[p]| && 0 <= matrix[p][m]
    ensures |Before(matrix, p, m + 1, 0)| == |Before(matrix, p, m, 0)| + matrix[p][m]
  {
    assert matrix[p][..m + 1][..m] == matrix[p][..m];
  }

  lemma RowEnd(matrix: seq<seq<int>>, p: nat)
    requires p < |matrix|
    ensures |Before(matrix, p, |matrix[p]|, 0)| == |Cells(matrix[..p + 1])|
    ensures |Before(matrix, p, 0, 0)| == |Cells(matrix[..p])|
  {
    assert matrix[p][..|matrix[p]|] == matrix[p];
    assert matrix[..p + 1][..p] == matrix[..p];
  }

  /** The innermost loop: n employees in a row get the same vendor. */
  method AssignCell(vendors: seq<Vendor>, employees: array<Employee>, matrix: seq<seq<int>>, p: nat, m: nat, start: nat, ghost was: seq<Employee>)
    returns (pos: nat)
    requires p < |matrix| && m < |matrix[p]| <= |vendors| && 0 <= matrix[p][m]
    requires employees.Length == |Cells(matrix)| == |was| && start == |Before(matrix, p, m, 0)|
    requires forall k | 0 <= k < employees.Length :: Assigned(employees[k], was[k], vendors, matrix, k, start)
    modifies employees
    ensures pos == start + matrix[p][m]
    ensures forall k | 0 <= k < employees.Length :: Assigned(employees[k], was[k], vendors, matrix, k, pos)
  {
    pos := start;
    for i := 0 to matrix[p][m]
      invariant pos == start + i
      invariant forall k | 0 <= k < employees.Length :: Assigned(employees[k], was[k], vendors, matrix, k, pos)
    {
      NextCell(matrix, p, m, i);
      assert Assigned(employees[pos], was[pos], vendors, matrix, pos, pos);
      employees[pos] := employees[pos].(vendor := Some(vendors[m].id));
      pos := pos + 1;
    }
  }

  // ---------------------------------------------------------------- rebuilding

  /** The index a map filled in order ends up with: the last one. */
  function LastIndex(xs: seq<nat>, x: nat): Option<nat> {
    if xs == [] then None
    else if xs[|xs| - 1] == x then Some(|xs| - 1)
    else LastIndex(xs[..|xs| - 1], x)
  }

  lemma {:induction false} LastIndexOf(xs: seq<nat>, i: nat)
    requires i < |xs| && forall j, k | 0 <= j < k < |xs| :: xs[j] != xs[k]
    ensures LastIndex(xs, xs[i]) == Some(i)
  {
    if i < |xs| - 1 { LastIndexOf(xs[..|xs| - 1], i); }
  }

  method IndexByKey(keys: seq<nat>) returns (index: map<nat, nat>)
    ensures forall x: nat :: if x in index then LastIndex(keys, x) == Some(index[x]) else LastIndex(keys, x) == None
    ensures forall x | x in index :: index[x] < |keys|
  {
    index := map[];
    for i := 0 to |keys|
      invariant forall x: nat :: if x in index then LastIndex(keys[..i], x) == Some(index[x]) else LastIndex(keys[..i], x) == None
      invariant forall x | x in index :: index[x] < i
    {
      assert keys[..i + 1][..i] == keys[..i];
      index := index[keys[i] := i];
    }
    assert keys[..|keys|] == keys;
  }

  /** The cells of the orders whose plant and vendor are both known. */
  function OrderCells(codes: seq<nat>, ids: seq<nat>, orders: seq<OrderRecord>): seq<Cell> {
    if orders == [] then []
    else
      var o := orders[|orders| - 1];
      var p, v := LastIndex(codes, o.plant), LastIndex(ids, o.vendor);
      OrderCells(codes, ids, orders[..|orders| - 1]) + if p.Some? && v.Some? then [Cell(p.value, v.value)] else []
  }

  function Codes(plants: seq<Plant>): seq<nat> {
    seq(|plants|, i requires 0 <= i < |plants| => plants[i].code)
  }

  function Ids(vendors: seq<Vendor>): seq<nat> {
    seq(|vendors|, i requires 0 <= i < |vendors| => vendors[i].id)
  }

  function Row(matrix: array2<int>, p: nat): seq<int>
    requires p < matrix.Length0
    reads matrix
  {
    seq(matrix.Length1, m requires 0 <= m < matrix.Length1 reads matrix => matrix[p, m])
  }

  function Col(matrix: array2<int>, m: nat): seq<int>
    requires m < matrix.Length1
    reads matrix
  {
    seq(matrix.Length0, p requires 0 <= p < matrix.Length0 reads matrix => matrix[p, m])
  }

  /** Counts the orders of each cell, then overwrites the plant counts and the vendor totals with the sums. */
  method RebuildMatrix(plants: array<Plant>, vendors: array<Vendor>, orders: seq<OrderRecord>) returns (matrix: array2<int>)
    modifies plants, vendors
    ensures fresh(matrix) && matrix.Length0 == plants.Length && matrix.Length1 == vendors.Length
    ensures forall p, m | 0 <= p < plants.Length && 0 <= m < vendors.Length ::
              matrix[p, m] == Count(OrderCells(old(Codes(plants[..])), old(Ids(vendors[..])), orders), Cell(p, m))
    ensures forall p | 0 <= p < plants.Length :: plants[p] == old(plants[p]).(count := Sum(Row(matrix, p)))
    ensures forall m | 0 <= m < vendors.Length :: vendors[m] == old(vendors[m]).(total := Sum(Col(matrix, m)))
  {
    matrix := CountCells(Codes(plants[..]), Ids(vendors[..]), orders);
    SetCounts(plants, matrix);
    SetTotals(vendors, matrix);
  }

  method SetCounts(plants: array<Plant>, matrix: array2<int>)
    requires plants.Length == matrix.Length0
    modifies plants
    ensures forall p | 0 <= p < plants.Length :: plants[p] == old(plants[p]).(count := Sum(Row(matrix, p)))
  {
    for p := 0 to plants.Length
      invariant forall k | p <= k < plants.Length :: plants[k] == old(plants[k])
      invariant forall k | 0 <= k < p :: plants[k] == old(plants[k]).(count := Sum(Row(matrix, k)))
    {
      var total := SumSeq(Row(matrix, p));
      plants[p] := plants[p].(count := total);
    }
  }

  method SetTotals(vendors: array<Vendor>, matrix: array2<int>)
    requires vendors.Length == matrix.Length1
    modifies vendors
    ensures forall m | 0 <= m < vendors.Length :: vendors[m] == old(vendors[m]).(total := Sum(Col(matrix, m)))
  {
    for m := 0 to vendors.Length
      invariant forall k | m <= k < vendors.Length :: vendors[k] == old(vendors[k])
      invariant forall k | 0 <= k < m :: vendors[k] == old(vendors[k]).(total := Sum(Col(matrix, k)))
    {
      var total := SumSeq(Col(matrix, m));
      vendors[m] := vendors[m].(total := total);
    }
  }

  method SumSeq(xs: seq<int>) returns (total: int)
    ensures total == Sum(xs)
  {
    total := 0;
    for i := 0 to |xs|
      invariant total == Sum(xs[..i])
    {
      assert xs[..i + 1][..i] == xs[..i];
      total := total + xs[i];
    }
    assert xs[..|xs|] == xs;
  }

  method CountCells(codes: seq<nat>, ids: seq<nat>, orders: seq<OrderRecord>) returns (matrix: array2<int>)
    ensures fresh(matrix) && matrix.Length0 == |codes| && matrix.Length1 == |ids|
    ensures forall p, m | 0 <= p < |codes| && 0 <= m < |ids| :: matrix[p, m] == Count(OrderCells(codes, ids, orders), Cell(p, m))
  {
    var pIdx := IndexByKey(codes);
    var vIdx := IndexByKey(ids);
    matrix := new int[|codes|, |ids|]((_, _) => 0);
    for k := 0 to |orders|
      invariant forall p, m | 0 <= p < |codes| && 0 <= m < |ids| :: matrix[p, m] == Count(OrderCells(codes, ids, orders[..k]), Cell(p, m))
    {
      var o := orders[k];
      assert orders[..k + 1][..k] == orders[..k];
      ghost var cells := OrderCells(codes, ids, orders[..k]);
      if o.plant in pIdx && o.vendor in vIdx {
        var p, m := pIdx[o.plant], vIdx[o.vendor];
        assert OrderCells(codes, ids, orders[..k + 1]) == cells + [Cell(p, m)];
        forall c: Cell ensures Count(cells + [Cell(p, m)], c) == Count(cells, c) + if Cell(p, m) == c then 1 else 0 {
          CountSnoc(cells, Cell(p, m), c);
        }
        matrix[p, m] := matrix[p, m] + 1;
      } else {
        assert OrderCells(codes, ids, orders[..k + 1]) == cells + [] == cells;
      }
    }
    assert orders[..|orders|] == orders;
  }

  // ---------------------------------------------------------------- round trip

  /** The order of an employee in cell (p, m) names plant p and vendor m. */
  ghost predicate NamesCell(codes: seq<nat>, ids: seq<nat>, o: OrderRecord, c: Cell) {
    c.plant < |codes| && c.vendor < |ids| && o.plant == codes[c.plant] && o.vendor == ids[c.vendor]
  }

  lemma {:induction false} OrdersHaveTheirCells(codes: seq<nat>, ids: seq<nat>, orders: seq<OrderRecord>, cells: seq<Cell>)
    requires Distinct(codes) && Distinct(ids) && |orders| == |cells|
    requires forall k | 0 <= k < |cells| :: NamesCell(codes, ids, orders[k], cells[k])
    ensures OrderCells(codes, ids, orders) == cells
  {
    if orders != [] {
      var n := |orders| - 1;
      OrdersHaveTheirCells(codes, ids, orders[..n], cells[..n]);
      assert NamesCell(codes, ids, orders[n], cells[n]);
      LastIndexOf(codes, cells[n].plant);
      LastIndexOf(ids, cells[n].vendor);
      assert cells == cells[..n] + [cells[n]];
    }
  }

  method OrdersOf(employees: array<Employee>) returns (orders: seq<OrderRecord>)
    requires forall k | 0 <= k < employees.Length :: employees[k].vendor.Some?
    ensures |orders| == employees.Length
    ensures forall k | 0 <= k < employees.Length :: orders[k] == OrderRecord(k, employees[k].plant, employees[k].vendor.value, Cutoff)
  {
    orders := [];
    for i := 0 to employees.Length
      invariant |orders| == i
      invariant forall k | 0 <= k < i :: orders[k] == OrderRecord(k, employees[k].plant, employees[k].vendor.value, Cutoff)
    {
      orders := orders + [OrderRecord(i, employees[i].plant, employees[i].vendor.value, Cutoff)];
    }
  }

  /** One order per employee, in the block of its plant, for the vendor of its cell. */
  method LayOut(counts: seq<int>, ids: seq<nat>, matrix: seq<seq<int>>, plants: array<Plant>, vendors: array<Vendor>)
    returns (orders: seq<OrderRecord>)
    requires Distinct(ids) && IsMatrix(matrix, |ids|) && RowsMatch(matrix, counts)
    requires plants.Length == |counts| && forall i | 0 <= i < |counts| :: plants[i] == Plant(i + 1, counts[i])
    requires vendors.Length == |ids| && forall m | 0 <= m < |ids| :: vendors[m].id == ids[m]
    ensures |orders| == |Blocks(counts)| == |Cells(matrix)|
    ensures forall k | 0 <= k < |orders| ::
              && Cells(matrix)[k].plant == Blocks(counts)[k] < |counts| && Cells(matrix)[k].vendor < |ids|
              && orders[k] == OrderRecord(k, Blocks(counts)[k] + 1, ids[Cells(matrix)[k].vendor], Cutoff)
  {
    assert PlantCounts(plants[..]) == counts;
    var made := MakeEmployees(plants[..]);
    CellsInBlocks(matrix, |ids|, counts);
    var employees := new Employee[|made|](i requires 0 <= i < |made| => made[i]);
    AssignOrders(plants[..], vendors[..], employees, matrix);
    orders := OrdersOf(employees);
  }

  lemma RebuiltIsOriginal(rebuilt: array2<int>, matrix: seq<seq<int>>, vendors: nat)
    requires IsMatrix(matrix, vendors) && rebuilt.Length0 == |matrix| && rebuilt.Length1 == vendors
    requires forall p, m | 0 <= p < |matrix| && 0 <= m < vendors :: rebuilt[p, m] == matrix[p][m]
    ensures forall p | 0 <= p < |matrix| :: Row(rebuilt, p) == matrix[p]
    ensures forall m | 0 <= m < vendors :: Col(rebuilt, m) == Column(matrix, m)
  {
  }

  lemma LaidOutCells(counts: seq<int>, ids: seq<nat>, matrix: seq<seq<int>>, codes: seq<nat>, orders: seq<OrderRecord>)
    requires Distinct(ids) && IsMatrix(matrix, |ids|) && RowsMatch(matrix, counts)
    requires |codes| == |counts| && forall i | 0 <= i < |codes| :: codes[i] == i + 1
    requires |orders| == |Blocks(counts)| == |Cells(matrix)|
    requires forall k | 0 <= k < |orders| ::
               && Cells(matrix)[k].plant == Blocks(counts)[k] < |counts| && Cells(matrix)[k].vendor < |ids|
               && orders[k] == OrderRecord(k, Blocks(counts)[k] + 1, ids[Cells(matrix)[k].vendor], Cutoff)
    ensures OrderCells(codes, ids, orders) == Cells(matrix)
  {
    assert forall k | 0 <= k < |Cells(matrix)| :: NamesCell(codes, ids, orders[k], Cells(matrix)[k]);
    OrdersHaveTheirCells(codes, ids, orders, Cells(matrix));
  }

  // ---------------------------------------------------------------- any order of the rows

  /** Whether an order lies in the cell. */
  function HitFn(codes: seq<nat>, ids: seq<nat>, c: Cell): OrderRecord -> int {
    (o: OrderRecord) => if LastIndex(codes, o.plant) == Some(c.plant) && LastIndex(ids, o.vendor) == Some(c.vendor) then 1 else 0
  }

  lemma {:induction false} CountIsSum(codes: seq<nat>, ids: seq<nat>, orders: seq<OrderRecord>, c: Cell)
    ensures Count(OrderCells(codes, ids, orders), c) == SumBy(orders, HitFn(codes, ids, c))
  {
    if orders != [] {
      var init, o := orders[..|orders| - 1], orders[|orders| - 1];
      CountIsSum(codes, ids, init, c);
      var before, p, v := OrderCells(codes, ids, init), LastIndex(codes, o.plant), LastIndex(ids, o.vendor);
      if p.Some? && v.Some? { CountSnoc(before, Cell(p.value, v.value), c); } else { assert before + [] == before; }
    }
  }

  /** The cell counts do not depend on the order in which the rows come back. */
  lemma RowOrderIrrelevant(codes: seq<nat>, ids: seq<nat>, rows: seq<OrderRecord>, orders: seq<OrderRecord>, c: Cell)
    requires multiset(rows) == multiset(orders)
    ensures Count(OrderCells(codes, ids, rows), c) == Count(OrderCells(codes, ids, orders), c)
  {
    CountIsSum(codes, ids, rows, c);
    CountIsSum(codes, ids, orders, c);
    SumPermutation(rows, orders, HitFn(codes, ids, c));
  }

  lemma InsertedOnce<T>(xs: seq<T>, p: nat, x: T)
    requires p <= |xs|
    ensures multiset(xs[..p] + [x] + xs[p..]) == multiset(xs) + multiset{x}
  {
    assert xs == xs[..p] + xs[p..];
  }

  /** The cell counts of the rows are the entries of the matrix over which their orders were laid out. */
  lemma CountsBack(codes: seq<nat>, ids: seq<nat>, rows: seq<OrderRecord>, orders: seq<OrderRecord>, matrix: seq<seq<int>>)
    requires IsMatrix(matrix, |ids|) && OrderCells(codes, ids, orders) == Cells(matrix) && multiset(rows) == multiset(orders)
    ensures forall p, m | 0 <= p < |matrix| && 0 <= m < |ids| :: Count(OrderCells(codes, ids, rows), Cell(p, m)) == matrix[p][m]
  {
    forall p, m | 0 <= p < |matrix| && 0 <= m < |ids| ensures Count(OrderCells(codes, ids, rows), Cell(p, m)) == matrix[p][m] {
      RowOrderIrrelevant(codes, ids, rows, orders, Cell(p, m));
      CellsCount(matrix, |ids|, Cell(p, m));
    }
  }

  /** A query over the stored orders: all of them, in an arbitrary order. */
  method ReadBack(orders: seq<OrderRecord>) returns (rows: seq<OrderRecord>)
    ensures multiset(rows) == multiset(orders)
  {
    rows := [];
    for i := 0 to |orders|
      invariant multiset(rows) == multiset(orders[..i])
    {
      var p :| 0 <= p <= |rows|;
      PrefixSnoc(orders, i);
      InsertedOnce(rows, p, orders[i]);
      rows := rows[..p] + [orders[i]] + rows[p..];
    }
    assert orders[..|orders|] == orders;
  }

  /** Setup followed by a reload: whatever order the rows come back in, they bring back the matrix, the plant counts and the vendor totals. */
  method SetupAndReload(counts: seq<int>, ids: seq<nat>, matrix: seq<seq<int>>)
    returns (rebuilt: array2<int>, plants: array<Plant>, vendors: array<Vendor>, orders: seq<OrderRecord>, rows: seq<OrderRecord>)
    requires Distinct(ids) && IsMatrix(matrix, |ids|) && RowsMatch(matrix, counts)
    ensures |orders| == |Blocks(counts)| && multiset(rows) == multiset(orders)
    ensures forall k | 0 <= k < |orders| :: orders[k].plant == Blocks(counts)[k] + 1 && orders[k].vendor in ids
    ensures rebuilt.Length0 == plants.Length == |matrix| && rebuilt.Length1 == vendors.Length == |ids|
    ensures forall p, m | 0 <= p < |matrix| && 0 <= m < |ids| :: rebuilt[p, m] == matrix[p][m]
    ensures forall p | 0 <= p < |counts| :: plants[p] == Plant(p + 1, counts[p])
    ensures forall m | 0 <= m < |ids| :: vendors[m] == Vendor(ids[m], Sum(Column(matrix, m)))
  {
    plants := MakePlants(counts);
    vendors := MakeVendors(ids, matrix);
    orders := LayOut(counts, ids, matrix, plants, vendors);
    LaidOutCells(counts, ids, matrix, Codes(plants[..]), orders);
    rows := ReadBack(orders);
    rebuilt := Reload(plants, vendors, rows, orders, counts, ids, matrix);
  }

  /** The reload alone, of the orders that were laid out over a matrix, in any order. */
  method Reload(plants: array<Plant>, vendors: array<Vendor>, rows: seq<OrderRecord>, ghost orders: seq<OrderRecord>,
                ghost counts: seq<int>, ghost ids: seq<nat>, ghost matrix: seq<seq<int>>)
    returns (rebuilt: array2<int>)
    requires IsMatrix(matrix, |ids|) && RowsMatch(matrix, counts)
    requires plants.Length == |counts| && forall p | 0 <= p < |counts| :: plants[p].code == p + 1
    requires vendors.Length == |ids| && forall m | 0 <= m < |ids| :: vendors[m].id == ids[m]
    requires OrderCells(Codes(plants[..]), ids, orders) == Cells(matrix) && multiset(rows) == multiset(orders)
    modifies plants, vendors
    ensures rebuilt.Length0 == |matrix| && rebuilt.Length1 == |ids|
    ensures forall p, m | 0 <= p < |matrix| && 0 <= m < |ids| :: rebuilt[p, m] == matrix[p][m]
    ensures forall p | 0 <= p < |counts| :: plants[p] == Plant(p + 1, counts[p])
    ensures forall m | 0 <= m < |ids| :: vendors[m] == Vendor(ids[m], Sum(Column(matrix, m)))
  {
    assert Ids(vendors[..]) == ids;
    CountsBack(Codes(plants[..]), ids, rows, orders, matrix);
    rebuilt := RebuildMatrix(plants, vendors, rows);
    RebuiltIsOriginal(rebuilt, matrix, |ids|);
  }

  lemma {:induction false} BlocksLength(counts: seq<int>)
    requires NonNegative(counts)
    ensures |Blocks(counts)| == Sum(counts)
  {
    if counts != [] { BlocksLength(counts[..|counts| - 1]); }
  }

  /** The plants have the apportioned counts, and each row of the matrix is an apportionment of its plant's count. */
  ghost predicate Apportioned(employees: nat, plantWeights: seq<real>, vendorWeights: seq<seq<real>>,
                              plants: array<Plant>, matrix: array2<int>, counts: seq<int>)
    reads plants, matrix
  {
    && IsApportionment(employees, plantWeights, counts)
    && |counts| == plants.Length == matrix.Length0 == |vendorWeights|
    && (forall p | 0 <= p < |counts| :: 0 <= counts[p] && plants[p].count == counts[p])
    && (forall p | 0 <= p < |counts| :: IsApportionment(counts[p], vendorWeights[p], Row(matrix, p)))
  }

  /**
   * The whole scenario: apportion the employees over the plants and each plant over the vendors, place one order each,
   * and reload. Every employee orders once, in the plant that was apportioned to, and the reload sees the apportioned matrix.
   */
  method Scenario(employees: nat, plantWeights: seq<real>, vendorWeights: seq<seq<real>>, ids: seq<nat>)
    returns (orders: seq<OrderRecord>, rebuilt: array2<int>, plants: array<Plant>)
    requires plantWeights != [] && Positive(plantWeights) && |vendorWeights| == |plantWeights|
    requires ids != [] && Distinct(ids)
    requires forall p | 0 <= p < |vendorWeights| :: |vendorWeights[p]| == |ids| && Positive(vendorWeights[p])
    ensures |orders| == employees && plants.Length == rebuilt.Length0 == |plantWeights| && rebuilt.Length1 == |ids|
    ensures exists counts: seq<int> :: Apportioned(employees, plantWeights, vendorWeights, plants, rebuilt, counts)
  {
    var c := LargestRemainder(employees, plantWeights);
    var counts := c[..];
    CountsNonNegative(employees, plantWeights, counts);
    var pickup: seq<nat> := seq(|counts|, i requires 0 <= i < |counts| => counts[i]);
    var matrix := MerchantPickupMatrix(pickup, vendorWeights);
    ApportionedMatrix(counts, vendorWeights, |ids|, matrix);
    BlocksLength(counts);
    var vendors;
    var rows;
    rebuilt, plants, vendors, orders, rows := SetupAndReload(counts, ids, matrix);
    RebuiltRows(rebuilt, matrix);
    assert Apportioned(employees, plantWeights, vendorWeights, plants, rebuilt, counts);
  }

  lemma CountsNonNegative(total: nat, w: seq<real>, counts: seq<int>)
    requires IsApportionment(total, w, counts)
    ensures NonNegative(counts)
  {
  }

  lemma ApportionedMatrix(counts: seq<int>, weights: seq<seq<real>>, vendors: nat, matrix: seq<seq<int>>)
    requires NonNegative(counts) && |matrix| == |counts| == |weights|
    requires forall p | 0 <= p < |matrix| :: |weights[p]| == vendors && IsApportionment(counts[p], weights[p], matrix[p])
    ensures IsMatrix(matrix, vendors) && RowsMatch(matrix, counts)
  {
    forall p | 0 <= p < |matrix| ensures |matrix[p]| == vendors && NonNegative(matrix[p]) && Sum(matrix[p]) == counts[p] {
      CountsNonNegative(counts[p], weights[p], matrix[p]);
    }
  }

  lemma RebuiltRows(rebuilt: array2<int>, matrix: seq<seq<int>>)
    requires rebuilt.Length0 == |matrix| && forall p | 0 <= p < |matrix| :: |matrix[p]| == rebuilt.Length1
    requires forall p, m | 0 <= p < |matrix| && 0 <= m < rebuilt.Length1 :: rebuilt[p, m] == matrix[p][m]
    ensures forall p | 0 <= p < |matrix| :: Row(rebuilt, p) == matrix[p]
  {
  }
}
