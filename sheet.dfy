/** The worksheet an export writes: a sparse map from (row, column) to what was written there.
    All three exports write their cells in row-major order, so while an export runs the worksheet
    holds exactly the cells of its final layout that come before the current write position. */
module Sheet {
  import opened Wrappers

  /** A value written into a cell: text, a number or a boolean (Python's `False` written as is). */
  datatype Cell = Text(s: string) | Num(v: real) | Boolean(b: bool)

  type Grid<V> = map<(nat, nat), V>

  function Get<V>(g: Grid<V>, r: nat, c: nat): Option<V>
  {
    if (r, c) in g then Some(g[(r, c)]) else None
  }

  /** (r, c) precedes (row, col) in row-major order. */
  predicate Before(r: nat, c: nat, row: nat, col: nat)
  {
    r < row || (r == row && c < col)
  }

  /** `g` holds exactly those cells of the layout `spec` that precede (row, col). */
  ghost predicate WrittenUpTo<V>(g: Grid<V>, spec: (nat, nat) -> Option<V>, row: nat, col: nat)
  {
    forall r: nat, c: nat {:trigger Get(g, r, c)} :: Get(g, r, c) == if Before(r, c, row, col) then spec(r, c) else None
  }

  lemma Empty<V>(spec: (nat, nat) -> Option<V>)
    ensures WrittenUpTo(map[], spec, 0, 0)
  {
  }

  /** `worksheet.write(row, col, v)`: the next cell of the layout is written. */
  method Write<V>(g: Grid<V>, ghost spec: (nat, nat) -> Option<V>, row: nat, col: nat, v: V) returns (g': Grid<V>)
    requires WrittenUpTo(g, spec, row, col)
    requires spec(row, col) == Some(v)
    ensures g' == g[(row, col) := v]
    ensures WrittenUpTo(g', spec, row, col + 1)
  {
    g' := g[(row, col) := v];
    forall r: nat, c: nat ensures Get(g', r, c) == if Before(r, c, row, col + 1) then spec(r, c) else None {
      if (r, c) != (row, col) {
        assert Get(g', r, c) == Get(g, r, c);
      }
    }
  }

  /** Cells `col .. to - 1` of the row are empty in the layout, so the writer may skip them. */
  lemma Skip<V>(g: Grid<V>, spec: (nat, nat) -> Option<V>, row: nat, col: nat, to: nat)
    requires WrittenUpTo(g, spec, row, col) && col <= to
    requires forall c: nat :: col <= c < to ==> spec(row, c) == None
    ensures WrittenUpTo(g, spec, row, to)
  {
  }

  /** Moving to the next row: the rest of the current row is empty in the layout. */
  lemma NextRow<V>(g: Grid<V>, spec: (nat, nat) -> Option<V>, row: nat, col: nat)
    requires WrittenUpTo(g, spec, row, col)
    requires forall c: nat :: col <= c ==> spec(row, c) == None
    ensures WrittenUpTo(g, spec, row + 1, 0)
  {
  }

  /** Once every later row of the layout is empty, the worksheet is the whole layout. */
  lemma Finished<V>(g: Grid<V>, spec: (nat, nat) -> Option<V>, row: nat)
    requires WrittenUpTo(g, spec, row, 0)
    requires forall r: nat, c: nat :: row <= r ==> spec(r, c) == None
    ensures forall r: nat, c: nat :: Get(g, r, c) == spec(r, c)
  {
  }
}
