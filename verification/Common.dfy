/** Shared vocabulary. Identifiers (UUIDs, org and tool names) are modelled as numbers. */
module Common {

  datatype Option<+T> = None | Some(value: T)

  /** The error is the message the source raises. */
  datatype Result<+T> = Ok(value: T) | Err(error: string)

  type Id = nat

  /** Timestamps and durations are counted in microseconds. */
  const SECOND := 1_000_000
  const DAY := 86_400 * SECOND

  function Max(a: int, b: int): int {
    if a > b then a else b
  }

  function Min(a: int, b: int): int {
    if a < b then a else b
  }
}

/** Powers, products and quotients. */
module Arithmetic {

  function Pow2(e: nat): (p: nat)
    ensures p >= 1
  {
    if e == 0 then 1 else 2 * Pow2(e - 1)
  }

  lemma TimesGrows(a: int, b: int, m: int)
    requires a <= b && m >= 0
    ensures a * m <= b * m
  {
  }

  lemma DivisionIsUnique(x: int, m: int, q: int, r: int)
    requires m > 0 && x == q * m + r && 0 <= r < m
    ensures x / m == q && x % m == r
  {
    var d := x / m - q;
    assert d * m == r - x % m;
    if d > 0 {
      TimesGrows(1, d, m);
    } else if d < 0 {
      TimesGrows(d, -1, m);
    }
  }
}

/** Sizes of finite sets. */
module Sets {

  lemma {:induction false} SubsetSize<T>(small: set<T>, big: set<T>)
    requires small <= big
    ensures |small| <= |big|
    decreases |small|
  {
    if small != {} {
      var x :| x in small;
      SubsetSize(small - {x}, big - {x});
    }
  }
}

/** Totals of a column over a table, where a table is a finite map. */
module Totals {

  /** The rows of a table with the given keys. */
  function Keep<K, V>(table: map<K, V>, keys: set<K>): (rows: map<K, V>)
    ensures rows.Keys == table.Keys * keys
    ensures forall k :: k in rows ==> rows[k] == table[k]
  {
    table - (table.Keys - keys)
  }

  ghost function Total<K, V>(table: map<K, V>, f: V -> int): int
    decreases |table|
  {
    if table == map[] then 0
    else
      var k :| k in table;
      f(table[k]) + Total(table - {k}, f)
  }

  lemma {:induction false} TotalSplit<K, V>(table: map<K, V>, f: V -> int, k: K)
    requires k in table
    ensures Total(table, f) == f(table[k]) + Total(table - {k}, f)
    decreases |table|
  {
    var j :| j in table && Total(table, f) == f(table[j]) + Total(table - {j}, f);
    if j != k {
      TotalSplit(table - {j}, f, k);
      TotalSplit(table - {k}, f, j);
      assert table - {j} - {k} == table - {k} - {j};
    }
  }

  /** Writing one row moves the total by the difference of its values. */
  lemma TotalUpdate<K, V>(table: map<K, V>, f: V -> int, k: K, v: V)
    ensures Total(table[k := v], f) == Total(table, f) - (if k in table then f(table[k]) else 0) + f(v)
  {
    TotalSplit(table[k := v], f, k);
    assert table[k := v] - {k} == table - {k};
    if k in table {
      TotalSplit(table, f, k);
    } else {
      assert table - {k} == table;
    }
  }

  /** A column that is smaller in every row has the smaller total. */
  lemma {:induction false} TotalMonotone<K, V>(table: map<K, V>, f: V -> int, g: V -> int)
    requires forall k :: k in table ==> f(table[k]) <= g(table[k])
    ensures Total(table, f) <= Total(table, g)
    decreases |table|
  {
    if table != map[] {
      var k :| k in table;
      TotalSplit(table, f, k);
      TotalSplit(table, g, k);
      TotalMonotone(table - {k}, f, g);
    }
  }

  /** Tables with the same keys and column values have the same total. */
  lemma {:induction false} TotalCongruent<K, V>(a: map<K, V>, b: map<K, V>, f: V -> int)
    requires a.Keys == b.Keys && forall k :: k in a ==> f(a[k]) == f(b[k])
    ensures Total(a, f) == Total(b, f)
    decreases |a|
  {
    if a != map[] {
      var k :| k in a;
      TotalSplit(a, f, k);
      TotalSplit(b, f, k);
      TotalCongruent(a - {k}, b - {k}, f);
    } else {
      assert b == map[];
    }
  }

  /** A sum over a table, one row after another. */
  method Sum<K(==), V>(table: map<K, V>, f: V -> int) returns (total: int)
    ensures total == Total(table, f)
  {
    total := 0;
    var rest := table;
    while rest != map[]
      invariant total + Total(rest, f) == Total(table, f)
      decreases |rest|
    {
      var k :| k in rest;
      TotalSplit(rest, f, k);
      total := total + f(rest[k]);
      rest := rest - {k};
    }
  }
}
