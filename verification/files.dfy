/** Flat text files read as lines. Several of the repository's files are
    read into a Java HashSet, changed, and written back by joining the set,
    so the order of the written lines is the set's iteration order: the
    model leaves that order unspecified and speaks of the set of lines. */
module Files {

  /** The lines of a file, as a set. */
  function Elems<T>(lines: seq<T>): set<T> {
    set x | x in lines
  }

  /** No line occurs twice (what joining a set produces). */
  predicate NoDup<T(==)>(lines: seq<T>) {
    forall i, j :: 0 <= i < j < |lines| ==> lines[i] != lines[j]
  }

  /** `String.join("\n", set)`: every element of the set once, in an order
      the model does not fix. */
  method ToLines<T(==)>(s: set<T>) returns (lines: seq<T>)
    ensures Elems(lines) == s
    ensures NoDup(lines)
  {
    lines := [];
    var rest := s;
    while rest != {}
      invariant Elems(lines) + rest == s
      invariant Elems(lines) !! rest
      invariant NoDup(lines)
      decreases |rest|
    {
      var x :| x in rest;
      lines := lines + [x];
      rest := rest - {x};
    }
  }

  /** addLineToFile: a missing file is created holding the one new line;
      an existing file is read as a set of lines, the line is added, and
      the set is written back (duplicates vanish, order is lost). */
  method AddLineToFile<T(==)>(present: bool, lines: seq<T>, newLine: T) returns (written: seq<T>)
    ensures !present ==> written == [newLine]
    ensures present ==> Elems(written) == Elems(lines) + {newLine} && NoDup(written)
  {
    if !present {
      written := [newLine];
    } else {
      var updated := Elems(lines);
      updated := updated + {newLine};
      written := ToLines(updated);
    }
  }

  /** The values of a map joined into the lines of a file, in the map's
      (unmodelled) order: `String.join("\n", map.values())`. */
  method ValueLines<K(==), V(==)>(m: map<K, V>) returns (lines: seq<V>)
    ensures Elems(lines) == m.Values
  {
    lines := [];
    var rest := m.Keys;
    while rest != {}
      invariant rest <= m.Keys
      invariant Elems(lines) == set k | k in m.Keys && k !in rest :: m[k]
      decreases |rest|
    {
      var k :| k in rest;
      ghost var before := set j | j in m.Keys && j !in rest :: m[j];
      ghost var after := set j | j in m.Keys && j !in rest - {k} :: m[j];
      assert after == before + {m[k]};
      assert Elems(lines + [m[k]]) == Elems(lines) + {m[k]};
      lines := lines + [m[k]];
      rest := rest - {k};
    }
    assert m.Values == set k | k in m.Keys :: m[k];
  }
}
