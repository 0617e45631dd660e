/**
 * Point clouds and the output directory they are written to, shared by the
 * reconstruction (parser.py, high_mem_parser.py) and the subplot splitter
 * (subparse.py).
 */
module Clouds {

  /** One row of a cloud: the columns X, Y, Z, RSSI, E. */
  datatype Point = Point(x: real, y: real, z: real, rssi: real, e: real)

  /** `data[mask]`: the points `keep` accepts, in their original order. */
  function Keep(data: seq<Point>, keep: Point -> bool): (r: seq<Point>)
    ensures |r| <= |data|
    ensures forall p :: p in r <==> p in data && keep(p)
    decreases |data|
  {
    if |data| == 0 then []
    else (if keep(data[0]) then [data[0]] else []) + Keep(data[1..], keep)
  }

  /** Boolean indexing works point by point: the rows kept from two stretches are those of each, in order. */
  lemma {:induction false} KeepAppend(a: seq<Point>, b: seq<Point>, keep: Point -> bool)
    ensures Keep(a + b, keep) == Keep(a, keep) + Keep(b, keep)
    decreases |a|
  {
    if |a| == 0 {
      assert a + b == b;
    } else {
      assert (a + b)[0] == a[0] && (a + b)[1..] == a[1..] + b;
      KeepAppend(a[1..], b, keep);
    }
  }

  /** One row is kept, once, exactly when the mask accepts it. */
  lemma KeepOne(p: Point, keep: Point -> bool)
    ensures Keep([p], keep) == if keep(p) then [p] else []
  {
    assert [p][1..] == [];
  }

  /** Nothing is kept by a mask that accepts nothing. */
  lemma {:induction false} KeepNothing(data: seq<Point>, keep: Point -> bool)
    requires forall p :: p in data ==> !keep(p)
    ensures Keep(data, keep) == []
    decreases |data|
  {
    if |data| > 0 {
      assert forall p :: p in data[1..] ==> p in data;
      KeepNothing(data[1..], keep);
    }
  }

  /** Two masks that agree on every point of `data` select the same rows. */
  lemma {:induction false} KeepSame(data: seq<Point>, f: Point -> bool, g: Point -> bool)
    requires forall p :: p in data ==> f(p) == g(p)
    ensures Keep(data, f) == Keep(data, g)
    decreases |data|
  {
    if |data| > 0 {
      assert forall p :: p in data[1..] ==> p in data;
      KeepSame(data[1..], f, g);
    }
  }

  /**
   * The output directory: the files that exist, each with the rows it holds.
   * `os.path.exists` is membership in `files`.
   */
  class OutputDir<K(==)> {
    var files: map<K, seq<Point>>

    constructor (files: map<K, seq<Point>>)
      ensures this.files == files
    {
      this.files := files;
    }

    /** Create the file `key` with `rows` (`DataFrame.to_csv`). */
    method Create(key: K, rows: seq<Point>)
      modifies this
      ensures files == old(files)[key := rows]
    {
      files := files[key := rows];
    }
  }
}
