/**
 * Scalar values and semi-structured records, as the song catalogue and the
 * activity log hold them once parsed. A dataframe row carries every column of
 * its schema, null where the record lacks the field; here a field the map
 * lacks reads as null, so a record and its explicitly-null variant are the
 * same row.
 */
module Records {

  /** A scalar field value: a string, an integral or fractional number, or null. */
  datatype Value = Null | Str(s: string) | Int(i: int) | Real(r: real)

  type Record = map<string, Value>

  /** The value of a column in a record; a missing field is null. */
  function Get(rec: Record, field: string): Value
  {
    if field in rec then rec[field] else Null
  }

  /**
   * SQL `=` as a filter or a join condition uses it: a comparison that
   * involves null is never true.
   */
  predicate SqlEq(a: Value, b: Value)
  {
    a != Null && b != Null && a == b
  }

  /** A record is canonical when it stores no null: absence is its only null. */
  predicate Canonical(rec: Record)
  {
    Null !in rec.Values
  }

  /** The canonical form of a record: the same row with its null fields dropped. */
  function Normalize(rec: Record): (n: Record)
    ensures Canonical(n)
    ensures forall f :: Get(n, f) == Get(rec, f)
  {
    map f | f in rec && rec[f] != Null :: rec[f]
  }

  /**
   * `withColumn`: the row with one column set (added, or replaced when the
   * column exists). A null value is stored as an absent field, so canonical
   * rows stay canonical.
   */
  function WithColumn(rec: Record, field: string, v: Value): (r: Record)
    ensures Get(r, field) == v
    ensures forall f :: f != field ==> Get(r, f) == Get(rec, f)
    ensures Canonical(rec) ==> Canonical(r)
  {
    if v == Null then rec - {field} else rec[field := v]
  }

  /**
   * Two canonical records are equal exactly when they agree on every column:
   * map equality is row equality.
   */
  lemma CanonicalEquality(a: Record, b: Record)
    requires Canonical(a) && Canonical(b)
    ensures a == b <==> forall f :: Get(a, f) == Get(b, f)
  {
    if forall f :: Get(a, f) == Get(b, f) {
      forall f | f in a
        ensures f in b && b[f] == a[f]
      {
        assert a[f] in a.Values;
        assert Get(a, f) == Get(b, f);
      }
      forall f | f in b
        ensures f in a
      {
        assert b[f] in b.Values;
        assert Get(a, f) == Get(b, f);
      }
      assert a.Keys == b.Keys;
    }
  }
}
