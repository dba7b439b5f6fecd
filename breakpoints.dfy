/**
 * A breakpoint table of inclusive `(low, high, label)` rows and the
 * first-match search over it that `bucket_pm25` performs.
 */
module Breakpoints {

  datatype Row = Row(low: real, high: real, category: string)

  /** The label returned when no row contains the value. */
  const BEYOND_INDEX: string := "beyond index"

  /** `low <= x <= high`: both bounds are inclusive. */
  predicate InRow(row: Row, x: real) {
    row.low <= x <= row.high
  }

  /** Every row is a non-empty range and each row lies strictly above the rows before it. */
  predicate Ascending(table: seq<Row>) {
    && (forall i :: 0 <= i < |table| ==> table[i].low <= table[i].high)
    && (forall i, j :: 0 <= i < j < |table| ==> table[i].high < table[j].low)
  }

  /** The label of the first row containing `x`, or BEYOND_INDEX when none does. */
  function Classify(table: seq<Row>, x: real): (category: string)
    ensures category == BEYOND_INDEX || exists i :: 0 <= i < |table| && InRow(table[i], x) && category == table[i].category
  {
    if table == [] then BEYOND_INDEX
    else if InRow(table[0], x) then table[0].category
    else
      var rest := Classify(table[1..], x);
      assert rest != BEYOND_INDEX ==> exists i :: 1 <= i < |table| && InRow(table[i], x) && rest == table[i].category by {
        if rest != BEYOND_INDEX {
          var k :| 0 <= k < |table[1..]| && InRow(table[1..][k], x) && rest == table[1..][k].category;
          assert table[1..][k] == table[k + 1];
        }
      }
      rest
  }

  /** The search stops at the first row that contains the value. */
  lemma {:induction false} ClassifyFirstMatch(table: seq<Row>, x: real, i: int)
    requires 0 <= i < |table| && InRow(table[i], x)
    requires forall j :: 0 <= j < i ==> !InRow(table[j], x)
    ensures Classify(table, x) == table[i].category
  {
    if i > 0 {
      assert !InRow(table[0], x);
      forall j | 0 <= j < i - 1 ensures !InRow(table[1..][j], x) {
        assert table[1..][j] == table[j + 1];
      }
      ClassifyFirstMatch(table[1..], x, i - 1);
    }
  }

  /** A value that no row contains is reported as BEYOND_INDEX. */
  lemma {:induction false} ClassifyNoMatch(table: seq<Row>, x: real)
    requires forall i :: 0 <= i < |table| ==> !InRow(table[i], x)
    ensures Classify(table, x) == BEYOND_INDEX
  {
    if table != [] {
      assert !InRow(table[0], x);
      forall i | 0 <= i < |table[1..]| ensures !InRow(table[1..][i], x) {
        assert table[1..][i] == table[i + 1];
      }
      ClassifyNoMatch(table[1..], x);
    }
  }

  /**
   * In an ascending table at most one row contains a value, so the first
   * match is the only match: any row containing `x` gives the result.
   */
  lemma ClassifyUnique(table: seq<Row>, x: real, i: int)
    requires Ascending(table)
    requires 0 <= i < |table| && InRow(table[i], x)
    ensures Classify(table, x) == table[i].category
    ensures forall j :: 0 <= j < |table| && j != i ==> !InRow(table[j], x)
  {
    forall j | 0 <= j < |table| && j != i ensures !InRow(table[j], x) {
      if j < i {
        assert table[j].high < table[i].low;
      } else {
        assert table[i].high < table[j].low;
      }
    }
    ClassifyFirstMatch(table, x, i);
  }
}
