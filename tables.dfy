/** The result tables of csv-processor: a header row, then one row per
    result, written into a slice allocated with one slot per row. */
module Tables {

  /** Fills the table by index, as CalculateLatency and CompareCount do:
      slot 0 gets the header and slot i + 1 the row of the i-th item. */
  method Tabulate<T>(header: seq<string>, items: seq<T>, row: T -> seq<string>) returns (rows: seq<seq<string>>)
    ensures |rows| == |items| + 1 && rows[0] == header
    ensures forall i :: 0 <= i < |items| ==> rows[i + 1] == row(items[i])
  {
    var results := new seq<string>[|items| + 1];
    results[0] := header;
    for i := 0 to |items|
      invariant results[0] == header
      invariant forall m :: 0 <= m < i ==> results[m + 1] == row(items[m])
    {
      results[i + 1] := row(items[i]);
    }
    rows := results[..];
  }
}
