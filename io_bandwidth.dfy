/**
 * The row decoder `IOBandwidth(Object[])` and its bulk form `IOBandwidth.list`,
 * as far as their test fixes them: a row of D-Bus values decodes to a
 * (file path, bandwidth) record, and a malformed row raises the exception the
 * test expects.
 */
module IOBandwidths {
  import opened Wrappers

  /** D-Bus's `UInt64`: an unsigned 64-bit value. */
  type UInt64 = x: int | 0 <= x < 0x1_0000_0000_0000_0000

  /** An element of an `Object[]` row, by its runtime class. */
  datatype RowValue = StringValue(s: string) | UInt64Value(u: UInt64) | IntValue(i: Int32)

  /** The exception a malformed row raises. */
  datatype DecodeError = ArrayIndexOutOfBounds | ClassCast

  /** The decoded record; `bandwidth` is the `BigInteger` the getter returns. */
  datatype IOBandwidth = IOBandwidth(filePath: string, bandwidth: nat)

  /** A row is well formed: a string path followed by an unsigned 64-bit bandwidth. */
  predicate WellFormed(row: seq<RowValue>) {
    |row| >= 2 && row[0].StringValue? && row[1].UInt64Value?
  }

  /**
   * The `IOBandwidth(Object[])` constructor: element 0 is the path, element 1
   * the bandwidth; a missing element is an index error and an element of
   * another class a cast error, element 0 being examined before element 1.
   */
  function Decode(row: seq<RowValue>): (r: Result<IOBandwidth, DecodeError>)
    ensures r.Success? <==> WellFormed(row)
    ensures r.Success? ==> r.value.filePath == row[0].s && r.value.bandwidth == row[1].u
    ensures r.Success? ==> r.value.bandwidth < 0x1_0000_0000_0000_0000
    ensures (|row| == 0 || (|row| == 1 && row[0].StringValue?)) ==> r == Failure(ArrayIndexOutOfBounds)
    ensures |row| >= 2 && row[0].StringValue? && !row[1].UInt64Value? ==> r == Failure(ClassCast)
  {
    if |row| == 0 then Failure(ArrayIndexOutOfBounds)
    else if !row[0].StringValue? then Failure(ClassCast)
    else if |row| == 1 then Failure(ArrayIndexOutOfBounds)
    else if !row[1].UInt64Value? then Failure(ClassCast)
    else Success(IOBandwidth(row[0].s, row[1].u))
  }

  /**
   * `IOBandwidth.list`: the rows decoded in order, or the exception of the
   * first row that fails to decode.
   */
  function List(rows: seq<seq<RowValue>>): (r: Result<seq<IOBandwidth>, DecodeError>)
    ensures r.Success? ==> |r.value| == |rows|
    ensures r.Success? ==> forall i :: 0 <= i < |rows| ==> Decode(rows[i]) == Success(r.value[i])
    ensures r.Failure? ==> exists i :: 0 <= i < |rows| && Decode(rows[i]) == Failure(r.error) &&
                                       forall j :: 0 <= j < i ==> Decode(rows[j]).Success?
  {
    if rows == [] then Success([])
    else
      var head := Decode(rows[0]);
      if head.Failure? then Failure(head.error)
      else
        var tail := List(rows[1..]);
        if tail.Failure? then
          ghost var i :| 0 <= i < |rows[1..]| && Decode(rows[1..][i]) == Failure(tail.error) &&
                         forall j :: 0 <= j < i ==> Decode(rows[1..][j]).Success?;
          assert Decode(rows[i + 1]) == Failure(tail.error);
          Failure(tail.error)
        else
          Success([head.value] + tail.value)
  }

  /** `list` succeeds exactly when every row is well formed. */
  lemma ListSucceedsIff(rows: seq<seq<RowValue>>)
    ensures List(rows).Success? <==> forall i :: 0 <= i < |rows| ==> WellFormed(rows[i])
  {
  }

  /** `new IOBandwidth(new Object[] { "foo", new UInt64("23") })`. */
  lemma DecodeFooRow()
    ensures Decode([StringValue("foo"), UInt64Value(23)]) == Success(IOBandwidth("foo", 23))
  {
  }

  /** `new IOBandwidth(new Object[0])` raises an index error. */
  lemma DecodeEmptyRowFails()
    ensures Decode([]) == Failure(ArrayIndexOutOfBounds)
  {
  }

  /** The bulk tests: no rows, two good rows, an empty row, an `int` bandwidth. */
  lemma ListExamples()
    ensures List([]) == Success([])
    ensures List([[StringValue("foo"), UInt64Value(23)], [StringValue("bar"), UInt64Value(42)]]) ==
            Success([IOBandwidth("foo", 23), IOBandwidth("bar", 42)])
    ensures List([[]]) == Failure(ArrayIndexOutOfBounds)
    ensures List([[StringValue("foo"), IntValue(1)]]) == Failure(ClassCast)
  {
    var foo, bar := [StringValue("foo"), UInt64Value(23)], [StringValue("bar"), UInt64Value(42)];
    var rows := [foo, bar];
    assert rows[1..][1..] == [];
    assert List(rows[1..]).value == [IOBandwidth("bar", 42)];
    assert List(rows).value == [IOBandwidth("foo", 23), IOBandwidth("bar", 42)];
  }
}
