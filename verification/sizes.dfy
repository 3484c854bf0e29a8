/**
 `formatBytes`: the human-readable size next to every byte count. The unit is
 the largest power of 1024 not above the size; the decimal value printed in
 front of it is not modelled, so a rendering is "0 Bytes" or a unit name.
 */
module Sizes {

  const Units: seq<string> := ["Bytes", "KB", "MB", "GB"]

  function Pow(b: nat, e: nat): nat {
    if e == 0 then 1 else b * Pow(b, e - 1)
  }

  lemma {:induction false} PowMonotonic(e1: nat, e2: nat)
    requires e1 <= e2
    ensures Pow(1024, e1) <= Pow(1024, e2)
    decreases e2
  {
    if e1 < e2 {
      PowMonotonic(e1, e2 - 1);
    }
  }

  /** `Math.floor(Math.log(bytes) / Math.log(1024))`, in exact arithmetic: the exponent of the
      power of 1024 that brackets `bytes`. */
  function UnitIndex(bytes: nat): (i: nat)
    requires bytes > 0
    ensures Pow(1024, i) <= bytes < Pow(1024, i + 1)
  {
    if bytes < 1024 then 0
    else
      var i := 1 + UnitIndex(bytes / 1024);
      assert 1024 * (bytes / 1024) <= bytes < 1024 * (bytes / 1024 + 1);
      i
  }

  /** The chosen exponent is the largest `i` with `1024^i <= bytes`. */
  lemma UnitIndexIsLargest(bytes: nat, i: nat)
    requires bytes > 0
    ensures Pow(1024, i) <= bytes <==> i <= UnitIndex(bytes)
  {
    var u := UnitIndex(bytes);
    if i <= u {
      PowMonotonic(i, u);
    } else {
      PowMonotonic(u + 1, i);
    }
  }

  datatype HumanSize = ZeroBytes | Scaled(unit: string)

  /** `sizes[i]` as the source indexes it: past "GB" the array yields `undefined`,
      which the string concatenation prints as the word "undefined". */
  function FormatBytesAsWritten(bytes: nat): (h: HumanSize)
    ensures bytes == 0 <==> h == ZeroBytes
    ensures h == Scaled("undefined") <==> Pow(1024, |Units|) <= bytes
  {
    PowMonotonic(0, |Units|);
    if bytes == 0 then ZeroBytes
    else
      var i := UnitIndex(bytes);
      UnitIndexIsLargest(bytes, |Units|);
      Scaled(if i < |Units| then Units[i] else "undefined")
  }

  /** A file of one tebibyte is labelled with the unit "undefined". */
  lemma TebibyteUnitUndefined()
    ensures FormatBytesAsWritten(Pow(1024, 4)) == Scaled("undefined")
  {
    UnitIndexIsLargest(Pow(1024, 4), 4);
    UnitIndexIsLargest(Pow(1024, 4), 5);
  }

  /** `formatBytes` with the unit table's last entry serving every larger size:
      0 is "0 Bytes", any other size gets the unit of the largest power of 1024
      not above it, capped at "GB". */
  function FormatBytes(bytes: nat): (h: HumanSize)
    ensures bytes == 0 <==> h == ZeroBytes
    ensures h.Scaled? ==> h.unit in Units
    ensures forall i :: 0 <= i < |Units| && 0 < Pow(1024, i) <= bytes && (i == |Units| - 1 || bytes < Pow(1024, i + 1))
              ==> h == Scaled(Units[i])
  {
    if bytes == 0 then ZeroBytes
    else
      var i := UnitIndex(bytes);
      var k := if i < |Units| then i else |Units| - 1;
      assert forall j :: 0 <= j < |Units| && Pow(1024, j) <= bytes && (j == |Units| - 1 || bytes < Pow(1024, j + 1))
               ==> j == k by {
        forall j | 0 <= j < |Units| && Pow(1024, j) <= bytes && (j == |Units| - 1 || bytes < Pow(1024, j + 1))
          ensures j == k
        {
          UnitIndexIsLargest(bytes, j);
          if j < |Units| - 1 {
            UnitIndexIsLargest(bytes, j + 1);
          }
        }
      }
      Scaled(Units[k])
  }

  /** Below one tebibyte the corrected rendering is the source's. */
  lemma FormatBytesMatchesBelowTebibyte(bytes: nat)
    requires bytes < Pow(1024, 4)
    ensures FormatBytes(bytes) == FormatBytesAsWritten(bytes)
  {
    if bytes > 0 {
      UnitIndexIsLargest(bytes, 4);
    }
  }
}
