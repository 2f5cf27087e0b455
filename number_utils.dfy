/** Conversion of a byte count into a memory unit (src/utils/number.utils.ts). */
module NumberUtils {
  import opened Wrappers
  import opened Js
  import opened Config

  /** Math.pow(2, 10). */
  const BYTES_IN_KB: real := 1024.0

  function ConversionError(to: string): string {
    "Could not convert bytes to " + to + "!"
  }

  /** convertFromBytes: B is returned as is; otherwise Object.values(MemoryUnit)
      is searched from index 1 and the byte count divided by 1024^index; an
      unknown unit name throws. */
  function ConvertFromBytes(bytes: real, to: string): (r: Result<real>)
    ensures forall u :: UnitName(u) == to ==> r == Success(bytes / Pow(BYTES_IN_KB, UnitIndex(u)))
    ensures (forall u :: UnitName(u) != to) ==> r == Failure(ConversionError(to))
  {
    if to == UnitName(B) then
      assert forall u :: UnitName(u) == to ==> u == B by {
        forall u | UnitName(u) == to ensures u == B {
          UnitNameInjective(u, B);
        }
      }
      Success(bytes)
    else SearchUnits(bytes, to, 1)
  }

  /** The loop of convertFromBytes, from index i on. */
  function SearchUnits(bytes: real, to: string, i: nat): (r: Result<real>)
    requires 1 <= i <= |Units|
    requires forall u :: UnitName(u) == to ==> i <= UnitIndex(u)
    ensures forall u :: UnitName(u) == to ==> r == Success(bytes / Pow(BYTES_IN_KB, UnitIndex(u)))
    ensures (forall u :: UnitName(u) != to) ==> r == Failure(ConversionError(to))
    decreases |Units| - i
  {
    if i == |Units| then Failure(ConversionError(to))
    else if UnitName(Units[i]) == to then
      assert forall u :: UnitName(u) == to ==> u == Units[i] by {
        forall u | UnitName(u) == to ensures u == Units[i] {
          UnitNameInjective(u, Units[i]);
        }
      }
      Success(bytes / Pow(BYTES_IN_KB, i))
    else
      assert forall u :: UnitName(u) == to ==> i + 1 <= UnitIndex(u) by {
        forall u | UnitName(u) == to ensures i + 1 <= UnitIndex(u) {
          assert Units[UnitIndex(u)] == u;
        }
      }
      SearchUnits(bytes, to, i + 1)
  }

  /** The divisor for a unit: 1, 1024, 1024^2, 1024^3. */
  function Divisor(u: MemoryUnit): (d: real)
    ensures d >= 1.0
  {
    Pow(BYTES_IN_KB, UnitIndex(u))
  }

  /** Every enum member converts; the result is bytes / 1024^index. */
  lemma ConvertKnownUnit(bytes: real, u: MemoryUnit)
    ensures ConvertFromBytes(bytes, UnitName(u)).Success?
    ensures ConvertFromBytes(bytes, UnitName(u)).value * Divisor(u) == bytes
  {
  }

  /** For a fixed unit the conversion is order-preserving. */
  lemma ConvertMonotone(a: real, b: real, u: MemoryUnit)
    requires a <= b
    ensures ConvertFromBytes(a, UnitName(u)).value <= ConvertFromBytes(b, UnitName(u)).value
  {
    var d := Divisor(u);
    assert a / d <= b / d by {
      assert (b - a) / d >= 0.0;
    }
  }

  /** Comparing the converted value with a threshold is comparing bytes with
      the threshold scaled back to bytes. */
  lemma ConvertedAtLeastIff(bytes: real, u: MemoryUnit, threshold: real)
    ensures ConvertFromBytes(bytes, UnitName(u)).value >= threshold <==> bytes >= threshold * Divisor(u)
  {
    var d := Divisor(u);
    var c := bytes / d;
    assert c * d == bytes;
    if c >= threshold {
      assert c * d >= threshold * d;
    } else {
      assert c * d < threshold * d;
    }
  }

  /** The worked values that the conversion is expected to produce. */
  lemma ConversionExamples()
    ensures ConvertFromBytes(10.0, "B") == Success(10.0)
    ensures ConvertFromBytes(1000.0, "B") == Success(1000.0)
    ensures ConvertFromBytes(1000.0, "KB") == Success(0.9765625)
    ensures ConvertFromBytes(3000.0, "KB") == Success(2.9296875)
    ensures ConvertFromBytes(1000000.0, "MB") == Success(0.95367431640625)
    ensures ConvertFromBytes(1500000.0, "MB") == Success(1.430511474609375)
    ensures ConvertFromBytes(1000000000.0, "GB") == Success(0.931322574615478515625)
    ensures ConvertFromBytes(1500000000.0, "GB") == Success(1.3969838619232177734375)
    ensures ConvertFromBytes(100.0, "abc") == Failure("Could not convert bytes to abc!")
  {
    assert UnitName(B) == "B" && UnitName(KB) == "KB" && UnitName(MB) == "MB" && UnitName(GB) == "GB";
    assert Pow(BYTES_IN_KB, 1) == 1024.0;
    assert Pow(BYTES_IN_KB, 2) == 1048576.0;
    assert Pow(BYTES_IN_KB, 3) == 1073741824.0;
    forall u ensures UnitName(u) != "abc" { }
  }
}
