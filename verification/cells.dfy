/**
 * The part of the cell library that the wallet code relies on: immutable cells,
 * a builder that appends (and once prepends) bits and references under the cell
 * capacity, and a slice that reads typed fields off a cell with a cursor.
 */
module Cells {
  import opened Bits

  /** A cell holds at most 1023 data bits and at most 4 references. */
  const MaxBits := 1023
  const MaxRefs := 4

  datatype Cell = Cell(bits: seq<bool>, refs: seq<Cell>)

  predicate Fits(c: Cell) {
    |c.bits| <= MaxBits && |c.refs| <= MaxRefs
  }

  /** The failures of building, reading and assembling. */
  datatype Error =
    | CapacityExceeded   // more than MaxBits data bits
    | BufferTooShort     // fewer source bytes than the bit count asked for
    | TooManyReferences  // more than MaxRefs references at finalization
    | UnexpectedEnd      // a read past the remaining bits
    | TooManyGifts       // the wallet's gift-count guard

  /*
   * `:-` calls PropagateFailure only on a failure; it is written as a total
   * match so that the call carries no proof obligation of its own.
   */
  datatype Result<+T> = Success(value: T) | Failure(error: Error) {
    predicate IsFailure() {
      Failure?
    }

    function PropagateFailure<U>(): Result<U> {
      match this
      case Failure(e) => Failure(e)
      case Success(_) => Failure(UnexpectedEnd)  // never taken: `:-` propagates failures only
    }

    function Extract(): T
      requires Success?
    {
      value
    }
  }

  datatype Outcome = Pass | Fail(error: Error) {
    predicate IsFailure() {
      Fail?
    }

    function PropagateFailure<U>(): Result<U> {
      match this
      case Fail(e) => Failure(e)
      case Pass => Failure(CapacityExceeded)  // never taken: `:-` propagates failures only
    }
  }

  /** A cell under construction. */
  class Builder {
    var bits: seq<bool>
    var refs: seq<Cell>

    ghost predicate Valid()
      reads this
    {
      |bits| <= MaxBits
    }

    constructor ()
      ensures Valid() && bits == [] && refs == []
    {
      bits := [];
      refs := [];
    }

    /** Appends the first `bitLen` bits of `data`. */
    method AppendRaw(data: seq<byte>, bitLen: nat) returns (r: Outcome)
      requires Valid()
      modifies this
      ensures Valid() && refs == old(refs)
      ensures 8 * |data| < bitLen ==> r == Fail(BufferTooShort) && bits == old(bits)
      ensures 8 * |data| >= bitLen && |old(bits)| + bitLen > MaxBits ==>
                r == Fail(CapacityExceeded) && bits == old(bits)
      ensures 8 * |data| >= bitLen && |old(bits)| + bitLen <= MaxBits ==>
                r == Pass && bits == old(bits) + BitsOfBytes(data)[..bitLen]
    {
      if 8 * |data| < bitLen {
        r := Fail(BufferTooShort);
      } else if |bits| + bitLen > MaxBits {
        r := Fail(CapacityExceeded);
      } else {
        bits := bits + BitsOfBytes(data)[..bitLen];
        r := Pass;
      }
    }

    /** Appends a 32-bit unsigned integer, most significant bit first. */
    method AppendU32(v: u32) returns (r: Outcome)
      requires Valid()
      modifies this
      ensures Valid() && refs == old(refs)
      ensures |old(bits)| + 32 > MaxBits ==> r == Fail(CapacityExceeded) && bits == old(bits)
      ensures |old(bits)| + 32 <= MaxBits ==> r == Pass && bits == old(bits) + BitsOfUint(v, 32)
    {
      if |bits| + 32 > MaxBits {
        r := Fail(CapacityExceeded);
      } else {
        bits := bits + BitsOfUint(v, 32);
        r := Pass;
      }
    }

    /** Appends an 8-bit unsigned integer, most significant bit first. */
    method AppendU8(v: byte) returns (r: Outcome)
      requires Valid()
      modifies this
      ensures Valid() && refs == old(refs)
      ensures |old(bits)| + 8 > MaxBits ==> r == Fail(CapacityExceeded) && bits == old(bits)
      ensures |old(bits)| + 8 <= MaxBits ==> r == Pass && bits == old(bits) + BitsOfUint(v, 8)
    {
      if |bits| + 8 > MaxBits {
        r := Fail(CapacityExceeded);
      } else {
        bits := bits + BitsOfUint(v, 8);
        r := Pass;
      }
    }

    /** Adds a reference to an already finished cell; the count is checked by IntoCell. */
    method AppendReference(c: Cell)
      requires Valid()
      modifies this
      ensures Valid() && bits == old(bits) && refs == old(refs) + [c]
    {
      refs := refs + [c];
    }

    /** Inserts the first `bitLen` bits of `data` in front of the bits already present. */
    method PrependRaw(data: seq<byte>, bitLen: nat) returns (r: Outcome)
      requires Valid()
      modifies this
      ensures Valid() && refs == old(refs)
      ensures 8 * |data| < bitLen ==> r == Fail(BufferTooShort) && bits == old(bits)
      ensures 8 * |data| >= bitLen && |old(bits)| + bitLen > MaxBits ==>
                r == Fail(CapacityExceeded) && bits == old(bits)
      ensures 8 * |data| >= bitLen && |old(bits)| + bitLen <= MaxBits ==>
                r == Pass && bits == BitsOfBytes(data)[..bitLen] + old(bits)
    {
      if 8 * |data| < bitLen {
        r := Fail(BufferTooShort);
      } else if bitLen + |bits| > MaxBits {
        r := Fail(CapacityExceeded);
      } else {
        bits := BitsOfBytes(data)[..bitLen] + bits;
        r := Pass;
      }
    }

    /**
     * Finalizes a copy of the builder's contents into a cell; the builder
     * itself is left as it is, so it can be extended and finalized again.
     */
    method IntoCell() returns (r: Result<Cell>)
      requires Valid()
      ensures |refs| <= MaxRefs ==> r == Success(Cell(bits, refs)) && Fits(r.value)
      ensures |refs| > MaxRefs ==> r == Failure(TooManyReferences)
    {
      if |refs| > MaxRefs {
        r := Failure(TooManyReferences);
      } else {
        r := Success(Cell(bits, refs));
      }
    }
  }

  /** A read cursor over the data bits of a cell. */
  class Slice {
    const cell: Cell
    var pos: nat

    ghost predicate Valid()
      reads this
    {
      pos <= |cell.bits|
    }

    /** The bits not yet read. */
    function Remaining(): seq<bool>
      reads this
      requires Valid()
    {
      cell.bits[pos..]
    }

    constructor (c: Cell)
      ensures Valid() && cell == c && pos == 0 && Remaining() == c.bits
    {
      cell := c;
      pos := 0;
    }

    /** Reads a 32-bit unsigned integer, most significant bit first. */
    method GetNextU32() returns (r: Result<u32>)
      requires Valid()
      modifies this
      ensures Valid()
      ensures |old(Remaining())| < 32 ==> r == Failure(UnexpectedEnd) && pos == old(pos)
      ensures |old(Remaining())| >= 32 ==>
                r.Success? && BitsOfUint(r.value, 32) == old(Remaining())[..32] &&
                pos == old(pos) + 32 && Remaining() == old(Remaining())[32..]
    {
      if |cell.bits| - pos < 32 {
        r := Failure(UnexpectedEnd);
      } else {
        r := Success(U32OfBits(cell.bits[pos..pos + 32]));
        pos := pos + 32;
      }
    }

    /** Reads `n` whole bytes. */
    method GetNextBytes(n: nat) returns (r: Result<seq<byte>>)
      requires Valid()
      modifies this
      ensures Valid()
      ensures |old(Remaining())| < 8 * n ==> r == Failure(UnexpectedEnd) && pos == old(pos)
      ensures |old(Remaining())| >= 8 * n ==>
                r.Success? && |r.value| == n && BitsOfBytes(r.value) == old(Remaining())[..8 * n] &&
                pos == old(pos) + 8 * n && Remaining() == old(Remaining())[8 * n..]
    {
      if |cell.bits| - pos < 8 * n {
        r := Failure(UnexpectedEnd);
      } else {
        var taken := cell.bits[pos..pos + 8 * n];
        BitsRoundTrip(taken);
        r := Success(BytesOfBits(taken));
        pos := pos + 8 * n;
      }
    }
  }
}
