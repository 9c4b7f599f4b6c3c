/** The bounded contiguous byte buffer: a FIFO of bytes over storage that never keeps stale data. */
module Buffers {
  import opened Base

  const MAX_CAPACITY: nat := 67_108_864

  /** The capacity a growing reservation settles on. */
  function GrownCapacity(capacity: nat, required: nat): (next: nat)
    requires 0 < capacity <= MAX_CAPACITY && capacity < required <= MAX_CAPACITY
    ensures required <= next <= MAX_CAPACITY
    ensures next == required || next == MAX_CAPACITY || next == 2 * capacity
  {
    var doubled := if capacity <= MAX_CAPACITY / 2 then capacity * 2 else MAX_CAPACITY;
    if doubled < required then required else doubled
  }

  class Buffer {
    var data: array<byte>
    var readIndex: nat
    var writeIndex: nat
    /** High-water mark: positions at or above it were never written in the current storage. */
    ghost var used: nat

    ghost predicate Valid()
      reads this, data
    {
      && 0 < data.Length <= MAX_CAPACITY
      && readIndex <= writeIndex <= used <= data.Length
      && forall i :: 0 <= i < used && !(readIndex <= i < writeIndex) ==> data[i] == 0
    }

    /** The abstract value: the bytes not yet consumed, oldest first. */
    ghost function Contents(): (s: seq<byte>)
      requires Valid()
      reads this, data
      ensures |s| == writeIndex - readIndex
    {
      data[readIndex..writeIndex]
    }

    constructor (capacity: nat)
      requires 0 < capacity <= MAX_CAPACITY
      ensures Valid() && fresh(data)
      ensures data.Length == capacity && Contents() == [] && used == 0
    {
      data := new byte[capacity];
      readIndex, writeIndex, used := 0, 0, 0;
    }

    method Append(bytes: seq<byte>) returns (code: Code)
      requires Valid() && |bytes| <= SIZE_MAX
      modifies this, data
      ensures Valid() && data == old(data)
      ensures code == if |bytes| > SIZE_MAX - old(writeIndex) then Overflow
                      else if |bytes| > data.Length - old(writeIndex) then Range else Ok
      ensures code == Ok ==> Contents() == old(Contents()) + bytes && readIndex == old(readIndex)
      ensures code != Ok ==> unchanged(this) && unchanged(data)
    {
      if |bytes| > SIZE_MAX - writeIndex { return Overflow; }
      code := CheckedRange(writeIndex, |bytes|, data.Length);
      if code != Ok { return; }
      forall i | 0 <= i < |bytes| { data[writeIndex + i] := bytes[i]; }
      writeIndex := writeIndex + |bytes|;
      used := if used < writeIndex then writeIndex else used;
      assert data[readIndex..writeIndex] == old(data[readIndex..writeIndex]) + bytes;
    }

    /** Consumed bytes are wiped before the index moves past them. */
    method Consume(size: nat) returns (code: Code)
      requires Valid()
      modifies this, data
      ensures Valid() && data == old(data) && used == old(used)
      ensures code == if size <= |old(Contents())| then Ok else Range
      ensures code == Ok ==> Contents() == old(Contents())[size..]
      ensures code == Ok && Contents() == [] ==> readIndex == 0 && writeIndex == 0
      ensures code != Ok ==> unchanged(this) && unchanged(data)
    {
      code := CheckedRange(readIndex, size, writeIndex);
      if code != Ok { return; }
      forall i | readIndex <= i < readIndex + size { data[i] := 0; }
      readIndex := readIndex + size;
      assert data[readIndex..writeIndex] == old(data[readIndex..writeIndex])[size..];
      if readIndex == writeIndex { readIndex, writeIndex := 0, 0; }
    }

    /** Moves the live bytes to the front (source and target may overlap) and wipes the vacated tail. */
    method Compact()
      requires Valid()
      modifies this, data
      ensures Valid() && data == old(data) && used == old(used)
      ensures Contents() == old(Contents())
      ensures readIndex == 0 && data.Length - writeIndex == data.Length - |Contents()|
    {
      var readable := writeIndex - readIndex;
      if readable != 0 && readIndex != 0 {
        forall i | 0 <= i < readable { data[i] := data[readIndex + i]; }
      }
      forall i | readable <= i < writeIndex { data[i] := 0; }
      assert forall i :: 0 <= i < readable ==> data[i] == old(data[readIndex + i]);
      readIndex, writeIndex := 0, readable;
      assert data[readIndex..writeIndex] == old(data[readIndex..writeIndex]);
    }

    /** Hands the live bytes over to fresh storage; the storage left behind is all zero. */
    method ReplaceStorage(capacity: nat, memory: bool) returns (code: Code)
      requires Valid()
      requires 0 < capacity <= MAX_CAPACITY && |Contents()| <= capacity
      modifies this, data
      ensures Valid()
      ensures code == if memory then Ok else NoMemory
      ensures code == Ok ==>
                && fresh(data) && data.Length == capacity && Contents() == old(Contents())
                && readIndex == 0 && used == |Contents()|
                && forall i :: 0 <= i < old(data).Length ==> old(data)[i] == 0
      ensures code != Ok ==> unchanged(this) && unchanged(data)
    {
      var readable := writeIndex - readIndex;
      if !memory { return NoMemory; }
      var candidate := new byte[capacity];
      forall i | 0 <= i < readable { candidate[i] := data[readIndex + i]; }
      assert candidate[0..readable] == data[readIndex..writeIndex];
      var oldData := data;
      data := candidate;
      readIndex, writeIndex, used := 0, readable, readable;
      forall i | 0 <= i < oldData.Length { oldData[i] := 0; }
      return Ok;
    }

    /** On success the tail has room for `minTail` more bytes without the capacity passing the hard cap. */
    method Reserve(minTail: nat, memory: bool) returns (code: Code)
      requires Valid() && minTail <= SIZE_MAX
      modifies this, data
      ensures Valid()
      ensures code == if |old(Contents())| + minTail > SIZE_MAX then Overflow
                      else if |old(Contents())| + minTail > MAX_CAPACITY then Range
                      else if !memory && |old(Contents())| + minTail > old(data.Length) then NoMemory
                      else Ok
      ensures Contents() == old(Contents())
      ensures code == Ok ==> minTail <= data.Length - writeIndex && data.Length <= MAX_CAPACITY
      ensures data == old(data) || fresh(data)
      ensures code == Ok && |old(Contents())| + minTail <= old(data.Length) ==> data == old(data)
      ensures code != Ok ==> unchanged(this) && unchanged(data)
    {
      var readable := writeIndex - readIndex;
      var required := CheckedAdd(readable, minTail);
      if required.Bad? { return required.code; }
      if required.value > MAX_CAPACITY { return Range; }
      if minTail <= data.Length - writeIndex { return Ok; }
      if required.value <= data.Length {
        Compact();
        return Ok;
      }
      code := ReplaceStorage(GrownCapacity(data.Length, required.value), memory);
    }

    method Shrink(capacity: nat, memory: bool) returns (code: Code)
      requires Valid()
      modifies this, data
      ensures Valid()
      ensures code == if capacity == 0 || capacity > old(data.Length) || capacity < |old(Contents())| then Range
                      else if capacity == old(data.Length) || memory then Ok else NoMemory
      ensures Contents() == old(Contents())
      ensures code == Ok ==> data.Length == capacity
      ensures data == old(data) || fresh(data)
      ensures code != Ok ==> unchanged(this) && unchanged(data)
    {
      var readable := writeIndex - readIndex;
      if capacity == 0 || capacity > data.Length || capacity < readable { return Range; }
      if capacity == data.Length { return Ok; }
      code := ReplaceStorage(capacity, memory);
    }
  }
}
