/** The compressed-input buffer in front of a decoder: a window of a growing byte array that
    behaves as a first-in first-out queue of bytes.  Window lengths are 32-bit. */
module ByteFifo {
  import opened Basics

  const U32: nat := 0x1_0000_0000
  const FIRST_CAPACITY: nat := 0x10_0000

  class InputBuffer {
    var store: array<Byte>
    var offset: nat
    var length: nat
    /** History: every byte appended and every byte taken out. */
    ghost var appended: seq<Byte>
    ghost var consumed: seq<Byte>

    ghost predicate Valid()
      reads this
    {
      offset + length <= store.Length && length < U32
    }

    ghost function Window(): (r: seq<Byte>)
      requires Valid()
      reads this, store
      ensures |r| == length
    {
      store[offset..offset + length]
    }

    /** Nothing was lost: what came in is what went out followed by what is left. */
    ghost predicate Intact()
      requires Valid()
      reads this, store
    {
      consumed + Window() == appended
    }

    constructor (capacity: nat)
      ensures Valid() && Window() == [] && Intact() && fresh(store) && store.Length == capacity
    {
      store := new Byte[capacity](_ => 0);
      offset, length := 0, 0;
      appended, consumed := [], [];
    }

    /** Moves the window to the front of the array; source and target may overlap. */
    method Compact()
      requires Valid()
      modifies this`offset, store
      ensures Valid() && offset == 0 && Window() == old(Window())
    {
      if offset == 0 { return; }
      for i := 0 to length
        invariant offset == old(offset)
        invariant forall k :: 0 <= k < i ==> store[k] == old(Window())[k]
        invariant forall j :: offset + i <= j < offset + length ==> store[j] == old(store[j])
      {
        store[i] := store[offset + i];
      }
      offset := 0;
      assert Window() == old(Window());
    }

    method Resize(capacity: nat)
      requires Valid() && offset + length <= capacity
      modifies this`store
      ensures Valid() && Window() == old(Window()) && fresh(store) && store.Length == capacity
    {
      var bigger := new Byte[capacity](_ => 0);
      for i := 0 to if store.Length < capacity then store.Length else capacity
        invariant store == old(store) && store[..] == old(store[..])
        invariant forall k :: 0 <= k < i ==> bigger[k] == store[k]
      {
        bigger[i] := store[i];
      }
      store := bigger;
      assert Window() == old(Window());
    }

    method WriteBehind(bytes: seq<Byte>)
      requires Valid() && offset == 0 && length + |bytes| <= store.Length
      modifies store
      ensures store[..length + |bytes|] == old(Window()) + bytes
    {
      for i := 0 to |bytes|
        invariant forall k :: 0 <= k < length ==> store[k] == old(store[k])
        invariant forall k :: 0 <= k < i ==> store[length + k] == bytes[k]
      {
        store[length + i] := bytes[i];
      }
    }

    /** Copies the bytes behind the window; the stored length is truncated to 32 bits. */
    method CopyIn(bytes: seq<Byte>)
      requires Valid() && offset == 0 && length + |bytes| <= store.Length
      modifies this`length, this`appended, store
      ensures Valid() && appended == old(appended) + bytes
      ensures Window() == (old(Window()) + bytes)[..(old(length) + |bytes|) % U32]
      ensures old(Intact()) ==> (Intact() <==> old(length) + |bytes| < U32)
    {
      ghost var before := Window();
      WriteBehind(bytes);
      length := (length + |bytes|) % U32;
      CutWindow(store[..], before + bytes, length);
      IntactIff(consumed, before, bytes, length);
      appended := appended + bytes;
    }

    /** The realtime route grows to twice the size or to what is needed. */
    method AppendGrowing(bytes: seq<Byte>)
      requires Valid()
      modifies this, store
      ensures Valid() && offset == 0 && appended == old(appended) + bytes && consumed == old(consumed)
      ensures Window() == (old(Window()) + bytes)[..(old(length) + |bytes|) % U32]
      ensures old(Intact()) ==> (Intact() <==> old(length) + |bytes| < U32)
    {
      Compact();
      if length + |bytes| > store.Length {
        var needed := length + |bytes|;
        Resize(if store.Length * 2 > needed then store.Length * 2 else needed);
      }
      CopyIn(bytes);
    }

    /** The split decoder doubles the capacity until it suffices. */
    method EnsureCapacity(additional: nat)
      requires Valid()
      modifies this`offset, this`store, store
      ensures Valid() && offset == 0 && Window() == old(Window()) && Intact() == old(Intact())
      ensures length + additional <= store.Length && (store == old(store) || fresh(store))
    {
      Compact();
      var required := offset + length + additional;
      if required <= store.Length { return; }
      var capacity := if store.Length == 0 then FIRST_CAPACITY else store.Length;
      while capacity < required
        invariant capacity > 0 && capacity >= store.Length
        decreases required - capacity
      {
        capacity := capacity * 2;
      }
      Resize(capacity);
    }

    method AppendDoubling(bytes: seq<Byte>)
      requires Valid()
      modifies this, store
      ensures Valid() && appended == old(appended) + bytes && consumed == old(consumed)
      ensures Window() == (old(Window()) + bytes)[..(old(length) + |bytes|) % U32]
      ensures old(Intact()) ==> (Intact() <==> old(length) + |bytes| < U32)
    {
      hide Intact, Window;
      if |bytes| == 0 {
        NothingAdded(appended, bytes);
        NothingKept(Window(), bytes);
        return;
      }
      EnsureCapacity(|bytes|);
      CopyIn(bytes);
    }

    /** The decoder takes bytes from the front. */
    method Consume(count: nat)
      requires Valid() && count <= length
      modifies this`offset, this`length, this`consumed
      ensures Valid() && Window() == old(Window())[count..]
      ensures consumed == old(consumed) + old(Window())[..count]
      ensures old(Intact()) ==> Intact()
    {
      consumed := consumed + Window()[..count];
      offset, length := offset + count, length - count;
      assert old(Window())[..count] + old(Window())[count..] == old(Window());
    }

    /** The device reads ahead in the window. */
    method ReadAhead()
      requires Valid()
      modifies this`offset, this`length
      ensures Valid() && offset >= old(offset) && offset + length == old(offset) + old(length)
    {
      var count: int := *;
      count := if 0 <= count <= length then count else length;
      offset, length := offset + count, length - count;
    }

    /** Header probing of the split decoder puts the window back, whatever the device did. */
    method ProbeHeader()
      requires Valid()
      modifies this`offset, this`length
      ensures Valid() && offset == old(offset) && length == old(length) && Window() == old(Window())
    {
      var offsetBefore, lengthBefore := offset, length;
      ReadAhead();
      offset, length := offsetBefore, lengthBefore;
    }

    /** Header probing of a route moves the window to the start of the array, except after a
        failure, which leaves what the device did.  So a window at the start is put back, and
        a window behind bytes that an earlier failure consumed shows them again and loses as
        many at its end; it is unchanged only when the bytes are the same. */
    method ProbeRouteHeader() returns (failed: bool)
      requires Valid()
      modifies this`offset, this`length
      ensures Valid() && store == old(store) && store[..] == old(store[..])
      ensures !failed ==> offset == 0 && length == old(length)
      ensures !failed ==> Window() == old(store[..length])
      ensures !failed && old(offset) == 0 ==> Window() == old(Window())
      ensures !failed ==> (Window() == old(Window()) <==> Repeats(store[..], old(offset), length))
      ensures failed ==> old(offset) <= offset <= old(offset) + old(length)
      ensures failed ==> Window() == old(Window())[offset - old(offset)..]
    {
      var lengthBefore := length;
      ReadAhead();
      failed := *;
      if !failed {
        offset, length := 0, lengthBefore;
        RepeatsIff(store[..], old(offset), length);
      }
    }
  }

  /** The `length` bytes at `offset` are those at the start. */
  ghost predicate Repeats(bytes: seq<Byte>, offset: nat, length: nat)
    requires offset + length <= |bytes|
  {
    forall k :: 0 <= k < length ==> bytes[k] == bytes[offset + k]
  }

  lemma RepeatsIff(bytes: seq<Byte>, offset: nat, length: nat)
    requires offset + length <= |bytes|
    ensures bytes[..length] == bytes[offset..offset + length] <==> Repeats(bytes, offset, length)
  {
    if bytes[..length] == bytes[offset..offset + length] {
      forall k | 0 <= k < length ensures bytes[k] == bytes[offset + k] {
        assert bytes[..length][k] == bytes[offset..offset + length][k];
      }
    }
  }

  lemma CutWindow(bytes: seq<Byte>, front: seq<Byte>, kept: nat)
    requires kept <= |front| <= |bytes| && bytes[..|front|] == front
    ensures bytes[0..kept] == front[..kept]
  {
    assert bytes[..|front|][..kept] == bytes[..kept];
  }

  lemma NothingAdded(window: seq<Byte>, bytes: seq<Byte>)
    requires bytes == []
    ensures window + bytes == window
  {
  }

  lemma NothingKept(window: seq<Byte>, bytes: seq<Byte>)
    requires bytes == [] && |window| < U32
    ensures (window + bytes)[..(|window| + |bytes|) % U32] == window
  {
    NothingAdded(window, bytes);
  }

  /** Cutting what was appended keeps everything exactly when nothing is cut. */
  lemma IntactIff(consumed: seq<Byte>, window: seq<Byte>, bytes: seq<Byte>, kept: nat)
    requires kept <= |window| + |bytes|
    ensures consumed + (window + bytes)[..kept] == consumed + window + bytes <==> kept == |window| + |bytes|
  {
    if kept == |window| + |bytes| {
      assert (window + bytes)[..kept] == window + bytes;
      assert consumed + (window + bytes) == consumed + window + bytes;
    } else {
      assert |consumed + (window + bytes)[..kept]| < |consumed + window + bytes|;
    }
  }
}
