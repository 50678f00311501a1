/** The wrapping byte ring (pico/src/byte_ring.c): its value, and the class that refines it. */
module ByteRing {
  import opened Bytes

  /** A ring as a value: the queue it holds and where in the storage the queue starts. */
  datatype Ring = Ring(capacity: nat, head: nat, items: seq<byte>) {

    /** Zero capacity stands for a ring whose storage was refused at initialisation. */
    predicate Ok() {
      if capacity == 0 then head == 0 && items == [] else head < capacity && |items| <= capacity
    }

    function Tail(): (tail: nat)
      requires Ok() && capacity > 0
      ensures tail < capacity
    {
      if |items| >= capacity - head then |items| - (capacity - head) else head + |items|
    }

    /** The contiguous free space behind the tail. */
    function Writable(): (n: nat)
      requires Ok()
      ensures n + |items| <= capacity
      ensures n == 0 <==> |items| == capacity
    {
      if |items| == capacity then 0
      else if Tail() < head then head - Tail() else capacity - Tail()
    }

    /** The contiguous data in front of the head. */
    function Readable(): (n: nat)
      requires Ok()
      ensures n <= |items|
      ensures n == 0 <==> items == []
    {
      Min(|items|, capacity - head)
    }

    function Push(data: seq<byte>): (r: Ring)
      requires Ok() && |data| <= Writable()
      ensures r.Ok()
    {
      this.(items := items + data)
    }

    function Pop(amount: nat): (r: Ring)
      requires Ok() && amount <= Readable()
      ensures r.Ok() && r.items == items[amount..] && r.capacity == capacity
    {
      if amount == |items| then Ring(capacity, 0, [])
      else Ring(capacity, if head + amount == capacity then 0 else head + amount, items[amount..])
    }

    function Emptied(): Ring {
      Ring(capacity, 0, [])
    }
  }

  /** Two pushes always reach every free cell: a ring refuses data only when it is full. */
  lemma TwoPushesFill(r: Ring, first: seq<byte>)
    requires r.Ok() && |first| == r.Writable()
    ensures |r.Push(first).items| + r.Push(first).Writable() == r.capacity
  {
  }

  class ByteRing {
    const storage: array<byte>
    var head: nat
    var length: nat

    ghost predicate Valid()
      reads this
    {
      if storage.Length == 0 then head == 0 && length == 0 else head < storage.Length && length <= storage.Length
    }

    /** The cell that holds queue position `i`. */
    ghost function Cell(i: nat): (cell: nat)
      requires Valid() && i < length
      reads this
      ensures cell < storage.Length
    {
      if head + i < storage.Length then head + i else head + i - storage.Length
    }

    ghost function Items(): (s: seq<byte>)
      requires Valid()
      reads this, storage
      ensures |s| == length
    {
      seq(length, i requires Valid() && 0 <= i < length reads this, storage => storage[Cell(i)])
    }

    ghost function View(): (r: Ring)
      requires Valid()
      reads this, storage
      ensures r.Ok() && r.capacity == storage.Length && r.head == head && r.items == Items()
    {
      Ring(storage.Length, head, Items())
    }

    constructor (storage: array<byte>)
      ensures Valid() && this.storage == storage
      ensures View() == Ring(storage.Length, 0, [])
    {
      this.storage := storage;
      head, length := 0, 0;
    }

    method Reset()
      requires Valid()
      modifies this
      ensures Valid() && View() == old(View()).Emptied()
    {
      head, length := 0, 0;
    }

    method Writable() returns (status: Status, offset: nat, available: nat)
      requires Valid()
      ensures status == if storage.Length == 0 then STATE else OK
      ensures available == View().Writable()
      ensures available > 0 ==> offset == View().Tail() && offset + available <= storage.Length
    {
      status, offset, available := STATE, 0, 0;
      if storage.Length > 0 {
        status := OK;
        if length != storage.Length {
          var toEnd := storage.Length - head;
          offset := if length >= toEnd then length - toEnd else head + length;
          available := if offset < head then head - offset else storage.Length - offset;
        }
      }
    }

    /** What an endpoint does through the buffer `Writable` lent it. */
    method Fill(offset: nat, data: seq<byte>)
      requires Valid() && storage.Length > 0
      requires offset == View().Tail() && |data| <= View().Writable()
      modifies storage
      ensures Valid() && Items() == old(Items())
      ensures storage[offset..offset + |data|] == data
      ensures forall k :: 0 <= k < storage.Length && !(offset <= k < offset + |data|) ==> storage[k] == old(storage[k])
    {
      for index := 0 to |data|
        invariant Valid()
        invariant storage[offset..offset + index] == data[..index]
        invariant forall k ::
                    0 <= k < storage.Length && !(offset <= k < offset + |data|) ==> storage[k] == old(storage[k])
      {
        storage[offset + index] := data[index];
      }
      assert forall i :: 0 <= i < length ==> !(offset <= Cell(i) < offset + |data|);
    }

    /** The `amount` cells behind the tail. */
    ghost function Lent(amount: nat): (s: seq<byte>)
      requires Valid() && amount <= View().Writable()
      reads this, storage
      ensures |s| == amount
    {
      if amount == 0 then [] else storage[View().Tail()..View().Tail() + amount]
    }

    method Commit(amount: nat) returns (status: Status)
      requires Valid()
      modifies this
      ensures Valid()
      ensures storage.Length == 0 ==> status == STATE && View() == old(View())
      ensures storage.Length > 0 ==>
                if amount > old(View()).Writable() then status == LIMIT && View() == old(View())
                else status == OK && View() == old(View()).Push(old(Lent(amount)))
    {
      var ready, offset, available := Writable();
      ghost var before := Items();
      if ready != OK {
        status := STATE;
      } else if amount > available {
        status := LIMIT;
      } else {
        ghost var lent := Lent(amount);
        length := length + amount;
        status := OK;
        forall i | 0 <= i < length ensures Items()[i] == (before + lent)[i] {
          if i >= |before| {
            assert Cell(i) == offset + (i - |before|);
          }
        }
      }
    }

    /** An endpoint's copy into the lent buffer followed by the commit of what it copied. */
    method Accept(offset: nat, data: seq<byte>) returns (status: Status)
      requires Valid() && storage.Length > 0
      requires offset == View().Tail() && 0 < |data| <= View().Writable()
      modifies this, storage
      ensures Valid() && status == OK && View() == old(View()).Push(data)
      ensures forall k :: 0 <= k < storage.Length && !(offset <= k < offset + |data|) ==> storage[k] == old(storage[k])
    {
      Fill(offset, data);
      assert Lent(|data|) == data;
      status := Commit(|data|);
    }

    /** Undoes commits by restoring the length saved before them; the head has not moved. */
    method Restore(savedLength: nat)
      requires Valid() && savedLength <= length
      modifies this
      ensures Valid() && View() == old(View()).(items := old(Items())[..savedLength])
    {
      ghost var before := Items();
      length := savedLength;
      assert forall i :: 0 <= i < length ==> Items()[i] == before[i];
    }

    method Readable() returns (status: Status, view: seq<byte>)
      requires Valid()
      ensures status == if storage.Length == 0 then STATE else OK
      ensures |view| == View().Readable() && view == Items()[..|view|]
    {
      status, view := STATE, [];
      if storage.Length > 0 {
        status := OK;
        if length > 0 {
          var contiguous := if length < storage.Length - head then length else storage.Length - head;
          view := storage[head..head + contiguous];
        }
      }
    }

    method Consume(amount: nat) returns (status: Status)
      requires Valid()
      modifies this
      ensures Valid()
      ensures storage.Length == 0 ==> status == STATE && View() == old(View())
      ensures storage.Length > 0 ==>
                if amount > old(View()).Readable() then status == LIMIT && View() == old(View())
                else status == OK && View() == old(View()).Pop(amount)
    {
      ghost var before := Items();
      if storage.Length == 0 {
        status := STATE;
      } else {
        var contiguous := if length < storage.Length - head then length else storage.Length - head;
        if amount > contiguous {
          status := LIMIT;
        } else {
          status := OK;
          if amount == length {
            head, length := 0, 0;
          } else {
            head := head + amount;
            length := length - amount;
            if head == storage.Length {
              head := 0;
            }
            assert Items() == before[amount..];
          }
        }
      }
    }
  }
}
