/**
 The scratch-buffer free list and the byte streams it serves (pkg/bufferutil/bufferutil.go).
 */
module FreeLists {
  import opened Bytes

  const MAX_ITEMS := 1024

  /** A growable byte buffer: writes append, reads consume from the front (Go's bytes.Buffer). */
  class Buffer {
    var data: bytes

    constructor (data: bytes)
      ensures this.data == data
    {
      this.data := data;
    }

    method Write(p: bytes)
      modifies this
      ensures data == old(data) + p
    {
      data := data + p;
    }

    /** Reads up to p.Length bytes; the end of the buffer is an error only if bytes were asked for. */
    method Read(p: array<byte>) returns (ok: bool)
      modifies this, p
      ensures ok == (p.Length == 0 || old(data) != [])
      ensures var n := if |old(data)| < p.Length then |old(data)| else p.Length;
              && data == old(data)[n..]
              && p[..] == old(data)[..n] + old(p[n..])
    {
      if data == [] {
        return p.Length == 0;
      }
      var n := if |data| < p.Length then |data| else p.Length;
      forall i | 0 <= i < n {
        p[i] := data[i];
      }
      data := data[n..];
      ok := true;
    }

    /** io.ReadFull into the first k bytes of p: a short stream is drained and reported. */
    method ReadFull(p: array<byte>, k: nat) returns (ok: bool)
      requires k <= p.Length
      modifies this, p
      ensures ok == (k <= |old(data)|)
      ensures data == if ok then old(data)[k..] else []
      ensures p[..] == Overwrite(old(p[..]), if ok then old(data)[..k] else old(data))
      ensures ok ==> p[..k] == old(data)[..k]
    {
      ok := k <= |data|;
      var n := if ok then k else |data|;
      forall i | 0 <= i < n {
        p[i] := data[i];
      }
      data := data[n..];
    }
  }

  /** A Go slice that starts at its array's first element: its capacity is arr.Length. */
  datatype Slice = Slice(arr: array<byte>, len: nat)

  class FreeList {
    var pool: seq<Slice>

    /** At most 1024 slices, each of capacity 8, no array twice. */
    ghost predicate Valid()
      reads this
    {
      && |pool| <= MAX_ITEMS
      && (forall i :: 0 <= i < |pool| ==> pool[i].arr.Length == 8)
      && (forall i, j :: 0 <= i < j < |pool| ==> pool[i].arr != pool[j].arr)
    }

    ghost function Memory(): set<object>
      reads this
    {
      set i | 0 <= i < |pool| :: pool[i].arr
    }

    constructor ()
      ensures Valid() && pool == []
    {
      pool := [];
    }

    method Borrow() returns (buf: array<byte>)
      requires Valid()
      modifies this
      ensures Valid()
      ensures buf.Length == 8 && buf !in Memory()
      ensures old(pool) != [] ==> buf == old(pool)[0].arr && pool == old(pool)[1..]
      ensures old(pool) == [] ==> fresh(buf) && pool == [] && buf[..] == Zeros(8)
    {
      if pool != [] {
        buf := pool[0].arr;
        pool := pool[1..];
      } else {
        buf := new byte[8](_ => 0);
      }
    }

    /** Puts a slice back, at whatever length it was used, unless the list is full. */
    method Return(buf: Slice)
      requires Valid()
      requires buf.arr.Length == 8 && buf.arr !in Memory()
      modifies this
      ensures Valid()
      ensures pool == if |old(pool)| < 1024 then old(pool) + [buf] else old(pool)
    {
      if |pool| < MAX_ITEMS {
        pool := pool + [buf];
      }
    }

    /** One call has gone by: the slice borrowed is back, at length k, with this data at its start. */
    twostate predicate Cycled(k: nat, data: bytes)
      reads this, Memory()
    {
      && pool != [] && |data| <= 8
      && var last := pool[|pool| - 1];
         && pool == (if old(pool) == [] then [] else old(pool)[1..]) + [last] && last.len == k && last.arr.Length == 8
         && (old(pool) != [] ==> last.arr == old(pool)[0].arr && last.arr[..] == Overwrite(old(last.arr[..]), data))
         && (old(pool) == [] ==> fresh(last.arr) && last.arr[..] == Overwrite(Zeros(8), data))
         && forall i :: 0 <= i < |pool| - 1 ==> pool[i].arr[..] == old(pool[i + 1].arr[..])
    }

    /** Uint8, Uint16, Uint32 and Uint64 with k = 1, 2, 4 and 8. */
    method ReadUint(r: Buffer, k: nat) returns (res: Read<nat>)
      requires Valid() && 0 < k <= 8
      modifies this, Memory(), r
      ensures Valid() && fresh(Memory() - old(Memory()))
      ensures res == DecodeUint(old(r.data), k)
      ensures r.data == res.rest
      ensures Cycled(k, if res.Done? then old(r.data)[..k] else old(r.data))
    {
      hide FromLittleEndian, Overwrite;
      var buf := Borrow();
      var ok := r.ReadFull(buf, k);
      res := if ok then Done(FromLittleEndian(buf[..k]), r.data) else Fail(r.data);
      Return(Slice(buf, k));
    }

    /** PutUint8, PutUint16, PutUint32 and PutUint64 with k = 1, 2, 4 and 8. */
    method WriteUint(w: Buffer, v: nat, k: nat)
      requires Valid() && 0 < k <= 8
      modifies this, Memory(), w
      ensures Valid() && fresh(Memory() - old(Memory()))
      ensures w.data == old(w.data) + LittleEndian(v, k)
      ensures Cycled(k, LittleEndian(v, k))
    {
      hide LittleEndian, Overwrite;
      var buf := Borrow();
      ghost var before := buf[..];
      PutUint(buf, v, k);
      assert before[k..] == buf[k..];
      PutAtStart(before, buf[..], k);
      w.Write(buf[..k]);
      Return(Slice(buf, k));
    }
  }

  /** What a memory cell holds once data is put at its start. */
  function Overwrite(cell: bytes, data: bytes): (s: bytes)
    requires |data| <= |cell|
  {
    data + cell[|data|..]
  }

  lemma PutAtStart(before: bytes, after: bytes, k: nat)
    requires |before| == |after| && k <= |after| && after[k..] == before[k..]
    ensures after == Overwrite(before, after[..k])
  {
  }

  /** The outcome of a read: a value or an error, and in both cases what is left in the buffer. */
  datatype Read<+T> = Done(value: T, rest: bytes) | Fail(rest: bytes)

  function DecodeUint(s: bytes, k: nat): Read<nat> {
    if k <= |s| then Done(FromLittleEndian(s[..k]), s[k..]) else Fail([])
  }
}
