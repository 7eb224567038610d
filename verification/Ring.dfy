/** The fixed buffer that holds the newest bytes of a session's output. */
module Ring {
  import opened Common

  /** The newest `n` elements of `s`, or all of them. */
  function Last<T>(s: seq<T>, n: nat): (r: seq<T>)
    ensures |r| == if |s| <= n then |s| else n
  {
    if |s| <= n then s else s[|s| - n..]
  }

  /** The contents of a circular array, oldest first. */
  function Around<T>(d: seq<T>, writePos: nat, full: bool): (held: seq<T>)
    requires writePos <= |d|
  {
    if full then d[writePos..] + d[..writePos] else d[..writePos]
  }

  /** `p` written over `d` at `at`, going on at the start where it does not fit. */
  function Put<T>(d: seq<T>, at: nat, p: seq<T>): (r: seq<T>)
    requires at <= |d| && |p| <= |d|
    ensures |r| == |d|
  {
    var room := |d| - at;
    if |p| <= room then d[..at] + p + d[at + |p|..]
    else p[room..] + d[|p| - room..at] + p[..room]
  }

  lemma PutFits<T>(d: seq<T>, at: nat, full: bool, p: seq<T>)
    requires at + |p| < |d|
    ensures Around(Put(d, at, p), at + |p|, full) == Last(Around(d, at, full) + p, |d|)
  {
    if full {
      assert Around(d, at, full) + p == d[at..at + |p|] + (d[at + |p|..] + d[..at] + p);
    }
  }

  lemma PutWraps<T>(d: seq<T>, at: nat, full: bool, p: seq<T>)
    requires at <= |d| <= at + |p| && |p| < |d|
    ensures Around(Put(d, at, p), at + |p| - |d|, true) == Last(Around(d, at, full) + p, |d|)
  {
    var over := at + |p| - |d|;
    var kept := d[over..at] + p;
    assert Around(Put(d, at, p), over, true) == kept;
    if full {
      assert Around(d, at, full) + p == d[at..] + d[..over] + kept;
    } else {
      assert Around(d, at, full) + p == d[..over] + kept;
    }
  }

  lemma Wrapped(x: nat, n: nat)
    requires 0 < n && x < 2 * n
    ensures x % n == if x < n then x else x - n
  {
  }

  class RingBuffer {
    const data: array<Byte>
    const capacity: nat
    var writePos: nat
    var full: bool
    var position: nat  // counts every byte ever written, and every reset

    ghost predicate Valid()
      reads this, data
    {
      0 < capacity == data.Length && writePos < capacity && |Held()| <= position
    }

    /** What the buffer holds, oldest first. */
    function Held(): (held: seq<Byte>)
      requires writePos <= data.Length
      reads this, data
    {
      Around(data[..], writePos, full)
    }

    constructor (wanted: int)
      ensures Valid() && fresh(data) && Held() == [] && position == 0
      ensures capacity == if wanted <= 0 then 0x10_0000 else wanted
    {
      var size: nat := if wanted <= 0 then 0x10_0000 else wanted;
      capacity := size;
      data := new Byte[size](_ => 0);
      writePos, full, position := 0, false, 0;
    }

    method CopyIn(to: nat, p: seq<Byte>)
      requires to + |p| <= data.Length
      modifies data
      ensures data[..] == old(data[..to]) + p + old(data[to + |p|..])
    {
      forall i | 0 <= i < |p| {
        data[to + i] := p[i];
      }
    }

    method Place(p: seq<Byte>)
      requires writePos <= data.Length && |p| < data.Length
      modifies data
      ensures data[..] == Put(old(data[..]), writePos, p)
    {
      var remaining := data.Length - writePos;
      if |p| <= remaining {
        CopyIn(writePos, p);
      } else {
        CopyIn(writePos, p[..remaining]);
        CopyIn(0, p[remaining..]);
      }
    }

    /** The whole of `p` replaces what was held. */
    method Replace(p: seq<Byte>)
      requires Valid() && capacity <= |p|
      modifies this`writePos, this`full, data
      ensures writePos == 0 && full && data[..] == Last(p, capacity)
    {
      CopyIn(0, p[|p| - capacity..]);
      writePos, full := 0, true;
    }

    method Append(p: seq<Byte>)
      requires Valid() && 0 < |p| < capacity
      modifies this`writePos, this`full, data
      ensures writePos < capacity && Held() == Last(old(Held()) + p, capacity)
    {
      hide Put, Last, Around;
      ghost var before := data[..];
      var n := |p|;
      assert 0 < capacity == data.Length && writePos < capacity;
      Place(p);
      var newPos := (writePos + n) % capacity;
      Wrapped(writePos + n, capacity);
      if writePos + n < capacity {
        PutFits(before, writePos, full, p);
      } else {
        PutWraps(before, writePos, full, p);
      }
      if !full && (newPos < writePos || (newPos == 0 && 0 < n && capacity <= writePos + n)) {
        full := true;
      }
      writePos := newPos;
    }

    /** Whatever the length, the buffer then holds the newest `capacity` bytes of all it was given. */
    method Write(p: seq<Byte>)
      requires Valid()
      modifies this, data
      ensures Valid() && position == old(position) + |p|
      ensures Held() == Last(old(Held()) + p, capacity)
    {
      ghost var before := Held();
      if |p| == 0 {
        assert before + p == before;
        return;
      }
      position := position + |p|;
      if capacity <= |p| {
        Replace(p);
        assert Last(before + p, capacity) == Last(p, capacity);
        assert Held() == data[..];
      } else {
        Append(p);
      }
    }

    /** The newest `n` bytes, exactly. */
    function Tail(n: nat): (r: seq<Byte>)
      requires Valid() && n <= |Held()|
      reads this, data
      ensures r == Held()[|Held()| - n..]
    {
      if !full || n <= writePos then data[writePos - n..writePos]
      else data[capacity + writePos - n..] + data[..writePos]
    }

    ghost function Oldest(): nat
      requires Valid()
      reads this, data
    {
      position - |Held()|
    }

    /** Exactly the bytes after stream position `from`, if they are all still here. */
    method ReadFrom(from: nat) returns (bytes: seq<Byte>, end: nat, ok: bool)
      requires Valid()
      ensures end == position
      ensures ok <==> Oldest() <= from <= position
      ensures ok ==> bytes == Held()[from - Oldest()..]
    {
      var held := if full then capacity else writePos;
      var oldest := position - held;
      if from < oldest || position < from {
        return [], position, false;
      }
      return Tail(position - from), position, true;
    }

    method Reset()
      requires Valid()
      modifies this
      ensures Valid() && Held() == [] && position == old(position) + 1
    {
      writePos, full, position := 0, false, position + 1;
    }
  }
}
