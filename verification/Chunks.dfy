/** A file uploaded in slices: what is staged, what is missing, and putting it together again. */
module Chunks {
  import opened Common

  type Bytes = seq<int>

  datatype Meta = Meta(size: nat, chunkSize: nat, totalChunks: nat)

  const DEFAULT_CHUNK: nat := 0x80_0000
  const LEAST_CHUNK: nat := 0x2000

  /** The shape init gives an upload. */
  function Shape(size: nat, chunkSize: nat): (m: Meta)
    requires 0 < chunkSize
  {
    var total := (size + chunkSize - 1) / chunkSize;
    Meta(size, chunkSize, if total == 0 then 1 else total)
  }

  predicate Shaped(m: Meta) {
    0 < m.chunkSize && m == Shape(m.size, m.chunkSize)
  }

  /** How many bytes slice `index` must hold to count as received. */
  function Expected(m: Meta, index: int): int {
    if index == m.totalChunks - 1 then m.size - (m.totalChunks - 1) * m.chunkSize else m.chunkSize
  }

  /** Where slice `index` begins. */
  function StartOf(m: Meta, index: nat): nat {
    index * m.chunkSize
  }

  /** Every slice but the last is full, the last is what is left, and none is empty unless the file
      is. */
  lemma Slicing(m: Meta, index: nat)
    requires Shaped(m) && index < m.totalChunks
    ensures 0 <= Expected(m, index) <= m.chunkSize
    ensures Expected(m, index) == 0 <==> m.size == 0
    ensures StartOf(m, index) + Expected(m, index) == if index == m.totalChunks - 1 then m.size else StartOf(m, index + 1)
    ensures StartOf(m, index) + Expected(m, index) <= m.size
  {
    var c, n, q := m.chunkSize, m.totalChunks, (m.size + m.chunkSize - 1) / m.chunkSize;
    assert q * c <= m.size + c - 1 < q * c + c;
    Distribute(n - 1, 1, c);
    Distribute(index, 1, c);
    if index < n - 1 {
      Distribute(index + 1, n - 2 - index, c);
    }
  }

  lemma Distribute(a: nat, b: nat, c: nat)
    ensures (a + b) * c == a * c + b * c
    ensures 0 <= b * c && 1 * c == c
  {
  }

  function Slice(file: Bytes, m: Meta, index: nat): Bytes
    requires Shaped(m) && index < m.totalChunks && |file| == m.size
  {
    Slicing(m, index);
    file[StartOf(m, index)..StartOf(m, index) + Expected(m, index)]
  }

  /** The parts in order. */
  function Assembled(parts: map<nat, Bytes>, n: nat): Bytes
    requires forall i :: 0 <= i < n ==> i in parts
  {
    if n == 0 then [] else Assembled(parts, n - 1) + parts[n - 1]
  }

  /** All the parts, each of the size it must have, are as long as the file; and slices of the file
      make the file. */
  lemma {:induction false} AssembledSize(parts: map<nat, Bytes>, m: Meta, n: nat)
    requires Shaped(m) && n <= m.totalChunks
    requires forall i :: 0 <= i < n ==> i in parts && |parts[i]| == Expected(m, i)
    ensures |Assembled(parts, n)| == if n == m.totalChunks then m.size else StartOf(m, n)
  {
    if n != 0 {
      AssembledSize(parts, m, n - 1);
      Slicing(m, n - 1);
    }
  }

  lemma {:induction false} AssembledFile(parts: map<nat, Bytes>, m: Meta, file: Bytes, n: nat)
    requires Shaped(m) && n <= m.totalChunks && |file| == m.size
    requires forall i :: 0 <= i < n ==> i in parts && parts[i] == Slice(file, m, i)
    ensures Assembled(parts, n) == file[..if n == m.totalChunks then m.size else StartsWithin(m, n)]
  {
    if n != 0 {
      hide Shaped, Expected;
      AssembledFile(parts, m, file, n - 1);
      Slicing(m, n - 1);
    }
  }

  function StartsWithin(m: Meta, n: nat): (at: nat)
    requires Shaped(m) && n < m.totalChunks
    ensures at == StartOf(m, n) <= m.size
  {
    Slicing(m, n);
    StartOf(m, n)
  }

  // ---- the staging directory ----

  datatype Reply =
    | Accepted(received: seq<nat>)
    | Incomplete(missing: seq<nat>)
    | UnknownUpload
    | OutOfRange
    | SizeMismatch
    | BadChunkSize
    | Ready(bytes: Bytes)

  predicate Ascending(s: seq<nat>) {
    forall i, j :: 0 <= i < j < |s| ==> s[i] < s[j]
  }

  /** One upload's staging directory: its shape, if it exists, and its part files. */
  class Staging {
    const size: nat
    var meta: Option<Meta>
    var parts: map<nat, Bytes>

    /** Whatever order the requests came in, every part file is a whole slice of the upload. */
    ghost predicate Valid()
      reads this
    {
      && (meta.None? ==> parts == map[])
      && (meta.Some? ==>
            && Shaped(meta.value) && meta.value.size == size
            && forall i :: i in parts ==> i < meta.value.totalChunks && |parts[i]| == Expected(meta.value, i))
    }

    constructor (size: nat)
      ensures Valid() && meta.None? && this.size == size
    {
      this.size, meta, parts := size, None, map[];
    }

    /** The indices whose part has the size it must have, in order. */
    method Scan(m: Meta) returns (received: seq<nat>)
      ensures Ascending(received)
      ensures forall i: nat :: i in received <==> i in parts && i < m.totalChunks && |parts[i]| == Expected(m, i)
    {
      received := [];
      var entries := parts.Keys;
      while entries != {}
        invariant entries <= parts.Keys && Ascending(received)
        invariant forall i: nat :: i in received <==>
                    i in parts && i !in entries && i < m.totalChunks && |parts[i]| == Expected(m, i)
        decreases |entries|
      {
        var i :| i in entries;
        entries := entries - {i};
        if i < m.totalChunks && |parts[i]| == Expected(m, i) {
          Inserted(received, i);
          received := Insert(received, i);
        }
      }
    }

    /** The indices of the upload that Scan does not find, in order. */
    method Missing(m: Meta) returns (missing: seq<nat>)
      requires Valid() && meta == Some(m)
      ensures Ascending(missing)
      ensures forall i: nat :: i in missing <==> i < m.totalChunks && i !in parts
    {
      var have := Scan(m);
      missing := [];
      for i := 0 to m.totalChunks
        invariant Ascending(missing) && forall k :: 0 <= k < |missing| ==> missing[k] < i
        invariant forall j: nat :: j in missing <==> j < i && j !in parts
      {
        if i !in have {
          missing := missing + [i];
        }
      }
    }

    /** Init keeps the shape first agreed on for this upload, and with it every part received. An
        upload begun without asking for a slice size has an id of its own, and always the default. */
    method Init(requested: Option<nat>) returns (reply: Reply)
      requires Valid() && (requested.None? && meta.Some? ==> meta.value.chunkSize == DEFAULT_CHUNK)
      modifies this`meta
      ensures Valid() && parts == old(parts)
      ensures reply.BadChunkSize? <==> requested.Some? && !(8 * 1024 <= requested.value <= 8 * 1024 * 1024)
      ensures reply.BadChunkSize? ==> meta == old(meta)
      ensures !reply.BadChunkSize? && old(meta.None?) ==>
                meta == Some(Shape(size, if requested.Some? then requested.value else 8 * 1024 * 1024))
      ensures old(meta.Some?) ==> meta == old(meta)
      ensures !reply.BadChunkSize? ==>
                reply.Accepted? && Ascending(reply.received) && forall i: nat :: i in reply.received <==> i in parts
    {
      var chunkSize := DEFAULT_CHUNK;
      if requested.Some? {
        if !(LEAST_CHUNK <= requested.value <= DEFAULT_CHUNK) {
          return BadChunkSize;
        }
        chunkSize := requested.value;
      }
      var m := Shape(size, chunkSize);
      if requested.Some? && meta.Some? {
        m := meta.value;
      }
      meta := Some(m);
      var received := Scan(m);
      return Accepted(received);
    }

    /** A slice is kept only if it is whole. */
    method Chunk(index: int, data: Bytes) returns (reply: Reply)
      requires Valid()
      modifies this`parts
      ensures Valid()
      ensures reply.UnknownUpload? <==> meta.None?
      ensures reply.OutOfRange? <==> meta.Some? && !(0 <= index < meta.value.totalChunks)
      ensures reply.SizeMismatch? <==>
                meta.Some? && 0 <= index < meta.value.totalChunks && |data| != Expected(meta.value, index)
      ensures parts == if reply.Accepted? then old(parts)[index as nat := data] else old(parts)
      ensures reply.Accepted? ==> forall i: nat :: i in reply.received <==> i in parts
      ensures reply.Accepted? || reply.UnknownUpload? || reply.OutOfRange? || reply.SizeMismatch?
    {
      if meta.None? {
        return UnknownUpload;
      }
      var m := meta.value;
      if index < 0 || m.totalChunks <= index {
        return OutOfRange;
      }
      if |data| != Expected(m, index) {
        return SizeMismatch;
      }
      parts := parts[index := data];
      var received := Scan(m);
      return Accepted(received);
    }

    /** Received and missing share the upload out between them; with nothing missing the parts are put
        together, and are as long as init was told. */
    method Assemble() returns (reply: Reply)
      requires Valid()
      ensures reply.UnknownUpload? <==> meta.None?
      ensures reply.Incomplete? <==> meta.Some? && exists i :: 0 <= i < meta.value.totalChunks && i !in parts
      ensures reply.Incomplete? ==>
                && Ascending(reply.missing)
                && forall i: nat :: i in reply.missing <==> i < meta.value.totalChunks && i !in parts
      ensures reply.Ready? <==> meta.Some? && forall i :: 0 <= i < meta.value.totalChunks ==> i in parts
      ensures reply.Ready? ==> reply.bytes == Assembled(parts, meta.value.totalChunks) && |reply.bytes| == size
    {
      if meta.None? {
        return UnknownUpload;
      }
      var m := meta.value;
      var missing := Missing(m);
      if |missing| > 0 {
        assert missing[0] in missing;
        return Incomplete(missing);
      }
      assert forall i :: 0 <= i < m.totalChunks ==> i !in missing;
      var bytes := [];
      for i := 0 to m.totalChunks
        invariant forall j :: 0 <= j < i ==> j in parts
        invariant bytes == Assembled(parts, i)
      {
        bytes := bytes + parts[i];
      }
      AssembledSize(parts, m, m.totalChunks);
      assert |bytes| == m.size;  // a size mismatch cannot come out of whole slices
      return Ready(bytes);
    }

    /** The client gives up, or the upload is swept or done. */
    method Abort()
      modifies this`meta, this`parts
      ensures Valid() && meta.None?
    {
      meta, parts := None, map[];
    }

    /** If every part came from one file, what is put together is that file. */
    lemma FromOneFile(file: Bytes)
      requires Valid() && meta.Some? && |file| == size
      requires forall i :: 0 <= i < meta.value.totalChunks ==> i in parts && parts[i] == Slice(file, meta.value, i)
      ensures Assembled(parts, meta.value.totalChunks) == file
    {
      AssembledFile(parts, meta.value, file, meta.value.totalChunks);
    }
  }

  function Insert(s: seq<nat>, x: nat): seq<nat> {
    if s == [] then [x]
    else if x <= s[0] then [x] + s
    else [s[0]] + Insert(s[1..], x)
  }

  lemma {:induction false} Inserted(s: seq<nat>, x: nat)
    ensures |Insert(s, x)| == |s| + 1
    ensures forall y :: y in Insert(s, x) <==> y in s || y == x
    ensures Ascending(s) && x !in s ==> Ascending(Insert(s, x))
  {
    if s != [] && s[0] < x {
      var r := Insert(s[1..], x);
      Inserted(s[1..], x);
      assert s == [s[0]] + s[1..];
      if Ascending(s) && x !in s {
        assert forall k :: 0 <= k < |r| ==> r[k] in r;
        assert forall y :: y in s[1..] ==> s[0] < y;
      }
    }
  }

  // ---- reading the parts as one stream ----

  /** The parts from `next` on, in order. */
  function Rest(parts: seq<Bytes>, next: nat): Bytes
    requires next <= |parts|
    decreases |parts| - next
  {
    if next == |parts| then [] else parts[next] + Rest(parts, next + 1)
  }

  /** At most one part is open at a time. */
  class ChunkSequenceReader {
    const parts: seq<Bytes>
    var next: nat
    var file: Option<Bytes>   // what is left of the open part

    ghost predicate Valid()
      reads this
    {
      next <= |parts|
    }

    ghost function Left(): Bytes
      requires Valid()
      reads this
    {
      (if file.Some? then file.value else []) + Rest(parts, next)
    }

    constructor (parts: seq<Bytes>)
      ensures Valid() && Left() == Rest(parts, 0) && this.parts == parts
    {
      this.parts, next, file := parts, 0, None;
    }

    /** Reads into a buffer with room for `room` bytes; the file may hand over fewer (`short`). What
        comes back continues the stream, never nothing while some is left, and the end is told exactly
        when nothing is left. */
    method Read(room: nat, short: nat) returns (bytes: Bytes, eof: bool)
      requires Valid() && 0 < room && 0 < short
      modifies this
      ensures Valid() && |bytes| <= room && old(Left()) == bytes + Left()
      ensures eof <==> old(Left()) == []
      ensures eof <==> bytes == []
    {
      hide Rest;
      while true
        invariant Valid() && Left() == old(Left())
        decreases |parts| - next, if file.Some? then 1 else 0
      {
        if file.None? {
          RestAt(parts, next);
          if next == |parts| {
            assert [] + Rest(parts, next) == [];
            return [], true;
          }
          Open();
        }
        var rest := file.value;
        if rest == [] {
          assert rest + Rest(parts, next) == [] + Rest(parts, next);
          file := None;
          continue;
        }
        var n := if |rest| < room then |rest| else room;
        n := if short < n then short else n;
        assert rest + Rest(parts, next) == rest[..n] + (rest[n..] + Rest(parts, next));
        file := Some(rest[n..]);
        return rest[..n], false;
      }
    }

    method Open()
      requires Valid() && file.None? && next < |parts|
      modifies this
      ensures Valid() && file == Some(parts[old(next)]) && next == old(next) + 1 && Left() == old(Left())
    {
      RestAt(parts, next);
      assert [] + Rest(parts, next) == Rest(parts, next);
      file := Some(parts[next]);
      next := next + 1;
    }
  }

  lemma RestAt(parts: seq<Bytes>, next: nat)
    requires next <= |parts|
    ensures Rest(parts, next) == if next == |parts| then [] else parts[next] + Rest(parts, next + 1)
  {
  }

  /** The reader's stream is what assembling puts together. */
  lemma {:induction false} ReaderAgrees(parts: map<nat, Bytes>, list: seq<Bytes>, n: nat)
    requires n <= |list| && forall i :: 0 <= i < |list| ==> i in parts && parts[i] == list[i]
    ensures Assembled(parts, |list|) == Assembled(parts, n) + Rest(list, n)
    decreases |list| - n
  {
    if n < |list| {
      ReaderAgrees(parts, list, n + 1);
    }
  }
}
