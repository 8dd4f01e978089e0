/** Files kept as chunks: cutting a file up, and reading the chunks back as one stream. */
module FileChunker {
  import opened Arith
  import opened Octets
  import opened Wrappers

  const CHUNK_SIZE: nat := 45 * 1024 * 1024

  function Ceiling(n: nat): nat { (n + CHUNK_SIZE - 1) / CHUNK_SIZE }

  /** The number of chunks a build target is declared with. */
  function TargetCount(size: nat): nat { Ceiling(size) }

  /** The number of chunks a file needs; even an empty one needs one. */
  function NeededCount(size: nat): (n: nat)
    ensures n >= 1 && size <= n * CHUNK_SIZE
  {
    if Ceiling(size) > 1 then Ceiling(size) else 1
  }

  /** The declared chunks are enough for every file but the empty one. */
  lemma {:induction false} TargetsSuffice(size: nat)
    ensures TargetCount(size) >= NeededCount(size) <==> size > 0
  {}

  /** Where chunk k starts. */
  function Start(size: nat, k: nat): nat { Least(k * CHUNK_SIZE, size) }

  lemma {:induction false} NextStart(size: nat, k: nat)
    ensures Start(size, 0) == 0 && Start(size, k) <= Start(size, k + 1) <= size
    ensures Start(size, k + 1) == Least(Start(size, k) + CHUNK_SIZE, size)
  {
    assert (k + 1) * CHUNK_SIZE == k * CHUNK_SIZE + CHUNK_SIZE;
  }

  /** Every chunk that another one follows holds 45 MiB, and the last one what is left. */
  lemma {:induction false} ChunkSizes(data: Bytes, k: nat)
    ensures |Chunk(data, k)| ==
            if 47185920 * k >= |data| then 0
            else if 47185920 * k + 47185920 >= |data| then |data| - 47185920 * k else 47185920
  {
    NextStart(|data|, k);
  }

  lemma {:induction false} LastStart(size: nat, n: nat)
    requires n >= NeededCount(size)
    ensures Start(size, n) == size
  {
    assert n * CHUNK_SIZE >= NeededCount(size) * CHUNK_SIZE;
  }

  /** The bytes of chunk k; those beyond the end of the data are empty. */
  function Chunk(data: Bytes, k: nat): Bytes {
    NextStart(|data|, k);
    data[Start(|data|, k)..Start(|data|, k + 1)]
  }

  lemma {:induction false} ChunkFollows(data: Bytes, k: nat)
    ensures var from := Start(|data|, k);
            && from <= |data| && Start(|data|, k + 1) == from + |Chunk(data, k)|
            && Chunk(data, k) == data[from..Least(from + CHUNK_SIZE, |data|)]
            && data[..from] + Chunk(data, k) == data[..from + |Chunk(data, k)|]
  {
    NextStart(|data|, k);
    hide Start, Least;
  }

  /** Cuts a file into exactly n chunks, the last ones possibly empty; refuses if they cannot hold it. */
  method ChunkFile(data: Bytes, n: nat) returns (r: Result<seq<Bytes>>)
    ensures r.Ok? <==> n >= NeededCount(|data|)
    ensures r.Ok? ==> |r.value| == n && Flatten(r.value) == data
    ensures r.Ok? ==> forall k :: 0 <= k < n ==> r.value[k] == Chunk(data, k)
  {
    hide Flatten, Chunk, Start, NeededCount, Ceiling;
    if n < NeededCount(|data|) { return Err("needs more chunks"); }
    var chunks: seq<Bytes>, pos: nat := [], 0;
    NextStart(|data|, 0);
    FlattenNone();
    for i := 0 to n
      invariant |chunks| == i && pos == Start(|data|, i) <= |data|
      invariant Flatten(chunks) == data[..pos]
      invariant forall k :: 0 <= k < i ==> chunks[k] == Chunk(data, k)
    {
      ChunkFollows(data, i);
      var chunk := data[pos..Least(pos + CHUNK_SIZE, |data|)];
      FlattenAppend(chunks, chunk);
      chunks := chunks + [chunk];
      pos := pos + |chunk|;
    }
    LastStart(|data|, n);
    return Ok(chunks);
  }

  /** Reads files one after the other; `paths` are the contents of those not opened yet, `file` the rest of the
      open one. */
  class ChunkStream {
    var paths: seq<Bytes>
    var file: Option<Bytes>

    /** Everything still to be read. */
    ghost function Remaining(): Bytes
      reads this
    {
      (if file.Some? then file.value else []) + Flatten(paths)
    }

    constructor (files: seq<Bytes>)
      ensures Remaining() == Flatten(files)
    {
      paths, file := files, None;
      new;
      assert [] + Flatten(files) == Flatten(files);
    }

    /** Reads some bytes of the open file into the buffer: none only at its end, otherwise as many as the system
        grants. */
    method ReadFile(b: array<Byte>, n: nat) returns (count: nat)
      requires file.Some? && n < b.Length
      modifies `file, b
      ensures file.Some? && count <= Least(b.Length - n, |old(file).value|)
      ensures count == 0 <==> old(file).value == []
      ensures b[..] == Overwritten(old(b[..]), n, old(file).value[..count])
      ensures file.value == old(file).value[count..]
    {
      ghost var before := b[..];
      var most := Least(b.Length - n, |file.value|);
      if most == 0 {
        assert Overwritten(before, n, []) == before;
        return 0;
      }
      count :| 1 <= count <= most;
      var bytes := file.value[..count];
      forall k | 0 <= k < count { b[n + k] := bytes[k]; }
      assert b[..] == Overwritten(before, n, bytes);
      file := Some(file.value[count..]);
    }

    /** Fills the buffer from as many files as it takes; returns less than asked for only at the end of the last
        file. */
    method ReadInto(b: array<Byte>) returns (n: nat)
      modifies this, b
      ensures n == Least(b.Length, |old(Remaining())|)
      ensures b[..] == Overwritten(old(b[..]), 0, old(Remaining())[..n])
      ensures Remaining() == old(Remaining())[n..]
    {
      hide Flatten, Ceiling, Overwritten;
      ghost var all, before := Remaining(), b[..];
      n := 0;
      FilledStart(before, all);
      while n < b.Length
        invariant n <= b.Length && n <= |all|
        invariant b[..] == Overwritten(before, 0, all[..n])
        invariant Remaining() == all[n..]
        decreases |paths|, if file.Some? then |file.value| + 1 else 0
      {
        if file.None? {
          if paths == [] {
            FlattenNone();
            break;
          }
          NextFile(paths);
          file := Some(paths[0]);
          paths := paths[1..];
        }
        ghost var rest, later := file.value, Flatten(paths);
        var count := ReadFile(b, n);
        Advance(all, n, count, rest, later);
        FilledMore(before, all, n, count);
        if count == 0 {
          file := None;
          continue;
        }
        n := n + count;
      }
      assert n < b.Length ==> n == |all|;
    }
  }

  lemma {:induction false} FilledStart(before: Bytes, all: Bytes)
    ensures Overwritten(before, 0, all[..0]) == before
  {}

  lemma {:induction false} FilledMore(before: Bytes, all: Bytes, n: nat, count: nat)
    requires n + count <= |all| && n + count <= |before|
    ensures |Overwritten(before, 0, all[..n])| == |before|
    ensures Overwritten(Overwritten(before, 0, all[..n]), n, all[n..n + count])
         == Overwritten(before, 0, all[..n + count])
  {
    var b := Overwritten(before, 0, all[..n]);
    assert b[..n] == all[..n] && b[n + count..] == before[n + count..];
    assert all[..n] + all[n..n + count] == all[..n + count];
  }

  lemma {:induction false} NextFile(paths: seq<Bytes>)
    requires paths != []
    ensures [] + Flatten(paths) == paths[0] + Flatten(paths[1..])
  {
    FlattenFront(paths[0], paths[1..]);
    assert [paths[0]] + paths[1..] == paths;
  }

  lemma {:induction false} Advance(all: Bytes, n: nat, count: nat, rest: Bytes, later: Bytes)
    requires n <= |all| && rest + later == all[n..] && count <= |rest|
    ensures n + count <= |all| && all[n..n + count] == rest[..count]
    ensures rest[count..] + later == all[n + count..]
    ensures rest == [] ==> [] + later == all[n..]
  {
    assert all[n..][..count] == (rest + later)[..count];
    assert all[n..][count..] == (rest + later)[count..];
  }

  function Total(sizes: seq<nat>): nat { if sizes == [] then 0 else Total(sizes[..|sizes| - 1]) + sizes[|sizes| - 1] }

  lemma {:induction false} TotalStep(sizes: seq<nat>, i: nat)
    requires i < |sizes|
    ensures Total(sizes[..i + 1]) == Total(sizes[..i]) + sizes[i]
  {
    assert sizes[..i + 1][..i] == sizes[..i];
  }

  lemma {:induction false} NoSizes(sizes: seq<nat>)
    ensures Total(sizes[..0]) == 0 && sizes[..|sizes|] == sizes
  {}

  /** The first bytes, as many as were asked for. */
  function Front(all: Bytes, asked: nat): (front: Bytes)
    ensures |front| <= |all|
  {
    all[..Least(asked, |all|)]
  }

  lemma {:induction false} FrontOfNone(all: Bytes)
    ensures Front(all, 0) == [] && all[0..] == all
  {}

  lemma {:induction false} FrontMore(all: Bytes, asked: nat, size: nat)
    ensures var m := |Front(all, asked)|; var n := Least(size, |all| - m);
            && m + n == |Front(all, asked + size)|
            && Front(all, asked + size) == all[..m + n]
            && Front(all, asked) == all[..m]
  {}

  lemma {:induction false} FilledFront(before: Bytes, bytes: Bytes)
    requires |bytes| <= |before|
    ensures |Overwritten(before, 0, bytes)| == |before| && Overwritten(before, 0, bytes)[..|bytes|] == bytes
  {}

  lemma {:induction false} TakeDrop(all: Bytes, m: nat, n: nat)
    requires m + n <= |all|
    ensures all[..m] + all[m..][..n] == all[..m + n] && all[m..][n..] == all[m + n..]
  {}

  /** One more read of n bytes into a buffer of this size. */
  lemma {:induction false} FrontGrows(all: Bytes, asked: nat, size: nat, n: nat, before: Bytes, b: Bytes)
    requires n == Least(size, |all[|Front(all, asked)|..]|) && |before| == size
    requires b == Overwritten(before, 0, all[|Front(all, asked)|..][..n])
    ensures n <= |b| && Front(all, asked) + b[..n] == Front(all, asked + size)
    ensures all[|Front(all, asked)|..][n..] == all[|Front(all, asked + size)|..]
  {
    hide Front, Overwritten;
    var m := |Front(all, asked)|;
    FrontMore(all, asked, size);
    FilledFront(before, all[m..][..n]);
    TakeDrop(all, m, n);
  }

  /** However the reads are sized, together they give the chunks' contents from the start, as much as was asked for. */
  method ReadAll(chunks: seq<Bytes>, sizes: seq<nat>) returns (out: Bytes)
    ensures out == Front(Flatten(chunks), Total(sizes))
  {
    hide *;
    var stream := new ChunkStream(chunks);
    ghost var all := Flatten(chunks);
    out := [];
    NoSizes(sizes);
    FrontOfNone(all);
    for i := 0 to |sizes|
      invariant out == Front(all, Total(sizes[..i])) && stream.Remaining() == all[|out|..]
    {
      TotalStep(sizes, i);
      var b := new Byte[sizes[i]](k => 0);
      ghost var before := b[..];
      var n := stream.ReadInto(b);
      FrontGrows(all, Total(sizes[..i]), sizes[i], n, before, b[..]);
      out := out + b[..n];
    }
  }

  /** A file that was cut up is read back whole, given reads that ask for all of it. */
  method RoundTrip(data: Bytes, n: nat, sizes: seq<nat>) returns (out: Bytes)
    requires n >= NeededCount(|data|) && Total(sizes) >= |data|
    ensures out == data
  {
    var chunks := ChunkFile(data, n);
    out := ReadAll(chunks.value, sizes);
    assert data[..|data|] == data;
  }
}
