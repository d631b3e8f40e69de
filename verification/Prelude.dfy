/** Shared vocabulary: results, bytes, and the cutting of a sequence into chunks. */
module Prelude {

  datatype Option<+T> = None | Some(value: T)

  datatype Result<+T, +E> = Ok(value: T) | Err(error: E)

  type byte = x: int | 0 <= x < 256

  function Max(a: int, b: int): int {
    if a < b then b else a
  }

  function Min(a: int, b: int): int {
    if a < b then a else b
  }

  /** Concatenation of a sequence of sequences. */
  function Flatten<T>(xss: seq<seq<T>>): seq<T> {
    if xss == [] then [] else xss[0] + Flatten(xss[1..])
  }

  /** The requests a chunking loop sends: `size` elements each, the last one possibly shorter. */
  function Chunks<T>(xs: seq<T>, size: nat): seq<seq<T>>
    requires size > 0
  {
    if xs == [] then []
    else if |xs| <= size then [xs]
    else [xs[..size]] + Chunks(xs[size..], size)
  }

  /** Chunking loses nothing and reorders nothing, keeps every chunk within the
      ceiling and nonempty, and needs exactly ceil(n / size) chunks: the least
      count whose total capacity reaches n. */
  lemma {:induction false} ChunksPartition<T>(xs: seq<T>, size: nat)
    requires size > 0
    ensures Flatten(Chunks(xs, size)) == xs
    ensures forall c | c in Chunks(xs, size) :: 0 < |c| <= size
    ensures |xs| <= |Chunks(xs, size)| * size < |xs| + size
  {
    if xs == [] {
    } else if |xs| <= size {
      assert Flatten([xs]) == xs + Flatten([]) == xs;
    } else {
      ChunksPartition(xs[size..], size);
      assert xs == xs[..size] + xs[size..];
      Successor(|Chunks(xs[size..], size)|, size);
    }
  }

  /** Every chunk but the last is full. */
  lemma {:induction false} ChunksFull<T>(xs: seq<T>, size: nat, i: nat)
    requires size > 0 && i + 1 < |Chunks(xs, size)|
    ensures |Chunks(xs, size)[i]| == size
  {
    if i > 0 {
      ChunksFull(xs[size..], size, i - 1);
    }
  }

  /** The first k chunks hold the first k * size elements, and more are to come exactly while some are left. */
  lemma {:induction false} ChunksPrefix<T>(xs: seq<T>, size: nat, k: nat)
    requires size > 0 && k <= |Chunks(xs, size)|
    ensures |Flatten(Chunks(xs, size)[..k])| == Min(k * size, |xs|)
    ensures k < |Chunks(xs, size)| <==> k * size < |xs|
  {
    var chunks := Chunks(xs, size);
    if k == 0 {
      assert chunks[..0] == [];
    } else if |xs| <= size {
      assert chunks[..1] == [xs] && Flatten([xs]) == xs + Flatten([]) == xs;
    } else {
      ChunksPrefix(xs[size..], size, k - 1);
      assert chunks[..k] == [xs[..size]] + Chunks(xs[size..], size)[..k - 1];
      Successor(k - 1, size);
    }
  }

  /** The chunks still to come once `start` elements are through. */
  function ChunksFrom<T>(xs: seq<T>, start: nat, size: nat): seq<seq<T>>
    requires size > 0
  {
    if start < |xs| then Chunks(xs[start..], size) else []
  }

  /** The slice a chunking loop takes at `start` is the next chunk. */
  lemma NextChunk<T>(xs: seq<T>, start: nat, size: nat)
    requires size > 0 && start < |xs|
    ensures ChunksFrom(xs, start, size)
            == [xs[start..Min(start + size, |xs|)]] + ChunksFrom(xs, start + size, size)
  {
    var tail := xs[start..];
    if |tail| > size {
      assert tail[size..] == xs[start + size..];
      assert tail[..size] == xs[start..start + size];
    } else {
      assert tail == xs[start..Min(start + size, |xs|)];
    }
  }

  lemma Assoc<T>(a: seq<T>, b: seq<T>, c: seq<T>)
    ensures a + (b + c) == a + b + c
  {
  }

  lemma MulMonotone(a: nat, b: nat, m: nat)
    requires a <= b
    ensures a * m <= b * m
  {
  }

  lemma Successor(n: nat, size: nat)
    ensures (1 + n) * size == size + n * size
  {
  }

  lemma {:induction false} FlattenAppend<T>(a: seq<seq<T>>, b: seq<seq<T>>)
    ensures Flatten(a + b) == Flatten(a) + Flatten(b)
  {
    if a == [] {
      assert a + b == b;
    } else {
      FlattenAppend(a[1..], b);
      assert (a + b)[0] == a[0] && (a + b)[1..] == a[1..] + b;
      Assoc(a[0], Flatten(a[1..]), Flatten(b));
    }
  }
}
