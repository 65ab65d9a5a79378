/**
 The relay's store of encrypted frames: identical retries are harmless, nothing stored is ever
 replaced, and what is stored under a key stays within the quota.
 */
module BlobStore {
  import opened Choice
  import opened Options

  type Byte = b: int | 0 <= b < 256

  datatype BlobKey = BlobKey(transferId: string, recipient: string, artifactId: string)
  datatype Chunk = Chunk(index: int, ciphertext: array<Byte>, hash: int)

  /** A frame by value. */
  datatype Frame = Frame(ciphertext: seq<Byte>, hash: int)
  datatype Verdict = Stored | Invalid | Mismatch | Immutable | Unauthorized

  type Shelf = map<int, Frame>
  type Contents = map<BlobKey, Shelf>

  // Bytes on a shelf, in whatever order its frames are visited.

  ghost function Total(shelf: Shelf): nat
    decreases |shelf|
  {
    if exists i :: i in shelf then
      var i :| i in shelf;
      ShrinkShelf(shelf, i);
      |shelf[i].ciphertext| + Total(shelf - {i})
    else
      0
  }

  lemma ShrinkShelf(shelf: Shelf, i: int)
    requires i in shelf
    ensures |shelf - {i}| == |shelf| - 1
  {
    assert (shelf - {i}).Keys == shelf.Keys - {i};
  }

  lemma {:induction false} TotalWithout(shelf: Shelf, i: int)
    requires i in shelf
    ensures Total(shelf) == |shelf[i].ciphertext| + Total(shelf - {i})
    decreases |shelf|
  {
    var j :| j in shelf && Total(shelf) == |shelf[j].ciphertext| + Total(shelf - {j});
    if i != j {
      ShrinkShelf(shelf, i);
      ShrinkShelf(shelf, j);
      TotalWithout(shelf - {j}, i);
      TotalWithout(shelf - {i}, j);
      assert shelf - {i} - {j} == shelf - {j} - {i};
    }
  }

  lemma TotalWith(shelf: Shelf, i: int, frame: Frame)
    requires i !in shelf
    ensures Total(shelf[i := frame]) == Total(shelf) + |frame.ciphertext|
  {
    TotalWithout(shelf[i := frame], i);
    assert shelf[i := frame] - {i} == shelf;
  }

  type Digest = seq<Byte> -> int

  datatype Request = Request(key: BlobKey, index: int, frame: Frame, maxBytes: int)

  function ShelfOf(c: Contents, key: BlobKey): Shelf {
    if key in c then c[key] else map[]
  }

  predicate WellNamed(r: Request) {
    r.key.transferId != "" && r.key.recipient != "" && r.key.artifactId != "" && r.index >= 0
  }

  predicate Genuine(digest: Digest, frame: Frame) {
    digest(frame.ciphertext) == frame.hash
  }

  ghost predicate Fits(shelf: Shelf, r: Request) {
    r.maxBytes >= 1 && Total(shelf) + |r.frame.ciphertext| <= r.maxBytes
  }

  /** One request, by value: what the store then holds and what the caller is told. */
  ghost function Admit(digest: Digest, c: Contents, r: Request): (Contents, Verdict) {
    if !WellNamed(r) then (c, Invalid)
    else if !Genuine(digest, r.frame) then (c, Mismatch)
    else
      var shelf := ShelfOf(c, r.key);
      if r.index in shelf then (c, if shelf[r.index] == r.frame then Stored else Immutable)
      else if !Fits(shelf, r) then (c[r.key := shelf], Unauthorized)
      else (c[r.key := shelf[r.index := r.frame]], Stored)
  }

  /** What a store holds after a history of requests. */
  ghost function Run(digest: Digest, c: Contents, history: seq<Request>): Contents {
    if history == [] then c
    else
      var n := |history| - 1;
      Admit(digest, Run(digest, c, history[..n]), history[n]).0
  }

  predicate Holds(c: Contents, key: BlobKey, index: int, frame: Frame) {
    key in c && index in c[key] && c[key][index] == frame
  }

  /** A frame once stored is stored for ever, whatever is asked afterwards. */
  lemma {:induction false} NeverReplaced(digest: Digest, c: Contents, history: seq<Request>, key: BlobKey,
      index: int, frame: Frame)
    requires Holds(c, key, index, frame)
    ensures Holds(Run(digest, c, history), key, index, frame)
  {
    if history != [] {
      NeverReplaced(digest, c, history[..|history| - 1], key, index, frame);
    }
  }

  /** Retrying an accepted request is accepted at any later time and under any limit, and changes nothing; another
      frame never is. */
  lemma RetryIsHarmless(digest: Digest, c: Contents, r: Request, history: seq<Request>, again: Request)
    requires Admit(digest, c, r).1.Stored?
    requires again.key == r.key && again.index == r.index && Genuine(digest, again.frame)
    ensures var later := Run(digest, Admit(digest, c, r).0, history);
            Admit(digest, later, again) == (later, if again.frame == r.frame then Stored else Immutable)
  {
    NeverReplaced(digest, Admit(digest, c, r).0, history, r.key, r.index, r.frame);
  }

  /** While no request for a key allows more than `limit`, the bytes under that key never exceed it. */
  lemma {:induction false} WithinQuota(digest: Digest, history: seq<Request>, key: BlobKey, limit: nat)
    requires forall r | r in history && r.key == key :: r.maxBytes <= limit
    ensures Total(ShelfOf(Run(digest, map[], history), key)) <= limit
  {
    if history != [] {
      var n := |history| - 1;
      var r, before := history[n], Run(digest, map[], history[..n]);
      WithinQuota(digest, history[..n], key, limit);
      var shelf := ShelfOf(before, key);
      if r.key == key && r.index !in shelf {
        TotalWith(shelf, r.index, r.frame);
      }
    }
  }

  /** Everything in the store was asked for, under a proper name, and matches its hash. */
  lemma {:induction false} OnlyGenuineFrames(digest: Digest, history: seq<Request>, key: BlobKey, index: int,
      frame: Frame)
    requires Holds(Run(digest, map[], history), key, index, frame)
    ensures index >= 0 && Genuine(digest, frame)
    ensures exists r :: r in history && r.key == key && r.index == index && r.frame == frame
  {
    var n := |history| - 1;
    if Holds(Run(digest, map[], history[..n]), key, index, frame) {
      OnlyGenuineFrames(digest, history[..n], key, index, frame);
    } else {
      assert history[n] in history;
    }
  }

  /** The indices of `n` frames. */
  function Range(n: nat): (r: set<int>)
    ensures |r| == n
    ensures forall i :: i in r <==> 0 <= i < n
  {
    if n == 0 then {} else Range(n - 1) + {n - 1}
  }

  /** The frames held by the store. Every buffer in it is the store's own. */
  class BlobStore {
    const digest: Digest
    var frames: map<BlobKey, map<int, Chunk>>
    ghost var buffers: set<array<Byte>>

    ghost predicate Valid() reads this {
      forall key, i | key in frames && i in frames[key] :: frames[key][i].ciphertext in buffers
    }

    ghost function View(): Contents
      requires Valid()
      reads this, buffers
    {
      map key | key in frames :: ShelfByValue(frames[key])
    }

    constructor (digest: Digest)
      ensures Valid() && this.digest == digest && View() == map[] && buffers == {}
    {
      this.digest, frames, buffers := digest, map[], {};
    }

    /** An absent shelf becomes an empty one. */
    method OpenShelf(key: BlobKey)
      requires Valid()
      modifies this
      ensures Valid() && buffers == old(buffers) && key in frames
      ensures View() == old(View())[key := ShelfOf(old(View()), key)]
    {
      if key !in frames { frames := frames[key := map[]]; }
      assert View()[key] == ShelfOf(old(View()), key);
    }

    /** The frame is copied into a buffer of the store's own. */
    method Shelve(key: BlobKey, frame: Chunk)
      requires Valid() && key in frames
      modifies this
      ensures Valid() && fresh(buffers - old(buffers)) && old(buffers) <= buffers
      ensures View() == old(View())[key := old(View())[key][frame.index := ByValue(frame)]]
    {
      var clone := CloneChunk(frame);
      Own(clone.ciphertext);
      Place(key, clone);
    }

    /** One more buffer belongs to the store. */
    method Own(buffer: array<Byte>)
      requires Valid()
      modifies `buffers
      ensures Valid() && buffers == old(buffers) + {buffer} && View() == old(View())
    {
      buffers := buffers + {buffer};
    }

    /** A frame in a buffer of the store's own goes on its shelf. */
    method Place(key: BlobKey, chunk: Chunk)
      requires Valid() && key in frames && chunk.ciphertext in buffers
      modifies `frames
      ensures Valid()
      ensures View() == old(View())[key := old(View())[key][chunk.index := ByValue(chunk)]]
    {
      var shelf := frames[key];
      ShelfUpdate(shelf, chunk.index, chunk);
      frames := frames[key := shelf[chunk.index := chunk]];
    }

    /** Put does what one request does by value, and keeps a copy that nobody else holds. */
    method Put(key: BlobKey, frame: Chunk, maxBytes: int) returns (verdict: Verdict)
      requires Valid()
      modifies this
      ensures Valid() && fresh(buffers - old(buffers)) && old(buffers) <= buffers
      ensures (View(), verdict) == Admit(digest, old(View()), Request(key, frame.index, ByValue(frame), maxBytes))
    {
      if key.transferId == "" || key.recipient == "" || key.artifactId == "" || frame.index < 0 { return Invalid; }
      if digest(frame.ciphertext[..]) != frame.hash { return Mismatch; }
      OpenShelf(key);
      var shelf := frames[key];
      if frame.index in shelf {
        assert frame.index in View()[key] && key in old(View());
        assert View() == old(View());
        var existing := shelf[frame.index];
        if existing.ciphertext[..] == frame.ciphertext[..] && existing.hash == frame.hash { return Stored; }
        return Immutable;
      }
      var storedBytes := StoredBytes(shelf, View()[key]);
      if maxBytes < 1 || storedBytes + frame.ciphertext.Length > maxBytes { return Unauthorized; }
      ghost var held := View()[key];
      Shelve(key, frame);
      assert View() == old(View())[key := held[frame.index := ByValue(frame)]];
      return Stored;
    }

    /** The indices present are exactly 0 to count - 1: as many as declared, and each declared one among them. */
    method HasAll(key: BlobKey, count: int) returns (all: bool)
      requires Valid()
      ensures all <==> count >= 1 && ShelfOf(View(), key).Keys == Range(count)
    {
      if count < 1 { return false; }
      var shelf := if key in frames then frames[key] else map[];
      assert ShelfOf(View(), key).Keys == shelf.Keys;
      if |shelf| != count { return false; }
      for index := 0 to count
        invariant forall i | 0 <= i < index :: i in shelf
      {
        if index !in shelf { return false; }
      }
      SubsetOfSameSize(Range(count), shelf.Keys);
      return true;
    }

    /** Get hands out a copy nobody else holds. */
    method Get(key: BlobKey, index: int) returns (chunk: Option<Chunk>)
      requires Valid()
      ensures chunk.Some? <==> index in ShelfOf(View(), key)
      ensures chunk.Some? ==> fresh(chunk.value.ciphertext) && ByValue(chunk.value) == View()[key][index]
    {
      if key !in frames || index !in frames[key] { return None; }
      var clone := CloneChunk(frames[key][index]);
      return Some(clone);
    }

    /** Nothing a caller does to its own buffers, the ones it stored or the ones it was given, reaches the store. */
    method CallerWrites(buffer: array<Byte>, at: nat, value: Byte)
      requires Valid() && buffer !in buffers && at < buffer.Length
      modifies buffer
      ensures Valid() && View() == old(View())
    {
      buffer[at] := value;
    }
  }

  ghost function ByValue(chunk: Chunk): Frame
    reads chunk.ciphertext
  {
    Frame(chunk.ciphertext[..], chunk.hash)
  }

  ghost function ShelfByValue(shelf: map<int, Chunk>): Shelf
    reads set i | i in shelf :: shelf[i].ciphertext
  {
    map i | i in shelf :: ByValue(shelf[i])
  }

  lemma ShelfUpdate(shelf: map<int, Chunk>, index: int, chunk: Chunk)
    ensures ShelfByValue(shelf[index := chunk]) == ShelfByValue(shelf)[index := ByValue(chunk)]
  {
  }

  method CloneChunk(chunk: Chunk) returns (clone: Chunk)
    ensures fresh(clone.ciphertext) && clone.index == chunk.index && ByValue(clone) == ByValue(chunk)
  {
    var source := chunk.ciphertext;
    var copy := new Byte[source.Length](i requires 0 <= i < source.Length reads source => source[i]);
    clone := chunk.(ciphertext := copy);
    assert copy[..] == chunk.ciphertext[..];
  }

  function Only(shelf: Shelf, indices: set<int>): Shelf {
    map i | i in shelf && i in indices :: shelf[i]
  }

  /** The summing loop over a shelf, which visits the frames in any order. */
  method StoredBytes(shelf: map<int, Chunk>, ghost view: Shelf) returns (bytes: nat)
    requires shelf.Keys == view.Keys
    requires forall i | i in shelf :: |view[i].ciphertext| == shelf[i].ciphertext.Length
    ensures bytes == Total(view)
  {
    bytes := 0;
    var rest := shelf.Keys;
    assert Only(view, rest) == view;
    while rest != {}
      invariant rest <= shelf.Keys
      invariant bytes + Total(Only(view, rest)) == Total(view)
      decreases rest
    {
      var i := Pick(rest);
      TotalWithout(Only(view, rest), i);
      assert Only(view, rest) - {i} == Only(view, rest - {i});
      bytes := bytes + shelf[i].ciphertext.Length;
      rest := rest - {i};
    }
  }
}
