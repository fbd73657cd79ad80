/**
 Hashing in stripes, once over a whole input and once over chunks with a buffer, as
 XXH32 and XXH64 in src/xxhash.c both do.  The arithmetic of either width is a `Scheme`.
 */
module XxStream {

  /** V are the accumulators, H hashes and seeds.  start gives the accumulators for a seed and
      round consumes one stripe of width bytes.  begin makes the running hash of accumulators,
      seed and total length; word consumes a word of size bytes, small the bytes after the last
      word, and mix is the final mix. */
  datatype Scheme<!V, !H> = Scheme(
    width: nat,
    start: H -> V,
    round: (V, seq<bv8>) -> V,
    begin: (V, H, nat) -> H,
    size: nat,
    word: (H, seq<bv8>) -> H,
    small: (H, seq<bv8>) -> H,
    mix: H -> H)

  predicate Sized<V, H>(sc: Scheme<V, H>) { 0 < sc.size && 0 < sc.width }

  /** The accumulators after all whole stripes of s. */
  function Stripes<V, H>(sc: Scheme<V, H>, v: V, s: seq<bv8>): V
    requires sc.width > 0
    decreases |s|
  {
    if |s| < sc.width then v else Stripes(sc, sc.round(v, s[..sc.width]), s[sc.width..])
  }

  /** What is left of s after its whole stripes. */
  function Rest(width: nat, s: seq<bv8>): (r: seq<bv8>)
    requires width > 0
    ensures |r| < width
    decreases |s|
  {
    if |s| < width then s else Rest(width, s[width..])
  }

  function Hash<V, H>(sc: Scheme<V, H>, seed: H, s: seq<bv8>): H
    requires Sized(sc)
  {
    sc.mix(Tail(sc, sc.begin(Stripes(sc, sc.start(seed), s), seed, |s|), Rest(sc.width, s)))
  }

  /** The bytes after the last stripe: words as long as there are any, then what is left. */
  function Tail<V, H>(sc: Scheme<V, H>, h: H, s: seq<bv8>): H
    requires Sized(sc)
    decreases |s|
  {
    if |s| < sc.size then sc.small(h, s) else Tail(sc, sc.word(h, s[..sc.size]), s[sc.size..])
  }

  /** Input may be taken apart anywhere: the rest of the first part goes with the second. */
  lemma {:induction false} StripesApart<V, H>(sc: Scheme<V, H>, v: V, a: seq<bv8>, b: seq<bv8>)
    requires sc.width > 0
    ensures Stripes(sc, v, a + b) == Stripes(sc, Stripes(sc, v, a), Rest(sc.width, a) + b)
    ensures Rest(sc.width, a + b) == Rest(sc.width, Rest(sc.width, a) + b)
    decreases |a|
  {
    if |a| >= sc.width {
      var w := sc.width;
      assert (a + b)[..w] == a[..w] && (a + b)[w..] == a[w..] + b;
      StripesApart(sc, sc.round(v, a[..w]), a[w..], b);
    }
  }

  lemma OneStripe<V, H>(sc: Scheme<V, H>, v: V, a: seq<bv8>, b: seq<bv8>)
    requires sc.width > 0 && |a| == sc.width
    ensures Stripes(sc, v, a + b) == Stripes(sc, sc.round(v, a), b)
    ensures Rest(sc.width, a + b) == Rest(sc.width, b)
  {
    assert (a + b)[..sc.width] == a && (a + b)[sc.width..] == b;
  }

  /** The stripe loop over input from p on. */
  method Consume<V, H>(sc: Scheme<V, H>, v0: V, input: seq<bv8>, p0: nat) returns (v: V, p: nat)
    requires sc.width > 0 && p0 <= |input|
    ensures v == Stripes(sc, v0, input[p0..]) && p0 <= p <= |input| && input[p..] == Rest(sc.width, input[p0..])
  {
    v, p := v0, p0;
    while p + sc.width <= |input|
      invariant p0 <= p <= |input|
      invariant Stripes(sc, v, input[p..]) == Stripes(sc, v0, input[p0..])
      invariant Rest(sc.width, input[p..]) == Rest(sc.width, input[p0..])
    {
      assert input[p..][..sc.width] == input[p..p + sc.width] && input[p..][sc.width..] == input[p + sc.width..];
      v := sc.round(v, input[p..p + sc.width]);
      p := p + sc.width;
    }
  }

  /** The word loop over the tail, up to the bytes after the last word. */
  method WordLoop<V, H>(sc: Scheme<V, H>, h0: H, s: seq<bv8>) returns (h: H, p: nat)
    requires Sized(sc)
    ensures p <= |s| < p + sc.size && Tail(sc, h0, s) == sc.small(h, s[p..])
  {
    h, p := h0, 0;
    while p + sc.size <= |s|
      invariant 0 <= p <= |s| && Tail(sc, h, s[p..]) == Tail(sc, h0, s)
    {
      assert s[p..][..sc.size] == s[p..p + sc.size] && s[p..][sc.size..] == s[p + sc.size..];
      h := sc.word(h, s[p..p + sc.size]);
      p := p + sc.size;
    }
  }

  method Finish<V, H>(sc: Scheme<V, H>, h0: H, s: seq<bv8>) returns (h: H)
    requires Sized(sc)
    ensures h == sc.mix(Tail(sc, h0, s))
  {
    var p;
    h, p := WordLoop(sc, h0, s);
    h := sc.mix(sc.small(h, s[p..]));
  }

  /** The one-shot form up to the bytes after the last word. */
  method Words<V, H>(sc: Scheme<V, H>, input: seq<bv8>, seed: H) returns (h: H, rest: seq<bv8>)
    requires Sized(sc)
    ensures |rest| < sc.size && Hash(sc, seed, input) == sc.mix(sc.small(h, rest))
  {
    var v, p := sc.start(seed), 0;
    if |input| >= sc.width {
      v, p := Consume(sc, v, input, p);
    }
    var q;
    h, q := WordLoop(sc, sc.begin(v, seed, |input|), input[p..]);
    rest := input[p..][q..];
  }

  /** The one-shot form; a length is a 64-bit number. */
  method OneShot<V, H>(sc: Scheme<V, H>, input: seq<bv8>, seed: H) returns (h: H)
    requires Sized(sc)
    ensures h == Hash(sc, seed, input)
  {
    var rest;
    h, rest := Words(sc, input, seed);
    h := sc.mix(sc.small(h, rest));
  }

  const MAX_LENGTH := 0x1_0000_0000_0000_0000

  lemma LengthsAdd(a: nat, b: nat)
    ensures (a % MAX_LENGTH + b) % MAX_LENGTH == (a + b) % MAX_LENGTH
  {}

  /** The streaming state: accumulators of the whole stripes so far, and the rest in a buffer. */
  class StreamState<V(!new), H(!new)> {
    const sc: Scheme<V, H>
    const mem: array<bv8>
    var seed: H
    var v: V
    var total: nat
    var memsize: nat
    ghost var fed: seq<bv8>

    ghost predicate Valid()
      reads this, mem
    {
      && Sized(sc) && mem.Length == sc.width && memsize < sc.width
      && v == Stripes(sc, sc.start(seed), fed) && mem[..memsize] == Rest(sc.width, fed)
      && total == |fed| % MAX_LENGTH
    }

    /** A state after reset. */
    constructor (scheme: Scheme<V, H>, seed0: H)
      requires Sized(scheme)
      ensures Valid() && fed == [] && seed == seed0 && sc == scheme && fresh(mem)
    {
      sc, seed, v, total, memsize, fed := scheme, seed0, scheme.start(seed0), 0, 0, [];
      mem := new bv8[scheme.width](_ => 0);
      new;
      assert mem[..0] == [];
    }

    method Reset(seed0: H)
      requires Valid()
      modifies this
      ensures Valid() && fed == [] && seed == seed0
    {
      seed, v, total, memsize, fed := seed0, sc.start(seed0), 0, 0, [];
      assert mem[..0] == [];
    }

    /** memcpy of the bytes from p on, n of them, to offset at of the buffer. */
    method Copy(at: nat, input: seq<bv8>, p: nat, n: nat)
      requires at + n <= mem.Length && p + n <= |input|
      modifies mem
      ensures mem[..at + n] == old(mem[..at]) + input[p..p + n]
    {
      forall i | 0 <= i < n { mem[at + i] := input[p + i]; }
    }

    /** Too little for a stripe. */
    method Keep(input: seq<bv8>)
      requires sc.width > 0 && mem.Length == sc.width && memsize + |input| < sc.width
      modifies this`memsize, mem
      ensures memsize < sc.width && v == Stripes(sc, v, old(mem[..memsize]) + input)
      ensures mem[..memsize] == Rest(sc.width, old(mem[..memsize]) + input)
    {
      Copy(memsize, input, 0, |input|);
      assert input[0..|input|] == input;
      memsize := memsize + |input|;
    }

    /** Data left from an earlier update is completed to a stripe, which empties the buffer. */
    method Fill(input: seq<bv8>) returns (p: nat)
      requires sc.width > 0 && mem.Length == sc.width && memsize < sc.width <= memsize + |input|
      modifies this`v, this`memsize, mem
      ensures memsize == 0 && p <= |input|
      ensures Stripes(sc, v, input[p..]) == Stripes(sc, old(v), old(mem[..memsize]) + input)
      ensures Rest(sc.width, input[p..]) == Rest(sc.width, old(mem[..memsize]) + input)
    {
      p := 0;
      ghost var rest := mem[..memsize];
      if memsize != 0 {
        p := sc.width - memsize;
        Copy(memsize, input, 0, p);
        assert mem[..sc.width] == mem[..];
        assert rest + input == mem[..] + input[p..];
        OneStripe(sc, v, mem[..], input[p..]);
        v := sc.round(v, mem[..]);
        memsize := 0;
      } else {
        assert rest + input == input[p..];
      }
    }

    /** Whole stripes straight from the input, the rest into the empty buffer. */
    method Drain(input: seq<bv8>, p0: nat)
      requires sc.width > 0 && mem.Length == sc.width && memsize == 0 && p0 <= |input|
      modifies this`v, this`memsize, mem
      ensures memsize < sc.width && v == Stripes(sc, old(v), input[p0..])
      ensures mem[..memsize] == Rest(sc.width, input[p0..])
    {
      var p := p0;
      assert mem[..0] == [];
      if p + sc.width <= |input| {
        v, p := Consume(sc, v, input, p);
      }
      assert input[p..] == Rest(sc.width, input[p0..]);
      if p < |input| {
        Copy(0, input, p, |input| - p);
        memsize := |input| - p;
        assert input[p..p + memsize] == input[p..];
      }
      assert mem[..memsize] == input[p..];
    }

    /** Whatever the chunk, the state is that of all bytes fed so far. */
    method Update(input: seq<bv8>)
      requires Valid()
      modifies this, mem
      ensures Valid() && fed == old(fed) + input && seed == old(seed)
    {
      StripesApart(sc, sc.start(seed), fed, input);
      LengthsAdd(|fed|, |input|);
      total := (total + |input|) % MAX_LENGTH;
      fed := fed + input;
      if memsize + |input| < sc.width {
        Keep(input);
      } else {
        var p := Fill(input);
        Drain(input, p);
      }
    }

    /** The hash of everything fed, as long as its length is a 64-bit number. */
    method Digest() returns (h: H)
      requires Valid()
      ensures |fed| < MAX_LENGTH ==> h == Hash(sc, seed, fed)
    {
      h := Finish(sc, sc.begin(v, seed, total), mem[..memsize]);
    }
  }

  // ---- any chunking ----

  function Joined(chunks: seq<seq<bv8>>): seq<bv8> {
    if chunks == [] then [] else Joined(chunks[..|chunks| - 1]) + chunks[|chunks| - 1]
  }

  /** Reset, one update a chunk, digest: the same hash as the one-shot form for every way of
      cutting the input, empty chunks included. */
  method Streamed<V(!new), H(!new, ==)>(sc: Scheme<V, H>, chunks: seq<seq<bv8>>, seed: H) returns (h: H, same: bool)
    requires Sized(sc) && |Joined(chunks)| < MAX_LENGTH
    ensures h == Hash(sc, seed, Joined(chunks)) && same
  {
    var s := new StreamState(sc, seed);
    var i := 0;
    while i < |chunks|
      invariant 0 <= i <= |chunks| && s.Valid() && s.sc == sc && s.seed == seed && s.fed == Joined(chunks[..i])
      invariant fresh(s) && fresh(s.mem)
    {
      s.Update(chunks[i]);
      i := i + 1;
      assert chunks[..i][..i - 1] == chunks[..i - 1];
    }
    assert chunks[..i] == chunks;
    h := s.Digest();
    var once := OneShot(sc, Joined(chunks), seed);
    same := h == once;
  }

  // ---- maps that lose nothing ----

  ghost predicate Injective<T(!new)>(f: T -> T) {
    forall x, y {:trigger f(x), f(y)} :: f(x) == f(y) ==> x == y
  }

  lemma Undone<T(!new)>(back: T -> T, f: T -> T)
    requires forall x {:trigger f(x)} :: back(f(x)) == x
    ensures Injective(f)
  {
    forall x, y | f(x) == f(y) ensures x == y {
      assert back(f(x)) == x && back(f(y)) == y;
    }
  }

  lemma Chain3<T(!new)>(f1: T -> T, f2: T -> T, f3: T -> T, x: T, y: T)
    requires Injective(f1) && Injective(f2) && Injective(f3) && f3(f2(f1(x))) == f3(f2(f1(y)))
    ensures x == y
  {}

  lemma Chain5<T(!new)>(f1: T -> T, f2: T -> T, f3: T -> T, f4: T -> T, f5: T -> T, x: T, y: T)
    requires Injective(f1) && Injective(f2) && Injective(f3) && Injective(f4) && Injective(f5)
    requires f5(f4(f3(f2(f1(x))))) == f5(f4(f3(f2(f1(y)))))
    ensures x == y
  {}

  /** Cancelling an operation, then the bijection before it. */
  lemma Behind<T(!new)>(plus: (T, T) -> T, f: T -> T, h: T, v: T, w: T)
    requires Injective(f) && (plus(h, f(v)) == plus(h, f(w)) ==> f(v) == f(w)) && plus(h, f(v)) == plus(h, f(w))
    ensures v == w
  {}

  /** Cancelling a bijection after an operation that cancels on the left. */
  lemma Through<T(!new)>(turn: T -> T, join: (T, T) -> T, h: T, v: T, w: T)
    requires Injective(turn) && (join(h, v) == join(h, w) ==> v == w) && turn(join(h, v)) == turn(join(h, w))
    ensures v == w
  {}

  // ---- little-endian reads ----

  function Little4(a: bv8, b: bv8, c: bv8, d: bv8): bv32 {
    (a as bv32) | (b as bv32 << 8) | (c as bv32 << 16) | (d as bv32 << 24)
  }

  lemma BytesOf4(a: bv8, b: bv8, c: bv8, d: bv8)
    ensures var w := (a as bv32) | (b as bv32 << 8) | (c as bv32 << 16) | (d as bv32 << 24);
            && (w & 0xFF) as bv8 == a && ((w >> 8) & 0xFF) as bv8 == b && ((w >> 16) & 0xFF) as bv8 == c
                 && (w >> 24) as bv8 == d
  {}

  lemma Little4Injective(a: bv8, b: bv8, c: bv8, d: bv8, e: bv8, f: bv8, g: bv8, h: bv8)
    requires Little4(a, b, c, d) == Little4(e, f, g, h)
    ensures a == e && b == f && c == g && d == h
  {
    BytesOf4(a, b, c, d);
    BytesOf4(e, f, g, h);
  }

  // ---- inputs of one word ----

  /** The final mix loses nothing, and neither does taking in a word. */
  ghost predicate Lossless<V(!new), H(!new)>(sc: Scheme<V, H>) {
    && (forall x, y {:trigger sc.mix(x), sc.mix(y)} :: sc.mix(x) == sc.mix(y) ==> x == y)
    && (forall h, s, t {:trigger sc.word(h, s), sc.word(h, t)} ::
          |s| == |t| == sc.size && sc.word(h, s) == sc.word(h, t) ==> s == t)
    && (forall h {:trigger sc.small(h, [])} :: sc.small(h, []) == h)
  }

  lemma HashOfWord<V, H>(sc: Scheme<V, H>, seed: H, s: seq<bv8>)
    requires Sized(sc) && |s| == sc.size < sc.width
    ensures Hash(sc, seed, s) == sc.mix(sc.small(sc.word(sc.begin(sc.start(seed), seed, sc.size), s), []))
  {
    var h := sc.begin(sc.start(seed), seed, sc.size);
    assert s[..sc.size] == s && s[sc.size..] == [];
    assert Tail(sc, h, s) == Tail(sc, sc.word(h, s), []);
  }

  /** Then inputs of exactly one word have different hashes, whatever the seed. */
  lemma InjectiveOnWords<V(!new), H(!new)>(sc: Scheme<V, H>, seed: H, s: seq<bv8>, t: seq<bv8>)
    requires Sized(sc) && Lossless(sc) && |s| == |t| == sc.size < sc.width && Hash(sc, seed, s) == Hash(sc, seed, t)
    ensures s == t
  {
    HashOfWord(sc, seed, s);
    HashOfWord(sc, seed, t);
    var h := sc.begin(sc.start(seed), seed, sc.size);
    assert sc.small(sc.word(h, s), []) == sc.word(h, s) && sc.small(sc.word(h, t), []) == sc.word(h, t);
  }
}
