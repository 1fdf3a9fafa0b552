/** A resumable xorshift generator: how its output is cut into chunks never shows. */
module ByteGenerator {
  const FALLBACK_SEED: bv32 := 0x9e3779b9

  /** One xorshift step: the new state, which is also the word emitted. */
  function NextUint32(state: bv32): bv32 {
    var a := state ^ (state << 13);
    var b := a ^ (a >> 17);
    b ^ (b << 5)
  }

  /** The step undone. */
  function PreviousUint32(word: bv32): bv32 {
    var b := word ^ (word << 5) ^ (word << 10) ^ (word << 15) ^ (word << 20) ^ (word << 25) ^ (word << 30);
    var a := b ^ (b >> 17);
    a ^ (a << 13) ^ (a << 26)
  }

  lemma NextIs(x: bv32)
    ensures NextUint32(x) == (var a := x ^ (x << 13); var b := a ^ (a >> 17); b ^ (b << 5))
  {
  }

  lemma PreviousIs(x: bv32)
    ensures PreviousUint32(x) ==
      (var b := x ^ (x << 5) ^ (x << 10) ^ (x << 15) ^ (x << 20) ^ (x << 25) ^ (x << 30);
       var a := b ^ (b >> 17);
       a ^ (a << 13) ^ (a << 26))
  {
  }

  lemma StepsBack(x: bv32)
    ensures
      var a := x ^ (x << 13);
      var b := a ^ (a >> 17);
      var c := b ^ (b << 5);
      var d := c ^ (c << 5) ^ (c << 10) ^ (c << 15) ^ (c << 20) ^ (c << 25) ^ (c << 30);
      var e := d ^ (d >> 17);
      e ^ (e << 13) ^ (e << 26) == x
  {
  }

  lemma StepsForth(x: bv32)
    ensures
      var d := x ^ (x << 5) ^ (x << 10) ^ (x << 15) ^ (x << 20) ^ (x << 25) ^ (x << 30);
      var e := d ^ (d >> 17);
      var c := e ^ (e << 13) ^ (e << 26);
      var a := c ^ (c << 13);
      var b := a ^ (a >> 17);
      b ^ (b << 5) == x
  {
  }

  lemma PreviousOfStep(x: bv32)
    ensures PreviousUint32((var a := x ^ (x << 13); var b := a ^ (a >> 17); b ^ (b << 5))) == x
  {
    StepsBack(x);
  }

  lemma NextOfUnstep(x: bv32)
    ensures NextUint32(
      (var b := x ^ (x << 5) ^ (x << 10) ^ (x << 15) ^ (x << 20) ^ (x << 25) ^ (x << 30);
       var a := b ^ (b >> 17);
       a ^ (a << 13) ^ (a << 26))) == x
  {
    StepsForth(x);
  }

  lemma PreviousOfNext(x: bv32)
    ensures PreviousUint32(NextUint32(x)) == x
  {
    PreviousOfStep(x);
    NextIs(x);
  }

  lemma NextOfPrevious(x: bv32)
    ensures NextUint32(PreviousUint32(x)) == x
  {
    NextOfUnstep(x);
    PreviousIs(x);
  }

  lemma ZeroStays()
    ensures NextUint32(0) == 0 && PreviousUint32(0) == 0
  {
  }

  /** Zero is the only word that leads to zero. */
  lemma ZeroOnlyFromZero(word: bv32)
    ensures NextUint32(word) == 0 <==> word == 0
  {
    ZeroStays();
    if NextUint32(word) == 0 { PreviousOfNext(word); }
  }

  // ----- bytes

  /** The xorshift word and the bytes of it not yet emitted. */
  datatype State = State(word: bv32, pending: seq<bv8>)

  function BytesOfWord(value: bv32): seq<bv8> {
    [(value & 0xff) as bv8, ((value >> 8) & 0xff) as bv8, ((value >> 16) & 0xff) as bv8, ((value >> 24) & 0xff) as bv8]
  }

  /** The bytes make up the word again, least significant first. */
  lemma BytesCompose(value: bv32)
    ensures var b := BytesOfWord(value);
      && |b| == 4
      && (b[0] as bv32) | (b[1] as bv32 << 8) | (b[2] as bv32 << 16) | (b[3] as bv32 << 24) == value
  {
  }

  /** `seed | 0`, with zero itself remapped. */
  function InitialState(seed: int): State {
    State(if seed == 0 then FALLBACK_SEED else LowWord(seed), [])
  }

  function LowWord(seed: int): bv32 {
    (seed % 0x1_0000_0000) as bv32
  }

  function Refilled(s: State): (r: State)
    ensures r.pending != []
  {
    if s.pending == [] then State(NextUint32(s.word), BytesOfWord(NextUint32(s.word))) else s
  }

  /** The first `length` bytes drawn from a state, and the state after them. */
  function Bytes(s: State, length: nat): seq<bv8>
    decreases length
  {
    if length == 0 then [] else var r := Refilled(s); [r.pending[0]] + Bytes(State(r.word, r.pending[1..]), length - 1)
  }

  function After(s: State, length: nat): State
    decreases length
  {
    if length == 0 then s else var r := Refilled(s); After(State(r.word, r.pending[1..]), length - 1)
  }

  lemma {:induction false} BytesLength(s: State, length: nat)
    ensures |Bytes(s, length)| == length
    decreases length
  {
    if length > 0 {
      var r := Refilled(s);
      BytesLength(State(r.word, r.pending[1..]), length - 1);
    }
  }

  /** Drawing in two parts is drawing at once, wherever the cut falls. */
  lemma {:induction false} CutAnywhere(s: State, m: nat, n: nat)
    ensures Bytes(s, m + n) == Bytes(s, m) + Bytes(After(s, m), n)
    ensures After(s, m + n) == After(After(s, m), n)
    decreases m
  {
    if m > 0 {
      var r := Refilled(s);
      CutAnywhere(State(r.word, r.pending[1..]), m - 1, n);
    }
  }

  /** The invariant of the filling loop: what is written and what is still to come make up the whole. */
  ghost predicate Filling(start: State, length: nat, written: seq<bv8>, now: State)
    requires |written| <= length
  {
    && written + Bytes(now, length - |written|) == Bytes(start, length)
    && After(now, length - |written|) == After(start, length)
  }

  lemma FillStep(start: State, length: nat, written: seq<bv8>, now: State)
    requires |written| < length && Filling(start, length, written, now)
    ensures var r := Refilled(now); Filling(start, length, written + [r.pending[0]], State(r.word, r.pending[1..]))
  {
    var r := Refilled(now);
    var rest := Bytes(State(r.word, r.pending[1..]), length - |written| - 1);
    assert written + ([r.pending[0]] + rest) == written + [r.pending[0]] + rest;
  }

  lemma Filled(start: State, length: nat, written: seq<bv8>, now: State)
    requires |written| == length && Filling(start, length, written, now)
    ensures written == Bytes(start, length) && now == After(start, length)
  {
    assert written + [] == written;
  }

  method Refill(s: State) returns (r: State)
    ensures r == Refilled(s)
  {
    r := s;
    if |s.pending| == 0 {
      var word := NextUint32(s.word);
      r := State(word, BytesOfWord(word));
    }
  }

  /** `fillPseudoRandomBytes` on a resumable state. */
  method FillPseudoRandomBytes(length: nat, state: State) returns (bytes: array<bv8>, nextState: State)
    ensures fresh(bytes) && bytes.Length == length
    ensures bytes[..] == Bytes(state, length) && nextState == After(state, length)
  {
    nextState := state;
    bytes := new bv8[length];
    for i := 0 to length
      invariant Filling(state, length, bytes[..i], nextState)
    {
      FillStep(state, length, bytes[..i], nextState);
      var refilled := Refill(nextState);
      bytes[i] := refilled.pending[0];
      assert bytes[..i + 1] == bytes[..i] + [refilled.pending[0]];
      nextState := State(refilled.word, refilled.pending[1..]);
    }
    assert bytes[..] == bytes[..length];
    Filled(state, length, bytes[..], nextState);
  }

  function Flatten(chunks: seq<seq<bv8>>): seq<bv8> {
    if chunks == [] then [] else Flatten(chunks[..|chunks| - 1]) + chunks[|chunks| - 1]
  }

  /** `createDeterministicByteStream`: the chunks a reader pulls, for any chunk size. */
  method ReadStream(totalBytes: nat, chunkSize: nat, seed: int) returns (chunks: seq<seq<bv8>>)
    requires chunkSize >= 1
    ensures Flatten(chunks) == Bytes(InitialState(seed), totalBytes) && |Flatten(chunks)| == totalBytes
    ensures forall chunk :: chunk in chunks ==> 1 <= |chunk| <= chunkSize
  {
    chunks := [];
    var remaining := totalBytes;
    var state := InitialState(seed);
    ghost var done := 0;
    while remaining > 0
      invariant remaining >= 0 && done + remaining == totalBytes
      invariant Flatten(chunks) == Bytes(InitialState(seed), done) && state == After(InitialState(seed), done)
      invariant forall chunk :: chunk in chunks ==> 1 <= |chunk| <= chunkSize
    {
      var size := if chunkSize < remaining then chunkSize else remaining;
      var bytes, nextState := FillPseudoRandomBytes(size, state);
      CutAnywhere(InitialState(seed), done, size);
      assert (chunks + [bytes[..]])[..|chunks|] == chunks;
      chunks := chunks + [bytes[..]];
      state := nextState;
      remaining := remaining - size;
      done := done + size;
    }
    BytesLength(InitialState(seed), totalBytes);
  }

  lemma {:induction false} NonzeroForever(s: State, length: nat)
    ensures After(s, length).word == 0 <==> s.word == 0
    decreases length
  {
    if length > 0 {
      var r := Refilled(s);
      ZeroOnlyFromZero(s.word);
      NonzeroForever(State(r.word, r.pending[1..]), length - 1);
    }
  }

  /** The word never becomes zero exactly when the seed is zero, which is remapped, or its low 32 bits are not all
      zero. */
  lemma SeedNeverReachesZero(seed: int, length: nat)
    ensures After(InitialState(seed), length).word != 0 <==> seed == 0 || LowWord(seed) != 0
  {
    NonzeroForever(InitialState(seed), length);
  }
}
