/**
  Keys: the payload stored in blocks is a key's first bytes, the routing tag is computed
  from the whole key with a block cipher, chaining 16-byte blocks.
 */
module Crypto {
  import opened Arithmetic
  import opened Bits
  import opened Blocks

  /** A block cipher under some key: any function on blocks. */
  type Cipher = seq<Byte> -> seq<Byte>

  const BLOCK_LEN: nat := 16

  /** The first `n` bytes, padded with zeros. */
  ghost function Padded(s: seq<Byte>, n: nat): (r: Payload)
    ensures |r| == n
  {
    seq(n, i requires 0 <= i < n => if i < |s| then s[i] else 0)
  }

  /** `copy_prefix`. */
  method CopyPrefix(src: seq<Byte>, n: nat) returns (payload: Payload)
    ensures payload == Padded(src, n)
  {
    payload := [];
    for i := 0 to n
      invariant payload == Padded(src, n)[..i]
    {
      payload := payload + [if i < |src| then src[i] else 0];
    }
  }

  function XorBytes(a: Byte, b: Byte): Byte {
    XorBelow(a, b, 8);
    WordPowers();
    Xor(a, b)
  }

  function Mixed(state: seq<Byte>, chunk: seq<Byte>): (r: seq<Byte>)
    requires |state| == BLOCK_LEN && |chunk| == BLOCK_LEN
    ensures |r| == BLOCK_LEN
  {
    seq(BLOCK_LEN, i requires 0 <= i < BLOCK_LEN => XorBytes(state[i], chunk[i]))
  }

  function Encrypt(c: Cipher, s: seq<Byte>): (r: seq<Byte>)
    ensures |r| == BLOCK_LEN
  {
    var e := c(s);
    if |e| == BLOCK_LEN then e else seq(BLOCK_LEN, _ => 0)
  }

  /** The chained state after the first `n` whole blocks of `key`. */
  ghost function Chain(c: Cipher, key: seq<Byte>, n: nat): (r: seq<Byte>)
    requires BLOCK_LEN * n <= |key|
    ensures |r| == BLOCK_LEN
  {
    if n == 0 then Padded([], BLOCK_LEN)
    else Encrypt(c, Mixed(Chain(c, key, n - 1), key[BLOCK_LEN * (n - 1)..BLOCK_LEN * n]))
  }

  /** The state after all of `key`; the empty key counts as one block of zeros. */
  ghost function Chained(c: Cipher, key: seq<Byte>): (r: seq<Byte>)
    ensures |r| == BLOCK_LEN
  {
    var n := |key| / BLOCK_LEN;
    if |key| % BLOCK_LEN == 0 && key != [] then Chain(c, key, n)
    else Encrypt(c, Mixed(Chain(c, key, n), Padded(key[BLOCK_LEN * n..], BLOCK_LEN)))
  }

  /** A key of at most one block. */
  lemma ChainedShort(c: Cipher, key: seq<Byte>)
    requires |key| <= BLOCK_LEN
    ensures Chained(c, key) == Encrypt(c, Mixed(Padded([], BLOCK_LEN), Padded(key, BLOCK_LEN)))
  {
    if |key| == BLOCK_LEN {
      assert key[BLOCK_LEN * 0..BLOCK_LEN * 1] == key == Padded(key, BLOCK_LEN);
      assert Chain(c, key, 0) == Padded([], BLOCK_LEN);
    } else {
      assert key[0..] == key;
    }
  }

  function LittleEndian(s: seq<Byte>): (r: nat)
    ensures r < Pow2(8 * |s|)
  {
    if s == [] then 0
    else
      Pow2Split(8, 8 * (|s| - 1));
      s[0] + 256 * LittleEndian(s[1..])
  }

  function TagOf(state: seq<Byte>): Tag
    requires |state| == BLOCK_LEN
  {
    WordPowers();
    LittleEndian(state[..8])
  }

  /** Byte `i` of a little-endian number. */
  lemma {:induction false} EndianByte(s: seq<Byte>, i: nat)
    requires i < |s|
    ensures LittleEndian(s) / Pow2(8 * i) % 256 == s[i]
  {
    if i > 0 {
      EndianByte(s[1..], i - 1);
      DivTwice(LittleEndian(s), 8 * (i - 1));
      assert LittleEndian(s) / 256 == LittleEndian(s[1..]);
    }
  }

  /** Shifting by `k` bits more than a byte. */
  lemma {:induction false} DivTwice(x: nat, k: nat)
    ensures x / Pow2(k + 8) == x / 256 / Pow2(k)
  {
    hide Pow2, Shr;
    ShrLowBits(x, k + 8);
    ShrTwice(x, 8, k);
    ShrLowBits(x, 8);
    ShrLowBits(x / 256, k);
    WordPowers();
  }

  /** The tag is the first eight bytes of the chained state, low byte first. */
  lemma TagBytes(state: seq<Byte>, i: nat)
    requires |state| == BLOCK_LEN && i < 8
    ensures TagOf(state) / Pow2(8 * i) % 256 == state[i]
  {
    hide LittleEndian, Pow2;
    EndianByte(state[..8], i);
  }

  /** Mixing is exclusive or, bit by bit. */
  lemma MixedBit(state: seq<Byte>, chunk: seq<Byte>, i: nat, j: nat)
    requires |state| == BLOCK_LEN && |chunk| == BLOCK_LEN && i < BLOCK_LEN
    ensures Mixed(state, chunk)[i] / Pow2(j) % 2 == (state[i] / Pow2(j) + chunk[i] / Pow2(j)) % 2
  {
    hide Xor, Pow2;
    XorBit(state[i], chunk[i], j);
  }

  /** What a key of whole blocks followed by up to one more block leaves. */
  lemma ChainedNext(c: Cipher, x: seq<Byte>, y: seq<Byte>)
    requires |x| % BLOCK_LEN == 0 && 1 <= |y| <= BLOCK_LEN
    ensures Chained(c, x + y)
         == Encrypt(c, Mixed(if x == [] then Padded([], BLOCK_LEN) else Chained(c, x), Padded(y, BLOCK_LEN)))
  {
    hide Encrypt, Mixed;
    var n := |x| / BLOCK_LEN;
    ChainPrefix(c, x, x + y, n);
    if |y| == BLOCK_LEN {
      assert (x + y)[BLOCK_LEN * n..BLOCK_LEN * (n + 1)] == y == Padded(y, BLOCK_LEN);
    } else {
      assert (x + y)[BLOCK_LEN * n..] == y;
    }
  }

  lemma {:induction false} ChainPrefix(c: Cipher, x: seq<Byte>, z: seq<Byte>, n: nat)
    requires BLOCK_LEN * n <= |x| && x <= z
    ensures Chain(c, x, n) == Chain(c, z, n)
  {
    hide Encrypt, Mixed;
    if n > 0 {
      ChainPrefix(c, x, z, n - 1);
      assert x[BLOCK_LEN * (n - 1)..BLOCK_LEN * n] == z[BLOCK_LEN * (n - 1)..BLOCK_LEN * n];
    }
  }

  /** `prf_tag`: the blocks of the key chained one after the other, the last one padded. */
  method PrfTag(c: Cipher, key: seq<Byte>) returns (tag: Tag)
    ensures tag == TagOf(Chained(c, key))
  {
    var state: seq<Byte> := seq(BLOCK_LEN, _ => 0);
    assert state == Padded([], BLOCK_LEN);
    var chunks := |key| / BLOCK_LEN;
    for i := 0 to chunks
      invariant state == Chain(c, key, i)
    {
      var chunk := key[BLOCK_LEN * i..BLOCK_LEN * (i + 1)];
      state := Encrypt(c, Mixed(state, chunk));
    }
    var remainder := key[BLOCK_LEN * chunks..];
    if remainder != [] || key == [] {
      var lastBlock := CopyPrefix(remainder, BLOCK_LEN);
      state := Encrypt(c, Mixed(state, lastBlock));
    }
    tag := TagOf(state);
  }

  // ---- When a payload determines its tag -------------------------------------------------------------

  /** Keys of at most `limit` bytes that are stored under the same payload have the same tag. */
  ghost predicate TagsFollow(c: Cipher, k: nat, limit: nat) {
    forall x: seq<Byte>, y: seq<Byte> :: |x| <= limit && |y| <= limit && Padded(x, k) == Padded(y, k) ==>
      TagOf(Chained(c, x)) == TagOf(Chained(c, y))
  }

  lemma PaddedFurther(x: seq<Byte>, y: seq<Byte>, k: nat, n: nat)
    requires |x| <= k && |y| <= k && Padded(x, k) == Padded(y, k)
    ensures Padded(x, n) == Padded(y, n)
  {
    forall i | 0 <= i < n ensures Padded(x, n)[i] == Padded(y, n)[i] {
      if i < k { assert Padded(x, k)[i] == Padded(y, k)[i]; }
    }
  }

  /** A permutation of the 16-byte blocks, as a block cipher under any key is. */
  ghost predicate Permutes(c: Cipher) {
    && (forall s: seq<Byte> :: |s| == BLOCK_LEN ==> |c(s)| == BLOCK_LEN)
    && (forall s: seq<Byte>, t: seq<Byte> :: |s| == |t| == BLOCK_LEN && c(s) == c(t) ==> s == t)
    && (forall t: seq<Byte> :: |t| == BLOCK_LEN ==> exists s: seq<Byte> :: |s| == BLOCK_LEN && c(s) == t)
  }

  /** With keys that fit both the payload and one block, a payload determines its tag, whatever the cipher. */
  lemma ShortKeysFollow(c: Cipher, k: nat, limit: nat)
    requires limit <= k && limit <= BLOCK_LEN
    ensures TagsFollow(c, k, limit)
  {
    forall x: seq<Byte>, y: seq<Byte> | |x| <= limit && |y| <= limit && Padded(x, k) == Padded(y, k)
      ensures TagOf(Chained(c, x)) == TagOf(Chained(c, y))
    {
      PaddedFurther(x, y, k, BLOCK_LEN);
      ChainedShort(c, x);
      ChainedShort(c, y);
    }
  }

  /** Only for such keys does a payload determine its tag under every block permutation. */
  lemma TagsFollowPayloads(k: nat, limit: nat)
    ensures (forall c: Cipher :: Permutes(c) ==> TagsFollow(c, k, limit)) <==> limit <= k && limit <= BLOCK_LEN
  {
    hide TagsFollow, Permutes;
    if limit <= k && limit <= BLOCK_LEN {
      forall c: Cipher ensures TagsFollow(c, k, limit) { ShortKeysFollow(c, k, limit); }
    } else {
      ZeroTestPermutes();
      LongKeysDiffer(k, limit);
    }
  }

  function ZeroBlock(): (r: seq<Byte>)
    ensures |r| == BLOCK_LEN && r[0] == 0
  {
    seq(BLOCK_LEN, _ => 0)
  }

  function OneBlock(): (r: seq<Byte>)
    ensures |r| == BLOCK_LEN && r[0] == 1
  {
    seq(BLOCK_LEN, i => if i == 0 then 1 else 0)
  }

  /** The permutation of the counterexample: it exchanges two blocks and leaves all others alone. */
  function ZeroTest(s: seq<Byte>): (r: seq<Byte>) {
    if s == ZeroBlock() then OneBlock() else if s == OneBlock() then ZeroBlock() else s
  }

  lemma ZeroTestPermutes()
    ensures Permutes(ZeroTest)
  {
    var c: Cipher := ZeroTest;
    forall s: seq<Byte> | |s| == BLOCK_LEN ensures |c(s)| == BLOCK_LEN && c(c(s)) == s { ZeroTestTwice(s); }
    hide ZeroTest;
    forall s: seq<Byte>, t: seq<Byte> | |s| == |t| == BLOCK_LEN && c(s) == c(t) ensures s == t {
      assert c(c(s)) == c(c(t));
    }
    forall t: seq<Byte> | |t| == BLOCK_LEN ensures exists s: seq<Byte> :: |s| == BLOCK_LEN && c(s) == t {
      assert |c(t)| == BLOCK_LEN && c(c(t)) == t;
    }
  }

  lemma ZeroTestTwice(s: seq<Byte>)
    requires |s| == BLOCK_LEN
    ensures |ZeroTest(s)| == BLOCK_LEN && ZeroTest(ZeroTest(s)) == s
  {
    hide ZeroBlock, OneBlock;
  }

  /** Two keys, one longer than the payload or the block, with one payload and two tags. */
  lemma LongKeysDiffer(k: nat, limit: nat)
    requires limit > k || limit > BLOCK_LEN
    ensures !TagsFollow(ZeroTest, k, limit)
  {
    hide Chained, TagOf, Padded;
    var x: seq<Byte> := [];
    EmptyKeyTag();
    var y := if k < BLOCK_LEN then Padded([], k) + [1] else Padded([], BLOCK_LEN + 1);
    if k < BLOCK_LEN { LongerThanPayload(k); } else { LongerThanBlock(k); }
    assert |x| <= limit && |y| <= limit && Padded(x, k) == Padded(y, k);
  }

  lemma EmptyKeyTag()
    ensures TagOf(Chained(ZeroTest, [])) % 256 == 1
  {
    hide Xor;
    MixedZeros(Padded([], BLOCK_LEN));
    ChainedShort(ZeroTest, []);
    TagFirst(Chained(ZeroTest, []));
  }

  lemma LongerThanPayload(k: nat)
    requires k < BLOCK_LEN
    ensures var y: seq<Byte> := Padded([], k) + [1];
              Padded([], k) == Padded(y, k) && TagOf(Chained(ZeroTest, y)) % 256 == 0
  {
    hide Xor, TagOf, Mixed, Chained;
    var y: seq<Byte> := Padded([], k) + [1];
    MixedZeros(Padded(y, BLOCK_LEN));
    ChainedShort(ZeroTest, y);
    assert Padded(y, BLOCK_LEN)[k] == 1;
    TagFirst(Chained(ZeroTest, y));
  }

  lemma LongerThanBlock(k: nat)
    requires k >= BLOCK_LEN
    ensures var y: seq<Byte> := Padded([], BLOCK_LEN + 1);
              Padded([], k) == Padded(y, k) && TagOf(Chained(ZeroTest, y)) % 256 == 0
  {
    hide Xor, TagOf;
    var y, zeros: seq<Byte> := Padded([], BLOCK_LEN + 1), Padded([], BLOCK_LEN);
    var one := ZeroTest(zeros);
    MixedZeros(zeros);
    assert y[BLOCK_LEN * 0..BLOCK_LEN * 1] == zeros && Padded(y[BLOCK_LEN * 1..], BLOCK_LEN) == zeros;
    assert Chain(ZeroTest, y, 0) == zeros;
    assert Chain(ZeroTest, y, 1) == Encrypt(ZeroTest, Mixed(zeros, zeros)) == one;
    MixedZero(one);
    assert Chained(ZeroTest, y) == Encrypt(ZeroTest, one);
    TagFirst(Chained(ZeroTest, y));
  }

  lemma {:induction false} XorNothing(a: nat)
    ensures Xor(0, a) == a && Xor(a, 0) == a
  {
    if a > 0 { XorNothing(a / 2); }
  }

  lemma MixedZeros(s: seq<Byte>)
    requires |s| == BLOCK_LEN
    ensures Mixed(Padded([], BLOCK_LEN), s) == s
  {
    hide Xor;
    forall i | 0 <= i < BLOCK_LEN ensures XorBytes(0, s[i]) == s[i] { XorNothing(s[i]); }
  }

  lemma MixedZero(s: seq<Byte>)
    requires |s| == BLOCK_LEN
    ensures Mixed(s, Padded([], BLOCK_LEN)) == s
  {
    hide Xor;
    forall i | 0 <= i < BLOCK_LEN ensures XorBytes(s[i], 0) == s[i] { XorNothing(s[i]); }
  }

  lemma TagFirst(state: seq<Byte>)
    requires |state| == BLOCK_LEN
    ensures TagOf(state) % 256 == state[0]
  {
    var low := state[..8];
    assert TagOf(state) == low[0] + 256 * LittleEndian(low[1..]);
    DivModUnique(TagOf(state), 256, LittleEndian(low[1..]), low[0]);
  }
}
