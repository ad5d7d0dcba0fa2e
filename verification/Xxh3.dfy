/** The long hash of xxhash.h: taking input piece by piece through a buffer
    gives the same accumulators as hashing it in one go. */
module Xxh3 {
  import opened Words
  import opened Bits

  const STRIPE_LEN := 64
  const CONSUME_RATE := 8
  const BUFFER_SIZE := 256
  const BUFFER_STRIPES := 4
  const SECRET_SIZE_MIN := 136
  const MIDSIZE_MAX := 240
  const LASTACC_START := 7

  /** What the hash is made of: XXH3_accumulate_512, which mixes a stripe with
      the secret bytes from an offset on, XXH3_scrambleAcc at an offset, the
      initial accumulators and the size of the secret. */
  datatype Kernel<!Acc> = Kernel(accumulate: (Acc, Bytes, nat) -> Acc, scramble: (Acc, nat) -> Acc, start: Acc,
                                 secretSize: nat)
  {
    function Limit(): nat requires secretSize >= SECRET_SIZE_MIN { secretSize - STRIPE_LEN }
    function PerBlock(): (n: nat)
      requires secretSize >= SECRET_SIZE_MIN
      ensures n > 0
    {
      Limit() / CONSUME_RATE
    }
    predicate Ok() { secretSize >= SECRET_SIZE_MIN }
  }

  // -------------------------------------------------------------------
  // The meaning of a run of stripes.
  // -------------------------------------------------------------------

  predicate Whole(input: Bytes) { |input| % STRIPE_LEN == 0 }

  /** Whole stripes from position pos of a block on: each is mixed with the
      secret of its position, and the last of a block is followed by a
      scramble. */
  function Stripes<Acc>(k: Kernel<Acc>, acc: Acc, pos: nat, input: Bytes): (r: (Acc, nat))
    requires k.Ok() && pos < k.PerBlock() && Whole(input)
    ensures r.1 < k.PerBlock()
    decreases |input|
  {
    if input == [] then (acc, pos)
    else
      var mixed := k.accumulate(acc, input[..STRIPE_LEN], pos * CONSUME_RATE);
      if pos + 1 == k.PerBlock() then Stripes(k, k.scramble(mixed, k.Limit()), 0, input[STRIPE_LEN..])
      else Stripes(k, mixed, pos + 1, input[STRIPE_LEN..])
  }

  /** The bytes in whole stripes in front of the last byte. */
  function Body(input: Bytes): (r: Bytes)
    requires input != []
    ensures Whole(r) && |r| < |input| <= |r| + STRIPE_LEN
  {
    input[..(|input| - 1) / STRIPE_LEN * STRIPE_LEN]
  }

  /** The accumulators of a long input: the stripes in front of its last byte,
      then its last 64 bytes, whatever they overlap. */
  function LongHash<Acc>(k: Kernel<Acc>, input: Bytes): Acc
    requires k.Ok() && |input| > STRIPE_LEN
  {
    k.accumulate(Stripes(k, k.start, 0, Body(input)).0, input[|input| - STRIPE_LEN..], k.Limit() - LASTACC_START)
  }

  lemma {:induction false} WholeConcat(a: Bytes, b: Bytes)
    requires Whole(a) && Whole(b)
    ensures Whole(a + b)
  {
  }

  lemma {:induction false} WholeRest(a: Bytes)
    requires Whole(a) && a != []
    ensures |a| >= STRIPE_LEN && Whole(a[STRIPE_LEN..])
  {
  }

  lemma {:induction false} StripesConcat<Acc>(k: Kernel<Acc>, acc: Acc, pos: nat, a: Bytes, b: Bytes)
    requires k.Ok() && pos < k.PerBlock() && Whole(a) && Whole(b)
    ensures Whole(a + b)
    ensures var (acc1, pos1) := Stripes(k, acc, pos, a); Stripes(k, acc, pos, a + b) == Stripes(k, acc1, pos1, b)
    decreases |a|
  {
    WholeConcat(a, b);
    hide Whole;
    if a == [] {
      assert a + b == b;
    } else {
      var mixed := k.accumulate(acc, a[..STRIPE_LEN], pos * CONSUME_RATE);
      WholeRest(a);
      assert (a + b)[..STRIPE_LEN] == a[..STRIPE_LEN] && (a + b)[STRIPE_LEN..] == a[STRIPE_LEN..] + b;
      if pos + 1 == k.PerBlock() {
        StripesConcat(k, k.scramble(mixed, k.Limit()), 0, a[STRIPE_LEN..], b);
      } else {
        StripesConcat(k, mixed, pos + 1, a[STRIPE_LEN..], b);
      }
    }
  }

  /** Stripe n of a run from the start, its first byte at 64 n: with S bytes of
      secret and B stripes to a block, B being (S - 64) / 8, it is mixed with
      the secret from 8 (n mod B) on, and the last of a block is followed by a
      scramble with the secret's last 64 bytes. */
  lemma {:induction false} StripeOffsets<Acc>(k: Kernel<Acc>, input: Bytes, n: nat)
    requires k.secretSize >= 136 && 64 * (n + 1) <= |input|
    ensures Whole(input[..64 * n]) && Whole(input[..64 * (n + 1)])
    ensures var s, b := k.secretSize, (k.secretSize - 64) / 8;
            var mixed := k.accumulate(Stripes(k, k.start, 0, input[..64 * n]).0, input[64 * n..64 * (n + 1)],
                                      8 * (n % b));
            Stripes(k, k.start, 0, input[..64 * (n + 1)])
            == (if (n + 1) % b == 0 then k.scramble(mixed, s - 64) else mixed, (n + 1) % b)
  {
    hide Stripes;
    var a, c := input[..64 * n], input[64 * n..64 * (n + 1)];
    assert a + c == input[..64 * (n + 1)];
    StripesConcat(k, k.start, 0, a, c);
    StripePosition(k, input, n);
    var (acc, pos) := Stripes(k, k.start, 0, a);
    OneStripe(k, acc, pos, c);
    NextRemainder(n, k.PerBlock());
  }

  lemma {:induction false} OneStripe<Acc>(k: Kernel<Acc>, acc: Acc, pos: nat, stripe: Bytes)
    requires k.Ok() && pos < k.PerBlock() && |stripe| == STRIPE_LEN
    ensures var mixed := k.accumulate(acc, stripe, 8 * pos);
            Stripes(k, acc, pos, stripe)
            == if pos + 1 == k.PerBlock() then (k.scramble(mixed, k.Limit()), 0) else (mixed, pos + 1)
  {
    assert stripe[..STRIPE_LEN] == stripe && stripe[STRIPE_LEN..] == [];
  }

  lemma {:induction false} NextRemainder(n: nat, b: nat)
    requires b > 0
    ensures (n + 1) % b == if n % b + 1 == b then 0 else n % b + 1
  {
    var q, r := n / b, n % b;
    assert n == b * q + r;
    if r + 1 == b {
      assert b * (q + 1) == b * q + b;
      Remainder(n + 1, b, q + 1, 0);
    } else {
      Remainder(n + 1, b, q, r + 1);
    }
  }

  lemma {:induction false} StripePosition<Acc>(k: Kernel<Acc>, input: Bytes, n: nat)
    requires k.Ok() && 64 * n <= |input|
    ensures Whole(input[..64 * n]) && Stripes(k, k.start, 0, input[..64 * n]).1 == n % k.PerBlock()
    decreases n
  {
    hide Stripes;
    if n == 0 {
      StripesNone(k, k.start, 0);
      assert input[..0] == [];
    } else {
      var a, c := input[..64 * (n - 1)], input[64 * (n - 1)..64 * n];
      assert a + c == input[..64 * n];
      StripePosition(k, input, n - 1);
      StripesConcat(k, k.start, 0, a, c);
      var (acc, pos) := Stripes(k, k.start, 0, a);
      OneStripe(k, acc, pos, c);
      NextRemainder(n - 1, k.PerBlock());
    }
  }

  /** The long hash mixes all stripes that end before the last byte, and then the
      last 64 bytes with the secret from S - 71 on; inputs up to 240 bytes are
      no long ones. */
  lemma {:induction false} LastOffset<Acc>(k: Kernel<Acc>, input: Bytes)
    requires k.secretSize >= 136
    ensures |input| > 64 ==>
              var n := (|input| - 1) / 64;
              && 64 * n < |input| <= 64 * n + 64 && Whole(input[..64 * n])
              && LongHash(k, input) == k.accumulate(Stripes(k, k.start, 0, input[..64 * n]).0, input[|input| - 64..],
                                                    k.secretSize - 71)
    ensures OneShot(k, input) == if |input| <= 240 then Short(input) else Long(LongHash(k, input), |input|)
  {
    if |input| > 64 {
      var n := (|input| - 1) / 64;
      assert n * 64 == 64 * n && input[..64 * n] == Body(input);
    }
  }

  /** Stripes within a block, without a scramble. */
  function Row<Acc>(k: Kernel<Acc>, acc: Acc, secret: nat, input: Bytes): Acc
    requires Whole(input)
    decreases |input|
  {
    if input == [] then acc
    else Row(k, k.accumulate(acc, input[..STRIPE_LEN], secret), secret + CONSUME_RATE, input[STRIPE_LEN..])
  }

  /** A row that stays in its block, or that ends it. */
  lemma {:induction false} RowIsStripes<Acc>(k: Kernel<Acc>, acc: Acc, pos: nat, input: Bytes)
    requires k.Ok() && pos < k.PerBlock() && Whole(input) && pos + |input| / STRIPE_LEN <= k.PerBlock()
    ensures var n := |input| / STRIPE_LEN;
            var r := Row(k, acc, pos * CONSUME_RATE, input);
            Stripes(k, acc, pos, input) == if pos + n < k.PerBlock() then (r, pos + n)
                else (k.scramble(r, k.Limit()), 0)
    decreases |input|
  {
    if input != [] {
      var mixed := k.accumulate(acc, input[..STRIPE_LEN], pos * CONSUME_RATE);
      if pos + 1 < k.PerBlock() {
        RowIsStripes(k, mixed, pos + 1, input[STRIPE_LEN..]);
      } else {
        assert input[STRIPE_LEN..] == [];
      }
    }
  }

  /** Rows end to end. */
  lemma {:induction false} RowSnoc<Acc>(k: Kernel<Acc>, acc: Acc, secret: nat, input: Bytes, stripe: Bytes)
    requires Whole(input) && |stripe| == STRIPE_LEN
    ensures Whole(input + stripe)
    ensures Row(k, acc, secret, input + stripe)
         == k.accumulate(Row(k, acc, secret, input), stripe, secret + |input| / STRIPE_LEN * CONSUME_RATE)
    decreases |input|
  {
    if input == [] {
      assert input + stripe == stripe && stripe[..STRIPE_LEN] == stripe && stripe[STRIPE_LEN..] == [];
    } else {
      assert (input + stripe)[..STRIPE_LEN] == input[..STRIPE_LEN];
      assert (input + stripe)[STRIPE_LEN..] == input[STRIPE_LEN..] + stripe;
      RowSnoc(k, k.accumulate(acc, input[..STRIPE_LEN], secret), secret + CONSUME_RATE, input[STRIPE_LEN..], stripe);
    }
  }

  // -------------------------------------------------------------------
  // The loops.
  // -------------------------------------------------------------------

  /** XXH3_accumulate: so many stripes with consecutive secrets. */
  method Accumulate<Acc>(k: Kernel<Acc>, acc0: Acc, input: Bytes, secret: nat, nbStripes: nat) returns (acc: Acc)
    requires nbStripes * STRIPE_LEN <= |input|
    ensures acc == Row(k, acc0, secret, input[..nbStripes * STRIPE_LEN])
  {
    acc := acc0;
    var n := 0;
    while n < nbStripes
      invariant n <= nbStripes && acc == Row(k, acc0, secret, input[..n * STRIPE_LEN])
    {
      var from := n * STRIPE_LEN;
      RowSnoc(k, acc0, secret, input[..from], input[from..from + STRIPE_LEN]);
      assert input[..from] + input[from..from + STRIPE_LEN] == input[..(n + 1) * STRIPE_LEN];
      acc := k.accumulate(acc, input[from..from + STRIPE_LEN], secret + n * CONSUME_RATE);
      n := n + 1;
    }
  }

  /** XXH3_consumeStripes: stripes from a position in a block on, over as many
      blocks as they take. */
  method ConsumeStripes<Acc>(k: Kernel<Acc>, acc0: Acc, pos0: nat, input: Bytes, nbStripes0: nat)
      returns (acc: Acc, pos: nat)
    requires k.Ok() && pos0 < k.PerBlock() && nbStripes0 * STRIPE_LEN <= |input|
    ensures pos < k.PerBlock() && (acc, pos) == Stripes(k, acc0, pos0, input[..nbStripes0 * STRIPE_LEN])
  {
    hide Stripes, Row;
    StripesNone(k, acc0, pos0);
    assert input[..0] == [];
    var nbStripes, at, initialSecret := nbStripes0, 0, pos0 * CONSUME_RATE;
    acc, pos := acc0, pos0;
    if nbStripes >= k.PerBlock() - pos {
      var nbStripesThisIter := k.PerBlock() - pos;
      ghost var p := pos;
      var more := true;
      while more
        invariant 0 <= at <= |input| && 0 <= nbStripes
        invariant at + nbStripes * STRIPE_LEN == nbStripes0 * STRIPE_LEN && Whole(input[..at])
        invariant p < k.PerBlock() && (acc, p) == Stripes(k, acc0, pos0, input[..at])
        invariant nbStripesThisIter == k.PerBlock() - p && initialSecret == p * CONSUME_RATE
        invariant more <==> nbStripes >= nbStripesThisIter
        invariant !more ==> p == 0
        decreases nbStripes
      {
        ConsumeRow(k, acc0, pos0, input, at, nbStripesThisIter);
        acc := Accumulate(k, acc, input[at..], initialSecret, nbStripesThisIter);
        acc := k.scramble(acc, k.Limit());
        at := at + nbStripesThisIter * STRIPE_LEN;
        nbStripes := nbStripes - nbStripesThisIter;
        nbStripesThisIter := k.PerBlock();
        initialSecret := 0;
        p := 0;
        more := nbStripes >= k.PerBlock();
      }
      pos := 0;
    }
    assert pos < k.PerBlock() && Whole(input[..at]) && (acc, pos) == Stripes(k, acc0, pos0, input[..at]);
    if nbStripes > 0 {
      ConsumeRow(k, acc0, pos0, input, at, nbStripes);
      acc := Accumulate(k, acc, input[at..], initialSecret, nbStripes);
      at := at + nbStripes * STRIPE_LEN;
      pos := pos + nbStripes;
    }
  }

  /** Continuing a run with a row that does not leave its block. */
  lemma {:induction false} ConsumeRow<Acc>(k: Kernel<Acc>, acc0: Acc, pos0: nat, input: Bytes, at: nat, n: nat)
    requires k.Ok() && pos0 < k.PerBlock() && at + n * STRIPE_LEN <= |input| && Whole(input[..at])
    requires Stripes(k, acc0, pos0, input[..at]).1 + n <= k.PerBlock()
    ensures Whole(input[..at + n * STRIPE_LEN])
    ensures var (acc, pos) := Stripes(k, acc0, pos0, input[..at]);
            var r := Row(k, acc, pos * CONSUME_RATE, input[at..][..n * STRIPE_LEN]);
            Stripes(k, acc0, pos0, input[..at + n * STRIPE_LEN])
            == if pos + n < k.PerBlock() then (r, pos + n) else (k.scramble(r, k.Limit()), 0)
  {
    var a, b := input[..at], input[at..][..n * STRIPE_LEN];
    assert a + b == input[..at + n * STRIPE_LEN];
    StripesConcat(k, acc0, pos0, a, b);
    RowIsStripes(k, Stripes(k, acc0, pos0, a).0, Stripes(k, acc0, pos0, a).1, b);
  }

  /** XXH3_hashLong_internal_loop: whole blocks, the rest of the stripes, and
      the last stripe. */
  method HashLongLoop<Acc>(k: Kernel<Acc>, input: Bytes) returns (acc: Acc)
    requires k.Ok() && |input| > STRIPE_LEN
    ensures acc == LongHash(k, input)
  {
    hide Stripes, Row;
    StripesNone(k, k.start, 0);
    var nbStripesPerBlock := k.PerBlock();
    var blockLen := STRIPE_LEN * nbStripesPerBlock;
    var nbBlocks := (|input| - 1) / blockLen;
    BlocksFit(|input| - 1, blockLen);
    acc := k.start;
    var n := 0;
    assert input[..0] == [];
    while n < nbBlocks
      invariant n <= nbBlocks && 0 <= n * blockLen <= nbBlocks * blockLen <= |input| - 1
      invariant Whole(input[..n * blockLen]) && (acc, 0) == Stripes(k, k.start, 0, input[..n * blockLen])
    {
      NextBlock(n, nbBlocks, blockLen);
      ConsumeRow(k, k.start, 0, input, n * blockLen, nbStripesPerBlock);
      acc := Accumulate(k, acc, input[n * blockLen..], 0, nbStripesPerBlock);
      acc := k.scramble(acc, k.Limit());
      n := n + 1;
    }
    var nbStripes := ((|input| - 1) - blockLen * nbBlocks) / STRIPE_LEN;
    LastBlock(|input| - 1, nbStripesPerBlock, nbBlocks);
    ConsumeRow(k, k.start, 0, input, n * blockLen, nbStripes);
    acc := Accumulate(k, acc, input[nbBlocks * blockLen..], 0, nbStripes);
    assert input[..n * blockLen + nbStripes * STRIPE_LEN] == Body(input);
    acc := k.accumulate(acc, input[|input| - STRIPE_LEN..], k.Limit() - LASTACC_START);
  }

  lemma {:induction false} StripesNone<Acc>(k: Kernel<Acc>, acc: Acc, pos: nat)
    requires k.Ok() && pos < k.PerBlock()
    ensures Stripes(k, acc, pos, []) == (acc, pos)
  {
  }

  lemma {:induction false} BlocksFit(len: nat, block: nat)
    requires block > 0
    ensures 0 <= len / block * block <= len
  {
    assert len == len / block * block + len % block;
  }

  lemma {:induction false} NextBlock(n: nat, blocks: nat, len: nat)
    requires n < blocks
    ensures (n + 1) * len == n * len + len <= blocks * len
  {
    var rest: nat := blocks - n - 1;
    assert blocks * len == n * len + len + rest * len;
  }

  /** Blocks and stripes together make the stripes in front of the last byte. */
  lemma {:induction false} LastBlock(len: nat, perBlock: nat, blocks: nat)
    requires perBlock > 0 && blocks == len / (STRIPE_LEN * perBlock)
    ensures var n := (len - STRIPE_LEN * perBlock * blocks) / STRIPE_LEN;
            0 <= n < perBlock && blocks * (STRIPE_LEN * perBlock) + n * STRIPE_LEN == len / STRIPE_LEN * STRIPE_LEN
  {
    var q := perBlock * blocks;
    assert STRIPE_LEN * perBlock * blocks == STRIPE_LEN * q == blocks * (STRIPE_LEN * perBlock);
    var r := len % (STRIPE_LEN * perBlock);
    assert len == STRIPE_LEN * q + r && r < STRIPE_LEN * perBlock;
  }

  // -------------------------------------------------------------------
  // Streaming.
  // -------------------------------------------------------------------

  /** What a digest is computed from: for short inputs the bytes themselves,
      for long ones the accumulators and the length. */
  datatype Digested<+Acc> = Short(input: Bytes) | Long(acc: Acc, len: nat)

  function OneShot<Acc>(k: Kernel<Acc>, input: Bytes): Digested<Acc>
    requires k.Ok()
  {
    if |input| <= MIDSIZE_MAX then Short(input) else Long(LongHash(k, input), |input|)
  }

  /** The accumulators stand at the first c bytes, in whole stripes. */
  ghost predicate StandsAt<Acc>(k: Kernel<Acc>, acc: Acc, pos: nat, total: Bytes, c: nat) {
    k.Ok() && c <= |total| && Whole(total[..c]) && (acc, pos) == Stripes(k, k.start, 0, total[..c])
  }

  lemma {:induction false} StandsNext<Acc>(k: Kernel<Acc>, acc: Acc, pos: nat, total: Bytes, c: nat, chunk: Bytes)
    requires StandsAt(k, acc, pos, total, c) && Whole(chunk) && c + |chunk| <= |total| && total[c..c + |chunk|] == chunk
    ensures pos < k.PerBlock()
    ensures var (acc', pos') := Stripes(k, acc, pos, chunk); StandsAt(k, acc', pos', total, c + |chunk|)
  {
    StripesConcat(k, k.start, 0, total[..c], chunk);
    assert total[..c] + chunk == total[..c + |chunk|];
  }

  lemma {:induction false} StandsMore<Acc>(k: Kernel<Acc>, acc: Acc, pos: nat, total: Bytes, c: nat, more: Bytes)
    requires StandsAt(k, acc, pos, total, c)
    ensures StandsAt(k, acc, pos, total + more, c)
  {
    assert (total + more)[..c] == total[..c];
  }

  /** The buffer holds the bytes from c on; while its last stripe is not
      needed for them it holds the 64 bytes in front of c. */
  ghost predicate Buffers(buf: Bytes, buffered: nat, total: Bytes, c: nat) {
    && |buf| == BUFFER_SIZE && c + buffered == |total| && buffered <= BUFFER_SIZE
    && buf[..buffered] == total[c..]
    && (|total| > 0 ==> buffered > 0) && (c > 0 ==> c >= STRIPE_LEN && |total| > BUFFER_SIZE)
    && (c > 0 && buffered <= BUFFER_SIZE - STRIPE_LEN ==> buf[BUFFER_SIZE - STRIPE_LEN..] == total[c - STRIPE_LEN..c])
  }

  /** The end of the buffer is the 64 bytes in front of c. */
  ghost predicate Tail(buf: Bytes, total: Bytes, c: nat) {
    |buf| == BUFFER_SIZE && c <= |total|
        && (c > 0 ==> c >= STRIPE_LEN && buf[BUFFER_SIZE - STRIPE_LEN..] == total[c - STRIPE_LEN..c])
  }

  /** A buffer with some bytes overwritten. */
  function Written(buf: Bytes, at: nat, input: Bytes): (r: Bytes)
    requires at + |input| <= |buf|
    ensures |r| == |buf|
  {
    buf[..at] + input + buf[at + |input|..]
  }

  lemma {:induction false} BufferMore(buf: Bytes, n: nat, total: Bytes, c: nat, input: Bytes)
    requires Buffers(buf, n, total, c) && n + |input| <= BUFFER_SIZE
    ensures Buffers(Written(buf, n, input), n + |input|, total + input, c)
  {
    var buf' := Written(buf, n, input);
    assert (total + input)[c..] == total[c..] + input;
    assert buf'[..n + |input|] == buf[..n] + input;
    if c > 0 && n + |input| <= BUFFER_SIZE - STRIPE_LEN {
      assert buf'[BUFFER_SIZE - STRIPE_LEN..] == buf[BUFFER_SIZE - STRIPE_LEN..];
      assert (total + input)[c - STRIPE_LEN..c] == total[c - STRIPE_LEN..c];
    }
  }

  lemma {:induction false} BufferFull(buf: Bytes, n: nat, total: Bytes, c: nat, input: Bytes)
    requires Buffers(buf, n, total, c) && |input| > BUFFER_SIZE - n
    ensures var buf' := Written(buf, n, input[..BUFFER_SIZE - n]);
            (total + input)[c..c + BUFFER_SIZE] == buf' && Tail(buf', total + input, c + BUFFER_SIZE)
  {
    var buf' := Written(buf, n, input[..BUFFER_SIZE - n]);
    assert (total + input)[c..c + BUFFER_SIZE] == total[c..] + input[..BUFFER_SIZE - n];
    assert buf'[BUFFER_SIZE - STRIPE_LEN..] == (total + input)[c..c + BUFFER_SIZE][BUFFER_SIZE - STRIPE_LEN..];
  }

  lemma {:induction false} BufferRest(buf: Bytes, total: Bytes, input: Bytes, at: nat)
    requires at < |input| <= at + BUFFER_SIZE && |total| + |input| > BUFFER_SIZE
             && Tail(buf, total + input, |total| + at)
    ensures Buffers(Written(buf, 0, input[at..]), |input| - at, total + input, |total| + at)
  {
    var buf' := Written(buf, 0, input[at..]);
    assert (total + input)[|total| + at..] == input[at..];
    assert buf'[..|input| - at] == input[at..];
    if |input| - at <= BUFFER_SIZE - STRIPE_LEN {
      assert buf'[BUFFER_SIZE - STRIPE_LEN..] == buf[BUFFER_SIZE - STRIPE_LEN..];
    }
  }

  lemma {:induction false} BodyLen(len: nat, c: nat, n: nat)
    requires len == c + n && c % STRIPE_LEN == 0 && n > 0
    ensures (len - 1) / STRIPE_LEN * STRIPE_LEN == c + (n - 1) / STRIPE_LEN * STRIPE_LEN
    ensures (n - 1) / STRIPE_LEN * STRIPE_LEN % STRIPE_LEN == 0
  {
  }

  lemma {:induction false} BodyAt(total: Bytes, c: nat, n: nat)
    requires c + n == |total| && n > 0 && Whole(total[..c])
    ensures var m := (n - 1) / STRIPE_LEN * STRIPE_LEN; m < n && m % STRIPE_LEN == 0 && Body(total) == total[..c + m]
  {
    BodyLen(|total|, c, n);
  }

  /** With at least a stripe in the buffer, its whole stripes complete the body
      of the input and its end is the last stripe. */
  lemma {:induction false} BodyLong(buf: Bytes, n: nat, total: Bytes, c: nat)
    requires Buffers(buf, n, total, c) && STRIPE_LEN <= n && Whole(total[..c])
    ensures var m := (n - 1) / STRIPE_LEN * STRIPE_LEN;
            c + m <= |total| && total[c..c + m] == buf[..m] && Whole(buf[..m]) && Body(total) == total[..c + m]
    ensures total[|total| - STRIPE_LEN..] == buf[n - STRIPE_LEN..n]
  {
    hide Body;
    BodyAt(total, c, n);
    var m := (n - 1) / STRIPE_LEN * STRIPE_LEN;
    assert total[c..c + m] == total[c..][..m] == buf[..n][..m] == buf[..m];
    assert total[|total| - STRIPE_LEN..] == total[c..][n - STRIPE_LEN..] == buf[..n][n - STRIPE_LEN..]
           == buf[n - STRIPE_LEN..n];
  }

  /** With less, the body has been taken and the last stripe is pieced together. */
  lemma {:induction false} BodyShort(buf: Bytes, n: nat, total: Bytes, c: nat)
    requires Buffers(buf, n, total, c) && n < STRIPE_LEN && Whole(total[..c]) && |total| > MIDSIZE_MAX
    ensures Body(total) == total[..c]
    ensures total[|total| - STRIPE_LEN..] == buf[BUFFER_SIZE - (STRIPE_LEN - n)..] + buf[..n]
  {
    hide Body;
    BodyAt(total, c, n);
    assert total[|total| - STRIPE_LEN..] == total[c - STRIPE_LEN..c][n..] + total[c..];
    assert buf[BUFFER_SIZE - (STRIPE_LEN - n)..] == buf[BUFFER_SIZE - STRIPE_LEN..][n..];
  }

  lemma {:induction false} FinishLong<Acc>(k: Kernel<Acc>, acc: Acc, pos: nat, buf: Bytes, n: nat, total: Bytes, c: nat)
    requires StandsAt(k, acc, pos, total, c) && Buffers(buf, n, total, c) && STRIPE_LEN <= n && |total| > MIDSIZE_MAX
    ensures k.Ok()
    ensures var m := (n - 1) / STRIPE_LEN * STRIPE_LEN;
            pos < k.PerBlock() && Whole(buf[..m])
            && k.accumulate(Stripes(k, acc, pos, buf[..m]).0, buf[n - STRIPE_LEN..n], k.Limit() - LASTACC_START)
                == LongHash(k, total)
  {
    hide Stripes, Body, Whole;
    BodyLong(buf, n, total, c);
    StandsNext(k, acc, pos, total, c, buf[..(n - 1) / STRIPE_LEN * STRIPE_LEN]);
  }

  lemma {:induction false} FinishShort<Acc>(k: Kernel<Acc>, acc: Acc, pos: nat, buf: Bytes, n: nat, total: Bytes,
                                            c: nat)
    requires StandsAt(k, acc, pos, total, c) && Buffers(buf, n, total, c) && n < STRIPE_LEN && |total| > MIDSIZE_MAX
    ensures k.Ok()
    ensures k.accumulate(acc, buf[BUFFER_SIZE - (STRIPE_LEN - n)..] + buf[..n], k.Limit() - LASTACC_START)
            == LongHash(k, total)
  {
    hide Stripes;
    BodyShort(buf, n, total, c);
  }

  lemma {:induction false} BuffersNothing(buf: Bytes, total: Bytes, c: nat, input: Bytes)
    requires Buffers(buf, 0, total, c)
    ensures total == [] && c == 0 && Tail(buf, total + input, 0)
  {
  }

  class State<Acc> {
    const k: Kernel<Acc>
    var acc: Acc
    var nbStripesSoFar: nat
    var buffer: array<Byte>
    var bufferedSize: nat
    var totalLen: nat
    /** All the bytes taken so far. */
    ghost var Total: Bytes

    ghost predicate Valid()
      reads this, buffer
    {
      && totalLen == |Total| && bufferedSize <= |Total|
      && StandsAt(k, acc, nbStripesSoFar, Total, |Total| - bufferedSize)
      && Buffers(buffer[..], bufferedSize, Total, |Total| - bufferedSize)
    }

    /** XXH3_reset_internal. */
    constructor (k: Kernel<Acc>)
      requires k.Ok()
      ensures Valid() && fresh(buffer) && Total == [] && this.k == k
    {
      this.k := k;
      acc := k.start;
      nbStripesSoFar, bufferedSize, totalLen := 0, 0, 0;
      buffer := new Byte[BUFFER_SIZE](_ => 0);
      Total := [];
    }

    /** memcpy into the buffer. */
    method Copy(at: nat, input: Bytes)
      requires at + |input| <= buffer.Length
      modifies buffer
      ensures buffer[..] == Written(old(buffer[..]), at, input)
    {
      forall i | 0 <= i < |input| { buffer[at + i] := input[i]; }
    }

    /** XXH3_update. */
    method Update(input: Bytes)
      requires Valid()
      modifies this, buffer
      ensures Valid() && Total == old(Total) + input && buffer == old(buffer)
    {
      hide Stripes;
      totalLen := totalLen + |input|;
      ghost var c, b := |Total| - bufferedSize, buffer[..];
      if |input| <= BUFFER_SIZE - bufferedSize {
        Copy(bufferedSize, input);
        StandsMore(k, acc, nbStripesSoFar, Total, c, input);
        BufferMore(b, bufferedSize, Total, c, input);
        bufferedSize := bufferedSize + |input|;
        Total := Total + input;
        return;
      }
      Overflow(input);
    }

    /** The part of XXH3_update behind the small input. */
    method Overflow(input: Bytes)
      requires bufferedSize <= |Total| && totalLen == |Total| + |input| && |input| > BUFFER_SIZE - bufferedSize
      requires StandsAt(k, acc, nbStripesSoFar, Total, |Total| - bufferedSize)
      requires Buffers(buffer[..], bufferedSize, Total, |Total| - bufferedSize)
      modifies this, buffer
      ensures Valid() && Total == old(Total) + input && buffer == old(buffer)
    {
      hide Stripes, StandsAt, Buffers, Tail, Written;
      var at := FlushBuffer(input);
      if |input| - at > BUFFER_SIZE {
        at := TakeDirectly(input, at);
      }
      ghost var b, c := buffer[..], |Total| + at;
      BufferRest(b, Total, input, at);
      Copy(0, input[at..]);
      b := buffer[..];
      bufferedSize := |input| - at;
      Total := Total + input;
      assert buffer[..] == b && c == |Total| - bufferedSize;
    }

    /** Completes a buffer in use and takes its stripes. */
    method FlushBuffer(input: Bytes) returns (at: nat)
      requires bufferedSize <= |Total| && |input| > BUFFER_SIZE - bufferedSize
      requires StandsAt(k, acc, nbStripesSoFar, Total, |Total| - bufferedSize)
      requires Buffers(buffer[..], bufferedSize, Total, |Total| - bufferedSize)
      modifies this`acc, this`nbStripesSoFar, this`bufferedSize, buffer
      ensures buffer.Length == BUFFER_SIZE && bufferedSize == 0 && at < |input| && |Total| + |input| > BUFFER_SIZE
      ensures |Total| + at == 0 || |Total| + at >= BUFFER_SIZE
      ensures StandsAt(k, acc, nbStripesSoFar, Total + input, |Total| + at)
      ensures Tail(buffer[..], Total + input, |Total| + at)
    {
      hide Stripes, StandsAt, Tail, Written;
      ghost var c := |Total| - bufferedSize;
      StandsMore(k, acc, nbStripesSoFar, Total, c, input);
      at := 0;
      if bufferedSize > 0 {
        var loadSize := BUFFER_SIZE - bufferedSize;
        ghost var b := buffer[..];
        Copy(bufferedSize, input[..loadSize]);
        at := loadSize;
        BufferFull(b, bufferedSize, Total, c, input);
        b := buffer[..];
        assert b[..BUFFER_STRIPES * STRIPE_LEN] == b;
        TakeBuffer(BUFFER_STRIPES, Total + input, c);
        bufferedSize := 0;
        assert buffer[..] == b && c + BUFFER_SIZE == |Total| + at;
      } else {
        BuffersNothing(buffer[..], Total, c, input);
      }
    }

    /** Takes the first stripes of the buffer. */
    method TakeBuffer(nbStripes: nat, ghost total: Bytes, ghost c: nat)
      requires StandsAt(k, acc, nbStripesSoFar, total, c) && nbStripes * STRIPE_LEN <= buffer.Length
      requires c + nbStripes * STRIPE_LEN <= |total|
               && total[c..c + nbStripes * STRIPE_LEN] == buffer[..][..nbStripes * STRIPE_LEN]
      modifies this`acc, this`nbStripesSoFar
      ensures StandsAt(k, acc, nbStripesSoFar, total, c + nbStripes * STRIPE_LEN)
    {
      hide Stripes;
      StandsNext(k, acc, nbStripesSoFar, total, c, buffer[..][..nbStripes * STRIPE_LEN]);
      acc, nbStripesSoFar := ConsumeStripes(k, acc, nbStripesSoFar, buffer[..], nbStripes);
    }

    /** Takes stripes straight from the input and keeps the last one. */
    method TakeDirectly(input: Bytes, at0: nat) returns (at: nat)
      requires at0 < |input| && |input| - at0 > BUFFER_SIZE && buffer.Length == BUFFER_SIZE
      requires StandsAt(k, acc, nbStripesSoFar, Total + input, |Total| + at0)
      modifies this`acc, this`nbStripesSoFar, buffer
      ensures at < |input| <= at + STRIPE_LEN && |Total| + at >= BUFFER_SIZE - STRIPE_LEN
      ensures StandsAt(k, acc, nbStripesSoFar, Total + input, |Total| + at)
      ensures Tail(buffer[..], Total + input, |Total| + at)
    {
      hide Stripes;
      var nbStripes := (|input| - 1 - at0) / STRIPE_LEN;
      at := at0 + nbStripes * STRIPE_LEN;
      ghost var chunk := input[at0..][..nbStripes * STRIPE_LEN];
      assert (Total + input)[|Total| + at0..|Total| + at] == chunk;
      StandsNext(k, acc, nbStripesSoFar, Total + input, |Total| + at0, chunk);
      acc, nbStripesSoFar := ConsumeStripes(k, acc, nbStripesSoFar, input[at0..], nbStripes);
      Copy(BUFFER_SIZE - STRIPE_LEN, input[at - STRIPE_LEN..at]);
      assert (Total + input)[|Total| + at - STRIPE_LEN..|Total| + at] == input[at - STRIPE_LEN..at];
    }

    /** XXH3_64bits_digest up to the final mixing: for every way the bytes were
        cut into updates it is the one-shot result. */
    method Digest() returns (d: Digested<Acc>)
      requires Valid()
      ensures d == OneShot(k, Total)
    {
      if totalLen > MIDSIZE_MAX {
        var acc := DigestLong();
        d := Long(acc, totalLen);
      } else {
        d := Short(buffer[..totalLen]);
        assert buffer[..totalLen] == buffer[..][..totalLen] == Total[0..];
      }
    }

    /** XXH3_digest_long, on a copy of the state. */
    method DigestLong() returns (acc: Acc)
      requires Valid() && totalLen > MIDSIZE_MAX
      ensures acc == LongHash(k, Total)
    {
      hide Stripes, Body, LongHash, StandsAt, Whole, Row, Tail;
      ghost var b, c := buffer[..], |Total| - bufferedSize;
      var lastStripe: Bytes;
      acc := this.acc;
      if bufferedSize >= STRIPE_LEN {
        FinishLong(k, acc, this.nbStripesSoFar, b, bufferedSize, Total, c);
        var nbStripes := (bufferedSize - 1) / STRIPE_LEN;
        var nbStripesSoFar := this.nbStripesSoFar;
        acc, nbStripesSoFar := ConsumeStripes(k, acc, nbStripesSoFar, buffer[..], nbStripes);
        lastStripe := buffer[bufferedSize - STRIPE_LEN..bufferedSize];
        assert lastStripe == b[bufferedSize - STRIPE_LEN..bufferedSize];
      } else {
        FinishShort(k, acc, nbStripesSoFar, b, bufferedSize, Total, c);
        var catchupSize := STRIPE_LEN - bufferedSize;
        lastStripe := buffer[BUFFER_SIZE - catchupSize..] + buffer[..bufferedSize];
        assert lastStripe == b[BUFFER_SIZE - catchupSize..] + b[..bufferedSize];
      }
      acc := k.accumulate(acc, lastStripe, k.Limit() - LASTACC_START);
    }
  }
}
