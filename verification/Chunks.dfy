/**
 How a file is cut into sealed chunks (client/attachment.cpp), and that the relay's own checks of the plan
 (protocol/relay_protocol.cpp) and of each chunk on the way down (client/relay_client.cpp) agree with it.
 */
module Chunks {
  import opened Wire

  const CHUNK := 48 * 1024
  const TAG := 16
  const MAX_PLAINTEXT := 15 * 1024 * 1024 * 1024
  const MAX_FILE := 16 * 1024 * 1024 * 1024
  const MAX_FILE_CHUNK := 64 * 1024
  const MIN_FILE_CHUNK := 4096

  function Cast32(n: int): int { n % TWO32 }

  function Cast64(n: int): int { n % TWO64 }

  lemma CastFits(n: int)
    ensures 0 <= n < TWO32 ==> Cast32(n) == n
    ensures 0 <= n < TWO64 ==> Cast64(n) == n
  {
  }

  datatype Plan = Plan(count: int, chunkSize: int, ciphertext: int)

  // plan_for, with its casts to 32 bits and its 64-bit arithmetic; a file that is too large is refused.
  function PlanFor(size: int): Option<Plan> {
    if size > MAX_PLAINTEXT then None
    else
      var count := if size == 0 then 1 else Cast32(Cast64(size + CHUNK - 1) / CHUNK);
      Some(Plan(count, Cast32(CHUNK + TAG), Cast64(size + count * TAG)))
  }

  // plain_size_of_chunk, in 32- and 64-bit arithmetic.
  function PlainSize(plan: Plan, size: int, i: int): int {
    if Cast32(i + 1) < plan.count then CHUNK else Cast64(size - CHUNK * (plan.count - 1))
  }

  // What decode_file_begin asks of a plan.
  predicate RelayTakes(plan: Plan) {
    && 1 <= plan.ciphertext <= MAX_FILE && 1 <= plan.chunkSize <= MAX_FILE_CHUNK
    && plan.count == (plan.ciphertext + plan.chunkSize - 1) / plan.chunkSize
    && (plan.chunkSize < MIN_FILE_CHUNK ==> plan.count == 1)
  }

  // What download_file asks of a chunk, in 64-bit arithmetic.
  function Wanted(plan: Plan, i: int): int {
    if Cast32(i + 1) < plan.count then plan.chunkSize else Cast64(plan.ciphertext - Cast64(i * plan.chunkSize))
  }

  function Sum(f: int -> int, n: nat): int {
    if n == 0 then 0 else Sum(f, n - 1) + f(n - 1)
  }

  // The chunks a file needs.
  lemma CountExact(size: nat, q: int)
    requires 0 < size <= MAX_PLAINTEXT && q == (size + CHUNK - 1) / CHUNK
    ensures 1 <= q < TWO32 && CHUNK * (q - 1) < size <= CHUNK * q
  {
  }

  lemma RelayCount(size: nat, q: int)
    requires size <= CHUNK * q && 1 <= q && CHUNK * (q - 1) <= size
    ensures (size + TAG * q + (CHUNK + TAG) - 1) / (CHUNK + TAG) == q
  {
    assert (CHUNK + TAG) * q <= size + TAG * q + (CHUNK + TAG) - 1 < (CHUNK + TAG) * (q + 1);
  }

  // The count is the smallest that covers the file, one for an empty one, and no cast or wrap-around loses anything.
  lemma PlanExact(size: nat)
    requires size <= MAX_PLAINTEXT
    ensures var plan := PlanFor(size).value;
            && 1 <= plan.count < TWO32 && CHUNK * (plan.count - 1) <= size <= CHUNK * plan.count
            && (if size == 0 then plan.count == 1 else CHUNK * (plan.count - 1) < size)
            && plan.chunkSize == CHUNK + TAG && plan.ciphertext == size + TAG * plan.count && RelayTakes(plan)
  {
    hide Cast32, Cast64;
    var q := if size == 0 then 1 else (size + CHUNK - 1) / CHUNK;
    if size > 0 { CountExact(size, q); }
    CastFits(size + CHUNK - 1);
    CastFits(q);
    CastFits(CHUNK + TAG);
    CastFits(size + q * TAG);
    RelayCount(size, q);
  }

  lemma PlainExact(size: nat, plan: Plan, i: nat)
    requires 1 <= plan.count < TWO32 && CHUNK * (plan.count - 1) <= size <= CHUNK * plan.count && size <= MAX_PLAINTEXT && i < plan.count
    ensures PlainSize(plan, size, i) == (if i + 1 < plan.count then CHUNK else size - CHUNK * i)
    ensures 0 <= PlainSize(plan, size, i) <= CHUNK
  {
    hide Cast32, Cast64;
    CastFits(i + 1);
    CastFits(size - CHUNK * (plan.count - 1));
  }

  lemma WantedExact(size: nat, plan: Plan, i: nat)
    requires 1 <= plan.count < TWO32 && CHUNK * (plan.count - 1) <= size <= CHUNK * plan.count && size <= MAX_PLAINTEXT && i < plan.count
    requires plan.chunkSize == CHUNK + TAG && plan.ciphertext == size + TAG * plan.count
    ensures Wanted(plan, i) == (if i + 1 < plan.count then CHUNK else size - CHUNK * i) + TAG
  {
    hide Cast32, Cast64;
    CastFits(i + 1);
    assert i * plan.chunkSize == CHUNK * i + TAG * i;
    CastFits(i * plan.chunkSize);
    CastFits(plan.ciphertext - i * plan.chunkSize);
  }

  lemma ChunkExact(size: nat, i: nat)
    requires size <= MAX_PLAINTEXT && i < PlanFor(size).value.count
    ensures var plan := PlanFor(size).value;
            && PlainSize(plan, size, i) == (if i + 1 < plan.count then CHUNK else size - CHUNK * i)
            && 0 <= PlainSize(plan, size, i) <= CHUNK
            && PlainSize(plan, size, i) + TAG == Wanted(plan, i) && 1 <= Wanted(plan, i) <= MAX_FILE_CHUNK
  {
    PlanExact(size);
    hide PlanFor, RelayTakes, PlainSize, Wanted;
    PlainExact(size, PlanFor(size).value, i);
    WantedExact(size, PlanFor(size).value, i);
  }

  lemma {:induction false} SumOf(f: int -> int, size: int, count: nat, n: nat)
    requires n <= count && 1 <= count && forall i :: 0 <= i < count ==> f(i) == if i + 1 < count then CHUNK else size - CHUNK * i
    ensures Sum(f, n) == if n < count then CHUNK * n else size
  {
    if n > 0 { SumOf(f, size, count, n - 1); }
  }

  lemma {:induction false} SumTagged(f: int -> int, g: int -> int, n: nat)
    requires forall i :: 0 <= i < n ==> g(i) == f(i) + TAG
    ensures Sum(g, n) == Sum(f, n) + TAG * n
  {
    if n > 0 { SumTagged(f, g, n - 1); }
  }

  // The chunks of a file hold the file, sealed they are what the plan says, and each is what the other side expects.
  lemma PlansAgree(size: nat)
    requires size <= MAX_PLAINTEXT
    ensures var plan := PlanFor(size).value;
            && RelayTakes(plan)
            && Sum(i => PlainSize(plan, size, i), plan.count) == size
            && Sum(i => PlainSize(plan, size, i) + TAG, plan.count) == plan.ciphertext
            && (forall i :: 0 <= i < plan.count ==> PlainSize(plan, size, i) + TAG == Wanted(plan, i))
  {
    PlanExact(size);
    hide PlanFor, PlainSize, RelayTakes, Wanted, Sum;
    var plan := PlanFor(size).value;
    forall i | 0 <= i < plan.count
      ensures PlainSize(plan, size, i) == (if i + 1 < plan.count then CHUNK else size - CHUNK * i) && PlainSize(plan, size, i) + TAG == Wanted(plan, i)
    {
      ChunkExact(size, i);
    }
    SumOf(i => PlainSize(plan, size, i), size, plan.count, plan.count);
    SumTagged(i => PlainSize(plan, size, i), i => PlainSize(plan, size, i) + TAG, plan.count);
  }
}
