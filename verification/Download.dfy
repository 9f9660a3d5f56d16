/**
 Putting a downloaded file back together (Decryptor in client/attachment.cpp), and the Encryptor it is the inverse of.

 The part file is what is on disk; what has been given to the stream and has not reached the disk yet is `pending`. The
 running hash is known by the bytes fed to it. What the operating system does (whether a file can be resized, read back,
 opened, written, flushed or renamed) is given with each step.
 */
module Download {
  import opened Wire
  import opened Chunks

  datatype Stream = Closed | Good | Bad

  // The file's key and ID are fixed, so opening a chunk depends on its index, the count and the sealed bytes.
  datatype Job = Job(size: nat, expected: Bytes, sha: Bytes -> Bytes, open: (int, int, Bytes) -> Option<Bytes>)

  datatype Down = Down(part: Option<Bytes>, pending: Bytes, stream: Stream, hashed: Option<Bytes>, next: int, written: int)

  datatype BeginIo = BeginIo(directory: bool, spilled: nat, sized: bool, resized: bool, readable: nat, cleared: bool, opens: bool)
  datatype AcceptIo = AcceptIo(writes: bool, spilled: nat)
  datatype FinishIo = FinishIo(spilled: nat, nameFree: bool, renames: bool)

  predicate Possible(job: Job) {
    job.size <= MAX_PLAINTEXT
  }

  function Count(job: Job): int
    requires Possible(job)
  {
    PlanFor(job.size).value.count
  }

  function Take(b: Bytes, n: nat): Bytes {
    if n < |b| then b[..n] else b
  }

  function Drop(b: Bytes, n: nat): Bytes {
    if n < |b| then b[n..] else []
  }

  function OnDisk(part: Option<Bytes>): Bytes {
    if part.Some? then part.value else []
  }

  // The stream gives up some of what it holds to the disk, and loses the rest.
  function CloseStream(d: Down, spilled: nat): Down {
    d.(part := if d.stream == Closed then d.part else Some(OnDisk(d.part) + Take(d.pending, spilled)), pending := [], stream := Closed)
  }

  // How much of an earlier attempt is kept: whole chunks, or all of the file.
  function Keep(job: Job, have: nat): nat {
    if have >= job.size then job.size else have - have % CHUNK
  }

  function Begin(job: Job, d: Down, resume: bool, io: BeginIo): (Down, bool)
    requires Possible(job)
  {
    if !io.directory then (d, false)
    else
      var c := CloseStream(d, io.spilled);
      if resume && c.part.Some? then
        var keep := Keep(job, if io.sized then |c.part.value| else 0);
        var cut := if keep > 0 && io.resized then Take(c.part.value, keep) else c.part.value;
        var kept := if io.readable < keep then 0 else keep;
        var part := if kept == 0 && io.cleared then [] else cut;
        (Down(Some(part), [], if io.opens then Good else Bad, Some(Take(cut, kept)),
              if kept >= job.size && job.size > 0 then Count(job) else kept / CHUNK, kept),
         io.opens)
      else
        (Down(if io.opens then Some([]) else c.part, [], if io.opens then Good else Bad, Some([]), 0, 0), io.opens)
  }

  function Accept(job: Job, d: Down, index: int, sealed: Bytes, io: AcceptIo): (Down, bool)
    requires Possible(job)
  {
    if d.stream != Good || d.hashed.None? then (d, false)
    else if index != d.next || index >= Count(job) then (d, false)
    else
      match job.open(index, Count(job), sealed)
      case None => (d, false)
      case Some(plain) =>
        if |plain| != PlainSize(PlanFor(job.size).value, job.size, index) then (d, false)
        else
          var given := d.pending + plain;
          var d' := d.(part := Some(OnDisk(d.part) + Take(given, io.spilled)), pending := Drop(given, io.spilled));
          if !io.writes then (d'.(stream := Bad), false)
          else (d'.(hashed := Some(d.hashed.value + plain), written := d.written + |plain|, next := d.next + 1), true)
  }

  function Abort(d: Down): Down {
    Down(None, [], Closed, d.hashed, 0, 0)
  }

  // The saved file, if there is one.
  function Finish(job: Job, d: Down, io: FinishIo): (Down, Option<Bytes>)
    requires Possible(job)
  {
    if d.stream != Good || d.hashed.None? || d.next != Count(job) || d.written != job.size then (d, None)
    else
      var c := CloseStream(d, io.spilled);
      if job.sha(d.hashed.value) != job.expected then (Abort(c), None)
      else if !io.nameFree || !io.renames then (c, None)
      else (c.(part := None), c.part)
  }

  // ---- What every step keeps ----

  function Min(a: int, b: int): int { if a < b then a else b }

  // While the stream is good, the hash covers exactly the part file, and the counters say how far it has got.
  predicate Covers(job: Job, d: Down)
    requires Possible(job)
  {
    d.stream == Good ==>
      && d.part.Some? && d.hashed.Some? && d.part.value + d.pending == d.hashed.value
      && |d.hashed.value| == d.written == Min(d.next * CHUNK, job.size) && 0 <= d.next <= Count(job)
      && (d.next == Count(job) ==> d.written == job.size)
  }

  // No bytes beyond those kept are left in the part file: it could be cut to size, or needed no cutting.
  predicate NoStray(job: Job, d: Down, resume: bool, io: BeginIo) {
    var c := CloseStream(d, io.spilled);
    resume && c.part.Some? ==>
      var have := |c.part.value|;
      var keep := Keep(job, if io.sized then have else 0);
      if keep > 0 && keep <= io.readable then io.resized || have == keep else io.cleared || have == 0
  }

  lemma KeepExact(job: Job, have: nat)
    requires Possible(job)
    ensures var k := Keep(job, have);
            && k <= have && k <= job.size
            && var next := if k >= job.size && job.size > 0 then Count(job) else k / CHUNK;
               0 <= next <= Count(job) && k == Min(next * CHUNK, job.size) && (next == Count(job) ==> k == job.size)
  {
    CountCovers(job);
    hide Count;
    if have < job.size { WholeChunks(have); ChunksFit(have / CHUNK, Count(job), job.size); }
  }

  lemma CountCovers(job: Job)
    requires Possible(job)
    ensures 1 <= Count(job) && CHUNK * (Count(job) - 1) <= job.size <= CHUNK * Count(job)
  {
    hide PlanFor, RelayTakes;
    PlanExact(job.size);
  }

  lemma WholeChunks(have: nat)
    ensures have - have % CHUNK == have / CHUNK * CHUNK && have / CHUNK * CHUNK / CHUNK == have / CHUNK && have / CHUNK * CHUNK <= have
  {
  }

  lemma ChunksFit(q: nat, count: int, size: nat)
    requires q * CHUNK < size <= CHUNK * count
    ensures q < count
  {
  }

  lemma NothingKept(job: Job)
    requires Possible(job)
    ensures 1 <= Count(job) && 0 == Min(0 * CHUNK, job.size)
    ensures job.size > 0 || Count(job) != 0
  {
    PlanExact(job.size);
  }

  // A beginning covers the part file exactly when nothing stray was left in it.
  lemma BeginCovers(job: Job, d: Down, resume: bool, io: BeginIo)
    requires Possible(job) && Begin(job, d, resume, io).1
    ensures Covers(job, Begin(job, d, resume, io).0) <==> NoStray(job, d, resume, io)
  {
    hide PlanFor, Keep, Count;
    var c := CloseStream(d, io.spilled);
    var d' := Begin(job, d, resume, io).0;
    NothingKept(job);
    if resume && c.part.Some? {
      var part := c.part.value;
      var have := if io.sized then |part| else 0;
      var keep := Keep(job, have);
      KeepExact(job, have);
      var cut := if keep > 0 && io.resized then Take(part, keep) else part;
      assert d'.part.value + d'.pending == d'.part.value;
      if keep > 0 && keep <= io.readable {
        assert Take(part, keep) == part <==> |part| == keep;
      }
    }
  }

  // Carrying on keeps every whole chunk an earlier attempt has on disk, or all of a file that is there, as long as it can be
  // read back; anything else starts again with nothing. A beginning succeeds exactly when there is a folder and the part
  // file can be opened.
  lemma BeginResumes(job: Job, d: Down, resume: bool, io: BeginIo)
    requires Possible(job)
    ensures Begin(job, d, resume, io).1 <==> io.directory && io.opens
    ensures Begin(job, d, resume, io).1 ==>
              var d', had := Begin(job, d, resume, io).0, CloseStream(d, io.spilled).part;
              if resume && had.Some? && io.sized && job.size <= |had.value| && job.size <= io.readable && 0 < job.size
              then d'.next == Count(job) && d'.hashed == Some(had.value[..job.size])
              else if resume && had.Some? && io.sized && |had.value| < job.size && |had.value| / CHUNK * CHUNK <= io.readable
              then d'.next == |had.value| / CHUNK && d'.hashed == Some(had.value[..d'.next * CHUNK])
              else d'.next == 0 && d'.hashed == Some([])
  {
    hide PlanFor, Count;
    var had := CloseStream(d, io.spilled).part;
    if had.Some? {
      var b := had.value;
      WholeChunks(|b|);
      TakeIs(b, |b| / CHUNK * CHUNK);
      if job.size <= |b| { TakeIs(b, job.size); }
      var keep := Keep(job, if io.sized then |b| else 0);
      TakeTwice(b, keep);
    }
    WholeChunks(0);
  }

  lemma TakeIs(b: Bytes, n: nat)
    requires n <= |b|
    ensures Take(b, n) == b[..n]
  {
    assert b[..|b|] == b;
  }

  lemma TakeTwice(b: Bytes, n: nat)
    ensures Take(Take(b, n), n) == Take(b, n) && Take(b, 0) == [] && Take(Take(b, n), 0) == []
  {
  }

  lemma StepExact(job: Job, next: nat)
    requires Possible(job) && next < Count(job)
    ensures var p := PlainSize(PlanFor(job.size).value, job.size, next);
            && Min(next * CHUNK, job.size) + p == Min((next + 1) * CHUNK, job.size) && 0 <= p
            && Min(next * CHUNK, job.size) == next * CHUNK
            && (next + 1 == Count(job) ==> Min((next + 1) * CHUNK, job.size) == job.size)
  {
    PlanExact(job.size);
    ChunkExact(job.size, next);
    hide PlanFor, PlainSize, RelayTakes, Wanted;
  }

  lemma Spilled(part: Bytes, given: Bytes, n: nat)
    ensures part + Take(given, n) + Drop(given, n) == part + given
  {
  }

  lemma AcceptKeeps(job: Job, d: Down, index: int, sealed: Bytes, io: AcceptIo)
    requires Possible(job) && Covers(job, d)
    ensures Covers(job, Accept(job, d, index, sealed, io).0)
  {
    hide PlanFor, PlainSize, Take, Drop, Count, Min;
    var d' := Accept(job, d, index, sealed, io).0;
    if d'.stream == Good && d' != d {
      var plain := job.open(index, Count(job), sealed).value;
      StepExact(job, d.next);
      Spilled(d.part.value, d.pending + plain, io.spilled);
      assert d.part.value + (d.pending + plain) == d.hashed.value + plain;
    }
  }

  // A chunk counts exactly when it is the next one, opens as that chunk of this file, has the size planned for it and can
  // be written; then the hash has taken it in, and otherwise nothing that counts has changed.
  lemma AcceptExactly(job: Job, d: Down, index: int, sealed: Bytes, io: AcceptIo)
    requires Possible(job) && d.stream == Good && d.hashed.Some?
    ensures var (d', ok) := Accept(job, d, index, sealed, io);
            var plain := job.open(index, Count(job), sealed);
            && (ok <==> index == d.next < Count(job) && plain.Some? && |plain.value| == PlainSize(PlanFor(job.size).value, job.size, index) && io.writes)
            && (ok ==> d'.hashed == Some(d.hashed.value + plain.value) && d'.next == d.next + 1 && d'.written == d.written + |plain.value| && d'.stream == Good)
            && (!ok ==> d'.hashed == d.hashed && d'.next == d.next && d'.written == d.written)
  {
    hide PlanFor, PlainSize;
  }

  // ---- Any sequence of steps ----

  datatype Action =
    | DoBegin(resume: bool, begin: BeginIo)
    | DoAccept(index: int, sealed: Bytes, write: AcceptIo)
    | DoFinish(finish: FinishIo)
    | DoAbort
    | Interrupt(spilled: nat)   // the program ends, or drops the download
    | Truncate(size: nat)       // while nothing is writing it, the part file loses its end

  function Do(job: Job, d: Down, a: Action): Down
    requires Possible(job)
  {
    match a
    case DoBegin(resume, io) => Begin(job, d, resume, io).0
    case DoAccept(index, sealed, io) => Accept(job, d, index, sealed, io).0
    case DoFinish(io) => Finish(job, d, io).0
    case DoAbort => Abort(d)
    case Interrupt(spilled) => CloseStream(d, spilled).(hashed := None, next := 0, written := 0)
    case Truncate(size) => if d.stream == Closed && d.part.Some? then d.(part := Some(Take(d.part.value, size))) else d
  }

  function Run(job: Job, d: Down, actions: seq<Action>): Down
    requires Possible(job)
    decreases |actions|
  {
    if actions == [] then d else Run(job, Do(job, d, actions[0]), actions[1..])
  }

  // Every beginning along the way could cut the part file to what it kept.
  predicate NeverStray(job: Job, d: Down, actions: seq<Action>)
    requires Possible(job)
    decreases |actions|
  {
    actions != [] ==>
      && (actions[0].DoBegin? && Begin(job, d, actions[0].resume, actions[0].begin).1 ==> NoStray(job, d, actions[0].resume, actions[0].begin))
      && NeverStray(job, Do(job, d, actions[0]), actions[1..])
  }

  lemma StepCovers(job: Job, d: Down, a: Action)
    requires Possible(job) && Covers(job, d)
    requires a.DoBegin? && Begin(job, d, a.resume, a.begin).1 ==> NoStray(job, d, a.resume, a.begin)
    ensures Covers(job, Do(job, d, a))
  {
    hide PlanFor, PlainSize, Count, Keep, NoStray, Take, Drop;
    match a
    case DoBegin(resume, io) => if Begin(job, d, resume, io).1 { BeginCovers(job, d, resume, io); }
    case DoAccept(index, sealed, io) => AcceptKeeps(job, d, index, sealed, io);
    case _ =>
  }

  // Through any number of attempts, interruptions and truncations, the hash covers exactly the part file.
  lemma {:induction false} RunCovers(job: Job, d: Down, actions: seq<Action>)
    requires Possible(job) && Covers(job, d) && NeverStray(job, d, actions)
    ensures Covers(job, Run(job, d, actions))
    decreases |actions|
  {
    if actions != [] {
      hide Covers, Do, NoStray, Begin;
      StepCovers(job, d, actions[0]);
      RunCovers(job, Do(job, d, actions[0]), actions[1..]);
    }
  }

  // ---- Finishing ----

  // A saved file is the bytes that were hashed to what the sender signed, as far as they reached the disk; it is all
  // of them, and of the right size, exactly when closing the stream wrote out everything it still held.
  lemma FinishSaves(job: Job, d: Down, io: FinishIo)
    requires Possible(job) && Covers(job, d) && Finish(job, d, io).1.Some?
    ensures var saved := Finish(job, d, io).1.value;
            && job.sha(d.hashed.value) == job.expected && |d.hashed.value| == job.size
            && saved <= d.hashed.value
            && (saved == d.hashed.value <==> |d.pending| <= io.spilled)
            && (|saved| == job.size <==> |d.pending| <= io.spilled)
  {
    hide PlanFor, Count;
    var saved := Finish(job, d, io).1.value;
    assert saved == d.part.value + Take(d.pending, io.spilled);
    assert d.hashed.value == d.part.value + d.pending;
    assert d.hashed.value[..|saved|] == saved;
  }

  // So a file can be saved short: closing the stream may fail to write out what it still holds, and nobody looks.
  lemma SavedShort(job: Job, file: Bytes)
    requires 1 <= |file| == job.size <= MAX_PLAINTEXT && job.sha(file) == job.expected
    ensures var d := Down(Some([]), file, Good, Some(file), Count(job), job.size);
            Covers(job, d) && Finish(job, d, FinishIo(0, true, true)).1 == Some([])
  {
    CountCovers(job);
    hide Count;
    var d := Down(Some([]), file, Good, Some(file), Count(job), job.size);
    assert [] + file == file && file[..0] == [];
    assert Min(Count(job) * CHUNK, job.size) == job.size;
    assert Covers(job, d);
    assert OnDisk(d.part) + Take(file, 0) == [];
  }

  // The other half: a complete download is saved whenever its hash is the signed one, a name is free and the rename works.
  lemma FinishExactly(job: Job, d: Down, io: FinishIo)
    requires Possible(job) && Covers(job, d)
    ensures Finish(job, d, io).1.Some? <==>
              && d.stream == Good && d.next == Count(job) && job.sha(d.hashed.value) == job.expected && io.nameFree && io.renames
    ensures d.stream == Good && d.next == Count(job) && job.sha(d.hashed.value) != job.expected ==> Finish(job, d, io).0.part.None?
  {
    hide PlanFor, Count;
  }

  // ---- The other end ----

  // Encryptor::chunk: the plaintext it reads for a chunk, unless the file is shorter than it was.
  function Piece(file: Bytes, size: nat, i: nat): Option<Bytes>
    requires size <= MAX_PLAINTEXT
  {
    var plan := PlanFor(size).value;
    if i >= plan.count then None
    else
      var want := PlainSize(plan, size, i);
      if want < 0 || i * CHUNK + want > |file| then None else Some(file[i * CHUNK..i * CHUNK + want])
  }

  // The sealed chunks of an unchanged file, and an opener that undoes sealing.
  ghost predicate Sealed(job: Job, file: Bytes, chunks: seq<Bytes>)
    requires Possible(job)
  {
    && |file| == job.size && |chunks| == Count(job) && job.sha(file) == job.expected
    && forall i :: 0 <= i < |chunks| ==> job.open(i, Count(job), chunks[i]) == Piece(file, job.size, i)
  }

  function AcceptRest(job: Job, d: Down, chunks: seq<Bytes>, ios: seq<AcceptIo>): Down
    requires Possible(job) && |ios| == |chunks|
    decreases |chunks|
  {
    if chunks == [] then d else AcceptRest(job, Accept(job, d, d.next, chunks[0], ios[0]).0, chunks[1..], ios[1..])
  }

  lemma PieceExact(file: Bytes, job: Job, i: nat)
    requires Possible(job) && |file| == job.size && i < Count(job)
    ensures var p := Piece(file, job.size, i);
            && p.Some? && |p.value| == PlainSize(PlanFor(job.size).value, job.size, i)
            && file[..Min(i * CHUNK, job.size)] + p.value == file[..Min((i + 1) * CHUNK, job.size)]
  {
    StepExact(job, i);
    hide PlanFor, PlainSize;
  }

  // From any point of a download whose part file is a beginning of the original, the remaining chunks bring it to the
  // whole original, and finishing saves exactly that.
  lemma {:induction false} RestCompletes(job: Job, file: Bytes, chunks: seq<Bytes>, d: Down, ios: seq<AcceptIo>)
    requires Possible(job) && Sealed(job, file, chunks) && Covers(job, d) && d.stream == Good && d.hashed.value <= file
    requires |ios| == Count(job) - d.next && forall i :: 0 <= i < |ios| ==> ios[i].writes
    ensures var done := AcceptRest(job, d, chunks[d.next..], ios);
            Covers(job, done) && done.stream == Good && done.next == Count(job) && done.hashed == Some(file)
    decreases |ios|
  {
    if ios != [] {
      var d' := Accept(job, d, d.next, chunks[d.next], ios[0]).0;
      AcceptNext(job, file, chunks, d, ios[0]);
      assert chunks[d.next..][1..] == chunks[d'.next..];
      hide Accept, Covers, Sealed;
      RestCompletes(job, file, chunks, d', ios[1..]);
    } else {
      assert d.hashed.value == file;
    }
  }

  lemma AcceptNext(job: Job, file: Bytes, chunks: seq<Bytes>, d: Down, io: AcceptIo)
    requires Possible(job) && Sealed(job, file, chunks) && Covers(job, d) && d.stream == Good && d.hashed.value <= file
    requires d.next < Count(job) && io.writes
    ensures var d' := Accept(job, d, d.next, chunks[d.next], io).0;
            Covers(job, d') && d'.stream == Good && d'.next == d.next + 1 && d'.hashed.value <= file
  {
    AcceptKeeps(job, d, d.next, chunks[d.next], io);
    PieceExact(file, job, d.next);
    hide PlanFor, PlainSize, Piece, Min, Take, Drop;
    var plain := Piece(file, job.size, d.next).value;
    assert d.hashed.value == file[..Min(d.next * CHUNK, job.size)];
  }

  lemma OriginalSaved(job: Job, file: Bytes, chunks: seq<Bytes>, d: Down, resume: bool, begin: BeginIo, ios: seq<AcceptIo>, finish: FinishIo)
    requires Possible(job) && Sealed(job, file, chunks)
    requires Begin(job, d, resume, begin).1 && NoStray(job, d, resume, begin) && Begin(job, d, resume, begin).0.hashed.value <= file
    requires |ios| == Count(job) - Begin(job, d, resume, begin).0.next && forall i :: 0 <= i < |ios| ==> ios[i].writes
    requires finish.nameFree && finish.renames
    ensures var begun := Begin(job, d, resume, begin).0;
            var done := AcceptRest(job, begun, chunks[begun.next..], ios);
            |done.pending| <= finish.spilled ==> Finish(job, done, finish).1 == Some(file)
  {
    hide Begin, AcceptRest, Finish, NoStray;
    BeginCovers(job, d, resume, begin);
    var begun := Begin(job, d, resume, begin).0;
    BegunGood(job, d, resume, begin);
    RestCompletes(job, file, chunks, begun, ios);
    var done := AcceptRest(job, begun, chunks[begun.next..], ios);
    FinishExactly(job, done, finish);
    FinishSaves(job, done, finish);
  }

  lemma BegunGood(job: Job, d: Down, resume: bool, io: BeginIo)
    requires Possible(job) && Begin(job, d, resume, io).1
    ensures Begin(job, d, resume, io).0.stream == Good
  {
  }

  // The condition is needed: what an earlier attempt left stays under the new download when the file cannot be cut.
  lemma StrayBytesStay(job: Job, left: Bytes)
    requires job.size == 100 && |left| == 60
    ensures var begun := Begin(job, Down(Some(left), [], Closed, None, 0, 0), true, BeginIo(true, 0, true, true, 60, false, true)).0;
            begun.stream == Good && begun.part == Some(left) && begun.hashed == Some([]) && begun.next == 0 && !Covers(job, begun)
  {
    assert left + [] == left != [];
  }

  const BUFFER := 1024 * 1024

  class Decryptor {
    const job: Job
    var part: Option<Bytes>
    var pending: Bytes
    var stream: Stream
    var hashed: Option<Bytes>
    var next: int
    var written: int

    ghost function Value(): Down
      reads this
    {
      Down(part, pending, stream, hashed, next, written)
    }

    constructor (job: Job, part: Option<Bytes>)
      requires Possible(job)
      ensures this.job == job && Value() == Down(part, [], Closed, None, 0, 0) && Covers(job, Value())
    {
      this.job, this.part, pending, stream, hashed, next, written := job, part, [], Closed, None, 0, 0;
    }

    method CloseOut(spilled: nat)
      modifies this`part, this`pending, this`stream
      ensures Value() == CloseStream(old(Value()), spilled)
    {
      if stream != Closed { part := Some((if part.Some? then part.value else []) + Take(pending, spilled)); }
      pending, stream := [], Closed;
    }

    // Reads back the first `keep` bytes of a file, a buffer at a time, as far as they can be read.
    method ReadBack(file: Bytes, keep: nat, readable: nat) returns (read: Bytes)
      requires keep <= |file|
      ensures read == Take(file, if readable < keep then readable else keep)
    {
      read := [];
      var left := keep;
      while left > 0
        invariant 0 <= left <= keep && |read| == keep - left && read == file[..|read|] && |read| <= readable
        decreases left
      {
        var want := if BUFFER < left then BUFFER else left;
        var got := if readable - |read| < want then readable - |read| else want;
        if got == 0 { break; }
        assert file[..|read|] + file[|read|..|read| + got] == file[..|read| + got];
        read := read + file[|read|..|read| + got];
        left := left - got;
      }
    }

    // What is kept of an earlier attempt: the file cut to whole chunks, or nothing if it cannot be read back.
    method PickUp(found: Bytes, io: BeginIo) returns (file: Bytes, kept: nat, read: Bytes)
      ensures var keep := Keep(job, if io.sized then |found| else 0);
              var cut := if keep > 0 && io.resized then Take(found, keep) else found;
              && kept == (if io.readable < keep then 0 else keep) && read == Take(cut, kept)
              && file == (if kept == 0 && io.cleared then [] else cut)
    {
      var have: nat := if io.sized then |found| else 0;
      kept := if have >= job.size then job.size else have - have % CHUNK;
      file, read := found, [];
      if kept > 0 {
        if io.resized { file := Take(file, kept); }
        var got := ReadBack(file, kept, io.readable);
        if |got| < kept { kept := 0; } else { read := got; }
      }
      if kept == 0 && io.cleared { file := []; }
    }

    method Start(resume: bool, io: BeginIo) returns (ok: bool)
      requires Possible(job)
      modifies this
      ensures (Value(), ok) == Begin(job, old(Value()), resume, io)
      ensures ok ==> (Covers(job, Value()) <==> NoStray(job, old(Value()), resume, io))
    {
      hide PlanFor, PlainSize, NoStray, Covers, Keep, Count;
      if !io.directory { return false; }
      ghost var was := Value();
      CloseOut(io.spilled);
      hashed, next, written := Some([]), 0, 0;
      if resume && part.Some? {
        var file, keep, read := PickUp(part.value, io);
        part, hashed := Some(file), Some(read);
        written := keep;
        next := if keep >= job.size && job.size > 0 then Count(job) else keep / CHUNK;
        stream := if io.opens then Good else Bad;
      } else {
        if io.opens { part := Some([]); }
        stream := if io.opens then Good else Bad;
      }
      ok := io.opens;
      assert (Value(), ok) == Begin(job, was, resume, io);
      if ok { BeginCovers(job, was, resume, io); }
    }

    method AcceptChunk(index: int, sealed: Bytes, io: AcceptIo) returns (ok: bool)
      requires Possible(job) && Covers(job, Value())
      modifies this
      ensures (Value(), ok) == Accept(job, old(Value()), index, sealed, io) && Covers(job, Value())
    {
      AcceptKeeps(job, Value(), index, sealed, io);
      hide PlanFor, PlainSize, Covers;
      if stream != Good || hashed.None? || index != next || index >= Count(job) { return false; }
      var plain := job.open(index, Count(job), sealed);
      if plain.None? || |plain.value| != PlainSize(PlanFor(job.size).value, job.size, index) { return false; }
      var given := pending + plain.value;
      part, pending := Some((if part.Some? then part.value else []) + Take(given, io.spilled)), Drop(given, io.spilled);
      if !io.writes {
        stream := Bad;
        return false;
      }
      hashed, written, next := Some(hashed.value + plain.value), written + |plain.value|, next + 1;
      return true;
    }

    method Complete(io: FinishIo) returns (saved: Option<Bytes>)
      requires Possible(job) && Covers(job, Value())
      modifies this
      ensures (Value(), saved) == Finish(job, old(Value()), io) && Covers(job, Value())
      ensures saved.Some? && |old(pending)| <= io.spilled ==> job.sha(saved.value) == job.expected && |saved.value| == job.size
    {
      if stream == Good && hashed.Some? && next == Count(job) && written == job.size {
        ghost var was := Value();
        var h := job.sha(hashed.value);
        CloseOut(io.spilled);
        if h != job.expected {
          GiveUp();
          saved := None;
        } else if !io.nameFree || !io.renames {
          saved := None;
        } else {
          saved := part;
          part := None;
          FinishSaves(job, was, io);
        }
      } else {
        saved := None;
      }
    }

    method GiveUp()
      modifies this
      ensures Value() == Abort(old(Value()))
    {
      part, pending, stream, next, written := None, [], Closed, 0, 0;
    }
  }
}
