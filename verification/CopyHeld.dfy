/** What a copy buffer holds, how it relates to the flow of its direction, and how each step keeps that relation. */
module CopyHelds {
  import opened Common
  import opened CopyFlows

  /** The fields of a copy buffer of length `size`; `held` is what lies between `pos` and `cap`. */
  datatype Held = Held(readDone: bool, needFlush: bool, pos: nat, cap: nat, amt: nat, held: seq<byte>, size: nat)

  /** The buffer holds exactly what was received and not yet sent, and its flags and count are those of the flow. */
  ghost predicate Tracks(b: Held, f: Flow) {
    && f.lawful && !f.broken && !f.finished && !f.closed
    && b.readDone == f.ended && b.needFlush == f.dirty && b.amt == |f.sent|
    && b.pos <= b.cap <= b.size && b.size > 0 && |b.held| == b.cap - b.pos
    && f.received == f.sent + b.held
  }

  /** Everything up to the end of file is delivered and flushed. */
  ghost predicate Delivered(f: Flow, n: nat) {
    f.lawful && f.ended && f.finished && !f.broken && f.sent == f.received && n == |f.received|
  }

  /** `g` is not behind `f`: in its bytes, its counts, and how far the direction has got. */
  ghost predicate Later(f: Flow, g: Flow) {
    f.wakes <= g.wakes && f.writeWaits <= g.writeWaits && f.readWaits <= g.readWaits && Progress(f) <= Progress(g)
    && |f.received| <= |g.received| && |f.sent| <= |g.sent|
  }

  /** From `f` to `g` the law was kept, the progress flag tells of progress, and `used` counted steps were made. */
  ghost predicate Accounts(f: Flow, g: Flow, p: bool, p': bool, used: int) {
    g.lawful && Later(f, g) && (p' <==> p || Progress(g) > Progress(f))
    && used >= 0 && Spent(g) == Spent(f) + used
  }

  /** No idle spinning: the copy wakes itself once if it has used up its budget, and not otherwise. */
  ghost predicate Yields(f: Flow, g: Flow, ops: nat) {
    g.wakes == f.wakes + One(ops == 0)
  }

  /**
   No lost wake-up: the copy woke itself, or the writer will wake it, or the reader will and everything read so far has
   been delivered and flushed.
   */
  ghost predicate WillWake(f: Flow, g: Flow) {
    g.wakes > f.wakes || g.writeWaits > f.writeWaits
    || (g.readWaits > f.readWaits && g.sent == g.received && !g.dirty)
  }

  /** From `f` to `g` the reader was polled. */
  ghost predicate Reads(f: Flow, g: Flow) {
    g.gots > f.gots || (g.ended && !f.ended) || g.readWaits > f.readWaits || g.broken
  }

  lemma AccountsTransitive(f: Flow, g: Flow, h: Flow, p: bool, p': bool, p'': bool, used: int, used': int)
    requires Accounts(f, g, p, p', used) && Accounts(g, h, p', p'', used')
    ensures Accounts(f, h, p, p'', used + used')
    ensures WillWake(g, h) || g.wakes > f.wakes || g.writeWaits > f.writeWaits ==> WillWake(f, h)
  {
  }

  /** Waking up is always allowed and changes nothing else. */
  lemma WakeTracks(b: Held, f: Flow, p: bool, size: nat)
    requires Tracks(b, f)
    ensures Tracks(b, Next(f, Woken, size)) && Accounts(f, Next(f, Woken, size), p, p, 0)
    ensures WillWake(f, Next(f, Woken, size))
  {
  }

  /** A successful read: the new bytes are behind the ones held, and none at all means the end of file. */
  lemma FillTracks(b: Held, f: Flow, bytes: seq<byte>, p: bool, size: nat)
    requires Tracks(b, f) && !b.readDone && size == b.size && b.cap < size && |bytes| <= size - b.cap
    ensures var room := size - b.cap;
            var g := Next(f, if bytes == [] then Eof(room) else Got(room, bytes), size);
            Tracks(b.(readDone := bytes == [], cap := b.cap + |bytes|, held := b.held + bytes), g)
            && Accounts(f, g, p, p || bytes != [], 1)
  {
    assert f.sent + (b.held + bytes) == f.received + bytes;
  }

  /** A read that is not ready or fails. */
  lemma NoFillTracks(b: Held, f: Flow, p: bool, size: nat)
    requires Tracks(b, f) && !b.readDone && size == b.size && b.cap < size
    ensures var room := size - b.cap;
            var waits, fails := Next(f, ReadPending(room), size), Next(f, ReadFailed(room), size);
            Tracks(b, waits) && Accounts(f, waits, p, p, 0) && Accounts(f, fails, p, p, 0)
  {
  }

  /** A successful write of `len` bytes. */
  lemma PutTracks(b: Held, f: Flow, len: nat, p: bool, size: nat)
    requires Tracks(b, f) && 0 < len <= |b.held|
    ensures var g := Next(f, Put(b.held, len), size);
            Tracks(b.(pos := b.pos + len, amt := b.amt + len, needFlush := true, held := b.held[len..]), g)
            && Accounts(f, g, p, true, 1)
  {
    assert b.held == b.held[..len] + b.held[len..];
    assert f.received == (f.sent + b.held[..len]) + b.held[len..];
  }

  /** A write that is not ready, or fails, or accepts nothing. */
  lemma NoPutTracks(b: Held, f: Flow, p: bool, size: nat)
    requires Tracks(b, f) && b.pos < b.cap
    ensures Tracks(b, Next(f, WritePending(b.held), size)) && WillWake(f, Next(f, WritePending(b.held), size))
    ensures Accounts(f, Next(f, WritePending(b.held), size), p, p, 0)
    ensures Accounts(f, Next(f, WriteFailed(b.held), size), p, p, 0)
    ensures Accounts(f, Next(f, PutNothing(b.held), size), p, p, 0)
  {
  }

  /** A flush while the buffer is drained: an idle flush counts against the budget, the final one does not. */
  lemma FlushTracks(b: Held, f: Flow, p: bool, size: nat)
    requires Tracks(b, f) && b.pos == b.cap && (b.needFlush || b.readDone)
    ensures var g := Next(f, Flushed, size);
            Accounts(f, g, p, true, if b.readDone then 0 else 1)
            && (if b.readDone then g.finished && !g.broken && !g.closed && g.sent == g.received && |g.sent| == b.amt
                else Tracks(b.(needFlush := false), g))
    ensures Tracks(b, Next(f, FlushPending, size)) && WillWake(f, Next(f, FlushPending, size))
    ensures Accounts(f, Next(f, FlushPending, size), p, p, 0) && Accounts(f, Next(f, FlushFailed, size), p, p, 0)
  {
  }

  /** The same steps, counted from where the caller started. */
  lemma FillStep(b: Held, f: Flow, g: Flow, bytes: seq<byte>, p: bool, p': bool, used: int, size: nat)
    requires Tracks(b, g) && Accounts(f, g, p, p', used)
    requires !b.readDone && size == b.size && b.cap < size && |bytes| <= size - b.cap
    ensures var room := size - b.cap;
            var h := Next(g, if bytes == [] then Eof(room) else Got(room, bytes), size);
            Tracks(b.(readDone := bytes == [], cap := b.cap + |bytes|, held := b.held + bytes), h)
            && Accounts(f, h, p, p' || bytes != [], used + 1) && Reads(g, h)
  {
    FillTracks(b, g, bytes, p', size);
    var room := size - b.cap;
    var h := Next(g, if bytes == [] then Eof(room) else Got(room, bytes), size);
    AccountsTransitive(f, g, h, p, p', p' || bytes != [], used, 1);
  }

  lemma NoFillStep(b: Held, f: Flow, g: Flow, p: bool, p': bool, used: int, size: nat)
    requires Tracks(b, g) && Accounts(f, g, p, p', used) && !b.readDone && size == b.size && b.cap < size
    ensures var room := size - b.cap;
            var waits, fails := Next(g, ReadPending(room), size), Next(g, ReadFailed(room), size);
            && Tracks(b, waits) && waits.readWaits > f.readWaits && Reads(g, waits) && Reads(g, fails)
            && Accounts(f, waits, p, p', used) && Accounts(f, fails, p, p', used)
  {
    var room := size - b.cap;
    NoFillTracks(b, g, p', size);
    AccountsTransitive(f, g, Next(g, ReadPending(room), size), p, p', p', used, 0);
    AccountsTransitive(f, g, Next(g, ReadFailed(room), size), p, p', p', used, 0);
  }

  lemma PutStep(b: Held, f: Flow, g: Flow, len: nat, p: bool, p': bool, used: int, size: nat)
    requires Tracks(b, g) && Accounts(f, g, p, p', used) && 0 < len <= |b.held|
    ensures var h := Next(g, Put(b.held, len), size);
            Tracks(b.(pos := b.pos + len, amt := b.amt + len, needFlush := true, held := b.held[len..]), h)
            && Accounts(f, h, p, true, used + 1)
  {
    PutTracks(b, g, len, p', size);
    AccountsTransitive(f, g, Next(g, Put(b.held, len), size), p, p', true, used, 1);
  }

  lemma PutNothingStep(b: Held, f: Flow, g: Flow, p: bool, p': bool, used: int, size: nat)
    requires Tracks(b, g) && Accounts(f, g, p, p', used) && b.pos < b.cap
    ensures Accounts(f, Next(g, PutNothing(b.held), size), p, p', used)
  {
    NoPutTracks(b, g, p', size);
    AccountsTransitive(f, g, Next(g, PutNothing(b.held), size), p, p', p', used, 0);
  }

  lemma FlushStep(b: Held, f: Flow, g: Flow, p: bool, p': bool, used: int, size: nat)
    requires Tracks(b, g) && Accounts(f, g, p, p', used) && b.pos == b.cap && (b.needFlush || b.readDone)
    ensures Accounts(f, Next(g, Flushed, size), p, true, used + if b.readDone then 0 else 1)
    ensures !b.readDone ==> Tracks(b.(needFlush := false), Next(g, Flushed, size))
    ensures Accounts(f, Next(g, FlushPending, size), p, p', used)
    ensures Accounts(f, Next(g, FlushFailed, size), p, p', used)
    ensures Tracks(b, Next(g, FlushPending, size)) && WillWake(f, Next(g, FlushPending, size))
  {
    FlushTracks(b, g, p', size);
    AccountsTransitive(f, g, Next(g, Flushed, size), p, p', true, used, if b.readDone then 0 else 1);
    AccountsTransitive(f, g, Next(g, FlushPending, size), p, p', p', used, 0);
    AccountsTransitive(f, g, Next(g, FlushFailed, size), p, p', p', used, 0);
  }

  lemma FinalFlushDelivers(b: Held, f: Flow, size: nat)
    requires Tracks(b, f) && b.pos == b.cap && b.readDone
    ensures Delivered(Next(f, Flushed, size), b.amt) && !Next(f, Flushed, size).closed
  {
  }

  /** With nothing to deliver or flush, waiting for the reader alone is enough. */
  lemma IdleWillWake(b: Held, f: Flow, g: Flow)
    requires Tracks(b, g) && b.pos == b.cap && !b.needFlush && g.readWaits > f.readWaits
    ensures WillWake(f, g)
  {
  }

  /** A drained buffer may be reused from its start. */
  lemma ResetTracks(b: Held, f: Flow)
    requires Tracks(b, f) && b.pos == b.cap
    ensures Tracks(b.(pos := 0, cap := 0), f)
  {
  }

  /** The shutdown of the writer after the final flush. */
  lemma ShutStep(f: Flow, g: Flow, n: nat, p: bool, p': bool, used: int, size: nat)
    requires Delivered(g, n) && !g.closed && Accounts(f, g, p, p', used)
    ensures Delivered(Next(g, Shut, size), n) && Next(g, Shut, size).closed
    ensures Accounts(f, Next(g, Shut, size), p, true, used)
    ensures Delivered(Next(g, ShutPending, size), n) && !Next(g, ShutPending, size).closed
    ensures WillWake(f, Next(g, ShutPending, size)) && Accounts(f, Next(g, ShutPending, size), p, p', used)
    ensures Accounts(f, Next(g, ShutFailed, size), p, p', used)
  {
  }
}
