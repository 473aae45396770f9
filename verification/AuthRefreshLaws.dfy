/** How the bytes are cut into chunks does not matter, and what a successful stream looks like. */
module AuthRefreshLaws {
  import opened Options
  import opened Texts
  import opened Json
  import opened AuthRefresh

  function Concat(chunks: seq<seq<Byte>>): seq<Byte>
    decreases |chunks|
  {
    if chunks == [] then [] else chunks[0] + Concat(chunks[1..])
  }

  // ---- decoding in pieces ----

  lemma DecodeConcat(d: Decoder, a: seq<Byte>, b: seq<Byte>)
    ensures Decode(d, a + b) ==
      var first := Decode(d, a);
      if first.None? then None
      else
        var second := Decode(first.value.0, b);
        if second.None? then None else Some((second.value.0, first.value.1 + second.value.1))
    decreases |a|
  {
    hide DecodeByte;
    if a == [] {
      assert a + b == b;
      var second := Decode(d, b);
      assert second.Some? ==> [] + second.value.1 == second.value.1;
    } else {
      assert (a + b)[1..] == a[1..] + b;
      var head := DecodeByte(d, a[0]);
      if head.Some? {
        DecodeConcat(head.value.0, a[1..], b);
        var first := Decode(head.value.0, a[1..]);
        if first.Some? {
          var second := Decode(first.value.0, b);
          assert second.Some? ==>
            head.value.1 + (first.value.1 + second.value.1) == head.value.1 + first.value.1 + second.value.1;
        }
      }
    }
  }

  // ---- draining in pieces ----

  /** What others can see of the reader. */
  function Observed(r: Reader): (Phase, Option<string>, bool, seq<Message>) {
    (r.phase, r.failure, r.receivedAccount, r.sent)
  }

  /** The same to others, and the same throughout while the protocol goes on. */
  ghost predicate Alike(r: Reader, s: Reader) {
    Observed(r) == Observed(s) && (r.phase.Finished? || r == s)
  }

  lemma NewlineAfter(p: Text, q: Text)
    ensures NewlineAt(p) < |p| ==> NewlineAt(p + q) == NewlineAt(p)
    ensures NewlineAt(p) == |p| ==> NewlineAt(p + q) == |p| + NewlineAt(q)
  {
    if p == [] {
      assert p + q == q;
    } else if p[0] != NEWLINE {
      NewlineAfter(p[1..], q);
      assert (p + q)[1..] == p[1..] + q;
    }
  }

  /** A line is handled the same whatever text follows it. */
  lemma HandleIgnoresPending(c: NumberCodec, r: Reader, line: Text, p: Text)
    ensures HandleLine(c, r.(pending := p), line) == HandleLine(c, r, line).(pending := p)
  {
    hide Classify;
  }

  /** Draining a longer text is draining its front, then the rest. */
  lemma {:induction false} DrainConcat(c: NumberCodec, r: Reader, q: Text)
    ensures Alike(Drain(c, r.(pending := r.pending + q)),
                  var first := Drain(c, r); Drain(c, first.(pending := first.pending + q)))
    decreases |r.pending|
  {
    hide HandleLine;
    var p := r.pending;
    var n := NewlineAt(p);
    NewlineAfter(p, q);
    if !r.phase.Finished? && n < |p| {
      var line, rest := p[..n], p[n + 1..];
      var next := HandleLine(c, r.(pending := rest), line);
      HandleIgnoresPending(c, r, line, rest);
      HandleIgnoresPending(c, r, line, rest + q);
      assert (p + q)[..n] == line && (p + q)[n + 1..] == rest + q;
      DrainConcat(c, next, q);
    }
  }

  // ---- chunks ----

  /** The bytes still decode and still fit. */
  ghost predicate Accepts(r: Reader, bytes: seq<Byte>) {
    Decode(r.decoder, bytes).Some? && r.stdoutBytes + |bytes| <= MAX_STDOUT_BYTES
  }

  /** Handling a line leaves the counters alone and does not look at them. */
  lemma HandleControl(c: NumberCodec, r: Reader, n: nat, d: Decoder, line: Text)
    ensures HandleLine(c, r, line).decoder == r.decoder && HandleLine(c, r, line).stdoutBytes == r.stdoutBytes
    ensures HandleLine(c, r.(stdoutBytes := n, decoder := d), line)
         == HandleLine(c, r, line).(stdoutBytes := n, decoder := d)
    ensures (r.receivedAccount ==> r.phase.Finished?) ==>
      (HandleLine(c, r, line).receivedAccount ==> HandleLine(c, r, line).phase.Finished?)
  {
    hide Classify;
  }

  lemma DrainKeeps(c: NumberCodec, r: Reader)
    ensures Drain(c, r).decoder == r.decoder && Drain(c, r).stdoutBytes == r.stdoutBytes
    decreases |r.pending|
  {
    hide HandleLine, NewlineAt;
    var n := NewlineAt(r.pending);
    if !r.phase.Finished? && n < |r.pending| {
      var line, rest := r.pending[..n], r.pending[n + 1..];
      HandleControl(c, r.(pending := rest), 0, FRESH, line);
      DrainKeeps(c, HandleLine(c, r.(pending := rest), line));
    }
  }

  lemma TwoChunks(c: NumberCodec, r: Reader, a: seq<Byte>, b: seq<Byte>)
    requires Accepts(r, a + b)
    ensures Alike(OnData(c, OnData(c, r, a), b), OnData(c, r, a + b))
    ensures !OnData(c, r, a).phase.Finished? ==> Accepts(OnData(c, r, a), b)
  {
    hide Drain, Decode;
    DecodeConcat(r.decoder, a, b);
    var first := Decode(r.decoder, a).value;
    var second := Decode(first.0, b).value;
    var filled := r.(stdoutBytes := r.stdoutBytes + |a|, pending := r.pending + first.1, decoder := first.0);
    var whole := r.(stdoutBytes := r.stdoutBytes + |a| + |b|, decoder := second.0, pending := r.pending + first.1);
    if !r.phase.Finished? {
      DrainKeeps(c, filled);
      DrainConcat(c, whole, second.1);
      assert r.pending + (first.1 + second.1) == r.pending + first.1 + second.1;
      DrainSameControl(c, filled, whole);
      FinishedStays(c, whole, second.1);
    }
  }

  lemma FinishedStays(c: NumberCodec, r: Reader, q: Text)
    ensures Drain(c, r).phase.Finished? ==>
      Drain(c, Drain(c, r).(pending := Drain(c, r).pending + q)) == Drain(c, r).(pending := Drain(c, r).pending + q)
  {
  }

  /** Draining does not look at the byte count or the decoder. */
  lemma DrainSameControl(c: NumberCodec, r: Reader, s: Reader)
    requires s == r.(stdoutBytes := s.stdoutBytes, decoder := s.decoder)
    ensures Drain(c, s) == Drain(c, r).(stdoutBytes := s.stdoutBytes, decoder := s.decoder)
    decreases |r.pending|
  {
    hide HandleLine, NewlineAt;
    var n := NewlineAt(r.pending);
    if !r.phase.Finished? && n < |r.pending| {
      var line, rest := r.pending[..n], r.pending[n + 1..];
      HandleControl(c, r.(pending := rest), s.stdoutBytes, s.decoder, line);
      DrainSameControl(c, HandleLine(c, r.(pending := rest), line), HandleLine(c, s.(pending := rest), line));
    }
  }

  lemma FinishedIgnoresChunks(c: NumberCodec, r: Reader, chunks: seq<seq<Byte>>)
    requires r.phase.Finished?
    ensures OnChunks(c, r, chunks) == r
    decreases |chunks|
  {
  }

  lemma {:induction false} ChunksAreOne(c: NumberCodec, r: Reader, chunks: seq<seq<Byte>>)
    requires chunks != [] && Accepts(r, Concat(chunks))
    ensures Alike(OnChunks(c, r, chunks), OnData(c, r, Concat(chunks)))
    decreases |chunks|
  {
    hide OnData, Accepts;
    var a, rest := chunks[0], chunks[1..];
    var next := OnData(c, r, a);
    if rest == [] {
      assert Concat(chunks) == a;
    } else {
      TwoChunks(c, r, a, Concat(rest));
      if next.phase.Finished? {
        FinishedIgnoresChunks(c, next, rest);
        FinishedIgnoresData(c, next, Concat(rest));
      } else {
        ChunksAreOne(c, next, rest);
      }
    }
  }

  lemma FinishedIgnoresData(c: NumberCodec, r: Reader, chunk: seq<Byte>)
    requires r.phase.Finished?
    ensures OnData(c, r, chunk) == r
  {
  }

  /** A stream within the byte bound whose bytes decode. */
  ghost predicate ValidStream(bytes: seq<Byte>) {
    Decode(FRESH, bytes).Some? && |bytes| <= MAX_STDOUT_BYTES
  }

  /** Cutting a valid stream into chunks differently changes neither the outcome nor the messages sent. */
  lemma ChunkingIgnored(c: NumberCodec, a: seq<seq<Byte>>, b: seq<seq<Byte>>)
    requires a != [] && b != [] && Concat(a) == Concat(b) && ValidStream(Concat(a))
    ensures Settled(OnChunks(c, START, a)) == Settled(OnChunks(c, START, b))
    ensures OnChunks(c, START, a).sent == OnChunks(c, START, b).sent
  {
    hide OnData, OnChunks, Decode;
    ChunksAreOne(c, START, a);
    ChunksAreOne(c, START, b);
  }

  // ---- what success looks like ----

  /** The complete lines of a text. */
  function Lines(t: Text): seq<Text>
    decreases |t|
  {
    var n := NewlineAt(t);
    if n == |t| then [] else [t[..n]] + Lines(t[n + 1..])
  }

  function RunLines(c: NumberCodec, r: Reader, lines: seq<Text>): Reader
    decreases |lines|
  {
    if lines == [] || r.phase.Finished? then r else RunLines(c, HandleLine(c, r, lines[0]), lines[1..])
  }

  lemma {:induction false} DrainRunsLines(c: NumberCodec, r: Reader)
    ensures Observed(Drain(c, r)) == Observed(RunLines(c, r, Lines(r.pending)))
    decreases |r.pending|
  {
    hide Classify, HandleLine;
    var n := NewlineAt(r.pending);
    if !r.phase.Finished? && n < |r.pending| {
      var line, rest := r.pending[..n], r.pending[n + 1..];
      var next := HandleLine(c, r.(pending := rest), line);
      DrainRunsLines(c, next);
      HandleIgnoresPending(c, r, line, rest);
      RunIgnoresPending(c, HandleLine(c, r, line), Lines(rest), rest);
      assert Lines(r.pending) == [line] + Lines(rest);
    }
  }

  lemma RunIgnoresPending(c: NumberCodec, r: Reader, lines: seq<Text>, p: Text)
    ensures Observed(RunLines(c, r.(pending := p), lines)) == Observed(RunLines(c, r, lines))
    decreases |lines|
  {
    hide Classify, HandleLine;
    if lines != [] && !r.phase.Finished? {
      HandleIgnoresPending(c, r, lines[0], p);
      RunIgnoresPending(c, HandleLine(c, r, lines[0]), lines[1..], p);
    }
  }

  ghost predicate AllSkip(c: NumberCodec, lines: seq<Text>) {
    forall k :: 0 <= k < |lines| ==> Classify(c, lines[k]).Skip?
  }

  lemma AllSkipCons(c: NumberCodec, lines: seq<Text>, j: nat)
    requires 0 < j <= |lines|
    ensures AllSkip(c, lines[..j]) <==> Classify(c, lines[0]).Skip? && AllSkip(c, lines[1..][..j - 1])
  {
    hide Classify;
    var whole, tail := lines[..j], lines[1..][..j - 1];
    assert whole == [lines[0]] + tail;
    if AllSkip(c, whole) {
      forall k | 0 <= k < |tail| ensures Classify(c, tail[k]).Skip? {
        assert tail[k] == whole[k + 1];
      }
    }
  }

  /** Blank lines and notifications, then the account reply. */
  ghost predicate AccountAt(c: NumberCodec, lines: seq<Text>, j: nat) {
    j < |lines| && Classify(c, lines[j]).AccountReply? && AllSkip(c, lines[..j])
  }

  /** The same, after blank lines, notifications and the initialize reply. */
  ghost predicate ExchangeAt(c: NumberCodec, lines: seq<Text>, i: nat, j: nat) {
    && i < |lines| && Classify(c, lines[i]).InitializeReply? && AllSkip(c, lines[..i])
    && AccountAt(c, lines[i + 1..], j)
  }

  ghost predicate Exchange(c: NumberCodec, lines: seq<Text>) {
    exists i, j :: ExchangeAt(c, lines, i, j)
  }

  lemma AccountRun(c: NumberCodec, r: Reader, lines: seq<Text>)
    requires r.phase.Account? && r.failure.None? && !r.receivedAccount
    ensures var s := RunLines(c, r, lines);
      && (Settled(s).None? <==> exists j :: AccountAt(c, lines, j))
      && (Settled(s).None? ==> s.sent == r.sent && s.phase.Finished?)
    decreases |lines|
  {
    hide Classify;
    if lines != [] {
      var rest := lines[1..];
      if Classify(c, lines[0]).Skip? {
        AccountRun(c, r, rest);
        assert RunLines(c, r, lines) == RunLines(c, r, rest);
        if j: nat :| AccountAt(c, rest, j) {
          AllSkipCons(c, lines, j + 1);
          assert AccountAt(c, lines, j + 1);
        }
        if j: nat :| AccountAt(c, lines, j) {
          AllSkipCons(c, lines, j);
          assert AccountAt(c, rest, j - 1);
        }
      } else {
        var next := HandleLine(c, r, lines[0]);
        assert next.phase.Finished? && RunLines(c, r, lines) == next;
        if Classify(c, lines[0]).AccountReply? {
          assert AccountAt(c, lines, 0);
        }
        if j: nat :| AccountAt(c, lines, j) {
          if j > 0 {
            AllSkipCons(c, lines, j);
          }
        }
      }
    }
  }

  lemma InitializeRun(c: NumberCodec, r: Reader, lines: seq<Text>)
    requires r.phase.Initialize? && r.failure.None? && !r.receivedAccount
    ensures var s := RunLines(c, r, lines);
      && (Settled(s).None? <==> Exchange(c, lines))
      && (Settled(s).None? ==> s.sent == r.sent + [InitializedNotice, AccountReadRequest] && s.phase.Finished?)
    decreases |lines|
  {
    hide Classify;
    if lines != [] {
      var rest := lines[1..];
      if Classify(c, lines[0]).Skip? {
        InitializeRun(c, r, rest);
        assert RunLines(c, r, lines) == RunLines(c, r, rest);
        SkipShiftsExchange(c, lines);
      } else {
        var next := HandleLine(c, r, lines[0]);
        if Classify(c, lines[0]).InitializeReply? {
          AccountRun(c, next, rest);
          assert lines[0 + 1..] == rest;
          if j: nat :| AccountAt(c, rest, j) {
            assert ExchangeAt(c, lines, 0, j);
          }
        } else {
          assert next.phase.Finished? && RunLines(c, r, lines) == next;
        }
        if i: nat, j: nat :| ExchangeAt(c, lines, i, j) {
          if i > 0 {
            AllSkipCons(c, lines, i);
          }
        }
      }
    }
  }

  lemma SkipShiftsExchange(c: NumberCodec, lines: seq<Text>)
    requires lines != [] && Classify(c, lines[0]).Skip?
    ensures Exchange(c, lines) <==> Exchange(c, lines[1..])
  {
    hide Classify, AccountAt;
    var rest := lines[1..];
    if i: nat, j: nat :| ExchangeAt(c, rest, i, j) {
      AllSkipCons(c, lines, i + 1);
      assert lines[i + 1 + 1..] == rest[i + 1..];
      assert ExchangeAt(c, lines, i + 1, j);
    }
    if i: nat, j: nat :| ExchangeAt(c, lines, i, j) {
      AllSkipCons(c, lines, i);
      assert lines[i + 1..] == rest[i - 1 + 1..];
      assert ExchangeAt(c, rest, i - 1, j);
    }
  }

  /** One chunk of a valid stream runs the complete lines of its text. */
  lemma OneChunkRunsLines(c: NumberCodec, bytes: seq<Byte>)
    requires ValidStream(bytes)
    ensures Observed(OnData(c, START, bytes)) == Observed(RunLines(c, START, Lines(Decode(FRESH, bytes).value.1)))
  {
    hide Decode, Drain, RunLines, Lines;
    var decoded := Decode(FRESH, bytes).value;
    var filled := START.(stdoutBytes := |bytes|, pending := decoded.1, decoder := decoded.0);
    assert [] + decoded.1 == decoded.1;
    DrainRunsLines(c, filled);
    var counted := START.(stdoutBytes := |bytes|, decoder := decoded.0);
    RunIgnoresPending(c, counted, Lines(decoded.1), decoded.1);
    RunIgnoresCounters(c, START, |bytes|, decoded.0, Lines(decoded.1));
  }

  lemma RunIgnoresCounters(c: NumberCodec, r: Reader, n: nat, d: Decoder, lines: seq<Text>)
    ensures Observed(RunLines(c, r.(stdoutBytes := n, decoder := d), lines)) == Observed(RunLines(c, r, lines))
    decreases |lines|
  {
    hide Classify;
    if lines != [] && !r.phase.Finished? {
      RunIgnoresCounters(c, HandleLine(c, r, lines[0]), n, d, lines[1..]);
    }
  }

  /** The refresh succeeds exactly when the complete lines of the stream are notifications or blank,
      the reply to request 1, notifications or blank, then the ChatGPT account in reply to request 2;
      and then the three requests of the protocol have been sent, in order. */
  lemma SuccessIffExchange(c: NumberCodec, chunks: seq<seq<Byte>>)
    requires chunks != [] && ValidStream(Concat(chunks))
    ensures var r := OnChunks(c, START, chunks);
      && (Settled(r).None? <==> Exchange(c, Lines(Decode(FRESH, Concat(chunks)).value.1)))
      && (Settled(r).None? ==> r.sent == [InitializeRequest, InitializedNotice, AccountReadRequest])
  {
    hide OnData, OnChunks, Decode, Lines, RunLines, Exchange;
    ChunksAreOne(c, START, chunks);
    OneChunkRunsLines(c, Concat(chunks));
    InitializeRun(c, START, Lines(Decode(FRESH, Concat(chunks)).value.1));
  }

  lemma DrainSuccessIsFinished(c: NumberCodec, r: Reader)
    requires r.receivedAccount ==> r.phase.Finished?
    ensures Drain(c, r).receivedAccount ==> Drain(c, r).phase.Finished?
    decreases |r.pending|
  {
    hide HandleLine, NewlineAt;
    var n := NewlineAt(r.pending);
    if !r.phase.Finished? && n < |r.pending| {
      var line, rest := r.pending[..n], r.pending[n + 1..];
      HandleControl(c, r.(pending := rest), 0, FRESH, line);
      DrainSuccessIsFinished(c, HandleLine(c, r.(pending := rest), line));
    }
  }

  lemma SuccessIsFinished(c: NumberCodec, r: Reader, chunk: seq<Byte>)
    requires r.receivedAccount ==> r.phase.Finished?
    ensures OnData(c, r, chunk).receivedAccount ==> OnData(c, r, chunk).phase.Finished?
  {
    hide Decode, Drain;
    var decoded := Decode(r.decoder, chunk);
    if decoded.Some? {
      DrainSuccessIsFinished(c, r.(stdoutBytes := r.stdoutBytes + |chunk|, pending := r.pending + decoded.value.1,
                                   decoder := decoded.value.0));
    }
  }

  /** The bytes must decode: a bad byte after the end of a successful exchange makes the stream fail
      when it comes in the same chunk, and goes unnoticed when it comes in the next. */
  lemma BadTailDependsOnChunking(c: NumberCodec, good: seq<Byte>, bad: seq<Byte>)
    requires Settled(OnChunks(c, START, [good])) == None
    requires |good| + |bad| <= MAX_STDOUT_BYTES && Decode(FRESH, good + bad).None?
    ensures Settled(OnChunks(c, START, [good, bad])) == None
    ensures Settled(OnChunks(c, START, [good + bad])) == Some("protocol_invalid")
  {
    hide Decode, Drain;
    var r := OnData(c, START, good);
    assert OnChunks(c, START, [good]) == OnChunks(c, r, []) == r;
    assert [good, bad][1..] == [bad] && [bad][1..] == [];
    SuccessIsFinished(c, START, good);
    assert OnChunks(c, START, [good, bad]) == OnChunks(c, r, [bad]) == OnChunks(c, OnData(c, r, bad), []);
  }
}
