/** Streams whose bytes do not decode or are too many: exactly when it matters how they are cut into chunks. */
module AuthRefreshCuts {
  import opened Options
  import opened Texts
  import opened Json
  import opened AuthRefresh
  import opened AuthRefreshLaws

  /** The first byte that does not decode is the n-th. */
  ghost predicate FailsAt(d: Decoder, bytes: seq<Byte>, n: nat) {
    n < |bytes| && Decode(d, bytes[..n]).Some? && Decode(d, bytes[..n + 1]).None?
  }

  lemma {:induction false} FailsSomewhere(d: Decoder, bytes: seq<Byte>) returns (n: nat)
    requires Decode(d, bytes).None?
    ensures FailsAt(d, bytes, n)
    decreases |bytes|
  {
    hide DecodeByte;
    var head := DecodeByte(d, bytes[0]);
    if head.None? {
      n := 0;
      assert bytes[..1][0] == bytes[0];
    } else {
      var k := FailsSomewhere(head.value.0, bytes[1..]);
      n := k + 1;
      assert bytes[..n][1..] == bytes[1..][..k] && bytes[..n + 1][1..] == bytes[1..][..k + 1];
    }
  }

  /** The bytes up to the n-th are taken, and that one is not: it does not decode, or is one too many. */
  ghost predicate StopsAt(r: Reader, bytes: seq<Byte>, n: nat) {
    && n < |bytes| && Decode(r.decoder, bytes[..n]).Some? && r.stdoutBytes + n <= MAX_STDOUT_BYTES
    && (r.stdoutBytes + n == MAX_STDOUT_BYTES || Decode(r.decoder, bytes[..n + 1]).None?)
  }

  /** Every stream is taken as a whole, or stops somewhere. */
  lemma StopsSomewhere(bytes: seq<Byte>) returns (n: nat)
    requires !ValidStream(bytes)
    ensures StopsAt(START, bytes, n)
  {
    hide Decode;
    var front := if |bytes| <= MAX_STDOUT_BYTES then bytes else bytes[..MAX_STDOUT_BYTES];
    if Decode(FRESH, front).None? {
      n := FailsSomewhere(FRESH, front);
      assert front[..n] == bytes[..n] && front[..n + 1] == bytes[..n + 1];
    } else {
      n := MAX_STDOUT_BYTES;
    }
  }

  /** No complete line is left unhandled. */
  ghost predicate Drained(r: Reader) {
    r.phase.Finished? || NewlineAt(r.pending) == |r.pending|
  }

  lemma DrainDrains(c: NumberCodec, r: Reader)
    ensures Drained(Drain(c, r))
    decreases |r.pending|
  {
    hide HandleLine;
    var n := NewlineAt(r.pending);
    if !r.phase.Finished? && n < |r.pending| {
      DrainDrains(c, HandleLine(c, r.(pending := r.pending[n + 1..]), r.pending[..n]));
    }
  }

  lemma DataDrains(c: NumberCodec, r: Reader, chunk: seq<Byte>)
    ensures Drained(OnData(c, r, chunk))
  {
    hide Drain, Decode;
    var decoded := Decode(r.decoder, chunk);
    if decoded.Some? {
      DrainDrains(c, r.(stdoutBytes := r.stdoutBytes + |chunk|, pending := r.pending + decoded.value.1,
                        decoder := decoded.value.0));
    }
  }

  lemma NothingMore(c: NumberCodec, r: Reader)
    requires Drained(r) && r.stdoutBytes <= MAX_STDOUT_BYTES
    ensures OnData(c, r, []) == r
  {
    assert r.pending + [] == r.pending;
  }

  // ---- a chunk with the byte that fails ----

  lemma DataKeepsDecoder(c: NumberCodec, r: Reader, a: seq<Byte>)
    requires !r.phase.Finished? && Accepts(r, a)
    ensures OnData(c, r, a).decoder == Decode(r.decoder, a).value.0
    ensures OnData(c, r, a).stdoutBytes == r.stdoutBytes + |a|
  {
    hide Drain, Decode;
    var decoded := Decode(r.decoder, a).value;
    DrainKeeps(c, r.(stdoutBytes := r.stdoutBytes + |a|, pending := r.pending + decoded.1, decoder := decoded.0));
  }

  /** A front of bytes that decode decodes, and so does what follows it. */
  lemma FrontDecodes(d: Decoder, bytes: seq<Byte>, n: nat, k: nat)
    requires k <= n <= |bytes| && Decode(d, bytes[..n]).Some?
    ensures Decode(d, bytes[..k]).Some?
    ensures Decode(Decode(d, bytes[..k]).value.0, bytes[k..n]).Some?
  {
    hide Decode;
    DecodeConcat(d, bytes[..k], bytes[k..n]);
    assert bytes[..n] == bytes[..k] + bytes[k..n];
  }

  /** The stream still stops at the same byte when a good front has been taken. */
  lemma StopsLater(c: NumberCodec, r: Reader, bytes: seq<Byte>, n: nat, k: nat)
    requires StopsAt(r, bytes, n) && k <= n && !r.phase.Finished?
    ensures Accepts(r, bytes[..k]) && StopsAt(OnData(c, r, bytes[..k]), bytes[k..], n - k)
    ensures OnData(c, r, bytes[..k]).stdoutBytes == r.stdoutBytes + k
  {
    hide Decode, OnData;
    var rest := bytes[k..];
    FrontDecodes(r.decoder, bytes, n, k);
    assert rest[..n - k] == bytes[k..n];
    DecodeConcat(r.decoder, bytes[..k], rest[..n - k + 1]);
    assert bytes[..n + 1] == bytes[..k] + rest[..n - k + 1];
    DataKeepsDecoder(c, r, bytes[..k]);
  }

  /** A chunk with the byte that stops the stream ends it: as too long if it reaches beyond the bound, and else as
      invalid. */
  lemma StopsWhole(c: NumberCodec, r: Reader, bytes: seq<Byte>, n: nat)
    requires StopsAt(r, bytes, n) && !r.phase.Finished?
    ensures var out := OnData(c, r, bytes);
      && out.phase.Finished? && out.sent == r.sent
      && out.failure
         == Some(if r.stdoutBytes + |bytes| > MAX_STDOUT_BYTES then "output_bound" else "protocol_invalid")
  {
    hide Decode, Drain;
    DecodeConcat(r.decoder, bytes[..n + 1], bytes[n + 1..]);
    assert bytes == bytes[..n + 1] + bytes[n + 1..];
  }

  /** What others see after any cutting: the reader is as after some front of the good bytes, if that ended the
      protocol, or else stops there: as invalid if the whole stream is within the bound, and as too long if the bound is
      what stops it. */
  ghost predicate EndsAfter(m: Reader, out: Reader, within: bool, bound: bool) {
    if m.phase.Finished? then Observed(out) == Observed(m)
    else
      && out.sent == m.sent
      && Settled(out) in {Some("protocol_invalid"), Some("output_bound")}
      && (within ==> Settled(out) == Some("protocol_invalid")) && (bound ==> Settled(out) == Some("output_bound"))
  }

  lemma {:induction false} CutAt(c: NumberCodec, r: Reader, chunks: seq<seq<Byte>>, n: nat) returns (p: nat)
    requires StopsAt(r, Concat(chunks), n) && Drained(r)
    ensures p <= n && EndsAfter(OnData(c, r, Concat(chunks)[..p]), OnChunks(c, r, chunks),
                                r.stdoutBytes + |Concat(chunks)| <= MAX_STDOUT_BYTES,
                                r.stdoutBytes + n == MAX_STDOUT_BYTES)
    decreases |chunks|
  {
    hide Decode, OnData, Drained;
    var bytes, a, rest := Concat(chunks), chunks[0], chunks[1..];
    NothingMore(c, r);
    if r.phase.Finished? {
      p := 0;
      FinishedIgnoresChunks(c, r, chunks);
    } else if |a| > n {
      p := 0;
      StopsFront(r, a, Concat(rest), n);
      StopsWhole(c, r, a, n);
      FinishedIgnoresChunks(c, OnData(c, r, a), rest);
    } else {
      assert bytes[..|a|] == a && bytes[|a|..] == Concat(rest);
      StopsLater(c, r, bytes, n, |a|);
      DataDrains(c, r, a);
      var next := OnData(c, r, a);
      if next.phase.Finished? {
        p := |a|;
        FinishedIgnoresChunks(c, next, rest);
      } else {
        var q := CutAt(c, next, rest, n - |a|);
        p := |a| + q;
        StopsLater(c, r, bytes, n, p);
        assert bytes[..p] == a + Concat(rest)[..q];
        TwoChunks(c, r, a, Concat(rest)[..q]);
      }
    }
  }

  lemma StopsFront(r: Reader, a: seq<Byte>, b: seq<Byte>, n: nat)
    requires StopsAt(r, a + b, n) && n < |a|
    ensures StopsAt(r, a, n)
  {
    hide Decode;
    assert (a + b)[..n] == a[..n] && (a + b)[..n + 1] == a[..n + 1];
  }

  // ---- fronts of lines ----

  lemma FirstLine(t: Text)
    requires NewlineAt(t) < |t|
    ensures Lines(t) == [t[..NewlineAt(t)]] + Lines(t[NewlineAt(t) + 1..])
  {
    hide NewlineAt;
  }

  lemma NoLines(t: Text)
    requires NewlineAt(t) == |t|
    ensures Lines(t) == []
  {
    hide NewlineAt;
  }

  lemma OneMoreFront<T>(x: T, a: seq<T>, b: seq<T>)
    requires a <= b
    ensures [x] + a <= [x] + b
  {
  }

  lemma {:induction false} LinesGrow(t: Text, u: Text)
    ensures Lines(t) <= Lines(t + u)
    decreases |t|
  {
    hide NewlineAt, Lines;
    var n := NewlineAt(t);
    NewlineAfter(t, u);
    if n < |t| {
      LinesGrow(t[n + 1..], u);
      assert (t + u)[..n] == t[..n] && (t + u)[n + 1..] == t[n + 1..] + u;
      FirstLine(t);
      FirstLine(t + u);
      OneMoreFront(t[..n], Lines(t[n + 1..]), Lines(t[n + 1..] + u));
    } else {
      NoLines(t);
    }
  }

  lemma ExchangeGrows(c: NumberCodec, a: seq<Text>, b: seq<Text>)
    requires a <= b && Exchange(c, a)
    ensures Exchange(c, b)
  {
    hide Classify;
    var i: nat, j: nat :| ExchangeAt(c, a, i, j);
    assert b[..i] == a[..i] && a[i + 1..] <= b[i + 1..];
    assert b[i + 1..][..j] == a[i + 1..][..j];
    assert ExchangeAt(c, b, i, j);
  }

  /** The initialize reply is accepted: only blank lines and notifications come before it. */
  ghost predicate Initialized(c: NumberCodec, lines: seq<Text>) {
    exists i :: 0 <= i < |lines| && InitializedAt(c, lines, i)
  }

  ghost predicate InitializedAt(c: NumberCodec, lines: seq<Text>, i: nat)
    requires i < |lines|
  {
    Classify(c, lines[i]).InitializeReply? && AllSkip(c, lines[..i])
  }

  lemma InitializedGrows(c: NumberCodec, a: seq<Text>, b: seq<Text>)
    requires a <= b && Initialized(c, a)
    ensures Initialized(c, b)
  {
    hide Classify;
    var i :| 0 <= i < |a| && InitializedAt(c, a, i);
    assert b[..i] == a[..i];
    assert InitializedAt(c, b, i);
  }

  // ---- what a run of lines leaves ----

  lemma RunSends(c: NumberCodec, r: Reader, lines: seq<Text>)
    requires r.phase.Initialize? && r.failure.None? && !r.receivedAccount
    ensures RunLines(c, r, lines).sent
         == r.sent + (if Initialized(c, lines) then [InitializedNotice, AccountReadRequest] else [])
    decreases |lines|
  {
    hide Classify;
    if lines != [] {
      var rest := lines[1..];
      if Classify(c, lines[0]).Skip? {
        RunSends(c, r, rest);
        SkipShiftsInitialized(c, lines);
      } else if Classify(c, lines[0]).InitializeReply? {
        assert InitializedAt(c, lines, 0);
        AccountSends(c, HandleLine(c, r, lines[0]), rest);
      } else if i :| 0 <= i < |lines| && InitializedAt(c, lines, i) {
        if i > 0 {
          AllSkipCons(c, lines, i);
        }
      }
    }
  }

  lemma SkipShiftsInitialized(c: NumberCodec, lines: seq<Text>)
    requires lines != [] && Classify(c, lines[0]).Skip?
    ensures Initialized(c, lines) <==> Initialized(c, lines[1..])
  {
    hide Classify;
    if i :| 0 <= i < |lines| && InitializedAt(c, lines, i) {
      AllSkipCons(c, lines, i);
      assert InitializedAt(c, lines[1..], i - 1);
    }
    if i :| 0 <= i < |lines[1..]| && InitializedAt(c, lines[1..], i) {
      AllSkipCons(c, lines, i + 1);
      assert InitializedAt(c, lines, i + 1);
    }
  }

  lemma AccountSends(c: NumberCodec, r: Reader, lines: seq<Text>)
    requires r.phase.Account? || r.phase.Finished?
    ensures RunLines(c, r, lines).sent == r.sent
    decreases |lines|
  {
    hide Classify;
    if lines != [] && !r.phase.Finished? {
      AccountSends(c, HandleLine(c, r, lines[0]), lines[1..]);
    }
  }

  /** A protocol that ended did so with the account or as invalid. */
  lemma RunEnds(c: NumberCodec, r: Reader, lines: seq<Text>)
    requires r.phase.Finished? ==> r.receivedAccount || r.failure == Some("protocol_invalid")
    requires r.failure in {None, Some("protocol_invalid")} && (!r.phase.Finished? ==> r.failure.None?)
    ensures var s := RunLines(c, r, lines);
      && s.failure in {None, Some("protocol_invalid")} && (!s.phase.Finished? ==> s.failure.None?)
      && (s.phase.Finished? ==> s.receivedAccount || s.failure == Some("protocol_invalid"))
    decreases |lines|
  {
    hide Classify;
    if lines != [] && !r.phase.Finished? {
      RunEnds(c, HandleLine(c, r, lines[0]), lines[1..]);
    }
  }

  /** The lines of the first p bytes. */
  function FrontLines(bytes: seq<Byte>, p: nat): seq<Text>
    requires p <= |bytes| && Decode(FRESH, bytes[..p]).Some?
  {
    Lines(Decode(FRESH, bytes[..p]).value.1)
  }

  /** The protocol still waits for a line: there are blank lines and notifications only, but for one initialize
      reply. */
  ghost predicate Waits(c: NumberCodec, lines: seq<Text>) {
    AllSkip(c, lines) || exists i :: 0 <= i < |lines| && InitializedAt(c, lines, i) && AllSkip(c, lines[i + 1..])
  }

  lemma AccountWaits(c: NumberCodec, r: Reader, lines: seq<Text>)
    requires r.phase.Account?
    ensures RunLines(c, r, lines).phase.Finished? <==> !AllSkip(c, lines)
    decreases |lines|
  {
    hide Classify;
    if lines != [] {
      if Classify(c, lines[0]).Skip? {
        AccountWaits(c, r, lines[1..]);
        SkipFirst(c, lines);
      }
    }
  }

  lemma SkipFirst(c: NumberCodec, lines: seq<Text>)
    requires lines != []
    ensures AllSkip(c, lines) <==> Classify(c, lines[0]).Skip? && AllSkip(c, lines[1..])
  {
    hide Classify;
    AllSkipCons(c, lines, |lines|);
    assert lines[..|lines|] == lines && lines[1..][..|lines| - 1] == lines[1..];
  }

  lemma RunWaits(c: NumberCodec, r: Reader, lines: seq<Text>)
    requires r.phase.Initialize?
    ensures RunLines(c, r, lines).phase.Finished? <==> !Waits(c, lines)
    decreases |lines|
  {
    hide Classify, AllSkip;
    if lines == [] {
      NoLinesSkip(c);
    } else {
      SkipFirst(c, lines);
      if Classify(c, lines[0]).Skip? {
        RunWaits(c, r, lines[1..]);
        SkipShiftsWaits(c, lines);
      } else if Classify(c, lines[0]).InitializeReply? {
        AccountWaits(c, HandleLine(c, r, lines[0]), lines[1..]);
        FirstInitializes(c, lines);
      } else {
        forall i | 0 <= i < |lines| ensures !InitializedAt(c, lines, i) {
          if i > 0 {
            AllSkipCons(c, lines, i);
          }
        }
      }
    }
  }

  lemma NoLinesSkip(c: NumberCodec)
    ensures AllSkip(c, [])
  {
  }

  lemma FirstInitializes(c: NumberCodec, lines: seq<Text>)
    requires lines != [] && Classify(c, lines[0]).InitializeReply?
    ensures Waits(c, lines) <==> AllSkip(c, lines[1..])
  {
    hide Classify, AllSkip;
    NoLinesSkip(c);
    SkipFirst(c, lines);
    assert lines[..0] == [] && InitializedAt(c, lines, 0);
    forall i | 0 < i < |lines| ensures !InitializedAt(c, lines, i) {
      AllSkipCons(c, lines, i);
    }
  }

  lemma SkipShiftsWaits(c: NumberCodec, lines: seq<Text>)
    requires lines != [] && Classify(c, lines[0]).Skip?
    ensures Waits(c, lines) <==> Waits(c, lines[1..])
  {
    hide Classify, AllSkip;
    SkipFirst(c, lines);
    var rest := lines[1..];
    if i :| 0 <= i < |lines| && InitializedAt(c, lines, i) && AllSkip(c, lines[i + 1..]) {
      AllSkipCons(c, lines, i);
      assert InitializedAt(c, rest, i - 1) && rest[i..] == lines[i + 1..];
    }
    if i :| 0 <= i < |rest| && InitializedAt(c, rest, i) && AllSkip(c, rest[i + 1..]) {
      AllSkipCons(c, lines, i + 1);
      assert InitializedAt(c, lines, i + 1) && rest[i + 1..] == lines[i + 2..];
    }
  }

  /** A protocol that waits at the end has waited all along. */
  lemma WaitsBefore(c: NumberCodec, a: seq<Text>, b: seq<Text>)
    requires a <= b && Waits(c, b)
    ensures Waits(c, a)
  {
    hide Classify;
    RunWaits(c, START, a);
    RunWaits(c, START, b);
    RunMore(c, START, a, b[|a|..]);
    assert b == a + b[|a|..];
  }

  lemma {:induction false} RunMore(c: NumberCodec, r: Reader, a: seq<Text>, b: seq<Text>)
    ensures RunLines(c, r, a).phase.Finished? ==> RunLines(c, r, a + b).phase.Finished?
    decreases |a|
  {
    hide HandleLine;
    if a != [] && !r.phase.Finished? {
      assert (a + b)[0] == a[0] && (a + b)[1..] == a[1..] + b;
      RunMore(c, HandleLine(c, r, a[0]), a[1..], b);
    } else if a == [] {
      FinishedRuns(c, r, b);
      assert a + b == b;
    }
  }

  lemma FinishedRuns(c: NumberCodec, r: Reader, b: seq<Text>)
    ensures r.phase.Finished? ==> RunLines(c, r, b) == r
  {
  }

  /** How a valid stream settles: successfully exactly on a whole exchange, as closed exactly if the protocol still
      waits, and as invalid otherwise; and what has been sent. */
  lemma OutcomeIff(c: NumberCodec, chunks: seq<seq<Byte>>)
    requires chunks != [] && ValidStream(Concat(chunks))
    ensures var out := OnChunks(c, START, chunks); var lines := Lines(Decode(FRESH, Concat(chunks)).value.1);
      && (Settled(out).None? <==> Exchange(c, lines))
      && (Settled(out) == Some("protocol_closed") <==> Waits(c, lines))
      && (Settled(out) == Some("protocol_invalid") <==> !Exchange(c, lines) && !Waits(c, lines))
      && out.sent
         == [InitializeRequest] + (if Initialized(c, lines) then [InitializedNotice, AccountReadRequest] else [])
  {
    hide Decode, OnData, Lines, RunLines, Exchange, Initialized, Waits;
    var lines := Lines(Decode(FRESH, Concat(chunks)).value.1);
    ChunksAreOne(c, START, chunks);
    OneChunkRunsLines(c, Concat(chunks));
    InitializeRun(c, START, lines);
    RunSends(c, START, lines);
    RunEnds(c, START, lines);
    RunWaits(c, START, lines);
  }

  /** The reader after a front of the good bytes. */
  lemma AfterFront(c: NumberCodec, bytes: seq<Byte>, n: nat, p: nat)
    requires StopsAt(START, bytes, n) && p <= n
    ensures Decode(FRESH, bytes[..p]).Some?
    ensures var m := OnData(c, START, bytes[..p]); var lines := FrontLines(bytes, p);
      && (Settled(m).None? <==> Exchange(c, lines))
      && (Settled(m).None? ==> m.phase.Finished?)
      && (m.phase.Finished? && Settled(m).Some? ==> Settled(m) == Some("protocol_invalid"))
      && (m.phase.Finished? <==> !Waits(c, lines))
      && m.sent == [InitializeRequest] + (if Initialized(c, lines) then [InitializedNotice, AccountReadRequest] else [])
  {
    hide Decode, OnData, Lines, RunLines, Exchange, Initialized, Waits;
    FrontDecodes(FRESH, bytes, n, p);
    var lines := FrontLines(bytes, p);
    OneChunkRunsLines(c, bytes[..p]);
    InitializeRun(c, START, lines);
    RunSends(c, START, lines);
    RunEnds(c, START, lines);
    RunWaits(c, START, lines);
  }

  lemma FrontLinesGrow(bytes: seq<Byte>, n: nat, p: nat)
    requires p <= n <= |bytes| && Decode(FRESH, bytes[..n]).Some?
    ensures Decode(FRESH, bytes[..p]).Some? && FrontLines(bytes, p) <= FrontLines(bytes, n)
  {
    hide Decode, Lines;
    FrontDecodes(FRESH, bytes, n, p);
    var d := Decode(FRESH, bytes[..p]).value;
    DecodeConcat(FRESH, bytes[..p], bytes[p..n]);
    assert bytes[..n] == bytes[..p] + bytes[p..n];
    LinesGrow(d.1, Decode(d.0, bytes[p..n]).value.1);
  }

  // ---- main result ----

  lemma TwoCuts(c: NumberCodec, a: seq<Byte>, b: seq<Byte>)
    ensures Concat([a, b]) == a + b && OnChunks(c, START, [a, b]) == OnData(c, OnData(c, START, a), b)
  {
    hide OnData;
    var none: seq<seq<Byte>> := [];
    assert [a, b][1..] == [b] && [b][1..] == none;
    assert Concat([b]) == b + [] == b;
    assert OnChunks(c, START, [a, b]) == OnChunks(c, OnData(c, START, a), [b]);
    assert OnChunks(c, OnData(c, START, a), [b]) == OnChunks(c, OnData(c, OnData(c, START, a), b), none);
  }

  /** Cutting right before the byte that stops the stream. */
  lemma CutBefore(c: NumberCodec, bytes: seq<Byte>, n: nat)
    requires StopsAt(START, bytes, n)
    ensures Concat([bytes[..n], bytes[n..]]) == bytes
    ensures EndsAfter(OnData(c, START, bytes[..n]), OnChunks(c, START, [bytes[..n], bytes[n..]]),
                      |bytes| <= MAX_STDOUT_BYTES, n == MAX_STDOUT_BYTES)
  {
    hide Decode, OnData;
    var good, bad := bytes[..n], bytes[n..];
    var m := OnData(c, START, good);
    TwoCuts(c, good, bad);
    assert good + bad == bytes;
    StopsLater(c, START, bytes, n, n);
    if m.phase.Finished? {
      FinishedIgnoresData(c, m, bad);
    } else {
      StopsWhole(c, m, bad, 0);
    }
  }

  /** Cutting right after it. */
  lemma CutAfter(c: NumberCodec, bytes: seq<Byte>, n: nat)
    requires StopsAt(START, bytes, n) && n < MAX_STDOUT_BYTES
    ensures Concat([bytes[..n + 1], bytes[n + 1..]]) == bytes
    ensures Settled(OnChunks(c, START, [bytes[..n + 1], bytes[n + 1..]])) == Some("protocol_invalid")
  {
    hide Decode, OnData;
    var bad, rest := bytes[..n + 1], bytes[n + 1..];
    TwoCuts(c, bad, rest);
    assert bad + rest == bytes;
    StopsFront(START, bad, rest, n);
    StopsWhole(c, START, bad, n);
    FinishedIgnoresData(c, OnData(c, START, bad), rest);
  }

  /** Two cuttings settle the stream differently. */
  ghost predicate Differ(c: NumberCodec, a: seq<seq<Byte>>, b: seq<seq<Byte>>) {
    Settled(OnChunks(c, START, a)) != Settled(OnChunks(c, START, b))
  }

  /** For every stream that is not taken as a whole, n its first byte that is not. Within the bound, every cutting
      settles it as invalid if and only if the complete lines before that byte hold no whole exchange. When only the
      bound stops it, every cutting settles it as too long if and only if the protocol still waits after those lines.
      When a byte does not decode and the bound is passed later, two cuttings always settle it differently. And every
      cutting sends the same messages if and only if the lines hold no initialize reply that is accepted. */
  lemma CuttingMattersIff(c: NumberCodec, bytes: seq<Byte>, n: nat)
    requires StopsAt(START, bytes, n)
    ensures Decode(FRESH, bytes[..n]).Some?
    ensures |bytes| <= MAX_STDOUT_BYTES ==>
      ((forall chunks :: Concat(chunks) == bytes ==>
          Settled(OnChunks(c, START, chunks)) == Some("protocol_invalid"))
       <==> !Exchange(c, FrontLines(bytes, n)))
    ensures n == MAX_STDOUT_BYTES ==>
      ((forall chunks :: Concat(chunks) == bytes ==> Settled(OnChunks(c, START, chunks)) == Some("output_bound"))
       <==> Waits(c, FrontLines(bytes, n)))
    ensures n < MAX_STDOUT_BYTES < |bytes| ==>
      exists a, b :: Concat(a) == bytes == Concat(b) && Differ(c, a, b)
    ensures (forall a, b :: Concat(a) == bytes == Concat(b) ==>
               OnChunks(c, START, a).sent == OnChunks(c, START, b).sent)
       <==> !Initialized(c, FrontLines(bytes, n))
  {
    hide Decode, OnData, OnChunks, Exchange, Initialized, FrontLines, Waits;
    AfterFront(c, bytes, n, n);
    CutBefore(c, bytes, n);
    OneCut(c, bytes, n);
    var lines := FrontLines(bytes, n);
    if |bytes| <= MAX_STDOUT_BYTES && !Exchange(c, lines) {
      forall chunks | Concat(chunks) == bytes ensures Settled(OnChunks(c, START, chunks)) == Some("protocol_invalid") {
        AnyCut(c, bytes, n, chunks);
      }
    }
    if n == MAX_STDOUT_BYTES && Waits(c, lines) {
      forall chunks | Concat(chunks) == bytes ensures Settled(OnChunks(c, START, chunks)) == Some("output_bound") {
        AnyCut(c, bytes, n, chunks);
      }
    }
    if n < MAX_STDOUT_BYTES < |bytes| {
      CutAfter(c, bytes, n);
      assert Differ(c, [bytes], [bytes[..n + 1], bytes[n + 1..]]);
    }
    if !Initialized(c, lines) {
      forall a, b | Concat(a) == bytes == Concat(b) ensures OnChunks(c, START, a).sent == OnChunks(c, START, b).sent {
        AnyCut(c, bytes, n, a);
        AnyCut(c, bytes, n, b);
      }
    }
  }

  lemma OneCut(c: NumberCodec, bytes: seq<Byte>, n: nat)
    requires StopsAt(START, bytes, n)
    ensures Concat([bytes]) == bytes && OnChunks(c, START, [bytes]).sent == [InitializeRequest]
    ensures |bytes| > MAX_STDOUT_BYTES ==> Settled(OnChunks(c, START, [bytes])) == Some("output_bound")
  {
    hide Decode, OnData;
    var none: seq<seq<Byte>> := [];
    assert [bytes][1..] == none && bytes + [] == bytes;
    StopsWhole(c, START, bytes, n);
    assert OnChunks(c, START, [bytes]) == OnChunks(c, OnData(c, START, bytes), []);
  }

  lemma AnyCut(c: NumberCodec, bytes: seq<Byte>, n: nat, chunks: seq<seq<Byte>>)
    requires StopsAt(START, bytes, n) && Concat(chunks) == bytes && Decode(FRESH, bytes[..n]).Some?
    ensures var out := OnChunks(c, START, chunks); var lines := FrontLines(bytes, n);
      && (|bytes| <= MAX_STDOUT_BYTES && !Exchange(c, lines) ==> Settled(out) == Some("protocol_invalid"))
      && (n == MAX_STDOUT_BYTES && Waits(c, lines) ==> Settled(out) == Some("output_bound"))
      && (!Initialized(c, lines) ==> out.sent == [InitializeRequest])
  {
    hide Decode, OnData, OnChunks, Exchange, Initialized, FrontLines, Waits;
    var p := CutAt(c, START, chunks, n);
    AfterFront(c, bytes, n, p);
    FrontLinesGrow(bytes, n, p);
    if Exchange(c, FrontLines(bytes, p)) {
      ExchangeGrows(c, FrontLines(bytes, p), FrontLines(bytes, n));
    }
    if Waits(c, FrontLines(bytes, n)) {
      WaitsBefore(c, FrontLines(bytes, p), FrontLines(bytes, n));
    }
    if Initialized(c, FrontLines(bytes, p)) {
      InitializedGrows(c, FrontLines(bytes, p), FrontLines(bytes, n));
    }
  }
}
