/** `runCodexAuthRefreshProtocol` (src/codex-oauth/codex-bootstrap.ts): a two-request protocol read
    line by line from a byte stream that arrives in arbitrary chunks. */
module AuthRefresh {
  import opened Options
  import opened Texts
  import opened Json

  type Byte = b: int | 0 <= b < 256

  const MAX_STDOUT_BYTES: nat := 1024 * 1024
  const NEWLINE: Unit := 0x0A

  // ---- TextDecoder('utf-8', { fatal: true }) in streaming mode ----

  /** The decoder of the Encoding standard, section 8.1.1: the code point under construction, the bytes
      it still needs, the bounds of the next one, and whether a byte order mark would be dropped. */
  datatype Decoder = Decoder(codePoint: nat, needed: nat, lower: nat, upper: nat, atStart: bool)

  const FRESH: Decoder := Decoder(0, 0, 0x80, 0xBF, true)

  function EncodeUnits(codePoint: nat): Text {
    if codePoint < 0x1_0000 then [codePoint]
    else if codePoint < 0x11_0000 then
      [0xD800 + (codePoint - 0x1_0000) / 0x400, 0xDC00 + (codePoint - 0x1_0000) % 0x400]
    else []
  }

  function Emit(d: Decoder, codePoint: nat): (Decoder, Text) {
    (Decoder(0, 0, 0x80, 0xBF, false), if d.atStart && codePoint == 0xFEFF then [] else EncodeUnits(codePoint))
  }

  /** One byte; None is a decoding error. */
  function DecodeByte(d: Decoder, b: Byte): Option<(Decoder, Text)> {
    if d.needed == 0 then
      if b < 0x80 then Some(Emit(d, b))
      else if 0xC2 <= b <= 0xDF then Some((Decoder(b - 0xC0, 1, 0x80, 0xBF, d.atStart), []))
      else if 0xE0 <= b <= 0xEF then
        Some((Decoder(b - 0xE0, 2, if b == 0xE0 then 0xA0 else 0x80, if b == 0xED then 0x9F else 0xBF, d.atStart), []))
      else if 0xF0 <= b <= 0xF4 then
        Some((Decoder(b - 0xF0, 3, if b == 0xF0 then 0x90 else 0x80, if b == 0xF4 then 0x8F else 0xBF, d.atStart), []))
      else None
    else if b < d.lower || b > d.upper then None
    else
      var codePoint := d.codePoint * 64 + b % 64;
      if d.needed == 1 then Some(Emit(d, codePoint))
      else Some((Decoder(codePoint, d.needed - 1, 0x80, 0xBF, d.atStart), []))
  }

  function Decode(d: Decoder, bytes: seq<Byte>): Option<(Decoder, Text)>
    decreases |bytes|
  {
    if bytes == [] then Some((d, []))
    else
      var head := DecodeByte(d, bytes[0]);
      if head.None? then None
      else
        var rest := Decode(head.value.0, bytes[1..]);
        if rest.None? then None else Some((rest.value.0, head.value.1 + rest.value.1))
  }

  // ---- messages ----

  datatype Message = InitializeRequest | InitializedNotice | AccountReadRequest

  datatype Line = Skip | InitializeReply | AccountReply | Invalid

  predicate Has(v: Json, key: string) {
    v.Obj? && HasKey(v.fields, U(key))
  }

  /** What a complete line means to the protocol. */
  function Classify(c: NumberCodec, line: Text): Line {
    if Blank(line) then Skip
    else
      var parsed := JsonParse(c, line);
      if parsed.Throw? || !parsed.value.Obj? then Invalid
      else
        var message := parsed.value;
        if !Has(message, "id") then (if Get(message, U("method")).Str? then Skip else Invalid)
        else if Has(message, "method") || Has(message, "error") || !Get(message, U("result")).Obj? then Invalid
        else if Get(message, U("id")) == Num(Finite(1.0)) then InitializeReply
        else
          var account := Get(Get(message, U("result")), U("account"));
          if Get(message, U("id")) == Num(Finite(2.0)) && account.Obj? && Get(account, U("type")) == Str(U("chatgpt"))
          then AccountReply
          else Invalid
  }

  // ---- the reader ----

  datatype Phase = Initialize | Account | Finished

  datatype Reader = Reader(
    phase: Phase,
    failure: Option<string>,
    receivedAccount: bool,
    stdoutBytes: nat,
    pending: Text,
    decoder: Decoder,
    sent: seq<Message>)

  const START: Reader := Reader(Initialize, None, false, 0, [], FRESH, [InitializeRequest])

  function Finish(r: Reader, error: Option<string>): Reader {
    if r.phase.Finished? then r else r.(phase := Finished, failure := error)
  }

  function HandleLine(c: NumberCodec, r: Reader, line: Text): (h: Reader)
    ensures h.pending == r.pending
  {
    match Classify(c, line)
    case Skip => r
    case InitializeReply =>
      if r.phase.Initialize? then r.(phase := Account, sent := r.sent + [InitializedNotice, AccountReadRequest])
      else Finish(r, Some("protocol_invalid"))
    case AccountReply =>
      if r.phase.Account? then Finish(r.(receivedAccount := true), None) else Finish(r, Some("protocol_invalid"))
    case Invalid => Finish(r, Some("protocol_invalid"))
  }

  /** Where the first newline is, or the length. */
  function NewlineAt(t: Text): (n: nat)
    ensures n <= |t| && (n < |t| ==> t[n] == NEWLINE) && forall i :: 0 <= i < n ==> t[i] != NEWLINE
  {
    if t == [] || t[0] == NEWLINE then 0 else 1 + NewlineAt(t[1..])
  }

  /** Handles the complete lines of `pending` until the protocol is finished. */
  function Drain(c: NumberCodec, r: Reader): Reader
    decreases |r.pending|
  {
    var n := NewlineAt(r.pending);
    if r.phase.Finished? || n == |r.pending| then r
    else
      var next := HandleLine(c, r.(pending := r.pending[n + 1..]), r.pending[..n]);
      Drain(c, next)
  }

  /** The stdout handler. */
  function OnData(c: NumberCodec, r: Reader, chunk: seq<Byte>): Reader {
    if r.phase.Finished? then r
    else
      var counted := r.(stdoutBytes := r.stdoutBytes + |chunk|);
      if counted.stdoutBytes > MAX_STDOUT_BYTES then Finish(counted, Some("output_bound"))
      else
        var decoded := Decode(r.decoder, chunk);
        if decoded.None? then Finish(counted, Some("protocol_invalid"))
        else Drain(c, counted.(pending := r.pending + decoded.value.1, decoder := decoded.value.0))
  }

  function OnChunks(c: NumberCodec, r: Reader, chunks: seq<seq<Byte>>): Reader
    decreases |chunks|
  {
    if chunks == [] then r else OnChunks(c, OnData(c, r, chunks[0]), chunks[1..])
  }

  /** How the promise settles when the process closes; None is success. */
  function Settled(r: Reader): Option<string> {
    if r.failure.Some? then r.failure else if !r.receivedAccount then Some("protocol_closed") else None
  }

  // ---- the handler as it runs ----

  class AuthRefreshReader {
    const codec: NumberCodec
    var phase: Phase
    var failure: Option<string>
    var receivedAccount: bool
    var stdoutBytes: nat
    var pending: Text
    var decoder: Decoder
    var sent: seq<Message>

    constructor (codec: NumberCodec)
      ensures this.codec == codec && State() == START
    {
      this.codec := codec;
      phase, failure, receivedAccount := Initialize, None, false;
      stdoutBytes, pending, decoder := 0, [], FRESH;
      sent := [InitializeRequest];
    }

    function State(): Reader
      reads this
    {
      Reader(phase, failure, receivedAccount, stdoutBytes, pending, decoder, sent)
    }

    method End(error: Option<string>)
      modifies this
      ensures State() == Finish(old(State()), error)
    {
      if phase.Finished? {
        return;
      }
      phase, failure := Finished, error;
    }

    method Handle(line: Text)
      modifies this
      ensures State() == HandleLine(codec, old(State()), line)
    {
      match Classify(codec, line) {
        case Skip =>
        case InitializeReply =>
          if phase.Initialize? {
            phase := Account;
            sent := sent + [InitializedNotice, AccountReadRequest];
          } else {
            End(Some("protocol_invalid"));
          }
        case AccountReply =>
          if phase.Account? {
            receivedAccount := true;
            End(None);
          } else {
            End(Some("protocol_invalid"));
          }
        case Invalid =>
          End(Some("protocol_invalid"));
      }
    }

    method OnStdout(chunk: seq<Byte>)
      modifies this
      ensures State() == OnData(codec, old(State()), chunk)
    {
      hide HandleLine, Decode, NewlineAt;
      if phase.Finished? {
        return;
      }
      stdoutBytes := stdoutBytes + |chunk|;
      if stdoutBytes > MAX_STDOUT_BYTES {
        End(Some("output_bound"));
        return;
      }
      var decoded := Decode(decoder, chunk);
      if decoded.None? {
        End(Some("protocol_invalid"));
        return;
      }
      pending := pending + decoded.value.1;
      decoder := decoded.value.0;
      ghost var filled := State();
      var newline := NewlineAt(pending);
      while !phase.Finished? && newline < |pending|
        invariant Drain(codec, State()) == Drain(codec, filled)
        invariant newline == NewlineAt(pending)
        decreases |pending|
      {
        var line := pending[..newline];
        pending := pending[newline + 1..];
        Handle(line);
        newline := NewlineAt(pending);
      }
    }
  }
}
