/** Body delimiting: Content-Length and chunked bodies (sections 4.4 and 3.6.1 of
    RFC 2616) are delivered exactly, and the message then completes. */
module HttpBodies {
  import opened Basics
  import opened HttpSyntax
  import opened HttpParser
  import opened HttpStream
  import opened HttpReads
  import opened HttpHeaders

  // Header blocks.

  predicate AtLine(s: State) {
    s.HeaderFieldStart? || s.HeaderValueLws?
  }

  predicate AreHeaders(hs: seq<Header>) {
    forall h <- hs :: IsHeader(h)
  }

  function PrintHeaders(hs: seq<Header>): seq<byte> {
    if hs == [] then [] else PrintHeader(hs[0]) + PrintHeaders(hs[1..])
  }

  function HeadersAtoms(hs: seq<Header>): seq<Atom> {
    if hs == [] then [] else HeaderAtoms(hs[0]) + HeadersAtoms(hs[1..])
  }

  function EffectAll(f: Framing, hs: seq<Header>): Framing
    requires AreHeaders(hs)
    decreases |hs|
  {
    if hs == [] then f else EffectAll(Effect(f, hs[0]), hs[1..])
  }

  lemma ReadsHeaderAnywhere(env: Env, p: Parser, h: Header) returns (q: Parser)
    requires AtLine(p.state) && IsHeader(h) && p.nread + |PrintHeader(h)| <= env.limit
    ensures Reads(env, p, PrintHeader(h), HeaderAtoms(h), q)
    ensures Framed(p, q, |PrintHeader(h)|, Effect(Framing(p.flags, p.contentLength), h), HeaderValueLws)
  {
    var a := p.(state := HeaderFieldStart);
    q := ReadsHeader(env, a, h);
    hide Reads, Effect;
    if p.state.HeaderValueLws? {
      var c := PrintHeader(h)[0];
      assert c == h.name[0] && IsToken(c);
      LwsIsLineStart(env, p, PrintHeader(h), HeaderAtoms(h), q);
    }
  }

  /** A block of header lines is read back with the effect of each in turn. */
  lemma {:induction false} ReadsHeaders(env: Env, p: Parser, hs: seq<Header>) returns (q: Parser)
    requires AtLine(p.state) && AreHeaders(hs) && p.nread + |PrintHeaders(hs)| <= env.limit
    ensures Reads(env, p, PrintHeaders(hs), HeadersAtoms(hs), q)
    ensures Framed(p, q, |PrintHeaders(hs)|, EffectAll(Framing(p.flags, p.contentLength), hs), q.state) && AtLine(q.state)
    decreases |hs|
  {
    hide Reads, Effect, PrintHeader, HeaderAtoms, IsHeader;
    if hs == [] {
      ReadsNothing(env, p);
      q := p;
    } else {
      var a := ReadsHeaderAnywhere(env, p, hs[0]);
      q := ReadsHeaders(env, a, hs[1..]);
      ReadsThen(env, p, PrintHeader(hs[0]), HeaderAtoms(hs[0]), a, PrintHeaders(hs[1..]), HeadersAtoms(hs[1..]), q);
    }
  }

  lemma ReadsHeadCr(env: Env, p: Parser)
    requires AtLine(p.state) && p.nread < env.limit
    ensures Reads(env, p, [CR], [], Advance(p, 1).(state := HeadersAlmostDone))
  {
    var a, q := p.(state := HeaderFieldStart), Advance(p, 1).(state := HeadersAlmostDone);
    FieldSwitch(env, Advance(a, 1), CR, 1);
    ReadsSilently(env, a, CR, q);
    if p.state.HeaderValueLws? { LwsIsLineStart(env, p, [CR], [], q); }
  }

  // Bodies with a length.

  /** A Content-Length body: exactly the next `contentLength` octets are
      delivered, then the message completes. */
  lemma ReadsIdentity(env: Env, p: Parser, body: seq<byte>)
    requires p.state.BodyIdentity? && p.contentLength == |body| && 0 < |body| < ULLONG_MAX
    ensures var q := p.(contentLength := 0);
      Reads(env, p, body, Octets(Body, body) + [Notice(MessageComplete)], q.(state := NewMessage(q)))
  {
    var n := |body| - 1;
    var q := p.(contentLength := 0);
    var r := q.(state := NewMessage(q));
    BodyInterior(env, p, body, n);
    var a := BodyRest(p, n);
    assert a == p.(contentLength := 1);
    LastIdentityOctet(env, a, body[n]);
    hide Parse, ShouldKeepAlive;
    assert body[n..] == [body[n]];
    var last := [Octet(Body, body[n]), Notice(MessageComplete)];
    assert Parse(env, p, body) == Prefix(Octets(Body, body[..n]), n, Run(r, last, 1, More));
    assert Octets(Body, body[..n]) + last == Octets(Body, body) + [Notice(MessageComplete)];
  }

  lemma IdentitySteps(env: Env, p: Parser, ch: byte)
    requires p.state.BodyIdentity? && p.contentLength == 1
    ensures var q := p.(contentLength := 0); var d := q.(state := MessageDone);
      && Switch(env, p, ch, 1) == Again(q, MessageDone).(mark := Some(Body), flush := Some(Body))
      && Switch(env, d, ch, 1) == Notify(q.(state := NewMessage(q)), MessageComplete)
  {
    var q := p.(contentLength := 0);
    BodySwitch(env, p, ch, 1);
    BodySwitch(env, q.(state := MessageDone), ch, 1);
    hide Switch;
  }

  lemma LastIdentityOctet(env: Env, p: Parser, ch: byte)
    requires p.state.BodyIdentity? && p.contentLength == 1
    ensures var q := p.(contentLength := 0);
      Reads(env, p, [ch], [Octet(Body, ch), Notice(MessageComplete)], q.(state := NewMessage(q)))
  {
    IdentitySteps(env, p, ch);
    var q := p.(contentLength := 0);
    var r, d := q.(state := NewMessage(q)), q.(state := MessageDone);
    hide Switch, ShouldKeepAlive, Reads;
    assert [] + [Notice(MessageComplete)] + [] == [Notice(MessageComplete)];
    assert Exec(env, d, ch) == Fed(r, [Notice(MessageComplete)], More);
    assert [Octet(Body, ch)] + [] + [Notice(MessageComplete)] == [Octet(Body, ch), Notice(MessageComplete)];
    assert Exec(env, p, ch) == Fed(r, [Octet(Body, ch), Notice(MessageComplete)], More);
    ReadsFed(env, p, ch, [Octet(Body, ch), Notice(MessageComplete)], r);
  }

  // Chunks.

  predicate AllHex(ds: seq<byte>) {
    forall c <- ds :: IsHex(c)
  }

  function HexDigit(c: byte): (v: nat)
    requires IsHex(c)
  {
    if IsNum(c) then c as int - '0' as int else Lower(c) as int - 'a' as int + 10
  }

  function HexFrom(n: nat, ds: seq<byte>): (v: nat)
    requires AllHex(ds)
    ensures n <= v
    decreases |ds|
  {
    if ds == [] then n else HexFrom(n * 16 + HexDigit(ds[0]), ds[1..])
  }

  /** A chunk-size line: hexadecimal digits and an optional extension. */
  datatype SizeLine = SizeLine(digits: seq<byte>, ext: seq<byte>)

  predicate IsSizeLine(l: SizeLine, n: nat) {
    && AllHex(l.digits) && l.digits != [] && HexFrom(0, l.digits) == n < ULLONG_MAX
    && CR !in l.ext && (l.ext != [] ==> l.ext[0] == ';' || l.ext[0] == ' ')
    && |l.digits| + |l.ext| + 2 <= MAX_HEADER_SIZE
  }

  function PrintSizeLine(l: SizeLine): seq<byte> {
    l.digits + l.ext + "\r\n"
  }

  /** The octets the `unhex` table takes for digits, and the number they spell for it. */
  predicate AllSize(ds: seq<byte>) {
    forall c <- ds :: Unhex(c) != -1
  }

  function SizeFrom(n: nat, ds: seq<byte>): (v: nat)
    requires AllSize(ds)
    ensures n <= v
    decreases |ds|
  {
    if ds == [] then n else SizeFrom(n * 16 + Unhex(ds[0]), ds[1..])
  }

  lemma UnhexValue(c: byte)
    requires IsHex(c)
    ensures Unhex(c) == HexDigit(c)
  {
  }

  lemma SizeIsNotCr(c: byte)
    requires Unhex(c) != -1
    ensures c != CR
  {
  }

  /** For hexadecimal digits it is the number they spell. */
  lemma {:induction false} SizeOfHex(n: nat, ds: seq<byte>)
    requires AllHex(ds)
    ensures AllSize(ds) && SizeFrom(n, ds) == HexFrom(n, ds)
    decreases |ds|
  {
    hide IsHex, HexDigit, Unhex;
    forall c <- ds ensures Unhex(c) != -1 { UnhexValue(c); }
    if ds != [] {
      UnhexValue(ds[0]);
      SizeOfHex(n * 16 + HexDigit(ds[0]), ds[1..]);
    }
  }

  lemma ReadsChunkOctet(env: Env, p: Parser, ch: byte, q: Parser)
    requires p.state.ChunkSizeStart? || p.state.ChunkSize? || p.state.ChunkParameters? || p.state.ChunkSizeAlmostDone?
    requires p.nread < env.limit && p.flags.chunked && (p.state.ChunkSizeStart? ==> p.nread == 0)
    requires StepChunkHead(Advance(p, 1), ch) == On(q)
    ensures Reads(env, p, [ch], [], q)
  {
    hide StepChunkHead, Reads;
    BodySwitch(env, Advance(p, 1), ch, 1);
    hide Switch;
    ReadsSilently(env, p, ch, q);
  }

  lemma {:induction false} ReadsMoreSize(env: Env, p: Parser, ds: seq<byte>)
    requires p.state.ChunkSize? && p.flags.chunked && AllSize(ds) && p.nread + |ds| <= env.limit
    requires SizeFrom(p.contentLength, ds) < ULLONG_MAX
    ensures Reads(env, p, ds, [], Advance(p, |ds|).(contentLength := SizeFrom(p.contentLength, ds)))
    decreases |ds|
  {
    hide Reads, Unhex;
    if ds == [] {
      ReadsNothing(env, p);
    } else {
      SizeIsNotCr(ds[0]);
      var n := p.contentLength * 16 + Unhex(ds[0]);
      assert n <= SizeFrom(n, ds[1..]);
      assert n % U64 == n;
      var a := Advance(p, 1).(contentLength := n);
      ReadsChunkOctet(env, p, ds[0], a);
      ReadsMoreSize(env, a, ds[1..]);
      var r := Advance(p, |ds|).(contentLength := SizeFrom(p.contentLength, ds));
      ReadsOn(env, p, [ds[0]], [], a, ds[1..], r);
      assert [ds[0]] + ds[1..] == ds;
    }
  }

  /** The parser that has read a chunk size. */
  function SizeRead(p: Parser, ds: seq<byte>, n: nat): Parser {
    Advance(p, |ds|).(contentLength := n, state := ChunkSize)
  }

  lemma ReadsSize(env: Env, p: Parser, ds: seq<byte>)
    requires p.state.ChunkSizeStart? && p.flags.chunked && p.nread == 0
    requires AllSize(ds) && ds != [] && |ds| <= env.limit && SizeFrom(0, ds) < ULLONG_MAX
    ensures Reads(env, p, ds, [], SizeRead(p, ds, SizeFrom(0, ds)))
  {
    hide Reads, Unhex;
    var a := Advance(p, 1).(contentLength := Unhex(ds[0]), state := ChunkSize);
    ReadsChunkOctet(env, p, ds[0], a);
    ReadsMoreSize(env, a, ds[1..]);
    ReadsOn(env, p, [ds[0]], [], a, ds[1..], SizeRead(p, ds, SizeFrom(0, ds)));
    assert [ds[0]] + ds[1..] == ds;
  }

  /** Whatever passes the overflow test stays below 2^64 - 1. */
  lemma {:induction false} SizeBound(env: Env, p: Parser, ds: seq<byte>)
    requires p.state.ChunkSize? && p.flags.chunked && AllSize(ds) && p.contentLength < ULLONG_MAX
    requires Parse(env, p, ds).end.More?
    ensures Parse(env, p, ds).p.contentLength < ULLONG_MAX
    decreases |ds|
  {
    hide Unhex;
    if ds != [] {
      SizeIsNotCr(ds[0]);
      SizeFed(env, p, ds[0]);
      hide Feed;
      var f := Feed(env, p, ds[0]);
      SizeBound(env, f.p, ds[1..]);
    }
  }

  lemma SizeFed(env: Env, p: Parser, ch: byte)
    requires p.state.ChunkSize? && p.flags.chunked && Unhex(ch) != -1 && ch != CR
    ensures var f := Feed(env, p, ch);
      f.end.More? ==> f.p.state.ChunkSize? && f.p.flags.chunked && f.p.contentLength < ULLONG_MAX
  {
    hide Unhex;
    var q := Count(p);
    if !Overflows(env, q) {
      BodySwitch(env, q, ch, 1);
      var s := StepChunkHead(q, ch);
      hide Switch;
      assert Exec(env, q, ch).end.More? ==> Exec(env, q, ch).p == s.p;
    }
  }

  /** A chunk size is accepted with its value if and only if that value is below
      2^64 - 1. The digits may be any octets the table takes for digits. */
  lemma SizeExact(env: Env, p: Parser, ds: seq<byte>)
    requires p.state.ChunkSizeStart? && p.flags.chunked && p.nread == 0
    requires AllSize(ds) && ds != [] && |ds| <= env.limit
    ensures Reads(env, p, ds, [], SizeRead(p, ds, SizeFrom(0, ds))) <==> SizeFrom(0, ds) < ULLONG_MAX
  {
    if SizeFrom(0, ds) < ULLONG_MAX {
      ReadsSize(env, p, ds);
    } else {
      hide Unhex, SizeFrom, StepChunkHead;
      FirstSizeDigit(env, p, ds[0]);
      hide Feed;
      var f := Feed(env, p, ds[0]);
      var r := Parse(env, f.p, ds[1..]);
      assert Parse(env, p, ds) == Prefix(f.out, 1, r);
      if r.end.More? {
        assert Unhex(ds[0]) < 16;
        SizeBound(env, f.p, ds[1..]);
      }
    }
  }

  lemma FirstSizeDigit(env: Env, p: Parser, ch: byte)
    requires p.state.ChunkSizeStart? && p.flags.chunked && p.nread < env.limit && p.nread == 0
    ensures var f := Feed(env, p, ch);
      if Unhex(ch) == -1 then f.end.Failed? else f == Fed(SizeRead(p, [ch], Unhex(ch)), [], More)
  {
    hide Unhex;
    var q := Count(p);
    BodySwitch(env, q, ch, 1);
    hide Switch;
    var none: seq<Atom> := [];
    assert none + none + none == none;
  }

  /** A chunk size starts exactly with a hexadecimal digit or an octet outside ASCII. */
  lemma SizeStarts(env: Env, p: Parser, ch: byte)
    requires p.state.ChunkSizeStart? && p.flags.chunked && p.nread < env.limit && p.nread == 0
    ensures Parse(env, p, [ch]).end.More? <==> IsHex(ch) || ch as int >= 128
  {
    FirstSizeDigit(env, p, ch);
    UnhexAccepts(ch);
    hide Feed, Unhex, IsHex;
    assert [ch][1..] == [];
    assert Parse(env, p, [ch]) == Then(env, Feed(env, p, ch), []);
  }

  // A size that wraps.

  function Effs(k: nat): seq<byte> {
    seq(k, _ => 'F')
  }

  function Pow16(k: nat): nat {
    if k == 0 then 1 else 16 * Pow16(k - 1)
  }

  lemma {:induction false} HexEffs(n: nat, k: nat)
    ensures AllHex(Effs(k)) && HexFrom(n, Effs(k)) == (n + 1) * Pow16(k) - 1
    decreases k
  {
    if k > 0 {
      assert Effs(k)[1..] == Effs(k - 1);
      HexEffs(n * 16 + 15, k - 1);
      assert (n * 16 + 16) * Pow16(k - 1) == (n + 1) * (16 * Pow16(k - 1));
    }
  }

  lemma Pow15()
    ensures Pow16(15) == 0x1000_0000_0000_0000
  {
    assert Pow16(5) == 0x10_0000;
    assert Pow16(10) == 0x100_0000_0000 by {
      assert Pow16(7) == 256 * Pow16(5);
      assert Pow16(9) == 256 * Pow16(7);
    }
    assert Pow16(12) == 256 * Pow16(10);
    assert Pow16(14) == 256 * Pow16(12);
  }

  const WRAPPING: seq<byte> := ['1'] + Effs(15)

  lemma WrappingValue()
    ensures AllHex(WRAPPING) && HexFrom(0, WRAPPING) == 0x1FFF_FFFF_FFFF_FFFF
    ensures AllHex(WRAPPING + ['0']) && HexFrom(0, WRAPPING + ['0']) == 0x1_FFFF_FFFF_FFFF_FFF0
  {
    HexEffs(1, 15);
    Pow15();
    assert WRAPPING[1..] == Effs(15);
    HexSnoc(0, WRAPPING, '0');
  }

  lemma {:induction false} HexSnoc(n: nat, ds: seq<byte>, c: byte)
    requires AllHex(ds) && IsHex(c)
    ensures AllHex(ds + [c]) && HexFrom(n, ds + [c]) == HexFrom(n, ds) * 16 + HexDigit(c)
    decreases |ds|
  {
    if ds == [] {
      assert ds + [c] == [c];
    } else {
      assert (ds + [c])[1..] == ds[1..] + [c];
      HexSnoc(n * 16 + HexDigit(ds[0]), ds[1..], c);
    }
  }

  /** The size line 1FFFFFFFFFFFFFFF0 is accepted, as a number below 2^64. */
  lemma SizeWraps(env: Env, p: Parser)
    requires p.state.ChunkSizeStart? && p.flags.chunked && env.limit == MAX_HEADER_SIZE && p.nread == 0
    ensures Reads(env, p, WRAPPING + ['0'] + "\r\n", [], p.(contentLength := 0xFFFF_FFFF_FFFF_FFF0, state := ChunkData))
    ensures AllHex(WRAPPING + ['0']) && HexFrom(0, WRAPPING + ['0']) == 0x1_FFFF_FFFF_FFFF_FFF0
  {
    hide Reads, HexFrom, SizeFrom;
    WrappingValue();
    SizeOfHex(0, WRAPPING);
    ReadsSize(env, p, WRAPPING);
    var a := SizeRead(p, WRAPPING, 0x1FFF_FFFF_FFFF_FFFF);
    var b := SizeRead(p, WRAPPING + ['0'], 0xFFFF_FFFF_FFFF_FFF0);
    ReadsChunkOctet(env, a, '0', b);
    ReadsOn(env, p, WRAPPING, [], a, ['0'], b);
    ReadsSizeEnd(env, b);
    ReadsOn(env, p, WRAPPING + ['0'], [], b, "\r\n", p.(contentLength := 0xFFFF_FFFF_FFFF_FFF0, state := ChunkData));
  }

  lemma {:induction false} ReadsExtension(env: Env, p: Parser, ext: seq<byte>)
    requires (p.state.ChunkSize? && ext != [] && (ext[0] == ';' || ext[0] == ' ')) || p.state.ChunkParameters?
    requires p.flags.chunked && CR !in ext && p.nread + |ext| <= env.limit
    ensures Reads(env, p, ext, [], Advance(p, |ext|).(state := ChunkParameters))
    decreases |ext|
  {
    hide Reads;
    if ext == [] {
      ReadsNothing(env, p);
    } else {
      var a := Advance(p, 1).(state := ChunkParameters);
      ReadsChunkOctet(env, p, ext[0], a);
      ReadsExtension(env, a, ext[1..]);
      ReadsOn(env, p, [ext[0]], [], a, ext[1..], Advance(p, |ext|).(state := ChunkParameters));
      assert [ext[0]] + ext[1..] == ext;
    }
  }

  lemma ReadsSizeEnd(env: Env, p: Parser)
    requires (p.state.ChunkSize? || p.state.ChunkParameters?) && p.flags.chunked && p.nread + 2 <= env.limit
    ensures Reads(env, p, "\r\n", [],
                  if p.contentLength == 0 then p.(nread := 0, flags := p.flags.(trailing := true), state := HeaderFieldStart)
                  else p.(nread := 0, state := ChunkData))
  {
    hide Reads;
    var a := Advance(p, 1).(state := ChunkSizeAlmostDone);
    var b := if p.contentLength == 0 then p.(nread := 0, flags := p.flags.(trailing := true), state := HeaderFieldStart)
             else p.(nread := 0, state := ChunkData);
    ReadsChunkOctet(env, p, CR, a);
    ReadsChunkOctet(env, a, LF, b);
    ReadsOn(env, p, [CR], [], a, [LF], b);
    assert [CR] + [LF] == "\r\n";
  }

  lemma ReadsSizeLine(env: Env, p: Parser, l: SizeLine, n: nat)
    requires env.limit >= MAX_HEADER_SIZE
    requires p.state.ChunkSizeStart? && p.flags.chunked && p.nread == 0 && IsSizeLine(l, n)
    ensures Reads(env, p, PrintSizeLine(l), [],
                  if n == 0 then p.(contentLength := 0, flags := p.flags.(trailing := true), state := HeaderFieldStart)
                  else p.(contentLength := n, state := ChunkData))
  {
    hide Reads, HexFrom, SizeFrom;
    SizeOfHex(0, l.digits);
    ReadsSize(env, p, l.digits);
    var a := Advance(p, |l.digits|).(contentLength := n, state := ChunkSize);
    var b := if l.ext == [] then a else Advance(a, |l.ext|).(state := ChunkParameters);
    if l.ext == [] { ReadsNothing(env, a); } else { ReadsExtension(env, a, l.ext); }
    ReadsOn(env, p, l.digits, [], a, l.ext, b);
    ReadsSizeEnd(env, b);
    ReadsOn(env, p, l.digits + l.ext, [], b, "\r\n",
            if n == 0 then p.(contentLength := 0, flags := p.flags.(trailing := true), state := HeaderFieldStart)
            else p.(contentLength := n, state := ChunkData));
  }

  datatype Chunk = Chunk(line: SizeLine, data: seq<byte>)

  predicate IsChunk(c: Chunk) {
    c.data != [] && IsSizeLine(c.line, |c.data|)
  }

  function PrintChunk(c: Chunk): seq<byte> {
    PrintSizeLine(c.line) + c.data + "\r\n"
  }

  function PrintChunks(cs: seq<Chunk>): seq<byte> {
    if cs == [] then [] else PrintChunk(cs[0]) + PrintChunks(cs[1..])
  }

  function Payload(cs: seq<Chunk>): seq<byte> {
    if cs == [] then [] else cs[0].data + Payload(cs[1..])
  }

  lemma ReadsChunkCrLf(env: Env, p: Parser)
    requires p.state.ChunkDataAlmostDone? && p.flags.chunked && p.contentLength == 0
    ensures Reads(env, p, "\r\n", [], p.(nread := 0, state := ChunkSizeStart))
  {
    var a, b := p.(state := ChunkDataDone), p.(nread := 0, state := ChunkSizeStart);
    BodySwitch(env, p, CR, 1);
    BodySwitch(env, a, LF, 1);
    hide Switch, Reads, StepChunkHead, StepBodyData;
    ReadsUncounted(env, p, CR, a);
    ReadsUncounted(env, a, LF, b);
    ReadsOn(env, p, [CR], [], a, [LF], b);
    assert [CR] + [LF] == "\r\n";
  }

  lemma ReadsLastChunkOctet(env: Env, p: Parser, ch: byte)
    requires p.state.ChunkData? && p.flags.chunked && p.contentLength == 1
    ensures Reads(env, p, [ch], [Octet(Body, ch)], p.(contentLength := 0, state := ChunkDataAlmostDone))
  {
    BodySwitch(env, p, ch, 1);
    hide Switch, Reads, StepChunkHead;
    ReadsUncounted(env, p, ch, p.(contentLength := 0, state := ChunkDataAlmostDone));
  }

  /** The data of one chunk is delivered exactly. */
  lemma ReadsChunkData(env: Env, p: Parser, data: seq<byte>)
    requires p.state.ChunkData? && p.flags.chunked && p.contentLength == |data| && 0 < |data| < ULLONG_MAX
    ensures Reads(env, p, data, Octets(Body, data), p.(contentLength := 0, state := ChunkDataAlmostDone))
  {
    var n := |data| - 1;
    BodyInterior(env, p, data, n);
    var a, r := p.(contentLength := 1), p.(contentLength := 0, state := ChunkDataAlmostDone);
    ReadsLastChunkOctet(env, a, data[n]);
    hide Parse;
    assert data[n..] == [data[n]];
    assert Parse(env, p, data) == Prefix(Octets(Body, data[..n]), n, Run(r, [Octet(Body, data[n])], 1, More));
    assert Octets(Body, data[..n]) + [Octet(Body, data[n])] == Octets(Body, data);
  }

  lemma ReadsChunk(env: Env, p: Parser, c: Chunk)
    requires env.limit >= MAX_HEADER_SIZE
    requires p.state.ChunkSizeStart? && p.flags.chunked && p.nread == 0 && IsChunk(c)
    ensures Reads(env, p, PrintChunk(c), Octets(Body, c.data), p.(contentLength := 0))
  {
    hide Reads, HexFrom;
    var a, b := p.(contentLength := |c.data|, state := ChunkData), p.(contentLength := 0, state := ChunkDataAlmostDone);
    ReadsSizeLine(env, p, c.line, |c.data|);
    ReadsChunkData(env, a, c.data);
    ReadsChunkCrLf(env, b);
    ReadsThen(env, p, PrintSizeLine(c.line), [], a, c.data, Octets(Body, c.data), b);
    assert [] + Octets(Body, c.data) == Octets(Body, c.data);
    ReadsOn(env, p, PrintSizeLine(c.line) + c.data, Octets(Body, c.data), b, "\r\n", p.(contentLength := 0));
  }

  /** Any list of chunks delivers the concatenation of their data. */
  lemma {:induction false} ReadsChunks(env: Env, p: Parser, cs: seq<Chunk>)
    requires env.limit >= MAX_HEADER_SIZE
    requires p.state.ChunkSizeStart? && p.flags.chunked && p.nread == 0 && forall c <- cs :: IsChunk(c)
    ensures Reads(env, p, PrintChunks(cs), Octets(Body, Payload(cs)), if cs == [] then p else p.(contentLength := 0))
    decreases |cs|
  {
    hide Reads, PrintChunk, IsChunk;
    if cs == [] {
      ReadsNothing(env, p);
      assert Octets(Body, Payload(cs)) == [];
    } else {
      var a := p.(contentLength := 0);
      ReadsChunk(env, p, cs[0]);
      ReadsChunks(env, a, cs[1..]);
      ReadsThen(env, p, PrintChunk(cs[0]), Octets(Body, cs[0].data), a, PrintChunks(cs[1..]), Octets(Body, Payload(cs[1..])), a);
      OctetsConcat(Body, cs[0].data, Payload(cs[1..]));
    }
  }

  lemma TrailerStep(env: Env, p: Parser)
    requires p.state.HeadersAlmostDone? && p.flags.trailing
    ensures Switch(env, p, LF, 1) == Notify(p.(state := NewMessage(p)), MessageComplete)
  {
    HeadersEndSwitch(env, p, LF, 1);
    hide Switch, ShouldKeepAlive;
  }

  /** Keep-alive depends on neither the state nor the octet counter. */
  lemma KeepAliveFields(p: Parser, q: Parser)
    requires q == p.(state := q.state, nread := q.nread)
    ensures NewMessage(p) == NewMessage(q)
  {
  }

  /** The blank line that ends the trailer completes the message. */
  lemma ReadsTrailerEnd(env: Env, p: Parser)
    requires AtLine(p.state) && p.flags.trailing && p.nread + 2 <= env.limit
    ensures var q := Advance(p, 2);
      Reads(env, p, "\r\n", [Notice(MessageComplete)], q.(state := NewMessage(q)))
  {
    hide Switch, Reads, ShouldKeepAlive;
    var q, a := Advance(p, 2), Advance(p, 1).(state := HeadersAlmostDone);
    var r := q.(state := NewMessage(q));
    ReadsHeadCr(env, p);
    TrailerStep(env, Advance(a, 1));
    KeepAliveFields(q, Advance(a, 1));
    ReadsOctet(env, a, LF, Notify(r, MessageComplete));
    assert [Notice(MessageComplete)] + [] == [Notice(MessageComplete)];
    ReadsThen(env, p, [CR], [], a, [LF], [Notice(MessageComplete)], r);
    assert [] + [Notice(MessageComplete)] == [Notice(MessageComplete)];
    assert [CR] + [LF] == "\r\n";
  }

  /** A chunked body: chunks, a last size line of value zero, trailer lines. */
  datatype ChunkedBody = ChunkedBody(chunks: seq<Chunk>, last: SizeLine, trailer: seq<Header>)

  predicate IsChunkedBody(b: ChunkedBody) {
    && (forall c <- b.chunks :: IsChunk(c)) && IsSizeLine(b.last, 0) && AreHeaders(b.trailer)
    && |PrintHeaders(b.trailer)| + 2 <= MAX_HEADER_SIZE
  }

  function PrintChunked(b: ChunkedBody): seq<byte> {
    PrintChunks(b.chunks) + PrintSizeLine(b.last) + PrintHeaders(b.trailer) + "\r\n"
  }

  function ChunkedAtoms(b: ChunkedBody): seq<Atom> {
    Octets(Body, Payload(b.chunks)) + HeadersAtoms(b.trailer) + [Notice(MessageComplete)]
  }

  /** The chunks up to the last size line. */
  lemma ReadsToTrailer(env: Env, p: Parser, b: ChunkedBody)
    requires env.limit >= MAX_HEADER_SIZE
    requires p.state.ChunkSizeStart? && p.flags.chunked && p.nread == 0 && IsChunkedBody(b)
    ensures Reads(env, p, PrintChunks(b.chunks) + PrintSizeLine(b.last), Octets(Body, Payload(b.chunks)),
                  p.(contentLength := 0, flags := p.flags.(trailing := true), state := HeaderFieldStart))
  {
    hide Reads, HexFrom, PrintHeaders, PrintChunks, PrintSizeLine, IsHeader;
    var a := if b.chunks == [] then p else p.(contentLength := 0);
    ReadsChunks(env, p, b.chunks);
    ReadsSizeLine(env, a, b.last, 0);
    ReadsOn(env, p, PrintChunks(b.chunks), Octets(Body, Payload(b.chunks)), a, PrintSizeLine(b.last),
            p.(contentLength := 0, flags := p.flags.(trailing := true), state := HeaderFieldStart));
  }

  /** The trailer lines and the blank line. */
  lemma ReadsTrailer(env: Env, p: Parser, hs: seq<Header>) returns (q: Parser)
    requires AtLine(p.state) && p.flags.trailing && AreHeaders(hs) && p.nread + |PrintHeaders(hs)| + 2 <= env.limit
    ensures Reads(env, p, PrintHeaders(hs) + "\r\n", HeadersAtoms(hs) + [Notice(MessageComplete)], q)
    ensures Framed(p, q, |PrintHeaders(hs)| + 2, EffectAll(Framing(p.flags, p.contentLength), hs), q.state)
    ensures q.state == NewMessage(q)
  {
    hide Reads, PrintHeaders, HeadersAtoms, Effect, IsHeader, EffectAll, ShouldKeepAlive;
    var d := ReadsHeaders(env, p, hs);
    EffectKeepsTrailing(Framing(p.flags, p.contentLength), hs);
    ReadsTrailerEnd(env, d);
    q := Advance(d, 2).(state := NewMessage(Advance(d, 2)));
    KeepAliveFields(Advance(d, 2), q);
    ReadsThen(env, p, PrintHeaders(hs), HeadersAtoms(hs), d, "\r\n", [Notice(MessageComplete)], q);
  }

  /** A chunked body, whatever its chunk sizes, extensions and trailer, is
      delivered exactly and completes the message once. */
  lemma ReadsChunked(env: Env, p: Parser, b: ChunkedBody) returns (q: Parser)
    requires env.limit >= MAX_HEADER_SIZE
    requires p.state.ChunkSizeStart? && p.flags.chunked && p.nread == 0 && IsChunkedBody(b)
    ensures Reads(env, p, PrintChunked(b), ChunkedAtoms(b), q)
    ensures var f := EffectAll(Framing(p.flags.(trailing := true), 0), b.trailer);
      && Framed(p, q, |PrintHeaders(b.trailer)| + 2, f, q.state)
      && q.state == NewMessage(q)
  {
    hide Reads, HexFrom, PrintHeaders, HeadersAtoms, PrintChunks, PrintSizeLine, IsHeader, EffectAll, NewMessage;
    var c := p.(contentLength := 0, flags := p.flags.(trailing := true), state := HeaderFieldStart);
    var size, body := PrintChunks(b.chunks) + PrintSizeLine(b.last), Octets(Body, Payload(b.chunks));
    var end, told := PrintHeaders(b.trailer) + "\r\n", HeadersAtoms(b.trailer) + [Notice(MessageComplete)];
    ReadsToTrailer(env, p, b);
    q := ReadsTrailer(env, c, b.trailer);
    ReadsThen(env, p, size, body, c, end, told, q);
    assert PrintChunked(b) == size + end;
    assert ChunkedAtoms(b) == body + told;
  }

  lemma {:induction false} EffectKeepsTrailing(f: Framing, hs: seq<Header>)
    requires AreHeaders(hs)
    ensures EffectAll(f, hs).flags.trailing == f.flags.trailing
    ensures EffectAll(f, hs).flags.skipBody == f.flags.skipBody
    decreases |hs|
  {
    hide IsWord, NameClass, LowerName, Decimal, IsHeader;
    if hs != [] { EffectKeepsTrailing(Effect(f, hs[0]), hs[1..]); }
  }
}
