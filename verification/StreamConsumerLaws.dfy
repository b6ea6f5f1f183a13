/**
  Laws of the byte-capped accumulator over whole runs of consume calls: the ledger every run keeps,
  independence of the chunking of standard output, and agreement of two stacked consumers.
 */
module StreamConsumerLaws {
  import opened Models
  import opened Utf8
  import opened StreamConsumers

  /** One piece of decoded output handed to a consumer. */
  datatype Read = Read(fromStderr: bool, text: string)

  function Consume(c: ConsumerState, r: Read): (ConsumerState, Option<Chunk>) {
    if r.fromStderr then OnStderr(c, r.text) else OnStdout(c, r.text)
  }

  function Emitted(o: Option<Chunk>): seq<Chunk> {
    if o.Some? then [o.value] else []
  }

  /** The state after consuming `inputs` in order, and the chunks returned on the way. */
  function ConsumeAll(c: ConsumerState, inputs: seq<Read>): (ConsumerState, seq<Chunk>)
    decreases inputs
  {
    if inputs == [] then (c, [])
    else
      var (c1, o) := Consume(c, inputs[0]);
      var (c2, log) := ConsumeAll(c1, inputs[1..]);
      (c2, Emitted(o) + log)
  }

  // ---------- The ledger of a run ----------

  /** Bytes of all the text a consumer holds. */
  function Held(c: ConsumerState): nat {
    Bytes(Concat(c.stdout)) + Bytes(Concat(c.stderr))
  }

  /** The count never passes the cap, and misses the held bytes by at most a cut character. */
  predicate CountLedger(c: ConsumerState) {
    && Held(c) <= c.totalBytes <= Held(c) + 3
    && c.totalBytes <= Max(0, c.maxBytes)
    && (!c.limitExceeded ==> c.totalBytes == Held(c))
  }

  /** Which stream overflowed, if any: the last chunk returned says so. */
  function OverflowedBy(c: ConsumerState, log: seq<Chunk>): Option<Event> {
    if c.limitExceeded && log != [] then Some(log[|log| - 1].event) else None
  }

  /** The returned chunks carry the held text, with the marker or the notice after an overflow. */
  predicate TextLedger(c: ConsumerState, log: seq<Chunk>) {
    var over := OverflowedBy(c, log);
    && (forall i :: 0 <= i < |log| ==> log[i].event == Stdout || log[i].event == Stderr)
    && (c.limitExceeded ==> log != [])
    && TextOf(log, Stdout) == Concat(c.stdout) + (if over == Some(Stdout) then LimitMarker(c.maxBytes) else "")
    && TextOf(log, Stderr) == Concat(c.stderr) + (if over == Some(Stderr) then STDERR_NOTICE else "")
  }

  /** How a consumer's fields relate to the chunks it has returned so far. */
  predicate Ledger(c: ConsumerState, log: seq<Chunk>) {
    && CountLedger(c)
    && TextLedger(c, log)
    && (OverflowedBy(c, log) == Some(Stdout) ==> c.totalBytes == Max(0, c.maxBytes))
    && (OverflowedBy(c, log) == Some(Stderr) ==> c.totalBytes == Held(c))
  }

  /** Every chunk but an overflow notice has paid for itself with at least one byte. */
  predicate Paid(c: ConsumerState, log: seq<Chunk>) {
    |log| <= c.totalBytes + (if c.limitExceeded then 1 else 0)
  }

  lemma BytesOfSnoc(parts: seq<string>, s: string)
    ensures Bytes(Concat(parts + [s])) == Bytes(Concat(parts)) + Bytes(s)
  {
    ConcatSnoc(parts, s);
    EncodeSplits(Concat(parts), s);
  }

  /** The overflow branch of `OnStdout` in terms of the longest fitting prefix. */
  lemma StdoutOverflows(c: ConsumerState, text: string)
    requires !c.limitExceeded && c.totalBytes + Bytes(text) > c.maxBytes
    ensures var room := Max(0, c.maxBytes - c.totalBytes);
            var kept := Fit(text, room);
            && OnStdout(c, text) ==
               (c.(totalBytes := c.totalBytes + room, limitExceeded := true, stdout := c.stdout + [kept]),
                Some(Chunk(Stdout, kept + LimitMarker(c.maxBytes))))
            && Bytes(kept) <= room <= Bytes(kept) + 3
  {
    hide LimitMarker;
    var room := Max(0, c.maxBytes - c.totalBytes);
    CutDecodesToFit(text, room);
    CutKeepsLongestPrefix(text, room);
  }

  lemma AddStdout(c: ConsumerState, c': ConsumerState, text: string, log: seq<Chunk>, suffix: string)
    requires c'.stdout == c.stdout + [text] && c'.stderr == c.stderr
    ensures Held(c') == Held(c) + Bytes(text)
    ensures TextOf(log, Stdout) == Concat(c.stdout) ==>
              TextOf(log + [Chunk(Stdout, text + suffix)], Stdout) == Concat(c'.stdout) + suffix
    ensures TextOf(log + [Chunk(Stdout, text + suffix)], Stderr) == TextOf(log, Stderr)
  {
    BytesOfSnoc(c.stdout, text);
    ConcatSnoc(c.stdout, text);
    TextOfSnoc(log, Chunk(Stdout, text + suffix), Stdout);
    TextOfSnoc(log, Chunk(Stdout, text + suffix), Stderr);
    assert Concat(c.stdout) + text + suffix == Concat(c.stdout) + (text + suffix);
  }

  lemma StdoutKeepsLedger(c: ConsumerState, text: string, log: seq<Chunk>)
    requires Ledger(c, log) && !c.limitExceeded
    ensures var (c', o) := OnStdout(c, text); o.Some? && Ledger(c', log + [o.value])
  {
    hide LimitMarker, DecodeIgnore, Fit, Encode, TextOf, Concat, Bytes;
    var (c', o) := OnStdout(c, text);
    if c.totalBytes + Bytes(text) > c.maxBytes {
      StdoutOverflows(c, text);
      AddStdout(c, c', Fit(text, Max(0, c.maxBytes - c.totalBytes)), log, LimitMarker(c.maxBytes));
    } else {
      assert text + "" == text;
      AddStdout(c, c', text, log, "");
    }
  }

  lemma StderrKeepsLedger(c: ConsumerState, text: string, log: seq<Chunk>)
    requires Ledger(c, log) && !c.limitExceeded
    ensures var (c', o) := OnStderr(c, text); o.Some? && Ledger(c', log + [o.value])
  {
    hide LimitMarker, TextOf, Concat, Bytes, Encode;
    var (c', o) := OnStderr(c, text);
    TextOfSnoc(log, o.value, Stdout);
    TextOfSnoc(log, o.value, Stderr);
    BytesOfSnoc(c.stderr, text);
    ConcatSnoc(c.stderr, text);
  }

  /** One consume call keeps the ledger; a call on a full consumer changes and returns nothing. */
  lemma ConsumeKeepsLedger(c: ConsumerState, r: Read, log: seq<Chunk>)
    requires Ledger(c, log)
    ensures var (c', o) := Consume(c, r);
            && Ledger(c', log + Emitted(o))
            && c'.maxBytes == c.maxBytes
            && (o == None <==> c.limitExceeded)
            && (c.limitExceeded ==> c' == c)
            && (Paid(c, log) && r.text != "" ==> Paid(c', log + Emitted(o)))
  {
    hide Encode, LimitMarker, DecodeIgnore, TextLedger;
    CharsFitInBytes(r.text);
    if c.limitExceeded {
      assert log + Emitted(None) == log;
    } else if r.fromStderr {
      StderrKeepsLedger(c, r.text, log);
    } else {
      StdoutKeepsLedger(c, r.text, log);
    }
  }

  lemma NewConsumerKeepsLedger(maxBytes: int)
    ensures Ledger(Fresh(maxBytes), []) && Paid(Fresh(maxBytes), []) && Fresh(maxBytes).maxBytes == maxBytes
  {
    hide LimitMarker;
  }

  /** Every run of a new consumer, over any mix of both streams, ends with its books in order. */
  lemma RunKeepsLedger(maxBytes: int, inputs: seq<Read>)
    ensures var (c, log) := ConsumeAll(Fresh(maxBytes), inputs);
            && c.maxBytes == maxBytes
            && Ledger(c, log)
            && ((forall i :: 0 <= i < |inputs| ==> inputs[i].text != "") ==> Paid(c, log))
  {
    hide *;
    NewConsumerKeepsLedger(maxBytes);
    RunKeepsLedgerFrom(Fresh(maxBytes), inputs, []);
    var log := ConsumeAll(Fresh(maxBytes), inputs).1;
    assert [] + log == log;
  }

  lemma {:induction false} RunKeepsLedgerFrom(c: ConsumerState, inputs: seq<Read>, log: seq<Chunk>)
    requires Ledger(c, log)
    ensures var (c', more) := ConsumeAll(c, inputs);
            && c'.maxBytes == c.maxBytes
            && Ledger(c', log + more)
            && (Paid(c, log) && (forall i :: 0 <= i < |inputs| ==> inputs[i].text != "") ==> Paid(c', log + more))
    decreases inputs
  {
    hide LimitMarker, DecodeIgnore, OnStdout, OnStderr, TextLedger, CountLedger;
    if inputs == [] {
      assert log + [] == log;
    } else {
      var (c1, o) := Consume(c, inputs[0]);
      var more := ConsumeAll(c1, inputs[1..]).1;
      ConsumeKeepsLedger(c, inputs[0], log);
      RunKeepsLedgerFrom(c1, inputs[1..], log + Emitted(o));
      assert log + Emitted(o) + more == log + (Emitted(o) + more);
    }
  }

  lemma {:induction false} FullConsumerIsInert(c: ConsumerState, inputs: seq<Read>)
    requires c.limitExceeded
    ensures ConsumeAll(c, inputs) == (c, [])
    decreases inputs
  {
    if inputs != [] {
      FullConsumerIsInert(c, inputs[1..]);
      assert Emitted(None) + [] == [];
    }
  }

  lemma {:induction false} ConsumeAllSnoc(c: ConsumerState, inputs: seq<Read>, r: Read)
    ensures var (c1, log) := ConsumeAll(c, inputs);
            var (c2, o) := Consume(c1, r);
            ConsumeAll(c, inputs + [r]) == (c2, log + Emitted(o))
    decreases inputs
  {
    hide OnStdout, OnStderr;
    if inputs == [] {
      assert [r][1..] == [];
      var (c2, o) := Consume(c, r);
      assert ConsumeAll(c, [r]) == (c2, Emitted(o) + []);
      assert [] + Emitted(o) == Emitted(o) + [];
      assert [] + [r] == [r];
    } else {
      var (c1, o1) := Consume(c, inputs[0]);
      ConsumeAllSnoc(c1, inputs[1..], r);
      assert (inputs + [r])[1..] == inputs[1..] + [r];
      var (c2, log) := ConsumeAll(c1, inputs[1..]);
      var (c3, o) := Consume(c2, r);
      assert Emitted(o1) + (log + Emitted(o)) == Emitted(o1) + log + Emitted(o);
    }
  }

  // ---------- Chunking independence of standard output ----------

  function StdoutReads(pieces: seq<string>): seq<Read> {
    seq(|pieces|, i requires 0 <= i < |pieces| => Read(false, pieces[i]))
  }

  lemma {:induction false} StdoutRunFrom(c: ConsumerState, pieces: seq<string>)
    requires !c.limitExceeded
    ensures StdoutOutcome(c, pieces, ConsumeAll(c, StdoutReads(pieces)).0)
    decreases pieces
  {
    hide LimitMarker, DecodeIgnore, Encode, Fit, OnStdout, Bytes;
    if pieces == [] {
      EmptyText();
    } else {
      assert StdoutReads(pieces)[1..] == StdoutReads(pieces[1..]);
      var c1 := OnStdout(c, pieces[0]).0;
      FirstPiece(c, pieces);
      if c1.limitExceeded {
        FullConsumerIsInert(c1, StdoutReads(pieces[1..]));
      } else {
        StdoutRunFrom(c1, pieces[1..]);
      }
    }
  }

  /** The state `c'` that `c` reaches when standard output brings `pieces`. */
  predicate StdoutOutcome(c: ConsumerState, pieces: seq<string>, c': ConsumerState) {
    var text := Concat(pieces);
    var room := Max(0, c.maxBytes - c.totalBytes);
    && (c'.limitExceeded <==> pieces != [] && c.totalBytes + Bytes(text) > c.maxBytes)
    && Concat(c'.stdout) == Concat(c.stdout) + (if pieces == [] then "" else Fit(text, room))
    && c'.totalBytes == c.totalBytes + (if c'.limitExceeded then room else Bytes(text))
    && c'.stderr == c.stderr && c'.maxBytes == c.maxBytes
  }

  lemma EmptyText()
    ensures Bytes("") == 0
    ensures forall k: nat :: Fit("", k) == ""
  {
  }

  /** The first piece decides the outcome when it overflows, and otherwise leaves it to the others. */
  lemma FirstPiece(c: ConsumerState, pieces: seq<string>)
    requires !c.limitExceeded && pieces != []
    ensures var c1 := OnStdout(c, pieces[0]).0;
            && (c1.limitExceeded ==> StdoutOutcome(c, pieces, c1))
            && (!c1.limitExceeded ==>
                  forall c' :: StdoutOutcome(c1, pieces[1..], c') ==> StdoutOutcome(c, pieces, c'))
  {
    hide LimitMarker, DecodeIgnore, Encode, Fit, Bytes;
    var head, text := pieces[0], Concat(pieces[1..]);
    var room := Max(0, c.maxBytes - c.totalBytes);
    var c1 := OnStdout(c, head).0;
    assert Concat(pieces) == head + text;
    EncodeSplits(head, text);
    if c.totalBytes + Bytes(head) > c.maxBytes {
      StdoutOverflows(c, head);
      ConcatSnoc(c.stdout, Fit(head, room));
      OverflowHidesRest(head, text, c.maxBytes - c.totalBytes);
    } else {
      ConcatSnoc(c.stdout, head);
      FitSplits(head, text, room);
      EmptyText();
      var rest := Fit(text, room - Bytes(head));
      assert Concat(c.stdout) + head + rest == Concat(c.stdout) + (head + rest);
      assert pieces[1..] == [] ==> text == "";
    }
  }

  lemma OverflowHidesRest(head: string, text: string, room: int)
    requires Bytes(head) > room
    ensures Fit(head + text, Max(0, room)) == Fit(head, Max(0, room))
  {
    hide Encode;
    if room >= 0 {
      FitIgnoresRest(head, text, room);
    }
  }

  /**
    However a text is cut into pieces, a consumer ends with the same flag, the same count and the
    same output: the longest whole-character prefix of the text that fits the cap.
   */
  lemma StdoutIsChunkingIndependent(maxBytes: int, pieces: seq<string>)
    requires pieces != [] || maxBytes >= 0
    ensures var c := ConsumeAll(Fresh(maxBytes), StdoutReads(pieces)).0;
            var text := Concat(pieces);
            && (c.limitExceeded <==> Bytes(text) > maxBytes)
            && Concat(c.stdout) == Fit(text, Max(0, maxBytes))
            && c.totalBytes == (if Bytes(text) > maxBytes then Max(0, maxBytes) else Bytes(text))
            && c.stderr == []
  {
    hide LimitMarker, DecodeIgnore, Encode, Fit, Bytes, OnStdout, ConsumeAll;
    StdoutRunFrom(Fresh(maxBytes), pieces);
    EmptyText();
    var text := Concat(pieces);
    assert "" + Fit(text, Max(0, maxBytes)) == Fit(text, Max(0, maxBytes));
  }

  // ---------- Two stacked consumers ----------

  /** What an outer consumer is fed when it inputs the chunks returned by an inner one. */
  function AsReads(log: seq<Chunk>): seq<Read> {
    if log == [] then []
    else if log[0].event == Stdout || log[0].event == Stderr then
      [Read(log[0].event == Stderr, log[0].data)] + AsReads(log[1..])
    else AsReads(log[1..])
  }

  lemma {:induction false} AsReadsSplits(a: seq<Chunk>, b: seq<Chunk>)
    ensures AsReads(a + b) == AsReads(a) + AsReads(b)
  {
    if a == [] {
      assert a + b == b;
    } else {
      assert (a + b)[1..] == a[1..] + b;
      AsReadsSplits(a[1..], b);
    }
  }

  /** The outcome of the outer stage `o` for an inner stage `i` that returned `log`. */
  predicate StagesAgree(i: ConsumerState, log: seq<Chunk>, o: ConsumerState) {
    AgreeAfter(i, OverflowedBy(i, log), o)
  }

  predicate AgreeAfter(i: ConsumerState, over: Option<Event>, o: ConsumerState) {
    match over
    case None =>
      o == i && !i.limitExceeded
    case Some(Stdout) =>
      && o.limitExceeded && o.totalBytes == i.totalBytes && o.stderr == i.stderr
      && 0 <= i.totalBytes - Held(i) <= 3
      && Concat(o.stdout) == Concat(i.stdout) + LimitMarker(i.maxBytes)[..i.totalBytes - Held(i)]
      && Held(o) == Max(0, i.maxBytes)
    case Some(_) =>
      && (o.limitExceeded <==> i.totalBytes + Bytes(STDERR_NOTICE) > i.maxBytes)
      && o.stdout == i.stdout
      && o.stderr == if o.limitExceeded then i.stderr else i.stderr + [STDERR_NOTICE]
  }

  /** The marker starts with characters of one byte each and is longer than any cut character. */
  lemma MarkerHead(maxBytes: int)
    ensures var m := LimitMarker(maxBytes);
            |m| > 3 && m[0] == '\n' && m[1] == '\n' && m[2] == '['
  {
  }

  lemma MarkerPrefix(maxBytes: int, k: nat)
    requires k <= 3
    ensures Bytes(LimitMarker(maxBytes)) > 3
    ensures Fit(LimitMarker(maxBytes), k) == LimitMarker(maxBytes)[..k]
    ensures Bytes(LimitMarker(maxBytes)[..k]) == k
  {
    hide LimitMarker, Encode;
    MarkerHead(maxBytes);
    CharsFitInBytes(LimitMarker(maxBytes));
    NarrowPrefix(LimitMarker(maxBytes), k);
  }

  lemma {:induction false} NarrowPrefix(m: string, k: nat)
    requires k <= |m| && forall i :: 0 <= i < k ==> Width(m[i]) == 1
    ensures Fit(m, k) == m[..k] && Bytes(m[..k]) == k
  {
    hide Encode, Width;
    if k > 0 {
      NarrowPrefix(m[1..], k - 1);
      assert m[..k][1..] == m[1..][..k - 1];
      assert m[..k] == [m[0]] + m[1..][..k - 1];
    } else {
      EmptyText();
      assert m[..0] == "";
      ZeroFit(m);
    }
  }

  lemma ZeroFit(m: string)
    ensures Fit(m, 0) == ""
  {
  }

  /** The outer stage of an overflowing piece of standard output keeps the same piece and some marker. */
  lemma OverflowTwice(c: ConsumerState, text: string)
    requires !c.limitExceeded && c.totalBytes + Bytes(text) > c.maxBytes
    ensures var (i, o) := OnStdout(c, text);
            var room := Max(0, c.maxBytes - c.totalBytes);
            var kept := Fit(text, room);
            var m := LimitMarker(c.maxBytes);
            && 0 <= room - Bytes(kept) <= 3 < |m|
            && o.Some?
            && OnStdout(c, o.value.data).0 == i.(stdout := c.stdout + [kept + m[..room - Bytes(kept)]])
  {
    hide LimitMarker, DecodeIgnore, Encode, Fit, Bytes, OnStdout;
    var room := Max(0, c.maxBytes - c.totalBytes);
    var m := LimitMarker(c.maxBytes);
    var kept := Fit(text, room);
    StdoutOverflows(c, text);
    MarkerHead(c.maxBytes);
    MarkerPrefix(c.maxBytes, room - Bytes(kept));
    EncodeSplits(kept, m);
    FitSplits(kept, m, room);
    StdoutOverflows(c, kept + m);
  }

  /** Hence the two stages agree. */
  lemma OverflowAgrees(c: ConsumerState, text: string)
    requires CountLedger(c) && !c.limitExceeded && c.totalBytes + Bytes(text) > c.maxBytes
    ensures var (i, o) := OnStdout(c, text);
            o.Some? && StagesAgree(i, [o.value], OnStdout(c, o.value.data).0)
  {
    hide LimitMarker, DecodeIgnore, Encode, Fit, Bytes, OnStdout;
    var room := Max(0, c.maxBytes - c.totalBytes);
    var kept := Fit(text, room);
    StdoutOverflows(c, text);
    OverflowTwice(c, text);
    var m := LimitMarker(c.maxBytes);
    var (i, o) := OnStdout(c, text);
    OverflowTail(c, i, OnStdout(c, o.value.data).0, kept, m, room - Bytes(kept));
  }

  lemma OverflowTail(c: ConsumerState, i: ConsumerState, o: ConsumerState, kept: string, m: string, k: nat)
    requires k <= 3 < |m| && m == LimitMarker(c.maxBytes)
    requires i.stdout == c.stdout + [kept] && o.stdout == c.stdout + [kept + m[..k]]
    requires i.stderr == c.stderr && o.stderr == c.stderr
    ensures Held(i) == Held(c) + Bytes(kept) && Held(o) == Held(i) + k
    ensures Concat(o.stdout) == Concat(i.stdout) + m[..k]
  {
    hide LimitMarker, Encode, Fit, Bytes;
    MarkerPrefix(c.maxBytes, k);
    EncodeSplits(kept, m[..k]);
    BytesOfSnoc(c.stdout, kept);
    ConcatSnoc(c.stdout, kept);
    BytesOfSnoc(c.stdout, kept + m[..k]);
    ConcatSnoc(c.stdout, kept + m[..k]);
    assert Concat(c.stdout) + kept + m[..k] == Concat(c.stdout) + (kept + m[..k]);
  }

  /** One call of the inner stage and the call it causes in the outer stage. */
  lemma StageStep(c: ConsumerState, r: Read)
    requires CountLedger(c) && !c.limitExceeded
    ensures var (i, o) := Consume(c, r);
            && o.Some?
            && AsReads([o.value]) == [Read(o.value.event == Stderr, o.value.data)]
            && (i.limitExceeded ==>
                  StagesAgree(i, [o.value], Consume(c, Read(o.value.event == Stderr, o.value.data)).0))
            && (!i.limitExceeded ==>
                  CountLedger(i) && o.value == Chunk(if r.fromStderr then Stderr else Stdout, r.text))
  {
    hide LimitMarker, DecodeIgnore, Encode, Fit, Bytes, TextOf;
    var (i, o) := Consume(c, r);
    assert AsReads([]) == [];
    if i.limitExceeded && !r.fromStderr {
      OverflowAgrees(c, r.text);
    } else {
      BytesOfSnoc(c.stdout, r.text);
      BytesOfSnoc(c.stderr, r.text);
    }
  }

  lemma NothingRead(c: ConsumerState)
    requires !c.limitExceeded
    ensures StagesAgree(c, [], c)
  {
  }

  lemma LastDecides(i: ConsumerState, first: Chunk, rest: seq<Chunk>, o: ConsumerState)
    requires StagesAgree(i, rest, o)
    ensures StagesAgree(i, [first] + rest, o)
  {
    hide LimitMarker, Bytes;
    assert OverflowedBy(i, [first] + rest) == OverflowedBy(i, rest);
  }

  lemma {:induction false} TwoStagesFrom(c: ConsumerState, inputs: seq<Read>)
    requires !c.limitExceeded && CountLedger(c)
    ensures var (i, log) := ConsumeAll(c, inputs);
            StagesAgree(i, log, ConsumeAll(c, AsReads(log)).0)
    decreases inputs
  {
    hide Consume, CountLedger, LimitMarker, Bytes, StagesAgree;
    if inputs == [] {
      NothingRead(c);
    } else {
      var (c1, o) := Consume(c, inputs[0]);
      var (i, rest) := ConsumeAll(c1, inputs[1..]);
      StageStep(c, inputs[0]);
      var r := Read(o.value.event == Stderr, o.value.data);
      AsReadsSplits([o.value], rest);
      assert ([r] + AsReads(rest))[1..] == AsReads(rest);
      if c1.limitExceeded {
        FullConsumerIsInert(c1, inputs[1..]);
        assert Emitted(o) + rest == [o.value];
        assert AsReads([o.value])[1..] == [];
      } else {
        assert r == inputs[0];
        TwoStagesFrom(c1, inputs[1..]);
        LastDecides(i, o.value, rest, ConsumeAll(c1, AsReads(rest)).0);
      }
    }
  }

  /**
    Two consumers with one cap, the second fed with the chunks of the first. When standard output
    overflows, the second one overflows too and holds the first one's text plus at most 3 bytes of
    the marker, exactly at the cap; when standard error overflows, the second one notices it exactly
    when the notice itself does not fit.
   */
  lemma TwoStages(maxBytes: int, inputs: seq<Read>)
    ensures var (i, log) := ConsumeAll(Fresh(maxBytes), inputs);
            StagesAgree(i, log, ConsumeAll(Fresh(maxBytes), AsReads(log)).0)
  {
    TwoStagesFrom(Fresh(maxBytes), inputs);
  }

  lemma ConsumeOne(c: ConsumerState, input: Read)
    ensures ConsumeAll(c, [input]) == (Consume(c, input).0, Emitted(Consume(c, input).1))
  {
    hide Consume;
    assert [input][1..] == [];
    var (c1, o) := Consume(c, input);
    assert Emitted(o) + [] == Emitted(o);
  }

  lemma DroppedPiece(maxBytes: int, text: string)
    requires Bytes(text) > maxBytes
    ensures var (c, o) := Consume(Fresh(maxBytes), Read(true, text));
            c.limitExceeded && o == Some(Chunk(Stderr, STDERR_NOTICE))
  {
    hide Bytes;
  }

  lemma KeptPiece(maxBytes: int, text: string)
    requires Bytes(text) <= maxBytes
    ensures !Consume(Fresh(maxBytes), Read(true, text)).0.limitExceeded
  {
    hide Bytes;
  }

  lemma NoticeAsRead(notice: string)
    ensures AsReads([Chunk(Stderr, notice)]) == [Read(true, notice)]
  {
  }

  /**
    A concrete disagreement: one piece of standard error, a byte longer than the notice, under a cap the
    notice fits.
   */
  lemma StackedStderrDisagrees()
    ensures var maxBytes := Bytes(STDERR_NOTICE);
            var (inner, log) := ConsumeAll(Fresh(maxBytes), [Read(true, STDERR_NOTICE + "x")]);
            inner.limitExceeded && !ConsumeAll(Fresh(maxBytes), AsReads(log)).0.limitExceeded
  {
    LongerThan(STDERR_NOTICE);
    hide Bytes, Consume, ConsumeAll, AsReads;
    var maxBytes := Bytes(STDERR_NOTICE);
    var input := Read(true, STDERR_NOTICE + "x");
    DroppedPiece(maxBytes, STDERR_NOTICE + "x");
    ConsumeOne(Fresh(maxBytes), input);
    NoticeAsRead(STDERR_NOTICE);
    KeptPiece(maxBytes, STDERR_NOTICE);
    ConsumeOne(Fresh(maxBytes), Read(true, STDERR_NOTICE));
  }

  lemma LongerThan(s: string)
    ensures Bytes(s + "x") > Bytes(s)
  {
    EncodeSplits(s, "x");
  }

  /** Nothing read from standard error, nothing of it in the chunks. */
  lemma {:induction false} StdoutLog(c: ConsumerState, inputs: seq<Read>)
    requires forall i :: 0 <= i < |inputs| ==> !inputs[i].fromStderr
    ensures forall x :: x in ConsumeAll(c, inputs).1 ==> x.event == Stdout
    decreases inputs
  {
    hide DecodeIgnore, LimitMarker;
    if inputs != [] {
      StdoutLog(Consume(c, inputs[0]).0, inputs[1..]);
    }
  }

  // ---------- When a consumer is full ----------

  /** Bytes of everything that was handed to a consumer, taken or not. */
  function TotalBytes(inputs: seq<Read>): nat {
    if inputs == [] then 0 else Bytes(inputs[0].text) + TotalBytes(inputs[1..])
  }

  /** More has been handed to a consumer than its cap allows. */
  predicate OverCap(maxBytes: int, inputs: seq<Read>) {
    inputs != [] && TotalBytes(inputs) > maxBytes
  }

  lemma OneMoreInput(c: ConsumerState, r: Read)
    requires !c.limitExceeded
    ensures var c' := Consume(c, r).0;
            && c'.maxBytes == c.maxBytes
            && (c'.limitExceeded <==> c.totalBytes + Bytes(r.text) > c.maxBytes)
            && (!c'.limitExceeded ==> c'.totalBytes == c.totalBytes + Bytes(r.text))
  {
    hide Bytes, Encode, DecodeIgnore, LimitMarker;
  }

  lemma {:induction false} FullFromIff(c: ConsumerState, inputs: seq<Read>)
    requires !c.limitExceeded
    ensures ConsumeAll(c, inputs).0.limitExceeded <==> inputs != [] && c.totalBytes + TotalBytes(inputs) > c.maxBytes
    decreases inputs
  {
    hide Consume, Bytes;
    if inputs != [] {
      OneMoreInput(c, inputs[0]);
      var c1 := Consume(c, inputs[0]).0;
      if c1.limitExceeded {
        FullConsumerIsInert(c1, inputs[1..]);
      } else {
        FullFromIff(c1, inputs[1..]);
      }
    }
  }

  /** For any mix of both streams the flag is raised exactly when all the text together is over the cap. */
  lemma FullIffOverCap(maxBytes: int, inputs: seq<Read>)
    ensures ConsumeAll(Fresh(maxBytes), inputs).0.limitExceeded <==> OverCap(maxBytes, inputs)
  {
    FullFromIff(Fresh(maxBytes), inputs);
  }

  // ---------- The number in the marker ----------

  /** The number that decimal digits stand for. */
  function NumberOf(digits: string): nat
    requires forall i :: 0 <= i < |digits| ==> '0' <= digits[i] <= '9'
  {
    if digits == "" then 0
    else 10 * NumberOf(digits[..|digits| - 1]) + (digits[|digits| - 1] as nat - '0' as nat)
  }

  /** The digits of a number are read back as that number, and do not start with a needless zero. */
  lemma {:induction false} DigitsReadBack(n: nat)
    ensures forall i :: 0 <= i < |Digits(n)| ==> '0' <= Digits(n)[i] <= '9'
    ensures NumberOf(Digits(n)) == n
    ensures |Digits(n)| >= 1 && (n > 0 ==> Digits(n)[0] != '0')
  {
    var d := n % 10;
    var last := "0123456789"[d];
    assert last as nat - '0' as nat == d;
    if n >= 10 {
      DigitsReadBack(n / 10);
      assert Digits(n)[..|Digits(n)| - 1] == Digits(n / 10);
    } else {
      assert Digits(n) == [last];
      assert Digits(n)[..0] == "";
    }
  }

  /** The marker names the cap, with a sign exactly if it is negative. */
  lemma MarkerNamesCap(maxBytes: int)
    ensures var size := if maxBytes < 0 then -maxBytes else maxBytes;
            && LimitMarker(maxBytes)
               == "\n\n[SYSTEM: Output limit of " + ((if maxBytes < 0 then "-" else "") + Digits(size))
                  + " bytes exceeded. Stream terminated.]"
            && (forall i :: 0 <= i < |Digits(size)| ==> '0' <= Digits(size)[i] <= '9')
            && NumberOf(Digits(size)) == size
  {
    var size := if maxBytes < 0 then -maxBytes else maxBytes;
    DigitsReadBack(size);
    hide Digits, NumberOf;
    assert "" + Digits(size) == Digits(size);
  }
}
