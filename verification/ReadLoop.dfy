/**
 The read loop of server::AsioConnection: framing messages out of arbitrary socket reads.
 */
module ReadLoop {
  import opened Octets
  import opened Prefixes
  import opened Messages
  import opened Machine
  import opened Soundness
  import opened Encoding
  import G = Grammar
  import opened Recognition
  import opened Completion
  import opened RoundTrip
  import opened Parser

  /** After some octets: where the parser is, what observers were told, whether an octet was rejected. */
  datatype Progress = Progress(config: Config, notified: seq<MessageValue>, invalid: bool)
  {
    /** This progress, then `more`. */
    function Then(more: Progress): Progress {
      more.(notified := notified + more.notified)
    }
  }

  /** One read: messages are notified as they complete; the rest of the read is dropped after a rejection. */
  ghost function Read(isAddress: AddressTest, g: Config, t: Text): Progress
    decreases |t|
  {
    if t == [] then Progress(g, [], false)
    else
      var r := Run(isAddress, g, t);
      match r.state
      case Incomplete => Progress(r.config, [], false)
      case Invalid => Progress(r.config, [], true)
      case Complete =>
        Progress(r.config, [r.config.message], false).Then(Read(isAddress, INITIAL, t[r.taken..]))
  }

  /** Successive reads, up to the first rejection. */
  ghost function ReadUntilInvalid(isAddress: AddressTest, g: Config, chunks: seq<Text>): Progress
    decreases |chunks|
  {
    if chunks == [] then Progress(g, [], false)
    else
      var p := Read(isAddress, g, chunks[0]);
      if p.invalid then p else p.Then(ReadUntilInvalid(isAddress, p.config, chunks[1..]))
  }

  /** Successive reads as the loop makes them: it goes on after a rejection, from where the parser stuck. */
  ghost function Serve(isAddress: AddressTest, g: Config, chunks: seq<Text>): Progress
    decreases |chunks|
  {
    if chunks == [] then Progress(g, [], false)
    else
      var p := Read(isAddress, g, chunks[0]);
      var rest := Serve(isAddress, p.config, chunks[1..]);
      p.Then(rest.(invalid := p.invalid || rest.invalid))
  }

  lemma ReadIncomplete(isAddress: AddressTest, g: Config, s: Text, t: Text)
    requires Run(isAddress, g, s).state == Incomplete
    ensures Read(isAddress, g, s + t) == Read(isAddress, Run(isAddress, g, s).config, t)
  {
    var h := Run(isAddress, g, s).config;
    RunConcat(isAddress, g, s, t);
    if t == [] {
      assert s + t == s;
    } else {
      var r := Run(isAddress, h, t);
      assert (s + t)[|s| + r.taken..] == t[r.taken..];
    }
  }

  lemma {:induction false} ReadConcat(isAddress: AddressTest, g: Config, s: Text, t: Text)
    ensures var p := Read(isAddress, g, s);
            Read(isAddress, g, s + t) == if p.invalid then p else p.Then(Read(isAddress, p.config, t))
    decreases |s|
  {
    var p := Read(isAddress, g, s);
    var r := Run(isAddress, g, s);
    if s == [] {
      assert s + t == t;
    } else if r.state == Incomplete {
      ReadIncomplete(isAddress, g, s, t);
    } else {
      RunConcat(isAddress, g, s, t);
      if r.state == Complete {
        assert (s + t)[r.taken..] == s[r.taken..] + t;
        ReadConcat(isAddress, INITIAL, s[r.taken..], t);
        var q := Read(isAddress, INITIAL, s[r.taken..]);
        Assoc([r.config.message], q.notified, Read(isAddress, q.config, t).notified);
      }
    }
  }

  /** However a stream is cut into reads, the same messages are notified up to the first rejected octet. */
  lemma {:induction false} StreamChunking(isAddress: AddressTest, g: Config, chunks: seq<Text>)
    ensures ReadUntilInvalid(isAddress, g, chunks) == Read(isAddress, g, Flatten(chunks))
    decreases |chunks|
  {
    if chunks != [] {
      var p := Read(isAddress, g, chunks[0]);
      ReadConcat(isAddress, g, chunks[0], Flatten(chunks[1..]));
      StreamChunking(isAddress, p.config, chunks[1..]);
    }
  }

  /** The loop agrees with the bounded account as long as nothing was rejected. */
  lemma {:induction false} ServeAgrees(isAddress: AddressTest, g: Config, chunks: seq<Text>)
    ensures var served, bounded := Serve(isAddress, g, chunks), ReadUntilInvalid(isAddress, g, chunks);
            && bounded.notified <= served.notified
            && served.invalid == bounded.invalid
            && (!bounded.invalid ==> served == bounded)
    decreases |chunks|
  {
    if chunks != [] {
      ServeAgrees(isAddress, Read(isAddress, g, chunks[0]).config, chunks[1..]);
    }
  }

  // ---- Framing ----

  function EncodeAll(ms: seq<MessageValue>): Text {
    if ms == [] then [] else EncodeAll(ms[..|ms| - 1]) + Encode(ms[|ms| - 1])
  }

  ghost predicate AllWellFormed(isAddress: AddressTest, ms: seq<MessageValue>) {
    forall i :: 0 <= i < |ms| ==> WellFormed(isAddress, ms[i])
  }

  lemma ReadOne(isAddress: AddressTest, m: MessageValue)
    requires WellFormed(isAddress, m)
    ensures Read(isAddress, INITIAL, Encode(m)) == Progress(INITIAL, [m], false)
  {
    WellFormedRoundTrips(isAddress, m);
    assert Encode(m)[|Encode(m)|..] == [];
  }

  lemma ReadOneMore(isAddress: AddressTest, s: Text, ms: seq<MessageValue>, t: Text, m: MessageValue)
    requires Read(isAddress, INITIAL, s) == Progress(INITIAL, ms, false)
    requires Read(isAddress, INITIAL, t) == Progress(INITIAL, [m], false)
    ensures Read(isAddress, INITIAL, s + t) == Progress(INITIAL, ms + [m], false)
  {
    ReadConcat(isAddress, INITIAL, s, t);
  }

  lemma AllButLast(isAddress: AddressTest, ms: seq<MessageValue>)
    requires AllWellFormed(isAddress, ms) && ms != []
    ensures AllWellFormed(isAddress, ms[..|ms| - 1]) && WellFormed(isAddress, ms[|ms| - 1])
    ensures ms[..|ms| - 1] + [ms[|ms| - 1]] == ms
  {
  }

  lemma {:induction false} ReadEncoded(isAddress: AddressTest, ms: seq<MessageValue>)
    requires AllWellFormed(isAddress, ms)
    ensures Read(isAddress, INITIAL, EncodeAll(ms)) == Progress(INITIAL, ms, false)
  {
    if ms != [] {
      var n := |ms| - 1;
      AllButLast(isAddress, ms);
      ReadEncoded(isAddress, ms[..n]);
      ReadOne(isAddress, ms[n]);
      ReadOneMore(isAddress, EncodeAll(ms[..n]), ms[..n], Encode(ms[n]), ms[n]);
    }
  }

  /** Any list of well-formed messages, cut into reads anyhow, is notified exactly and in order, and leaves
      a reset parser and an empty message. */
  lemma Framing(isAddress: AddressTest, ms: seq<MessageValue>, chunks: seq<Text>)
    requires AllWellFormed(isAddress, ms) && Flatten(chunks) == EncodeAll(ms)
    ensures Serve(isAddress, INITIAL, chunks) == Progress(INITIAL, ms, false)
  {
    ReadEncoded(isAddress, ms);
    StreamChunking(isAddress, INITIAL, chunks);
    ServeAgrees(isAddress, INITIAL, chunks);
  }

  /** In the middle of a message, exactly the messages before it have been notified. */
  lemma PromptDelivery(isAddress: AddressTest, ms: seq<MessageValue>, m: MessageValue, k: nat, chunks: seq<Text>)
    requires AllWellFormed(isAddress, ms) && WellFormed(isAddress, m) && k < |Encode(m)|
    requires Flatten(chunks) == EncodeAll(ms) + Encode(m)[..k]
    ensures var p := Serve(isAddress, INITIAL, chunks); p.notified == ms && !p.invalid
  {
    ReadEncoded(isAddress, ms);
    IncompleteUntilTheEnd(isAddress, m, k);
    ReadConcat(isAddress, INITIAL, EncodeAll(ms), Encode(m)[..k]);
    StreamChunking(isAddress, INITIAL, chunks);
    ServeAgrees(isAddress, INITIAL, chunks);
  }

  // ---- Framing any lines ----

  function PrintAll(lines: seq<G.Line>): Text {
    if lines == [] then [] else G.Print(lines[0]) + PrintAll(lines[1..])
  }

  function Meanings(lines: seq<G.Line>): seq<MessageValue> {
    if lines == [] then [] else [G.Meaning(lines[0])] + Meanings(lines[1..])
  }

  ghost predicate AllLegal(isAddress: AddressTest, lines: seq<G.Line>) {
    forall i :: 0 <= i < |lines| ==> G.Legal(isAddress, lines[i])
  }

  lemma ReadLine(isAddress: AddressTest, line: G.Line)
    requires G.Legal(isAddress, line)
    ensures Read(isAddress, INITIAL, G.Print(line)) == Progress(INITIAL, [G.Meaning(line)], false)
  {
    LinesComplete(isAddress, line);
    var t := G.Print(line);
    assert t[|t|..] == [];
  }

  lemma {:induction false} ReadLines(isAddress: AddressTest, lines: seq<G.Line>)
    requires AllLegal(isAddress, lines)
    ensures Read(isAddress, INITIAL, PrintAll(lines)) == Progress(INITIAL, Meanings(lines), false)
    decreases |lines|
  {
    if lines != [] {
      ReadLine(isAddress, lines[0]);
      ReadLines(isAddress, lines[1..]);
      ReadConcat(isAddress, INITIAL, G.Print(lines[0]), PrintAll(lines[1..]));
    }
  }

  /** Any legal lines, canonical or not, cut into reads anyhow, are notified as their meanings. */
  lemma LineFraming(isAddress: AddressTest, lines: seq<G.Line>, chunks: seq<Text>)
    requires AllLegal(isAddress, lines) && Flatten(chunks) == PrintAll(lines)
    ensures Serve(isAddress, INITIAL, chunks) == Progress(INITIAL, Meanings(lines), false)
  {
    ReadLines(isAddress, lines);
    StreamChunking(isAddress, INITIAL, chunks);
    ServeAgrees(isAddress, INITIAL, chunks);
  }

  lemma LinesOneMore(isAddress: AddressTest, line: G.Line, rest: seq<G.Line>)
    requires G.Legal(isAddress, line) && AllLegal(isAddress, rest)
    ensures var lines := [line] + rest;
            && AllLegal(isAddress, lines)
            && PrintAll(lines) == G.Print(line) + PrintAll(rest)
            && Meanings(lines) == [G.Meaning(line)] + Meanings(rest)
  {
    assert ([line] + rest)[1..] == rest;
  }

  lemma StartsOn<T>(t: seq<T>, k: nat, s: seq<T>)
    requires k <= |t| && s <= t[k..]
    ensures t[..k] + s <= t
  {
    assert t == t[..k] + t[k..];
  }

  /** What is notified while reading `t` is the meaning of legal lines that stand at its start, one after the other. */
  lemma {:induction false} NotifiedAreLines(isAddress: AddressTest, t: Text) returns (lines: seq<G.Line>)
    ensures AllLegal(isAddress, lines) && PrintAll(lines) <= t
    ensures Meanings(lines) == Read(isAddress, INITIAL, t).notified
    decreases |t|
  {
    var r := Run(isAddress, INITIAL, t);
    if t == [] || r.state != Complete {
      lines := [];
    } else {
      var line := CompletesOnLines(isAddress, t);
      var rest := NotifiedAreLines(isAddress, t[r.taken..]);
      lines := [line] + rest;
      LinesOneMore(isAddress, line, rest);
      StartsOn(t, r.taken, PrintAll(rest));
    }
  }

  /** Legal lines at the start of a text are notified, whatever comes after them. */
  lemma LinesAreNotified(isAddress: AddressTest, lines: seq<G.Line>, t: Text)
    requires AllLegal(isAddress, lines) && PrintAll(lines) <= t
    ensures Meanings(lines) <= Read(isAddress, INITIAL, t).notified
  {
    var rest := t[|PrintAll(lines)|..];
    assert t == PrintAll(lines) + rest;
    LinesThenRest(isAddress, lines, rest);
    Begins(Meanings(lines), Read(isAddress, INITIAL, rest).notified);
  }

  lemma LinesThenRest(isAddress: AddressTest, lines: seq<G.Line>, rest: Text)
    requires AllLegal(isAddress, lines)
    ensures Read(isAddress, INITIAL, PrintAll(lines) + rest).notified ==
            Meanings(lines) + Read(isAddress, INITIAL, rest).notified
  {
    ReadLines(isAddress, lines);
    ReadConcat(isAddress, INITIAL, PrintAll(lines), rest);
  }

  lemma Begins<T>(s: seq<T>, t: seq<T>)
    ensures s <= s + t
  {
  }

  /** Up to the first rejected octet, the loop notifies the meanings of legal lines that stand at the start of the
      stream, and of all of them. */
  lemma StreamIsLines(isAddress: AddressTest, chunks: seq<Text>) returns (lines: seq<G.Line>)
    ensures AllLegal(isAddress, lines) && PrintAll(lines) <= Flatten(chunks)
    ensures Meanings(lines) == ReadUntilInvalid(isAddress, INITIAL, chunks).notified
    ensures forall others :: AllLegal(isAddress, others) && PrintAll(others) <= Flatten(chunks) ==>
                             Meanings(others) <= Meanings(lines)
  {
    StreamChunking(isAddress, INITIAL, chunks);
    lines := NotifiedAreLines(isAddress, Flatten(chunks));
    forall others | AllLegal(isAddress, others) && PrintAll(others) <= Flatten(chunks)
      ensures Meanings(others) <= Meanings(lines)
    {
      LinesAreNotified(isAddress, others, Flatten(chunks));
    }
  }

  // ---- The connection ----

  class AsioConnection {
    const parser: MessageParser
    const message: Message
    /** What `NotifyMessage` has been called with. */
    var notified: seq<MessageValue>

    ghost function View(): Config
      reads this, parser, message
    {
      parser.View(message)
    }

    constructor (isAddress: AddressTest)
      ensures parser.isAddress == isAddress && View() == INITIAL && notified == []
    {
      parser := new MessageParser(isAddress);
      message := new Message();
      notified := [];
    }

    method NotifyMessage()
      modifies this`notified
      ensures notified == old(notified) + [message.View()]
    {
      notified := notified + [MessageValue(message.prefix, message.command, message.params, message.tags)];
    }

    /** The inner loop, over the octets of one read. */
    method HandleRead(chunk: Text)
      modifies this`notified, parser, message
      ensures var p := Read(parser.isAddress, old(View()), chunk);
              View() == p.config && notified == old(notified) + p.notified
    {
      ghost var whole := Read(parser.isAddress, View(), chunk);
      var pos := 0;
      while pos != |chunk|
        invariant pos <= |chunk|
        invariant var rest := Read(parser.isAddress, View(), chunk[pos..]);
                  rest.config == whole.config && notified + rest.notified == old(notified) + whole.notified
        decreases |chunk| - pos
      {
        ghost var g, before := View(), notified;
        ghost var remaining := chunk[pos..];
        var answer, next := parser.Parse(message, chunk, pos);
        if answer == Complete {
          NotifyMessage();
          ghost var told := message.View();
          message.Clear();
          parser.Reset();
          assert remaining[next - pos..] == chunk[next..];
          Assoc(before, [told], Read(parser.isAddress, INITIAL, chunk[next..]).notified);
          pos := next;
        } else if answer == Invalid {
          break;
        } else {
          assert next == |chunk|;
          break;
        }
      }
    }

    method RunReadLoop(chunks: seq<Text>)
      modifies this`notified, parser, message
      ensures var p := Serve(parser.isAddress, old(View()), chunks);
              View() == p.config && notified == old(notified) + p.notified
      ensures forall ms :: && old(View()) == INITIAL
                           && AllWellFormed(parser.isAddress, ms) && Flatten(chunks) == EncodeAll(ms)
                           ==> notified == old(notified) + ms && View() == INITIAL
    {
      ghost var whole := Serve(parser.isAddress, View(), chunks);
      for i := 0 to |chunks|
        invariant var rest := Serve(parser.isAddress, View(), chunks[i..]);
                  rest.config == whole.config && notified + rest.notified == old(notified) + whole.notified
      {
        assert chunks[i..][1..] == chunks[i + 1..];
        ghost var p := Read(parser.isAddress, View(), chunks[i]);
        Assoc(notified, p.notified, Serve(parser.isAddress, p.config, chunks[i + 1..]).notified);
        HandleRead(chunks[i]);
      }
      forall ms | old(View()) == INITIAL && AllWellFormed(parser.isAddress, ms) && Flatten(chunks) == EncodeAll(ms)
        ensures whole == Progress(INITIAL, ms, false)
      {
        Framing(parser.isAddress, ms, chunks);
      }
    }
  }
}
