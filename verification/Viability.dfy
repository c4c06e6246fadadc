/**
 The parser rejects an octet as soon as no line could go on with it, except inside a prefix: there it takes
 whatever consists of prefix characters, and looks at the whole only when the prefix ends.
 */
module Viability {
  import opened Collections
  import opened Octets
  import opened Hostname
  import opened Prefixes
  import opened PrefixStarts
  import opened LinkedMaps
  import opened Messages
  import opened Machine
  import opened Soundness
  import opened Grammar
  import opened Recognition
  import opened Completion

  const ZERO: Octet := 0x30

  /** Enough zeros to make three digits. */
  function Digits(command: Text): Text {
    if All(Letter, command) then [] else if |command| == 1 then [ZERO, ZERO] else if |command| == 2 then [ZERO] else []
  }

  /** A way to finish a draft. */
  function Finish(d: Draft): Line {
    match d
    case InStart => Line(Head(NoTags, None, [A]), [], NoTail)
    case InTags(items, last) => Line(Head(Tags(items, last, []), None, [A]), [], NoTail)
    case InPad(tags) => Line(Head(tags, None, [A]), [], NoTail)
    case InPrefix(tags, p) => Line(Head(tags, Some(p), [A]), [], NoTail)
    case BeforeCommand(tags, p) => Line(Head(tags, Some(p), [A]), [], NoTail)
    case InCommand(h) => Line(h.(command := h.command + Digits(h.command)), [], NoTail)
    case InGap(h, words, gap) => Line(h, words, Gap(gap))
    case InWord(h, words, gap, text) => Line(h, words + [Word(gap, text)], NoTail)
    case InTrailing(h, words, gap, text) => Line(h, words, Marked(gap, text))
    case AtCr(line) => line
    case AtEnd(line) => line
  }

  lemma DigitsFinish(command: Text)
    requires command != [] && (All(Letter, command) || (All(Digit, command) && |command| <= 3))
    ensures CommandOk(command + Digits(command))
  {
    AllConcat(Letter, command, Digits(command));
    AllConcat(Digit, command, Digits(command));
  }

  lemma FinishLegal(isAddress: AddressTest, d: Draft)
    requires DraftOk(isAddress, d) && !d.InPrefix?
    ensures Legal(isAddress, Finish(d))
  {
    match d {
      case InCommand(h) => DigitsFinish(h.command);
      case InWord(_, words, gap, text) => WordsGrow(words, Word(gap, text));
      case _ => FirstOfCommand(A);
    }
  }

  /** `s` begins `t`. */
  lemma Begins<T>(s: seq<T>, u: seq<T>, t: seq<T>)
    requires s + u == t
    ensures s <= t
  {
  }

  lemma BodyBegins(line: Line)
    ensures BodyText(line) <= Print(line) && BodyText(line) + [CR] <= Print(line)
    ensures HeadText(line.head) <= Print(line)
  {
    var rest := WordsText(line.words) + TailText(line.tail);
    Assoc(HeadText(line.head), WordsText(line.words), TailText(line.tail));
    Assoc(HeadText(line.head), rest, [CR]);
    Assoc(HeadText(line.head), rest + [CR], [LF]);
    Begins(HeadText(line.head), rest + [CR] + [LF], Print(line));
    Assoc(BodyText(line), [CR], [LF]);
    Begins(BodyText(line), [CR] + [LF], Print(line));
  }

  lemma Transitive<T>(s: seq<T>, t: seq<T>, u: seq<T>)
    requires s <= t <= u
    ensures s <= u
  {
  }

  /** A draft that ends in its head begins the finished head. */
  lemma HeadGrows(d: Draft)
    requires d.InStart? || d.InTags? || d.InPad? || d.BeforeCommand? || d.InCommand?
    ensures DraftText(d) <= HeadText(Finish(d).head)
  {
    var h := Finish(d).head;
    match d {
      case InTags(items, last) =>
        Assoc(TagsText(h.tags), PrefixText(h.prefix), h.command);
        NothingMore(DraftText(d) + [SPACE]);
        Begins(DraftText(d), [SPACE], TagsText(h.tags));
      case InCommand(head) =>
        Assoc(TagsText(h.tags) + PrefixText(h.prefix), head.command, Digits(head.command));
      case InPad(_) => NothingMore(TagsText(h.tags));
      case _ =>
    }
  }

  lemma FinishBegins(d: Draft)
    requires !d.InPrefix?
    ensures DraftText(d) <= Print(Finish(d))
  {
    var line := Finish(d);
    BodyBegins(line);
    match d {
      case InGap(_, _, _) => Transitive(DraftText(d), BodyText(line), Print(line));
      case InWord(h, words, gap, text) =>
        WordJoins(words, Word(gap, text));
        Assoc(HeadText(h), WordsText(words), WordText(Word(gap, text)));
        NothingMore(DraftText(d));
      case InTrailing(_, _, _, _) => Transitive(DraftText(d), BodyText(line), Print(line));
      case AtCr(_) =>
      case AtEnd(_) =>
      case _ => HeadGrows(d); Transitive(DraftText(d), HeadText(line.head), Print(line));
    }
  }

  /** Some legal line begins with `t`, or is the beginning of it. */
  ghost predicate Hopeful(isAddress: AddressTest, t: Text) {
    exists line :: Legal(isAddress, line) && (t <= Print(line) || Print(line) <= t)
  }

  /** A draft that ends in a prefix begins every line with a longer prefix. */
  lemma PrefixBegins(tags: Tags, p: Text, q: Text)
    ensures DraftText(InPrefix(tags, p)) <= Print(Finish(BeforeCommand(tags, p + q)))
  {
    var d := BeforeCommand(tags, p + q);
    var text := TagsText(tags);
    Flat([COLON], p, q, [SPACE]);
    Assoc(text, [COLON] + p, q + [SPACE]);
    Begins(text + ([COLON] + p), q + [SPACE], DraftText(d));
    FinishBegins(d);
    Transitive(text + ([COLON] + p), DraftText(d), Print(Finish(d)));
  }

  lemma DraftIsHopeful(isAddress: AddressTest, d: Draft)
    requires DraftOk(isAddress, d) && (d.InPrefix? ==> CanBePrefix(isAddress, d.p))
    ensures Hopeful(isAddress, DraftText(d))
  {
    if d.InPrefix? {
      var q :| PrefixOk(isAddress, d.p + q);
      FinishLegal(isAddress, BeforeCommand(d.tags, d.p + q));
      PrefixBegins(d.tags, d.p, q);
    } else {
      FinishLegal(isAddress, d);
      FinishBegins(d);
    }
  }

  lemma AcceptedIsHopeful(isAddress: AddressTest, t: Text)
    requires var r := Run(isAddress, INITIAL, t);
             r.state != Invalid && (r.config.phase == Prefix ==> CanBePrefix(isAddress, r.config.buffer))
    ensures Hopeful(isAddress, t)
  {
    var r := Run(isAddress, INITIAL, t);
    if r.state == Complete {
      var line := CompletesOnLines(isAddress, t);
      assert Print(line) <= t;
    } else {
      var d := RunDraft(isAddress, InStart, [], INITIAL, t);
      NothingMore(t[..r.taken]);
      assert t[..r.taken] == t;
      DraftIsHopeful(isAddress, d);
    }
  }

  /** A run that completes from inside a prefix has found a legal one. */
  lemma {:induction false} CompletesItsPrefix(isAddress: AddressTest, p: Text, m: MessageValue,
                                              u: Text) returns (q: Text)
    requires All(PrefixChar, p) && Run(isAddress, Config(Prefix, p, m), u).state == Complete
    ensures PrefixOk(isAddress, p + q)
    decreases u
  {
    var c := u[0];
    if IsPrefixChar(c) {
      AllConcat(PrefixChar, p, [c]);
      var rest := CompletesItsPrefix(isAddress, p + [c], m, u[1..]);
      q := [c] + rest;
      Assoc(p, [c], rest);
    } else {
      q := [];
      NothingMore(p);
    }
  }

  /** What begins with a legal line completes. */
  lemma LongerCompletes(isAddress: AddressTest, t: Text, line: Line)
    requires Legal(isAddress, line) && Print(line) <= t
    ensures Run(isAddress, INITIAL, t).state == Complete
  {
    var p := Print(line);
    LinesComplete(isAddress, line);
    RunConcat(isAddress, INITIAL, p, t[|p|..]);
    assert p + t[|p|..] == t;
  }

  /** What begins a legal line is not rejected, and the rest completes it from there. */
  lemma ShorterGoesOn(isAddress: AddressTest, t: Text, u: Text, line: Line)
    requires Legal(isAddress, line) && t + u == Print(line)
    ensures var r := Run(isAddress, INITIAL, t);
            r.state != Invalid && (r.state == Incomplete ==> Run(isAddress, r.config, u).state == Complete)
  {
    LinesComplete(isAddress, line);
    RunConcat(isAddress, INITIAL, t, u);
  }

  /** A text that stops inside a prefix, and begins a legal line, stops inside the beginning of a legal prefix. */
  lemma HopefulPrefix(isAddress: AddressTest, t: Text, u: Text, line: Line)
    requires Legal(isAddress, line) && t + u == Print(line)
    requires var r := Run(isAddress, INITIAL, t); r.state == Incomplete && r.config.phase == Prefix
    ensures CanBePrefix(isAddress, Run(isAddress, INITIAL, t).config.buffer)
  {
    var g := Run(isAddress, INITIAL, t).config;
    ShorterGoesOn(isAddress, t, u, line);
    RunValid(isAddress, INITIAL, t);
    var q := CompletesItsPrefix(isAddress, g.buffer, g.message, u);
  }

  lemma HopefulIsAccepted(isAddress: AddressTest, t: Text, line: Line)
    requires Legal(isAddress, line) && (t <= Print(line) || Print(line) <= t)
    ensures var r := Run(isAddress, INITIAL, t);
            && r.state != Invalid
            && (r.state == Incomplete && r.config.phase == Prefix ==> CanBePrefix(isAddress, r.config.buffer))
  {
    if Print(line) <= t {
      LongerCompletes(isAddress, t, line);
    } else {
      var u := Print(line)[|t|..];
      assert t + u == Print(line);
      ShorterGoesOn(isAddress, t, u, line);
      var r := Run(isAddress, INITIAL, t);
      if r.state == Incomplete && r.config.phase == Prefix {
        HopefulPrefix(isAddress, t, u, line);
      }
    }
  }

  /** For every text: some legal line agrees with it exactly when it is not rejected and, if it stops inside a
      prefix, what has been read of the prefix is the beginning of a legal one. */
  lemma RejectsExactlyTheHopeless(isAddress: AddressTest, t: Text)
    ensures var r := Run(isAddress, INITIAL, t);
            Hopeful(isAddress, t) <==>
            && r.state != Invalid
            && (r.state == Incomplete && r.config.phase == Prefix ==> CanBePrefix(isAddress, r.config.buffer))
  {
    var r := Run(isAddress, INITIAL, t);
    RunValid(isAddress, INITIAL, t);
    if r.state != Invalid && (r.config.phase == Prefix ==> CanBePrefix(isAddress, r.config.buffer)) {
      AcceptedIsHopeful(isAddress, t);
    }
    if line :| Legal(isAddress, line) && (t <= Print(line) || Print(line) <= t) {
      HopefulIsAccepted(isAddress, t, line);
    }
  }

  ghost predicate StopsInPrefix(isAddress: AddressTest, t: Text, p: Text) {
    var r := Run(isAddress, INITIAL, t);
    r.state == Incomplete && r.config.phase == Prefix && r.config.buffer == p
  }

  ghost predicate EndsInPrefix(t: Text, tags: Tags, p: Text) {
    TagsLegal(tags) && All(PrefixChar, p) && t == TagsText(tags) + ([COLON] + p)
  }

  lemma PrefixDraftStops(isAddress: AddressTest, t: Text, tags: Tags, p: Text)
    requires EndsInPrefix(t, tags, p)
    ensures StopsInPrefix(isAddress, t, p)
  {
    TagsLead(isAddress, tags);
    PrefixOpens(isAddress, tags, p);
    LeadsOn(isAddress, INITIAL, TagsText(tags), AfterTagsText(tags), [COLON] + p, InsidePrefix(tags, p));
  }

  /** The texts that stop inside a prefix: legal tags or none, a colon, and prefix characters. */
  lemma StopsInPrefixExactly(isAddress: AddressTest, t: Text, p: Text)
    ensures StopsInPrefix(isAddress, t, p) <==> exists tags :: EndsInPrefix(t, tags, p)
  {
    if StopsInPrefix(isAddress, t, p) {
      var d := RunDraft(isAddress, InStart, [], INITIAL, t);
      NothingMore(t);
      assert t[..|t|] == t;
      assert EndsInPrefix(t, d.tags, p);
    }
    if tags :| EndsInPrefix(t, tags, p) {
      PrefixDraftStops(isAddress, t, tags, p);
    }
  }

  /** A prefix begins with a letter, a digit or a special character. */
  lemma PrefixStart(isAddress: AddressTest, p: Text)
    requires IsPrefix(isAddress, p)
    ensures p != [] && p[0] != BANG
  {
    var shape: Shape :| shape.Legal(isAddress) && shape.Print() == p;
    match shape {
      case Server(host) => assert IsHostname(host) && IsLabel(SplitDots(host)[0]);
      case _ => assert IsNickname(shape.nick) && p[0] == shape.nick[0];
    }
  }

  lemma HeadStart(isAddress: AddressTest, h: Head)
    requires HeadLegal(isAddress, h)
    ensures |HeadText(h)| >= 1
    ensures h.tags.Tags? ==> HeadText(h)[0] == AT
    ensures h.tags.NoTags? && h.prefix.None? ==> HeadText(h)[0] != COLON
    ensures h.tags.NoTags? && h.prefix.Some? ==> |HeadText(h)| >= 2 && HeadText(h)[1] != BANG
  {
    if h.tags.NoTags? {
      NothingMore(PrefixText(h.prefix));
      if h.prefix.Some? {
        PrefixStart(isAddress, h.prefix.value);
      } else {
        NothingMore(h.command);
        assert Letter.Has(h.command[0]) || Digit.Has(h.command[0]);
      }
    }
  }

  /** Inside a prefix the parser does wait: it takes `:!`, which no legal line begins with. */
  lemma PrefixIsCheckedLate(isAddress: AddressTest)
    ensures Run(isAddress, INITIAL, [COLON, BANG]).state == Incomplete && !Hopeful(isAddress, [COLON, BANG])
  {
    var t := [COLON, BANG];
    LeadsByOne(isAddress, INITIAL, COLON);
    LeadsByOne(isAddress, INITIAL.Go(Prefix), BANG);
    LeadsOn(isAddress, INITIAL, [COLON], INITIAL.Go(Prefix), [BANG], INITIAL.Go(Prefix).Push(Prefix, BANG));
    assert [COLON] + [BANG] == t;
    forall line | Legal(isAddress, line) ensures !(t <= Print(line)) && !(Print(line) <= t) {
      HeadStart(isAddress, line.head);
      BodyBegins(line);
      var h := HeadText(line.head);
      assert forall i :: 0 <= i < |h| ==> h[i] == Print(line)[i];
      assert |Print(line)| >= 3;
      assert t[0] == COLON && t[1] == BANG;
    }
  }
}
