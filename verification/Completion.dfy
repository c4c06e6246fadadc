/**
 Every line of the grammar is read to its end, and only then completes.
 */
module Completion {
  import opened Collections
  import opened Octets
  import opened Prefixes
  import opened LinkedMaps
  import opened Messages
  import opened Machine
  import opened Soundness
  import opened Grammar
  import opened Recognition

  // ---- Accumulating ----

  /** The octets that a phase appends to the buffer without moving on. */
  function Kept(phase: Phase): Option<Class> {
    match phase
    case TagKey => Some(TagKeyChar)
    case TagValue => Some(TagValueChar)
    case Prefix => Some(PrefixChar)
    case CommandName => Some(Letter)
    case Param => Some(ParamChar)
    case Trailing => Some(TrailingChar)
    case _ => None
  }

  lemma {:induction false} Accumulate(isAddress: AddressTest, g: Config, t: Text)
    requires Kept(g.phase).Some? && All(Kept(g.phase).value, t)
    ensures Leads(isAddress, g, t, g.(buffer := g.buffer + t))
    decreases t
  {
    if t == [] {
      assert g.buffer + t == g.buffer;
    } else {
      assert Kept(g.phase).value.Has(t[0]);
      assert Step(isAddress, g, t[0]) == Keep(g, t[0]);
      Accumulate(isAddress, g.Push(g.phase, t[0]), t[1..]);
      assert g.buffer + [t[0]] + t[1..] == g.buffer + t;
    }
  }

  lemma {:induction false} AccumulateDigits(isAddress: AddressTest, g: Config, t: Text)
    requires g.phase == CommandNumber && All(Digit, t) && |g.buffer| + |t| <= 3
    ensures Leads(isAddress, g, t, g.(buffer := g.buffer + t))
    decreases t
  {
    if t == [] {
      assert g.buffer + t == g.buffer;
    } else {
      assert Digit.Has(t[0]);
      assert Step(isAddress, g, t[0]) == Keep(g, t[0]);
      AccumulateDigits(isAddress, g.Push(g.phase, t[0]), t[1..]);
      assert g.buffer + [t[0]] + t[1..] == g.buffer + t;
    }
  }

  /** Octets that are passed over. */
  lemma {:induction false} PassOver(isAddress: AddressTest, g: Config, t: Text)
    requires (g.phase == AfterTags && AllBlank(t)) || (g.phase == ParamStart && AllSkipped(t))
    ensures Leads(isAddress, g, t, g)
    decreases t
  {
    if t != [] {
      assert g.phase == AfterTags ==> t[0] == SPACE;
      assert g.phase == ParamStart ==> IsSkipped(t[0]);
      assert Step(isAddress, g, t[0]) == Stepped(g, Incomplete);
      PassOver(isAddress, g, t[1..]);
    }
  }

  // ---- Tags ----

  lemma KeyLeads(isAddress: AddressTest, m: MessageValue, key: Text)
    requires All(TagKeyChar, key)
    ensures Leads(isAddress, Config(TagKey, [], m), key, Config(TagKey, key, m))
  {
    Accumulate(isAddress, Config(TagKey, [], m), key);
    NothingMore(key);
  }

  lemma ItemLeads(isAddress: AddressTest, m: MessageValue, i: Item)
    requires ItemLegal(i)
    ensures Leads(isAddress, Config(TagKey, [], m), ItemText(i), Config(TagValue, ItemText(i), m))
  {
    var h := Config(TagKey, i.key, m);
    var k := h.Push(TagValue, EQUALS);
    KeyLeads(isAddress, m, i.key);
    LeadsByOne(isAddress, h, EQUALS);
    Accumulate(isAddress, k, i.raw);
    Assoc(i.key, [EQUALS], i.raw);
    LeadsOn(isAddress, h, [EQUALS], k, i.raw, Config(TagValue, ItemText(i), m));
    LeadsOn(isAddress, Config(TagKey, [], m), i.key, h, [EQUALS] + i.raw, Config(TagValue, ItemText(i), m));
  }

  /** An item with the octet that ends it. */
  lemma ItemAdds(isAddress: AddressTest, m: MessageValue, i: Item, c: Octet)
    requires ItemLegal(i) && (c == SPACE || c == SEMICOLON)
    ensures Leads(isAddress, Config(TagKey, [], m), ItemText(i) + [c],
                  Config(if c == SPACE then AfterTags else TagKey, [], m.(tags := AddItem(m.tags, i))))
  {
    var g := Config(TagValue, ItemText(i), m);
    ItemLeads(isAddress, m, i);
    ItemFlushes(isAddress, m, i, c);
    LeadsByOne(isAddress, g, c);
    LeadsOn(isAddress, Config(TagKey, [], m), ItemText(i), g, [c], Step(isAddress, g, c).config);
  }

  function WithTags(tags: seq<Tag>): MessageValue {
    EMPTY.(tags := tags)
  }

  lemma {:induction false} ItemsLead(isAddress: AddressTest, items: seq<Item>)
    requires ItemsLegal(items)
    ensures Leads(isAddress, Config(TagKey, [], EMPTY), ItemsText(items),
                  Config(TagKey, [], WithTags(ItemsMeaning(items))))
    decreases |items|
  {
    if items != [] {
      var n := |items| - 1;
      var m := WithTags(ItemsMeaning(items[..n]));
      ItemsLead(isAddress, items[..n]);
      ItemAdds(isAddress, m, items[n], SEMICOLON);
      LeadsOn(isAddress, Config(TagKey, [], EMPTY), ItemsText(items[..n]), Config(TagKey, [], m),
              ItemText(items[n]) + [SEMICOLON], Config(TagKey, [], WithTags(ItemsMeaning(items))));
    }
  }

  lemma LastLeads(isAddress: AddressTest, m: MessageValue, l: Last)
    requires LastLegal(l)
    ensures Leads(isAddress, Config(TagKey, [], m), LastText(l) + [SPACE],
                  Config(AfterTags, [], m.(tags := LastMeaning(m.tags, l))))
  {
    if l.Whole? {
      ItemAdds(isAddress, m, l.item, SPACE);
    } else {
      var g := Config(TagKey, l.key, m);
      KeyLeads(isAddress, m, l.key);
      LeadsByOne(isAddress, g, SPACE);
      LeadsOn(isAddress, Config(TagKey, [], m), l.key, g, [SPACE], Step(isAddress, g, SPACE).config);
    }
  }

  function AfterTagsText(tags: Tags): Config {
    Config(if tags.NoTags? then Start else AfterTags, [], WithTags(TagsMeaning(tags)))
  }

  lemma TagsLead(isAddress: AddressTest, tags: Tags)
    requires TagsLegal(tags)
    ensures Leads(isAddress, INITIAL, TagsText(tags), AfterTagsText(tags))
  {
    if tags.Tags? {
      var Tags(items, last, pad) := tags;
      var begun := Config(TagKey, [], EMPTY);
      var listed := Config(TagKey, [], WithTags(ItemsMeaning(items)));
      var ended := AfterTagsText(tags);
      LeadsByOne(isAddress, INITIAL, AT);
      ItemsLead(isAddress, items);
      LastLeads(isAddress, listed.message, last);
      PassOver(isAddress, ended, pad);
      LeadsOn(isAddress, INITIAL, [AT], begun, ItemsText(items), listed);
      LeadsOn(isAddress, INITIAL, [AT] + ItemsText(items), listed, LastText(last) + [SPACE], ended);
      Assoc([AT] + ItemsText(items), LastText(last), [SPACE]);
      LeadsOn(isAddress, INITIAL, [AT] + ItemsText(items) + LastText(last) + [SPACE], ended, pad, ended);
    }
  }

  // ---- Prefix and command ----

  function AfterPrefixText(tags: Tags, prefix: Option<Text>): Config {
    if prefix.None? then AfterTagsText(tags)
    else Config(CommandNameOrNumber, [], WithTags(TagsMeaning(tags)).(prefix := prefix.value))
  }

  function InsidePrefix(tags: Tags, p: Text): Config {
    Config(Prefix, p, WithTags(TagsMeaning(tags)))
  }

  lemma PrefixOpens(isAddress: AddressTest, tags: Tags, p: Text)
    requires All(PrefixChar, p)
    ensures Leads(isAddress, AfterTagsText(tags), [COLON] + p, InsidePrefix(tags, p))
  {
    var g := AfterTagsText(tags);
    var h := InsidePrefix(tags, []);
    LeadsByOne(isAddress, g, COLON);
    Accumulate(isAddress, h, p);
    NothingMore(p);
    LeadsOn(isAddress, g, [COLON], h, p, InsidePrefix(tags, p));
  }

  lemma PrefixLeads(isAddress: AddressTest, tags: Tags, prefix: Option<Text>)
    requires PrefixLegal(isAddress, prefix)
    ensures Leads(isAddress, AfterTagsText(tags), PrefixText(prefix), AfterPrefixText(tags, prefix))
  {
    if prefix.Some? {
      var p := prefix.value;
      var g := AfterTagsText(tags);
      var k := InsidePrefix(tags, p);
      PrefixOpens(isAddress, tags, p);
      LeadsByOne(isAddress, k, SPACE);
      LeadsOn(isAddress, g, [COLON] + p, k, [SPACE], AfterPrefixText(tags, prefix));
    }
  }

  function AfterHead(h: Head): Config {
    Config(if All(Letter, h.command) then CommandName else CommandNumber, h.command,
           WithTags(TagsMeaning(h.tags)).(prefix := PrefixMeaning(h.prefix)))
  }

  lemma CommandLeads(isAddress: AddressTest, h: Head)
    requires CommandOk(h.command)
    ensures Leads(isAddress, AfterPrefixText(h.tags, h.prefix), h.command, AfterHead(h))
  {
    var g := AfterPrefixText(h.tags, h.prefix);
    var c, rest := h.command[0], h.command[1..];
    assert h.command == [c] + rest;
    var k := g.Push(if All(Letter, h.command) then CommandName else CommandNumber, c);
    assert Step(isAddress, g, c) == Stepped(k, Incomplete);
    LeadsByOne(isAddress, g, c);
    assert k.buffer + rest == h.command;
    if All(Letter, h.command) {
      Accumulate(isAddress, k, rest);
    } else {
      AccumulateDigits(isAddress, k, rest);
    }
    LeadsOn(isAddress, g, [c], k, rest, AfterHead(h));
  }

  lemma HeadLeads(isAddress: AddressTest, h: Head)
    requires HeadLegal(isAddress, h)
    ensures Leads(isAddress, INITIAL, HeadText(h), AfterHead(h))
  {
    TagsLead(isAddress, h.tags);
    PrefixLeads(isAddress, h.tags, h.prefix);
    CommandLeads(isAddress, h);
    LeadsOn(isAddress, INITIAL, TagsText(h.tags), AfterTagsText(h.tags), PrefixText(h.prefix),
            AfterPrefixText(h.tags, h.prefix));
    LeadsOn(isAddress, INITIAL, TagsText(h.tags) + PrefixText(h.prefix), AfterPrefixText(h.tags, h.prefix), h.command,
            AfterHead(h));
  }

  // ---- Parameters ----

  function Upto(h: Head, words: seq<Word>): MessageValue {
    Meaning(Line(h, words, NoTail))
  }

  /** The last word, or the command, is still in the buffer. */
  function AfterWords(h: Head, words: seq<Word>): Config {
    if words == [] then AfterHead(h)
    else var n := |words| - 1; Config(Param, words[n].text, Upto(h, words[..n]))
  }

  /** A space or CR moves it into the message. */
  lemma WordsFlush(isAddress: AddressTest, h: Head, words: seq<Word>, c: Octet)
    requires CommandOk(h.command) && (c == SPACE || c == CR)
    ensures Leads(isAddress, AfterWords(h, words), [c], Config(Machine.AfterWord(c), [], Upto(h, words)))
  {
    var g := AfterWords(h, words);
    if words != [] {
      var n := |words| - 1;
      assert words[..n] + [words[n]] == words;
      WordMeans(h, words[..n], words[n]);
      WordFlushes(isAddress, Upto(h, words[..n]), words[n].text, c);
    }
    assert Step(isAddress, g, c) == Flush(Machine.AfterWord(c), Upto(h, words));
    LeadsByOne(isAddress, g, c);
  }

  lemma MiddleLeads(isAddress: AddressTest, m: MessageValue, p: Text)
    requires IsMiddle(p)
    ensures Leads(isAddress, Config(ParamStart, [], m), p, Config(Param, p, m))
  {
    var g := Config(ParamStart, [], m);
    var h := g.Push(Param, p[0]);
    LeadsByOne(isAddress, g, p[0]);
    Accumulate(isAddress, h, p[1..]);
    assert [p[0]] + p[1..] == p && h.buffer + p[1..] == p;
    LeadsOn(isAddress, g, [p[0]], h, p[1..], Config(Param, p, m));
  }

  /** A space and what is passed over after it. */
  lemma GapLeads(isAddress: AddressTest, h: Head, words: seq<Word>, gap: Text)
    requires CommandOk(h.command) && AllSkipped(gap)
    ensures Leads(isAddress, AfterWords(h, words), [SPACE] + gap, Config(ParamStart, [], Upto(h, words)))
  {
    var g := Config(ParamStart, [], Upto(h, words));
    WordsFlush(isAddress, h, words, SPACE);
    PassOver(isAddress, g, gap);
    LeadsOn(isAddress, AfterWords(h, words), [SPACE], g, gap, g);
  }

  lemma {:induction false} WordsLead(isAddress: AddressTest, h: Head, words: seq<Word>)
    requires CommandOk(h.command) && WordsLegal(words)
    ensures Leads(isAddress, AfterHead(h), WordsText(words), AfterWords(h, words))
    decreases |words|
  {
    if words != [] {
      var n := |words| - 1;
      var init, w := words[..n], words[n];
      WordsLead(isAddress, h, init);
      GapLeads(isAddress, h, init, w.gap);
      MiddleLeads(isAddress, Upto(h, init), w.text);
      LeadsOn(isAddress, AfterWords(h, init), [SPACE] + w.gap, Config(ParamStart, [], Upto(h, init)), w.text,
              AfterWords(h, words));
      LeadsOn(isAddress, AfterHead(h), WordsText(init), AfterWords(h, init), WordText(w), AfterWords(h, words));
    }
  }

  lemma MarkedLeads(isAddress: AddressTest, m: MessageValue, text: Text)
    requires All(TrailingChar, text)
    ensures Leads(isAddress, Config(ParamStart, [], m), [COLON] + text + [CR],
                  Config(Cr, [], m.(params := m.params + [text])))
  {
    var g := Config(ParamStart, [], m);
    var k := Config(Trailing, text, m);
    LeadsByOne(isAddress, g, COLON);
    Accumulate(isAddress, g.Go(Trailing), text);
    NothingMore(text);
    LeadsOn(isAddress, g, [COLON], g.Go(Trailing), text, k);
    LeadsByOne(isAddress, k, CR);
    LeadsOn(isAddress, g, [COLON] + text, k, [CR], Config(Cr, [], m.(params := m.params + [text])));
  }

  lemma GapTailLeads(isAddress: AddressTest, h: Head, words: seq<Word>, gap: Text)
    requires CommandOk(h.command) && AllSkipped(gap)
    ensures Leads(isAddress, AfterWords(h, words), TailText(Gap(gap)) + [CR],
                  Config(Cr, [], Meaning(Line(h, words, Gap(gap)))))
  {
    var g := Config(ParamStart, [], Upto(h, words));
    GapLeads(isAddress, h, words, gap);
    LeadsByOne(isAddress, g, CR);
    LeadsOn(isAddress, AfterWords(h, words), [SPACE] + gap, g, [CR], g.Go(Cr));
  }

  lemma MarkedTailLeads(isAddress: AddressTest, h: Head, words: seq<Word>, gap: Text, text: Text)
    requires CommandOk(h.command) && TailLegal(Marked(gap, text))
    ensures Leads(isAddress, AfterWords(h, words), TailText(Marked(gap, text)) + [CR],
                  Config(Cr, [], Meaning(Line(h, words, Marked(gap, text)))))
  {
    var m := Upto(h, words);
    var g := Config(ParamStart, [], m);
    GapLeads(isAddress, h, words, gap);
    MarkedLeads(isAddress, m, text);
    NothingMore(WordsMeaning(words));
    LeadsOn(isAddress, AfterWords(h, words), [SPACE] + gap, g, [COLON] + text + [CR],
            Config(Cr, [], m.(params := m.params + [text])));
    Assoc([SPACE] + gap, [COLON] + text, [CR]);
    Assoc([SPACE] + gap, [COLON], text);
  }

  lemma TailLeads(isAddress: AddressTest, line: Line)
    requires CommandOk(line.head.command) && TailLegal(line.tail)
    ensures Leads(isAddress, AfterWords(line.head, line.words), TailText(line.tail) + [CR],
                  Config(Cr, [], Meaning(line)))
  {
    match line.tail {
      case NoTail =>
        NothingMore([CR]);
        WordsFlush(isAddress, line.head, line.words, CR);
      case Gap(gap) => GapTailLeads(isAddress, line.head, line.words, gap);
      case Marked(gap, text) => MarkedTailLeads(isAddress, line.head, line.words, gap, text);
    }
  }

  // ---- The theorems ----

  lemma LineEnds(isAddress: AddressTest, m: MessageValue)
    ensures Run(isAddress, Config(Cr, [], m), [LF]) == Parsed(Config(Done, [], m), Complete, 1)
  {
  }

  lemma BodyLeads(isAddress: AddressTest, line: Line)
    requires Legal(isAddress, line)
    ensures Leads(isAddress, INITIAL, BodyText(line) + [CR], Config(Cr, [], Meaning(line)))
  {
    var h, words := line.head, line.words;
    HeadLeads(isAddress, h);
    WordsLead(isAddress, h, words);
    TailLeads(isAddress, line);
    LeadsOn(isAddress, INITIAL, HeadText(h), AfterHead(h), WordsText(words), AfterWords(h, words));
    LeadsOn(isAddress, INITIAL, HeadText(h) + WordsText(words), AfterWords(h, words), TailText(line.tail) + [CR],
            Config(Cr, [], Meaning(line)));
    Assoc(HeadText(h) + WordsText(words), TailText(line.tail), [CR]);
  }

  /** A line of the grammar completes at its last octet, with its meaning. */
  lemma LinesComplete(isAddress: AddressTest, line: Line)
    requires Legal(isAddress, line)
    ensures Run(isAddress, INITIAL, Print(line)) == Parsed(Config(Done, [], Meaning(line)), Complete, |Print(line)|)
  {
    BodyLeads(isAddress, line);
    LineEnds(isAddress, Meaning(line));
    RunConcat(isAddress, INITIAL, BodyText(line) + [CR], [LF]);
  }

  /** `line` is a legal reading of `t`, and means `m`. */
  ghost predicate Denotes(isAddress: AddressTest, line: Line, t: Text, m: MessageValue) {
    Legal(isAddress, line) && Print(line) == t && Meaning(line) == m
  }

  /** The run over `t` completes after `n` octets, with `m`. */
  ghost predicate Completes(isAddress: AddressTest, t: Text, n: nat, m: MessageValue) {
    Run(isAddress, INITIAL, t) == Parsed(Config(Done, [], m), Complete, n)
  }

  lemma DenotedCompletes(isAddress: AddressTest, line: Line, t: Text, n: nat, m: MessageValue)
    requires n <= |t| && Denotes(isAddress, line, t[..n], m)
    ensures Completes(isAddress, t, n, m)
  {
    LinesComplete(isAddress, line);
    RunConcat(isAddress, INITIAL, t[..n], t[n..]);
    assert t[..n] + t[n..] == t;
  }

  lemma CompletedDenotes(isAddress: AddressTest, t: Text, n: nat, m: MessageValue) returns (line: Line)
    requires n <= |t| && Completes(isAddress, t, n, m)
    ensures Denotes(isAddress, line, t[..n], m)
  {
    line := CompletesOnLines(isAddress, t);
  }

  /** The parser and the grammar agree: a text completes after `n` octets with message `m` exactly when its first
      `n` octets are a legal line that means `m`. */
  lemma ParserIsGrammar(isAddress: AddressTest, t: Text, n: nat, m: MessageValue)
    requires n <= |t|
    ensures Completes(isAddress, t, n, m) <==> exists line :: Denotes(isAddress, line, t[..n], m)
  {
    if Completes(isAddress, t, n, m) {
      var line := CompletedDenotes(isAddress, t, n, m);
    }
    if line :| Denotes(isAddress, line, t[..n], m) {
      DenotedCompletes(isAddress, line, t, n, m);
    }
  }

  /** No legal line is the start of another, unless they are the same text with the same meaning. */
  lemma LinesArePrefixFree(isAddress: AddressTest, line: Line, other: Line)
    requires Legal(isAddress, line) && Legal(isAddress, other) && Print(line) <= Print(other)
    ensures Print(line) == Print(other) && Meaning(line) == Meaning(other)
  {
    var t, n := Print(other), |Print(line)|;
    assert t[..n] == Print(line);
    assert Denotes(isAddress, line, t[..n], Meaning(line));
    DenotedCompletes(isAddress, line, t, n, Meaning(line));
    LinesComplete(isAddress, other);
    assert t[..n] == t;
  }
}
