/**
 The parser completes on exactly the lines of the grammar, and with their meaning.
 */
module Recognition {
  import opened Collections
  import opened Octets
  import opened Prefixes
  import opened LinkedMaps
  import opened Messages
  import opened Machine
  import opened Soundness
  import opened Grammar

  // ---- Where in a line the parser is ----

  datatype Draft =
    | InStart
    | InTags(items: seq<Item>, last: Last)
    | InPad(tags: Tags)
    | InPrefix(tags: Tags, p: Text)
    | BeforeCommand(tags: Tags, p: Text)
    | InCommand(head: Head)
    | InGap(head: Head, words: seq<Word>, gap: Text)
    | InWord(head: Head, words: seq<Word>, gap: Text, text: Text)
    | InTrailing(head: Head, words: seq<Word>, gap: Text, text: Text)
    | AtCr(line: Line)
    | AtEnd(line: Line)

  ghost predicate DraftOk(isAddress: AddressTest, d: Draft) {
    match d
    case InStart => true
    case InTags(items, last) => ItemsLegal(items) && LastLegal(last)
    case InPad(tags) => tags.Tags? && TagsLegal(tags)
    case InPrefix(tags, p) => TagsLegal(tags) && All(PrefixChar, p)
    case BeforeCommand(tags, p) => TagsLegal(tags) && PrefixOk(isAddress, p)
    case InCommand(h) =>
      && TagsLegal(h.tags) && PrefixLegal(isAddress, h.prefix)
      && h.command != [] && (All(Letter, h.command) || (All(Digit, h.command) && |h.command| <= 3))
    case InGap(h, words, gap) => HeadLegal(isAddress, h) && WordsLegal(words) && AllSkipped(gap)
    case InWord(h, words, gap, text) => HeadLegal(isAddress, h) && WordsLegal(words) && WordLegal(Word(gap, text))
    case InTrailing(h, words, gap, text) => HeadLegal(isAddress, h) && WordsLegal(words) && TailLegal(Marked(gap, text))
    case AtCr(line) => Legal(isAddress, line)
    case AtEnd(line) => Legal(isAddress, line)
  }

  /** The octets read so far. */
  function DraftText(d: Draft): Text {
    match d
    case InStart => []
    case InTags(items, last) => [AT] + ItemsText(items) + LastText(last)
    case InPad(tags) => TagsText(tags)
    case InPrefix(tags, p) => TagsText(tags) + ([COLON] + p)
    case BeforeCommand(tags, p) => TagsText(tags) + PrefixText(Some(p))
    case InCommand(h) => HeadText(h)
    case InGap(h, words, gap) => HeadText(h) + WordsText(words) + ([SPACE] + gap)
    case InWord(h, words, gap, text) => HeadText(h) + WordsText(words) + WordText(Word(gap, text))
    case InTrailing(h, words, gap, text) => HeadText(h) + WordsText(words) + TailText(Marked(gap, text))
    case AtCr(line) => BodyText(line) + [CR]
    case AtEnd(line) => Print(line)
  }

  function TagsOnly(tags: Tags): MessageValue {
    EMPTY.(tags := TagsMeaning(tags))
  }

  /** The parser after reading them. */
  function DraftConfig(d: Draft): Config {
    match d
    case InStart => INITIAL
    case InTags(items, last) =>
      Config(if last.Bare? then TagKey else TagValue, LastText(last), EMPTY.(tags := ItemsMeaning(items)))
    case InPad(tags) => Config(AfterTags, [], TagsOnly(tags))
    case InPrefix(tags, p) => Config(Prefix, p, TagsOnly(tags))
    case BeforeCommand(tags, p) => Config(CommandNameOrNumber, [], TagsOnly(tags).(prefix := p))
    case InCommand(h) =>
      Config(if All(Letter, h.command) then CommandName else CommandNumber, h.command,
             TagsOnly(h.tags).(prefix := PrefixMeaning(h.prefix)))
    case InGap(h, words, gap) => Config(ParamStart, [], Meaning(Line(h, words, NoTail)))
    case InWord(h, words, gap, text) => Config(Param, text, Meaning(Line(h, words, NoTail)))
    case InTrailing(h, words, gap, text) => Config(Trailing, text, Meaning(Line(h, words, NoTail)))
    case AtCr(line) => Config(Cr, [], Meaning(line))
    case AtEnd(line) => Config(Done, [], Meaning(line))
  }

  // ---- One more octet ----

  /** The draft that one more octet makes. */
  function Advance(d: Draft, c: Octet): Draft {
    match d
    case InStart =>
      if c == AT then InTags([], Bare([]))
      else if c == COLON then InPrefix(NoTags, [])
      else InCommand(Head(NoTags, None, [c]))
    case InTags(items, Bare(key)) =>
      if IsTagKeyChar(c) then InTags(items, Bare(key + [c]))
      else if c == EQUALS then InTags(items, Whole(Item(key, [])))
      else InPad(Tags(items, Bare(key), []))
    case InTags(items, Whole(item)) =>
      if c == SPACE then InPad(Tags(items, Whole(item), []))
      else if c == SEMICOLON then InTags(items + [item], Bare([]))
      else InTags(items, Whole(Item(item.key, item.raw + [c])))
    case InPad(tags) =>
      if c == SPACE && tags.Tags? then InPad(tags.(pad := tags.pad + [c]))
      else if c == COLON then InPrefix(tags, [])
      else InCommand(Head(tags, None, [c]))
    case InPrefix(tags, p) => if c == SPACE then BeforeCommand(tags, p) else InPrefix(tags, p + [c])
    case BeforeCommand(tags, p) => InCommand(Head(tags, Some(p), [c]))
    case InCommand(h) =>
      if c == SPACE then InGap(h, [], []) else if c == CR then AtCr(Line(h, [], NoTail))
      else InCommand(h.(command := h.command + [c]))
    case InGap(h, words, gap) =>
      if c == COLON then InTrailing(h, words, gap, [])
      else if IsParamStartChar(c) then InWord(h, words, gap, [c])
      else if c == CR then AtCr(Line(h, words, Gap(gap)))
      else InGap(h, words, gap + [c])
    case InWord(h, words, gap, text) =>
      if c == SPACE then InGap(h, words + [Word(gap, text)], [])
      else if c == CR then AtCr(Line(h, words + [Word(gap, text)], NoTail))
      else InWord(h, words, gap, text + [c])
    case InTrailing(h, words, gap, text) =>
      if c == CR then AtCr(Line(h, words, Marked(gap, text))) else InTrailing(h, words, gap, text + [c])
    case AtCr(line) => AtEnd(line)
    case AtEnd(line) => d
  }

  /** The only octets that can come here, where `Advance` does not look. */
  predicate Fits(d: Draft, c: Octet) {
    match d
    case InTags(_, Bare(_)) => IsTagKeyChar(c) || c == EQUALS || c == SPACE
    case InPad(tags) => tags.Tags?
    case AtCr(_) => c == LF
    case AtEnd(_) => false
    case _ => true
  }

  // The text grows by the octet.

  lemma ItemJoins(items: seq<Item>, i: Item)
    ensures ItemsText(items + [i]) == ItemsText(items) + (ItemText(i) + [SEMICOLON])
    ensures ItemsMeaning(items + [i]) == AddItem(ItemsMeaning(items), i)
  {
    assert (items + [i])[..|items|] == items;
  }

  lemma WordJoins(words: seq<Word>, w: Word)
    ensures WordsText(words + [w]) == WordsText(words) + WordText(w)
    ensures WordsMeaning(words + [w]) == WordsMeaning(words) + [w.text]
  {
    assert (words + [w])[..|words|] == words;
  }

  lemma KeyText(items: seq<Item>, key: Text, c: Octet)
    requires Fits(InTags(items, Bare(key)), c)
    ensures DraftText(Advance(InTags(items, Bare(key)), c)) == DraftText(InTags(items, Bare(key))) + [c]
  {
    var before := [AT] + ItemsText(items);
    if IsTagKeyChar(c) || c == EQUALS {
      NothingMore([EQUALS]);
      Assoc(before, key, [c]);
    } else {
      NothingMore(before + key + [SPACE]);
    }
  }

  lemma ValueText(items: seq<Item>, item: Item, c: Octet)
    ensures DraftText(Advance(InTags(items, Whole(item)), c)) == DraftText(InTags(items, Whole(item))) + [c]
  {
    var before := [AT] + ItemsText(items);
    var text := ItemText(item);
    if c == SPACE {
      NothingMore(before + text + [SPACE]);
    } else if c == SEMICOLON {
      ItemJoins(items, item);
      Assoc([AT], ItemsText(items), text + [c]);
      Assoc(before, text, [c]);
      NothingMore(before + (text + [c]));
    } else {
      Assoc([EQUALS], item.raw, [c]);
      Assoc(item.key, [EQUALS] + item.raw, [c]);
      Assoc(before, text, [c]);
    }
  }

  lemma PrefixDraftText(d: Draft, c: Octet)
    requires Fits(d, c) && (d.InPad? || d.InPrefix? || d.BeforeCommand?)
    ensures DraftText(Advance(d, c)) == DraftText(d) + [c]
  {
    var tags := TagsText(d.tags);
    match d {
      case InPad(_) =>
        NothingMore([COLON]);
        NothingMore(tags);
        if c == SPACE {
          Assoc([AT] + ItemsText(d.tags.items) + LastText(d.tags.last) + [SPACE], d.tags.pad, [c]);
        }
      case InPrefix(_, p) =>
        Assoc([COLON], p, [c]);
        Assoc(tags, [COLON] + p, [c]);
      case BeforeCommand(_, _) =>
    }
  }

  lemma CommandText(h: Head, c: Octet)
    ensures DraftText(Advance(InCommand(h), c)) == DraftText(InCommand(h)) + [c]
  {
    var text := HeadText(h);
    if c == SPACE {
      NothingMore([SPACE]);
      NothingMore(text);
    } else if c == CR {
      NothingMore(text);
    } else {
      Assoc(TagsText(h.tags) + PrefixText(h.prefix), h.command, [c]);
    }
  }

  lemma GapText(h: Head, words: seq<Word>, gap: Text, c: Octet)
    ensures DraftText(Advance(InGap(h, words, gap), c)) == DraftText(InGap(h, words, gap)) + [c]
  {
    var before := HeadText(h) + WordsText(words);
    if c == COLON {
      NothingMore([SPACE] + gap + [COLON]);
      Assoc(before, [SPACE] + gap, [c]);
    } else if IsParamStartChar(c) {
      Assoc(before, [SPACE] + gap, [c]);
    } else if c != CR {
      Assoc([SPACE], gap, [c]);
      Assoc(before, [SPACE] + gap, [c]);
    }
  }

  lemma WordDraftText(h: Head, words: seq<Word>, gap: Text, text: Text, c: Octet)
    ensures DraftText(Advance(InWord(h, words, gap, text), c)) == DraftText(InWord(h, words, gap, text)) + [c]
  {
    var w := Word(gap, text);
    var longer := HeadText(h) + WordsText(words + [w]);
    WordJoins(words, w);
    Assoc(HeadText(h), WordsText(words), WordText(w));
    if c == SPACE {
      NothingMore([SPACE]);
    } else if c == CR {
      NothingMore(longer);
    } else {
      Assoc([SPACE] + gap, text, [c]);
      Assoc(HeadText(h) + WordsText(words), WordText(w), [c]);
    }
  }

  lemma TrailingText(h: Head, words: seq<Word>, gap: Text, text: Text, c: Octet)
    ensures DraftText(Advance(InTrailing(h, words, gap, text), c)) == DraftText(InTrailing(h, words, gap, text)) + [c]
  {
    Assoc([SPACE] + gap + [COLON], text, [c]);
    Assoc(HeadText(h) + WordsText(words), TailText(Marked(gap, text)), [c]);
  }

  lemma AdvanceText(d: Draft, c: Octet)
    requires Fits(d, c)
    ensures DraftText(Advance(d, c)) == DraftText(d) + [c]
  {
    match d {
      case InStart => NothingMore([c]);
      case InTags(items, Bare(key)) => KeyText(items, key, c);
      case InTags(items, Whole(item)) => ValueText(items, item, c);
      case InPad(_) => PrefixDraftText(d, c);
      case InPrefix(_, _) => PrefixDraftText(d, c);
      case BeforeCommand(_, _) => PrefixDraftText(d, c);
      case InCommand(h) => CommandText(h, c);
      case InGap(h, words, gap) => GapText(h, words, gap, c);
      case InWord(h, words, gap, text) => WordDraftText(h, words, gap, text, c);
      case InTrailing(h, words, gap, text) => TrailingText(h, words, gap, text, c);
      case AtCr(_) =>
    }
  }

  // The parser takes the same step.

  ghost predicate Accepts(isAddress: AddressTest, d: Draft, c: Octet) {
    DraftOk(isAddress, d) && !d.AtEnd? && Step(isAddress, DraftConfig(d), c).state != Invalid
  }

  ghost predicate Follows(isAddress: AddressTest, d: Draft, c: Octet) {
    && Fits(d, c) && DraftOk(isAddress, Advance(d, c))
    && DraftConfig(Advance(d, c)) == Step(isAddress, DraftConfig(d), c).config
  }

  lemma CommandKinds(command: Text)
    requires command != [] && All(Digit, command)
    ensures !All(Letter, command)
  {
    assert Digit.Has(command[0]);
  }

  lemma FirstOfCommand(c: Octet)
    ensures [] + [c] == [c] && All(Letter, [c]) == IsLetter(c) && All(Digit, [c]) == IsDigit(c)
  {
    assert [c][0] == c;
  }

  lemma StartFollows(isAddress: AddressTest, c: Octet)
    requires Accepts(isAddress, InStart, c)
    ensures Follows(isAddress, InStart, c)
  {
    if c != AT && c != COLON {
      FirstOfCommand(c);
    }
  }

  lemma KeyFollows(isAddress: AddressTest, d: Draft, c: Octet)
    requires Accepts(isAddress, d, c) && d.InTags? && d.last.Bare?
    ensures Follows(isAddress, d, c)
  {
    AllConcat(TagKeyChar, d.last.key, [c]);
    NothingMore([EQUALS]);
  }

  lemma ItemTextParts(i: Item)
    requires ItemLegal(i)
    ensures TagOf(ItemText(i)) == ItemTag(i)
  {
    var t := ItemText(i);
    TagKeyHasNoEquals(i.key);
    assert t[..|i.key|] == i.key && t[|i.key| + 1..] == i.raw;
    TagOfMeans(t, |i.key|);
  }

  lemma ValueFollows(isAddress: AddressTest, d: Draft, c: Octet)
    requires Accepts(isAddress, d, c) && d.InTags? && d.last.Whole? && c != SPACE && c != SEMICOLON
    ensures Follows(isAddress, d, c)
  {
    var item := d.last.item;
    AllConcat(TagValueChar, item.raw, [c]);
    Assoc([EQUALS], item.raw, [c]);
    Assoc(item.key, [EQUALS] + item.raw, [c]);
  }

  /** A space or semicolon moves the tag in the buffer into the message. */
  lemma ItemFlushes(isAddress: AddressTest, m: MessageValue, i: Item, c: Octet)
    requires ItemLegal(i) && (c == SPACE || c == SEMICOLON)
    ensures Step(isAddress, Config(TagValue, ItemText(i), m), c) ==
            Flush(if c == SPACE then AfterTags else TagKey, m.(tags := AddItem(m.tags, i)))
  {
    ItemTextParts(i);
  }

  lemma ItemsGrow(items: seq<Item>, i: Item)
    requires ItemsLegal(items) && ItemLegal(i)
    ensures ItemsLegal(items + [i])
  {
  }

  /** The parser after the items, with nothing in its buffer. */
  lemma ItemsEnd(isAddress: AddressTest, items: seq<Item>)
    requires ItemsLegal(items)
    ensures DraftOk(isAddress, InTags(items, Bare([])))
    ensures DraftConfig(InTags(items, Bare([]))) == Config(TagKey, [], EMPTY.(tags := ItemsMeaning(items)))
  {
  }

  lemma ValueEnds(isAddress: AddressTest, d: Draft, c: Octet)
    requires DraftOk(isAddress, d) && d.InTags? && d.last.Whole? && (c == SPACE || c == SEMICOLON)
    ensures Follows(isAddress, d, c)
  {
    var item := d.last.item;
    ItemFlushes(isAddress, EMPTY.(tags := ItemsMeaning(d.items)), item, c);
    if c == SEMICOLON {
      ItemJoins(d.items, item);
      ItemsGrow(d.items, item);
      ItemsEnd(isAddress, d.items + [item]);
    }
  }

  lemma PadFollows(isAddress: AddressTest, d: Draft, c: Octet)
    requires Accepts(isAddress, d, c) && d.InPad?
    ensures Follows(isAddress, d, c)
  {
    FirstOfCommand(c);
  }

  lemma PrefixFollows(isAddress: AddressTest, d: Draft, c: Octet)
    requires Accepts(isAddress, d, c) && d.InPrefix?
    ensures Follows(isAddress, d, c)
  {
    AllConcat(PrefixChar, d.p, [c]);
  }

  lemma CommandBegins(isAddress: AddressTest, d: Draft, c: Octet)
    requires Accepts(isAddress, d, c) && d.BeforeCommand?
    ensures Follows(isAddress, d, c)
  {
    FirstOfCommand(c);
  }

  lemma CommandEnds(isAddress: AddressTest, d: Draft, c: Octet)
    requires Accepts(isAddress, d, c) && d.InCommand? && (c == SPACE || c == CR)
    ensures Follows(isAddress, d, c)
  {
  }

  lemma NameFollows(isAddress: AddressTest, d: Draft, c: Octet)
    requires Accepts(isAddress, d, c) && d.InCommand? && c != SPACE && c != CR && All(Letter, d.head.command)
    ensures Follows(isAddress, d, c)
  {
    AllConcat(Letter, d.head.command, [c]);
  }

  lemma NumberFollows(isAddress: AddressTest, d: Draft, c: Octet)
    requires Accepts(isAddress, d, c) && d.InCommand? && c != SPACE && c != CR && !All(Letter, d.head.command)
    ensures Follows(isAddress, d, c)
  {
    AllConcat(Digit, d.head.command, [c]);
    CommandKinds(d.head.command + [c]);
  }

  lemma CommandFollows(isAddress: AddressTest, d: Draft, c: Octet)
    requires Accepts(isAddress, d, c) && d.InCommand?
    ensures Follows(isAddress, d, c)
  {
    if c == SPACE || c == CR {
      CommandEnds(isAddress, d, c);
    } else if All(Letter, d.head.command) {
      NameFollows(isAddress, d, c);
    } else {
      NumberFollows(isAddress, d, c);
    }
  }

  lemma GapFollows(isAddress: AddressTest, d: Draft, c: Octet)
    requires Accepts(isAddress, d, c) && d.InGap?
    ensures Follows(isAddress, d, c)
  {
    NothingMore([c]);
  }

  lemma WordMeans(h: Head, words: seq<Word>, w: Word)
    ensures var m := Meaning(Line(h, words, NoTail));
            Meaning(Line(h, words + [w], NoTail)) == m.(params := m.params + [w.text])
  {
    WordJoins(words, w);
  }

  lemma WordFlushes(isAddress: AddressTest, m: MessageValue, text: Text, c: Octet)
    requires c == SPACE || c == CR
    ensures Step(isAddress, Config(Param, text, m), c) == Flush(AfterWord(c), m.(params := m.params + [text]))
  {
  }

  lemma WordsGrow(words: seq<Word>, w: Word)
    requires WordsLegal(words) && WordLegal(w)
    ensures WordsLegal(words + [w])
  {
  }

  /** The parser after the words, the last of which has just ended. */
  lemma WordsEnd(isAddress: AddressTest, h: Head, words: seq<Word>, c: Octet)
    requires HeadLegal(isAddress, h) && WordsLegal(words) && (c == SPACE || c == CR)
    ensures var e := if c == SPACE then InGap(h, words, []) else AtCr(Line(h, words, NoTail));
            DraftOk(isAddress, e) && DraftConfig(e) == Config(Machine.AfterWord(c), [], Meaning(Line(h, words, NoTail)))
  {
  }

  lemma WordEnds(isAddress: AddressTest, d: Draft, c: Octet)
    requires DraftOk(isAddress, d) && d.InWord? && (c == SPACE || c == CR)
    ensures Follows(isAddress, d, c)
  {
    var w := Word(d.gap, d.text);
    WordFlushes(isAddress, Meaning(Line(d.head, d.words, NoTail)), d.text, c);
    WordMeans(d.head, d.words, w);
    WordsGrow(d.words, w);
    WordsEnd(isAddress, d.head, d.words + [w], c);
  }

  lemma WordFollows(isAddress: AddressTest, d: Draft, c: Octet)
    requires Accepts(isAddress, d, c) && d.InWord? && c != SPACE && c != CR
    ensures Follows(isAddress, d, c)
  {
    AllConcat(ParamChar, d.text, [c]);
  }

  lemma TrailingFollows(isAddress: AddressTest, d: Draft, c: Octet)
    requires Accepts(isAddress, d, c) && d.InTrailing?
    ensures Follows(isAddress, d, c)
  {
    AllConcat(TrailingChar, d.text, [c]);
    NothingMore(WordsMeaning(d.words));
  }

  lemma CrFollows(isAddress: AddressTest, d: Draft, c: Octet)
    requires Accepts(isAddress, d, c) && d.AtCr?
    ensures Follows(isAddress, d, c)
  {
  }

  lemma StepFollows(isAddress: AddressTest, d: Draft, c: Octet)
    requires Accepts(isAddress, d, c)
    ensures Follows(isAddress, d, c)
  {
    match d {
      case InStart => StartFollows(isAddress, c);
      case InTags(_, Bare(_)) => KeyFollows(isAddress, d, c);
      case InTags(_, Whole(_)) =>
        if c == SPACE || c == SEMICOLON {
          ValueEnds(isAddress, d, c);
        } else {
          ValueFollows(isAddress, d, c);
        }
      case InPad(_) => PadFollows(isAddress, d, c);
      case InPrefix(_, _) => PrefixFollows(isAddress, d, c);
      case BeforeCommand(_, _) => CommandBegins(isAddress, d, c);
      case InCommand(_) => CommandFollows(isAddress, d, c);
      case InGap(_, _, _) => GapFollows(isAddress, d, c);
      case InWord(_, _, _, _) =>
        if c == SPACE || c == CR {
          WordEnds(isAddress, d, c);
        } else {
          WordFollows(isAddress, d, c);
        }
      case InTrailing(_, _, _, _) => TrailingFollows(isAddress, d, c);
      case AtCr(_) => CrFollows(isAddress, d, c);
    }
  }

  lemma NotDone(isAddress: AddressTest, g: Config, c: Octet)
    requires Step(isAddress, g, c).state == Incomplete
    ensures Step(isAddress, g, c).config.phase != Done
  {
  }

  lemma Longer<T>(s: seq<T>, t: seq<T>, n: nat)
    requires |t| > n
    ensures s + t[..n + 1] == s + [t[0]] + t[1..][..n]
  {
  }

  /** The parser, now in `g`, has read `s`. */
  ghost predicate Reads(isAddress: AddressTest, d: Draft, s: Text, g: Config) {
    DraftOk(isAddress, d) && DraftText(d) == s && DraftConfig(d) == g
  }

  lemma ReadOne(isAddress: AddressTest, d: Draft, s: Text, g: Config, c: Octet) returns (e: Draft)
    requires Reads(isAddress, d, s, g) && g.phase != Done && Step(isAddress, g, c).state != Invalid
    ensures Reads(isAddress, e, s + [c], Step(isAddress, g, c).config)
  {
    StepFollows(isAddress, d, c);
    AdvanceText(d, c);
    e := Advance(d, c);
  }

  /** Every run that is not rejected has read a draft. */
  lemma {:induction false} RunDraft(isAddress: AddressTest, d: Draft, s: Text, g: Config, t: Text) returns (e: Draft)
    requires Reads(isAddress, d, s, g) && g.phase != Done && Run(isAddress, g, t).state != Invalid
    ensures var r := Run(isAddress, g, t); Reads(isAddress, e, s + t[..r.taken], r.config)
    decreases t
  {
    if t == [] {
      e := d;
      NothingMore(s);
    } else {
      var next := Step(isAddress, g, t[0]);
      e := ReadOne(isAddress, d, s, g, t[0]);
      if next.state == Incomplete {
        NotDone(isAddress, g, t[0]);
        Longer(s, t, Run(isAddress, next.config, t[1..]).taken);
        e := RunDraft(isAddress, e, s + [t[0]], next.config, t[1..]);
      } else {
        Longer(s, t, 0);
        NothingMore(s + [t[0]]);
      }
    }
  }

  /** Whatever completes is a line of the grammar, and the message is its meaning. */
  lemma CompletesOnLines(isAddress: AddressTest, t: Text) returns (line: Line)
    requires Run(isAddress, INITIAL, t).state == Complete
    ensures var r := Run(isAddress, INITIAL, t);
            Legal(isAddress, line) && Print(line) == t[..r.taken] && r.config == Config(Done, [], Meaning(line))
  {
    var e := RunDraft(isAddress, InStart, [], INITIAL, t);
    RunValid(isAddress, INITIAL, t);
    NothingMore(t[..Run(isAddress, INITIAL, t).taken]);
    line := e.line;
  }
}
