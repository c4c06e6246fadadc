/**
 The lines that the parser reads, as a grammar with a meaning.

 The grammar is taken from what the parser does, not from a standard.  It neither contains the message rule of
 section 2.3.1 of RFC 2812 with the tags of the IRCv3 Message Tags specification nor is contained in it.  It lets
 through a value cut at a second equals sign, a tag given twice, no tags after the at sign, extra spaces, octets
 that are passed over between parameters, and `nick!` and `nick@` as prefixes.  It leaves out users with octets
 that are no prefix characters, vendors with a dot, and a tag without an equals sign before another.  Module
 `Standards` says exactly which prefixes and tags these are.
 */
module Grammar {
  import opened Collections
  import opened Octets
  import opened Prefixes
  import opened LinkedMaps
  import opened Messages
  import opened Machine
  import opened Soundness

  // ---- Syntax ----

  /** `key=raw` */
  datatype Item = Item(key: Text, raw: Text)

  /** What stands before the space that ends the tags: `key`, nothing at all (an empty key), or `key=raw`. */
  datatype Last = Bare(key: Text) | Whole(item: Item)

  /** Spaces after the one that ends the tags are passed over. */
  datatype Tags = NoTags | Tags(items: seq<Item>, last: Last, pad: Text)

  datatype Head = Head(tags: Tags, prefix: Option<Text>, command: Text)

  /** A parameter, with what is passed over before it. */
  datatype Word = Word(gap: Text, text: Text)

  datatype Tail = NoTail | Gap(gap: Text) | Marked(gap: Text, text: Text)

  datatype Line = Line(head: Head, words: seq<Word>, tail: Tail)

  predicate AllBlank(t: Text) {
    forall i :: 0 <= i < |t| ==> t[i] == SPACE
  }

  /** What is passed over between parameters: SPACE, LF, and octets that are negative as a signed char. */
  predicate IsSkipped(c: Octet) {
    c == SPACE || c == LF || c < 0
  }

  predicate AllSkipped(t: Text) {
    forall i :: 0 <= i < |t| ==> IsSkipped(t[i])
  }

  predicate ItemLegal(i: Item) {
    i.key != [] && All(TagKeyChar, i.key) && All(TagValueChar, i.raw)
  }

  predicate LastLegal(l: Last) {
    match l
    case Bare(key) => All(TagKeyChar, key)
    case Whole(item) => ItemLegal(item)
  }

  predicate ItemsLegal(items: seq<Item>) {
    forall i :: 0 <= i < |items| ==> ItemLegal(items[i])
  }

  predicate TagsLegal(tags: Tags) {
    tags.Tags? ==> ItemsLegal(tags.items) && LastLegal(tags.last) && AllBlank(tags.pad)
  }

  ghost predicate PrefixLegal(isAddress: AddressTest, prefix: Option<Text>) {
    prefix.Some? ==> PrefixOk(isAddress, prefix.value)
  }

  ghost predicate HeadLegal(isAddress: AddressTest, h: Head) {
    TagsLegal(h.tags) && PrefixLegal(isAddress, h.prefix) && CommandOk(h.command)
  }

  predicate WordLegal(w: Word) {
    AllSkipped(w.gap) && IsMiddle(w.text)
  }

  predicate WordsLegal(words: seq<Word>) {
    forall i :: 0 <= i < |words| ==> WordLegal(words[i])
  }

  predicate TailLegal(tail: Tail) {
    match tail
    case NoTail => true
    case Gap(gap) => AllSkipped(gap)
    case Marked(gap, text) => AllSkipped(gap) && All(TrailingChar, text)
  }

  ghost predicate Legal(isAddress: AddressTest, line: Line) {
    HeadLegal(isAddress, line.head) && WordsLegal(line.words) && TailLegal(line.tail)
  }

  // ---- Text ----

  function ItemText(i: Item): Text {
    i.key + ([EQUALS] + i.raw)
  }

  function ItemsText(items: seq<Item>): Text {
    if items == [] then []
    else ItemsText(items[..|items| - 1]) + (ItemText(items[|items| - 1]) + [SEMICOLON])
  }

  function LastText(l: Last): Text {
    match l
    case Bare(key) => key
    case Whole(item) => ItemText(item)
  }

  function TagsText(tags: Tags): Text {
    match tags
    case NoTags => []
    case Tags(items, last, pad) => [AT] + ItemsText(items) + LastText(last) + [SPACE] + pad
  }

  function PrefixText(prefix: Option<Text>): Text {
    match prefix
    case None => []
    case Some(p) => [COLON] + p + [SPACE]
  }

  function HeadText(h: Head): Text {
    TagsText(h.tags) + PrefixText(h.prefix) + h.command
  }

  function WordText(w: Word): Text {
    [SPACE] + w.gap + w.text
  }

  function WordsText(words: seq<Word>): Text {
    if words == [] then [] else WordsText(words[..|words| - 1]) + WordText(words[|words| - 1])
  }

  function TailText(tail: Tail): Text {
    match tail
    case NoTail => []
    case Gap(gap) => [SPACE] + gap
    case Marked(gap, text) => [SPACE] + gap + [COLON] + text
  }

  function BodyText(line: Line): Text {
    HeadText(line.head) + WordsText(line.words) + TailText(line.tail)
  }

  function Print(line: Line): Text {
    BodyText(line) + [CR] + [LF]
  }

  // ---- Meaning ----

  /** The value ends at the next equals sign. */
  function ItemTag(i: Item): Tag {
    Entry(i.key, Before(EQUALS, i.raw))
  }

  function AddItem(tags: seq<Tag>, i: Item): seq<Tag> {
    Assign(tags, ItemTag(i).key, ItemTag(i).value)
  }

  /** The last value given to a key counts, at the place where the key came first. */
  function ItemsMeaning(items: seq<Item>): seq<Tag> {
    if items == [] then [] else AddItem(ItemsMeaning(items[..|items| - 1]), items[|items| - 1])
  }

  /** A bare key counts only if it is new. */
  function LastMeaning(tags: seq<Tag>, l: Last): seq<Tag> {
    match l
    case Bare(key) => if key == [] then tags else Emplace(tags, key, [])
    case Whole(item) => AddItem(tags, item)
  }

  function TagsMeaning(tags: Tags): seq<Tag> {
    match tags
    case NoTags => []
    case Tags(items, last, _) => LastMeaning(ItemsMeaning(items), last)
  }

  function PrefixMeaning(prefix: Option<Text>): Text {
    if prefix.Some? then prefix.value else []
  }

  function WordsMeaning(words: seq<Word>): seq<Text> {
    if words == [] then [] else WordsMeaning(words[..|words| - 1]) + [words[|words| - 1].text]
  }

  function Meaning(line: Line): MessageValue {
    var h := line.head;
    MessageValue(PrefixMeaning(h.prefix), h.command,
                 WordsMeaning(line.words) + (if line.tail.Marked? then [line.tail.text] else []), TagsMeaning(h.tags))
  }
}
