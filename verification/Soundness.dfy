/**
 What each phase of the parser says about its buffer and message, over every sequence of octets,
 and so what every completed message looks like.
 */
module Soundness {
  import opened Octets
  import opened Prefixes
  import opened LinkedMaps
  import opened Messages
  import opened Machine

  // ---- Messages ----

  predicate TagOk(tag: Tag) {
    |tag.key| > 0 && All(TagKeyChar, tag.key) && All(TagValueChar, tag.value) && EQUALS !in tag.value
  }

  predicate TagsOk(tags: seq<Tag>) {
    DistinctKeys(tags) && forall i :: 0 <= i < |tags| ==> TagOk(tags[i])
  }

  ghost predicate PrefixOk(isAddress: AddressTest, prefix: Text) {
    All(PrefixChar, prefix) && IsPrefix(isAddress, prefix)
  }

  predicate CommandOk(command: Text) {
    (|command| > 0 && All(Letter, command)) || (|command| == 3 && All(Digit, command))
  }

  predicate AreMiddles(params: seq<Text>) {
    forall i :: 0 <= i < |params| ==> IsMiddle(params[i])
  }

  /** Only the last parameter may be empty, hold spaces or start with a colon. */
  predicate ParamsOk(params: seq<Text>) {
    params == [] || (AreMiddles(params[..|params| - 1]) && All(TrailingChar, params[|params| - 1]))
  }

  /** The messages that the parser can produce. */
  ghost predicate Sound(isAddress: AddressTest, m: MessageValue) {
    && TagsOk(m.tags)
    && (m.prefix == [] || PrefixOk(isAddress, m.prefix))
    && CommandOk(m.command)
    && ParamsOk(m.params)
  }

  // ---- Configurations ----

  /** `key=...`, the shape of the buffer while a tag's value is being read. */
  predicate IsTagBuffer(buffer: Text) {
    exists k :: 0 < k < |buffer| && All(TagKeyChar, buffer[..k]) && buffer[k] == EQUALS
                && All(TagValueChar, buffer[k + 1..])
  }

  predicate BufferOk(phase: Phase, buffer: Text) {
    match phase
    case TagKey => All(TagKeyChar, buffer)
    case TagValue => IsTagBuffer(buffer)
    case Prefix => All(PrefixChar, buffer)
    case CommandName => |buffer| > 0 && All(Letter, buffer)
    case CommandNumber => 1 <= |buffer| <= 3 && All(Digit, buffer)
    case Param => IsMiddle(buffer)
    case Trailing => All(TrailingChar, buffer)
    case _ => buffer == []
  }

  ghost predicate MessageOk(isAddress: AddressTest, phase: Phase, m: MessageValue) {
    match phase
    case Start => m == EMPTY
    case TagKey | TagValue | AfterTags | Prefix =>
      TagsOk(m.tags) && m.prefix == [] && m.command == [] && m.params == []
    case CommandNameOrNumber | CommandName | CommandNumber =>
      TagsOk(m.tags) && (m.prefix == [] || PrefixOk(isAddress, m.prefix)) && m.command == [] && m.params == []
    case ParamStart | Param | Trailing => Sound(isAddress, m) && AreMiddles(m.params)
    case Cr | Done => Sound(isAddress, m)
  }

  ghost predicate Valid(isAddress: AddressTest, g: Config) {
    BufferOk(g.phase, g.buffer) && MessageOk(isAddress, g.phase, g.message)
  }

  // ---- Tags ----

  lemma {:induction false} IndexOfUnique(c: Octet, t: Text, k: nat)
    requires k < |t| && t[k] == c && c !in t[..k]
    ensures IndexOf(c, t) == k
  {
    if k > 0 {
      assert t[..k][0] == t[0] && t[1..][..k - 1] == t[..k][1..];
      IndexOfUnique(c, t[1..], k - 1);
    }
  }

  /** The part of `t` before its first `c`, or all of it. */
  function Before(c: Octet, t: Text): Text {
    if c in t then t[..IndexOf(c, t)] else t
  }

  lemma TagKeyHasNoEquals(key: Text)
    requires All(TagKeyChar, key)
    ensures EQUALS !in key
  {
  }

  /** The key and the value end at the first and second equals sign; two pieces are always there. */
  lemma TagOfMeans(buffer: Text, k: nat)
    requires k < |buffer| && EQUALS !in buffer[..k] && buffer[k] == EQUALS
    ensures |StrSplit(buffer, EQUALS, 2)| >= 2
    ensures TagOf(buffer) == Entry(buffer[..k], Before(EQUALS, buffer[k + 1..]))
  {
    IndexOfUnique(EQUALS, buffer, k);
    var rest := buffer[k + 1..];
    var pieces := StrSplit(rest, EQUALS, 1);
    assert pieces[0] == Before(EQUALS, rest);
    assert StrSplit(buffer, EQUALS, 2) == [buffer[..k]] + pieces;
  }

  lemma BeforeOk(t: Text)
    requires All(TagValueChar, t)
    ensures All(TagValueChar, Before(EQUALS, t)) && EQUALS !in Before(EQUALS, t)
  {
  }

  lemma TagOfOk(buffer: Text)
    requires IsTagBuffer(buffer)
    ensures TagOk(TagOf(buffer)) && |StrSplit(buffer, EQUALS, 2)| >= 2
  {
    var k :| 0 < k < |buffer| && All(TagKeyChar, buffer[..k]) && buffer[k] == EQUALS
             && All(TagValueChar, buffer[k + 1..]);
    TagKeyHasNoEquals(buffer[..k]);
    TagOfMeans(buffer, k);
    BeforeOk(buffer[k + 1..]);
  }

  lemma AssignKeepsTagsOk(tags: seq<Tag>, tag: Tag)
    requires TagsOk(tags) && TagOk(tag)
    ensures TagsOk(Assign(tags, tag.key, tag.value))
  {
    AssignMeans(tags, tag.key, tag.value, tag.key);
    OrderKeepsDistinct(tags, tag.key, Assign(tags, tag.key, tag.value));
  }

  lemma EmplaceKeepsTagsOk(tags: seq<Tag>, tag: Tag)
    requires TagsOk(tags) && TagOk(tag)
    ensures TagsOk(Emplace(tags, tag.key, tag.value))
  {
    EmplaceMeans(tags, tag.key, tag.value, tag.key);
    OrderKeepsDistinct(tags, tag.key, Emplace(tags, tag.key, tag.value));
  }

  lemma TagBufferGrows(buffer: Text, c: Octet)
    requires IsTagBuffer(buffer) && IsTagValueChar(c)
    ensures IsTagBuffer(buffer + [c])
  {
    var k :| 0 < k < |buffer| && All(TagKeyChar, buffer[..k]) && buffer[k] == EQUALS
             && All(TagValueChar, buffer[k + 1..]);
    var longer := buffer + [c];
    assert longer[..k] == buffer[..k] && longer[k + 1..] == buffer[k + 1..] + [c];
  }

  lemma TagBufferStarts(buffer: Text)
    requires |buffer| > 0 && All(TagKeyChar, buffer)
    ensures IsTagBuffer(buffer + [EQUALS])
  {
    var longer := buffer + [EQUALS];
    assert longer[..|buffer|] == buffer && longer[|buffer| + 1..] == [];
  }

  // ---- Steps ----

  lemma StepBuffer(isAddress: AddressTest, g: Config, c: Octet)
    requires BufferOk(g.phase, g.buffer)
    ensures var h := Step(isAddress, g, c).config; BufferOk(h.phase, h.buffer)
  {
    if g.phase == TagValue && IsTagValueChar(c) {
      TagBufferGrows(g.buffer, c);
    }
    if g.phase == TagKey && g.buffer != [] {
      TagBufferStarts(g.buffer);
    }
  }

  lemma ParamsGrow(params: seq<Text>, p: Text)
    requires AreMiddles(params)
    ensures All(TrailingChar, p) ==> ParamsOk(params + [p])
    ensures IsMiddle(p) ==> AreMiddles(params + [p]) && ParamsOk(params + [p])
  {
    assert (params + [p])[..|params|] == params;
  }

  lemma StepTagKey(isAddress: AddressTest, g: Config, c: Octet)
    requires Valid(isAddress, g) && g.phase == TagKey
    ensures var h := Step(isAddress, g, c).config; MessageOk(isAddress, h.phase, h.message)
  {
    if c == SPACE && g.buffer != [] {
      EmplaceKeepsTagsOk(g.message.tags, Entry(g.buffer, []));
    }
  }

  lemma StepTagValue(isAddress: AddressTest, g: Config, c: Octet)
    requires Valid(isAddress, g) && g.phase == TagValue
    ensures var h := Step(isAddress, g, c).config; MessageOk(isAddress, h.phase, h.message)
  {
    if c == SPACE || c == SEMICOLON {
      TagOfOk(g.buffer);
      AssignKeepsTagsOk(g.message.tags, TagOf(g.buffer));
    }
  }

  lemma StepParams(isAddress: AddressTest, g: Config, c: Octet)
    requires Valid(isAddress, g) && (g.phase == Param || g.phase == Trailing)
    ensures var h := Step(isAddress, g, c).config; MessageOk(isAddress, h.phase, h.message)
  {
    ParamsGrow(g.message.params, g.buffer);
  }

  lemma StepMessage(isAddress: AddressTest, g: Config, c: Octet)
    requires Valid(isAddress, g)
    ensures var h := Step(isAddress, g, c).config; MessageOk(isAddress, h.phase, h.message)
  {
    if g.phase == TagKey {
      StepTagKey(isAddress, g, c);
    } else if g.phase == TagValue {
      StepTagValue(isAddress, g, c);
    } else if g.phase == Param || g.phase == Trailing {
      StepParams(isAddress, g, c);
    }
  }

  /** Every octet, whatever the answer, keeps the parser's invariant; a rejected octet changes nothing. */
  lemma StepValid(isAddress: AddressTest, g: Config, c: Octet)
    requires Valid(isAddress, g)
    ensures var s := Step(isAddress, g, c);
            && Valid(isAddress, s.config)
            && (s.state == Invalid ==> s.config == g)
            && (s.state == Complete <==> s.config.phase == Done && c != NUL)
  {
    StepBuffer(isAddress, g, c);
    StepMessage(isAddress, g, c);
  }

  /** Feeds every octet, going on after rejections. */
  ghost function Feed(isAddress: AddressTest, g: Config, t: Text): Config
    decreases t
  {
    if t == [] then g else Feed(isAddress, Step(isAddress, g, t[0]).config, t[1..])
  }

  /** The invariant holds after every sequence of octets, rejected ones included. */
  lemma {:induction false} AlwaysValid(isAddress: AddressTest, g: Config, t: Text)
    requires Valid(isAddress, g)
    ensures Valid(isAddress, Feed(isAddress, g, t))
    decreases t
  {
    if t != [] {
      StepValid(isAddress, g, t[0]);
      AlwaysValid(isAddress, Step(isAddress, g, t[0]).config, t[1..]);
    }
  }

  lemma {:induction false} RunValid(isAddress: AddressTest, g: Config, t: Text)
    requires Valid(isAddress, g)
    ensures var r := Run(isAddress, g, t);
            && Valid(isAddress, r.config)
            && (r.state == Complete ==> r.config.phase == Done)
    decreases t
  {
    if t != [] {
      StepValid(isAddress, g, t[0]);
      RunValid(isAddress, Step(isAddress, g, t[0]).config, t[1..]);
    }
  }

  /** Whatever octets arrive, a message that is reported complete is sound. */
  lemma CompleteIsSound(isAddress: AddressTest, t: Text)
    ensures var r := Run(isAddress, INITIAL, t); r.state == Complete ==> Sound(isAddress, r.config.message)
  {
    RunValid(isAddress, INITIAL, t);
  }
}
