/**
 A message is never printed longer than it was read.
 */
module SizeBound {
  import opened Octets
  import opened Prefixes
  import opened LinkedMaps
  import opened Messages
  import opened Machine
  import opened Soundness
  import opened Encoding

  /** The octets of the tags, each with the separator or space after it. */
  function Weight(tags: seq<Tag>): nat {
    if tags == [] then 0 else Weight(tags[..|tags| - 1]) + |TagText(tags[|tags| - 1])| + 1
  }

  lemma {:induction false} WeightOfUpdate(tags: seq<Tag>, i: nat, tag: Tag)
    requires i < |tags|
    ensures Weight(tags[i := tag]) + |TagText(tags[i])| == Weight(tags) + |TagText(tag)|
  {
    var n := |tags| - 1;
    if i == n {
      assert tags[i := tag][..n] == tags[..n];
    } else {
      WeightOfUpdate(tags[..n], i, tag);
      assert tags[i := tag][..n] == tags[..n][i := tag];
    }
  }

  /** Adding a tag costs at most its own text and a separator; a repeated key costs less. */
  lemma WeightOfAssign(tags: seq<Tag>, tag: Tag)
    ensures Weight(Assign(tags, tag.key, tag.value)) <= Weight(tags) + |TagText(tag)| + 1
  {
    assert (tags + [tag])[..|tags|] == tags;
    if HasKey(tags, tag.key) {
      WeightOfUpdate(tags, Place(tags, tag.key), tag);
    }
  }

  lemma WeightOfEmplace(tags: seq<Tag>, key: Text)
    ensures Weight(Emplace(tags, key, [])) <= Weight(tags) + |key| + 1
  {
    var tag := Entry(key, []);
    assert TagText(tag) == key;
    assert (tags + [tag])[..|tags|] == tags;
  }

  /** A tag's canonical text is no longer than what was buffered for it. */
  lemma TagOfIsShort(buffer: Text)
    requires IsTagBuffer(buffer)
    ensures |TagText(TagOf(buffer))| <= |buffer|
  {
    var k :| 0 < k < |buffer| && All(TagKeyChar, buffer[..k]) && buffer[k] == EQUALS
             && All(TagValueChar, buffer[k + 1..]);
    TagKeyHasNoEquals(buffer[..k]);
    TagOfMeans(buffer, k);
  }

  function MiddlesSize(params: seq<Text>): nat {
    if params == [] then 0 else MiddlesSize(params[..|params| - 1]) + 1 + |params[|params| - 1]|
  }

  function MarkerSize(p: Text): nat {
    if RequiresTrailingMarker(p) then 1 else 0
  }

  function ParamsSize(params: seq<Text>): nat {
    if params == [] then 0 else MiddlesSize(params) + MarkerSize(params[|params| - 1])
  }

  function HeadSize(m: MessageValue): nat {
    var tags := if m.tags == [] then 0 else 1 + Weight(m.tags);
    var prefix := if m.prefix == [] then 0 else |m.prefix| + 2;
    tags + prefix + |m.command|
  }

  lemma {:induction false} TagsTextSize(tags: seq<Tag>)
    requires tags != []
    ensures |TagsText(tags)| + 1 == Weight(tags)
  {
    var n := |tags| - 1;
    if n == 0 {
      assert tags[..n] == [];
    } else {
      TagsTextSize(tags[..n]);
    }
  }

  lemma {:induction false} MiddlesTextSize(params: seq<Text>)
    ensures |MiddlesText(params)| == MiddlesSize(params)
  {
    if params != [] {
      MiddlesTextSize(params[..|params| - 1]);
    }
  }

  /** The length of an encoding, part by part. */
  lemma EncodeSize(m: MessageValue)
    ensures |Encode(m)| == HeadSize(m) + ParamsSize(m.params) + 2
  {
    if m.tags != [] {
      TagsTextSize(m.tags);
    }
    if m.params != [] {
      MiddlesTextSize(m.params[..|m.params| - 1]);
    }
  }

  lemma MiddlesAreUnmarked(params: seq<Text>)
    requires AreMiddles(params)
    ensures ParamsSize(params) == MiddlesSize(params)
  {
  }

  lemma SizeOfAdd(params: seq<Text>, p: Text)
    ensures MiddlesSize(params + [p]) == MiddlesSize(params) + 1 + |p|
    ensures ParamsSize(params + [p]) == MiddlesSize(params) + 1 + |p| + MarkerSize(p)
  {
    assert (params + [p])[..|params|] == params;
  }

  /** The octets it takes at least to bring the parser here. */
  function Spent(g: Config): nat {
    var m := g.message;
    match g.phase
    case Start => 0
    case TagKey | TagValue => 1 + Weight(m.tags) + |g.buffer|
    case AfterTags => HeadSize(m)
    case Prefix => HeadSize(m) + 1 + |g.buffer|
    case CommandNameOrNumber | CommandName | CommandNumber => HeadSize(m) + |g.buffer|
    case ParamStart => HeadSize(m) + MiddlesSize(m.params) + 1
    case Param => HeadSize(m) + MiddlesSize(m.params) + 1 + |g.buffer|
    case Trailing => HeadSize(m) + MiddlesSize(m.params) + 2 + |g.buffer|
    case Cr => HeadSize(m) + ParamsSize(m.params) + 1
    case Done => HeadSize(m) + ParamsSize(m.params) + 2
  }

  lemma StepSpendsOnTagKey(isAddress: AddressTest, g: Config, c: Octet)
    requires Valid(isAddress, g) && g.phase == TagKey
    ensures var s := Step(isAddress, g, c); s.state != Invalid ==> Spent(s.config) <= Spent(g) + 1
  {
    WeightOfEmplace(g.message.tags, g.buffer);
  }

  lemma TagEnds(m: MessageValue, buffer: Text, c: Octet)
    requires IsTagBuffer(buffer) && (c == SPACE || c == SEMICOLON) && m.prefix == [] && m.command == []
    ensures Spent(Config(if c == SPACE then AfterTags else TagKey, [], AssignTag(m, TagOf(buffer)))) <=
            Spent(Config(TagValue, buffer, m)) + 1
  {
    TagOfIsShort(buffer);
    WeightOfAssign(m.tags, TagOf(buffer));
  }

  lemma StepSpendsOnTagValue(isAddress: AddressTest, g: Config, c: Octet)
    requires Valid(isAddress, g) && g.phase == TagValue
    ensures var s := Step(isAddress, g, c); s.state != Invalid ==> Spent(s.config) <= Spent(g) + 1
  {
    if c == SPACE || c == SEMICOLON {
      TagEnds(g.message, g.buffer, c);
    }
  }

  lemma StepSpendsOnParamStart(isAddress: AddressTest, g: Config, c: Octet)
    requires Valid(isAddress, g) && g.phase == ParamStart
    ensures var s := Step(isAddress, g, c); s.state != Invalid ==> Spent(s.config) <= Spent(g) + 1
  {
    MiddlesAreUnmarked(g.message.params);
  }

  lemma ParamEnds(m: MessageValue, p: Text, c: Octet)
    requires IsMiddle(p) && (c == SPACE || c == CR)
    ensures Spent(Config(AfterWord(c), [], m.(params := m.params + [p]))) == Spent(Config(Param, p, m)) + 1
  {
    SizeOfAdd(m.params, p);
    MiddleIsUnmarked(p);
  }

  lemma MiddleIsUnmarked(p: Text)
    requires IsMiddle(p)
    ensures MarkerSize(p) == 0
  {
    forall i | 0 <= i < |p| ensures p[i] != SPACE {
      assert ParamChar.Has(p[i]);
    }
  }

  lemma StepSpendsOnParam(isAddress: AddressTest, g: Config, c: Octet)
    requires g.phase == Param && IsMiddle(g.buffer)
    ensures var s := Step(isAddress, g, c); s.state != Invalid ==> Spent(s.config) <= Spent(g) + 1
  {
    if c == SPACE || c == CR {
      ParamEnds(g.message, g.buffer, c);
    }
  }

  lemma TrailingEnds(m: MessageValue, p: Text)
    ensures Spent(Config(Cr, [], m.(params := m.params + [p]))) <= Spent(Config(Trailing, p, m)) + 1
  {
    SizeOfAdd(m.params, p);
  }

  lemma StepSpendsOnTrailing(isAddress: AddressTest, g: Config, c: Octet)
    requires g.phase == Trailing
    ensures var s := Step(isAddress, g, c); s.state != Invalid ==> Spent(s.config) <= Spent(g) + 1
  {
    if c == CR {
      TrailingEnds(g.message, g.buffer);
    }
  }

  lemma StepSpendsOnHead(isAddress: AddressTest, g: Config, c: Octet)
    requires Valid(isAddress, g) && (g.phase == Start || g.phase == AfterTags || g.phase == CommandNameOrNumber)
    ensures var s := Step(isAddress, g, c); s.state != Invalid ==> Spent(s.config) <= Spent(g) + 1
  {
  }

  lemma StepSpendsOnPrefix(isAddress: AddressTest, g: Config, c: Octet)
    requires Valid(isAddress, g) && g.phase == Prefix
    ensures var s := Step(isAddress, g, c); s.state != Invalid ==> Spent(s.config) <= Spent(g) + 1
  {
  }

  lemma StepSpendsOnCommand(isAddress: AddressTest, g: Config, c: Octet)
    requires Valid(isAddress, g) && (g.phase == CommandName || g.phase == CommandNumber)
    ensures var s := Step(isAddress, g, c); s.state != Invalid ==> Spent(s.config) <= Spent(g) + 1
  {
  }

  /** Each accepted octet pays for at most one octet of the canonical form. */
  lemma StepSpends(isAddress: AddressTest, g: Config, c: Octet)
    requires Valid(isAddress, g)
    ensures var s := Step(isAddress, g, c); s.state != Invalid ==> Spent(s.config) <= Spent(g) + 1
  {
    match g.phase {
      case TagKey => StepSpendsOnTagKey(isAddress, g, c);
      case TagValue => StepSpendsOnTagValue(isAddress, g, c);
      case Start | AfterTags | CommandNameOrNumber => StepSpendsOnHead(isAddress, g, c);
      case Prefix => StepSpendsOnPrefix(isAddress, g, c);
      case CommandName | CommandNumber => StepSpendsOnCommand(isAddress, g, c);
      case ParamStart => StepSpendsOnParamStart(isAddress, g, c);
      case Param => StepSpendsOnParam(isAddress, g, c);
      case Trailing => StepSpendsOnTrailing(isAddress, g, c);
      case Cr | Done =>
    }
  }

  lemma {:induction false} RunSpends(isAddress: AddressTest, g: Config, t: Text)
    requires Valid(isAddress, g)
    ensures var r := Run(isAddress, g, t); r.state != Invalid ==> Spent(r.config) <= Spent(g) + r.taken
    decreases t
  {
    if t != [] {
      StepValid(isAddress, g, t[0]);
      StepSpends(isAddress, g, t[0]);
      RunSpends(isAddress, Step(isAddress, g, t[0]).config, t[1..]);
    }
  }

  /** Re-printing a message takes no more octets than reading it did. */
  lemma CanonicalSizeBound(isAddress: AddressTest, t: Text)
    ensures var r := Run(isAddress, INITIAL, t); r.state == Complete ==> |Encode(r.config.message)| <= r.taken
  {
    RunValid(isAddress, INITIAL, t);
    RunSpends(isAddress, INITIAL, t);
    EncodeSize(Run(isAddress, INITIAL, t).config.message);
  }
}
