/**
 server::MessageSerializer: one traversal of a message drives a sink that measures or a sink that writes.
 */
module Serializer {
  import opened Octets
  import opened LinkedMaps
  import opened Messages
  import opened Encoding

  /** The two sinks in one: with a buffer it writes, without one it only counts. */
  class Sink {
    const buffer: array?<Octet>
    var offset: nat
    /** What the buffer held at first. */
    ghost const origin: Text
    /** Everything appended so far. */
    ghost var text: Text

    ghost predicate Valid()
      reads this, buffer
    {
      && offset == |text|
      && (buffer != null ==> offset <= |origin| == buffer.Length && buffer[..] == text + origin[offset..])
    }

    /** There is space for `n` more octets. */
    ghost predicate Room(n: nat)
      reads this
    {
      buffer != null ==> offset + n <= buffer.Length
    }

    constructor (buffer: array?<Octet>)
      ensures this.buffer == buffer && offset == 0 && text == [] && Valid()
      ensures buffer != null ==> origin == buffer[..]
    {
      this.buffer := buffer;
      offset := 0;
      text := [];
      origin := if buffer == null then [] else buffer[..];
    }

    method Append(more: Text)
      requires Valid() && Room(|more|)
      modifies this, buffer
      ensures Valid() && text == old(text) + more
    {
      if buffer != null {
        for i := 0 to |more|
          invariant offset == old(offset) && text == old(text)
          invariant buffer[..] == text + more[..i] + origin[offset + i..]
        {
          buffer[offset + i] := more[i];
          assert more[..i + 1] == more[..i] + [more[i]];
        }
        assert more[..|more|] == more;
      }
      offset := offset + |more|;
      text := text + more;
    }
  }

  // ---- The parts never outgrow the whole ----

  lemma {:induction false} TagsTextGrows(tags: seq<Tag>, i: nat)
    requires i <= |tags|
    ensures |TagsText(tags[..i])| <= |TagsText(tags)|
  {
    var n := |tags| - 1;
    if i <= n {
      TagsTextGrows(tags[..n], i);
      assert tags[..n][..i] == tags[..i];
    } else {
      assert tags[..i] == tags;
    }
  }

  lemma {:induction false} MiddlesTextGrows(params: seq<Text>, i: nat)
    requires i <= |params|
    ensures |MiddlesText(params[..i])| <= |MiddlesText(params)|
  {
    var n := |params| - 1;
    if i <= n {
      MiddlesTextGrows(params[..n], i);
      assert params[..n][..i] == params[..i];
    } else {
      assert params[..i] == params;
    }
  }

  function Separator(first: bool): Text {
    if first then [] else [SEMICOLON]
  }

  lemma NextMiddle(params: seq<Text>, i: nat)
    requires i + 1 < |params|
    ensures MiddlesText(params[..i + 1]) == MiddlesText(params[..i]) + ([SPACE] + params[i])
    ensures |MiddlesText(params[..i + 1])| <= |ParamsText(params)|
  {
    assert params[..i + 1][..i] == params[..i];
    var middles := params[..|params| - 1];
    assert middles[..i + 1] == params[..i + 1];
    MiddlesTextGrows(middles, i + 1);
  }

  // ---- SerializeMessage ----

  method SerializeTag(sink: Sink, tag: Tag, first: bool)
    requires sink.Valid() && sink.Room(|Separator(first)| + |TagText(tag)|)
    modifies sink, sink.buffer
    ensures sink.Valid() && sink.text == old(sink.text) + Separator(first) + TagText(tag)
  {
    if !first {
      sink.Append([SEMICOLON]);
    }
    ghost var before := sink.text;
    sink.Append(tag.key);
    if |tag.value| != 0 {
      sink.Append([EQUALS]);
      sink.Append(tag.value);
    }
    Flat(before, tag.key, [EQUALS], tag.value);
  }

  /** The text that the loop over tags appends for the `i`-th. */
  lemma NextTag(z: Text, tags: seq<Tag>, i: nat)
    requires i < |tags|
    ensures z + TagsText(tags[..i]) + Separator(i == 0) + TagText(tags[i]) == z + TagsText(tags[..i + 1])
    ensures |TagsText(tags[..i + 1])| <= |TagsText(tags)|
  {
    assert tags[..i + 1][..i] == tags[..i];
    Flat(z, TagsText(tags[..i]), Separator(i == 0), TagText(tags[i]));
    TagsTextGrows(tags, i + 1);
  }

  method SerializeTags(sink: Sink, tags: seq<Tag>)
    requires sink.Valid() && sink.Room(|TagsPart(tags)|)
    modifies sink, sink.buffer
    ensures sink.Valid() && sink.text == old(sink.text) + TagsPart(tags)
  {
    if |tags| == 0 {
      return;
    }
    sink.Append([AT]);
    ghost var start := sink.text;
    var first := true;
    for i := 0 to |tags|
      invariant first == (i == 0)
      invariant sink.Valid() && sink.text == start + TagsText(tags[..i])
    {
      NextTag(start, tags, i);
      SerializeTag(sink, tags[i], first);
      first := false;
    }
    assert tags[..|tags|] == tags;
    sink.Append([SPACE]);
    Flat(old(sink.text), [AT], TagsText(tags), [SPACE]);
  }

  method SerializePrefix(sink: Sink, prefix: Text)
    requires sink.Valid() && sink.Room(|PrefixPart(prefix)|)
    modifies sink, sink.buffer
    ensures sink.Valid() && sink.text == old(sink.text) + PrefixPart(prefix)
  {
    if |prefix| != 0 {
      sink.Append([COLON]);
      sink.Append(prefix);
      sink.Append([SPACE]);
    }
  }

  method SerializeParam(sink: Sink, param: Text, isLast: bool)
    requires sink.Valid() && sink.Room(1 + |if isLast then LastText(param) else param|)
    modifies sink, sink.buffer
    ensures sink.Valid() && sink.text == old(sink.text) + [SPACE] + if isLast then LastText(param) else param
  {
    sink.Append([SPACE]);
    ghost var before := sink.text;
    if isLast && RequiresTrailingMarker(param) {
      sink.Append([COLON]);
    }
    sink.Append(param);
    Flat(before, [], [COLON], param);
  }

  /** The text that the loop over parameters appends for the `i`-th. */
  lemma NextParam(z: Text, params: seq<Text>, i: nat)
    requires i < |params|
    ensures if i + 1 < |params|
            then z + MiddlesText(params[..i]) + [SPACE] + params[i] == z + MiddlesText(params[..i + 1])
                 && |MiddlesText(params[..i + 1])| <= |ParamsText(params)|
            else z + MiddlesText(params[..i]) + [SPACE] + LastText(params[i]) == z + ParamsText(params)
  {
    var text := if i + 1 < |params| then params[i] else LastText(params[i]);
    Flat(z, MiddlesText(params[..i]), [SPACE], text);
    if i + 1 < |params| {
      NextMiddle(params, i);
    } else {
      assert params[..i] == params[..|params| - 1];
    }
  }

  method SerializeParams(sink: Sink, params: seq<Text>)
    requires sink.Valid() && sink.Room(|ParamsText(params)|)
    modifies sink, sink.buffer
    ensures sink.Valid() && sink.text == old(sink.text) + ParamsText(params)
  {
    var i := 0;
    while i < |params|
      invariant i <= |params| && sink.Valid()
      invariant sink.text == old(sink.text) + if i < |params| then MiddlesText(params[..i]) else ParamsText(params)
    {
      NextParam(old(sink.text), params, i);
      SerializeParam(sink, params[i], i + 1 == |params|);
      i := i + 1;
    }
  }

  method SerializeMessage(sink: Sink, message: Message)
    requires sink.Valid() && sink.Room(|Encode(message.View())|)
    modifies sink, sink.buffer
    ensures sink.Valid() && sink.text == old(sink.text) + Encode(message.View())
  {
    SerializeTags(sink, message.tags);
    SerializePrefix(sink, message.prefix);
    sink.Append(message.command);
    SerializeParams(sink, message.params);
    sink.Append([CR]);
    sink.Append([LF]);
    ghost var head := TagsPart(message.tags) + PrefixPart(message.prefix) + message.command;
    Flat(old(sink.text), TagsPart(message.tags), PrefixPart(message.prefix), message.command);
    Flat(old(sink.text) + head, ParamsText(message.params), [CR], [LF]);
    Flat(old(sink.text), head, ParamsText(message.params) + [CR], [LF]);
  }

  /** The exact length of the encoding. */
  method ComputeRequiredSpace(message: Message) returns (size: nat)
    ensures size == |Encode(message.View())|
  {
    var sink := new Sink(null);
    SerializeMessage(sink, message);
    size := sink.offset;
  }

  /** Writes exactly the encoding, and nothing after it. */
  method WriteToBuffer(buffer: array<Octet>, message: Message) returns (size: nat)
    requires |Encode(message.View())| <= buffer.Length
    modifies buffer
    ensures size == |Encode(message.View())|
    ensures buffer[..size] == Encode(message.View())
    ensures buffer[size..] == old(buffer[..])[size..]
  {
    var sink := new Sink(buffer);
    SerializeMessage(sink, message);
    size := sink.offset;
  }
}
