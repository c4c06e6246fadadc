/**
 Messages: one line of the IRC protocol, with its ordered map of tags.
 */
module Messages {
  import opened Collections
  import opened Octets
  import opened LinkedMaps

  type Tag = Entry<Text, Text>

  /** What a `Message` object holds.  `tags` lists the map in insertion order. */
  datatype MessageValue = MessageValue(prefix: Text, command: Text, params: seq<Text>, tags: seq<Tag>)

  const EMPTY := MessageValue([], [], [], [])

  /** irc::Message.  The two `AddTag` overloads are `AddTag` (copying) and `EmplaceTag` (moving). */
  class Message {
    var prefix: Text
    var command: Text
    var params: seq<Text>
    var tags: seq<Tag>

    ghost function View(): MessageValue
      reads this
    {
      MessageValue(prefix, command, params, tags)
    }

    constructor ()
      ensures View() == EMPTY
    {
      prefix, command, params, tags := [], [], [], [];
    }

    /** `message = {}` */
    method Clear()
      modifies this
      ensures View() == EMPTY
    {
      prefix, command, params, tags := [], [], [], [];
    }

    method AddTag(key: Text, value: Text)
      modifies this`tags
      ensures tags == Assign(old(tags), key, value) && KeepsOrder(old(tags), key, tags)
      ensures forall other :: Find(tags, other) == if other == key then Some(value) else Find(old(tags), other)
    {
      forall other {
        AssignMeans(tags, key, value, other);
      }
      tags := Assign(tags, key, value);
    }

    method EmplaceTag(key: Text, value: Text)
      modifies this`tags
      ensures tags == Emplace(old(tags), key, value) && KeepsOrder(old(tags), key, tags)
      ensures forall other :: Find(tags, other) ==
                              if other == key && !HasKey(old(tags), key) then Some(value) else Find(old(tags), other)
    {
      forall other {
        EmplaceMeans(tags, key, value, other);
      }
      tags := Emplace(tags, key, value);
    }

    method SetPrefix(text: Text)
      modifies this`prefix
      ensures prefix == text
    {
      prefix := text;
    }

    method SetCommand(text: Text)
      modifies this`command
      ensures command == text
    {
      command := text;
    }

    method AddParam(text: Text)
      modifies this`params
      ensures params == old(params) + [text]
    {
      params := params + [text];
    }
  }
}
