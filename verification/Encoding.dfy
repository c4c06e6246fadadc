/**
 The wire format of a message, as a function.
 */
module Encoding {
  import opened Octets
  import opened LinkedMaps
  import opened Messages

  function TagText(tag: Tag): Text {
    tag.key + if tag.value == [] then [] else [EQUALS] + tag.value
  }

  /** The tags, with semicolons between them. */
  function TagsText(tags: seq<Tag>): Text {
    if tags == [] then []
    else
      var n := |tags| - 1;
      TagsText(tags[..n]) + (if n == 0 then [] else [SEMICOLON]) + TagText(tags[n])
  }

  function TagsPart(tags: seq<Tag>): Text {
    if tags == [] then [] else [AT] + TagsText(tags) + [SPACE]
  }

  function PrefixPart(prefix: Text): Text {
    if prefix == [] then [] else [COLON] + prefix + [SPACE]
  }

  /** Every parameter after a space, none of them marked. */
  function MiddlesText(params: seq<Text>): Text {
    if params == [] then []
    else
      var n := |params| - 1;
      MiddlesText(params[..n]) + ([SPACE] + params[n])
  }

  /** Empty, led by a colon, or holding a space. */
  predicate RequiresTrailingMarker(param: Text) {
    param == [] || param[0] == COLON || SPACE in param
  }

  function LastText(param: Text): Text {
    if RequiresTrailingMarker(param) then [COLON] + param else param
  }

  /** Only the last parameter can carry the marker. */
  function ParamsText(params: seq<Text>): Text {
    if params == [] then []
    else
      var n := |params| - 1;
      MiddlesText(params[..n]) + [SPACE] + LastText(params[n])
  }

  function Encode(m: MessageValue): Text {
    TagsPart(m.tags) + PrefixPart(m.prefix) + m.command + (ParamsText(m.params) + [CR]) + [LF]
  }
}
