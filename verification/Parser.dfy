/**
 server::MessageParser: the machine as an object that fills a `Message`.
 */
module Parser {
  import opened Octets
  import opened Prefixes
  import opened LinkedMaps
  import opened Messages
  import opened Machine

  lemma Onward<T>(s: seq<T>, k: nat)
    requires k < |s|
    ensures s[k..] != [] && s[k..][0] == s[k] && s[k..][1..] == s[k + 1..]
  {
  }

  class MessageParser {
    const isAddress: AddressTest
    var state: Phase
    var buffer: Text

    /** The parser together with the message it is filling. */
    ghost function View(message: Message): Config
      reads this, message
    {
      Config(state, buffer, message.View())
    }

    constructor (isAddress: AddressTest)
      ensures this.isAddress == isAddress && state == Start && buffer == []
    {
      this.isAddress := isAddress;
      state, buffer := Start, [];
    }

    method Reset()
      modifies this
      ensures state == Start && buffer == []
    {
      state := Start;
      buffer := [];
    }

    method AddBufferedTag(message: Message)
      modifies message`tags
      ensures message.View() == AssignTag(old(message.View()), TagOf(buffer))
    {
      var pieces := StrSplit(buffer, EQUALS, 2);
      if |pieces| < 2 {
        pieces := pieces + [[]];
      }
      message.AddTag(pieces[0], pieces[1]);
    }

    /** The tag phases of `Consume`. */
    method ConsumeTag(message: Message, input: Octet) returns (answer: ParseState)
      requires input != NUL && (state == TagKey || state == TagValue)
      modifies this, message
      ensures Stepped(View(message), answer) == Step(isAddress, old(View(message)), input)
    {
      if state == TagKey {
        if IsTagKeyChar(input) {
          buffer := buffer + [input];
          return Incomplete;
        }
        if input == EQUALS {
          if |buffer| == 0 {
            return Invalid;
          }
          state := TagValue;
          buffer := buffer + [input];
          return Incomplete;
        }
        if input == SPACE {
          if |buffer| != 0 {
            message.EmplaceTag(buffer, []);
            buffer := [];
          }
          state := AfterTags;
          return Incomplete;
        }
        return Invalid;
      }
      if input == SPACE || input == SEMICOLON {
        state := if input == SPACE then AfterTags else TagKey;
        AddBufferedTag(message);
        buffer := [];
        return Incomplete;
      }
      if input != SPACE && input != CR && input != LF {
        buffer := buffer + [input];
        return Incomplete;
      }
      return Invalid;
    }

    /** The start of a line, what follows its tags, and what follows its prefix. */
    method ConsumeHead(message: Message, input: Octet) returns (answer: ParseState)
      requires input != NUL && (state == Start || state == AfterTags || state == CommandNameOrNumber)
      modifies this
      ensures Stepped(View(message), answer) == Step(isAddress, old(View(message)), input)
    {
      if state == Start && input == AT {
        state := TagKey;
        return Incomplete;
      }
      if state == AfterTags && input == SPACE {
        return Incomplete;
      }
      if state != CommandNameOrNumber && input == COLON {
        state := Prefix;
        return Incomplete;
      }
      if IsLetter(input) {
        state := CommandName;
        buffer := buffer + [input];
        return Incomplete;
      }
      if IsDigit(input) {
        state := CommandNumber;
        buffer := buffer + [input];
        return Incomplete;
      }
      return Invalid;
    }

    method ConsumePrefix(message: Message, input: Octet) returns (answer: ParseState)
      requires input != NUL && state == Prefix
      modifies this, message
      ensures Stepped(View(message), answer) == Step(isAddress, old(View(message)), input)
    {
      if IsPrefixChar(input) {
        buffer := buffer + [input];
        return Incomplete;
      }
      if input == SPACE {
        var valid := IsValidPrefix(isAddress, buffer);
        if !valid {
          return Invalid;
        }
        state := CommandNameOrNumber;
        message.SetPrefix(buffer);
        buffer := [];
        return Incomplete;
      }
      return Invalid;
    }

    method ConsumeCommand(message: Message, input: Octet) returns (answer: ParseState)
      requires input != NUL && (state == CommandName || state == CommandNumber)
      modifies this, message
      ensures Stepped(View(message), answer) == Step(isAddress, old(View(message)), input)
    {
      if state == CommandName && IsLetter(input) {
        buffer := buffer + [input];
        return Incomplete;
      }
      if input == SPACE || input == CR {
        if state == CommandNumber && |buffer| != 3 {
          return Invalid;
        }
        state := if input == SPACE then ParamStart else Cr;
        message.SetCommand(buffer);
        buffer := [];
        return Incomplete;
      }
      if state == CommandNumber && IsDigit(input) && |buffer| < 3 {
        buffer := buffer + [input];
        return Incomplete;
      }
      return Invalid;
    }

    method ConsumeParam(message: Message, input: Octet) returns (answer: ParseState)
      requires input != NUL && (state == ParamStart || state == Param || state == Trailing)
      modifies this, message
      ensures Stepped(View(message), answer) == Step(isAddress, old(View(message)), input)
    {
      match state {
        case ParamStart =>
          if input == COLON {
            state := Trailing;
          } else if IsParamStartChar(input) {
            state := Param;
            buffer := buffer + [input];
          } else if input == CR {
            state := Cr;
          }
          return Incomplete;
        case Param =>
          if input == SPACE || input == CR {
            state := if input == SPACE then ParamStart else Cr;
            message.AddParam(buffer);
            buffer := [];
            return Incomplete;
          }
          if IsParamStartChar(input) || input == COLON {
            buffer := buffer + [input];
            return Incomplete;
          }
          return Invalid;
        case Trailing =>
          if input == CR {
            state := Cr;
            message.AddParam(buffer);
            buffer := [];
            return Incomplete;
          }
          if IsParamStartChar(input) || input == COLON || input == SPACE {
            buffer := buffer + [input];
            return Incomplete;
          }
          return Invalid;
      }
    }

    method Consume(message: Message, input: Octet) returns (answer: ParseState)
      modifies this, message
      ensures Stepped(View(message), answer) == Step(isAddress, old(View(message)), input)
    {
      if input == NUL {
        return Invalid;
      }
      match state {
        case Start | AfterTags | CommandNameOrNumber => answer := ConsumeHead(message, input);
        case TagKey | TagValue => answer := ConsumeTag(message, input);
        case Prefix => answer := ConsumePrefix(message, input);
        case CommandName | CommandNumber => answer := ConsumeCommand(message, input);
        case ParamStart | Param | Trailing => answer := ConsumeParam(message, input);
        case Cr =>
          if input == LF {
            state := Done;
            return Complete;
          }
          return Invalid;
        case Done =>
          return Complete;
      }
    }

    /** Advances `pos` over `input` while the answers are Incomplete. */
    method Parse(message: Message, input: Text, pos: nat) returns (answer: ParseState, next: nat)
      requires pos <= |input|
      modifies this, message
      ensures pos <= next <= |input|
      ensures Parsed(View(message), answer, next - pos) == Run(isAddress, old(View(message)), input[pos..])
    {
      answer := Incomplete;
      next := pos;
      while next != |input| && answer == Incomplete
        invariant pos <= next <= |input|
        invariant var whole := Run(isAddress, old(View(message)), input[pos..]);
                  if answer == Incomplete then
                    var rest := Run(isAddress, View(message), input[next..]);
                    whole == rest.(taken := rest.taken + (next - pos))
                  else whole == Parsed(View(message), answer, next - pos)
        decreases |input| - next
      {
        Onward(input, next);
        answer := Consume(message, input[next]);
        next := next + 1;
      }
    }
  }
}
