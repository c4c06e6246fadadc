/**
 The parser as a state machine on values: one step per octet, and the loop that feeds it.
 */
module Machine {
  import opened Octets
  import opened Prefixes
  import opened LinkedMaps
  import opened Messages

  datatype Phase = Start | TagKey | TagValue | AfterTags | Prefix | CommandNameOrNumber | CommandName
                 | CommandNumber | ParamStart | Param | Trailing | Cr | Done

  /** The answers of `Consume` and `Parse`. */
  datatype ParseState = Incomplete | Complete | Invalid

  /** The parser's two fields, and the message it is filling. */
  datatype Config = Config(phase: Phase, buffer: Text, message: MessageValue)
  {
    function Go(next: Phase): Config {
      this.(phase := next)
    }

    function Push(next: Phase, c: Octet): Config {
      this.(phase := next, buffer := buffer + [c])
    }
  }

  const INITIAL := Config(Start, [], EMPTY)

  datatype Stepped = Stepped(config: Config, state: ParseState)

  // ---- Splitting a buffered tag ----

  function IndexOf(c: Octet, t: Text): (k: nat)
    requires c in t
    ensures k < |t| && t[k] == c && c !in t[..k]
  {
    if t[0] == c then 0
    else
      var k := 1 + IndexOf(c, t[1..]);
      assert t[..k] == [t[0]] + t[1..][..k - 1];
      k
  }

  /** absl::StrSplit with absl::MaxSplits: at most `limit` cuts. */
  function StrSplit(t: Text, separator: Octet, limit: nat): (pieces: seq<Text>)
    ensures |pieces| >= 1
  {
    if limit == 0 || separator !in t then [t]
    else
      var k := IndexOf(separator, t);
      [t[..k]] + StrSplit(t[k + 1..], separator, limit - 1)
  }

  /** The tag in `key=value`; pieces after the second are dropped, a missing one counts as empty. */
  function TagOf(buffer: Text): Tag {
    var pieces := StrSplit(buffer, EQUALS, 2);
    var padded := if |pieces| < 2 then pieces + [[]] else pieces;
    Entry(padded[0], padded[1])
  }

  // ---- One octet ----

  function AssignTag(m: MessageValue, tag: Tag): MessageValue {
    m.(tags := Assign(m.tags, tag.key, tag.value))
  }

  function EmplaceTag(m: MessageValue, tag: Tag): MessageValue {
    m.(tags := Emplace(m.tags, tag.key, tag.value))
  }

  /** Stays in the phase and keeps the octet. */
  function Keep(g: Config, c: Octet): Stepped {
    Stepped(g.Push(g.phase, c), Incomplete)
  }

  /** Empties the buffer into the message and moves on. */
  function Flush(next: Phase, m: MessageValue): Stepped {
    Stepped(Config(next, [], m), Incomplete)
  }

  function Reject(g: Config): Stepped {
    Stepped(g, Invalid)
  }

  /** The first octet of a command. */
  function BeginCommand(g: Config, c: Octet): Stepped {
    if IsLetter(c) then Stepped(g.Push(CommandName, c), Incomplete)
    else if IsDigit(c) then Stepped(g.Push(CommandNumber, c), Incomplete)
    else Reject(g)
  }

  /** The octet that ends a command or a parameter: SPACE or CR. */
  function AfterWord(c: Octet): Phase {
    if c == SPACE then ParamStart else Cr
  }

  ghost function Step(isAddress: AddressTest, g: Config, c: Octet): Stepped {
    if c == NUL then Reject(g)
    else
      match g.phase
      case Start =>
        if c == AT then Stepped(g.Go(TagKey), Incomplete)
        else if c == COLON then Stepped(g.Go(Prefix), Incomplete)
        else BeginCommand(g, c)
      case TagKey =>
        if IsTagKeyChar(c) then Keep(g, c)
        else if c == EQUALS then
          if g.buffer == [] then Reject(g) else Stepped(g.Push(TagValue, c), Incomplete)
        else if c == SPACE then
          if g.buffer == [] then Stepped(g.Go(AfterTags), Incomplete)
          else Flush(AfterTags, EmplaceTag(g.message, Entry(g.buffer, [])))
        else Reject(g)
      case TagValue =>
        if c == SPACE then Flush(AfterTags, AssignTag(g.message, TagOf(g.buffer)))
        else if c == SEMICOLON then Flush(TagKey, AssignTag(g.message, TagOf(g.buffer)))
        else if c != CR && c != LF then Keep(g, c)
        else Reject(g)
      case AfterTags =>
        if c == SPACE then Stepped(g, Incomplete)
        else if c == COLON then Stepped(g.Go(Prefix), Incomplete)
        else BeginCommand(g, c)
      case Prefix =>
        if IsPrefixChar(c) then Keep(g, c)
        else if c == SPACE && IsPrefix(isAddress, g.buffer) then
          Flush(CommandNameOrNumber, g.message.(prefix := g.buffer))
        else Reject(g)
      case CommandNameOrNumber => BeginCommand(g, c)
      case CommandName =>
        if IsLetter(c) then Keep(g, c)
        else if c == SPACE || c == CR then Flush(AfterWord(c), g.message.(command := g.buffer))
        else Reject(g)
      case CommandNumber =>
        if c == SPACE || c == CR then
          if |g.buffer| != 3 then Reject(g) else Flush(AfterWord(c), g.message.(command := g.buffer))
        else if IsDigit(c) && |g.buffer| < 3 then Keep(g, c)
        else Reject(g)
      case ParamStart =>
        if c == COLON then Stepped(g.Go(Trailing), Incomplete)
        else if IsParamStartChar(c) then Stepped(g.Push(Param, c), Incomplete)
        else if c == CR then Stepped(g.Go(Cr), Incomplete)
        else Stepped(g, Incomplete)
      case Param =>
        if c == SPACE || c == CR then
          Flush(AfterWord(c), g.message.(params := g.message.params + [g.buffer]))
        else if IsParamChar(c) then Keep(g, c)
        else Reject(g)
      case Trailing =>
        if c == CR then Flush(Cr, g.message.(params := g.message.params + [g.buffer]))
        else if IsTrailingChar(c) then Keep(g, c)
        else Reject(g)
      case Cr =>
        if c == LF then Stepped(g.Go(Done), Complete) else Reject(g)
      case Done => Stepped(g, Complete)
  }

  // ---- The loop ----

  /** The result of `Parse`: where the parser is, its answer, and how many octets it took. */
  datatype Parsed = Parsed(config: Config, state: ParseState, taken: nat)

  /** Feeds octets until one is not answered Incomplete, or there are none left. */
  ghost function Run(isAddress: AddressTest, g: Config, t: Text): (r: Parsed)
    ensures r.taken <= |t| && (r.state == Incomplete ==> r.taken == |t|) && (t != [] ==> r.taken > 0)
    decreases t
  {
    if t == [] then Parsed(g, Incomplete, 0)
    else
      var s := Step(isAddress, g, t[0]);
      if s.state != Incomplete then Parsed(s.config, s.state, 1)
      else
        var r := Run(isAddress, s.config, t[1..]);
        r.(taken := r.taken + 1)
  }

  /** Running over a concatenation is running over the rest from where the first part stopped. */
  lemma {:induction false} RunConcat(isAddress: AddressTest, g: Config, s: Text, t: Text)
    ensures var r := Run(isAddress, g, s);
            Run(isAddress, g, s + t) ==
            if r.state != Incomplete then r
            else
              var q := Run(isAddress, r.config, t);
              q.(taken := |s| + q.taken)
    decreases s
  {
    if s == [] {
      assert s + t == t;
    } else {
      var u := s + t;
      assert u[0] == s[0] && u[1..] == s[1..] + t;
      RunConcat(isAddress, Step(isAddress, g, s[0]).config, s[1..], t);
    }
  }

  /** `t` takes the parser from `g` to `h`, every octet being answered Incomplete. */
  ghost predicate Leads(isAddress: AddressTest, g: Config, t: Text, h: Config) {
    Run(isAddress, g, t) == Parsed(h, Incomplete, |t|)
  }

  lemma LeadsOn(isAddress: AddressTest, g: Config, s: Text, h: Config, t: Text, k: Config)
    requires Leads(isAddress, g, s, h) && Leads(isAddress, h, t, k)
    ensures Leads(isAddress, g, s + t, k)
  {
    RunConcat(isAddress, g, s, t);
  }

  lemma LeadsByOne(isAddress: AddressTest, g: Config, c: Octet)
    requires Step(isAddress, g, c).state == Incomplete
    ensures Leads(isAddress, g, [c], Step(isAddress, g, c).config)
  {
    var h := Step(isAddress, g, c).config;
    assert [c][1..] == [];
    assert Run(isAddress, h, [c][1..]) == Parsed(h, Incomplete, 0);
  }

  /** A run that took `n` octets was Incomplete after fewer, and looked at no more. */
  lemma RunPrefix(isAddress: AddressTest, g: Config, t: Text, k: nat)
    requires k <= |t|
    ensures var r := Run(isAddress, g, t);
            && (k < r.taken ==> Run(isAddress, g, t[..k]).state == Incomplete)
            && (k >= r.taken ==> Run(isAddress, g, t[..k]) == r)
  {
    assert t == t[..k] + t[k..];
    RunConcat(isAddress, g, t[..k], t[k..]);
    var r := Run(isAddress, g, t);
    var q := Run(isAddress, g, t[..k]);
    if q.state == Incomplete && k >= r.taken {
      assert t[k..] == [];
    }
  }

  // ---- Chunks ----

  function Flatten(chunks: seq<Text>): Text {
    if chunks == [] then [] else chunks[0] + Flatten(chunks[1..])
  }

  /** Feeds the chunks one after the other until one is not answered Incomplete. */
  ghost function RunChunks(isAddress: AddressTest, g: Config, chunks: seq<Text>): Parsed
    decreases chunks
  {
    if chunks == [] then Parsed(g, Incomplete, 0)
    else
      var r := Run(isAddress, g, chunks[0]);
      if r.state != Incomplete then r
      else
        var q := RunChunks(isAddress, r.config, chunks[1..]);
        q.(taken := r.taken + q.taken)
  }

  /** However the octets are cut up, the parser ends in the same place with the same answer. */
  lemma {:induction false} ChunkingInvariance(isAddress: AddressTest, g: Config, chunks: seq<Text>)
    ensures RunChunks(isAddress, g, chunks) == Run(isAddress, g, Flatten(chunks))
    decreases chunks
  {
    if chunks != [] {
      var r := Run(isAddress, g, chunks[0]);
      RunConcat(isAddress, g, chunks[0], Flatten(chunks[1..]));
      ChunkingInvariance(isAddress, r.config, chunks[1..]);
    }
  }
}
