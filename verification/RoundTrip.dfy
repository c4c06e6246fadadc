/**
 Parsing what was printed: which messages survive, and why no encoding is the start of another.
 */
module RoundTrip {
  import opened Collections
  import opened Octets
  import opened Prefixes
  import opened LinkedMaps
  import opened Messages
  import opened Machine
  import opened Soundness
  import opened Encoding
  import opened Completion
  import G = Grammar
  import Recognition

  /** Sound, and only the last tag may have no value. */
  ghost predicate WellFormed(isAddress: AddressTest, m: MessageValue) {
    Sound(isAddress, m) && Valued(m.tags)
  }

  predicate Valued(tags: seq<Tag>) {
    forall i :: 0 <= i < |tags| - 1 ==> tags[i].value != []
  }

  /** Parsing the encoding takes all of it, and only then completes, with the same message. */
  ghost predicate RoundTrips(isAddress: AddressTest, m: MessageValue) {
    Run(isAddress, INITIAL, Encode(m)) == Parsed(Config(Done, [], m), Complete, |Encode(m)|)
  }

  // ---- The line that is printed ----

  function ItemOf(tag: Tag): G.Item {
    G.Item(tag.key, tag.value)
  }

  function ItemsOf(tags: seq<Tag>): seq<G.Item> {
    if tags == [] then [] else ItemsOf(tags[..|tags| - 1]) + [ItemOf(tags[|tags| - 1])]
  }

  function LastOf(tag: Tag): G.Last {
    if tag.value == [] then G.Bare(tag.key) else G.Whole(ItemOf(tag))
  }

  function TagsOf(tags: seq<Tag>): G.Tags {
    if tags == [] then G.NoTags else G.Tags(ItemsOf(tags[..|tags| - 1]), LastOf(tags[|tags| - 1]), [])
  }

  function HeadOf(m: MessageValue): G.Head {
    G.Head(TagsOf(m.tags), if m.prefix == [] then None else Some(m.prefix), m.command)
  }

  function WordsOf(params: seq<Text>): seq<G.Word> {
    if params == [] then [] else WordsOf(params[..|params| - 1]) + [G.Word([], params[|params| - 1])]
  }

  /** The line of the grammar that a message is printed as: one space everywhere, and a marker only where needed. */
  function LineOf(m: MessageValue): G.Line {
    if m.params == [] || !RequiresTrailingMarker(m.params[|m.params| - 1])
    then G.Line(HeadOf(m), WordsOf(m.params), G.NoTail)
    else
      var n := |m.params| - 1;
      G.Line(HeadOf(m), WordsOf(m.params[..n]), G.Marked([], m.params[n]))
  }

  // ---- Its text ----

  predicate AllValued(tags: seq<Tag>) {
    forall i :: 0 <= i < |tags| ==> tags[i].value != []
  }

  lemma LastOfText(tag: Tag)
    ensures G.LastText(LastOf(tag)) == TagText(tag)
  {
    NothingMore(tag.key);
  }

  /** A tag that is valued is printed as an item. */
  lemma ItemOfText(tag: Tag)
    requires tag.value != []
    ensures G.ItemText(ItemOf(tag)) == TagText(tag)
  {
  }

  /** What comes before the `n`-th of the tags. */
  function Lead(tags: seq<Tag>): Text {
    if tags == [] then [] else TagsText(tags) + [SEMICOLON]
  }

  lemma LeadGrows(tags: seq<Tag>)
    requires tags != []
    ensures var n := |tags| - 1; Lead(tags) == Lead(tags[..n]) + (TagText(tags[n]) + [SEMICOLON])
  {
    var n := |tags| - 1;
    if n == 0 {
      assert TagsText(tags) == TagText(tags[n]) && Lead(tags[..n]) == [];
    }
    Assoc(Lead(tags[..n]), TagText(tags[n]), [SEMICOLON]);
  }

  /** Tags that are all valued are printed as items. */
  lemma {:induction false} ItemsOfText(tags: seq<Tag>)
    requires AllValued(tags)
    ensures G.ItemsText(ItemsOf(tags)) == Lead(tags)
    decreases |tags|
  {
    if tags != [] {
      var n := |tags| - 1;
      ItemsOfText(tags[..n]);
      Recognition.ItemJoins(ItemsOf(tags[..n]), ItemOf(tags[n]));
      ItemOfText(tags[n]);
      LeadGrows(tags);
    }
  }

  lemma TagsTextParts(tags: seq<Tag>)
    requires Valued(tags) && tags != []
    ensures var n := |tags| - 1;
            TagsText(tags) == G.ItemsText(ItemsOf(tags[..n])) + G.LastText(LastOf(tags[n]))
  {
    ItemsOfText(tags[..|tags| - 1]);
    LastOfText(tags[|tags| - 1]);
  }

  lemma Closed<T>(a: seq<T>, b: seq<T>, c: seq<T>, d: seq<T>)
    ensures a + b + c + d + [] == a + (b + c) + d
  {
  }

  lemma TagsOfText(tags: seq<Tag>)
    requires Valued(tags)
    ensures G.TagsText(TagsOf(tags)) == TagsPart(tags)
  {
    if tags != [] {
      var n := |tags| - 1;
      TagsTextParts(tags);
      Closed([AT], G.ItemsText(ItemsOf(tags[..n])), G.LastText(LastOf(tags[n])), [SPACE]);
    }
  }

  lemma HeadOfText(m: MessageValue)
    requires Valued(m.tags)
    ensures G.HeadText(HeadOf(m)) == TagsPart(m.tags) + PrefixPart(m.prefix) + m.command
  {
    TagsOfText(m.tags);
  }

  lemma WordText(p: Text)
    ensures G.WordText(G.Word([], p)) == [SPACE] + p
  {
    NothingMore([SPACE]);
  }

  lemma {:induction false} WordsOfText(params: seq<Text>)
    ensures G.WordsText(WordsOf(params)) == MiddlesText(params)
    decreases |params|
  {
    if params != [] {
      var n := |params| - 1;
      WordsOfText(params[..n]);
      WordText(params[n]);
      Recognition.WordJoins(WordsOf(params[..n]), G.Word([], params[n]));
    }
  }

  lemma ParamsOfText(m: MessageValue)
    ensures G.WordsText(LineOf(m).words) + G.TailText(LineOf(m).tail) == ParamsText(m.params)
  {
    if m.params != [] {
      var n := |m.params| - 1;
      var p := m.params[n];
      var middles := MiddlesText(m.params[..n]);
      if RequiresTrailingMarker(p) {
        WordsOfText(m.params[..n]);
        NothingMore([SPACE]);
        Assoc([SPACE], [COLON], p);
        Assoc(middles, [SPACE], [COLON] + p);
      } else {
        WordsOfText(m.params);
        Assoc(middles, [SPACE], p);
        NothingMore(MiddlesText(m.params));
      }
    }
  }

  /** A message is printed as its line. */
  lemma EncodeIsLine(m: MessageValue)
    requires Valued(m.tags)
    ensures Encode(m) == G.Print(LineOf(m))
  {
    var line := LineOf(m);
    var head := G.HeadText(line.head);
    HeadOfText(m);
    ParamsOfText(m);
    Assoc(head, G.WordsText(line.words), G.TailText(line.tail));
    Assoc(head, ParamsText(m.params), [CR]);
  }

  // ---- Its meaning ----

  lemma ItemOfTag(tag: Tag)
    requires TagOk(tag)
    ensures G.ItemTag(ItemOf(tag)) == tag && G.ItemLegal(ItemOf(tag)) && G.LastLegal(LastOf(tag))
  {
  }

  /** The last tag is new, so adding it either way appends it. */
  lemma NewTagAppends(tags: seq<Tag>)
    requires DistinctKeys(tags) && tags != []
    ensures var n := |tags| - 1;
            && Assign(tags[..n], tags[n].key, tags[n].value) == tags
            && Emplace(tags[..n], tags[n].key, tags[n].value) == tags
  {
    var n := |tags| - 1;
    PlaceUnique(tags[..n], tags[n].key, n);
    assert tags[..n] + [tags[n]] == tags;
  }

  lemma {:induction false} ItemsOfMeaning(tags: seq<Tag>)
    requires TagsOk(tags)
    ensures G.ItemsLegal(ItemsOf(tags)) && G.ItemsMeaning(ItemsOf(tags)) == tags
    decreases |tags|
  {
    if tags != [] {
      var n := |tags| - 1;
      ItemsOfMeaning(tags[..n]);
      ItemOfTag(tags[n]);
      NewTagAppends(tags);
      Recognition.ItemJoins(ItemsOf(tags[..n]), ItemOf(tags[n]));
    }
  }

  lemma TagsOfMeaning(tags: seq<Tag>)
    requires TagsOk(tags)
    ensures G.TagsLegal(TagsOf(tags)) && G.TagsMeaning(TagsOf(tags)) == tags
  {
    if tags != [] {
      var n := |tags| - 1;
      ItemsOfMeaning(tags[..n]);
      ItemOfTag(tags[n]);
      NewTagAppends(tags);
    }
  }

  lemma {:induction false} WordsOfMeaning(params: seq<Text>)
    ensures G.WordsMeaning(WordsOf(params)) == params
    ensures AreMiddles(params) ==> G.WordsLegal(WordsOf(params))
    decreases |params|
  {
    if params != [] {
      var n := |params| - 1;
      var init, w := params[..n], G.Word([], params[n]);
      WordsOfMeaning(init);
      Recognition.WordJoins(WordsOf(init), w);
      assert init + [params[n]] == params;
      if AreMiddles(params) {
        assert AreMiddles(init) && IsMiddle(params[n]);
        Recognition.WordsGrow(WordsOf(init), w);
      }
    }
  }

  /** A last parameter that needs no marker is a legal middle. */
  lemma UnmarkedIsMiddle(p: Text)
    requires All(TrailingChar, p) && !RequiresTrailingMarker(p)
    ensures IsMiddle(p)
  {
  }

  lemma ParamsOfMeaning(m: MessageValue)
    requires ParamsOk(m.params)
    ensures G.WordsLegal(LineOf(m).words) && G.TailLegal(LineOf(m).tail) && G.Meaning(LineOf(m)).params == m.params
  {
    if m.params == [] {
      WordsOfMeaning(m.params);
    } else {
      var n := |m.params| - 1;
      var p := m.params[n];
      assert m.params[..n] + [p] == m.params;
      if RequiresTrailingMarker(p) {
        WordsOfMeaning(m.params[..n]);
      } else {
        UnmarkedIsMiddle(p);
        assert AreMiddles(m.params);
        WordsOfMeaning(m.params);
        NothingMore(m.params);
      }
    }
  }

  /** The line of a well-formed message is legal, and means the message. */
  lemma LineMeansMessage(isAddress: AddressTest, m: MessageValue)
    requires Sound(isAddress, m)
    ensures G.Legal(isAddress, LineOf(m)) && G.Meaning(LineOf(m)) == m
  {
    TagsOfMeaning(m.tags);
    ParamsOfMeaning(m);
  }

  // ---- The theorems ----

  lemma WellFormedRoundTrips(isAddress: AddressTest, m: MessageValue)
    requires WellFormed(isAddress, m)
    ensures RoundTrips(isAddress, m)
  {
    EncodeIsLine(m);
    LineMeansMessage(isAddress, m);
    LinesComplete(isAddress, LineOf(m));
  }

  /** A tag without a value before another tag is printed as text that the parser rejects. */
  lemma UnvaluedIsRejected(isAddress: AddressTest, m: MessageValue)
    requires TagsOk(m.tags) && !Valued(m.tags)
    ensures Run(isAddress, INITIAL, Encode(m)).state == Invalid
  {
    var i := FirstUnvalued(m.tags);
    var init := m.tags[..i + 1];
    UnvaluedLeads(isAddress, init);
    var tail := EncodingContinues(m, i + 1);
    assert ([SEMICOLON] + tail)[0] == SEMICOLON;
    RunConcat(isAddress, INITIAL, [AT] + TagsText(init), [SEMICOLON] + tail);
  }

  /** The parser after a bare tag, where it takes no semicolon. */
  lemma UnvaluedLeads(isAddress: AddressTest, tags: seq<Tag>)
    requires TagsOk(tags) && Valued(tags) && tags != [] && tags[|tags| - 1].value == []
    ensures Leads(isAddress, INITIAL, [AT] + TagsText(tags),
                  Config(TagKey, tags[|tags| - 1].key, EMPTY.(tags := tags[..|tags| - 1])))
  {
    var n := |tags| - 1;
    var init, key := tags[..n], tags[n].key;
    var begun := Config(TagKey, [], EMPTY);
    var listed := Config(TagKey, [], WithTags(init));
    ItemsOfMeaning(init);
    ItemsOfText(init);
    var items := G.ItemsText(ItemsOf(init));
    LeadsByOne(isAddress, INITIAL, AT);
    ItemsLead(isAddress, ItemsOf(init));
    KeyLeads(isAddress, listed.message, key);
    LeadsOn(isAddress, INITIAL, [AT], begun, items, listed);
    LeadsOn(isAddress, INITIAL, [AT] + items, listed, key, Config(TagKey, key, WithTags(init)));
    LastOfText(tags[n]);
    Assoc([AT], items, key);
  }

  /** After the first `n` tags of an encoding comes a semicolon, if there are more. */
  lemma EncodingContinues(m: MessageValue, n: nat) returns (tail: Text)
    requires 0 < n < |m.tags|
    ensures Encode(m) == [AT] + TagsText(m.tags[..n]) + ([SEMICOLON] + tail)
  {
    var rest := TagsTextContinues(m.tags, n);
    var more := PrefixPart(m.prefix) + m.command + (ParamsText(m.params) + [CR]) + [LF];
    tail := rest + [SPACE] + more;
    EncodeParts(m);
    Continues([AT], TagsText(m.tags[..n]), [SEMICOLON], rest, [SPACE], more);
  }

  lemma EncodeParts(m: MessageValue)
    ensures Encode(m) == TagsPart(m.tags) + (PrefixPart(m.prefix) + m.command + (ParamsText(m.params) + [CR]) + [LF])
  {
    var tags, prefix, params := TagsPart(m.tags), PrefixPart(m.prefix), ParamsText(m.params) + [CR];
    Assoc(tags, prefix, m.command);
    Assoc(tags, prefix + m.command, params);
    Assoc(tags, prefix + m.command + params, [LF]);
  }

  lemma Continues<T>(a: seq<T>, head: seq<T>, b: seq<T>, rest: seq<T>, c: seq<T>, more: seq<T>)
    ensures a + (head + (b + rest)) + c + more == a + head + (b + (rest + c + more))
  {
    Assoc(a, head, b + rest);
    Assoc(a + head, b + rest, c);
    Assoc(a + head, b + rest + c, more);
    Flat(b, rest, c, more);
  }

  lemma FirstUnvalued(tags: seq<Tag>) returns (i: nat)
    requires !Valued(tags)
    ensures i < |tags| - 1 && tags[i].value == [] && Valued(tags[..i + 1])
  {
    i := 0;
    while tags[i].value != []
      invariant i < |tags| && forall j :: 0 <= j < i ==> tags[j].value != []
      decreases |tags| - i
    {
      i := i + 1;
    }
  }

  /** After the first `n` tags comes a semicolon. */
  lemma {:induction false} TagsTextContinues(tags: seq<Tag>, n: nat) returns (rest: Text)
    requires 0 < n < |tags|
    ensures TagsText(tags) == TagsText(tags[..n]) + ([SEMICOLON] + rest)
    decreases |tags|
  {
    var last := |tags| - 1;
    if n == last {
      rest := TagText(tags[last]);
    } else {
      var shorter := TagsTextContinues(tags[..last], n);
      assert tags[..last][..n] == tags[..n];
      rest := shorter + [SEMICOLON] + TagText(tags[last]);
    }
  }

  /** The exact domain of the round trip. */
  lemma RoundTripsExactly(isAddress: AddressTest, m: MessageValue)
    ensures RoundTrips(isAddress, m) <==> WellFormed(isAddress, m)
  {
    if WellFormed(isAddress, m) {
      WellFormedRoundTrips(isAddress, m);
    } else if RoundTrips(isAddress, m) {
      CompleteIsSound(isAddress, Encode(m));
      UnvaluedIsRejected(isAddress, m);
    }
  }

  /** Every proper start of an encoding is Incomplete, so the message completes at its last octet. */
  lemma IncompleteUntilTheEnd(isAddress: AddressTest, m: MessageValue, k: nat)
    requires WellFormed(isAddress, m) && k < |Encode(m)|
    ensures Run(isAddress, INITIAL, Encode(m)[..k]).state == Incomplete
  {
    WellFormedRoundTrips(isAddress, m);
    RunPrefix(isAddress, INITIAL, Encode(m), k);
  }

  /** No encoding is the start of another; in particular the encoding is injective. */
  lemma PrefixFree(isAddress: AddressTest, m: MessageValue, n: MessageValue)
    requires WellFormed(isAddress, m) && WellFormed(isAddress, n)
    requires Encode(m) <= Encode(n)
    ensures m == n
  {
    WellFormedRoundTrips(isAddress, m);
    WellFormedRoundTrips(isAddress, n);
    RunPrefix(isAddress, INITIAL, Encode(n), |Encode(m)|);
    assert Encode(n)[..|Encode(m)|] == Encode(m);
  }

  /** Printing and re-reading a parsed message gives it back, or is rejected for an unvalued tag. */
  lemma Normalization(isAddress: AddressTest, t: Text)
    requires Run(isAddress, INITIAL, t).state == Complete
    ensures var m := Run(isAddress, INITIAL, t).config.message;
            if Valued(m.tags) then RoundTrips(isAddress, m)
            else Run(isAddress, INITIAL, Encode(m)).state == Invalid
  {
    CompleteIsSound(isAddress, t);
    var m := Run(isAddress, INITIAL, t).config.message;
    if Valued(m.tags) {
      WellFormedRoundTrips(isAddress, m);
    } else {
      UnvaluedIsRejected(isAddress, m);
    }
  }

  const A: Octet := 0x61
  const B: Octet := 0x62
  const C: Octet := 0x63
  const X: Octet := 0x58

  /** `@a=;b=c X`, with its line end. */
  function UnvaluedLine(): G.Line {
    G.Line(G.Head(G.Tags([G.Item([A], [])], G.Whole(G.Item([B], [C])), []), None, [X]), [], G.NoTail)
  }

  lemma UnvaluedLineText()
    ensures G.Print(UnvaluedLine()) == [AT, A, EQUALS, SEMICOLON, B, EQUALS, C, SPACE, X, CR, LF]
  {
    var items := [G.Item([A], [])];
    assert items[..0] == [];
    assert G.ItemsText(items) == [A, EQUALS, SEMICOLON];
    assert G.TagsText(UnvaluedLine().head.tags) == [AT, A, EQUALS, SEMICOLON, B, EQUALS, C, SPACE];
  }

  lemma UnvaluedLineMeans(isAddress: AddressTest)
    ensures G.Legal(isAddress, UnvaluedLine())
    ensures G.Meaning(UnvaluedLine()) == MessageValue([], [X], [], [Entry([A], []), Entry([B], [C])])
  {
    var items := [G.Item([A], [])];
    var first: seq<Tag> := [Entry([A], [])];
    assert items[..0] == [];
    assert G.ItemsMeaning(items) == first;
    assert [A][0] != [B][0];
    assert !HasKey(first, [B]);
  }

  /** The parser itself produces messages that do not survive printing: `@a=;b=c X` completes, and what is printed
      for it is rejected. */
  lemma ParsedButNotReread(isAddress: AddressTest)
    ensures var t := [AT, A, EQUALS, SEMICOLON, B, EQUALS, C, SPACE, X, CR, LF];
            var m := MessageValue([], [X], [], [Entry([A], []), Entry([B], [C])]);
            && Run(isAddress, INITIAL, t) == Parsed(Config(Done, [], m), Complete, |t|)
            && Run(isAddress, INITIAL, Encode(m)).state == Invalid
  {
    var m := G.Meaning(UnvaluedLine());
    UnvaluedLineText();
    UnvaluedLineMeans(isAddress);
    LinesComplete(isAddress, UnvaluedLine());
    assert m.tags[0].value == [];
    Normalization(isAddress, G.Print(UnvaluedLine()));
  }
}
