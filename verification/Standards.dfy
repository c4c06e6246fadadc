/**
 Where the parser's language and the standards part: prefixes and parameters of section 2.3.1 of RFC 2812, and the
 tags of the "Format" section of the IRCv3 Message Tags specification.
 */
module Standards {
  import opened Collections
  import opened Octets
  import opened Hostname
  import opened Prefixes
  import opened PrefixStarts
  import opened LinkedMaps
  import opened Messages
  import opened Machine
  import opened Soundness
  import opened Grammar
  import opened Recognition
  import opened Completion
  import opened Rfc

  // ---- Octets ----

  /** The parser's classes have the codes of the standard. */
  lemma ClassesAgree(c: Octet)
    ensures IsLetter(c) <==> RfcLetter(c)
    ensures IsDigit(c) <==> RfcDigit(c)
    ensures IsSpecial(c) <==> RfcSpecial(c)
    ensures IsUserChar(c) <==> RfcUserOctet(c)
    ensures IsLabelChar(c) <==> RfcLabelOctet(c)
    ensures IsHostChar(c) <==> RfcLabelOctet(c) || c == 0x2E || c == 0x3A
    ensures IsTagValueChar(c) <==> Byte(c) !in {0x00, 0x0D, 0x0A, 0x3B, 0x20}
    ensures IsTagKeyChar(c) <==> RfcLabelOctet(c) || c == 0x2F || c == 0x2B
    ensures IsPrefixChar(c) <==> IsPrefixCode(c)
  {
  }

  /** Letters, digits and specials, and "!", ".", "@", "-" and ":". */
  predicate IsPrefixCode(c: Octet) {
    RfcLabelOctet(c) || RfcSpecial(c) || c == 0x21 || c == 0x2E || c == 0x40 || c == 0x3A
  }

  predicate OfPrefixCodes(t: Text) {
    forall i :: 0 <= i < |t| ==> IsPrefixCode(t[i])
  }

  lemma PrefixCodesAgree(t: Text)
    ensures All(PrefixChar, t) <==> OfPrefixCodes(t)
  {
    forall i | 0 <= i < |t| ensures PrefixChar.Has(t[i]) <==> IsPrefixCode(t[i]) {
      ClassesAgree(t[i]);
    }
  }

  lemma NicknamesAgree(t: Text)
    ensures IsNickname(t) <==> RfcNickname(t)
  {
    forall i | 0 <= i < |t| ensures NickChar.Has(t[i]) <==> RfcLabelOctet(t[i]) || RfcSpecial(t[i]) {
      ClassesAgree(t[i]);
    }
    if |t| > 0 {
      ClassesAgree(t[0]);
    }
  }

  lemma UsersAgree(t: Text)
    ensures IsUser(t) <==> RfcUser(t)
  {
    forall i | 0 <= i < |t| ensures UserChar.Has(t[i]) <==> RfcUserOctet(t[i]) {
      ClassesAgree(t[i]);
    }
  }

  lemma LabelsAgree(t: Text)
    ensures All(LabelChar, t) <==> forall i :: 0 <= i < |t| ==> RfcLabelOctet(t[i])
    ensures IsLabel(t) <==> RfcShortname(t)
  {
    forall i | 0 <= i < |t| ensures LabelChar.Has(t[i]) <==> RfcLabelOctet(t[i]) {
      ClassesAgree(t[i]);
    }
    if |t| > 0 {
      ClassesAgree(t[0]);
    }
  }

  // ---- Hostnames ----

  lemma {:induction false} SplitAt(t: Text, k: nat)
    requires k <= |t| && DOT !in t[..k] && (k < |t| ==> t[k] == DOT)
    ensures SplitDots(t) == if k == |t| then [t] else [t[..k]] + SplitDots(t[k + 1..])
    decreases k
  {
    if k > 0 {
      assert t[..k][0] == t[0] && t[1..][..k - 1] == t[..k][1..];
      SplitAt(t[1..], k - 1);
      assert t[..k] == [t[0]] + t[1..][..k - 1] && t == [t[0]] + t[1..];
    }
  }

  lemma ShortnameHasNoDot(t: Text)
    requires RfcShortname(t)
    ensures DOT !in t
  {
  }

  lemma {:induction false} HostnamesAgree(t: Text)
    ensures IsHostname(t) <==> RfcHostname(t)
    decreases |t|
  {
    if DOT !in t {
      assert t[..|t|] == t;
      SplitAt(t, |t|);
      LabelsAgree(t);
      assert IsHostname(t) <==> IsLabel([t][0]);
    } else {
      var k := IndexOf(DOT, t);
      SplitAt(t, k);
      AreLabelsCons(t[..k], SplitDots(t[k + 1..]));
      LabelsAgree(t[..k]);
      HostnamesAgree(t[k + 1..]);
      FirstDotOnly(t, k);
    }
  }

  lemma NotBefore(t: Text, j: nat, k: nat)
    requires j <= |t| && k < |t| && t[k] == DOT && DOT !in t[..j]
    ensures j <= k
  {
    forall i | 0 <= i < j ensures t[i] != DOT {
      assert t[i] == t[..j][i];
    }
  }

  /** The first shortname ends at the first dot. */
  lemma FirstDotOnly(t: Text, k: nat)
    requires k < |t| && t[k] == DOT && DOT !in t[..k]
    ensures RfcHostname(t) <==> RfcShortname(t[..k]) && RfcHostname(t[k + 1..])
  {
    assert !RfcShortname(t) by {
      assert t[k] in t;
      if RfcShortname(t) {
        ShortnameHasNoDot(t);
      }
    }
    forall j | 0 <= j < |t| && t[j] == 0x2E && RfcShortname(t[..j]) ensures j == k {
      ShortnameHasNoDot(t[..j]);
      NotBefore(t, j, k);
      NotBefore(t, k, j);
    }
  }

  lemma HostsAgree(isAddress: AddressTest, t: Text)
    ensures IsHost(isAddress, t) <==> RfcHost(isAddress, t)
  {
    HostnamesAgree(t);
    forall i | 0 <= i < |t| ensures HostChar.Has(t[i]) <==> RfcLabelOctet(t[i]) || t[i] == 0x2E || t[i] == 0x3A {
      ClassesAgree(t[i]);
    }
    if IsHostname(t) {
      ScanDecides(t);
      HostnameIsOfHostChars(t);
    }
  }

  // ---- Prefixes ----

  /** A shape of the standard, as the scanner has it. */
  ghost predicate IsStandardShape(isAddress: AddressTest, p: Text) {
    exists shape: Shape :: !shape.NickBang? && !shape.NickAt? && shape.Legal(isAddress) && shape.Print() == p
  }

  function ShapeOf(shape: RfcShape): Shape {
    match shape
    case Servername(host) => Server(host)
    case Nickname(nick) => Nick(nick)
    case AtHost(nick, host) => NickHost(nick, host)
    case UserAtHost(nick, user, host) => NickUserHost(nick, user, host)
  }

  function RfcShapeOf(shape: Shape): RfcShape
    requires !shape.NickBang? && !shape.NickAt?
    ensures ShapeOf(RfcShapeOf(shape)) == shape
  {
    match shape
    case Server(host) => Servername(host)
    case Nick(nick) => Nickname(nick)
    case NickHost(nick, host) => AtHost(nick, host)
    case NickUserHost(nick, user, host) => UserAtHost(nick, user, host)
  }

  lemma ShapesAgree(isAddress: AddressTest, shape: RfcShape)
    ensures shape.Legal(isAddress) <==> ShapeOf(shape).Legal(isAddress)
    ensures shape.Print() == ShapeOf(shape).Print()
  {
    match shape {
      case Servername(host) => HostnamesAgree(host);
      case Nickname(nick) => NicknamesAgree(nick);
      case AtHost(nick, host) => NicknamesAgree(nick); HostsAgree(isAddress, host);
      case UserAtHost(nick, user, host) => NicknamesAgree(nick); UsersAgree(user); HostsAgree(isAddress, host);
    }
  }

  lemma PrefixesAgree(isAddress: AddressTest, p: Text)
    ensures IsRfcPrefix(isAddress, p) <==> IsStandardShape(isAddress, p)
  {
    if shape: RfcShape :| shape.Legal(isAddress) && shape.Print() == p {
      ShapesAgree(isAddress, shape);
    }
    if shape: Shape :| !shape.NickBang? && !shape.NickAt? && shape.Legal(isAddress) && shape.Print() == p {
      ShapesAgree(isAddress, RfcShapeOf(shape));
    }
  }

  /** A nickname with a mark after it and nothing more. */
  predicate Dangles(nick: Text, p: Text) {
    RfcNickname(nick) && (p == nick + [0x21] || p == nick + [0x40])
  }

  predicate IsMark(c: Octet) {
    c == BANG || c == AT
  }

  predicate HasNoMark(t: Text) {
    forall i :: 0 <= i < |t| ==> !IsMark(t[i])
  }

  lemma ServerOctets(host: Text)
    requires IsHostname(host)
    ensures HasNoMark(host) && All(PrefixChar, host)
  {
    ScanDecides(host);
    HostnameIsOfHostChars(host);
    forall i | 0 <= i < |host| ensures !IsMark(host[i]) {
      assert HostChar.Has(host[i]);
    }
  }

  /** The first mark of a legal shape is followed by something, unless the shape is a dangling one. */
  lemma StandardShapeGoesOn(isAddress: AddressTest, shape: Shape)
    requires shape.Legal(isAddress) && !shape.NickBang? && !shape.NickAt?
    ensures var p := shape.Print(); p != [] && (IsMark(p[|p| - 1]) ==> !HasNoMark(p[..|p| - 1]))
  {
    match shape {
      case Server(host) => ServerOctets(host); assert IsLabel(SplitDots(host)[0]);
      case Nick(nick) => assert NickChar.Has(nick[|nick| - 1]);
      case NickHost(nick, host) =>
        assert IsMark(shape.Print()[..|shape.Print()| - 1][|nick|]);
      case NickUserHost(nick, user, host) =>
        assert IsMark(shape.Print()[..|shape.Print()| - 1][|nick|]);
    }
  }

  lemma DanglingIsNotStandard(isAddress: AddressTest, nick: Text, p: Text)
    requires Dangles(nick, p)
    ensures PrefixOk(isAddress, p) && !IsStandardShape(isAddress, p)
  {
    NicknamesAgree(nick);
    assert p[..|p| - 1] == nick;
    assert HasNoMark(nick) by {
      forall i | 0 <= i < |nick| ensures !IsMark(nick[i]) {
        assert NickChar.Has(nick[i]);
      }
    }
    forall shape: Shape | !shape.NickBang? && !shape.NickAt? && shape.Legal(isAddress) ensures shape.Print() != p {
      StandardShapeGoesOn(isAddress, shape);
    }
    if p == nick + [BANG] {
      assert NickBang(nick).Legal(isAddress) && NickBang(nick).Print() == p;
    } else {
      assert NickAt(nick).Legal(isAddress) && NickAt(nick).Print() == p;
    }
    assert All(PrefixChar, p) by {
      forall i | 0 <= i < |nick| ensures PrefixChar.Has(nick[i]) {
        assert NickChar.Has(nick[i]);
      }
    }
  }

  /** The octets of every part but the user are prefix characters. */
  lemma ShapeOctets(isAddress: AddressTest, shape: Shape)
    requires shape.Legal(isAddress)
    ensures All(PrefixChar, shape.Print()) <==> (shape.NickUserHost? ==> All(PrefixChar, shape.user))
  {
    if shape.Server? {
      ServerOctets(shape.host);
    } else {
      NickOctets(shape.nick);
      match shape {
        case Nick(nick) =>
        case NickBang(nick) => AllConcat(PrefixChar, nick, [BANG]);
        case NickAt(nick) => AllConcat(PrefixChar, nick, [AT]);
        case NickHost(nick, host) =>
          HostOctets(isAddress, host);
          AllConcat(PrefixChar, nick, [AT] + host);
        case NickUserHost(nick, user, host) => UserOctets(isAddress, nick, user, host);
      }
    }
  }

  lemma NickOctets(nick: Text)
    requires All(NickChar, nick)
    ensures All(PrefixChar, nick)
  {
    forall i | 0 <= i < |nick| ensures PrefixChar.Has(nick[i]) {
      assert NickChar.Has(nick[i]);
    }
  }

  lemma HostOctets(isAddress: AddressTest, host: Text)
    requires IsHost(isAddress, host)
    ensures All(PrefixChar, [AT] + host)
  {
    HostCharsArePrefixChars(host);
    AllConcat(PrefixChar, [AT], host);
  }

  lemma UserOctets(isAddress: AddressTest, nick: Text, user: Text, host: Text)
    requires All(PrefixChar, nick) && IsHost(isAddress, host)
    ensures All(PrefixChar, nick + ([BANG] + (user + ([AT] + host)))) <==> All(PrefixChar, user)
  {
    HostOctets(isAddress, host);
    AllConcat(PrefixChar, user, [AT] + host);
    AllConcat(PrefixChar, [BANG], user + ([AT] + host));
    AllConcat(PrefixChar, nick, [BANG] + (user + ([AT] + host)));
  }

  lemma {:induction false} OddOctetRejects(isAddress: AddressTest, m: MessageValue, s: Text, p: Text)
    requires SPACE !in p && All(PrefixChar, s)
    ensures Run(isAddress, Config(Prefix, s, m), p + [SPACE]).state != Invalid <==> PrefixOk(isAddress, s + p)
    decreases p
  {
    var t := p + [SPACE];
    if p == [] {
      NothingMore(s);
      assert t[0] == SPACE && t[1..] == [];
    } else {
      var c, rest := p[0], p[1..];
      assert t[0] == c && t[1..] == rest + [SPACE];
      assert [c] + rest == p;
      Assoc(s, [c], rest);
      AllConcat(PrefixChar, s, [c]);
      AllConcat(PrefixChar, s + [c], rest);
      assert [c][0] == c;
      if IsPrefixChar(c) {
        OddOctetRejects(isAddress, m, s + [c], rest);
      }
    }
  }

  /** The parser takes this between the colon and the next space. */
  ghost predicate TakesPrefix(isAddress: AddressTest, p: Text) {
    Run(isAddress, INITIAL, [0x3A] + (p + [0x20])).state != Invalid
  }

  lemma TakenIsOk(isAddress: AddressTest, p: Text)
    requires 0x20 !in p
    ensures TakesPrefix(isAddress, p) <==> PrefixOk(isAddress, p)
  {
    LeadsByOne(isAddress, INITIAL, COLON);
    RunConcat(isAddress, INITIAL, [COLON], p + [SPACE]);
    OddOctetRejects(isAddress, EMPTY, [], p);
    NothingMore(p);
  }

  /** The prefixes that the parser takes and the standard does not have: a nickname and one mark after it. */
  lemma BeyondTheStandard(isAddress: AddressTest, p: Text)
    requires 0x20 !in p
    ensures TakesPrefix(isAddress, p) && !IsRfcPrefix(isAddress, p) <==> exists nick :: Dangles(nick, p)
  {
    TakenIsOk(isAddress, p);
    PrefixesAgree(isAddress, p);
    if TakesPrefix(isAddress, p) && !IsRfcPrefix(isAddress, p) {
      var shape: Shape :| shape.Legal(isAddress) && shape.Print() == p;
      NicknamesAgree(shape.nick);
      assert Dangles(shape.nick, p);
    }
    if nick :| Dangles(nick, p) {
      DanglingIsNotStandard(isAddress, nick, p);
    }
  }

  ghost predicate HasOddUser(isAddress: AddressTest, p: Text, shape: RfcShape) {
    shape.UserAtHost? && shape.Legal(isAddress) && shape.Print() == p && !OfPrefixCodes(shape.user)
  }

  /** The prefixes that the standard has and the parser does not take: those whose user holds an octet that is no
      prefix character. */
  lemma ShortOfTheStandard(isAddress: AddressTest, p: Text)
    requires 0x20 !in p
    ensures IsRfcPrefix(isAddress, p) && !TakesPrefix(isAddress, p) <==> exists shape :: HasOddUser(isAddress, p, shape)
  {
    TakenIsOk(isAddress, p);
    if IsRfcPrefix(isAddress, p) && !TakesPrefix(isAddress, p) {
      var shape: RfcShape :| shape.Legal(isAddress) && shape.Print() == p;
      OddUser(isAddress, p, shape);
    }
    if shape :| HasOddUser(isAddress, p, shape) {
      OddUser(isAddress, p, shape);
    }
  }

  lemma OddUser(isAddress: AddressTest, p: Text, shape: RfcShape)
    requires shape.Legal(isAddress) && shape.Print() == p
    ensures PrefixOk(isAddress, p) <==> !HasOddUser(isAddress, p, shape)
  {
    ShapesAgree(isAddress, shape);
    ShapeOctets(isAddress, ShapeOf(shape));
    if shape.UserAtHost? {
      PrefixCodesAgree(shape.user);
    }
  }

  /** Both together: what the parser takes is a prefix of the standard that consists of prefix characters, or a
      nickname and one mark after it. */
  lemma PrefixesTaken(isAddress: AddressTest, p: Text)
    requires 0x20 !in p
    ensures TakesPrefix(isAddress, p) <==>
            (IsRfcPrefix(isAddress, p) && OfPrefixCodes(p)) || exists nick :: Dangles(nick, p)
  {
    TakenIsOk(isAddress, p);
    BeyondTheStandard(isAddress, p);
    PrefixesAgree(isAddress, p);
    PrefixCodesAgree(p);
  }

  const N: Octet := 0x6E
  const U: Octet := 0x75
  const H: Octet := 0x68
  const TILDE: Octet := 0x7E

  /** `n!~u@h` is one that the parser does not take. */
  lemma TildeUser(isAddress: AddressTest)
    ensures var p := [N, 0x21, TILDE, U, 0x40, H]; IsRfcPrefix(isAddress, p) && !TakesPrefix(isAddress, p)
  {
    var p := [N, 0x21, TILDE, U, 0x40, H];
    var shape := UserAtHost([N], [TILDE, U], [H]);
    assert shape.Print() == p;
    assert RfcShortname([H]) && RfcHostname([H]);
    assert shape.Legal(isAddress);
    assert !IsPrefixCode([TILDE, U][0]);
    assert HasOddUser(isAddress, p, shape);
    ShortOfTheStandard(isAddress, p);
  }

  // ---- Tags ----

  /** No vendor with a dot in it, and an equals sign in every tag but the last. */
  predicate Taken(tags: seq<SpecTag>) {
    && (forall i :: 0 <= i < |tags| ==> 0x2E !in tags[i].key)
    && (forall i :: 0 <= i < |tags| - 1 ==> tags[i].value.Some?)
  }

  predicate KeyOctet(c: Octet) {
    IsTagKeyChar(c) || c == DOT
  }

  lemma {:induction false} VendorOctets(t: Text)
    requires Scan(t, true) || Scan(t, false)
    ensures forall i :: 0 <= i < |t| ==> KeyOctet(t[i])
    decreases |t|
  {
    if t != [] {
      VendorOctets(t[1..]);
      assert t == [t[0]] + t[1..];
    }
  }

  lemma SpecKeyOctets(tag: SpecTag)
    requires IsSpecTag(tag)
    ensures |tag.key| > 0 && forall i :: 0 <= i < |tag.key| ==> KeyOctet(tag.key[i])
    ensures DOT !in tag.key ==> All(TagKeyChar, tag.key)
  {
    var key: SpecKey :| key.Legal() && key.Print() == tag.key;
    var vendor := if key.vendor.Some? then key.vendor.value + [SLASH] else [];
    LabelsAgree(key.name);
    if key.vendor.Some? {
      HostnamesAgree(key.vendor.value);
      ScanDecides(key.vendor.value);
      VendorOctets(key.vendor.value);
    }
    assert forall i :: 0 <= i < |vendor| ==> KeyOctet(vendor[i]);
    forall i | 0 <= i < |key.name| ensures KeyOctet(key.name[i]) {
      assert LabelChar.Has(key.name[i]);
    }
    assert forall i :: 0 <= i < |vendor + key.name| ==> KeyOctet((vendor + key.name)[i]);
  }

  /** A dot in a key is rejected. */
  lemma DotRejects(isAddress: AddressTest, m: MessageValue, key: Text, more: Text)
    requires DOT in key && forall i :: 0 <= i < |key| ==> KeyOctet(key[i])
    ensures Run(isAddress, Config(TagKey, [], m), key + more).state == Invalid
  {
    var k := IndexOf(DOT, key);
    var before, after := key[..k], key[k + 1..] + more;
    assert key + more == before + ([DOT] + after);
    assert All(TagKeyChar, before);
    KeyLeads(isAddress, m, before);
    assert ([DOT] + after)[0] == DOT;
    RunConcat(isAddress, Config(TagKey, [], m), before, [DOT] + after);
  }

  /** A tag without an equals sign can only be the last. */
  lemma BareRejects(isAddress: AddressTest, m: MessageValue, key: Text, more: Text)
    requires All(TagKeyChar, key)
    ensures Run(isAddress, Config(TagKey, [], m), key + ([SEMICOLON] + more)).state == Invalid
  {
    KeyLeads(isAddress, m, key);
    assert ([SEMICOLON] + more)[0] == SEMICOLON;
    RunConcat(isAddress, Config(TagKey, [], m), key, [SEMICOLON] + more);
  }

  lemma LastTagTaken(isAddress: AddressTest, m: MessageValue, tag: SpecTag)
    requires IsSpecTag(tag)
    ensures Run(isAddress, Config(TagKey, [], m), SpecText(tag) + [SPACE]).state != Invalid <==> DOT !in tag.key
  {
    SpecKeyOctets(tag);
    if DOT in tag.key {
      var more := if tag.value.None? then [SPACE] else [EQUALS] + tag.value.value + [SPACE];
      if tag.value.Some? {
        Assoc(tag.key, [EQUALS] + tag.value.value, [SPACE]);
      }
      DotRejects(isAddress, m, tag.key, more);
    } else if tag.value.None? {
      LastLeads(isAddress, m, Bare(tag.key));
    } else {
      LastLeads(isAddress, m, Whole(Item(tag.key, tag.value.value)));
    }
  }

  /** A tag before another is taken exactly when it has a value and no dot, and leaves the parser ready for more. */
  lemma EarlierTagTaken(isAddress: AddressTest, m: MessageValue, tag: SpecTag, more: Text) returns (n: MessageValue)
    requires IsSpecTag(tag)
    ensures var r := Run(isAddress, Config(TagKey, [], m), SpecText(tag) + [SEMICOLON] + more);
            if DOT in tag.key || tag.value.None? then r.state == Invalid
            else r.state == Run(isAddress, Config(TagKey, [], n), more).state
  {
    SpecKeyOctets(tag);
    n := m;
    var g := Config(TagKey, [], m);
    Assoc(SpecText(tag), [SEMICOLON], more);
    if DOT in tag.key {
      if tag.value.Some? {
        Assoc(tag.key, [EQUALS] + tag.value.value, [SEMICOLON] + more);
        DotRejects(isAddress, m, tag.key, [EQUALS] + tag.value.value + ([SEMICOLON] + more));
      } else {
        DotRejects(isAddress, m, tag.key, [SEMICOLON] + more);
      }
    } else if tag.value.None? {
      BareRejects(isAddress, m, tag.key, more);
    } else {
      var i := Item(tag.key, tag.value.value);
      n := m.(tags := AddItem(m.tags, i));
      ItemAdds(isAddress, m, i, SEMICOLON);
      RunConcat(isAddress, g, SpecText(tag) + [SEMICOLON], more);
    }
  }

  lemma TakenParts(tags: seq<SpecTag>)
    requires |tags| > 1
    ensures Taken(tags) <==> DOT !in tags[0].key && tags[0].value.Some? && Taken(tags[1..])
  {
    var rest := tags[1..];
    if Taken(rest) {
      forall i | 0 < i < |tags| ensures DOT !in tags[i].key && (i < |tags| - 1 ==> tags[i].value.Some?) {
        assert tags[i] == rest[i - 1];
      }
    }
  }

  lemma {:induction false} SpecTagsFrom(isAddress: AddressTest, m: MessageValue, tags: seq<SpecTag>)
    requires AreSpecTags(tags)
    ensures Run(isAddress, Config(TagKey, [], m), SpecTagsText(tags)).state != Invalid <==> Taken(tags)
    decreases |tags|
  {
    if |tags| == 1 {
      LastTagTaken(isAddress, m, tags[0]);
    } else {
      var rest := tags[1..];
      var n := EarlierTagTaken(isAddress, m, tags[0], SpecTagsText(rest));
      TakenParts(tags);
      SpecTagsFrom(isAddress, n, rest);
    }
  }

  /** Of the tag lists of the specification the parser takes exactly those with no dot in a key and with an equals
      sign in every tag but the last. */
  lemma SpecTagsTaken(isAddress: AddressTest, tags: seq<SpecTag>)
    requires AreSpecTags(tags)
    ensures Run(isAddress, INITIAL, [0x40] + SpecTagsText(tags)).state != Invalid <==> Taken(tags)
  {
    LeadsByOne(isAddress, INITIAL, AT);
    RunConcat(isAddress, INITIAL, [AT], SpecTagsText(tags));
    SpecTagsFrom(isAddress, EMPTY, tags);
  }

  /** `@n;u ` is not taken, nor is `@n.h/u `, though both are tags of the specification. */
  lemma SpecTagsDropped(isAddress: AddressTest)
    ensures AreSpecTags([SpecTag([N], None), SpecTag([U], None)])
    ensures AreSpecTags([SpecTag([N, 0x2E, H, 0x2F, U], None)])
    ensures Run(isAddress, INITIAL, [0x40] + ([N] + [0x3B] + ([U] + [0x20]))).state == Invalid
    ensures Run(isAddress, INITIAL, [0x40] + ([N, 0x2E, H, 0x2F, U] + [0x20])).state == Invalid
  {
    BareKey(N);
    BareKey(U);
    var two := [SpecTag([N], None), SpecTag([U], None)];
    assert two[1..] == [SpecTag([U], None)];
    SpecTagsTaken(isAddress, two);
    VendorKey();
    var one := [SpecTag([N, 0x2E, H, 0x2F, U], None)];
    assert one[0].key[1] == 0x2E;
    SpecTagsTaken(isAddress, one);
  }

  lemma BareKey(c: Octet)
    requires IsLetter(c)
    ensures IsSpecTag(SpecTag([c], None))
  {
    var key := SpecKey(false, None, [c]);
    assert key.Legal() && key.Print() == [c];
  }

  lemma VendorKey()
    ensures IsSpecTag(SpecTag([N, 0x2E, H, 0x2F, U], None))
  {
    var host: Text := [N, 0x2E, H];
    assert host[..1] == [N] && host[2..] == [H];
    assert RfcShortname([N]) && RfcShortname([H]) && RfcHostname([H]);
    assert RfcHostname(host);
    var key := SpecKey(false, Some(host), [U]);
    assert key.Print() == [N, 0x2E, H, 0x2F, U];
    assert key.Legal();
  }

  // ---- Parameters ----

  /** No octet is negative; where `char` is signed, none from 0x80 up. */
  predicate NoneNegative(t: Text) {
    forall i :: 0 <= i < |t| ==> t[i] >= 0
  }

  lemma PlainOctets(c: Octet)
    ensures IsParamStartChar(c) <==> IsPlain(c) && c >= 0
  {
  }

  lemma {:induction false} TrailingFrom(isAddress: AddressTest, m: MessageValue, s: Text, t: Text)
    requires IsRfcTrailing(t)
    ensures var r := Run(isAddress, Config(Trailing, s, m), t + [CR]);
            if NoneNegative(t)
            then r.state == Incomplete && r.config == Config(Cr, [], m.(params := m.params + [s + t]))
            else r.state == Invalid
    decreases t
  {
    var u := t + [CR];
    if t == [] {
      NothingMore(s);
      assert u[0] == CR && u[1..] == [];
    } else {
      var c, rest := t[0], t[1..];
      assert u[0] == c && u[1..] == rest + [CR] && t == [c] + rest;
      PlainOctets(c);
      Assoc(s, [c], rest);
      assert NoneNegative(t) <==> c >= 0 && NoneNegative(rest);
      if c >= 0 {
        TrailingFrom(isAddress, m, s + [c], rest);
      }
    }
  }

  /** Of the trailing parameters of the standard the parser takes exactly those without a negative octet, whole;
      the others are rejected. */
  lemma TrailingTaken(isAddress: AddressTest, m: MessageValue, t: Text)
    requires IsRfcTrailing(t)
    ensures var r := Run(isAddress, Config(Trailing, [], m), t + [0x0D]);
            if NoneNegative(t) then r.state == Incomplete && r.config == Config(Cr, [], m.(params := m.params + [t]))
            else r.state == Invalid
  {
    TrailingFrom(isAddress, m, [], t);
    NothingMore(t);
  }

  /** From the first octet of a parameter on, a negative one is rejected. */
  lemma {:induction false} MiddleFrom(isAddress: AddressTest, m: MessageValue, s: Text, t: Text)
    requires forall i :: 0 <= i < |t| ==> IsPlain(t[i]) || t[i] == COLON
    ensures var r := Run(isAddress, Config(Param, s, m), t + [SPACE]);
            if NoneNegative(t)
            then r.state == Incomplete && r.config == Config(ParamStart, [], m.(params := m.params + [s + t]))
            else r.state == Invalid
    decreases t
  {
    var u := t + [SPACE];
    if t == [] {
      NothingMore(s);
      assert u[0] == SPACE && u[1..] == [];
    } else {
      var c, rest := t[0], t[1..];
      assert u[0] == c && u[1..] == rest + [SPACE] && t == [c] + rest;
      PlainOctets(c);
      Assoc(s, [c], rest);
      assert NoneNegative(t) <==> c >= 0 && NoneNegative(rest);
      if c >= 0 {
        MiddleFrom(isAddress, m, s + [c], rest);
      }
    }
  }

  /** How many negative octets lead the text. */
  function Leading(t: Text): (k: nat)
    ensures k <= |t| && (k < |t| ==> t[k] >= 0) && (forall i :: 0 <= i < k ==> t[i] < 0)
  {
    if t == [] || t[0] >= 0 then 0 else 1 + Leading(t[1..])
  }

  /** Negative octets at the beginning of a parameter are passed over, and what is left is read as if they were not
      there. */
  lemma LeadingPassed(isAddress: AddressTest, m: MessageValue, t: Text, more: Text)
    ensures var g, k := Config(ParamStart, [], m), Leading(t);
            Run(isAddress, g, t + more) ==
            Run(isAddress, g, t[k..] + more).(taken := k + Run(isAddress, g, t[k..] + more).taken)
  {
    var k := Leading(t);
    var g := Config(ParamStart, [], m);
    PassOver(isAddress, g, t[..k]);
    assert t[..k] + t[k..] == t;
    Assoc(t[..k], t[k..], more);
    RunConcat(isAddress, g, t[..k], t[k..] + more);
  }

  /** The text is added as a parameter, as it is. */
  ghost predicate TakenAs(isAddress: AddressTest, m: MessageValue, t: Text) {
    var r := Run(isAddress, Config(ParamStart, [], m), t + [0x20]);
    r.state == Incomplete && r.config == Config(ParamStart, [], m.(params := m.params + [t]))
  }

  /** A middle parameter of the standard that does not begin with a negative octet is taken whole if it has none,
      and is rejected otherwise. */
  lemma MiddleTaken(isAddress: AddressTest, m: MessageValue, t: Text)
    requires IsRfcMiddle(t) && t[0] >= 0
    ensures if NoneNegative(t) then TakenAs(isAddress, m, t)
            else Run(isAddress, Config(ParamStart, [], m), t + [SPACE]).state == Invalid
  {
    var c, rest, g := t[0], t[1..], Config(ParamStart, [], m);
    PlainOctets(c);
    assert t == [c] + rest;
    LeadsByOne(isAddress, g, c);
    Assoc([c], rest, [SPACE]);
    RunConcat(isAddress, g, [c], rest + [SPACE]);
    MiddleFrom(isAddress, m, [c], rest);
    assert NoneNegative(t) <==> NoneNegative(rest);
    NothingMore([c]);
  }

  /** Of the middle parameters of the standard exactly those without a negative octet are taken as they are. */
  lemma MiddlesTaken(isAddress: AddressTest, m: MessageValue, t: Text)
    requires IsRfcMiddle(t)
    ensures TakenAs(isAddress, m, t) <==> NoneNegative(t)
  {
    if t[0] >= 0 {
      MiddleTaken(isAddress, m, t);
    } else {
      var rest := t[Leading(t)..];
      LeadingPassed(isAddress, m, t, [SPACE]);
      TooShort(isAddress, m, rest);
      DifferentLast(m.params, t, rest);
    }
  }

  lemma DifferentLast(params: seq<Text>, p: Text, q: Text)
    requires |p| > |q|
    ensures params + [p] != params && params + [p] != params + [q]
  {
    assert (params + [p])[|params|] == p && (params + [q])[|params|] == q;
  }

  /** What is left of a parameter is not the parameter. */
  lemma TooShort(isAddress: AddressTest, m: MessageValue, t: Text)
    requires t == [] || (t[0] >= 0 && forall i :: 0 <= i < |t| ==> IsPlain(t[i]) || t[i] == COLON)
    ensures var r := Run(isAddress, Config(ParamStart, [], m), t + [SPACE]);
            r.state == Incomplete && r.config.phase == ParamStart ==>
              r.config.message.params == m.params || r.config.message.params == m.params + [t]
  {
    var g := Config(ParamStart, [], m);
    if t == [] {
      NothingMore([SPACE]);
      LeadsByOne(isAddress, g, SPACE);
    } else if t[0] == COLON {
      var rest := t[1..];
      assert t == [COLON] + rest;
      LeadsByOne(isAddress, g, COLON);
      Assoc([COLON], rest, [SPACE]);
      RunConcat(isAddress, g, [COLON], rest + [SPACE]);
      TrailingStays(isAddress, g.Go(Trailing), rest + [SPACE]);
    } else {
      MiddleTaken(isAddress, m, t);
    }
  }

  lemma {:induction false} TrailingStays(isAddress: AddressTest, g: Config, t: Text)
    requires g.phase in {Trailing, Cr, Done}
    ensures Run(isAddress, g, t).config.phase in {Trailing, Cr, Done}
    decreases t
  {
    if t != [] {
      TrailingStays(isAddress, Step(isAddress, g, t[0]).config, t[1..]);
    }
  }

  // ---- Commands ----

  lemma CommandsAgree(t: Text)
    ensures CommandOk(t) <==> IsRfcCommand(t)
  {
    forall i | 0 <= i < |t|
      ensures (Letter.Has(t[i]) <==> RfcLetter(t[i])) && (Digit.Has(t[i]) <==> RfcDigit(t[i]))
    {
      ClassesAgree(t[i]);
    }
  }

  /** The command goes on with letters only. */
  lemma {:induction false} NameFrom(isAddress: AddressTest, m: MessageValue, s: Text, t: Text)
    requires SPACE !in t && CR !in t
    ensures var r := Run(isAddress, Config(CommandName, s, m), t + [CR]);
            if All(Letter, t) then r.state == Incomplete && r.config == Config(Cr, [], m.(command := s + t))
            else r.state == Invalid
    decreases t
  {
    var u := t + [CR];
    if t == [] {
      NothingMore(s);
      assert u[0] == CR && u[1..] == [];
    } else {
      var c, rest := t[0], t[1..];
      assert u[0] == c && u[1..] == rest + [CR] && t == [c] + rest;
      Assoc(s, [c], rest);
      AllConcat(Letter, [c], rest);
      assert [c][0] == c;
      if IsLetter(c) {
        NameFrom(isAddress, m, s + [c], rest);
      }
    }
  }

  /** The command goes on to be three digits. */
  lemma {:induction false} NumberFrom(isAddress: AddressTest, m: MessageValue, s: Text, t: Text)
    requires SPACE !in t && CR !in t && |s| <= 3
    ensures var r := Run(isAddress, Config(CommandNumber, s, m), t + [CR]);
            if All(Digit, t) && |s + t| == 3
            then r.state == Incomplete && r.config == Config(Cr, [], m.(command := s + t))
            else r.state == Invalid
    decreases t
  {
    var u := t + [CR];
    if t == [] {
      NothingMore(s);
      assert u[0] == CR && u[1..] == [];
    } else {
      var c, rest := t[0], t[1..];
      assert u[0] == c && u[1..] == rest + [CR] && t == [c] + rest;
      Assoc(s, [c], rest);
      AllConcat(Digit, [c], rest);
      assert [c][0] == c;
      if IsDigit(c) && |s| < 3 {
        NumberFrom(isAddress, m, s + [c], rest);
      }
    }
  }

  lemma CommandFrom(isAddress: AddressTest, t: Text)
    requires SPACE !in t && CR !in t && (t != [] ==> t[0] != AT && t[0] != COLON)
    ensures var r := Run(isAddress, INITIAL, t + [CR]);
            if CommandOk(t) then r.state == Incomplete && r.config == Config(Cr, [], EMPTY.(command := t))
            else r.state == Invalid
  {
    var u := t + [CR];
    if t == [] {
      assert u[0] == CR;
    } else {
      var c, rest := t[0], t[1..];
      assert u[0] == c && u[1..] == rest + [CR] && t == [c] + rest && [c][0] == c;
      AllConcat(Letter, [c], rest);
      AllConcat(Digit, [c], rest);
      NothingMore([c]);
      if IsLetter(c) {
        NameFrom(isAddress, EMPTY, [c], rest);
      } else if IsDigit(c) {
        NumberFrom(isAddress, EMPTY, [c], rest);
      }
    }
  }

  /** A line of one word completes if and only if the word is a command of the standard, and that is its meaning. */
  lemma CommandsTaken(isAddress: AddressTest, t: Text)
    requires 0x20 !in t && 0x0D !in t && (t != [] ==> t[0] != 0x40 && t[0] != 0x3A)
    ensures var r := Run(isAddress, INITIAL, t + [0x0D] + [0x0A]);
            if IsRfcCommand(t) then r.state == Complete && r.config.message == MessageValue([], t, [], [])
            else r.state == Invalid
  {
    CommandsAgree(t);
    CommandFrom(isAddress, t);
    RunConcat(isAddress, INITIAL, t + [CR], [LF]);
    LineEnds(isAddress, EMPTY.(command := t));
  }
}
