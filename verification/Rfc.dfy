/**
 What the standards say, in their own terms: octets by their codes, and the rules of section 2.3.1 of RFC 2812 and of
 the "Format" section of the IRCv3 Message Tags specification on top of them.  Nothing here is taken from the parser.
 */
module Rfc {
  import opened Collections
  import opened Octets
  import opened Prefixes

  /** The octet as a number from 0 to 255, whether `char` is signed or not. */
  function Byte(c: Octet): nat {
    if c < 0 then c + 256 else c
  }

  /** letter = %x41-5A / %x61-7A */
  predicate RfcLetter(c: Octet) {
    0x41 <= Byte(c) <= 0x5A || 0x61 <= Byte(c) <= 0x7A
  }

  /** digit = %x30-39 */
  predicate RfcDigit(c: Octet) {
    0x30 <= Byte(c) <= 0x39
  }

  /** special = %x5B-60 / %x7B-7D */
  predicate RfcSpecial(c: Octet) {
    0x5B <= Byte(c) <= 0x60 || 0x7B <= Byte(c) <= 0x7D
  }

  /** user = 1*( %x01-09 / %x0B-0C / %x0E-1F / %x21-3F / %x41-FF ) */
  predicate RfcUserOctet(c: Octet) {
    var b := Byte(c);
    0x01 <= b <= 0x09 || 0x0B <= b <= 0x0C || 0x0E <= b <= 0x1F || 0x21 <= b <= 0x3F || 0x41 <= b <= 0xFF
  }

  /** nospcrlfcl = %x01-09 / %x0B-0C / %x0E-1F / %x21-39 / %x3B-FF */
  predicate IsPlain(c: Octet) {
    var b := Byte(c);
    0x01 <= b <= 0x09 || 0x0B <= b <= 0x0C || 0x0E <= b <= 0x1F || 0x21 <= b <= 0x39 || 0x3B <= b <= 0xFF
  }

  predicate RfcLabelOctet(c: Octet) {
    RfcLetter(c) || RfcDigit(c) || c == 0x2D
  }

  // ---- Prefixes ----

  /** nickname = ( letter / special ) *8( letter / digit / special / "-" ) */
  predicate RfcNickname(t: Text) {
    && 1 <= |t| <= 9 && (RfcLetter(t[0]) || RfcSpecial(t[0]))
    && forall i :: 0 <= i < |t| ==> RfcLabelOctet(t[i]) || RfcSpecial(t[i])
  }

  predicate RfcUser(t: Text) {
    |t| > 0 && forall i :: 0 <= i < |t| ==> RfcUserOctet(t[i])
  }

  /** shortname = ( letter / digit ) *( letter / digit / "-" ) */
  predicate RfcShortname(t: Text) {
    |t| > 0 && (RfcLetter(t[0]) || RfcDigit(t[0])) && forall i :: 0 <= i < |t| ==> RfcLabelOctet(t[i])
  }

  /** hostname = shortname *( "." shortname ) */
  ghost predicate RfcHostname(t: Text)
    decreases |t|
  {
    || RfcShortname(t)
    || exists k :: 0 <= k < |t| && t[k] == 0x2E && RfcShortname(t[..k]) && RfcHostname(t[k + 1..])
  }

  /** host = hostname / hostaddr, the latter as the address library has it, over letters, digits, "-", "." and ":" */
  ghost predicate RfcHost(isAddress: AddressTest, t: Text) {
    || RfcHostname(t)
    || (|t| > 0 && isAddress(t) && forall i :: 0 <= i < |t| ==> RfcLabelOctet(t[i]) || t[i] == 0x2E || t[i] == 0x3A)
  }

  datatype RfcShape =
    | Servername(host: Text)
    | Nickname(nick: Text)
    | AtHost(nick: Text, host: Text)
    | UserAtHost(nick: Text, user: Text, host: Text)
  {
    ghost predicate Legal(isAddress: AddressTest) {
      match this
      case Servername(host) => RfcHostname(host)
      case Nickname(nick) => RfcNickname(nick)
      case AtHost(nick, host) => RfcNickname(nick) && RfcHost(isAddress, host)
      case UserAtHost(nick, user, host) => RfcNickname(nick) && RfcUser(user) && RfcHost(isAddress, host)
    }

    function Print(): Text {
      match this
      case Servername(host) => host
      case Nickname(nick) => nick
      case AtHost(nick, host) => nick + ([0x40] + host)
      case UserAtHost(nick, user, host) => nick + ([0x21] + (user + ([0x40] + host)))
    }
  }

  /** prefix = servername / ( nickname [ [ "!" user ] "@" host ] ) */
  ghost predicate IsRfcPrefix(isAddress: AddressTest, p: Text) {
    exists shape: RfcShape :: shape.Legal(isAddress) && shape.Print() == p
  }

  // ---- Commands and parameters ----

  /** command = 1*letter / 3digit */
  predicate IsRfcCommand(t: Text) {
    || (|t| > 0 && forall i :: 0 <= i < |t| ==> RfcLetter(t[i]))
    || (|t| == 3 && forall i :: 0 <= i < |t| ==> RfcDigit(t[i]))
  }

  /** middle = nospcrlfcl *( ":" / nospcrlfcl ) */
  predicate IsRfcMiddle(t: Text) {
    |t| > 0 && IsPlain(t[0]) && forall i :: 0 <= i < |t| ==> IsPlain(t[i]) || t[i] == 0x3A
  }

  /** trailing = *( ":" / " " / nospcrlfcl ) */
  predicate IsRfcTrailing(t: Text) {
    forall i :: 0 <= i < |t| ==> IsPlain(t[i]) || t[i] == 0x3A || t[i] == 0x20
  }

  // ---- Tags ----

  /** A tag of the specification: a key, and perhaps a value. */
  datatype SpecTag = SpecTag(key: Text, value: Option<Text>)

  /** key = [ "+" ] [ vendor "/" ] key-name, where the vendor is a hostname and the name letters, digits and hyphens */
  datatype SpecKey = SpecKey(clientOnly: bool, vendor: Option<Text>, name: Text)
  {
    ghost predicate Legal() {
      && (vendor.Some? ==> RfcHostname(vendor.value))
      && |name| > 0 && forall i :: 0 <= i < |name| ==> RfcLabelOctet(name[i])
    }

    function Print(): Text {
      (if clientOnly then [0x2B] else []) + ((if vendor.Some? then vendor.value + [0x2F] else []) + name)
    }
  }

  /** Any octet but NUL, CR, LF, semicolon and space. */
  predicate IsSpecValue(t: Text) {
    forall i :: 0 <= i < |t| ==> Byte(t[i]) !in {0x00, 0x0D, 0x0A, 0x3B, 0x20}
  }

  ghost predicate IsSpecTag(tag: SpecTag) {
    && (exists key: SpecKey :: key.Legal() && key.Print() == tag.key)
    && (tag.value.Some? ==> IsSpecValue(tag.value.value))
  }

  ghost predicate AreSpecTags(tags: seq<SpecTag>) {
    tags != [] && forall i :: 0 <= i < |tags| ==> IsSpecTag(tags[i])
  }

  function SpecText(tag: SpecTag): Text {
    match tag.value
    case None => tag.key
    case Some(value) => tag.key + ([0x3D] + value)
  }

  /** tags = tag *( ";" tag ), here with the space that ends them. */
  function SpecTagsText(tags: seq<SpecTag>): Text
    requires tags != []
  {
    if |tags| == 1 then SpecText(tags[0]) + [0x20] else SpecText(tags[0]) + [0x3B] + SpecTagsText(tags[1..])
  }
}
