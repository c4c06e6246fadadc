/**
 Octets as the parser sees them, and its character classes.

 An `Octet` is the value of a C++ `char` after integral promotion: -128..127 where `char` is
 signed and 0..255 where it is unsigned.  The range below covers both, so every statement of the
 project holds on either kind of platform.
 */
module Octets {

  type Octet = c: int | -128 <= c < 256
  type Text = seq<Octet>

  const NUL: Octet := 0x00
  const LF: Octet := 0x0A
  const CR: Octet := 0x0D
  const SPACE: Octet := 0x20
  const BANG: Octet := 0x21
  const PLUS: Octet := 0x2B
  const DASH: Octet := 0x2D
  const DOT: Octet := 0x2E
  const SLASH: Octet := 0x2F
  const COLON: Octet := 0x3A
  const SEMICOLON: Octet := 0x3B
  const EQUALS: Octet := 0x3D
  const AT: Octet := 0x40

  predicate IsUserChar(c: Octet) {
    c != NUL && c != CR && c != LF && c != SPACE && c != AT
  }

  predicate IsLetter(c: Octet) {
    0x61 <= c <= 0x7A || 0x41 <= c <= 0x5A
  }

  predicate IsDigit(c: Octet) {
    0x30 <= c <= 0x39
  }

  predicate IsHex(c: Octet) {
    IsDigit(c) || 0x41 <= c <= 0x46
  }

  predicate IsSpecial(c: Octet) {
    0x5B <= c <= 0x60 || 0x7B <= c <= 0x7D
  }

  predicate IsPrefixChar(c: Octet) {
    IsLetter(c) || IsDigit(c) || IsSpecial(c) || c == BANG || c == DOT || c == AT || c == DASH || c == COLON
  }

  predicate IsParamStartChar(c: Octet) {
    0x3B <= c <= 0xFF || 0x21 <= c <= 0x39 || 0x0E <= c <= 0x1F || 0x0B <= c <= 0x0C || 0x01 <= c <= 0x09
  }

  predicate IsTagKeyChar(c: Octet) {
    IsLetter(c) || IsDigit(c) || c == DASH || c == SLASH || c == PLUS
  }

  // The characters that parseStateTagValue, parseStateParam and parseStateTrailing append to the buffer.

  predicate IsTagValueChar(c: Octet) {
    c != NUL && c != SPACE && c != SEMICOLON && c != CR && c != LF
  }

  predicate IsParamChar(c: Octet) {
    IsParamStartChar(c) || c == COLON
  }

  predicate IsTrailingChar(c: Octet) {
    IsParamChar(c) || c == SPACE
  }

  predicate IsNickStart(c: Octet) {
    IsLetter(c) || IsSpecial(c)
  }

  predicate IsNickChar(c: Octet) {
    IsNickStart(c) || IsDigit(c) || c == DASH
  }

  predicate IsHostChar(c: Octet) {
    IsLetter(c) || IsHex(c) || c == DOT || c == COLON || c == DASH
  }

  predicate IsLabelChar(c: Octet) {
    IsLetter(c) || IsDigit(c) || c == DASH
  }

  /** Names for the classes, so that texts can be said to be made of one. */
  datatype Class = Letter | Digit | PrefixChar | TagKeyChar | TagValueChar | ParamChar | TrailingChar
                 | UserChar | NickChar | HostChar | LabelChar
  {
    predicate Has(c: Octet) {
      match this
      case Letter => IsLetter(c)
      case Digit => IsDigit(c)
      case PrefixChar => IsPrefixChar(c)
      case TagKeyChar => IsTagKeyChar(c)
      case TagValueChar => IsTagValueChar(c)
      case ParamChar => IsParamChar(c)
      case TrailingChar => IsTrailingChar(c)
      case UserChar => IsUserChar(c)
      case NickChar => IsNickChar(c)
      case HostChar => IsHostChar(c)
      case LabelChar => IsLabelChar(c)
    }
  }

  /** Every octet of `t` belongs to the class. */
  predicate All(kind: Class, t: Text) {
    forall i :: 0 <= i < |t| ==> kind.Has(t[i])
  }

  lemma AllConcat(kind: Class, s: Text, t: Text)
    ensures All(kind, s + t) <==> All(kind, s) && All(kind, t)
  {
    var u := s + t;
    if All(kind, u) {
      forall i | 0 <= i < |s| ensures kind.Has(s[i]) {
        assert s[i] == u[i];
      }
      forall i | 0 <= i < |t| ensures kind.Has(t[i]) {
        assert t[i] == u[|s| + i];
      }
    }
  }

  // Joining texts.

  lemma Assoc<T>(a: seq<T>, b: seq<T>, c: seq<T>)
    ensures a + b + c == a + (b + c)
  {
  }

  lemma Flat<T>(z: seq<T>, a: seq<T>, b: seq<T>, c: seq<T>)
    ensures z + a + b + c == z + (a + b + c) == z + (a + (b + c)) == z + a + (b + c)
  {
  }

  lemma NothingMore<T>(s: seq<T>)
    ensures s + [] == s == [] + s
  {
  }

  /** A legal middle parameter: not empty, not led by a colon, no space. */
  predicate IsMiddle(t: Text) {
    |t| > 0 && IsParamStartChar(t[0]) && All(ParamChar, t)
  }
}
