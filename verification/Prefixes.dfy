/**
 Message prefixes: the grammar that the parser accepts, and the scanner that decides it.

 The grammar is the prefix rule of section 2.3.1 of RFC 2812, plus two degenerate forms, `nick!`
 and `nick@`, that the scanner lets through because it compares start positions with the end.
 Deciding whether a host is an IP address is left to a parameter.
 */
module Prefixes {
  import opened Octets
  import opened Hostname

  /** Stands for the address library: does this text denote an IP address? */
  type AddressTest = Text -> bool

  /** nickname = ( letter / special ) *8( letter / digit / special / "-" ) */
  predicate IsNickname(t: Text) {
    1 <= |t| <= 9 && IsNickStart(t[0]) && All(NickChar, t)
  }

  predicate IsUser(t: Text) {
    |t| > 0 && All(UserChar, t)
  }

  predicate IsHost(isAddress: AddressTest, t: Text) {
    |t| > 0 && All(HostChar, t) && (IsHostname(t) || isAddress(t))
  }

  datatype Shape =
    | Server(host: Text)
    | Nick(nick: Text)
    | NickBang(nick: Text)
    | NickAt(nick: Text)
    | NickHost(nick: Text, host: Text)
    | NickUserHost(nick: Text, user: Text, host: Text)
  {
    function Print(): Text {
      match this
      case Server(host) => host
      case Nick(nick) => nick
      case NickBang(nick) => nick + [BANG]
      case NickAt(nick) => nick + [AT]
      case NickHost(nick, host) => nick + ([AT] + host)
      case NickUserHost(nick, user, host) => nick + ([BANG] + (user + ([AT] + host)))
    }

    predicate Legal(isAddress: AddressTest) {
      match this
      case Server(host) => IsHostname(host)
      case Nick(nick) => IsNickname(nick)
      case NickBang(nick) => IsNickname(nick)
      case NickAt(nick) => IsNickname(nick)
      case NickHost(nick, host) => IsNickname(nick) && IsHost(isAddress, host)
      case NickUserHost(nick, user, host) => IsNickname(nick) && IsUser(user) && IsHost(isAddress, host)
    }
  }

  /** The grammar: `p` is the printed form of some legal shape. */
  ghost predicate IsPrefix(isAddress: AddressTest, p: Text) {
    exists shape: Shape :: shape.Legal(isAddress) && shape.Print() == p
  }

  /** How many octets at the front of `t` belong to the class `p`. */
  function Span(kind: Class, t: Text): (n: nat)
    ensures n <= |t| && All(kind, t[..n]) && (n < |t| ==> !kind.Has(t[n]))
  {
    if t == [] || !kind.Has(t[0]) then 0
    else
      var n := Span(kind, t[1..]);
      assert t[..n + 1] == [t[0]] + t[1..][..n];
      n + 1
  }

  lemma {:induction false} SpanUnique(kind: Class, t: Text, n: nat)
    requires n <= |t| && All(kind, t[..n]) && (n < |t| ==> !kind.Has(t[n]))
    ensures Span(kind, t) == n
  {
    if n > 0 {
      assert t[..n][0] == t[0] && t[1..][..n - 1] == t[..n][1..];
      SpanUnique(kind, t[1..], n - 1);
    }
  }

  /** What may follow `nick@`. */
  predicate HostPart(isAddress: AddressTest, t: Text) {
    t == [] || IsHost(isAddress, t)
  }

  /** What may follow `nick!`: nothing, or a user cut at the first `@`, then a host. */
  predicate UserPart(isAddress: AddressTest, t: Text) {
    var u := Span(UserChar, t);
    t == [] || (0 < u < |t| && t[u] == AT && IsHost(isAddress, t[u + 1..]))
  }

  predicate AfterNick(isAddress: AddressTest, t: Text) {
    || t == []
    || (t[0] == AT && HostPart(isAddress, t[1..]))
    || (t[0] == BANG && UserPart(isAddress, t[1..]))
  }

  /** The nick/user/host forms, cut where the nickname ends. */
  predicate NickForm(isAddress: AddressTest, p: Text) {
    var k := Span(NickChar, p);
    IsNickname(p[..k]) && AfterNick(isAddress, p[k..])
  }

  lemma NickFormAt(isAddress: AddressTest, nick: Text, rest: Text)
    requires All(NickChar, nick) && (rest == [] || !IsNickChar(rest[0]))
    ensures NickForm(isAddress, nick + rest) <==> IsNickname(nick) && AfterNick(isAddress, rest)
  {
    var p := nick + rest;
    assert p[..|nick|] == nick && p[|nick|..] == rest;
    SpanUnique(NickChar, p, |nick|);
  }

  lemma UserPartAt(isAddress: AddressTest, user: Text, rest: Text)
    requires All(UserChar, user) && (rest == [] || !IsUserChar(rest[0]))
    ensures UserPart(isAddress, user + rest) <==>
            user + rest == [] || (|user| > 0 && |rest| > 0 && rest[0] == AT && IsHost(isAddress, rest[1..]))
  {
    var t := user + rest;
    assert t[..|user|] == user;
    SpanUnique(UserChar, t, |user|);
    assert |rest| > 0 ==> t[|user| + 1..] == rest[1..];
  }

  lemma UserHostIsNickForm(isAddress: AddressTest, nick: Text, user: Text, host: Text)
    requires IsNickname(nick) && IsUser(user) && IsHost(isAddress, host)
    ensures NickForm(isAddress, nick + ([BANG] + (user + ([AT] + host))))
  {
    var tail := [AT] + host;
    var rest := [BANG] + (user + tail);
    assert tail[1..] == host;
    UserPartAt(isAddress, user, tail);
    assert rest[1..] == user + tail;
    NickFormAt(isAddress, nick, rest);
  }

  lemma ShapeIsNickForm(isAddress: AddressTest, shape: Shape)
    requires shape.Legal(isAddress) && !shape.Server?
    ensures NickForm(isAddress, shape.Print())
  {
    match shape {
      case Nick(nick) =>
        assert nick + [] == nick;
        NickFormAt(isAddress, nick, []);
      case NickBang(nick) =>
        NickFormAt(isAddress, nick, [BANG]);
      case NickAt(nick) =>
        NickFormAt(isAddress, nick, [AT]);
      case NickHost(nick, host) =>
        assert ([AT] + host)[1..] == host;
        NickFormAt(isAddress, nick, [AT] + host);
      case NickUserHost(nick, user, host) =>
        UserHostIsNickForm(isAddress, nick, user, host);
    }
  }

  lemma UserPartHasShape(isAddress: AddressTest, nick: Text, t: Text)
    requires IsNickname(nick) && UserPart(isAddress, t)
    ensures IsPrefix(isAddress, nick + ([BANG] + t))
  {
    if t == [] {
      assert NickBang(nick).Legal(isAddress) && NickBang(nick).Print() == nick + ([BANG] + t);
    } else {
      var u := Span(UserChar, t);
      var shape := NickUserHost(nick, t[..u], t[u + 1..]);
      assert t == t[..u] + ([AT] + t[u + 1..]);
      assert shape.Legal(isAddress) && shape.Print() == nick + ([BANG] + t);
    }
  }

  lemma HostPartHasShape(isAddress: AddressTest, nick: Text, t: Text)
    requires IsNickname(nick) && HostPart(isAddress, t)
    ensures IsPrefix(isAddress, nick + ([AT] + t))
  {
    if t == [] {
      assert NickAt(nick).Legal(isAddress) && NickAt(nick).Print() == nick + ([AT] + t);
    } else {
      assert NickHost(nick, t).Legal(isAddress) && NickHost(nick, t).Print() == nick + ([AT] + t);
    }
  }

  lemma NickFormHasShape(isAddress: AddressTest, p: Text)
    requires NickForm(isAddress, p)
    ensures IsPrefix(isAddress, p)
  {
    var k := Span(NickChar, p);
    var nick, rest := p[..k], p[k..];
    assert p == nick + rest;
    if rest == [] {
      assert nick == p;
      assert Nick(p).Legal(isAddress) && Nick(p).Print() == p;
    } else {
      assert rest == [rest[0]] + rest[1..];
      if rest[0] == AT {
        HostPartHasShape(isAddress, nick, rest[1..]);
      } else {
        UserPartHasShape(isAddress, nick, rest[1..]);
      }
    }
  }

  /** Every legal prefix is a hostname or splits at its first separators, and conversely. */
  lemma PrefixCases(isAddress: AddressTest, p: Text)
    ensures IsPrefix(isAddress, p) <==> IsHostname(p) || NickForm(isAddress, p)
  {
    if IsPrefix(isAddress, p) {
      var shape: Shape :| shape.Legal(isAddress) && shape.Print() == p;
      if !shape.Server? {
        ShapeIsNickForm(isAddress, shape);
      }
    }
    if IsHostname(p) {
      assert Server(p).Legal(isAddress) && Server(p).Print() == p;
    }
    if NickForm(isAddress, p) {
      NickFormHasShape(isAddress, p);
    }
  }

  datatype ScanState = InNickname | InUser | InHost

  /** What the scanner's variables mean after `cur` octets of `p`. */
  ghost predicate ScanInv(p: Text, cur: nat, state: ScanState, nickLen: nat, userLen: nat,
                          userStart: nat, hostStart: nat)
  {
    && cur <= |p|
    && nickLen <= cur
    && All(NickChar, p[..nickLen])
    && (nickLen > 0 ==> IsNickStart(p[0]))
    && match state
       case InNickname => cur == nickLen && userLen == 0 && userStart == hostStart == |p|
       case InUser =>
         && nickLen < cur && p[nickLen] == BANG
         && userStart == nickLen + 1 && cur == userStart + userLen && hostStart == |p|
         && All(UserChar, p[userStart..cur])
       case InHost =>
         && nickLen < hostStart <= cur && p[hostStart - 1] == AT
         && All(HostChar, p[hostStart..cur])
         && (if userStart == |p| then hostStart == nickLen + 1
             else
               && p[nickLen] == BANG && userStart == nickLen + 1 && hostStart == userStart + userLen + 1
               && All(UserChar, p[userStart..hostStart - 1]))
  }

  lemma AllSnoc(kind: Class, t: Text, i: nat, j: nat)
    requires i <= j < |t| && All(kind, t[i..j]) && kind.Has(t[j])
    ensures All(kind, t[i..j + 1])
  {
    assert t[i..j + 1] == t[i..j] + [t[j]];
  }

  lemma SliceSplits(p: Text, i: nat, j: nat)
    requires i <= j <= |p|
    ensures p[i..] == p[i..j] + p[j..]
  {
  }

  lemma CutAtSeparator(isAddress: AddressTest, p: Text, k: nat)
    requires k < |p| && All(NickChar, p[..k]) && !IsNickChar(p[k])
    ensures NickForm(isAddress, p) <==>
            && IsNickname(p[..k])
            && ((p[k] == AT && HostPart(isAddress, p[k + 1..])) || (p[k] == BANG && UserPart(isAddress, p[k + 1..])))
  {
    assert p == p[..k] + p[k..] && p[k..][1..] == p[k + 1..];
    NickFormAt(isAddress, p[..k], p[k..]);
  }

  lemma CutAtUser(isAddress: AddressTest, p: Text, i: nat, j: nat)
    requires i <= j <= |p| && All(UserChar, p[i..j]) && (j < |p| ==> !IsUserChar(p[j]))
    ensures UserPart(isAddress, p[i..]) <==>
            i == |p| || (i < j < |p| && p[j] == AT && IsHost(isAddress, p[j + 1..]))
  {
    SliceSplits(p, i, j);
    assert j < |p| ==> p[j..][1..] == p[j + 1..];
    UserPartAt(isAddress, p[i..j], p[j..]);
  }

  // What a scan has established when it stops in each of its states, at the end or at an octet it cannot take.

  lemma StopsInNickname(isAddress: AddressTest, p: Text, cur: nat)
    requires cur <= |p| && All(NickChar, p[..cur])
    ensures cur == |p| ==> (NickForm(isAddress, p) <==> IsNickname(p))
    ensures cur < |p| && !IsNickChar(p[cur]) && p[cur] != BANG && p[cur] != AT ==> !NickForm(isAddress, p)
    ensures cur == 0 < |p| && !IsNickStart(p[0]) ==> !NickForm(isAddress, p)
  {
    if cur == |p| {
      assert p[..cur] == p && p + [] == p;
      NickFormAt(isAddress, p, []);
    } else if !IsNickChar(p[cur]) {
      CutAtSeparator(isAddress, p, cur);
    } else {
      var k := Span(NickChar, p);
      assert k > 0 ==> p[..k][0] == p[0];
    }
  }

  lemma StopsInUser(isAddress: AddressTest, p: Text, nickLen: nat, cur: nat)
    requires nickLen < cur <= |p| && All(NickChar, p[..nickLen]) && p[nickLen] == BANG
    requires All(UserChar, p[nickLen + 1..cur]) && (cur < |p| ==> !IsUserChar(p[cur]) && p[cur] != AT)
    ensures NickForm(isAddress, p) <==> IsNickname(p[..nickLen]) && nickLen + 1 == |p|
  {
    CutAtSeparator(isAddress, p, nickLen);
    CutAtUser(isAddress, p, nickLen + 1, cur);
  }

  lemma StopsInUserHost(isAddress: AddressTest, p: Text, nickLen: nat, hostStart: nat)
    requires nickLen + 2 <= hostStart <= |p| && All(NickChar, p[..nickLen]) && p[nickLen] == BANG
    requires All(UserChar, p[nickLen + 1..hostStart - 1]) && p[hostStart - 1] == AT
    ensures NickForm(isAddress, p) <==>
            IsNickname(p[..nickLen]) && hostStart > nickLen + 2 && IsHost(isAddress, p[hostStart..])
  {
    CutAtSeparator(isAddress, p, nickLen);
    var at := hostStart - 1;
    CutAtUser(isAddress, p, nickLen + 1, at);
    assert p[at + 1..] == p[hostStart..];
    assert UserPart(isAddress, p[nickLen + 1..]) <==> nickLen + 1 < at && IsHost(isAddress, p[hostStart..]);
  }

  lemma NotAHost(isAddress: AddressTest, p: Text, hostStart: nat, cur: nat)
    requires hostStart <= cur < |p| && !IsHostChar(p[cur])
    ensures !HostPart(isAddress, p[hostStart..])
  {
    assert p[hostStart..][cur - hostStart] == p[cur];
  }

  method ScanNickForm(isAddress: AddressTest, p: Text) returns (valid: bool)
    ensures valid <==> NickForm(isAddress, p)
  {
    var state := InNickname;
    var nickLen, userLen, hostLen := 0, 0, 0;
    var end := |p|;
    var userStart: nat, hostStart: nat := end, end;

    var cur := 0;
    while cur != end
      invariant ScanInv(p, cur, state, nickLen, userLen, userStart, hostStart)
      decreases end - cur
    {
      var c := p[cur];
      ghost var before := cur;
      cur := cur + 1;
      match state {
        case InNickname =>
          if IsLetter(c) || IsSpecial(c) {
            AllSnoc(NickChar, p, 0, before);
            nickLen := nickLen + 1;
          } else if IsDigit(c) || c == DASH {
            if nickLen == 0 {
              StopsInNickname(isAddress, p, before);
              return false;
            }
            AllSnoc(NickChar, p, 0, before);
            nickLen := nickLen + 1;
          } else if c == BANG {
            userStart := cur;
            state := InUser;
          } else if c == AT {
            hostStart := cur;
            state := InHost;
          } else {
            StopsInNickname(isAddress, p, before);
            return false;
          }
        case InUser =>
          if IsUserChar(c) {
            AllSnoc(UserChar, p, userStart, before);
            userLen := userLen + 1;
          } else if c == AT {
            hostStart := cur;
            state := InHost;
          } else {
            StopsInUser(isAddress, p, nickLen, before);
            return false;
          }
        case InHost =>
          if IsLetter(c) || IsHex(c) || c == DOT || c == COLON || c == DASH {
            AllSnoc(HostChar, p, hostStart, before);
            hostLen := hostLen + 1;
          } else {
            if userStart == end {
              CutAtSeparator(isAddress, p, nickLen);
            } else {
              StopsInUserHost(isAddress, p, nickLen, hostStart);
            }
            NotAHost(isAddress, p, hostStart, before);
            return false;
          }
      }
    }

    match state {
      case InNickname => StopsInNickname(isAddress, p, cur);
      case InUser => StopsInUser(isAddress, p, nickLen, cur);
      case InHost =>
        if userStart == end {
          CutAtSeparator(isAddress, p, nickLen);
        } else {
          StopsInUserHost(isAddress, p, nickLen, hostStart);
        }
    }
    if nickLen < 1 || nickLen > 9 {
      return false;
    }
    if hostStart == end {
      return userStart == end;
    }
    if userStart != end && userLen == 0 {
      return false;
    }
    assert p[hostStart..] == p[hostStart..cur];
    var isHostname := IsValidHostname(p[hostStart..]);
    return isHostname || isAddress(p[hostStart..]);
  }

  /** Tries a server name first, then the nick/user/host forms. */
  method IsValidPrefix(isAddress: AddressTest, p: Text) returns (valid: bool)
    ensures valid <==> IsPrefix(isAddress, p)
  {
    PrefixCases(isAddress, p);
    valid := IsValidHostname(p);
    if !valid {
      valid := ScanNickForm(isAddress, p);
    }
  }
}
