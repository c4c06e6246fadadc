/**
 Which texts begin a legal prefix: a condition on the text itself, with only the beginnings of IP addresses left to
 the address library.
 */
module PrefixStarts {
  import opened Octets
  import opened Hostname
  import opened Prefixes
  import opened Soundness

  /** Something can follow `p` to make it a legal prefix. */
  ghost predicate CanBePrefix(isAddress: AddressTest, p: Text) {
    exists q :: PrefixOk(isAddress, p + q)
  }

  const A: Octet := 0x41

  // ---- The condition ----

  /** A letter after it makes it a hostname. */
  predicate BeginsHostname(t: Text) {
    IsHostname(t + [A])
  }

  /** Some address begins so; that is for the library to say. */
  ghost predicate BeginsAddress(isAddress: AddressTest, t: Text) {
    exists q :: AddressFrom(isAddress, t, q)
  }

  predicate AddressFrom(isAddress: AddressTest, t: Text, q: Text) {
    |t + q| > 0 && All(HostChar, t + q) && isAddress(t + q)
  }

  ghost predicate BeginsHost(isAddress: AddressTest, t: Text) {
    BeginsHostname(t) || BeginsAddress(isAddress, t)
  }

  /** What may come after `nick!`: a user that goes on, or one that has ended and a host that goes on. */
  ghost predicate BeginsUserPart(isAddress: AddressTest, t: Text) {
    var u := Span(UserChar, t);
    u == |t| || (u > 0 && t[u] == AT && BeginsHost(isAddress, t[u + 1..]))
  }

  ghost predicate BeginsAfterNick(isAddress: AddressTest, t: Text) {
    || t == []
    || (t[0] == AT && BeginsHost(isAddress, t[1..]))
    || (t[0] == BANG && BeginsUserPart(isAddress, t[1..]))
  }

  /** A nickname that goes on, or one that has ended and what comes after it. */
  ghost predicate BeginsNickForm(isAddress: AddressTest, p: Text) {
    var k := Span(NickChar, p);
    IsNickname(p[..k]) && BeginsAfterNick(isAddress, p[k..])
  }

  // ---- Hostnames and hosts ----

  lemma {:induction false} ScanGoesOn(t: Text, q: Text, atStart: bool)
    requires Scan(t + q, atStart)
    ensures Scan(t + [A], atStart)
    decreases t
  {
    if t == [] {
      assert ([] + [A])[1..] == [];
    } else {
      assert (t + q)[0] == t[0] && (t + q)[1..] == t[1..] + q;
      assert (t + [A])[0] == t[0] && (t + [A])[1..] == t[1..] + [A];
      ScanGoesOn(t[1..], q, t[0] == DOT);
    }
  }

  lemma HostnameBegins(t: Text, q: Text)
    requires IsHostname(t + q)
    ensures BeginsHostname(t)
  {
    ScanDecides(t + q);
    ScanDecides(t + [A]);
    ScanGoesOn(t, q, true);
  }

  lemma {:induction false} HostnameIsOfHostChars(t: Text)
    requires Scan(t, true) || Scan(t, false)
    ensures All(HostChar, t) && All(PrefixChar, t)
    decreases |t|
  {
    if t != [] {
      HostnameIsOfHostChars(t[1..]);
      assert t == [t[0]] + t[1..];
      AllConcat(HostChar, [t[0]], t[1..]);
      AllConcat(PrefixChar, [t[0]], t[1..]);
    }
  }

  lemma HostCharsArePrefixChars(t: Text)
    requires All(HostChar, t)
    ensures All(PrefixChar, t)
  {
    forall i | 0 <= i < |t| ensures PrefixChar.Has(t[i]) {
      assert HostChar.Has(t[i]);
    }
  }

  lemma HostBegins(isAddress: AddressTest, t: Text, q: Text)
    requires IsHost(isAddress, t + q)
    ensures BeginsHost(isAddress, t)
  {
    if IsHostname(t + q) {
      HostnameBegins(t, q);
    } else {
      assert AddressFrom(isAddress, t, q);
    }
  }

  lemma HostFollows(isAddress: AddressTest, t: Text) returns (q: Text)
    requires BeginsHost(isAddress, t)
    ensures IsHost(isAddress, t + q) && All(PrefixChar, q)
  {
    if BeginsHostname(t) {
      q := [A];
      ScanDecides(t + q);
      HostnameIsOfHostChars(t + q);
    } else {
      q :| AddressFrom(isAddress, t, q);
      AllConcat(HostChar, t, q);
      HostCharsArePrefixChars(q);
    }
  }

  // ---- Spans ----

  lemma SpanGoesOn(kind: Class, t: Text, q: Text)
    ensures Span(kind, t) < |t| ==> Span(kind, t + q) == Span(kind, t)
    ensures Span(kind, t) == |t| ==> Span(kind, t + q) >= |t|
  {
    var k, u := Span(kind, t), t + q;
    assert u[..k] == t[..k];
    if k < |t| {
      SpanUnique(kind, u, k);
    } else {
      forall i | 0 <= i < |t| ensures kind.Has(u[i]) {
        assert u[i] == t[..k][i];
      }
    }
  }

  lemma FullSpan(kind: Class, t: Text)
    requires Span(kind, t) == |t|
    ensures All(kind, t)
  {
    assert t[..|t|] == t;
  }

  // ---- Nickname forms ----

  lemma UserPartBegins(isAddress: AddressTest, t: Text, q: Text)
    requires UserPart(isAddress, t + q)
    ensures BeginsUserPart(isAddress, t)
  {
    SpanGoesOn(UserChar, t, q);
    var u := Span(UserChar, t);
    if u < |t| {
      assert (t + q)[u + 1..] == t[u + 1..] + q;
      HostBegins(isAddress, t[u + 1..], q);
    }
  }

  lemma AfterNickBegins(isAddress: AddressTest, rest: Text, q: Text)
    requires rest != [] && AfterNick(isAddress, rest + q)
    ensures BeginsAfterNick(isAddress, rest)
  {
    assert (rest + q)[0] == rest[0] && (rest + q)[1..] == rest[1..] + q;
    if rest[0] == AT {
      if rest[1..] + q == [] {
        OneLetter();
        assert rest[1..] == [];
      } else {
        HostBegins(isAddress, rest[1..], q);
      }
    } else {
      UserPartBegins(isAddress, rest[1..], q);
    }
  }

  lemma OneLetter()
    ensures BeginsHostname([])
  {
    assert [] + [A] == [A] && [A][1..] == [];
    ScanDecides([A]);
  }

  /** All of it is in the nickname. */
  lemma NicknameBegins(p: Text, q: Text, j: nat)
    requires 0 < |p| <= j <= |p + q| && IsNickname((p + q)[..j]) && All(NickChar, p)
    ensures IsNickname(p)
  {
    assert (p + q)[..j][0] == p[0];
  }

  lemma CutBefore<T>(p: seq<T>, q: seq<T>, k: nat)
    requires k <= |p|
    ensures (p + q)[..k] == p[..k] && (p + q)[k..] == p[k..] + q
  {
  }

  lemma EndedNickBegins(isAddress: AddressTest, p: Text, q: Text, k: nat)
    requires k < |p| && IsNickname((p + q)[..k]) && AfterNick(isAddress, (p + q)[k..]) && k == Span(NickChar, p)
    ensures BeginsNickForm(isAddress, p)
  {
    CutBefore(p, q, k);
    AfterNickBegins(isAddress, p[k..], q);
  }

  lemma NickBegins(isAddress: AddressTest, p: Text, q: Text)
    requires NickForm(isAddress, p + q)
    ensures p == [] || BeginsNickForm(isAddress, p)
  {
    var k := Span(NickChar, p);
    SpanGoesOn(NickChar, p, q);
    if k < |p| {
      EndedNickBegins(isAddress, p, q, k);
    } else if p != [] {
      FullSpan(NickChar, p);
      NicknameBegins(p, q, Span(NickChar, p + q));
      assert p[..k] == p;
    }
  }

  lemma UserFollows(isAddress: AddressTest, t: Text) returns (q: Text)
    requires BeginsUserPart(isAddress, t)
    ensures UserPart(isAddress, t + q) && All(PrefixChar, q)
  {
    var u := Span(UserChar, t);
    if u == |t| {
      FullSpan(UserChar, t);
      q := [A] + [AT, A];
      Assoc(t, [A], [AT, A]);
      AllConcat(UserChar, t, [A]);
      OneLetter();
      assert [] + [A] == [A] && [AT, A][1..] == [A];
      UserPartAt(isAddress, t + [A], [AT, A]);
    } else {
      var host := t[u + 1..];
      q := HostFollows(isAddress, host);
      SpanGoesOn(UserChar, t, q);
      assert (t + q)[u + 1..] == host + q;
    }
  }

  lemma AfterNickFollows(isAddress: AddressTest, rest: Text) returns (q: Text)
    requires rest != [] && BeginsAfterNick(isAddress, rest)
    ensures AfterNick(isAddress, rest + q) && (rest + q)[0] == rest[0] && All(PrefixChar, q)
  {
    if rest[0] == AT {
      q := HostFollows(isAddress, rest[1..]);
    } else {
      q := UserFollows(isAddress, rest[1..]);
    }
    assert (rest + q)[0] == rest[0] && (rest + q)[1..] == rest[1..] + q;
  }

  lemma NickFollows(isAddress: AddressTest, p: Text) returns (q: Text)
    requires BeginsNickForm(isAddress, p)
    ensures NickForm(isAddress, p + q) && All(PrefixChar, q)
  {
    var k := Span(NickChar, p);
    var nick, rest := p[..k], p[k..];
    assert nick + rest == p;
    if k == |p| {
      q := [];
      NothingMore(p);
      NickFormAt(isAddress, nick, rest);
    } else {
      q := AfterNickFollows(isAddress, rest);
      NickFormAt(isAddress, nick, rest + q);
      Assoc(nick, rest, q);
    }
  }

  // ---- The theorem ----

  /** A text begins a legal prefix exactly when it consists of prefix characters and begins a hostname or one of
      the nickname forms. */
  lemma CanBePrefixExactly(isAddress: AddressTest, p: Text)
    ensures CanBePrefix(isAddress, p) <==>
            All(PrefixChar, p) && (BeginsHostname(p) || BeginsNickForm(isAddress, p))
  {
    if q :| PrefixOk(isAddress, p + q) {
      PrefixBegins(isAddress, p, q);
    }
    if All(PrefixChar, p) && (BeginsHostname(p) || BeginsNickForm(isAddress, p)) {
      var q := PrefixFollows(isAddress, p);
    }
  }

  lemma PrefixBegins(isAddress: AddressTest, p: Text, q: Text)
    requires PrefixOk(isAddress, p + q)
    ensures All(PrefixChar, p) && (BeginsHostname(p) || BeginsNickForm(isAddress, p))
  {
    AllConcat(PrefixChar, p, q);
    PrefixCases(isAddress, p + q);
    if IsHostname(p + q) {
      HostnameBegins(p, q);
    } else {
      OneLetter();
      NickBegins(isAddress, p, q);
    }
  }

  lemma PrefixFollows(isAddress: AddressTest, p: Text) returns (q: Text)
    requires All(PrefixChar, p) && (BeginsHostname(p) || BeginsNickForm(isAddress, p))
    ensures PrefixOk(isAddress, p + q)
  {
    if BeginsHostname(p) {
      q := [A];
    } else {
      q := NickFollows(isAddress, p);
    }
    AllConcat(PrefixChar, p, q);
    PrefixCases(isAddress, p + q);
  }
}
